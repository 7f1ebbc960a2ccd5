/** The pages of a collegebook: an order that grows at the end and halves in the
    middle, over exact numbers. */
module PageOrder {
  import opened Common

  type Id = string

  /** What the order of pages depends on: the book a note is in, its place
      there, and whether it is deleted. */
  datatype Note = Note(book: Option<Id>, order: Option<real>, deleted: bool)

  type Notes = map<Id, Note>

  predicate Live(notes: Notes, book: Id, id: Id) {
    id in notes && notes[id].book == Some(book) && notes[id].order.Some? && !notes[id].deleted
  }

  /** The order of a page, which no other note has. */
  function OrderOf(notes: Notes, id: Id): real {
    if id in notes && notes[id].order.Some? then notes[id].order.value else 0.0
  }

  ghost predicate Distinct(notes: Notes, book: Id) {
    forall a, b :: Live(notes, book, a) && Live(notes, book, b) && a != b ==> OrderOf(notes, a) != OrderOf(notes, b)
  }

  /** The pages of the book as they are read. */
  ghost predicate Reads(notes: Notes, book: Id, pages: seq<Id>) {
    && (forall id :: id in pages <==> Live(notes, book, id))
    && (forall i, j :: 0 <= i < j < |pages| ==>
        OrderOf(notes, pages[i]) <= OrderOf(notes, pages[j]) && pages[i] != pages[j])
  }

  // ---------- Where a new page goes ----------

  /** A page with no live one after it goes one further; any other goes halfway
      to the next. */
  function OrderAfter(notes: Notes, pages: seq<Id>, order: real): real
  {
    if pages == [] then order + 1.0
    else if OrderOf(notes, pages[0]) > order then (order + OrderOf(notes, pages[0])) / 2.0
    else OrderAfter(notes, pages[1..], order)
  }

  function LastOrder(notes: Notes, pages: seq<Id>): real
  {
    if pages == [] then 0.0 else OrderOf(notes, pages[|pages| - 1])
  }

  /** The new order lies above the given one with no live page up to it in between. */
  lemma {:induction false} OrderAfterIsNext(notes: Notes, pages: seq<Id>, order: real)
    requires forall i, j :: 0 <= i < j < |pages| ==> OrderOf(notes, pages[i]) <= OrderOf(notes, pages[j])
    ensures order < OrderAfter(notes, pages, order)
    ensures forall id :: id in pages ==>
            OrderOf(notes, id) <= order || OrderAfter(notes, pages, order) < OrderOf(notes, id)
  {
    if pages != [] {
      if OrderOf(notes, pages[0]) > order {
        forall id | id in pages
          ensures OrderOf(notes, pages[0]) <= OrderOf(notes, id)
        {
          var i :| 0 <= i < |pages| && pages[i] == id;
        }
      } else {
        OrderAfterIsNext(notes, pages[1..], order);
      }
    }
  }

  lemma LastOrderIsTop(notes: Notes, pages: seq<Id>)
    requires forall i, j :: 0 <= i < j < |pages| ==> OrderOf(notes, pages[i]) <= OrderOf(notes, pages[j])
    ensures forall id :: id in pages ==> OrderOf(notes, id) <= LastOrder(notes, pages)
  {
    forall id | id in pages
      ensures OrderOf(notes, id) <= LastOrder(notes, pages)
    {
      var i :| 0 <= i < |pages| && pages[i] == id;
    }
  }

  ghost predicate Highest(notes: Notes, book: Id, top: Id) {
    forall p :: Live(notes, book, p) ==> OrderOf(notes, p) <= OrderOf(notes, top)
  }

  /** The order of a page at the end: one above the highest live page. */
  ghost predicate AtEnd(notes: Notes, book: Id, o: real) {
    && ((forall p :: !Live(notes, book, p)) ==> o == 1.0)
    && (forall top :: Live(notes, book, top) && Highest(notes, book, top) ==> o == OrderOf(notes, top) + 1.0)
  }

  ghost predicate NearestAbove(notes: Notes, book: Id, from: real, next: Id) {
    && from < OrderOf(notes, next)
    && (forall p :: Live(notes, book, p) && from < OrderOf(notes, p) ==> OrderOf(notes, next) <= OrderOf(notes, p))
  }

  /** The order of a page between: one above the anchor when no live page lies
      above that, and else halfway to the nearest of those that do. */
  ghost predicate Between(notes: Notes, book: Id, from: real, o: real) {
    && ((forall p :: Live(notes, book, p) ==> OrderOf(notes, p) <= from) ==> o == from + 1.0)
    && (forall next :: Live(notes, book, next) && NearestAbove(notes, book, from, next) ==>
        o == (from + OrderOf(notes, next)) / 2.0)
  }

  lemma LastOrderIsEnd(notes: Notes, book: Id, pages: seq<Id>)
    requires Reads(notes, book, pages)
    ensures AtEnd(notes, book, LastOrder(notes, pages) + 1.0)
    ensures forall p :: Live(notes, book, p) ==> OrderOf(notes, p) <= LastOrder(notes, pages)
  {
    LastOrderIsTop(notes, pages);
    if pages == [] {
      forall p
        ensures !Live(notes, book, p)
      {
        assert p in pages <==> Live(notes, book, p);
      }
    } else {
      assert Live(notes, book, pages[|pages| - 1]) by { assert pages[|pages| - 1] in pages; }
    }
  }

  /** The first page of the reading above the anchor is the nearest one. */
  lemma {:induction false} OrderAfterIsBetween(notes: Notes, pages: seq<Id>, order: real, next: Id)
    requires forall i, j :: 0 <= i < j < |pages| ==> OrderOf(notes, pages[i]) <= OrderOf(notes, pages[j])
    requires next in pages && order < OrderOf(notes, next)
    requires forall p :: p in pages && order < OrderOf(notes, p) ==> OrderOf(notes, next) <= OrderOf(notes, p)
    ensures OrderAfter(notes, pages, order) == (order + OrderOf(notes, next)) / 2.0
  {
    var i :| 0 <= i < |pages| && pages[i] == next;
    if OrderOf(notes, pages[0]) > order {
      assert pages[0] in pages;
    } else {
      assert pages[1..][i - 1] == next;
      OrderAfterIsBetween(notes, pages[1..], order, next);
    }
  }

  lemma {:induction false} OrderAfterAll(notes: Notes, pages: seq<Id>, order: real)
    requires forall p :: p in pages ==> OrderOf(notes, p) <= order
    ensures OrderAfter(notes, pages, order) == order + 1.0
  {
    if pages != [] {
      assert pages[0] in pages;
      OrderAfterAll(notes, pages[1..], order);
    }
  }

  lemma OrderAfterPlaces(notes: Notes, book: Id, pages: seq<Id>, from: real)
    requires Reads(notes, book, pages)
    ensures Between(notes, book, from, OrderAfter(notes, pages, from))
  {
    var o := OrderAfter(notes, pages, from);
    if forall p :: Live(notes, book, p) ==> OrderOf(notes, p) <= from {
      OrderAfterAll(notes, pages, from);
    }
    forall next | Live(notes, book, next) && NearestAbove(notes, book, from, next)
      ensures o == (from + OrderOf(notes, next)) / 2.0
    {
      assert next in pages;
      OrderAfterIsBetween(notes, pages, from, next);
    }
  }

  // ---------- The operations ----------

  /** A new page of the book at an order no live page of it has. */
  ghost predicate PageAdded(before: Notes, after: Notes, book: Id, id: Id, order: real) {
    && id !in before && after == before[id := Note(Some(book), Some(order), false)]
    && (forall p :: Live(before, book, p) ==> OrderOf(before, p) != order)
  }

  lemma NewPage(notes: Notes, book: Id, pages: seq<Id>, id: Id, from: real, order: real)
    requires Reads(notes, book, pages) && id !in notes
    requires from < order && forall p :: p in pages ==> OrderOf(notes, p) <= from || order < OrderOf(notes, p)
    ensures var after := notes[id := Note(Some(book), Some(order), false)];
            && PageAdded(notes, after, book, id, order) && OrderOf(after, id) == order
            && (forall p :: Live(notes, book, p) ==> OrderOf(after, p) <= from || order < OrderOf(after, p))
  {
    forall p | Live(notes, book, p)
      ensures OrderOf(notes, p) <= from || order < OrderOf(notes, p)
    {
      assert p in pages;
    }
  }

  class Library {
    var notes: Notes

    constructor ()
      ensures notes == map[]
    {
      notes := map[];
    }

    method Lowest(ids: set<Id>) returns (id: Id)
      requires ids != {}
      ensures id in ids && forall i :: i in ids ==> OrderOf(notes, id) <= OrderOf(notes, i)
    {
      id :| id in ids;
      var rest := ids - {id};
      while rest != {}
        invariant id in ids && rest <= ids
        invariant forall i :: i in ids ==> i in rest || OrderOf(notes, id) <= OrderOf(notes, i)
        decreases rest
      {
        var i :| i in rest;
        if OrderOf(notes, i) < OrderOf(notes, id) {
          id := i;
        }
        rest := rest - {i};
      }
    }

    method ListPages(book: Id) returns (pages: seq<Id>)
      ensures Reads(notes, book, pages)
      ensures forall id :: id in pages <==>
                id in notes && notes[id].book == Some(book) && notes[id].order.Some? && !notes[id].deleted
      ensures forall i, j :: 0 <= i < j < |pages| ==>
                pages[i] != pages[j] && notes[pages[i]].order.value <= notes[pages[j]].order.value
    {
      pages := [];
      var rest := set id | id in notes && Live(notes, book, id);
      while rest != {}
        invariant forall id :: id in rest ==> Live(notes, book, id)
        invariant forall id :: Live(notes, book, id) <==> id in rest || id in pages
        invariant forall id :: id in pages ==> id !in rest
        invariant forall i, j :: 0 <= i < j < |pages| ==>
                    OrderOf(notes, pages[i]) <= OrderOf(notes, pages[j]) && pages[i] != pages[j]
        invariant forall i, id :: 0 <= i < |pages| && id in rest ==> OrderOf(notes, pages[i]) <= OrderOf(notes, id)
        decreases rest
      {
        var id := Lowest(rest);
        pages := pages + [id];
        rest := rest - {id};
      }
    }

    /** A page at the end: above every live page of the book. */
    method CreatePage(book: Id, id: Id)
      requires id !in notes
      modifies this
      ensures id in notes && PageAdded(old(notes), notes, book, id, OrderOf(notes, id))
      ensures AtEnd(old(notes), book, OrderOf(notes, id))
      ensures forall p :: Live(old(notes), book, p) ==> OrderOf(old(notes), p) < OrderOf(notes, id)
    {
      var pages := ListPages(book);
      LastOrderIsEnd(notes, book, pages);
      var order := LastOrder(notes, pages) + 1.0;
      ghost var before := notes;
      notes := notes[id := Note(Some(book), Some(order), false)];
      assert PageAdded(before, notes, book, id, order);
    }

    /** A page after another: an error if that one is no page, whether or not it
        is deleted; else above it, and below every live page above it. */
    method InsertPageAfter(anchor: Id, id: Id) returns (ok: bool)
      requires id !in notes
      modifies this
      ensures ok <==> anchor in old(notes) && old(notes)[anchor].book.Some? && old(notes)[anchor].order.Some?
      ensures !ok ==> notes == old(notes)
      ensures ok ==>
                var book, order := old(notes)[anchor].book.value, OrderOf(old(notes), anchor);
                && PageAdded(old(notes), notes, book, id, OrderOf(notes, id))
                && Between(old(notes), book, order, OrderOf(notes, id))
                && order < OrderOf(notes, id)
                && (forall p :: Live(old(notes), book, p) ==>
                    OrderOf(notes, p) <= order || OrderOf(notes, id) < OrderOf(notes, p))
    {
      if anchor !in notes || notes[anchor].book.None? || notes[anchor].order.None? {
        return false;
      }
      var book := notes[anchor].book.value;
      var pages := ListPages(book);
      var from := OrderOf(notes, anchor);
      OrderAfterIsNext(notes, pages, from);
      OrderAfterPlaces(notes, book, pages, from);
      var order := OrderAfter(notes, pages, from);
      NewPage(notes, book, pages, id, from, order);
      hide Between;
      hide PageAdded;
      notes := notes[id := Note(Some(book), Some(order), false)];
      ok := true;
    }

    method DeleteNote(id: Id)
      modifies this
      ensures notes == if id in old(notes) then old(notes)[id := old(notes)[id].(deleted := true)] else old(notes)
    {
      if id in notes {
        notes := notes[id := notes[id].(deleted := true)];
      }
    }
  }

  // ---------- Any run of them ----------

  ghost predicate OneStep(before: Notes, after: Notes) {
    || (exists book, id, order: real :: PageAdded(before, after, book, id, order))
    || (exists id :: id in before && after == before[id := before[id].(deleted := true)])
    || after == before
  }

  ghost predicate Steps(states: seq<Notes>) {
    states != [] && forall i :: 0 <= i < |states| - 1 ==> OneStep(states[i], states[i + 1])
  }

  lemma StepKeepsDistinct(before: Notes, after: Notes, book: Id)
    requires OneStep(before, after) && Distinct(before, book)
    ensures Distinct(after, book)
    ensures forall p :: p in before ==> p in after && after[p].order == before[p].order
  {
    if b, id, order: real :| PageAdded(before, after, b, id, order) {
      forall x, y | Live(after, book, x) && Live(after, book, y) && x != y
        ensures OrderOf(after, x) != OrderOf(after, y)
      {
        assert x != id ==> Live(before, book, x);
        assert y != id ==> Live(before, book, y);
      }
    } else {
      forall x | Live(after, book, x)
        ensures Live(before, book, x) && OrderOf(after, x) == OrderOf(before, x)
      {
      }
    }
  }

  /** Whatever pages are added and deleted, one after another, the live pages of
      a book keep strictly distinct orders and no page's order ever changes. */
  lemma {:induction false} RunKeepsDistinct(states: seq<Notes>, i: nat, book: Id)
    requires Steps(states) && Distinct(states[0], book) && i < |states|
    ensures Distinct(states[i], book)
    ensures forall p :: p in states[0] ==> p in states[i] && states[i][p].order == states[0][p].order
  {
    if i > 0 {
      RunKeepsDistinct(states, i - 1, book);
      assert OneStep(states[i - 1], states[i - 1 + 1]);
      StepKeepsDistinct(states[i - 1], states[i], book);
    }
  }

  // ---------- Where the new page is read ----------

  lemma SameEmpty(a: seq<Id>, b: seq<Id>)
    requires forall id :: id in a <==> id in b
    ensures a == [] <==> b == []
  {
    assert a != [] ==> a[0] in a;
    assert b != [] ==> b[0] in b;
  }

  ghost predicate Ordered(notes: Notes, book: Id, pages: seq<Id>) {
    && (forall id :: id in pages ==> Live(notes, book, id))
    && (forall i, j :: 0 <= i < j < |pages| ==>
        OrderOf(notes, pages[i]) <= OrderOf(notes, pages[j]) && pages[i] != pages[j])
  }

  lemma FirstIsLowest(notes: Notes, book: Id, pages: seq<Id>)
    requires Ordered(notes, book, pages) && pages != []
    ensures forall id :: id in pages ==> OrderOf(notes, pages[0]) <= OrderOf(notes, id)
  {
    forall id | id in pages
      ensures OrderOf(notes, pages[0]) <= OrderOf(notes, id)
    {
      var i :| 0 <= i < |pages| && pages[i] == id;
    }
  }

  lemma TailHas(pages: seq<Id>, id: Id)
    requires pages != [] && forall i, j :: 0 <= i < j < |pages| ==> pages[i] != pages[j]
    ensures id in pages[1..] <==> id in pages && id != pages[0]
  {
    if id in pages && id != pages[0] {
      var i :| 0 <= i < |pages| && pages[i] == id;
      assert pages[1..][i - 1] == id;
    }
  }

  /** Distinct orders leave one way to read a book. */
  lemma {:induction false} ReadingUnique(notes: Notes, book: Id, a: seq<Id>, b: seq<Id>)
    requires Distinct(notes, book)
    requires Ordered(notes, book, a) && Ordered(notes, book, b)
    requires forall id :: id in a <==> id in b
    ensures a == b
  {
    SameEmpty(a, b);
    if a != [] {
      FirstIsLowest(notes, book, a);
      FirstIsLowest(notes, book, b);
      assert a[0] in b && b[0] in a;
      assert a[0] == b[0];
      forall id
        ensures id in a[1..] <==> id in b[1..]
      {
        TailHas(a, id);
        TailHas(b, id);
      }
      ReadingUnique(notes, book, a[1..], b[1..]);
      assert a == [a[0]] + a[1..] && b == [b[0]] + b[1..];
    }
  }

  lemma SpotOf(before: Notes, after: Notes, book: Id, id: Id, pages: seq<Id>, at: nat, i: nat)
    requires Reads(before, book, pages) && at < |pages| && i <= |pages|
    requires id !in before && id in after && after == before[id := Note(Some(book), after[id].order, false)]
    ensures var p := (pages[..at + 1] + [id] + pages[at + 1..])[i];
            if i == at + 1 then p == id
            else p == pages[if i <= at then i else i - 1] && p != id && Live(before, book, p)
                 && OrderOf(after, p) == OrderOf(before, p)
  {
    if i != at + 1 {
      assert pages[if i <= at then i else i - 1] in pages;
    }
  }

  /** A page inserted after a live one is read straight after it, and the other
      pages are read as before. */
  lemma ReadStraightAfter(before: Notes, after: Notes, book: Id, anchor: Id, id: Id, pages: seq<Id>, at: nat)
    requires Reads(before, book, pages) && at < |pages| && pages[at] == anchor && Distinct(before, book)
    requires id !in before && id in after && after[id].order.Some?
    requires after == before[id := Note(Some(book), after[id].order, false)]
    requires OrderOf(before, anchor) < OrderOf(after, id)
    requires forall p :: Live(before, book, p) ==>
             OrderOf(after, p) <= OrderOf(before, anchor) || OrderOf(after, id) < OrderOf(after, p)
    ensures Reads(after, book, pages[..at + 1] + [id] + pages[at + 1..])
  {
    var pages' := pages[..at + 1] + [id] + pages[at + 1..];
    forall p
      ensures p in pages' <==> Live(after, book, p)
    {
      assert pages == pages[..at + 1] + pages[at + 1..];
      assert p in pages' <==> p in pages || p == id;
      assert p in pages <==> Live(before, book, p);
    }
    forall i, j | 0 <= i < j < |pages'|
      ensures OrderOf(after, pages'[i]) <= OrderOf(after, pages'[j]) && pages'[i] != pages'[j]
    {
      SpotOf(before, after, book, id, pages, at, i);
      SpotOf(before, after, book, id, pages, at, j);
      if j == at + 1 {
        assert i < at ==> OrderOf(before, pages[i]) <= OrderOf(before, anchor);
      } else if i == at + 1 {
        assert pages[at] != pages[j - 1] && OrderOf(before, pages[at]) <= OrderOf(before, pages[j - 1]);
        assert Live(before, book, pages[j - 1]) && Live(before, book, anchor);
      }
    }
  }

  /** However the book is read afterwards, the new page stands straight after its
      anchor and every other page where it stood. */
  lemma InsertedPageReadNext(before: Notes, after: Notes, book: Id, anchor: Id, id: Id, pages: seq<Id>, at: nat,
                             pages': seq<Id>)
    requires Reads(before, book, pages) && at < |pages| && pages[at] == anchor && Distinct(before, book)
    requires exists o: real :: PageAdded(before, after, book, id, o)
    requires OrderOf(before, anchor) < OrderOf(after, id)
    requires forall p :: Live(before, book, p) ==>
             OrderOf(after, p) <= OrderOf(before, anchor) || OrderOf(after, id) < OrderOf(after, p)
    requires Reads(after, book, pages')
    ensures pages' == pages[..at + 1] + [id] + pages[at + 1..]
  {
    ReadStraightAfter(before, after, book, anchor, id, pages, at);
    assert OneStep(before, after);
    StepKeepsDistinct(before, after, book);
    var expected := pages[..at + 1] + [id] + pages[at + 1..];
    hide OneStep;
    hide PageAdded;
    ReadingUnique(after, book, expected, pages');
  }

  /** A page added to one book leaves every reading of another as it was. */
  lemma OtherBooksReadAlike(before: Notes, after: Notes, book: Id, id: Id, order: real, other: Id, pages: seq<Id>)
    requires PageAdded(before, after, book, id, order) && other != book
    ensures Reads(before, other, pages) <==> Reads(after, other, pages)
  {
    forall p
      ensures Live(before, other, p) <==> Live(after, other, p)
      ensures Live(before, other, p) ==> OrderOf(before, p) == OrderOf(after, p)
    {
    }
    forall i | 0 <= i < |pages|
      ensures pages[i] in pages
    {
    }
    assert Reads(before, other, pages) || Reads(after, other, pages) ==>
        forall i :: 0 <= i < |pages| ==> OrderOf(before, pages[i]) == OrderOf(after, pages[i]);
    hide PageAdded;
    hide Live;
    hide OrderOf;
  }

  /** When a restored page keeps the orders distinct: exactly when no live page
      has taken its order meanwhile. */
  lemma RestoreKeepsDistinct(notes: Notes, book: Id, id: Id)
    requires Distinct(notes, book) && id in notes && notes[id].deleted
    requires notes[id].book == Some(book) && notes[id].order.Some?
    ensures Distinct(notes[id := notes[id].(deleted := false)], book)
            <==> forall p :: Live(notes, book, p) ==> OrderOf(notes, p) != OrderOf(notes, id)
  {
    var after := notes[id := notes[id].(deleted := false)];
    assert Live(after, book, id) && OrderOf(after, id) == OrderOf(notes, id);
    forall p
      ensures p != id ==> (Live(after, book, p) <==> Live(notes, book, p)) && OrderOf(after, p) == OrderOf(notes, p)
    {
    }
    if Distinct(after, book) {
      forall p | Live(notes, book, p)
        ensures OrderOf(notes, p) != OrderOf(notes, id)
      {
        assert Live(after, book, p);
      }
    }
  }

  /** Restoring is what the promise leaves out: a page deleted, another made at
      the order it left free, and the first restored, are two live pages at one
      order. */
  lemma RestoreCanCollide(book: Id, a: Id, b: Id)
    requires a != b
    ensures exists n0: Notes, n1: Notes, n2: Notes, order: real ::
              && PageAdded(map[], n0, book, a, order)
              && a in n0 && n1 == n0[a := n0[a].(deleted := true)]
              && PageAdded(n1, n2, book, b, order)
              && a in n2 && !Distinct(n2[a := n2[a].(deleted := false)], book)
  {
    var live := Note(Some(book), Some(1.0), false);
    var gone := live.(deleted := true);
    var n0: Notes, n1: Notes, n2: Notes := map[a := live], map[a := gone], map[a := gone, b := live];
    assert n1 == n0[a := n0[a].(deleted := true)];
    assert PageAdded(map[], n0, book, a, 1.0);
    assert n2 == n1[b := live] && PageAdded(n1, n2, book, b, 1.0);
    var n3 := n2[a := n2[a].(deleted := false)];
    assert Live(n3, book, a) && Live(n3, book, b) && OrderOf(n3, a) == OrderOf(n3, b);
  }
}
