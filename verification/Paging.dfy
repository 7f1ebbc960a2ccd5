/** A page of the pull: four tables, each read in seq order and cut at one row
    past the limit, merged into the `limit` lowest seqs of the whole stream. */
module Paging {
  import opened Common
  import opened Rows
  import opened Server

  // ---------- The specification, on the whole untruncated tables ----------

  datatype Page = Page(rows: map<Key, Row>, cursor: nat, more: bool)

  /** The user's rows above a position of the stream. */
  function Above(db: Database, user: User, since: nat): set<Key> {
    set k | k in db.rows && db.rows[k].author == user && db.rows[k].seqNo > since
  }

  ghost predicate IsPage(db: Database, user: User, since: nat, limit: nat, p: Page) {
    var above := Above(db, user, since);
    && p.rows == (map k | k in above && db.rows[k].seqNo <= p.cursor :: db.rows[k])
    && |p.rows| == Min(limit, |above|)
    && (p.more <==> |above| > limit)
    && (if p.rows == map[] then p.cursor == since
        else exists k :: k in p.rows && p.rows[k].seqNo == p.cursor)
  }

  lemma {:induction false} CardinalityMonotone<T>(a: set<T>, b: set<T>)
    requires a <= b
    ensures |a| <= |b|
    decreases a
  {
    if a != {} {
      var x :| x in a;
      CardinalityMonotone(a - {x}, b - {x});
    }
  }

  lemma SmallerCursor(db: Database, user: User, since: nat, limit: nat, p: Page, q: Page)
    requires IsPage(db, user, since, limit, p) && IsPage(db, user, since, limit, q)
    ensures q.cursor <= p.cursor
  {
    assert |p.rows.Keys| == |p.rows| == |q.rows| == |q.rows.Keys|;
    if q.rows != map[] {
      var k :| k in q.rows && q.rows[k].seqNo == q.cursor;
      if p.cursor < q.cursor {
        assert p.rows.Keys <= q.rows.Keys - {k};
        CardinalityMonotone(p.rows.Keys, q.rows.Keys - {k});
        assert false;
      }
    }
  }

  /** The specification leaves nothing open. */
  lemma PageUnique(db: Database, user: User, since: nat, limit: nat, p: Page, q: Page)
    requires IsPage(db, user, since, limit, p) && IsPage(db, user, since, limit, q)
    ensures p == q
  {
    if p.cursor < q.cursor {
      SmallerCursor(db, user, since, limit, p, q);
    } else if q.cursor < p.cursor {
      SmallerCursor(db, user, since, limit, q, p);
    }
  }

  /** A page takes its rows off the front of the stream and leaves the rest:
      a device with n rows ahead of it has n less the page's rows afterwards. */
  lemma PageShrinksRest(db: Database, user: User, since: nat, limit: nat, p: Page)
    requires IsPage(db, user, since, limit, p)
    ensures since <= p.cursor
    ensures Above(db, user, p.cursor) == Above(db, user, since) - p.rows.Keys
    ensures |Above(db, user, p.cursor)| == Max(0, |Above(db, user, since)| - limit)
    ensures !p.more ==> Above(db, user, p.cursor) == {}
    ensures p.rows != map[] ==> since < p.cursor
  {
    var above := Above(db, user, since);
    if p.rows != map[] {
      var k :| k in p.rows && p.rows[k].seqNo == p.cursor;
      assert k in above;
    }
    assert p.rows.Keys <= above;
    assert Above(db, user, p.cursor) == above - p.rows.Keys;
    assert |p.rows.Keys| == |p.rows|;
    assert |above - p.rows.Keys| == |above| - |p.rows|;
  }

  lemma SameAbove(user: User, db: Database, db': Database, since: nat)
    requires SameFor(user, db, db')
    ensures Above(db', user, since) == Above(db, user, since)
  {
  }

  /** What other accounts push changes no page. */
  lemma SamePage(user: User, db: Database, db': Database, since: nat, limit: nat, p: Page)
    requires SameFor(user, db, db') && IsPage(db, user, since, limit, p)
    ensures IsPage(db', user, since, limit, p)
  {
    SameAbove(user, db, db', since);
    assert forall k :: k in Above(db, user, since) ==> db'.rows[k] == db.rows[k];
    hide SameFor;
  }

  lemma LowestOf(db: Database, keys: set<Key>) returns (k: Key)
    requires keys != {} && keys <= db.rows.Keys
    ensures k in keys && forall j :: j in keys ==> db.rows[k].seqNo <= db.rows[j].seqNo
    decreases keys
  {
    k :| k in keys;
    if keys != {k} {
      var j := LowestOf(db, keys - {k});
      if db.rows[j].seqNo < db.rows[k].seqNo {
        k := j;
      }
    }
  }

  lemma RowsUpTo(db: Database, user: User, since: nat, cursor: nat, rows: map<Key, Row>)
    requires forall j :: j in rows <==> j in Above(db, user, since) && db.rows[j].seqNo <= cursor
    requires forall j :: j in rows ==> j in db.rows && rows[j] == db.rows[j]
    ensures rows == (map j | j in Above(db, user, since) && db.rows[j].seqNo <= cursor :: db.rows[j])
  {
  }

  lemma IsPageAt(db: Database, user: User, since: nat, limit: nat, rows: map<Key, Row>, k: Key)
    requires k in rows && k in db.rows && rows[k] == db.rows[k]
    requires rows == (map j | j in Above(db, user, since) && db.rows[j].seqNo <= db.rows[k].seqNo :: db.rows[j])
    requires |rows| == Min(limit, |Above(db, user, since)|)
    ensures IsPage(db, user, since, limit, Page(rows, db.rows[k].seqNo, |Above(db, user, since)| > limit))
  {
  }

  lemma RowOneMore(db: Database, user: User, since: nat, q: Page, k: Key, j: Key)
    requires SeqsOk(db) && since <= q.cursor && k in Above(db, user, q.cursor)
    requires q.rows == (map i | i in Above(db, user, since) && db.rows[i].seqNo <= q.cursor :: db.rows[i])
    requires forall i :: i in Above(db, user, q.cursor) ==> db.rows[k].seqNo <= db.rows[i].seqNo
    ensures var rows := q.rows[k := db.rows[k]];
            && (j in rows <==> j in Above(db, user, since) && db.rows[j].seqNo <= db.rows[k].seqNo)
            && (j in rows ==> j in db.rows && rows[j] == db.rows[j])
  {
    hide TopRow;
    if j in Above(db, user, since) && j !in q.rows {
      assert j in Above(db, user, q.cursor);
    }
  }

  lemma OneMoreRow(db: Database, user: User, since: nat, limit: nat, q: Page, k: Key)
    requires SeqsOk(db) && limit > 0 && IsPage(db, user, since, limit - 1, q) && since <= q.cursor
    requires k in Above(db, user, q.cursor)
    requires forall j :: j in Above(db, user, q.cursor) ==> db.rows[k].seqNo <= db.rows[j].seqNo
    requires |Above(db, user, q.cursor)| == Max(0, |Above(db, user, since)| - (limit - 1))
    ensures IsPage(db, user, since, limit,
                   Page(q.rows[k := db.rows[k]], db.rows[k].seqNo, |Above(db, user, since)| > limit))
  {
    hide SeqsOk;
    var above, cursor := Above(db, user, since), db.rows[k].seqNo;
    var rows := q.rows[k := db.rows[k]];
    assert k !in q.rows && k in rows && |rows| == |q.rows| + 1;
    assert Above(db, user, q.cursor) != {};
    forall j
      ensures j in rows <==> j in above && db.rows[j].seqNo <= cursor
      ensures j in rows ==> j in db.rows && rows[j] == db.rows[j]
    {
      RowOneMore(db, user, since, q, k, j);
    }
    RowsUpTo(db, user, since, cursor, rows);
    IsPageAt(db, user, since, limit, rows, k);
  }

  lemma EmptyPage(db: Database, user: User, since: nat)
    ensures IsPage(db, user, since, 0, Page(map[], since, Above(db, user, since) != {}))
  {
    assert |Above(db, user, since)| > 0 <==> Above(db, user, since) != {};
  }

  lemma PageEnds(db: Database, user: User, since: nat, limit: nat, q: Page)
    requires limit > 0 && IsPage(db, user, since, limit - 1, q) && Above(db, user, q.cursor) == {}
    requires |Above(db, user, q.cursor)| == Max(0, |Above(db, user, since)| - (limit - 1))
    ensures IsPage(db, user, since, limit, q.(more := false))
  {
  }

  /** There always is a page. */
  lemma {:induction false} PageExists(db: Database, user: User, since: nat, limit: nat) returns (p: Page)
    requires SeqsOk(db)
    ensures IsPage(db, user, since, limit, p)
    decreases limit
  {
    hide IsPage;
    hide SeqsOk;
    if limit == 0 {
      p := Page(map[], since, Above(db, user, since) != {});
      EmptyPage(db, user, since);
    } else {
      var q := PageExists(db, user, since, limit - 1);
      PageShrinksRest(db, user, since, limit - 1, q);
      var rest := Above(db, user, q.cursor);
      if rest == {} {
        p := q.(more := false);
        PageEnds(db, user, since, limit, q);
      } else {
        var k := LowestOf(db, rest);
        p := Page(q.rows[k := db.rows[k]], db.rows[k].seqNo, |Above(db, user, since)| > limit);
        OneMoreRow(db, user, since, limit, q, k);
      }
    }
  }

  // ---------- What the handler computes ----------

  datatype Entry = Entry(key: Key, row: Row)

  datatype Response = Response(classes: seq<Entry>, notebooks: seq<Entry>, notes: seq<Entry>,
                               deadlines: seq<Entry>, cursor: nat, hasMore: bool)

  function Nos(list: seq<Entry>): (nos: seq<nat>)
    ensures |nos| == |list|
    ensures forall i :: 0 <= i < |list| ==> nos[i] == list[i].row.seqNo
  {
    seq(|list|, i requires 0 <= i < |list| => list[i].row.seqNo)
  }

  function Inserted(x: nat, s: seq<nat>): (t: seq<nat>)
    requires forall i, j :: 0 <= i <= j < |s| ==> s[i] <= s[j]
    ensures |t| == |s| + 1
    ensures forall i, j :: 0 <= i <= j < |t| ==> t[i] <= t[j]
    ensures t[|t| - 1] == x || (s != [] && t[|t| - 1] == s[|s| - 1])
  {
    if s == [] || s[|s| - 1] <= x then s + [x]
    else
      var front := Inserted(x, s[..|s| - 1]);
      front + [s[|s| - 1]]
  }

  /** Stands for the library's sort: the same numbers, in order. */
  function Sorted(s: seq<nat>): (t: seq<nat>)
    ensures |t| == |s|
    ensures forall i, j :: 0 <= i <= j < |t| ==> t[i] <= t[j]
  {
    if s == [] then [] else Inserted(s[|s| - 1], Sorted(s[..|s| - 1]))
  }

  /** How many of the numbers are at most c. */
  function CountUpTo(s: seq<nat>, c: int): nat {
    if s == [] then 0 else CountUpTo(s[..|s| - 1], c) + (if s[|s| - 1] <= c then 1 else 0)
  }

  lemma {:induction false} InsertedCount(x: nat, s: seq<nat>, c: int)
    requires forall i, j :: 0 <= i <= j < |s| ==> s[i] <= s[j]
    ensures CountUpTo(Inserted(x, s), c) == CountUpTo(s, c) + (if x <= c then 1 else 0)
  {
    if s == [] || s[|s| - 1] <= x {
      assert (s + [x])[..|s|] == s;
    } else {
      var front := Inserted(x, s[..|s| - 1]);
      InsertedCount(x, s[..|s| - 1], c);
      assert (front + [s[|s| - 1]])[..|front|] == front;
    }
  }

  lemma {:induction false} SortedCount(s: seq<nat>, c: int)
    ensures CountUpTo(Sorted(s), c) == CountUpTo(s, c)
  {
    if s != [] {
      SortedCount(s[..|s| - 1], c);
      InsertedCount(s[|s| - 1], Sorted(s[..|s| - 1]), c);
    }
  }

  /** The rows of a table up to the first one above the cursor. */
  function Share(list: seq<Entry>, cursor: nat): seq<Entry> {
    if list == [] || list[0].row.seqNo > cursor then [] else [list[0]] + Share(list[1..], cursor)
  }

  lemma {:induction false} ShareMeans(list: seq<Entry>, cursor: nat)
    ensures var share := Share(list, cursor);
            && share <= list && (forall e :: e in share ==> e.row.seqNo <= cursor)
            && (|share| < |list| ==> list[|share|].row.seqNo > cursor)
  {
    if list != [] && list[0].row.seqNo <= cursor {
      ShareMeans(list[1..], cursor);
      assert list == [list[0]] + list[1..];
    }
  }

  function Merged(since: nat, limit: nat, classes: seq<Entry>, notebooks: seq<Entry>,
                  notes: seq<Entry>, deadlines: seq<Entry>): Response
  {
    var nos := Sorted(Nos(classes + notebooks + notes + deadlines));
    var kept := Min(limit, |nos|);
    var cursor := if kept == 0 then since else nos[kept - 1];
    Response(Share(classes, cursor), Share(notebooks, cursor), Share(notes, cursor),
             Share(deadlines, cursor), cursor, |nos| > limit)
  }

  method TakeShare(list: seq<Entry>, cursor: nat) returns (share: seq<Entry>)
    ensures share == Share(list, cursor)
  {
    share := [];
    for i := 0 to |list|
      invariant share == list[..i]
      invariant share + Share(list[i..], cursor) == Share(list, cursor)
    {
      if list[i].row.seqNo > cursor {
        break;
      }
      share := share + [list[i]];
    }
  }

  lemma OneMoreNo(before: seq<Entry>, list: seq<Entry>, i: nat)
    requires i < |list|
    ensures Nos(before + list[..i + 1]) == Nos(before + list[..i]) + [list[i].row.seqNo]
  {
    assert before + list[..i + 1] == before + list[..i] + [list[i]];
  }

  /** The handler's loops compute exactly that merge. */
  method MergePage(since: nat, limit: nat, classes: seq<Entry>, notebooks: seq<Entry>,
                   notes: seq<Entry>, deadlines: seq<Entry>) returns (body: Response)
    ensures body == Merged(since, limit, classes, notebooks, notes, deadlines)
  {
    hide Nos;
    hide Share;
    hide Sorted;
    var nos: seq<nat> := [];
    assert Nos([] + classes[..0]) == [];
    for i := 0 to |classes|
      invariant nos == Nos([] + classes[..i])
    {
      OneMoreNo([], classes, i);
      nos := nos + [classes[i].row.seqNo];
    }
    assert [] + classes[..|classes|] == classes + notebooks[..0];
    for i := 0 to |notebooks|
      invariant nos == Nos(classes + notebooks[..i])
    {
      OneMoreNo(classes, notebooks, i);
      nos := nos + [notebooks[i].row.seqNo];
    }
    assert classes + notebooks[..|notebooks|] == classes + notebooks + notes[..0];
    for i := 0 to |notes|
      invariant nos == Nos(classes + notebooks + notes[..i])
    {
      OneMoreNo(classes + notebooks, notes, i);
      nos := nos + [notes[i].row.seqNo];
    }
    assert classes + notebooks + notes[..|notes|] == classes + notebooks + notes + deadlines[..0];
    for i := 0 to |deadlines|
      invariant nos == Nos(classes + notebooks + notes + deadlines[..i])
    {
      OneMoreNo(classes + notebooks + notes, deadlines, i);
      nos := nos + [deadlines[i].row.seqNo];
    }
    assert deadlines[..|deadlines|] == deadlines;
    nos := Sorted(nos);
    var hasMore := |nos| > limit;
    if hasMore {
      nos := nos[..limit];
    }
    var cursor := since;
    if |nos| > 0 {
      cursor := nos[|nos| - 1];
    }
    var c := TakeShare(classes, cursor);
    var b := TakeShare(notebooks, cursor);
    var n := TakeShare(notes, cursor);
    var d := TakeShare(deadlines, cursor);
    body := Response(c, b, n, d, cursor, hasMore);
  }

  ghost predicate Increasing(list: seq<Entry>) {
    forall i, j :: 0 <= i < j < |list| ==> list[i].row.seqNo < list[j].row.seqNo
  }

  function AboveIn(db: Database, user: User, table: Table, since: nat): set<Key> {
    set k | k in db.rows && k.table == table && db.rows[k].author == user && db.rows[k].seqNo > since
  }

  /** Rows of one table above `since`, in seq order. */
  ghost predicate From(db: Database, user: User, table: Table, since: nat, list: seq<Entry>) {
    && Increasing(list)
    && (forall i :: 0 <= i < |list| ==>
          list[i].key in AboveIn(db, user, table, since) && db.rows[list[i].key] == list[i].row)
  }

  /** The rows of a list by key, a later entry over an earlier one. */
  function RowsOf(list: seq<Entry>): map<Key, Row> {
    if list == [] then map[]
    else RowsOf(list[..|list| - 1])[list[|list| - 1].key := list[|list| - 1].row]
  }

  /** What one table's query gives: its lowest rows above `since`, in seq
      order, `limit` of them if there are as many. */
  ghost predicate IsSince(db: Database, user: User, table: Table, since: nat, limit: nat, list: seq<Entry>) {
    && From(db, user, table, since, list)
    && |list| <= limit
    && (forall k :: k in AboveIn(db, user, table, since) ==>
          k in RowsOf(list) || (|list| == limit && (limit == 0 || list[limit - 1].row.seqNo < db.rows[k].seqNo)))
  }

  ghost predicate InTable(list: seq<Entry>, table: Table) {
    Increasing(list) && forall i :: 0 <= i < |list| ==> list[i].key.table == table
  }

  /** Every array of a response holds rows of its own table in seq order. */
  ghost predicate Arranged(r: Response) {
    && InTable(r.classes, Classes) && InTable(r.notebooks, Notebooks)
    && InTable(r.notes, Notes) && InTable(r.deadlines, Deadlines)
  }

  // ---------- Counting ----------

  lemma {:induction false} CountConcat(a: seq<nat>, b: seq<nat>, c: int)
    ensures CountUpTo(a + b, c) == CountUpTo(a, c) + CountUpTo(b, c)
  {
    if b == [] {
      assert a + b == a;
    } else {
      assert (a + b)[..|a + b| - 1] == a + b[..|b| - 1];
      CountConcat(a, b[..|b| - 1], c);
    }
  }

  lemma {:induction false} CountAll(s: seq<nat>, c: int)
    requires forall i :: 0 <= i < |s| ==> s[i] <= c
    ensures CountUpTo(s, c) == |s|
  {
    if s != [] { CountAll(s[..|s| - 1], c); }
  }

  lemma {:induction false} CountNone(s: seq<nat>, c: int)
    requires forall i :: 0 <= i < |s| ==> c < s[i]
    ensures CountUpTo(s, c) == 0
  {
    if s != [] { CountNone(s[..|s| - 1], c); }
  }

  /** In a sequence without repeats, raising the bound by one counts at most one more. */
  lemma {:induction false} CountStep(s: seq<nat>, c: int)
    requires forall i, j :: 0 <= i < j < |s| ==> s[i] != s[j]
    ensures CountUpTo(s, c) <= CountUpTo(s, c - 1) + 1
    ensures (forall i :: 0 <= i < |s| ==> s[i] != c) ==> CountUpTo(s, c) == CountUpTo(s, c - 1)
  {
    if s != [] { CountStep(s[..|s| - 1], c); }
  }

  lemma {:induction false} CountMonotone(s: seq<nat>, c: int, d: int)
    requires c <= d
    ensures CountUpTo(s, c) <= CountUpTo(s, d)
  {
    if s != [] { CountMonotone(s[..|s| - 1], c, d); }
  }

  /** A number that stands twice in a row is counted twice by one step of the bound. */
  lemma {:induction false} CountTwice(s: seq<nat>, i: nat)
    requires i + 1 < |s| && s[i] == s[i + 1]
    ensures CountUpTo(s, s[i]) >= CountUpTo(s, s[i] as int - 1) + 2
  {
    if i + 2 < |s| {
      CountTwice(s[..|s| - 1], i);
    } else {
      var front := s[..|s| - 1];
      assert front[..|front| - 1] == s[..i];
      CountMonotone(s[..i], s[i] as int - 1, s[i]);
    }
  }

  /** Sorting numbers that do not repeat leaves them strictly increasing. */
  lemma SortedStrict(s: seq<nat>, i: nat)
    requires forall i, j :: 0 <= i < j < |s| ==> s[i] != s[j]
    requires i + 1 < |s|
    ensures Sorted(s)[i] < Sorted(s)[i + 1]
  {
    hide CountUpTo;
    hide Sorted;
    var t := Sorted(s);
    if t[i] == t[i + 1] {
      CountTwice(t, i);
      CountStep(s, t[i]);
      SortedCount(s, t[i]);
      SortedCount(s, t[i] as int - 1);
      assert false;
    }
  }

  /** The m-th lowest of a strictly increasing sequence bounds exactly m of its numbers. */
  lemma CountOfCut(s: seq<nat>, m: nat)
    requires 0 < m <= |s|
    requires forall i, j :: 0 <= i <= j < |s| ==> s[i] <= s[j]
    requires m < |s| ==> s[m - 1] < s[m]
    ensures CountUpTo(s, s[m - 1]) == m
  {
    hide CountUpTo;
    var x := s[m - 1];
    assert s == s[..m] + s[m..];
    CountConcat(s[..m], s[m..], x);
    CountAll(s[..m], x);
    CountNone(s[m..], x);
  }

  lemma {:induction false} ShareIsFilter(list: seq<Entry>, cursor: nat)
    requires Increasing(list)
    ensures var share := Share(list, cursor);
            && |share| == CountUpTo(Nos(list), cursor) <= |list|
            && share == list[..|share|]
            && (forall i :: 0 <= i < |list| ==> (i < |share| <==> list[i].row.seqNo <= cursor))
  {
    hide CountUpTo;
    if list == [] {
      CountNone(Nos(list), cursor);
    } else if list[0].row.seqNo > cursor {
      CountNone(Nos(list), cursor);
    } else {
      ShareIsFilter(list[1..], cursor);
      assert Nos(list) == [list[0].row.seqNo] + Nos(list[1..]);
      CountConcat([list[0].row.seqNo], Nos(list[1..]), cursor);
      CountAll([list[0].row.seqNo], cursor);
    }
  }

  lemma {:induction false} CountHit(s: seq<nat>, i: nat)
    requires i < |s|
    ensures CountUpTo(s, s[i]) > CountUpTo(s, s[i] as int - 1)
  {
    if i < |s| - 1 {
      CountHit(s[..|s| - 1], i);
    } else {
      CountMonotone(s[..i], s[i] as int - 1, s[i]);
    }
  }

  // ---------- The merge on any four lists ----------

  ghost predicate Distinct(list: seq<Entry>) {
    forall i, j :: 0 <= i < j < |list| ==> list[i].row.seqNo != list[j].row.seqNo
  }

  lemma CutCounts(since: nat, limit: nat, c: seq<Entry>, b: seq<Entry>, n: seq<Entry>, d: seq<Entry>)
    requires Increasing(c) && Increasing(b) && Increasing(n) && Increasing(d)
    requires Distinct(c + b + n + d)
    requires forall i :: 0 <= i < |c + b + n + d| ==> (c + b + n + d)[i].row.seqNo > since
    ensures var all := c + b + n + d;
            var r := Merged(since, limit, c, b, n, d);
            && CountUpTo(Nos(all), r.cursor) == Min(limit, |all|)
            && (Min(limit, |all|) > 0 ==> exists i :: 0 <= i < |all| && all[i].row.seqNo == r.cursor)
  {
    hide CountUpTo;
    hide Sorted;
    hide Share;
    var all := c + b + n + d;
    var nos := Sorted(Nos(all));
    var kept := Min(limit, |nos|);
    if kept == 0 {
      CountNone(Nos(all), since);
    } else {
      var x := nos[kept - 1];
      if kept < |nos| {
        SortedStrict(Nos(all), kept - 1);
      }
      CountOfCut(nos, kept);
      SortedCount(Nos(all), x);
      CountHit(nos, kept - 1);
      SortedCount(Nos(all), x as int - 1);
      CountStep(Nos(all), x);
      assert exists i :: 0 <= i < |all| && Nos(all)[i] == x;
    }
  }

  lemma CountAcross(c: seq<Entry>, b: seq<Entry>, n: seq<Entry>, d: seq<Entry>, cursor: nat)
    ensures CountUpTo(Nos(c + b + n + d), cursor)
            == CountUpTo(Nos(c), cursor) + CountUpTo(Nos(b), cursor)
               + CountUpTo(Nos(n), cursor) + CountUpTo(Nos(d), cursor)
  {
    assert Nos(c + b + n + d) == Nos(c) + Nos(b) + Nos(n) + Nos(d);
    CountConcat(Nos(c) + Nos(b) + Nos(n), Nos(d), cursor);
    CountConcat(Nos(c) + Nos(b), Nos(n), cursor);
    CountConcat(Nos(c), Nos(b), cursor);
  }

  // ---------- As the device reads it ----------

  function PageOf(r: Response): Page {
    Page(RowsOf(r.classes) + RowsOf(r.notebooks) + RowsOf(r.notes) + RowsOf(r.deadlines), r.cursor, r.hasMore)
  }

  lemma {:induction false} RowsOfIndex(list: seq<Entry>, k: Key) returns (i: nat)
    requires k in RowsOf(list)
    ensures i < |list| && list[i].key == k
  {
    i := |list| - 1;
    if list[i].key != k {
      i := RowsOfIndex(list[..i], k);
    }
  }

  lemma {:induction false} RowsOfAt(list: seq<Entry>, i: nat)
    requires i < |list|
    ensures list[i].key in RowsOf(list)
  {
    if i < |list| - 1 {
      RowsOfAt(list[..|list| - 1], i);
    }
  }

  lemma {:induction false} RowsOfFrom(db: Database, user: User, table: Table, since: nat, list: seq<Entry>)
    requires From(db, user, table, since, list)
    ensures |RowsOf(list)| == |list|
    ensures forall k :: k in RowsOf(list) ==> k in AboveIn(db, user, table, since) && RowsOf(list)[k] == db.rows[k]
  {
    if list != [] {
      var front, last := list[..|list| - 1], list[|list| - 1];
      RowsOfFrom(db, user, table, since, front);
      if last.key in RowsOf(front) {
        var i := RowsOfIndex(front, last.key);
        assert false;
      }
    }
  }

  /** The row lies in the stream between two positions. */
  ghost predicate InStretch(db: Database, user: User, since: nat, cursor: nat, k: Key) {
    k in db.rows && db.rows[k].author == user && since < db.rows[k].seqNo <= cursor
  }

  lemma ShareHas(db: Database, user: User, table: Table, since: nat, limit: nat, list: seq<Entry>, cursor: nat, k: Key)
    requires IsSince(db, user, table, since, limit + 1, list)
    requires CountUpTo(Nos(list), cursor) <= limit
    ensures k in RowsOf(Share(list, cursor)) <==> k.table == table && InStretch(db, user, since, cursor, k)
  {
    var share := Share(list, cursor);
    ShareIsFilter(list, cursor);
    hide RowsOf;
    hide Share;
    hide CountUpTo;
    if k in RowsOf(share) {
      var i := RowsOfIndex(share, k);
    }
    if k.table == table && InStretch(db, user, since, cursor, k) {
      assert k in AboveIn(db, user, table, since);
      var i := RowsOfIndex(list, k);
      RowsOfAt(share, i);
    }
  }

  /** A map holds one table's stretch. */
  ghost predicate IsStretch(db: Database, user: User, table: Table, since: nat, cursor: nat, rows: map<Key, Row>) {
    && (forall k: Key :: k in rows <==> k.table == table && InStretch(db, user, since, cursor, k))
    && (forall k :: k in rows ==> rows[k] == db.rows[k])
  }

  /** Cutting a table at one row past the limit loses nothing below a cursor
      that has at most `limit` rows below it. */
  lemma TableShare(db: Database, user: User, table: Table, since: nat, limit: nat, list: seq<Entry>, cursor: nat)
    requires IsSince(db, user, table, since, limit + 1, list)
    requires CountUpTo(Nos(list), cursor) <= limit
    ensures IsStretch(db, user, table, since, cursor, RowsOf(Share(list, cursor)))
    ensures |RowsOf(Share(list, cursor))| == CountUpTo(Nos(list), cursor)
  {
    var share := Share(list, cursor);
    ShareIsFilter(list, cursor);
    RowsOfFrom(db, user, table, since, share);
    hide RowsOf;
    hide Share;
    hide CountUpTo;
    hide IsSince;
    hide From;
    hide InStretch;
    forall k: Key
      ensures k in RowsOf(share) <==> k.table == table && InStretch(db, user, since, cursor, k)
    {
      ShareHas(db, user, table, since, limit, list, cursor, k);
    }
  }

  // ---------- Four reads, possibly of four states ----------

  /** The database each of the four queries of one pull saw. */
  datatype Reads = Reads(classes: Database, notebooks: Database, notes: Database, deadlines: Database) {
    function At(table: Table): Database {
      match table
      case Classes => classes
      case Notebooks => notebooks
      case Notes => notes
      case Deadlines => deadlines
    }
  }

  /** The database put together from the tables as each was read. */
  function AsRead(rd: Reads): Database {
    Database(map k | k in rd.classes.rows.Keys + rd.notebooks.rows.Keys + rd.notes.rows.Keys + rd.deadlines.rows.Keys
                     && k in rd.At(k.table).rows :: rd.At(k.table).rows[k],
             rd.deadlines.lastSeq)
  }

  lemma AsReadAt(rd: Reads, k: Key)
    ensures k in AsRead(rd).rows <==> k in rd.At(k.table).rows
    ensures k in AsRead(rd).rows ==> AsRead(rd).rows[k] == rd.At(k.table).rows[k]
  {
  }

  /** The four lists, by the table each was read from. */
  datatype Lists = Lists(classes: seq<Entry>, notebooks: seq<Entry>, notes: seq<Entry>, deadlines: seq<Entry>) {
    function Of(table: Table): seq<Entry> {
      match table
      case Classes => classes
      case Notebooks => notebooks
      case Notes => notes
      case Deadlines => deadlines
    }

    function All(): seq<Entry> {
      classes + notebooks + notes + deadlines
    }

    function Merge(since: nat, limit: nat): Response {
      Merged(since, limit, classes, notebooks, notes, deadlines)
    }
  }

  ghost predicate Successive(rd: Reads) {
    && (forall t: Table :: SeqsOk(rd.At(t)))
    && (forall s: Table, t: Table :: Rank(s) <= Rank(t) ==> Grew(rd.At(s), rd.At(t)))
  }

  ghost predicate ReadLists(rd: Reads, user: User, since: nat, limit: nat, lists: Lists) {
    forall t: Table :: IsSince(rd.At(t), user, t, since, limit + 1, lists.Of(t))
  }

  lemma GrewReflexive(db: Database)
    ensures Grew(db, db)
  {
    forall k | k in db.rows
      ensures Advanced(db, db, k)
    {
    }
  }

  /** A seq is handed out once, so no two rows share one, not even rows read at
      different times. */
  lemma SeqNosNeverMeet(earlier: Database, later: Database, user: User, j: Key, k: Key)
    requires SeqsOk(earlier) && SeqsOk(later) && Grew(earlier, later)
    requires j in earlier.rows && k in later.rows && j != k
    requires earlier.rows[j].author == user && later.rows[k].author == user
    ensures earlier.rows[j].seqNo != later.rows[k].seqNo
  {
    if k in earlier.rows {
      assert Advanced(earlier, later, k);
    }
  }

  /** Where an entry of the concatenation came from. */
  lemma FromTable(rd: Reads, user: User, since: nat, limit: nat, lists: Lists, i: nat) returns (t: Table, at: nat)
    requires ReadLists(rd, user, since, limit, lists)
    requires i < |lists.All()|
    ensures at < |lists.Of(t)| && lists.Of(t)[at] == lists.All()[i]
    ensures i == at + (if t == Classes then 0 else if t == Notebooks then |lists.classes|
                       else if t == Notes then |lists.classes| + |lists.notebooks|
                       else |lists.classes| + |lists.notebooks| + |lists.notes|)
    ensures lists.All()[i].key in AboveIn(rd.At(t), user, t, since)
    ensures rd.At(t).rows[lists.All()[i].key] == lists.All()[i].row
  {
    var c, b, n := |lists.classes|, |lists.notebooks|, |lists.notes|;
    if i < c {
      t, at := Classes, i;
    } else if i < c + b {
      t, at := Notebooks, i - c;
    } else if i < c + b + n {
      t, at := Notes, i - c - b;
    } else {
      t, at := Deadlines, i - c - b - n;
    }
    assert IsSince(rd.At(t), user, t, since, limit + 1, lists.Of(t));
  }

  lemma ReadsAreDistinct(rd: Reads, user: User, since: nat, limit: nat, lists: Lists)
    requires Successive(rd) && ReadLists(rd, user, since, limit, lists)
    ensures Distinct(lists.All())
    ensures forall i :: 0 <= i < |lists.All()| ==> lists.All()[i].row.seqNo > since
  {
    var all := lists.All();
    forall i | 0 <= i < |all|
      ensures all[i].row.seqNo > since
    {
      var t, at := FromTable(rd, user, since, limit, lists, i);
    }
    forall i, j | 0 <= i < j < |all|
      ensures all[i].row.seqNo != all[j].row.seqNo
    {
      var s, a := FromTable(rd, user, since, limit, lists, i);
      var t, b := FromTable(rd, user, since, limit, lists, j);
      if s == t {
        assert IsSince(rd.At(t), user, t, since, limit + 1, lists.Of(t));
      } else {
        SeqNosNeverMeet(rd.At(s), rd.At(t), user, all[i].key, all[j].key);
      }
    }
  }

  // ---------- The merge is the specification ----------

  /** The page claims everything up to its cursor; it is complete when every
      row of the final state up to there is in it. */
  ghost predicate Complete(db: Database, user: User, since: nat, p: Page) {
    forall k :: k in Above(db, user, since) && db.rows[k].seqNo <= p.cursor ==> k in p.rows && p.rows[k] == db.rows[k]
  }

  /** A write to the row landed after its own table had been read. */
  ghost predicate LandedLate(rd: Reads, k: Key) {
    k in rd.deadlines.rows && (k !in rd.At(k.table).rows || rd.At(k.table).rows[k] != rd.deadlines.rows[k])
  }

  lemma ListRead(rd: Reads, user: User, since: nat, limit: nat, lists: Lists, t: Table)
    requires ReadLists(rd, user, since, limit, lists)
    ensures IsSince(rd.At(t), user, t, since, limit + 1, lists.Of(t)) && Increasing(lists.Of(t))
  {
  }

  /** At most `limit` of the listed rows are up to the cursor, exactly so many
      if there are as many. */
  lemma CursorCount(rd: Reads, user: User, since: nat, limit: nat, lists: Lists)
    requires Successive(rd) && ReadLists(rd, user, since, limit, lists)
    ensures var cursor := lists.Merge(since, limit).cursor;
            && CountUpTo(Nos(lists.classes), cursor) + CountUpTo(Nos(lists.notebooks), cursor)
               + CountUpTo(Nos(lists.notes), cursor) + CountUpTo(Nos(lists.deadlines), cursor)
               == Min(limit, |lists.All()|)
            && (Min(limit, |lists.All()|) > 0 ==>
                exists i :: 0 <= i < |lists.All()| && lists.All()[i].row.seqNo == cursor)
            && (Min(limit, |lists.All()|) == 0 ==> cursor == since)
  {
    hide CountUpTo;
    hide Share;
    hide RowsOf;
    hide Sorted;
    hide Successive;
    hide ReadLists;
    hide IsSince;
    hide Increasing;
    ReadsAreDistinct(rd, user, since, limit, lists);
    hide Distinct;
    ListRead(rd, user, since, limit, lists, Classes);
    ListRead(rd, user, since, limit, lists, Notebooks);
    ListRead(rd, user, since, limit, lists, Notes);
    ListRead(rd, user, since, limit, lists, Deadlines);
    CutCounts(since, limit, lists.classes, lists.notebooks, lists.notes, lists.deadlines);
    CountAcross(lists.classes, lists.notebooks, lists.notes, lists.deadlines, lists.Merge(since, limit).cursor);
  }

  /** Which rows a page holds: of every table, the stretch up to its cursor. */
  ghost predicate HoldsStretch(rd: Reads, user: User, since: nat, p: Page) {
    && (forall k :: k in p.rows <==> InStretch(rd.At(k.table), user, since, p.cursor, k))
    && (forall k :: k in p.rows ==> p.rows[k] == rd.At(k.table).rows[k])
  }

  lemma StretchAt(rd: Reads, user: User, since: nat, c: map<Key, Row>, b: map<Key, Row>,
                  n: map<Key, Row>, d: map<Key, Row>, cursor: nat, k: Key)
    requires IsStretch(rd.classes, user, Classes, since, cursor, c)
    requires IsStretch(rd.notebooks, user, Notebooks, since, cursor, b)
    requires IsStretch(rd.notes, user, Notes, since, cursor, n)
    requires IsStretch(rd.deadlines, user, Deadlines, since, cursor, d)
    ensures k in c + b + n + d <==> InStretch(rd.At(k.table), user, since, cursor, k)
    ensures k in c + b + n + d ==> k in rd.At(k.table).rows && (c + b + n + d)[k] == rd.At(k.table).rows[k]
  {
  }

  lemma StretchesDisjoint(da: Database, db: Database, user: User, s: Table, t: Table, since: nat, cursor: nat,
                          a: map<Key, Row>, b: map<Key, Row>)
    requires IsStretch(da, user, s, since, cursor, a) && IsStretch(db, user, t, since, cursor, b) && s != t
    ensures a.Keys !! b.Keys
  {
    hide InStretch;
  }

  lemma DisjointUnion(a: map<Key, Row>, b: map<Key, Row>)
    requires a.Keys !! b.Keys
    ensures |a + b| == |a| + |b|
  {
    assert (a + b).Keys == a.Keys + b.Keys;
    assert |a.Keys + b.Keys| == |a.Keys| + |b.Keys|;
  }

  lemma FourDisjoint(c: map<Key, Row>, b: map<Key, Row>, n: map<Key, Row>, d: map<Key, Row>)
    requires c.Keys !! b.Keys && c.Keys !! n.Keys && c.Keys !! d.Keys
    requires b.Keys !! n.Keys && b.Keys !! d.Keys && n.Keys !! d.Keys
    ensures |c + b + n + d| == |c| + |b| + |n| + |d|
  {
    DisjointUnion(c, b);
    DisjointUnion(c + b, n);
    DisjointUnion(c + b + n, d);
  }

  lemma FourStretches(rd: Reads, user: User, since: nat, c: map<Key, Row>, b: map<Key, Row>,
                      n: map<Key, Row>, d: map<Key, Row>, cursor: nat, more: bool)
    requires IsStretch(rd.classes, user, Classes, since, cursor, c)
    requires IsStretch(rd.notebooks, user, Notebooks, since, cursor, b)
    requires IsStretch(rd.notes, user, Notes, since, cursor, n)
    requires IsStretch(rd.deadlines, user, Deadlines, since, cursor, d)
    ensures HoldsStretch(rd, user, since, Page(c + b + n + d, cursor, more))
    ensures |c + b + n + d| == |c| + |b| + |n| + |d|
  {
    hide InStretch;
    StretchesDisjoint(rd.classes, rd.notebooks, user, Classes, Notebooks, since, cursor, c, b);
    StretchesDisjoint(rd.classes, rd.notes, user, Classes, Notes, since, cursor, c, n);
    StretchesDisjoint(rd.classes, rd.deadlines, user, Classes, Deadlines, since, cursor, c, d);
    StretchesDisjoint(rd.notebooks, rd.notes, user, Notebooks, Notes, since, cursor, b, n);
    StretchesDisjoint(rd.notebooks, rd.deadlines, user, Notebooks, Deadlines, since, cursor, b, d);
    StretchesDisjoint(rd.notes, rd.deadlines, user, Notes, Deadlines, since, cursor, n, d);
    forall k
      ensures k in c + b + n + d <==> InStretch(rd.At(k.table), user, since, cursor, k)
    {
      StretchAt(rd, user, since, c, b, n, d, cursor, k);
    }
    forall k | k in c + b + n + d
      ensures k in rd.At(k.table).rows && (c + b + n + d)[k] == rd.At(k.table).rows[k]
    {
      StretchAt(rd, user, since, c, b, n, d, cursor, k);
    }
    hide IsStretch;
    FourDisjoint(c, b, n, d);
  }

  lemma PageRows(rd: Reads, user: User, since: nat, limit: nat, lists: Lists)
    requires Successive(rd) && ReadLists(rd, user, since, limit, lists)
    ensures HoldsStretch(rd, user, since, PageOf(lists.Merge(since, limit)))
    ensures |PageOf(lists.Merge(since, limit)).rows| == Min(limit, |lists.All()|)
  {
    hide CountUpTo;
    hide Share;
    hide RowsOf;
    hide Sorted;
    hide InStretch;
    hide HoldsStretch;
    hide IsStretch;
    hide IsSince;
    hide From;
    hide Successive;
    hide ReadLists;
    hide Increasing;
    var r := lists.Merge(since, limit);
    CursorCount(rd, user, since, limit, lists);
    ListRead(rd, user, since, limit, lists, Classes);
    ListRead(rd, user, since, limit, lists, Notebooks);
    ListRead(rd, user, since, limit, lists, Notes);
    ListRead(rd, user, since, limit, lists, Deadlines);
    TableShare(rd.classes, user, Classes, since, limit, lists.Of(Classes), r.cursor);
    TableShare(rd.notebooks, user, Notebooks, since, limit, lists.Of(Notebooks), r.cursor);
    TableShare(rd.notes, user, Notes, since, limit, lists.Of(Notes), r.cursor);
    TableShare(rd.deadlines, user, Deadlines, since, limit, lists.Of(Deadlines), r.cursor);
    FourStretches(rd, user, since, RowsOf(r.classes), RowsOf(r.notebooks), RowsOf(r.notes), RowsOf(r.deadlines),
                  r.cursor, r.hasMore);
  }

  /** How many rows a response carries. */
  function Size(r: Response): nat {
    |r.classes| + |r.notebooks| + |r.notes| + |r.deadlines|
  }

  lemma TableSize(rd: Reads, user: User, t: Table, since: nat, limit: nat, lists: Lists, cursor: nat)
    requires ReadLists(rd, user, since, limit, lists)
    ensures |Share(lists.Of(t), cursor)| == CountUpTo(Nos(lists.Of(t)), cursor)
  {
    assert IsSince(rd.At(t), user, t, since, limit + 1, lists.Of(t));
    ShareIsFilter(lists.Of(t), cursor);
  }

  lemma MergeSize(rd: Reads, user: User, since: nat, limit: nat, lists: Lists)
    requires Successive(rd) && ReadLists(rd, user, since, limit, lists)
    ensures Size(lists.Merge(since, limit)) == |PageOf(lists.Merge(since, limit)).rows|
  {
    hide Successive;
    hide ReadLists;
    hide PageOf;
    hide Sorted;
    hide CountUpTo;
    hide Share;
    hide HoldsStretch;
    hide RowsOf;
    PageRows(rd, user, since, limit, lists);
    CursorCount(rd, user, since, limit, lists);
    var cursor := lists.Merge(since, limit).cursor;
    TableSize(rd, user, Classes, since, limit, lists, cursor);
    TableSize(rd, user, Notebooks, since, limit, lists, cursor);
    TableSize(rd, user, Notes, since, limit, lists, cursor);
    TableSize(rd, user, Deadlines, since, limit, lists, cursor);
  }

  lemma TornComplete(rd: Reads, user: User, since: nat, p: Page)
    requires HoldsStretch(rd, user, since, p)
    ensures Complete(rd.deadlines, user, since, p)
            <==> (forall k :: k in Above(rd.deadlines, user, since) && LandedLate(rd, k)
                    ==> p.cursor < rd.deadlines.rows[k].seqNo)
  {
    forall k | k in Above(rd.deadlines, user, since) && rd.deadlines.rows[k].seqNo <= p.cursor
      ensures (k in p.rows && p.rows[k] == rd.deadlines.rows[k]) <==> !LandedLate(rd, k)
    {
    }
  }

  lemma StretchIsFilter(db: Database, user: User, since: nat, p: Page)
    requires HoldsStretch(Reads(db, db, db, db), user, since, p)
    ensures p.rows == (map k | k in Above(db, user, since) && db.rows[k].seqNo <= p.cursor :: db.rows[k])
  {
    forall k
      ensures k in p.rows <==> k in Above(db, user, since) && db.rows[k].seqNo <= p.cursor
    {
      assert k in p.rows <==> InStretch(db, user, since, p.cursor, k);
    }
  }

  lemma ListedInStretch(db: Database, user: User, since: nat, limit: nat, lists: Lists, p: Page, i: nat)
    requires HoldsStretch(Reads(db, db, db, db), user, since, p)
    requires ReadLists(Reads(db, db, db, db), user, since, limit, lists)
    requires i < |lists.All()| && lists.All()[i].row.seqNo == p.cursor
    ensures lists.All()[i].key in p.rows && p.rows[lists.All()[i].key].seqNo == p.cursor
  {
    var t, at := FromTable(Reads(db, db, db, db), user, since, limit, lists, i);
    hide ReadLists;
    assert InStretch(db, user, since, p.cursor, lists.All()[i].key);
  }

  lemma SingleState(db: Database, user: User, since: nat, limit: nat, lists: Lists, p: Page)
    requires HoldsStretch(Reads(db, db, db, db), user, since, p)
    requires ReadLists(Reads(db, db, db, db), user, since, limit, lists)
    requires |p.rows| == Min(limit, |lists.All()|) && (p.more <==> |lists.All()| > limit)
    requires |lists.All()| <= |Above(db, user, since)|
    requires |lists.All()| <= limit ==> |lists.All()| == |Above(db, user, since)|
    requires p.rows != map[] ==> exists i :: 0 <= i < |lists.All()| && lists.All()[i].row.seqNo == p.cursor
    requires p.rows == map[] ==> p.cursor == since
    ensures IsPage(db, user, since, limit, p)
  {
    var rd := Reads(db, db, db, db);
    StretchIsFilter(db, user, since, p);
    if p.rows != map[] {
      var i :| 0 <= i < |lists.All()| && lists.All()[i].row.seqNo == p.cursor;
      ListedInStretch(db, user, since, limit, lists, p, i);
      hide ReadLists;
      hide HoldsStretch;
    }
    hide HoldsStretch;
    hide ReadLists;
  }

  lemma AboveByTable(db: Database, user: User, since: nat)
    ensures |Above(db, user, since)| == |AboveIn(db, user, Classes, since)| + |AboveIn(db, user, Notebooks, since)|
                                        + |AboveIn(db, user, Notes, since)| + |AboveIn(db, user, Deadlines, since)|
  {
    var c, b, n, d := AboveIn(db, user, Classes, since), AboveIn(db, user, Notebooks, since),
                      AboveIn(db, user, Notes, since), AboveIn(db, user, Deadlines, since);
    assert Above(db, user, since) == c + b + n + d;
    assert c !! b && (c + b) !! n && (c + b + n) !! d;
    assert |c + b + n + d| == |c| + |b| + |n| + |d|;
  }

  lemma TableListed(db: Database, user: User, table: Table, since: nat, limit: nat, list: seq<Entry>)
    requires IsSince(db, user, table, since, limit + 1, list)
    ensures var above := |AboveIn(db, user, table, since)|;
            |list| <= above && (|list| <= limit ==> |list| == above)
  {
    RowsOfFrom(db, user, table, since, list);
    var listed := RowsOf(list).Keys;
    assert |listed| == |list|;
    CardinalityMonotone(listed, AboveIn(db, user, table, since));
    if |list| <= limit {
      assert listed == AboveIn(db, user, table, since);
    }
  }

  /** How many rows the four reads listed, against how many there are. */
  lemma ListedTotal(db: Database, user: User, since: nat, limit: nat, lists: Lists)
    requires ReadLists(Reads(db, db, db, db), user, since, limit, lists)
    ensures var total, above := |lists.All()|, |Above(db, user, since)|;
            total <= above && (total <= limit ==> total == above)
  {
    var rd := Reads(db, db, db, db);
    assert IsSince(rd.At(Classes), user, Classes, since, limit + 1, lists.Of(Classes));
    assert IsSince(rd.At(Notebooks), user, Notebooks, since, limit + 1, lists.Of(Notebooks));
    assert IsSince(rd.At(Notes), user, Notes, since, limit + 1, lists.Of(Notes));
    assert IsSince(rd.At(Deadlines), user, Deadlines, since, limit + 1, lists.Of(Deadlines));
    hide IsSince;
    hide ReadLists;
    TableListed(db, user, Classes, since, limit, lists.Of(Classes));
    TableListed(db, user, Notebooks, since, limit, lists.Of(Notebooks));
    TableListed(db, user, Notes, since, limit, lists.Of(Notes));
    TableListed(db, user, Deadlines, since, limit, lists.Of(Deadlines));
    AboveByTable(db, user, since);
  }

  lemma MergeShares(since: nat, limit: nat, lists: Lists)
    ensures var r := lists.Merge(since, limit);
            && r.classes == Share(lists.classes, r.cursor) && r.notebooks == Share(lists.notebooks, r.cursor)
            && r.notes == Share(lists.notes, r.cursor) && r.deadlines == Share(lists.deadlines, r.cursor)
  {
    hide Share;
    hide Sorted;
  }

  lemma ShareInTable(db: Database, user: User, table: Table, since: nat, limit: nat, list: seq<Entry>, cursor: nat)
    requires IsSince(db, user, table, since, limit, list)
    ensures InTable(Share(list, cursor), table)
  {
    ShareIsFilter(list, cursor);
    hide Share;
    hide CountUpTo;
    hide RowsOf;
    forall i | 0 <= i < |list|
      ensures list[i].key.table == table
    {
      assert list[i].key in AboveIn(db, user, table, since);
    }
  }

  lemma MergeIsArranged(rd: Reads, user: User, since: nat, limit: nat, lists: Lists)
    requires ReadLists(rd, user, since, limit, lists)
    ensures Arranged(lists.Merge(since, limit))
  {
    var cursor := lists.Merge(since, limit).cursor;
    hide Merged;
    hide InTable;
    hide Share;
    hide IsSince;
    hide Increasing;
    forall t: Table
      ensures InTable(Share(lists.Of(t), cursor), t)
    {
      ListRead(rd, user, since, limit, lists, t);
      ShareInTable(rd.At(t), user, t, since, limit + 1, lists.Of(t), cursor);
    }
    assert InTable(Share(lists.Of(Classes), cursor), Classes) && InTable(Share(lists.Of(Notebooks), cursor), Notebooks);
    assert InTable(Share(lists.Of(Notes), cursor), Notes) && InTable(Share(lists.Of(Deadlines), cursor), Deadlines);
    MergeShares(since, limit, lists);
  }

  // ---------- Torn reads ----------

  /** A database that differs from a read one in other tables only is read alike. */
  lemma SameSince(a: Database, b: Database, user: User, t: Table, since: nat, limit: nat, list: seq<Entry>)
    requires IsSince(a, user, t, since, limit, list)
    requires forall k: Key :: k.table == t ==> (k in a.rows <==> k in b.rows)
    requires forall k: Key :: k.table == t && k in a.rows ==> b.rows[k] == a.rows[k]
    ensures IsSince(b, user, t, since, limit, list)
  {
    assert AboveIn(b, user, t, since) == AboveIn(a, user, t, since);
  }

  lemma ReadsAlike(rd: Reads, user: User, since: nat, limit: nat, lists: Lists)
    requires ReadLists(rd, user, since, limit, lists)
    ensures var db := AsRead(rd); ReadLists(Reads(db, db, db, db), user, since, limit, lists)
  {
    var db := AsRead(rd);
    hide IsSince;
    forall t: Table
      ensures IsSince(Reads(db, db, db, db).At(t), user, t, since, limit + 1, lists.Of(t))
    {
      assert IsSince(rd.At(t), user, t, since, limit + 1, lists.Of(t));
      forall k: Key | k.table == t
        ensures k in rd.At(t).rows <==> k in db.rows
        ensures k in rd.At(t).rows ==> db.rows[k] == rd.At(t).rows[k]
      {
        AsReadAt(rd, k);
      }
      SameSince(rd.At(t), db, user, t, since, limit + 1, lists.Of(t));
    }
  }

  lemma StretchAlike(rd: Reads, user: User, since: nat, p: Page)
    requires HoldsStretch(rd, user, since, p)
    ensures var db := AsRead(rd); HoldsStretch(Reads(db, db, db, db), user, since, p)
  {
    var db := AsRead(rd);
    hide AsRead;
    forall k
      ensures k in p.rows <==> InStretch(db, user, since, p.cursor, k)
      ensures k in p.rows ==> p.rows[k] == db.rows[k]
    {
      AsReadAt(rd, k);
    }
    hide InStretch;
  }

  /** Whatever is written between the four reads, merged and cut they are the page
      of the tables as each was read. */
  lemma TornPullIsPage(rd: Reads, user: User, since: nat, limit: nat, lists: Lists)
    requires Successive(rd) && ReadLists(rd, user, since, limit, lists)
    ensures IsPage(AsRead(rd), user, since, limit, PageOf(lists.Merge(since, limit)))
  {
    hide Sorted;
    hide RowsOf;
    hide Successive;
    hide ReadLists;
    hide HoldsStretch;
    hide AsRead;
    var p := PageOf(lists.Merge(since, limit));
    PageRows(rd, user, since, limit, lists);
    StretchAlike(rd, user, since, p);
    ReadsAlike(rd, user, since, limit, lists);
    ListedTotal(AsRead(rd), user, since, limit, lists);
    CursorCount(rd, user, since, limit, lists);
    SingleState(AsRead(rd), user, since, limit, lists, p);
  }

  lemma AsReadAtOnce(db: Database)
    ensures AsRead(Reads(db, db, db, db)) == db
  {
    assert AsRead(Reads(db, db, db, db)).rows == db.rows;
  }

  /** Four truncated reads of one state, merged and cut, are the page of the
      whole tables: exactly the `limit` lowest seqs, an exact has_more, and the
      last seq kept for a cursor. */
  lemma MergeIsPage(db: Database, user: User, since: nat, limit: nat, lists: Lists)
    requires SeqsOk(db)
    requires ReadLists(Reads(db, db, db, db), user, since, limit, lists)
    ensures IsPage(db, user, since, limit, PageOf(lists.Merge(since, limit)))
  {
    var rd := Reads(db, db, db, db);
    GrewReflexive(db);
    hide SeqsOk;
    hide Grew;
    assert Successive(rd);
    hide Successive;
    hide Lists.Merge;
    hide IsPage;
    hide AsRead;
    TornPullIsPage(rd, user, since, limit, lists);
    AsReadAtOnce(db);
  }

  /** A position that no page of so many rows reaches: a whole page lies before
      it, or all there is does. */
  ghost predicate PastPage(db: Database, user: User, since: nat, limit: nat, seqNo: nat) {
    var before := set k | k in Above(db, user, since) && db.rows[k].seqNo < seqNo;
    |before| >= limit || before == Above(db, user, since)
  }

  lemma CursorStopsBefore(db: Database, user: User, since: nat, limit: nat, p: Page, seqNo: nat)
    requires IsPage(db, user, since, limit, p) && since < seqNo
    ensures p.cursor < seqNo <==> PastPage(db, user, since, limit, seqNo)
  {
    var above := Above(db, user, since);
    var before := set k | k in above && db.rows[k].seqNo < seqNo;
    assert |p.rows.Keys| == |p.rows|;
    if p.cursor < seqNo {
      assert p.rows.Keys <= before;
      CardinalityMonotone(p.rows.Keys, before);
      assert |above - p.rows.Keys| == |above| - |p.rows.Keys|;
    } else {
      var k :| k in p.rows && p.rows[k].seqNo == p.cursor;
      assert k in above && k !in before && before + {k} <= p.rows.Keys;
      CardinalityMonotone(before + {k}, p.rows.Keys);
    }
  }

  /** A pull whose four reads saw four states gives a complete page exactly when
      every write that landed behind the read of its table took a seq that the
      page does not reach. */
  lemma TornPullComplete(rd: Reads, user: User, since: nat, limit: nat, lists: Lists)
    requires Successive(rd) && ReadLists(rd, user, since, limit, lists)
    ensures Complete(rd.deadlines, user, since, PageOf(lists.Merge(since, limit)))
            <==> (forall k :: k in Above(rd.deadlines, user, since) && LandedLate(rd, k)
                    ==> PastPage(AsRead(rd), user, since, limit, rd.deadlines.rows[k].seqNo))
  {
    hide Successive;
    hide ReadLists;
    hide HoldsStretch;
    hide IsPage;
    hide PastPage;
    hide LandedLate;
    hide AsRead;
    hide Complete;
    hide Lists.Merge;
    var p := PageOf(lists.Merge(since, limit));
    PageRows(rd, user, since, limit, lists);
    TornComplete(rd, user, since, p);
    TornPullIsPage(rd, user, since, limit, lists);
    forall k | k in Above(rd.deadlines, user, since)
      ensures p.cursor < rd.deadlines.rows[k].seqNo
              <==> PastPage(AsRead(rd), user, since, limit, rd.deadlines.rows[k].seqNo)
    {
      CursorStopsBefore(AsRead(rd), user, since, limit, p, rd.deadlines.rows[k].seqNo);
    }
  }
}
