/** What a pull makes of the rows ahead: pages one after another, and which of
    their rows the device takes. */
module Pulling {
  import opened Common
  import opened Rows
  import opened Server
  import opened Paging
  import opened Device

  // ---------- A page, list by list ----------

  /** How many entries of a list the device takes. */
  function Taken(tables: Tables, list: seq<Entry>): nat {
    if list == [] then 0
    else Taken(tables, list[..|list| - 1]) + (if Skipped(tables, list[|list| - 1].key) then 0 else 1)
  }

  lemma AfterPageOne(tables: Tables, list: seq<Entry>, e: Entry)
    ensures var before := AfterPage(tables, RowsOf(list));
            AfterPage(tables, RowsOf(list + [e]))
            == (if Skipped(before, e.key) then before else before[e.key := FromWire(e.row)])
    ensures Skipped(AfterPage(tables, RowsOf(list)), e.key) == Skipped(tables, e.key)
  {
    assert (list + [e])[..|list|] == list;
  }

  lemma AfterPageTwo(tables: Tables, a: map<Key, Row>, b: map<Key, Row>)
    ensures AfterPage(AfterPage(tables, a), b) == AfterPage(tables, a + b)
    ensures forall k :: Skipped(AfterPage(tables, a), k) == Skipped(tables, k)
  {
  }

  lemma {:induction false} TakenSame(tables: Tables, tables': Tables, list: seq<Entry>)
    requires forall k :: Skipped(tables, k) == Skipped(tables', k)
    ensures Taken(tables, list) == Taken(tables', list)
  {
    if list != [] {
      TakenSame(tables, tables', list[..|list| - 1]);
    }
  }

  datatype PullSummary = PullSummary(applied: nat, skipped: nat, pages: nat)

  /** The user's rows between two positions of the stream. */
  function Between(db: Database, user: User, since: nat, cursor: nat): map<Key, Row> {
    map k | k in Above(db, user, since) && db.rows[k].seqNo <= cursor :: db.rows[k]
  }

  lemma BetweenJoins(db: Database, user: User, a: nat, b: nat, c: nat)
    requires a <= b <= c
    ensures Between(db, user, a, b) + Between(db, user, b, c) == Between(db, user, a, c)
  {
  }

  lemma PulledPage(db: Database, user: User, start: nat, since: nat, before: Tables, p: Page)
    requires start <= since && IsPage(db, user, since, PAGE, p)
    ensures since <= p.cursor
    ensures AfterPage(AfterPage(before, Between(db, user, start, since)), p.rows)
         == AfterPage(before, Between(db, user, start, p.cursor))
    ensures p.rows == Between(db, user, since, p.cursor)
    ensures |p.rows| == Min(PAGE, |Above(db, user, since)|) && (p.more <==> |Above(db, user, since)| > PAGE)
    ensures |Above(db, user, p.cursor)| == Max(0, |Above(db, user, since)| - PAGE)
  {
    PageShrinksRest(db, user, since, PAGE, p);
    BetweenJoins(db, user, start, since, p.cursor);
    AfterPageTwo(before, Between(db, user, start, since), p.rows);
  }

  lemma NothingBetween(db: Database, user: User, start: nat, before: Tables)
    ensures before == AfterPage(before, Between(db, user, start, start))
  {
  }

  /** The rows of a page that a device takes, and those it leaves alone. */
  function Unskipped(tables: Tables, remote: map<Key, Row>): set<Key> {
    set k | k in remote && !Skipped(tables, k)
  }

  function LeftAlone(tables: Tables, remote: map<Key, Row>): set<Key> {
    set k | k in remote && Skipped(tables, k)
  }

  lemma {:induction false} TakenAtLeast(tables: Tables, list: seq<Entry>)
    ensures |Unskipped(tables, RowsOf(list))| <= Taken(tables, list) <= |list|
    ensures |LeftAlone(tables, RowsOf(list))| <= |list| - Taken(tables, list)
  {
    if list != [] {
      var front, k := list[..|list| - 1], list[|list| - 1].key;
      TakenAtLeast(tables, front);
      if Skipped(tables, k) {
        assert Unskipped(tables, RowsOf(list)) == Unskipped(tables, RowsOf(front));
        assert LeftAlone(tables, RowsOf(list)) == LeftAlone(tables, RowsOf(front)) + {k};
      } else {
        assert Unskipped(tables, RowsOf(list)) == Unskipped(tables, RowsOf(front)) + {k};
        assert LeftAlone(tables, RowsOf(list)) == LeftAlone(tables, RowsOf(front));
      }
    }
  }

  lemma UnskippedParts(tables: Tables, a: map<Key, Row>, b: map<Key, Row>)
    ensures Unskipped(tables, a + b) == Unskipped(tables, a) + Unskipped(tables, b)
  {
    hide Skipped;
  }

  lemma LeftAloneParts(tables: Tables, a: map<Key, Row>, b: map<Key, Row>)
    ensures LeftAlone(tables, a + b) == LeftAlone(tables, a) + LeftAlone(tables, b)
  {
    hide Skipped;
  }

  lemma UnionAtMost(a: set<Key>, b: set<Key>)
    ensures |a + b| <= |a| + |b|
  {
  }

  lemma PartsAtMost(tables: Tables, a: map<Key, Row>, b: map<Key, Row>)
    ensures |Unskipped(tables, a + b)| <= |Unskipped(tables, a)| + |Unskipped(tables, b)|
    ensures |LeftAlone(tables, a + b)| <= |LeftAlone(tables, a)| + |LeftAlone(tables, b)|
  {
    UnskippedParts(tables, a, b);
    LeftAloneParts(tables, a, b);
    UnionAtMost(Unskipped(tables, a), Unskipped(tables, b));
    UnionAtMost(LeftAlone(tables, a), LeftAlone(tables, b));
    hide Unskipped;
    hide LeftAlone;
  }

  lemma TwoKinds(tables: Tables, remote: map<Key, Row>)
    ensures |Unskipped(tables, remote)| + |LeftAlone(tables, remote)| == |remote|
  {
    assert Unskipped(tables, remote) + LeftAlone(tables, remote) == remote.Keys;
    assert |remote.Keys| == |remote|;
  }

  /** When no row comes twice, the count is the number of rows taken. */
  lemma TakenExactly(tables: Tables, r: Response)
    requires Size(r) == |PageOf(r).rows|
    ensures Taken(tables, r.classes) + Taken(tables, r.notebooks) + Taken(tables, r.notes) + Taken(tables, r.deadlines)
            == |Unskipped(tables, PageOf(r).rows)| <= Size(r)
  {
    var c, b, n, d := RowsOf(r.classes), RowsOf(r.notebooks), RowsOf(r.notes), RowsOf(r.deadlines);
    TakenAtLeast(tables, r.classes);
    TakenAtLeast(tables, r.notebooks);
    TakenAtLeast(tables, r.notes);
    TakenAtLeast(tables, r.deadlines);
    hide Taken;
    hide RowsOf;
    hide Unskipped;
    hide LeftAlone;
    PartsAtMost(tables, c, b);
    PartsAtMost(tables, c + b, n);
    PartsAtMost(tables, c + b + n, d);
    TwoKinds(tables, c + b + n + d);
  }

  lemma SameUnskipped(a: Tables, b: Tables, remote: map<Key, Row>)
    requires forall k :: Skipped(a, k) == Skipped(b, k)
    ensures Unskipped(a, remote) == Unskipped(b, remote)
  {
  }

  lemma BetweenSplits(db: Database, user: User, tables: Tables, a: nat, b: nat, c: nat)
    requires a <= b <= c
    ensures |Unskipped(tables, Between(db, user, a, c))|
            == |Unskipped(tables, Between(db, user, a, b))| + |Unskipped(tables, Between(db, user, b, c))|
  {
    hide Skipped;
    var x, y := Unskipped(tables, Between(db, user, a, b)), Unskipped(tables, Between(db, user, b, c));
    assert Unskipped(tables, Between(db, user, a, c)) == x + y;
    assert x !! y;
  }

  /** The rows taken so far and those of the next page are the rows taken then. */
  lemma UnskippedJoins(db: Database, user: User, before: Tables, tables: Tables, start: nat, since: nat, p: Page)
    requires start <= since <= p.cursor && p.rows == Between(db, user, since, p.cursor)
    requires tables == AfterPage(before, Between(db, user, start, since))
    ensures |Unskipped(before, Between(db, user, start, p.cursor))|
            == |Unskipped(before, Between(db, user, start, since))| + |Unskipped(tables, p.rows)|
  {
    AfterPageTwo(before, Between(db, user, start, since), map[]);
    SameUnskipped(before, tables, p.rows);
    BetweenSplits(db, user, before, start, since, p.cursor);
    hide Between;
    hide Unskipped;
  }

  lemma NothingUnskipped(db: Database, user: User, start: nat, before: Tables)
    ensures |Unskipped(before, Between(db, user, start, start))| == 0
  {
    assert Between(db, user, start, start) == map[];
  }

  // ---------- How many pages ----------

  function PagesFor(n: nat): nat {
    Max(1, Min(MAX_PAGES, (n + PAGE - 1) / PAGE))
  }

  /** Where the pages stand against the number there will be. */
  lemma PagesCount(ahead: nat, page: nat, more: bool)
    requires page <= MAX_PAGES
    requires more ==> page == 0 || PAGE * page < ahead
    requires !more ==> page > 0 && PAGE * (page - 1) < Max(1, ahead) <= PAGE * page
    ensures !more || page == MAX_PAGES <==> PagesFor(ahead) == page
    ensures more && page < MAX_PAGES ==> page < PagesFor(ahead)
    ensures PagesFor(ahead) == page ==> Max(0, ahead - PAGE * page) == Max(0, ahead - PAGE * MAX_PAGES)
  {
  }

  lemma SomePages(n: nat)
    ensures 1 <= PagesFor(n) <= MAX_PAGES
  {
  }

  // ---------- Which rows come first ----------

  /** The place of a row among those ahead of a position. */
  function Place(db: Database, user: User, since: nat, k: Key): nat
    requires k in db.rows
  {
    |set j | j in Above(db, user, since) && db.rows[j].seqNo <= db.rows[k].seqNo|
  }

  /** The device would take the row, and would not hold what it holds. */
  predicate Differs(tables: Tables, db: Database, k: Key) {
    k in db.rows && !Skipped(tables, k) && (k in tables ==> tables[k] != FromWire(db.rows[k]))
  }

  /** The first n rows ahead are those up to the cursor that leaves n less. */
  lemma PlaceInCut(db: Database, user: User, since: nat, cursor: nat, n: nat, k: Key)
    requires since <= cursor && k in Above(db, user, since)
    requires |Above(db, user, cursor)| == Max(0, |Above(db, user, since)| - n)
    ensures db.rows[k].seqNo <= cursor <==> Place(db, user, since, k) <= n
  {
    var above, rest := Above(db, user, since), Above(db, user, cursor);
    var upTo := set j | j in above && db.rows[j].seqNo <= db.rows[k].seqNo;
    assert rest <= above && |above - rest| == |above| - |rest|;
    if db.rows[k].seqNo <= cursor {
      assert upTo <= above - rest;
      CardinalityMonotone(upTo, above - rest);
    } else {
      assert k in rest && (above - rest) + {k} <= upTo;
      CardinalityMonotone((above - rest) + {k}, upTo);
      assert |(above - rest) + {k}| == |above - rest| + 1;
    }
  }

  /** One of the first n rows ahead differs from what the device holds. */
  ghost predicate SomeNew(tables: Tables, db: Database, user: User, since: nat, n: nat) {
    exists k :: k in Above(db, user, since) && Place(db, user, since, k) <= n && Differs(tables, db, k)
  }

  /** One of the first n rows ahead is one the device takes, new or not. */
  ghost predicate SomeTaken(tables: Tables, db: Database, user: User, since: nat, n: nat) {
    exists k :: k in Above(db, user, since) && Place(db, user, since, k) <= n && !Skipped(tables, k)
  }

  /** Pages count a row exactly when one of the rows they hold is taken. */
  lemma PagesTake(before: Tables, db: Database, user: User, since: nat, cursor: nat, n: nat)
    requires since <= cursor && |Above(db, user, cursor)| == Max(0, |Above(db, user, since)| - n)
    ensures |Unskipped(before, Between(db, user, since, cursor))| > 0 <==> SomeTaken(before, db, user, since, n)
  {
    hide Place;
    var taken := Unskipped(before, Between(db, user, since, cursor));
    if |taken| > 0 {
      var k :| k in taken;
      PlaceInCut(db, user, since, cursor, n, k);
    }
    if SomeTaken(before, db, user, since, n) {
      var k :| k in Above(db, user, since) && Place(db, user, since, k) <= n && !Skipped(before, k);
      PlaceInCut(db, user, since, cursor, n, k);
      assert k in taken;
    }
  }

  /** A page moves nothing when it holds only rows that are dirty on the device or
      the same there. */
  lemma NoRowMoves(before: Tables, remote: map<Key, Row>)
    requires forall k :: k in remote ==> Skipped(before, k) || (k in before && before[k] == FromWire(remote[k]))
    ensures AfterPage(before, remote) == before
  {
    assert AfterPage(before, remote).Keys == before.Keys;
  }

  /** Pages move the tables exactly when one of the rows they hold differs. */
  lemma PagesMove(before: Tables, db: Database, user: User, since: nat, cursor: nat, n: nat)
    requires since <= cursor && |Above(db, user, cursor)| == Max(0, |Above(db, user, since)| - n)
    ensures AfterPage(before, Between(db, user, since, cursor)) != before <==> SomeNew(before, db, user, since, n)
  {
    hide Place;
    var remote := Between(db, user, since, cursor);
    var after := AfterPage(before, remote);
    if k :| k in remote && !Skipped(before, k) && (k in before ==> before[k] != FromWire(remote[k])) {
      PlaceInCut(db, user, since, cursor, n, k);
      assert Differs(before, db, k) && after[k] == FromWire(remote[k]);
    } else {
      NoRowMoves(before, remote);
    }
    if SomeNew(before, db, user, since, n) {
      var k :| k in Above(db, user, since) && Place(db, user, since, k) <= n && Differs(before, db, k);
      PlaceInCut(db, user, since, cursor, n, k);
      assert k in remote && after[k] == FromWire(db.rows[k]);
    }
  }

  lemma NoneIsFirst(tables: Tables, db: Database, user: User, since: nat)
    ensures !SomeNew(tables, db, user, since, 0)
  {
    forall k | k in Above(db, user, since)
      ensures Place(db, user, since, k) > 0
    {
      CardinalityMonotone({k}, set j | j in Above(db, user, since) && db.rows[j].seqNo <= db.rows[k].seqNo);
    }
  }

  lemma NothingTaken(before: Tables, remote: map<Key, Row>)
    requires |Unskipped(before, remote)| == 0
    ensures AfterPage(before, remote) == before
  {
    forall k | k in remote
      ensures Skipped(before, k)
    {
      assert k !in Unskipped(before, remote);
    }
  }
}
