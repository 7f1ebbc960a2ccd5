/** A pull while pushes land between its pages: what the pages make of the tables,
    what they cannot miss, and what they come to when the user's rows stand still. */
module Interleaved {
  import opened Common
  import opened Rows
  import opened Server
  import opened Paging
  import opened Device
  import opened Pulling

  /** The server when page n is read: one push has landed before each page. */
  function LandedUpTo(db: Database, lands: nat -> Landing, n: nat): Database {
    if n == 0 then db else Landed(LandedUpTo(db, lands, n - 1), lands(n - 1))
  }

  ghost predicate Silent(lands: nat -> Landing) {
    forall i: nat :: lands(i).ws == []
  }

  lemma NoneLands(db: Database, l: Landing)
    requires l.ws == []
    ensures Landed(db, l) == db
  {
    NothingPushed(db, l.user, l.now);
  }

  lemma {:induction false} SilentStays(db: Database, lands: nat -> Landing, n: nat)
    requires Silent(lands)
    ensures LandedUpTo(db, lands, n) == db
  {
    if n > 0 {
      SilentStays(db, lands, n - 1);
      NoneLands(db, lands(n - 1));
    }
  }

  // ---------- Pages one after another ----------

  function Laid(tables: Tables, pages: seq<Page>): Tables {
    if pages == [] then tables else AfterPage(Laid(tables, pages[..|pages| - 1]), pages[|pages| - 1].rows)
  }

  function CursorAfter(since: nat, pages: seq<Page>): nat {
    if pages == [] then since else pages[|pages| - 1].cursor
  }

  /** How many rows of the pages the device takes, out of how many. */
  function TakenFrom(tables: Tables, pages: seq<Page>): nat {
    if pages == [] then 0
    else TakenFrom(tables, pages[..|pages| - 1]) + |Unskipped(tables, pages[|pages| - 1].rows)|
  }

  function Received(pages: seq<Page>): nat {
    if pages == [] then 0 else Received(pages[..|pages| - 1]) + |pages[|pages| - 1].rows|
  }

  ghost predicate ServedAt(db: Database, user: User, since: nat, lands: nat -> Landing, pages: seq<Page>, i: nat)
    requires i < |pages|
  {
    && IsPage(LandedUpTo(db, lands, i + 1), user, CursorAfter(since, pages[..i]), PAGE, pages[i])
    && (i + 1 < |pages| ==> pages[i].more)
  }

  /** Each page is the one the server gives at its time for the cursor of the page
      before it, and all but the last say that there are more. */
  ghost predicate Served(db: Database, user: User, since: nat, lands: nat -> Landing, pages: seq<Page>) {
    forall i :: 0 <= i < |pages| ==> ServedAt(db, user, since, lands, pages, i)
  }

  predicate Finished(pages: seq<Page>) {
    |pages| == MAX_PAGES || (pages != [] && !pages[|pages| - 1].more)
  }

  /** What a pull leaves and counts: the pages that arrived laid over its tables,
      the cursor of the last, each row taken counted once and the others as
      skipped. It ends when it is finished, or when a response does not arrive. */
  ghost predicate PullShows(before: Tables, since: nat, db: Database, user: User, lands: nat -> Landing, arrives: nat,
                            pages: seq<Page>, rows: Tables, cursor: nat, summary: PullSummary, ok: bool) {
    && Served(db, user, since, lands, pages) && |pages| <= Min(MAX_PAGES, arrives)
    && (ok <==> Finished(pages)) && (!ok ==> |pages| == arrives)
    && rows == Laid(before, pages) && cursor == CursorAfter(since, pages)
    && summary.pages == |pages| && summary.applied == TakenFrom(before, pages)
    && summary.applied + summary.skipped == Received(pages)
  }

  lemma NoPages(before: Tables, since: nat, db: Database, user: User, lands: nat -> Landing)
    ensures Served(db, user, since, lands, [])
    ensures Laid(before, []) == before && CursorAfter(since, []) == since
    ensures TakenFrom(before, []) == Received([]) == 0
  {
  }

  lemma ServedMore(db: Database, user: User, since: nat, lands: nat -> Landing, pages: seq<Page>, p: Page)
    requires Served(db, user, since, lands, pages) && (pages == [] || pages[|pages| - 1].more)
    requires IsPage(LandedUpTo(db, lands, |pages| + 1), user, CursorAfter(since, pages), PAGE, p)
    ensures Served(db, user, since, lands, pages + [p])
  {
    hide IsPage;
    var all := pages + [p];
    forall i | 0 <= i < |all|
      ensures ServedAt(db, user, since, lands, all, i)
    {
      if i < |pages| {
        assert ServedAt(db, user, since, lands, pages, i);
        assert all[..i] == pages[..i];
      } else {
        assert all[..i] == pages;
      }
    }
  }

  lemma {:induction false} LaidSkips(tables: Tables, pages: seq<Page>)
    ensures forall k :: Skipped(Laid(tables, pages), k) == Skipped(tables, k)
  {
    if pages != [] {
      LaidSkips(tables, pages[..|pages| - 1]);
      AfterPageTwo(Laid(tables, pages[..|pages| - 1]), pages[|pages| - 1].rows, map[]);
    }
  }

  lemma SameTaken(tables: Tables, pages: seq<Page>, remote: map<Key, Row>)
    ensures Unskipped(Laid(tables, pages), remote) == Unskipped(tables, remote)
  {
    LaidSkips(tables, pages);
    hide Skipped;
    hide Laid;
  }

  lemma OneMorePage(before: Tables, since: nat, pages: seq<Page>, p: Page)
    ensures Laid(before, pages + [p]) == AfterPage(Laid(before, pages), p.rows)
    ensures CursorAfter(since, pages + [p]) == p.cursor
    ensures TakenFrom(before, pages + [p]) == TakenFrom(before, pages) + |Unskipped(Laid(before, pages), p.rows)|
    ensures Received(pages + [p]) == Received(pages) + |p.rows|
  {
    SameTaken(before, pages, p.rows);
    hide AfterPage;
    hide Unskipped;
    assert (pages + [p])[..|pages|] == pages;
  }

  lemma ServedFront(db: Database, user: User, since: nat, lands: nat -> Landing, pages: seq<Page>)
    requires Served(db, user, since, lands, pages) && pages != []
    ensures var front, last := pages[..|pages| - 1], pages[|pages| - 1];
            && Served(db, user, since, lands, front) && (front != [] ==> front[|front| - 1].more)
            && IsPage(LandedUpTo(db, lands, |pages|), user, CursorAfter(since, front), PAGE, last)
  {
    hide IsPage;
    var front := pages[..|pages| - 1];
    forall i | 0 <= i < |front|
      ensures ServedAt(db, user, since, lands, front, i) && front[i].more
    {
      assert ServedAt(db, user, since, lands, pages, i);
      assert front[..i] == pages[..i];
    }
    assert ServedAt(db, user, since, lands, pages, |front|);
  }

  // ---------- What pages never touch ----------

  /** Dirty rows are as they were, no row is lost, and none has become dirty. */
  ghost predicate Overlaid(tables: Tables, after: Tables) {
    && (forall k :: k in tables ==> k in after && (tables[k].dirty ==> after[k] == tables[k]))
    && (forall k :: k in after && after[k].dirty ==> k in tables && after[k] == tables[k])
  }

  lemma PageOverlays(tables: Tables, remote: map<Key, Row>)
    ensures Overlaid(tables, AfterPage(tables, remote))
  {
  }

  lemma NothingLaid(tables: Tables)
    ensures Overlaid(tables, tables)
  {
  }

  lemma {:induction false} LaidOver(tables: Tables, pages: seq<Page>)
    ensures Overlaid(tables, Laid(tables, pages))
  {
    if pages != [] {
      LaidOver(tables, pages[..|pages| - 1]);
      PageOverlays(Laid(tables, pages[..|pages| - 1]), pages[|pages| - 1].rows);
      hide AfterPage;
    }
  }

  // ---------- Nothing is missed ----------

  /** A row of the user's up to the cursor is on the device, dirty or as the server
      has it. */
  ghost predicate HoldsRow(tables: Tables, cursor: nat, db: Database, user: User, k: Key) {
    k in db.rows && db.rows[k].author == user && db.rows[k].seqNo <= cursor ==>
      k in tables && (tables[k].dirty || Matches(tables[k], db.rows[k]))
  }

  ghost predicate HoldsUpTo(tables: Tables, cursor: nat, db: Database, user: User) {
    cursor <= db.Last(user) && forall k :: HoldsRow(tables, cursor, db, user, k)
  }

  lemma LandingMissesNothing(tables: Tables, cursor: nat, db: Database, user: User, l: Landing)
    requires SeqsOk(db) && HoldsUpTo(tables, cursor, db, user)
    ensures SeqsOk(Landed(db, l)) && HoldsUpTo(tables, cursor, Landed(db, l), user)
  {
    LandedGrew(db, l);
    hide Landed;
    hide SeqsOk;
    var db' := Landed(db, l);
    forall k
      ensures HoldsRow(tables, cursor, db', user, k)
    {
      assert HoldsRow(tables, cursor, db, user, k);
      assert k in db.rows ==> Advanced(db, db', k);
    }
    hide HoldsRow;
  }

  lemma PageCursor(db: Database, user: User, since: nat, p: Page)
    requires SeqsOk(db) && since <= db.Last(user) && IsPage(db, user, since, PAGE, p)
    ensures p.cursor <= db.Last(user)
  {
    if p.rows != map[] {
      var k :| k in p.rows && p.rows[k].seqNo == p.cursor;
      assert k in Above(db, user, since);
    }
  }

  lemma PageHoldsRow(tables: Tables, since: nat, db: Database, user: User, p: Page, k: Key)
    requires IsPage(db, user, since, PAGE, p) && HoldsRow(tables, since, db, user, k)
    ensures HoldsRow(AfterPage(tables, p.rows), p.cursor, db, user, k)
  {
    assert k in p.rows <==> k in Above(db, user, since) && db.rows[k].seqNo <= p.cursor;
  }

  lemma PageMissesNothing(tables: Tables, since: nat, db: Database, user: User, p: Page)
    requires SeqsOk(db) && HoldsUpTo(tables, since, db, user) && IsPage(db, user, since, PAGE, p)
    ensures HoldsUpTo(AfterPage(tables, p.rows), p.cursor, db, user)
  {
    PageCursor(db, user, since, p);
    hide IsPage;
    hide AfterPage;
    hide HoldsRow;
    forall k
      ensures HoldsRow(AfterPage(tables, p.rows), p.cursor, db, user, k)
    {
      PageHoldsRow(tables, since, db, user, p, k);
    }
  }

  /** Whatever lands between the pages, the device's other copies of the user's
      rows included, the pull misses nothing up to where its cursor stops. */
  lemma {:induction false} PullMissesNothing(tables: Tables, since: nat, db: Database, user: User,
                                             lands: nat -> Landing, pages: seq<Page>)
    requires SeqsOk(db) && HoldsUpTo(tables, since, db, user) && Served(db, user, since, lands, pages)
    ensures var db' := LandedUpTo(db, lands, |pages|);
            SeqsOk(db') && HoldsUpTo(Laid(tables, pages), CursorAfter(since, pages), db', user)
    decreases |pages|
  {
    hide SeqsOk;
    hide HoldsUpTo;
    hide IsPage;
    hide AfterPage;
    hide Landed;
    if pages != [] {
      var n := |pages| - 1;
      ServedFront(db, user, since, lands, pages);
      hide Served;
      PullMissesNothing(tables, since, db, user, lands, pages[..n]);
      LandingMissesNothing(Laid(tables, pages[..n]), CursorAfter(since, pages[..n]), LandedUpTo(db, lands, n), user,
                           lands(n));
      PageMissesNothing(Laid(tables, pages[..n]), CursorAfter(since, pages[..n]), LandedUpTo(db, lands, n + 1), user,
                        pages[n]);
    }
  }

  // ---------- While nobody else pushes the user's rows ----------

  /** What lands is other accounts', or nothing. */
  ghost predicate OthersOnly(lands: nat -> Landing, user: User) {
    forall i: nat :: lands(i).user != user || lands(i).ws == []
  }

  lemma {:induction false} StandsStill(db: Database, user: User, lands: nat -> Landing, n: nat)
    requires OthersOnly(lands, user)
    ensures SameFor(user, db, LandedUpTo(db, lands, n)) && SameFor(user, LandedUpTo(db, lands, n), db)
  {
    if n == 0 {
      SameForReflexive(user, db);
    } else {
      var mid, l := LandedUpTo(db, lands, n - 1), lands(n - 1);
      StandsStill(db, user, lands, n - 1);
      OtherPush(mid, l.user, l.ws, l.now, user);
      SameForSymmetric(user, mid, Landed(mid, l));
      SameForTransitive(user, db, mid, Landed(mid, l));
      SameForTransitive(user, Landed(mid, l), mid, db);
      hide SameFor;
      hide Landed;
    }
  }

  /** Pages of rows that stand still: together they are the rows between the two
      cursors, each full but for the last. */
  ghost predicate Stretch(before: Tables, since: nat, db: Database, user: User, pages: seq<Page>) {
    var cursor, ahead, n := CursorAfter(since, pages), |Above(db, user, since)|, |pages|;
    && since <= cursor && Laid(before, pages) == AfterPage(before, Between(db, user, since, cursor))
    && TakenFrom(before, pages) == |Unskipped(before, Between(db, user, since, cursor))|
    && Received(pages) == Min(ahead, PAGE * n) && |Above(db, user, cursor)| == Max(0, ahead - PAGE * n)
    && (n > 0 ==> (pages[n - 1].more <==> ahead > PAGE * n))
  }

  lemma StretchLengthens(db: Database, user: User, since: nat, cursor: nat, n: nat, received: nat, p: Page)
    requires n > 0 ==> |Above(db, user, since)| > PAGE * n
    requires received == Min(|Above(db, user, since)|, PAGE * n)
    requires |Above(db, user, cursor)| == Max(0, |Above(db, user, since)| - PAGE * n)
    requires |p.rows| == Min(PAGE, |Above(db, user, cursor)|) && (p.more <==> |Above(db, user, cursor)| > PAGE)
    requires |Above(db, user, p.cursor)| == Max(0, |Above(db, user, cursor)| - PAGE)
    ensures var ahead := |Above(db, user, since)|;
            && received + |p.rows| == Min(ahead, PAGE * (n + 1))
            && |Above(db, user, p.cursor)| == Max(0, ahead - PAGE * (n + 1)) && (p.more <==> ahead > PAGE * (n + 1))
  {
    hide Above;
  }

  lemma StretchGrows(before: Tables, since: nat, db: Database, user: User, pages: seq<Page>, p: Page)
    requires Stretch(before, since, db, user, pages) && (pages != [] ==> pages[|pages| - 1].more)
    requires IsPage(db, user, CursorAfter(since, pages), PAGE, p)
    ensures Stretch(before, since, db, user, pages + [p])
  {
    hide IsPage;
    hide AfterPage;
    hide Between;
    hide Unskipped;
    hide Above;
    hide Laid;
    hide TakenFrom;
    hide Received;
    hide Min;
    hide Max;
    var cursor := CursorAfter(since, pages);
    hide CursorAfter;
    OneMorePage(before, since, pages, p);
    PulledPage(db, user, since, cursor, before, p);
    UnskippedJoins(db, user, before, Laid(before, pages), since, cursor, p);
    StretchLengthens(db, user, since, cursor, |pages|, Received(pages), p);
  }

  lemma StretchStarts(before: Tables, since: nat, db: Database, user: User)
    ensures Stretch(before, since, db, user, [])
  {
    NothingBetween(db, user, since, before);
    NothingUnskipped(db, user, since, before);
    hide AfterPage;
    hide Between;
    hide Unskipped;
  }

  lemma MoreAhead(before: Tables, since: nat, db: Database, user: User, pages: seq<Page>)
    requires Stretch(before, since, db, user, pages)
    ensures pages != [] && pages[|pages| - 1].more ==> PAGE * |pages| < |Above(db, user, since)|
  {
  }

  lemma {:induction false} StillPages(before: Tables, since: nat, db: Database, user: User, lands: nat -> Landing,
                                      pages: seq<Page>)
    requires OthersOnly(lands, user) && Served(db, user, since, lands, pages)
    ensures Stretch(before, since, db, user, pages)
    ensures |pages| > 1 ==> PAGE * (|pages| - 1) < |Above(db, user, since)|
    decreases |pages|
  {
    hide Stretch;
    hide IsPage;
    hide LandedUpTo;
    hide OthersOnly;
    if pages == [] {
      StretchStarts(before, since, db, user);
    } else {
      var n := |pages| - 1;
      ServedFront(db, user, since, lands, pages);
      hide Served;
      StillPages(before, since, db, user, lands, pages[..n]);
      StandsStill(db, user, lands, n + 1);
      SamePage(user, LandedUpTo(db, lands, n + 1), db, CursorAfter(since, pages[..n]), PAGE, pages[n]);
      StretchGrows(before, since, db, user, pages[..n], pages[n]);
      assert pages[..n] + [pages[n]] == pages;
      MoreAhead(before, since, db, user, pages[..n]);
    }
  }

  /** What a pull comes to while the user's rows stand still. */
  ghost predicate StillPulled(before: Tables, since: nat, db: Database, user: User, arrives: nat, rows: Tables,
                              cursor: nat, summary: PullSummary, ok: bool) {
    var ahead := |Above(db, user, since)|;
    && since <= cursor && rows == AfterPage(before, Between(db, user, since, cursor))
    && (ok <==> PagesFor(ahead) <= arrives) && summary.pages == Min(PagesFor(ahead), arrives)
    && |Above(db, user, cursor)| == Max(0, ahead - PAGE * summary.pages)
    && summary.applied == |Unskipped(before, Between(db, user, since, cursor))|
    && summary.applied + summary.skipped == Min(ahead, PAGE * summary.pages)
    && (ok ==> |Above(db, user, cursor)| == Max(0, ahead - PAGE * MAX_PAGES))
  }

  lemma PullLength(ahead: nat, pages: nat, more: bool, arrives: nat, ok: bool)
    requires pages <= Min(MAX_PAGES, arrives) && (ok <==> pages == MAX_PAGES || !more) && (!ok ==> pages == arrives)
    requires pages == 0 ==> more
    requires pages > 0 ==> (more <==> ahead > PAGE * pages)
    requires pages > 1 ==> PAGE * (pages - 1) < ahead
    ensures (ok <==> PagesFor(ahead) <= arrives) && pages == Min(PagesFor(ahead), arrives)
    ensures ok ==> Max(0, ahead - PAGE * pages) == Max(0, ahead - PAGE * MAX_PAGES)
  {
    PagesCount(ahead, pages, more);
    hide PagesFor;
  }

  lemma StillPull(before: Tables, since: nat, db: Database, user: User, lands: nat -> Landing, arrives: nat,
                  pages: seq<Page>, rows: Tables, cursor: nat, summary: PullSummary, ok: bool)
    requires PullShows(before, since, db, user, lands, arrives, pages, rows, cursor, summary, ok)
    requires OthersOnly(lands, user)
    ensures StillPulled(before, since, db, user, arrives, rows, cursor, summary, ok)
  {
    hide Served;
    hide Laid;
    hide TakenFrom;
    hide Received;
    hide AfterPage;
    hide Between;
    hide Unskipped;
    hide Above;
    hide PagesFor;
    hide OthersOnly;
    hide CursorAfter;
    StillPages(before, since, db, user, lands, pages);
    var ahead, more := |Above(db, user, since)|, pages == [] || pages[|pages| - 1].more;
    PullLength(ahead, |pages|, more, arrives, ok);
  }

  /** At most twenty pages, each of a hundred rows but for the last. */
  lemma PageSizes(db: Database, user: User, since: nat, lands: nat -> Landing, pages: seq<Page>)
    requires Served(db, user, since, lands, pages) && |pages| <= MAX_PAGES
    ensures |pages| <= 20 && forall i :: 0 <= i < |pages| ==>
              |pages[i].rows| <= 100 && (i < |pages| - 1 ==> |pages[i].rows| == 100)
  {
    forall i | 0 <= i < |pages|
      ensures |pages[i].rows| <= 100 && (i < |pages| - 1 ==> |pages[i].rows| == 100)
    {
      assert ServedAt(db, user, since, lands, pages, i);
    }
  }

  /** What every pull promises. */
  lemma PullEnds(before: Tables, since: nat, db: Database, user: User, lands: nat -> Landing, arrives: nat,
                 pages: seq<Page>, rows: Tables, cursor: nat, summary: PullSummary, ok: bool)
    requires PullShows(before, since, db, user, lands, arrives, pages, rows, cursor, summary, ok) && SeqsOk(db)
    ensures Overlaid(before, rows)
    ensures |pages| <= 20 && forall i :: 0 <= i < |pages| ==>
              |pages[i].rows| <= 100 && (i < |pages| - 1 ==> |pages[i].rows| == 100)
    ensures ok <==> |pages| == 20 || (pages != [] && !pages[|pages| - 1].more)
    ensures HoldsUpTo(before, since, db, user) ==> HoldsUpTo(rows, cursor, LandedUpTo(db, lands, |pages|), user)
    ensures OthersOnly(lands, user) ==> StillPulled(before, since, db, user, arrives, rows, cursor, summary, ok)
    ensures Silent(lands) ==> LandedUpTo(db, lands, |pages|) == db
  {
    LaidOver(before, pages);
    PageSizes(db, user, since, lands, pages);
    if HoldsUpTo(before, since, db, user) {
      PullMissesNothing(before, since, db, user, lands, pages);
    }
    if OthersOnly(lands, user) {
      StillPull(before, since, db, user, lands, arrives, pages, rows, cursor, summary, ok);
    }
    if Silent(lands) {
      SilentStays(db, lands, |pages|);
    }
  }
}
