/** What one cycle of push and pull leaves, and what its counts say of it, when
    nothing is typed while it runs. */
module Cycles {
  import opened Common
  import opened Rows
  import opened Server
  import opened Paging
  import opened Device
  import opened Validation
  import opened Pushing
  import opened Pulling
  import opened Interleaved

  /** What a dirty row can be after a cycle that got through: one that the server
      refuses, or a fork of this very cycle. */
  ghost predicate StillDirty(before: Tables, after: Tables, start: Database, user: User, k: Key)
    requires k in after
  {
    if k in before then Refuses(start, user, ToWrite(k, before[k])) else k.table == Notes && after[k].version == 0
  }

  lemma CycleLeaves(before: Tables, pushed: Tables, after: Tables, start: Database, db: Database, user: User,
                    order: Order, marker: string, k: Key)
    requires ListsDirty(order, before) && RunLeft(before, pushed, start, db, user, order, marker)
    requires k in order.Keys() ==> Settled(before, pushed, start, db, user, k, marker)
    requires Overlaid(pushed, after)
    ensures k in after && after[k].dirty ==> StillDirty(before, after, start, user, k)
  {
    assert NewIsFork(before, pushed, k);
    assert k in order.Keys() <==> k in DirtyKeys(before);
  }

  /** However a cycle ends, a row that was dirty is still there, and if it is
      still dirty it is as it was. */
  lemma CycleKeeps(before: Tables, pushed: Tables, start: Database, db: Database, user: User,
                   order: Order, marker: string, k: Key)
    requires ListsDirty(order, before) && RunLeft(before, pushed, start, db, user, order, marker)
    requires k in before && before[k].dirty
    ensures k in pushed && (pushed[k].dirty ==> pushed[k] == before[k])
  {
    assert k in order.Keys() <==> k in DirtyKeys(before);
  }

  lemma CycleEnds(before: Tables, pushed: Tables, after: Tables, start: Database, db: Database, user: User,
                  order: Order, marker: string, ok: bool)
    requires ListsDirty(order, before) && RunLeft(before, pushed, start, db, user, order, marker)
    requires ok ==> AllSettled(before, pushed, start, db, user, order, marker)
    requires Overlaid(pushed, after)
    ensures forall k :: k in before && before[k].dirty ==> k in after && (after[k].dirty ==> after[k] == before[k])
    ensures ok ==> forall k :: k in after && after[k].dirty ==> StillDirty(before, after, start, user, k)
  {
    hide Settled;
    hide RunLeft;
    hide ListsDirty;
    hide Refuses;
    forall k
      ensures k in before && before[k].dirty ==> k in after && (after[k].dirty ==> after[k] == before[k])
      ensures ok && k in after && after[k].dirty ==> StillDirty(before, after, start, user, k)
    {
      if k in before && before[k].dirty {
        CycleKeeps(before, pushed, start, db, user, order, marker, k);
      }
      if ok {
        CycleLeaves(before, pushed, after, start, db, user, order, marker, k);
      }
    }
  }

  // ---------- When the counts and the tables disagree ----------

  /** What one cycle started from, had before its pull, and ended with. */
  datatype Cycle = Cycle(before: Tables, pushed: Tables, after: Tables, start: Database, db: Database, ended: Database,
                         since: nat, cursor: nat, push: PushSummary, pull: PullSummary)

  /** Nothing is pushed or conflicts, the push gets through, the pull breaks off
      after its first page, and one of the rows of the pages that arrive is new to
      the device. */
  ghost predicate SilentlyChanges(before: Tables, db: Database, user: User, since: nat, order: Order, rule: Rule,
                                  net: nat -> Delivery, arrives: nat) {
    && OnlyForeign(before, db, user) && GetsThrough(order, rule, before, net)
    && 1 <= arrives < PagesFor(|Above(db, user, since)|) && SomeNew(before, db, user, since, PAGE * arrives)
  }

  /** The other way round: nothing is pushed or conflicts, push and pull get
      through, and among the rows of the pages some are not dirty on the device,
      but all of these it holds already. */
  ghost predicate CountsRepeats(before: Tables, db: Database, user: User, since: nat, order: Order, rule: Rule,
                                net: nat -> Delivery, arrives: nat) {
    && OnlyForeign(before, db, user) && GetsThrough(order, rule, before, net)
    && PagesFor(|Above(db, user, since)|) <= arrives
    && SomeTaken(before, db, user, since, PAGE * MAX_PAGES) && !SomeNew(before, db, user, since, PAGE * MAX_PAGES)
  }

  /** After a push that got through, nothing was accepted or conflicted exactly
      when every dirty row was another account's. */
  lemma NoneMoved(before: Tables, pushed: Tables, start: Database, db: Database, user: User, order: Order,
                  marker: string, push: PushSummary)
    requires ListsDirty(order, before)
    requires AllSettled(before, pushed, start, db, user, order, marker)
    requires CountsShow(before, start, user, pushed, push)
    ensures push.Moved() == 0 <==> OnlyForeign(before, start, user)
  {
    CountsMean(before, start, user, pushed, push);
    if push.Moved() == 0 {
      UntouchedIsForeign(before, start, db, user, order, marker);
    }
  }

  /** No page makes up for a row that the push has changed. */
  lemma MovedStaysMoved(before: Tables, pushed: Tables, after: Tables, start: Database, user: User, push: PushSummary)
    requires CountsShow(before, start, user, pushed, push) && push.Moved() > 0 && Overlaid(pushed, after)
    ensures after != before
  {
    CountsMean(before, start, user, pushed, push);
    var k :| k in before && before[k].dirty && k in pushed && !pushed[k].dirty;
  }

  lemma PagesLeave(ahead: nat)
    ensures Max(0, ahead - PAGE * MAX_PAGES) == Max(0, ahead - PAGE * PagesFor(ahead))
  {
  }

  /** What a cycle's counts say about its tables. */
  lemma CycleShows(c: Cycle, user: User, order: Order, rule: Rule, net: nat -> Delivery, arrives: nat, marker: string,
                   ok: bool, through: bool)
    requires ListsDirty(order, c.before) && (ok <==> GetsThrough(order, rule, c.before, net))
    requires CountsShow(c.before, c.start, user, c.pushed, c.push)
    requires ok ==> AllSettled(c.before, c.pushed, c.start, c.db, user, order, marker)
    requires ok && c.push.pushed == 0 ==> c.db == c.start
    requires c.after == AfterPage(c.pushed, Between(c.db, user, c.since, c.cursor)) && c.since <= c.cursor
    requires !ok ==> c.cursor == c.since && !through
    requires var ahead := |Above(c.db, user, c.since)|;
             ok ==> && (through <==> PagesFor(ahead) <= arrives)
                    && |Above(c.db, user, c.cursor)| == Max(0, ahead - PAGE * Min(PagesFor(ahead), arrives))
    requires if through then c.pull.applied == |Unskipped(c.pushed, Between(c.db, user, c.since, c.cursor))|
             else c.pull.applied == 0
    ensures c.push.Moved() + c.pull.applied == 0 && c.after != c.before
            <==> SilentlyChanges(c.before, c.start, user, c.since, order, rule, net, arrives)
    ensures c.push.Moved() + c.pull.applied > 0 && c.after == c.before
            <==> CountsRepeats(c.before, c.start, user, c.since, order, rule, net, arrives)
    ensures through && c.push.Moved() + c.pull.applied == 0 ==> c.after == c.before
  {
    var db, since, cursor := c.db, c.since, c.cursor;
    NothingBetween(db, user, since, c.pushed);
    SomePages(|Above(db, user, since)|);
    CountsMean(c.before, c.start, user, c.pushed, c.push);
    if c.push.Moved() > 0 {
      PageOverlays(c.pushed, Between(db, user, since, cursor));
      MovedStaysMoved(c.before, c.pushed, c.after, c.start, user, c.push);
    }
    if ok {
      NoneMoved(c.before, c.pushed, c.start, db, user, order, marker, c.push);
      if through {
        PagesLeave(|Above(db, user, since)|);
        PagesMove(c.pushed, db, user, since, cursor, PAGE * MAX_PAGES);
        PagesTake(c.pushed, db, user, since, cursor, PAGE * MAX_PAGES);
        if c.pull.applied == 0 {
          NothingTaken(c.pushed, Between(db, user, since, cursor));
        }
      } else {
        PagesMove(c.pushed, db, user, since, cursor, PAGE * arrives);
        NoneIsFirst(c.pushed, db, user, since);
      }
    }
  }

  // ---------- A cycle as a whole ----------

  /** The push half: what it left, that the pull laid only clean rows over it, and
      that the pull missed nothing. */
  ghost predicate PushedAndPulled(c: Cycle, user: User, order: Order, rule: Rule, net: nat -> Delivery,
                                  marker: string) {
    && RunLeft(c.before, c.pushed, c.start, c.db, user, order, marker)
    && (c.push.failed == 0 <==> GetsThrough(order, rule, c.before, net))
    && Overlaid(c.pushed, c.after)
    && (HoldsUpTo(c.pushed, c.since, c.db, user) ==> HoldsUpTo(c.after, c.cursor, c.ended, user))
  }

  /** The pull half: none after a failed push; one that breaks off reports
      nothing and has moved the cursor past the pages that arrived; one that gets
      through reports exactly what it took. */
  ghost predicate PullReported(c: Cycle, user: User, arrives: nat) {
    var ahead := |Above(c.db, user, c.since)|;
    && c.since <= c.cursor && c.after == AfterPage(c.pushed, Between(c.db, user, c.since, c.cursor))
    && if c.push.failed > 0 then c.cursor == c.since && c.pull == PullSummary(0, 0, 0)
    else if arrives < PagesFor(ahead) then
      c.pull == PullSummary(0, 0, 0) && |Above(c.db, user, c.cursor)| == Max(0, ahead - PAGE * arrives)
    else
      && c.pull.pages == PagesFor(ahead) && |Above(c.db, user, c.cursor)| == Max(0, ahead - PAGE * MAX_PAGES)
      && c.pull.applied == |Unskipped(c.pushed, Between(c.db, user, c.since, c.cursor))|
      && c.pull.applied + c.pull.skipped == Min(ahead, PAGE * MAX_PAGES)
  }

  /** A row that was dirty is still there, as it was if it is still dirty; and
      after a push that got through a dirty row is refused or a fork. */
  ghost predicate DirtyAccounted(c: Cycle, user: User) {
    && (forall k :: k in c.before && c.before[k].dirty ==>
          k in c.after && (c.after[k].dirty ==> c.after[k] == c.before[k]))
    && (c.push.failed == 0 ==> forall k :: k in c.after && c.after[k].dirty ==>
          StillDirty(c.before, c.after, c.start, user, k))
  }

  /** Whether the counts say that nothing moved. */
  predicate Unchanged(c: Cycle) {
    c.push.Moved() + c.pull.applied == 0
  }

  /** The counts say whether the tables moved, except exactly when a change goes
      unreported or rows are counted that the device held already. */
  ghost predicate ChangeReported(c: Cycle, user: User, order: Order, rule: Rule, net: nat -> Delivery, arrives: nat) {
    && (Unchanged(c) && c.after != c.before
        <==> SilentlyChanges(c.before, c.start, user, c.since, order, rule, net, arrives))
    && (!Unchanged(c) && c.after == c.before
        <==> CountsRepeats(c.before, c.start, user, c.since, order, rule, net, arrives))
    && (Unchanged(c) && c.pull.pages > 0 ==> c.after == c.before)
  }

  lemma RowsAccounted(c: Cycle, user: User, order: Order, rule: Rule, net: nat -> Delivery, marker: string)
    requires ListsDirty(order, c.before) && PushedAndPulled(c, user, order, rule, net, marker)
    requires c.push.failed == 0 ==> AllSettled(c.before, c.pushed, c.start, c.db, user, order, marker)
    ensures DirtyAccounted(c, user)
  {
    CycleEnds(c.before, c.pushed, c.after, c.start, c.db, user, order, marker, c.push.failed == 0);
  }

  lemma ReportsAgree(c: Cycle, user: User, order: Order, rule: Rule, net: nat -> Delivery, arrives: nat, marker: string)
    requires ListsDirty(order, c.before) && PushedAndPulled(c, user, order, rule, net, marker)
    requires PullReported(c, user, arrives)
    requires CountsShow(c.before, c.start, user, c.pushed, c.push)
    requires c.push.failed == 0 ==> AllSettled(c.before, c.pushed, c.start, c.db, user, order, marker)
    requires c.push.failed == 0 && c.push.pushed == 0 ==> c.db == c.start
    ensures ChangeReported(c, user, order, rule, net, arrives)
  {
    var ok := c.push.failed == 0;
    var through := ok && PagesFor(|Above(c.db, user, c.since)|) <= arrives;
    SomePages(|Above(c.db, user, c.since)|);
    PagesLeave(|Above(c.db, user, c.since)|);
    CycleShows(c, user, order, rule, net, arrives, marker, ok, through);
  }

  // ---------- A change that goes unreported ----------

  /** A user's server after so many notes, created one after another. */
  function Filled(user: User, name: nat -> Id, n: nat): Database {
    if n == 0 then Database(map[], map[])
    else Upserted(Filled(user, name, n - 1), user, Write(Key(Notes, name(n)), Fields("", "", "", false, ""), 0), "").0
  }

  function Named(name: nat -> Id, n: nat): set<Key> {
    if n == 0 then {} else Named(name, n - 1) + {Key(Notes, name(n))}
  }

  lemma {:induction false} NotNamed(name: nat -> Id, m: nat, n: nat)
    requires (forall i: nat, j: nat :: i < j ==> name(i) != name(j)) && m < n
    ensures Key(Notes, name(n)) !in Named(name, m) && |Named(name, m)| == m
    decreases m
  {
    if m > 0 {
      NotNamed(name, m - 1, n);
      NotNamed(name, m - 1, m);
    }
  }

  lemma NothingKept()
    ensures SeqsOk(Database(map[], map[]))
  {
  }

  lemma {:induction false} FilledShape(user: User, name: nat -> Id, n: nat)
    requires forall i: nat, j: nat :: i < j ==> name(i) != name(j)
    ensures var db, first := Filled(user, name, n), Key(Notes, name(1));
            && SeqsOk(db) && db.Last(user) == n && db.rows.Keys == Named(name, n)
            && (forall k :: k in db.rows ==> db.rows[k].author == user)
            && (n > 0 ==> first in db.rows && db.rows[first].seqNo == 1)
  {
    hide SeqsOk;
    if n > 0 {
      FilledShape(user, name, n - 1);
      NotNamed(name, n - 1, n);
      UpsertKeepsSeqs(Filled(user, name, n - 1), user, Write(Key(Notes, name(n)), Fields("", "", "", false, ""), 0),
                      "");
      hide Grew;
    } else {
      NothingKept();
    }
  }

  /** A new device, more than a page of notes to pull, and only the first response
      arrives: the device holds a hundred notes that it did not hold before, and
      the cycle says that nothing changed. */
  lemma LostResponseHidesAPage(user: User, name: nat -> Id, n: nat, rule: Rule, net: nat -> Delivery)
    requires forall i: nat, j: nat :: i < j ==> name(i) != name(j)
    requires n > PAGE
    ensures SilentlyChanges(map[], Filled(user, name, n), user, 0, Order([], [], [], []), rule, net, 1)
  {
    var db, k := Filled(user, name, n), Key(Notes, name(1));
    FilledShape(user, name, n);
    NotNamed(name, n, n + 1);
    assert Above(db, user, 0) == db.rows.Keys;
    var first := set j | j in Above(db, user, 0) && db.rows[j].seqNo <= db.rows[k].seqNo;
    assert first <= {k};
    CardinalityMonotone(first, {k});
    assert Differs(map[], db, k);
    assert Order([], [], [], []).Requests() == 0;
  }

  // ---------- Rows counted again ----------

  lemma FirstPlace(db: Database, user: User, since: nat) returns (k: Key)
    requires SeqsOk(db) && Above(db, user, since) != {}
    ensures k in Above(db, user, since) && Place(db, user, since, k) == 1
  {
    k := LowestOf(db, Above(db, user, since));
    assert (set j | j in Above(db, user, since) && db.rows[j].seqNo <= db.rows[k].seqNo) == {k};
  }

  /** Nothing is dirty, and the device holds every row ahead as the server does:
      a conflict put it there, say, or a page of a pull that broke off. The cycle
      says that something changed. */
  lemma HeldRowsAreCounted(tables: Tables, db: Database, user: User, since: nat, rule: Rule, net: nat -> Delivery,
                           arrives: nat)
    requires SeqsOk(db) && Above(db, user, since) != {} && PagesFor(|Above(db, user, since)|) <= arrives
    requires forall k :: k in tables ==> !tables[k].dirty
    requires forall k :: k in Above(db, user, since) ==> k in tables && tables[k] == FromWire(db.rows[k])
    ensures CountsRepeats(tables, db, user, since, Order([], [], [], []), rule, net, arrives)
  {
    var k := FirstPlace(db, user, since);
    hide Place;
    assert Order([], [], [], []).Requests() == 0;
    assert !Skipped(tables, k);
  }

  /** A dirty class meets a newer version of it: the conflict puts that version
      there, and the next pull takes and counts it once more. */
  lemma ConflictIsCountedAgain(user: User, k: Key, local: Local, row: Row, rule: Rule, net: nat -> Delivery)
    requires k.table == Classes && row.author == user && row.seqNo == 1 && 0 < local.version < row.version
    ensures var db := Database(map[k := row], map[user := 1]);
            var tables := AfterResult(map[k := local], k, local, Conflict(row), "", "");
            && Upserted(db, user, ToWrite(k, local), "") == (db, Conflict(row))
            && CountsRepeats(tables, db, user, 0, Order([], [], [], []), rule, net, 1)
  {
    var db := Database(map[k := row], map[user := 1]);
    assert TopRow(db, user) by {
      assert k in db.rows && db.rows[k].author == user && db.rows[k].seqNo == db.Last(user);
    }
    assert SeqsOk(db);
    assert Above(db, user, 0) == {k};
    HeldRowsAreCounted(map[k := FromWire(row)], db, user, 0, rule, net, 1);
  }
}
