/** A device as the client keeps it: its tables and cursor, the local edits, and
    the push, pull and sync that change them. */
module Replica {
  import opened Common
  import opened Rows
  import opened Server
  import opened Paging
  import opened Device
  import opened Store
  import opened Pushing
  import opened Pulling
  import opened Interleaved
  import opened Cycles
  import opened Runs
  import opened Validation

  class Replica {
    var rows: Tables
    var cursor: nat

    // The guards against a second push, and against a second cycle.
    var pushing: bool
    var syncing: bool

    constructor ()
      ensures rows == map[] && cursor == 0 && !pushing && !syncing
    {
      rows, cursor, pushing, syncing := map[], 0, false, false;
    }

    // ---------- Local edits of notes ----------

    /** A new note is dirty and at version 0. */
    method CreateNote(id: Id, fields: Fields, now: Stamp)
      requires Key(Notes, id) !in rows
      modifies this`rows
      ensures rows == old(rows)[Key(Notes, id) := Local(fields, 0, true, now)]
    {
      rows := rows[Key(Notes, id) := Local(fields, 0, true, now)];
    }

    /** An update of a missing or deleted note is an error and changes nothing;
        of any other it merges what the patch names and keeps the version. */
    method UpdateNote(id: Id, title: Option<string>, body: Option<string>, now: Stamp) returns (found: bool)
      modifies this`rows
      ensures var k := Key(Notes, id);
              && (found <==> k in old(rows) && !old(rows)[k].fields.deleted)
              && (!found ==> rows == old(rows))
              && (found ==> rows.Keys == old(rows).Keys && rows - {k} == old(rows) - {k}
                            && rows[k].dirty && rows[k].updated == now && rows[k].version == old(rows)[k].version
                            && rows[k].fields.title == (if title.Some? then title.value else old(rows)[k].fields.title)
                            && rows[k].fields.body == (if body.Some? then body.value else old(rows)[k].fields.body)
                            && !rows[k].fields.deleted && rows[k].fields.kind == old(rows)[k].fields.kind
                            && rows[k].fields.rest == old(rows)[k].fields.rest)
    {
      var k := Key(Notes, id);
      if k !in rows || rows[k].fields.deleted {
        return false;
      }
      var note := rows[k];
      var merged := note.fields;
      if title.Some? {
        merged := merged.(title := title.value);
      }
      if body.Some? {
        merged := merged.(body := body.value);
      }
      rows := rows[k := note.(fields := merged, updated := now, dirty := true)];
      return true;
    }

    /** A delete or a restore is an edit of one field, and of a missing note
        nothing at all. Neither looks at whether the note was deleted before. */
    method SetDeleted(id: Id, deleted: bool, now: Stamp)
      modifies this`rows
      ensures var k := Key(Notes, id);
              rows == if k !in old(rows) then old(rows)
                      else var note := old(rows)[k];
                           old(rows)[k := Local(note.fields.(deleted := deleted), note.version, true, now)]
    {
      var k := Key(Notes, id);
      if k in rows {
        rows := rows[k := rows[k].(fields := rows[k].fields.(deleted := deleted), updated := now, dirty := true)];
      }
    }

    // ---------- Pull ----------

    method ApplyList(list: seq<Entry>, applied: nat) returns (applied': nat)
      modifies this`rows
      ensures rows == AfterPage(old(rows), RowsOf(list))
      ensures forall k :: k in rows && k !in RowsOf(list) ==> k in old(rows) && rows[k] == old(rows)[k]
      ensures forall k :: k in RowsOf(list) ==>
                var row := RowsOf(list)[k];
                rows[k] == if k in old(rows) && old(rows)[k].dirty then old(rows)[k]
                           else Local(row.fields, row.version, false, row.updated)
      ensures applied' == applied + Taken(old(rows), list)
    {
      applied' := applied;
      for i := 0 to |list|
        invariant rows == AfterPage(old(rows), RowsOf(list[..i]))
        invariant applied' == applied + Taken(old(rows), list[..i])
      {
        AfterPageOne(old(rows), list[..i], list[i]);
        assert list[..i + 1] == list[..i] + [list[i]];
        var remote := list[i];
        if remote.key in rows && rows[remote.key].dirty {
          continue;
        }
        rows := rows[remote.key := FromWire(remote.row)];
        applied' := applied' + 1;
      }
      assert list[..|list|] == list;
    }

    /** The whole page and its cursor in one transaction. */
    method ApplyPage(response: Response) returns (applied: nat)
      modifies this`rows, this`cursor
      ensures rows == AfterPage(old(rows), PageOf(response).rows)
      ensures cursor == response.cursor
      ensures applied == Taken(old(rows), response.classes) + Taken(old(rows), response.notebooks)
                         + Taken(old(rows), response.notes) + Taken(old(rows), response.deadlines)
    {
      ghost var before := rows;
      var c, b, n, d := response.classes, response.notebooks, response.notes, response.deadlines;
      applied := ApplyList(c, 0);
      AfterPageTwo(before, RowsOf(c), RowsOf(b));
      TakenSame(rows, before, b);
      applied := ApplyList(b, applied);
      AfterPageTwo(before, RowsOf(c) + RowsOf(b), RowsOf(n));
      TakenSame(rows, before, n);
      applied := ApplyList(n, applied);
      AfterPageTwo(before, RowsOf(c) + RowsOf(b) + RowsOf(n), RowsOf(d));
      TakenSame(rows, before, d);
      applied := ApplyList(d, applied);
      cursor := response.cursor;
    }

    /** One page of a pull, read after some push has landed: asked for, applied and
        counted. */
    method PullOnePage(store: Store, user: User, land: Landing, summary: PullSummary, ghost mint: nat -> Id,
                       ghost minted: nat) returns (summary': PullSummary, more: bool, ghost p: Page)
      requires SeqsOk(store.Contents())
      modifies this`rows, this`cursor, store
      ensures store.Contents() == Landed(old(store.Contents()), land) && SeqsOk(store.Contents())
      ensures IsPage(store.Contents(), user, old(cursor), PAGE, p)
      ensures rows == AfterPage(old(rows), p.rows) && cursor == p.cursor && more == p.more
      ensures summary'.applied == summary.applied + |Unskipped(old(rows), p.rows)|
      ensures summary'.applied + summary'.skipped == summary.applied + summary.skipped + |p.rows|
      ensures summary'.pages == summary.pages + 1
      ensures land.ws == [] ==> Simulates(user, mint, Site(old(rows), old(cursor), old(store.Contents())), minted,
                                          Site(rows, cursor, store.Contents()), minted)
    {
      hide IsPage;
      hide RowsOf;
      hide AfterPage;
      hide SeqsOk;
      hide Unskipped;
      hide Simulates;
      hide Taken;
      hide Landed;
      ghost var tables, since := rows, cursor;
      LandedGrew(store.Contents(), land);
      store.Land(land);
      ghost var db := store.Contents();
      var quiet := Landing(user, [], "");
      var response := store.Pull(user, cursor, PAGE, quiet, quiet, quiet);
      p := PageOf(response);
      TakenExactly(tables, response);
      PageSimulates(user, mint, Site(tables, since, db), minted, PAGE, p);
      var applied := ApplyPage(response);
      var received := Size(response);
      summary' := PullSummary(summary.applied + applied, summary.skipped + (received - applied), summary.pages + 1);
      more := response.hasMore;
      if land.ws == [] {
        NoneLands(old(store.Contents()), land);
      }
    }

    /** Pages until the server says there are no more, until the budget is spent,
        or until a response fails to arrive; before each page any push may land.
        However it ends, the device holds what it held with the pages that arrived
        laid over it, dirty rows excepted, each row taken counted once, and it has
        missed nothing up to its cursor, so the next run resumes where this one
        stopped. While the user's rows stand still, one that got through has moved
        the cursor past two thousand rows, or past all there were. */
    method PullRemoteChanges(store: Store, user: User, lands: nat -> Landing, arrives: nat, ghost mint: nat -> Id,
                             ghost minted: nat) returns (summary: PullSummary, ok: bool, ghost pages: seq<Page>)
      requires SeqsOk(store.Contents())
      modifies this`rows, this`cursor, store
      ensures store.Contents() == LandedUpTo(old(store.Contents()), lands, |pages|) && SeqsOk(store.Contents())
      ensures PullShows(old(rows), old(cursor), old(store.Contents()), user, lands, arrives, pages, rows, cursor,
                        summary, ok)
      ensures ok <==> |pages| == 20 || (pages != [] && !pages[|pages| - 1].more)
      ensures |pages| <= 20 && forall i :: 0 <= i < |pages| ==>
                |pages[i].rows| <= 100 && (i < |pages| - 1 ==> |pages[i].rows| == 100)
      ensures Overlaid(old(rows), rows)
      ensures HoldsUpTo(old(rows), old(cursor), old(store.Contents()), user) ==>
                HoldsUpTo(rows, cursor, store.Contents(), user)
      ensures OthersOnly(lands, user) ==>
                StillPulled(old(rows), old(cursor), old(store.Contents()), user, arrives, rows, cursor, summary, ok)
      ensures Silent(lands) ==>
                && store.Contents() == old(store.Contents())
                && Simulates(user, mint, Site(old(rows), old(cursor), old(store.Contents())), minted,
                             Site(rows, cursor, store.Contents()), minted)
    {
      hide IsPage;
      hide AfterPage;
      hide SeqsOk;
      hide Unskipped;
      hide Simulates;
      hide Served;
      hide Laid;
      hide TakenFrom;
      hide Received;
      hide Landed;
      hide OthersOnly;
      ghost var db := store.Contents();
      ghost var start, before := cursor, rows;
      summary, ok, pages := PullSummary(0, 0, 0), false, [];
      NoPages(before, start, db, user, lands);
      SimulatesItself(user, mint, Site(before, start, db), minted);
      var page := 0;
      var more := true;
      while page < MAX_PAGES && more
        invariant |pages| == page <= MAX_PAGES && page <= arrives && summary.pages == page && !ok
        invariant store.Contents() == LandedUpTo(db, lands, page) && SeqsOk(store.Contents())
        invariant Served(db, user, start, lands, pages) && (more <==> pages == [] || pages[page - 1].more)
        invariant rows == Laid(before, pages) && cursor == CursorAfter(start, pages)
        invariant summary.applied == TakenFrom(before, pages) && summary.applied + summary.skipped == Received(pages)
        invariant Silent(lands) ==> Simulates(user, mint, Site(before, start, db), minted,
                                              Site(rows, cursor, store.Contents()), minted)
        decreases MAX_PAGES - page
      {
        if page == arrives {
          PullEnds(before, start, db, user, lands, arrives, pages, rows, cursor, summary, ok);
          return;
        }
        ghost var tables, since, was := rows, cursor, store.Contents();
        ghost var p;
        summary, more, p := PullOnePage(store, user, lands(page), summary, mint, minted);
        ServedMore(db, user, start, lands, pages, p);
        OneMorePage(before, start, pages, p);
        if Silent(lands) {
          SimulatesFurther(user, mint, Site(before, start, db), minted, Site(tables, since, was), minted,
                           Site(rows, cursor, store.Contents()), minted);
        }
        pages := pages + [p];
        page := page + 1;
      }
      ok := true;
      PullEnds(before, start, db, user, lands, arrives, pages, rows, cursor, summary, ok);
    }

    // ---------- Push ----------

    method ApplyAccepted(k: Key, sent: Local, server: Row)
      modifies this`rows
      ensures rows == AfterAccepted(old(rows), k, sent, server)
      ensures k !in old(rows) ==> rows == old(rows)
      ensures k in old(rows) ==>
                var row := old(rows)[k];
                rows == old(rows)[k := Local(row.fields, server.version, row.updated != sent.updated, row.updated)]
    {
      if k !in rows {
        return;
      }
      var current := rows[k];
      rows := rows[k := current.(version := server.version, dirty := current.updated != sent.updated)];
    }

    method ApplyConflict(k: Key, server: Row, fork: Id, marker: string)
      modifies this`rows
      ensures rows == AfterConflict(old(rows), k, server, fork, marker)
      ensures var taken := Local(server.fields, server.version, false, server.updated);
              rows == if k.table != Notes then old(rows)[k := taken]
                      else if k !in old(rows) then old(rows)
                      else
                        var row := old(rows)[k];
                        var kept := row.fields.(title := row.fields.title + " " + marker);
                        old(rows)[Key(Notes, fork) := Local(kept, 0, true, row.updated)][k := taken]
    {
      if k.table == Notes {
        if k !in rows {
          return;
        }
        var local := rows[k];
        var title := local.fields.title + " " + marker;
        rows := rows[Key(Notes, fork) := Local(local.fields.(title := title), 0, true, local.updated)];
        rows := rows[k := FromWire(server)];
      } else {
        rows := rows[k := FromWire(server)];
      }
    }

    method ApplyResult(k: Key, sent: Local, outcome: Outcome, fork: Id, marker: string, summary: PushSummary)
      returns (summary': PushSummary)
      modifies this`rows
      ensures rows == AfterResult(old(rows), k, sent, outcome, fork, marker)
      ensures summary' == summary.Counting(outcome)
    {
      match outcome {
        case Accepted(r) =>
          ApplyAccepted(k, sent, r);
          summary' := summary.(pushed := summary.pushed + 1);
        case Conflict(r) =>
          ApplyConflict(k, r, fork, marker);
          summary' := summary.(conflicted := summary.conflicted + 1);
        case Forbidden =>
          summary' := summary.(forbidden := summary.forbidden + 1);
      }
    }

    /** The results of a request, applied one after another until all are or the
        device's tables fail. */
    method ApplyResults(results: seq<Reply>, stop: nat, mint: nat -> Id, minted: nat, marker: string,
                        summary: PushSummary, ghost before: Tables, ghost start: Database, ghost db: Database,
                        ghost user: User, ghost keys: seq<Key>) returns (summary': PushSummary, minted': nat, ok: bool)
      requires ResultsFor(before, rows, start, db, user, keys, results) && NoRepeat(keys)
      requires Applying(before, rows, rows, start, db, user, keys, 0, marker) && FreshIds(mint, minted, rows)
      requires CountsShow(before, start, user, rows, summary)
      modifies this`rows
      ensures ok <==> |results| <= stop
      ensures var done := Min(stop, |results|);
              && Applying(before, old(rows), rows, start, db, user, keys, done, marker)
              && FreshIds(mint, minted', rows) && minted' == minted + done
              && rows == AfterResults(old(rows), results, mint, minted, marker, done)
              && summary'.Handled() == summary.Handled() + done && summary'.failed == summary.failed
      ensures CountsShow(before, start, user, rows, summary') && summary.pushed <= summary'.pushed
      ensures ok && summary'.pushed == summary.pushed ==> forall r :: r in results ==> !r.outcome.Accepted?
    {
      hide IsOutcome;
      hide AfterResult;
      hide AfterResults;
      hide Applying;
      hide CountsShow;
      hide NoRepeat;
      ghost var sent := rows;
      summary', minted', ok := summary, minted, false;
      assert forall i :: 0 <= i < |keys| ==> ResultFor(before, sent, start, db, user, keys[i], results[i]);
      NoResults(sent, results, mint, minted, marker);
      for j := 0 to |results|
        invariant j <= stop && Applying(before, sent, rows, start, db, user, keys, j, marker)
        invariant FreshIds(mint, minted', rows) && minted' == minted + j
        invariant rows == AfterResults(sent, results, mint, minted, marker, j)
        invariant summary'.Handled() == summary.Handled() + j && summary'.failed == summary.failed
        invariant CountsShow(before, start, user, rows, summary')
        invariant summary'.pushed == summary.pushed ==> forall i :: 0 <= i < j ==> !results[i].outcome.Accepted?
        invariant summary.pushed <= summary'.pushed && !ok
      {
        if j == stop {
          return;
        }
        var k, outcome := results[j].key, results[j].outcome;
        var fork := mint(minted');
        assert k == keys[j] && k in keys;
        ApplyingKeeps(before, sent, rows, start, db, user, keys, j, marker);
        ApplyingStep(before, sent, rows, start, db, user, keys, j, outcome, fork, marker);
        ResultCounts(before, rows, start, db, user, summary', k, outcome, fork, marker);
        OneMoreResult(sent, results, mint, minted, marker, j);
        summary' := ApplyResult(k, rows[k], outcome, fork, marker, summary');
        minted' := minted' + 1;
      }
      ok := true;
    }

    /** One request whose answer arrives, unless the server refuses it. Each result
        is applied in turn, until all are or the device's tables fail: the rows
        applied are settled, no other row changes, and every result applied is
        counted once. */
    method SendBatch(store: Store, user: User, batch: Order, stop: nat, mint: nat -> Id, minted: nat, marker: string,
                     now: Stamp, summary: PushSummary, ghost before: Tables, ghost start: Database)
      returns (summary': PushSummary, minted': nat, ok: bool)
      requires Tabled(batch) && Fits(batch)
      requires Ready(before, rows, start, store.Contents(), batch.Keys())
      requires FreshIds(mint, minted, rows) && CountsShow(before, start, user, rows, summary)
      modifies this`rows, store
      ensures ok ==> FreshIds(mint, minted', rows)
      ensures ok <==> |batch.Keys()| <= stop && ValidKeys(store.rule, before, batch.Keys())
      ensures var done := if ValidKeys(store.rule, before, batch.Keys()) then Min(stop, |batch.Keys()|) else 0;
              && Applying(before, old(rows), rows, start, store.Contents(), user, batch.Keys(), done, marker)
              && summary'.Handled() == summary.Handled() + done && summary'.failed == summary.failed
      ensures CountsShow(before, start, user, rows, summary') && summary.pushed <= summary'.pushed
      ensures ok && summary'.pushed == summary.pushed ==> store.Contents() == old(store.Contents())
      ensures OthersSame(old(store.Contents()), store.Contents(), batch.Keys())
      ensures SeqsOk(old(store.Contents())) ==> SeqsOk(store.Contents())
      ensures Simulates(user, mint, Site(old(rows), cursor, old(store.Contents())), minted,
                        Site(rows, cursor, store.Contents()), minted')
    {
      hide SeqsOk;
      hide IsOutcome;
      hide AfterResults;
      hide PushedAll;
      hide Applying;
      hide CountsShow;
      hide Simulates;
      hide ValidKeys;
      hide AllValid;
      hide Ready;
      hide ResultsFor;
      hide FreshIds;
      hide SameRow;
      var keys := batch.Keys();
      ghost var sent, cur := rows, store.Contents();
      summary', minted', ok := summary, minted, false;
      ReadyKeys(before, sent, start, cur, keys);
      RequestWrites(batch, rows);
      TabledKeysDiffer(batch);
      var req := RequestFor(batch, rows);
      PassesWhole(store.rule, req);
      ghost var ws := Writes(req);
      hide Writes;
      hide RequestFor;
      hide TooLarge;
      hide RequestPasses;
      hide Tabled;
      hide Order.Keys;
      var reply := store.Push(user, req, |keys|, now);
      ghost var db' := store.Contents();
      ApplyingStarts(before, sent, start, cur, db', user, keys, marker);
      SameKeys(store.rule, before, sent, start, cur, keys);
      if reply.None? {
        NothingLost(cur);
        SimulatesItself(user, mint, Site(sent, cursor, cur), minted);
        return;
      }
      if SeqsOk(cur) {
        PushKeepsSeqs(cur, user, ws, now);
      }
      RowsAnsweredAlone(cur, user, ws, now);
      ResultsAreFor(before, sent, start, cur, db', user, keys, ws, reply.value);
      SentAlone(cur, db', keys, ws);
      summary', minted', ok :=
        ApplyResults(reply.value, stop, mint, minted, marker, summary, before, start, db', user, keys);
      StoppedSimulates(user, mint, Site(sent, cursor, cur), minted, keys, ws, Min(stop, |keys|), marker, now);
      if ok && summary'.pushed == summary.pushed {
        NothingAccepted(cur, user, ws, now);
      }
    }

    /** One request whose answer never arrives, `taken` of its rows having
        reached the tables of the server. */
    method LoseBatch(store: Store, user: User, batch: Order, taken: nat, now: Stamp,
                     ghost before: Tables, ghost start: Database, ghost mint: nat -> Id, ghost minted: nat)
      requires Tabled(batch) && Ready(before, rows, start, store.Contents(), batch.Keys())
      modifies store
      ensures OthersSame(old(store.Contents()), store.Contents(), batch.Keys())
      ensures SeqsOk(old(store.Contents())) ==> SeqsOk(store.Contents())
      ensures Simulates(user, mint, Site(rows, cursor, old(store.Contents())), minted,
                        Site(rows, cursor, store.Contents()), minted)
    {
      hide PushedAll;
      hide SeqsOk;
      hide SameRow;
      hide Simulates;
      hide ValidRow;
      ghost var keys := batch.Keys();
      ghost var site := Site(rows, cursor, store.Contents());
      TabledKeysDiffer(batch);
      ApplyingStarts(before, rows, start, site.db, site.db, user, keys, "");
      RequestWrites(batch, rows);
      ghost var ws := Writes(RequestFor(batch, rows));
      ghost var m := Min(taken, |ws|);
      LostBatch(site.db, user, batch, rows, m, now);
      PassesWhole(store.rule, RequestFor(batch, rows));
      SimulatesItself(user, mint, site, minted);
      LostSimulates(user, mint, site, minted, keys, ws, m, now);
      assert ws[..|ws|] == ws;
      NothingLost(site.db);
      hide Writes;
      hide RequestFor;
      hide Order.Keys;
      var _ := store.Push(user, RequestFor(batch, rows), taken, now);
    }

    /** One request of a run, whatever becomes of it. */
    method SendNext(store: Store, user: User, order: Order, index: nat, delivery: Delivery,
                    mint: nat -> Id, minted: nat, marker: string, now: Stamp, summary: PushSummary,
                    ghost before: Tables, ghost start: Database)
      returns (summary': PushSummary, minted': nat, ok: bool)
      requires Tabled(order) && index < order.Requests()
      requires summary.failed == 0 && summary.Handled() == Sent(order, index)
      requires InRun(before, rows, start, store.Contents(), user, order, index, marker) && FreshIds(mint, minted, rows)
      requires CountsShow(before, start, user, rows, summary)
      modifies this`rows, store
      ensures summary'.failed == 0 && (SeqsOk(old(store.Contents())) ==> SeqsOk(store.Contents()))
      ensures ok <==> Through(delivery, store.rule, before, order.Batch(index).Keys())
      ensures ok ==>
                && InRun(before, rows, start, store.Contents(), user, order, index + 1, marker)
                && FreshIds(mint, minted', rows) && summary'.Handled() == Sent(order, index + 1)
                && (summary'.pushed == summary.pushed ==> store.Contents() == old(store.Contents()))
      ensures !ok ==>
                && RunLeft(before, rows, start, store.Contents(), user, order, marker)
                && summary'.Handled() < |order.Keys()|
      ensures CountsShow(before, start, user, rows, summary') && summary.pushed <= summary'.pushed
      ensures Simulates(user, mint, Site(old(rows), cursor, old(store.Contents())), minted,
                        Site(rows, cursor, store.Contents()), minted')
    {
      hide SeqsOk;
      hide RunLeft;
      hide Ready;
      hide Applying;
      hide OthersSame;
      hide InRun;
      hide FreshIds;
      hide Tabled;
      hide Pending;
      hide Sent;
      hide Order.Requests;
      hide Order.Batch;
      hide Order.Keys;
      hide Fits;
      hide CountsShow;
      hide Simulates;
      hide ValidKeys;
      var batch := order.Batch(index);
      ghost var tables, db := rows, store.Contents();
      BatchReady(before, rows, start, db, user, order, index, marker);
      SentFits(order, index);
      summary', minted', ok := summary, minted, false;
      match delivery {
        case Answers(results) =>
          summary', minted', ok :=
            SendBatch(store, user, batch, results, mint, minted, marker, now, summary, before, start);
          SentGrows(order, index);
          SentFits(order, index + 1);
          if ok {
            RunAdvances(before, tables, rows, start, db, store.Contents(), user, order, index, marker);
          } else {
            ghost var done := if ValidKeys(store.rule, before, batch.Keys()) then results else 0;
            SomethingIsSent(order, index);
            BrokenOff(before, tables, rows, start, db, store.Contents(), user, order, index, done, marker);
          }
        case NeverAnswers(taken) =>
          LoseBatch(store, user, batch, taken, now, before, start, mint, minted);
          SentStaySame(order, index, db, store.Contents());
          EndOfRun(before, rows, start, db, store.Contents(), user, order, index, marker);
      }
    }

    /** The requests of a run, until one does not get through. */
    method SendAll(store: Store, user: User, order: Order, net: nat -> Delivery, mint: nat -> Id,
                   marker: string, now: Stamp) returns (summary: PushSummary, ok: bool, ghost minted: nat)
      requires ListsDirty(order, rows) && FreshIds(mint, 0, rows)
      modifies this`rows, store
      ensures summary.failed == 0 && summary.Handled() <= |order.Keys()|
      ensures ok <==> GetsThrough(order, store.rule, old(rows), net)
      ensures ok <==> summary.Handled() == |order.Keys()|
      ensures ok ==> AllSettled(old(rows), rows, old(store.Contents()), store.Contents(), user, order, marker)
      ensures RunLeft(old(rows), rows, old(store.Contents()), store.Contents(), user, order, marker)
      ensures CountsShow(old(rows), old(store.Contents()), user, rows, summary)
      ensures ok && summary.pushed == 0 ==> store.Contents() == old(store.Contents())
      ensures SeqsOk(old(store.Contents())) ==> SeqsOk(store.Contents())
      ensures Simulates(user, mint, Site(old(rows), cursor, old(store.Contents())), 0,
                        Site(rows, cursor, store.Contents()), minted)
    {
      hide SeqsOk;
      hide RunLeft;
      hide AllSettled;
      hide CountsShow;
      hide Simulates;
      hide Through;
      hide InRun;
      hide FreshIds;
      hide Tabled;
      hide Sent;
      hide Order.Requests;
      hide Order.Batch;
      hide Order.Keys;
      hide ThroughFirst;
      hide GetsThrough;
      ghost var before, start := rows, store.Contents();
      var count := 0;
      summary, ok, minted := PushSummary(0, 0, 0, 0), true, 0;
      CountsStart(before, start, user);
      SimulatesItself(user, mint, Site(rows, cursor, start), 0);
      SentStarts(order);
      var requests := order.Requests();
      RunStarts(before, start, user, order, marker);
      NoneThrough(order, store.rule, before, net);
      ListsTabled(order, before);
      hide ListsDirty;
      for index := 0 to requests
        invariant ok && count == minted
        invariant InRun(before, rows, start, store.Contents(), user, order, index, marker)
        invariant FreshIds(mint, count, rows)
        invariant SeqsOk(start) ==> SeqsOk(store.Contents())
        invariant summary.failed == 0 && summary.Handled() == Sent(order, index)
        invariant summary.pushed == 0 ==> store.Contents() == start
        invariant CountsShow(before, start, user, rows, summary)
        invariant Simulates(user, mint, Site(before, cursor, start), 0, Site(rows, cursor, store.Contents()), minted)
        invariant ThroughFirst(order, store.rule, before, net, index)
      {
        ghost var tables, db := rows, store.Contents();
        summary, count, ok :=
          SendNext(store, user, order, index, net(index), mint, count, marker, now, summary, before, start);
        OneMoreThrough(order, store.rule, before, net, index);
        SimulatesFurther(user, mint, Site(before, cursor, start), 0, Site(tables, cursor, db), minted,
                         Site(rows, cursor, store.Contents()), count);
        minted := count;
        if !ok {
          return;
        }
      }
      AllThrough(order, store.rule, before, net);
      WholeRun(before, rows, start, store.Contents(), user, order, marker);
      SentGrows(order, requests);
    }

    /** A run of the push. Whatever the network does, every row that was queued
        is counted once; after a run that got through every queued row is
        settled, and after one that broke off each is settled or untouched. Clean
        rows are never touched, and what the run adds are forks. The counts are
        exact and tell whether the tables moved, and the run gets through exactly
        when every request is answered, taken and applied. */
    method PushDirtyRows(store: Store, user: User, order: Order, net: nat -> Delivery, mint: nat -> Id,
                         marker: string, now: Stamp) returns (summary: PushSummary, ok: bool, ghost minted: nat)
      requires ListsDirty(order, rows) && FreshIds(mint, 0, rows)
      modifies this`rows, this`pushing, store
      ensures pushing == old(pushing)
      ensures old(pushing) ==> !ok && rows == old(rows) && store.Contents() == old(store.Contents())
                               && summary == PushSummary(0, 0, 0, 0)
      ensures !old(pushing) ==> summary.Handled() + summary.failed == |order.Keys()| && (ok <==> summary.failed == 0)
      ensures !old(pushing) ==> (ok <==> GetsThrough(order, store.rule, old(rows), net))
      ensures ok ==> AllSettled(old(rows), rows, old(store.Contents()), store.Contents(), user, order, marker)
      ensures RunLeft(old(rows), rows, old(store.Contents()), store.Contents(), user, order, marker)
      ensures CountsShow(old(rows), old(store.Contents()), user, rows, summary)
      ensures ok ==> summary.forbidden == |RefusedRows(old(rows), old(store.Contents()), user)|
      ensures ok && summary.pushed == 0 ==> store.Contents() == old(store.Contents())
      ensures SeqsOk(old(store.Contents())) ==> SeqsOk(store.Contents())
      ensures Simulates(user, mint, Site(old(rows), cursor, old(store.Contents())), 0,
                        Site(rows, cursor, store.Contents()), minted)
    {
      hide SeqsOk;
      hide RunLeft;
      hide AllSettled;
      hide CountsShow;
      hide Simulates;
      hide GetsThrough;
      hide FreshIds;
      ghost var before, start := rows, store.Contents();
      summary, ok, minted := PushSummary(0, 0, 0, 0), false, 0;
      if pushing {
        CountsStart(before, start, user);
        SimulatesItself(user, mint, Site(rows, cursor, start), 0);
        NothingRun(rows, start, user, order, marker);
        return;
      }
      pushing := true;
      SentStarts(order);
      var queued := |order.classes| + |order.notebooks| + |order.notes| + |order.deadlines|;
      summary, ok, minted := SendAll(store, user, order, net, mint, marker, now);
      if !ok {
        CountsDespite(before, start, user, rows, summary, queued - summary.Handled());
        summary := summary.(failed := queued - summary.Handled());
      } else {
        RefusedCounted(before, rows, start, store.Contents(), user, order, marker, summary);
      }
      pushing := false;
    }

    /** One cycle: push, and pull only after a push that got through. A second
        cycle while one runs does nothing. `lands` are the pushes that land before
        the pages of the pull, `arrives` is the number of responses to it that
        arrive. While nobody else pushes the user's rows, `changed` says whether
        the tables moved but for two cases: a pull that breaks off had applied
        something and nothing else happened, or a pull took only rows the device
        held. While nobody pushes at all, the cycle is a stretch of a run of the
        protocol, of steps of this device alone. */
    method Sync(store: Store, user: User, order: Order, net: nat -> Delivery, lands: nat -> Landing, arrives: nat,
                mint: nat -> Id, marker: string, now: Stamp)
      returns (push: PushSummary, pull: PullSummary, changed: bool, ghost c: Cycle, ghost minted: nat)
      requires SeqsOk(store.Contents())
      requires ListsDirty(order, rows) && FreshIds(mint, 0, rows)
      modifies this, store
      ensures syncing == old(syncing) && pushing == old(pushing) && SeqsOk(store.Contents())
      ensures c.before == old(rows) && c.start == old(store.Contents()) && c.since == old(cursor)
      ensures c.after == rows && c.ended == store.Contents() && c.cursor == cursor && c.push == push && c.pull == pull
      ensures old(syncing) ==>
                rows == old(rows) && cursor == old(cursor) && store.Contents() == old(store.Contents()) && !changed
      ensures changed <==> push.pushed + push.conflicted + pull.applied > 0
      ensures !old(syncing) && !old(pushing) ==>
                && PushedAndPulled(c, user, order, store.rule, net, marker)
                && DirtyAccounted(c, user)
      ensures !old(syncing) && !old(pushing) && OthersOnly(lands, user) ==>
                && PullReported(c, user, arrives)
                && ChangeReported(c, user, order, store.rule, net, arrives)
      ensures Silent(lands) ==>
                && c.ended == c.db
                && Simulates(user, mint, Site(c.before, c.since, c.start), 0, Site(c.after, c.cursor, c.ended), minted)
    {
      hide SeqsOk;
      hide FreshIds;
      hide RunLeft;
      hide AllSettled;
      hide CountsShow;
      hide RefusedRows;
      hide GetsThrough;
      hide AfterPage;
      hide Between;
      hide Unskipped;
      hide Above;
      hide PagesFor;
      hide Simulates;
      hide DirtyAccounted;
      hide ChangeReported;
      hide PullShows;
      hide LandedUpTo;
      hide Overlaid;
      hide HoldsUpTo;
      hide OthersOnly;
      hide Silent;
      push, pull, changed, minted := PushSummary(0, 0, 0, 0), PullSummary(0, 0, 0), false, 0;
      c := Cycle(rows, rows, rows, store.Contents(), store.Contents(), store.Contents(), cursor, cursor, push, pull);
      SimulatesItself(user, mint, Site(rows, cursor, store.Contents()), 0);
      if syncing {
        return;
      }
      syncing := true;
      var ok;
      push, ok, minted := PushDirtyRows(store, user, order, net, mint, marker, now);
      c := c.(pushed := rows, after := rows, db := store.Contents(), ended := store.Contents(), push := push);
      NothingBetween(c.db, user, cursor, rows);
      NothingLaid(rows);
      if ok {
        var pulled, through, _ := PullRemoteChanges(store, user, lands, arrives, mint, minted);
        if Silent(lands) {
          SimulatesFurther(user, mint, Site(c.before, c.since, c.start), 0, Site(c.pushed, c.since, c.db), minted,
                           Site(rows, cursor, c.db), minted);
        }
        PagesLeave(|Above(c.db, user, c.since)|);
        if through {
          pull := pulled;
        }
        c := c.(after := rows, cursor := cursor, pull := pull, ended := store.Contents());
      }
      if !old(pushing) {
        RowsAccounted(c, user, order, store.rule, net, marker);
        if OthersOnly(lands, user) {
          ReportsAgree(c, user, order, store.rule, net, arrives, marker);
        }
      }
      changed := push.pushed + push.conflicted + pull.applied > 0;
      syncing := false;
    }
  }
}
