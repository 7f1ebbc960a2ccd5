/** The server's store and its two sync handlers, as they change the tables. */
module Store {
  import opened Common
  import opened Rows
  import opened Server
  import opened Paging
  import opened Validation

  const DEFAULT_PULL_LIMIT := 100
  const MAX_PULL_LIMIT := 500

  function Clamped(limit: nat): (n: nat)
    ensures 1 <= n <= 500
  {
    if limit < 1 then DEFAULT_PULL_LIMIT else Min(limit, MAX_PULL_LIMIT)
  }

  /** What the four reads of a pull see when pushes land between them. */
  function SeenBy(db: Database, a: Landing, b: Landing, c: Landing): Reads {
    var second := Landed(db, a);
    var third := Landed(second, b);
    Reads(db, second, third, Landed(third, c))
  }

  /** What a pull answers with, whatever lands between its reads: the page of the
      tables as each was read, complete if and only if no row written behind the
      read of its table has a seq that this page reaches. */
  ghost predicate PullAnswer(rd: Reads, user: User, since: nat, limit: nat, body: Response) {
    && Arranged(body) && Size(body) == |PageOf(body).rows|
    && IsPage(AsRead(rd), user, since, limit, PageOf(body))
    && (Complete(rd.deadlines, user, since, PageOf(body))
        <==> (forall k :: k in Above(rd.deadlines, user, since) && LandedLate(rd, k)
                ==> PastPage(AsRead(rd), user, since, limit, rd.deadlines.rows[k].seqNo)))
  }

  lemma LandingsSucceed(db: Database, a: Landing, b: Landing, c: Landing)
    requires SeqsOk(db)
    ensures var rd := SeenBy(db, a, b, c);
            Successive(rd) && SeqsOk(rd.notebooks) && SeqsOk(rd.notes) && SeqsOk(rd.deadlines)
  {
    hide SeqsOk;
    hide Landed;
    hide Grew;
    var rd := SeenBy(db, a, b, c);
    LandedGrew(db, a);
    LandedGrew(rd.notebooks, b);
    LandedGrew(rd.notes, c);
    GrewTransitive(rd.classes, rd.notebooks, rd.notes);
    GrewTransitive(rd.notebooks, rd.notes, rd.deadlines);
    GrewTransitive(rd.classes, rd.notebooks, rd.deadlines);
    GrewReflexive(rd.classes);
    GrewReflexive(rd.notebooks);
    GrewReflexive(rd.notes);
    GrewReflexive(rd.deadlines);
  }

  lemma NothingLands(db: Database, a: Landing, b: Landing, c: Landing)
    requires a.ws == b.ws == c.ws == []
    ensures SeenBy(db, a, b, c) == Reads(db, db, db, db)
  {
    NothingPushed(db, a.user, a.now);
    NothingPushed(db, b.user, b.now);
    NothingPushed(db, c.user, c.now);
  }

  lemma PullAnswers(rd: Reads, user: User, since: nat, limit: nat, lists: Lists)
    requires Successive(rd)
    requires IsSince(rd.classes, user, Classes, since, limit + 1, lists.classes)
    requires IsSince(rd.notebooks, user, Notebooks, since, limit + 1, lists.notebooks)
    requires IsSince(rd.notes, user, Notes, since, limit + 1, lists.notes)
    requires IsSince(rd.deadlines, user, Deadlines, since, limit + 1, lists.deadlines)
    ensures PullAnswer(rd, user, since, limit, lists.Merge(since, limit))
  {
    hide IsSince;
    hide Successive;
    forall t: Table
      ensures IsSince(rd.At(t), user, t, since, limit + 1, lists.Of(t))
    {
    }
    assert ReadLists(rd, user, since, limit, lists);
    hide ReadLists;
    MergeIsArranged(rd, user, since, limit, lists);
    MergeSize(rd, user, since, limit, lists);
    TornPullIsPage(rd, user, since, limit, lists);
    TornPullComplete(rd, user, since, limit, lists);
    hide Lists.Merge;
    hide IsPage;
    hide PastPage;
    hide AsRead;
    hide Arranged;
    hide Complete;
    hide LandedLate;
  }

  lemma Prefixes(c: seq<Write>, b: seq<Write>, n: seq<Write>, d: seq<Write>, m: nat)
    ensures [] + c == c
    ensures m <= |c| ==> (c + b + n + d)[..m] == c[..m]
    ensures m <= |c + b| ==> (c + b + n + d)[..m] == (c + b)[..m]
    ensures m <= |c + b + n| ==> (c + b + n + d)[..m] == (c + b + n)[..m]
  {
  }

  lemma LoneRow(db: Database, user: User, k: Key, limit: nat, p: Page)
    requires db.rows.Keys == {k} && db.rows[k].author == user && db.rows[k].seqNo > 0 && limit > 0
    requires IsPage(db, user, 0, limit, p)
    ensures p.rows.Keys == {k} && p.cursor == db.rows[k].seqNo
  {
    assert Above(db, user, 0) == {k};
  }

  lemma LandsOne(db: Database, user: User, w: Write, now: Stamp)
    ensures Landed(db, Landing(user, [w], now)) == Upserted(db, user, w, now).0
    ensures Landed(db, Landing(user, [], now)) == db
  {
    NothingPushed(db, user, now);
    OneMorePushed(db, user, [], w, now);
    assert [] + [w] == [w];
    hide Upserted;
    hide PushedAll;
  }

  lemma PullIsPage(db: Database, user: User, since: nat, limit: nat, body: Response)
    requires PullAnswer(Reads(db, db, db, db), user, since, limit, body)
    ensures IsPage(db, user, since, limit, PageOf(body))
  {
    hide IsPage;
    AsReadAtOnce(db);
  }

  /** What the four reads see when a class lands after the first and a note after
      the second. */
  function Torn(user: User, class1: Key, note1: Key, f: Fields, now: Stamp): Reads {
    SeenBy(Database(map[], map[]), Landing(user, [Write(class1, f, 0)], now), Landing(user, [Write(note1, f, 0)], now),
           Landing(user, [], now))
  }

  lemma TornReads(user: User, class1: Key, note1: Key, f: Fields, now: Stamp)
    requires class1.table == Classes && note1.table == Notes
    ensures var rd := Torn(user, class1, note1, f, now);
            && rd.classes.rows == map[] && rd.notebooks.rows.Keys == {class1}
            && rd.notes.rows.Keys == {class1, note1} && rd.deadlines == rd.notes
            && rd.notes.rows[class1].author == rd.notes.rows[note1].author == user
            && rd.notes.rows[class1].seqNo == 1 && rd.notes.rows[note1].seqNo == 2
  {
    var none, c, n := Database(map[], map[]), Write(class1, f, 0), Write(note1, f, 0);
    LandsOne(none, user, c, now);
    var one := Upserted(none, user, c, now).0;
    LandsOne(one, user, n, now);
    LandsOne(Upserted(one, user, n, now).0, user, n, now);
    hide Landed;
  }

  lemma TornHasNote(user: User, class1: Key, note1: Key, f: Fields, now: Stamp)
    requires class1.table == Classes && note1.table == Notes
    ensures var db := AsRead(Torn(user, class1, note1, f, now));
            db.rows.Keys == {note1} && db.rows[note1].author == user && db.rows[note1].seqNo == 2
  {
    var rd := Torn(user, class1, note1, f, now);
    TornReads(user, class1, note1, f, now);
    hide Torn;
    AsReadAt(rd, note1);
    forall k
      ensures k in AsRead(rd).rows ==> k == note1
    {
      AsReadAt(rd, k);
      hide AsRead;
    }
  }

  /** The hypothesis that the four reads see one state is needed: a class lands
      after the classes were read and a note after it, before the notes are. Every
      answer to that pull passes the class, which no later pull asks for again. */
  lemma TornPullSkipsRow(user: User, class1: Key, note1: Key, f: Fields, now: Stamp, body: Response)
    requires class1.table == Classes && note1.table == Notes
    requires PullAnswer(Torn(user, class1, note1, f, now), user, 0, DEFAULT_PULL_LIMIT, body)
    ensures var db := Torn(user, class1, note1, f, now).deadlines;
            && class1 in db.rows && db.rows[class1].author == user && 0 < db.rows[class1].seqNo <= body.cursor
            && class1 !in PageOf(body).rows && !Complete(db, user, 0, PageOf(body))
  {
    var rd := Torn(user, class1, note1, f, now);
    TornReads(user, class1, note1, f, now);
    TornHasNote(user, class1, note1, f, now);
    hide Torn;
    LoneRow(AsRead(rd), user, note1, DEFAULT_PULL_LIMIT, PageOf(body));
    hide AsRead;
    hide IsPage;
    hide PastPage;
    hide LandedLate;
    assert class1 in Above(rd.deadlines, user, 0);
  }

  lemma AnswerFits(rd: Reads, user: User, since: nat, limit: nat, body: Response)
    requires PullAnswer(rd, user, since, limit, body)
    ensures Size(body) <= limit
  {
  }

  /** A query half read: `remaining` lies above everything listed. */
  ghost predicate Reading(db: Database, user: User, table: Table, since: nat, list: seq<Entry>, remaining: set<Key>) {
    && From(db, user, table, since, list)
    && remaining <= AboveIn(db, user, table, since)
    && (forall k :: k in AboveIn(db, user, table, since) ==> k in remaining || k in RowsOf(list))
    && (list != [] ==> forall k :: k in remaining ==> list[|list| - 1].row.seqNo < db.rows[k].seqNo)
  }

  lemma ReadingStep(db: Database, user: User, table: Table, since: nat, list: seq<Entry>, remaining: set<Key>, k: Key)
    requires SeqsOk(db) && Reading(db, user, table, since, list, remaining)
    requires k in remaining && forall j :: j in remaining ==> db.rows[k].seqNo <= db.rows[j].seqNo
    ensures Reading(db, user, table, since, list + [Entry(k, db.rows[k])], remaining - {k})
  {
    var list' := list + [Entry(k, db.rows[k])];
    assert list'[..|list'| - 1] == list;
    assert list == [] || list[|list| - 1].row.seqNo < db.rows[k].seqNo;
    assert From(db, user, table, since, list');
    forall j | j in remaining - {k}
      ensures db.rows[k].seqNo < db.rows[j].seqNo
    {
    }
  }

  class Store {
    var rows: map<Key, Row>
    var lastSeq: map<User, nat>
    const rule: Rule

    function Contents(): Database
      reads this
    {
      Database(rows, lastSeq)
    }

    constructor (rule: Rule)
      ensures Contents() == Database(map[], map[]) && this.rule == rule
    {
      rows, lastSeq, this.rule := map[], map[], rule;
    }

    method NextSeq(user: User) returns (seqNo: nat)
      modifies this`lastSeq
      ensures seqNo == old(Contents().Last(user)) + 1
      ensures lastSeq == old(lastSeq)[user := seqNo]
    {
      seqNo := (if user in lastSeq then lastSeq[user] else 0) + 1;
      lastSeq := lastSeq[user := seqNo];
    }

    method Upsert(user: User, w: Write, now: Stamp) returns (outcome: Outcome)
      modifies this
      ensures (Contents(), outcome) == Upserted(old(Contents()), user, w, now)
      ensures outcome.Forbidden? <==> w.key in old(rows) && old(rows)[w.key].author != user
      ensures outcome.Accepted? <==> w.key in old(rows) ==>
                old(rows)[w.key].author == user && old(rows)[w.key].version == w.version
      ensures outcome.Conflict? ==> outcome.row == old(rows)[w.key]
      ensures !outcome.Accepted? ==> rows == old(rows) && lastSeq == old(lastSeq)
      ensures outcome.Accepted? ==>
                var row, seqNo := outcome.row, (if user in old(lastSeq) then old(lastSeq)[user] else 0) + 1;
                && rows == old(rows)[w.key := row] && lastSeq == old(lastSeq)[user := seqNo]
                && row.author == user && row.updated == now && row.seqNo == seqNo
                && row.version == (if w.key in old(rows) then w.version + 1 else 1)
                && row.fields.title == w.fields.title && row.fields.body == w.fields.body
                && row.fields.deleted == w.fields.deleted && row.fields.rest == w.fields.rest
                && row.fields.kind == (if w.fields.kind != "" then w.fields.kind
                                       else if w.key.table == Notebooks then "notes"
                                       else if w.key.table == Deadlines then "other" else "")
    {
      if w.key in rows && rows[w.key].author != user {
        return Forbidden;
      }
      if w.key in rows && rows[w.key].version != w.version {
        return Conflict(rows[w.key]);
      }
      var seqNo := NextSeq(user);
      var version := 1;
      if w.key in rows {
        version := rows[w.key].version + 1;
      }
      var saved := Row(user, Stored(w.key.table, w.fields), version, seqNo, now);
      rows := rows[w.key := saved];
      outcome := Accepted(saved);
    }

    /** The rows of one array, after those of the arrays before it. `healthy` is
        the number of rows of the request the database gets through: past it a
        row ends in an error, and the rows before it stay written. */
    method UpsertArray(user: User, table: Table, pushed: seq<Pushed>, healthy: nat, now: Stamp,
                       ghost start: Database, ghost before: seq<Write>, results: seq<Reply>)
      returns (results': seq<Reply>, ok: bool)
      requires (Contents(), results) == PushedAll(start, user, before, now) && |results| == |before| <= healthy
      modifies this
      ensures ok <==> |before| + |pushed| <= healthy
      ensures var ws := before + Tagged(table, pushed);
              if ok then (Contents(), results') == PushedAll(start, user, ws, now) && |results'| == |ws|
              else Contents() == PushedAll(start, user, ws[..healthy], now).0
    {
      hide PushedAll;
      hide Upserted;
      results' := results;
      var ws := Tagged(table, pushed);
      assert before + ws[..0] == before;
      for i := 0 to |pushed|
        invariant |results'| == |before| + i <= healthy
        invariant (Contents(), results') == PushedAll(start, user, before + ws[..i], now)
      {
        if |results'| == healthy {
          assert (before + ws)[..healthy] == before + ws[..i];
          return results', false;
        }
        OneMorePushed(start, user, before + ws[..i], ws[i], now);
        assert before + ws[..i + 1] == before + ws[..i] + [ws[i]];
        var outcome := Upsert(user, ws[i], now);
        results' := results' + [Reply(ws[i].key, outcome)];
      }
      assert ws[..|pushed|] == ws;
      ok := true;
    }

    method ValidateArray(table: Table, pushed: seq<Pushed>) returns (ok: bool)
      ensures ok <==> AllValid(rule, Tagged(table, pushed))
    {
      var ws := Tagged(table, pushed);
      for i := 0 to |pushed|
        invariant AllValid(rule, ws[..i])
      {
        if !ValidRow(rule, ws[i]) {
          return false;
        }
      }
      assert ws[..|pushed|] == ws;
      ok := true;
    }

    /** The push handler: an oversized request, or one with a bad row in any
        array, is refused whole; any other one is answered row by row. A database
        error at a row leaves the rows before it written and answers with none of
        them. */
    method Push(user: User, req: PushRequest, healthy: nat, now: Stamp) returns (reply: Option<seq<Reply>>)
      modifies this
      ensures !RequestPasses(rule, req) ==> reply == None && Contents() == old(Contents())
      ensures RequestPasses(rule, req) && |Writes(req)| <= healthy ==>
                reply.Some? && (Contents(), reply.value) == PushedAll(old(Contents()), user, Writes(req), now)
      ensures RequestPasses(rule, req) && healthy < |Writes(req)| ==>
                reply == None && Contents() == PushedAll(old(Contents()), user, Writes(req)[..healthy], now).0
    {
      ValidRowsPass(rule, Classes, req.classes);
      ValidRowsPass(rule, Notebooks, req.notebooks);
      ValidRowsPass(rule, Notes, req.notes);
      ValidRowsPass(rule, Deadlines, req.deadlines);
      hide RowsPass;
      if TooLarge(req) {
        return None;
      }
      ValidInParts(rule, Tagged(Classes, req.classes), Tagged(Notebooks, req.notebooks),
                   Tagged(Notes, req.notes), Tagged(Deadlines, req.deadlines));
      var valid := ValidateArray(Classes, req.classes);
      if !valid {
        return None;
      }
      valid := ValidateArray(Notebooks, req.notebooks);
      if !valid {
        return None;
      }
      valid := ValidateArray(Notes, req.notes);
      if !valid {
        return None;
      }
      valid := ValidateArray(Deadlines, req.deadlines);
      if !valid {
        return None;
      }
      hide AllValid;
      hide PushedAll;
      ghost var start := Contents();
      ghost var c, b := Tagged(Classes, req.classes), Tagged(Notebooks, req.notebooks);
      ghost var n, d := Tagged(Notes, req.notes), Tagged(Deadlines, req.deadlines);
      NothingPushed(start, user, now);
      Prefixes(c, b, n, d, healthy);
      hide Tagged;
      var results, ok := UpsertArray(user, Classes, req.classes, healthy, now, start, [], []);
      if !ok {
        return None;
      }
      results, ok := UpsertArray(user, Notebooks, req.notebooks, healthy, now, start, c, results);
      if !ok {
        return None;
      }
      results, ok := UpsertArray(user, Notes, req.notes, healthy, now, start, c + b, results);
      if !ok {
        return None;
      }
      results, ok := UpsertArray(user, Deadlines, req.deadlines, healthy, now, start, c + b + n, results);
      if !ok {
        return None;
      }
      reply := Some(results);
    }

    method Lowest(keys: set<Key>) returns (k: Key)
      requires keys != {} && keys <= rows.Keys
      ensures k in keys && forall j :: j in keys ==> rows[k].seqNo <= rows[j].seqNo
    {
      k :| k in keys;
      var rest := keys - {k};
      while rest != {}
        invariant k in keys && rest <= keys
        invariant forall j :: j in keys ==> j in rest || rows[k].seqNo <= rows[j].seqNo
        decreases rest
      {
        var j :| j in rest;
        if rows[j].seqNo < rows[k].seqNo {
          k := j;
        }
        rest := rest - {j};
      }
    }

    /** One table's query: lowest seqs first, `limit` rows at most. */
    method Since(user: User, table: Table, since: nat, limit: nat) returns (list: seq<Entry>)
      requires SeqsOk(Contents())
      ensures IsSince(Contents(), user, table, since, limit, list)
    {
      list := [];
      var remaining := AboveIn(Contents(), user, table, since);
      while |list| < limit && remaining != {}
        invariant Reading(Contents(), user, table, since, list, remaining) && |list| <= limit
        decreases remaining
      {
        var k := Lowest(remaining);
        ReadingStep(Contents(), user, table, since, list, remaining, k);
        list := list + [Entry(k, rows[k])];
        remaining := remaining - {k};
      }
    }

    method Land(l: Landing)
      modifies this
      ensures Contents() == Landed(old(Contents()), l)
    {
      ghost var start := Contents();
      ghost var replies: seq<Reply> := [];
      NothingPushed(start, l.user, l.now);
      for i := 0 to |l.ws|
        invariant (Contents(), replies) == PushedAll(start, l.user, l.ws[..i], l.now)
      {
        OneMorePushed(start, l.user, l.ws[..i], l.ws[i], l.now);
        assert l.ws[..i + 1] == l.ws[..i] + [l.ws[i]];
        var outcome := Upsert(l.user, l.ws[i], l.now);
        replies := replies + [Reply(l.ws[i].key, outcome)];
      }
      assert l.ws[..|l.ws|] == l.ws;
    }

    /** The pull handler. Its four statements are no transaction, and pushes may
        land between them: the answer is complete up to its cursor exactly when
        none of them wrote a row there behind the read of its table. When none
        lands it is the page of the whole tables. */
    method Pull(user: User, since: nat, limit: nat, a: Landing, b: Landing, c: Landing) returns (body: Response)
      requires SeqsOk(Contents())
      modifies this
      ensures Contents() == SeenBy(old(Contents()), a, b, c).deadlines && SeqsOk(Contents())
      ensures var n := if limit < 1 then 100 else if limit > 500 then 500 else limit;
              && PullAnswer(SeenBy(old(Contents()), a, b, c), user, since, n, body) && Size(body) <= n
              && (a.ws == b.ws == c.ws == [] ==>
                    Contents() == old(Contents()) && IsPage(Contents(), user, since, n, PageOf(body)))
    {
      hide IsSince;
      hide IsPage;
      hide Merged;
      hide SeqsOk;
      hide Landed;
      hide PullAnswer;
      var n := Clamped(limit);
      ghost var rd := SeenBy(Contents(), a, b, c);
      LandingsSucceed(Contents(), a, b, c);
      var classes := Since(user, Classes, since, n + 1);
      Land(a);
      var notebooks := Since(user, Notebooks, since, n + 1);
      Land(b);
      var notes := Since(user, Notes, since, n + 1);
      Land(c);
      var deadlines := Since(user, Deadlines, since, n + 1);
      body := MergePage(since, n, classes, notebooks, notes, deadlines);
      PullAnswers(rd, user, since, n, Lists(classes, notebooks, notes, deadlines));
      AnswerFits(rd, user, since, n, body);
      if a.ws == b.ws == c.ws == [] {
        NothingLands(old(Contents()), a, b, c);
        PullIsPage(old(Contents()), user, since, n, body);
      }
    }
  }
}
