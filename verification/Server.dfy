/** The server's four tables and the per-user counter they share. */
module Server {
  import opened Rows

  datatype Database = Database(rows: map<Key, Row>, lastSeq: map<User, nat>) {
    function Last(user: User): nat {
      if user in lastSeq then lastSeq[user] else 0
    }
  }

  /** One pushed row: the fields, and the version the client last saw. */
  datatype Write = Write(key: Key, fields: Fields, version: nat)

  datatype Outcome = Accepted(row: Row) | Conflict(row: Row) | Forbidden

  datatype Reply = Reply(key: Key, outcome: Outcome)

  /** One upsert, as one transaction. */
  function Upserted(db: Database, user: User, w: Write, now: Stamp): (Database, Outcome) {
    if w.key in db.rows && db.rows[w.key].author != user then
      (db, Forbidden)
    else if w.key in db.rows && db.rows[w.key].version != w.version then
      (db, Conflict(db.rows[w.key]))
    else
      var seqNo := db.Last(user) + 1;
      var version := if w.key in db.rows then db.rows[w.key].version + 1 else 1;
      var row := Row(user, Stored(w.key.table, w.fields), version, seqNo, now);
      (Database(db.rows[w.key := row], db.lastSeq[user := seqNo]), Accepted(row))
  }

  /** The rows of one request, one transaction each, in order. */
  function PushedAll(db: Database, user: User, ws: seq<Write>, now: Stamp): (Database, seq<Reply>) {
    if ws == [] then (db, [])
    else
      var w := ws[|ws| - 1];
      var (db', replies) := PushedAll(db, user, ws[..|ws| - 1], now);
      var (db'', outcome) := Upserted(db', user, w, now);
      (db'', replies + [Reply(w.key, outcome)])
  }

  // ---------- What every push keeps ----------

  ghost predicate TopRow(db: Database, u: User) {
    exists k :: k in db.rows && db.rows[k].author == u && db.rows[k].seqNo == db.Last(u)
  }

  /** A user's seqs are pairwise distinct, lie in 1..last_seq, and the counter
      is the seq of some row as soon as it has moved. */
  ghost predicate SeqsOk(db: Database) {
    && (forall k :: k in db.rows ==> 1 <= db.rows[k].seqNo <= db.Last(db.rows[k].author))
    && (forall k :: k in db.rows ==> 1 <= db.rows[k].version)
    && (forall j, k :: j in db.rows && k in db.rows && j != k && db.rows[j].author == db.rows[k].author
          ==> db.rows[j].seqNo != db.rows[k].seqNo)
    && (forall u :: u in db.lastSeq && db.lastSeq[u] > 0 ==> TopRow(db, u))
  }

  ghost predicate Advanced(before: Database, after: Database, k: Key)
    requires k in before.rows && k in after.rows
  {
    || after.rows[k] == before.rows[k]
    || (before.rows[k].version < after.rows[k].version
        && before.Last(before.rows[k].author) < after.rows[k].seqNo)
  }

  /** What later states of the server keep of an earlier one: no row vanishes or
      changes hands, and a row that changed has a higher version and a seq that
      was still unused. */
  ghost predicate Grew(before: Database, after: Database) {
    && (forall u :: before.Last(u) <= after.Last(u))
    && (forall k :: k in before.rows ==>
          k in after.rows && after.rows[k].author == before.rows[k].author && Advanced(before, after, k))
    && (forall k :: k in after.rows && k !in before.rows ==> before.Last(after.rows[k].author) < after.rows[k].seqNo)
  }

  /** What an upsert keeps of a write: every field as it came, but for the kind that
      a notebook or deadline lacks; and what else it decides. */
  lemma UpsertKeepsFields(db: Database, user: User, w: Write, now: Stamp)
    ensures var (db', outcome) := Upserted(db, user, w, now);
            && (outcome.Forbidden? <==> w.key in db.rows && db.rows[w.key].author != user)
            && (outcome.Accepted? <==> w.key in db.rows ==>
                  db.rows[w.key].author == user && db.rows[w.key].version == w.version)
            && (outcome.Conflict? ==> w.key in db.rows && outcome.row == db.rows[w.key])
            && (!outcome.Accepted? ==> db' == db)
            && (outcome.Accepted? ==>
                  var row := outcome.row;
                  && db'.rows == db.rows[w.key := row] && db'.lastSeq == db.lastSeq[user := db.Last(user) + 1]
                  && row.author == user && row.updated == now && row.seqNo == db.Last(user) + 1
                  && row.version == (if w.key in db.rows then w.version + 1 else 1)
                  && (row.fields == w.fields <==> Normal(w.key.table, w.fields))
                  && row.fields.(kind := "") == w.fields.(kind := "")
                  && row.fields.kind == (if w.fields.kind != "" then w.fields.kind
                                         else if w.key.table == Notebooks then "notes"
                                         else if w.key.table == Deadlines then "other" else ""))
  {
  }

  lemma UpsertKeepsRange(db: Database, user: User, w: Write, now: Stamp)
    requires SeqsOk(db)
    ensures var db' := Upserted(db, user, w, now).0;
            forall k :: k in db'.rows ==>
              1 <= db'.rows[k].seqNo <= db'.Last(db'.rows[k].author) && 1 <= db'.rows[k].version
  {
    hide TopRow;
  }

  lemma UpsertKeepsDistinct(db: Database, user: User, w: Write, now: Stamp)
    requires SeqsOk(db)
    ensures var db' := Upserted(db, user, w, now).0;
            forall j, k :: j in db'.rows && k in db'.rows && j != k && db'.rows[j].author == db'.rows[k].author
              ==> db'.rows[j].seqNo != db'.rows[k].seqNo
  {
    hide TopRow;
  }

  lemma UpsertGrows(db: Database, user: User, w: Write, now: Stamp)
    ensures Grew(db, Upserted(db, user, w, now).0)
  {
    var db' := Upserted(db, user, w, now).0;
    forall k | k in db.rows
      ensures Advanced(db, db', k)
    {
    }
  }

  lemma UpsertKeepsTop(db: Database, user: User, w: Write, now: Stamp)
    requires SeqsOk(db)
    ensures var db' := Upserted(db, user, w, now).0;
            forall u :: u in db'.lastSeq && db'.lastSeq[u] > 0 ==> TopRow(db', u)
  {
    var (db', outcome) := Upserted(db, user, w, now);
    if outcome.Accepted? {
      forall u | u in db'.lastSeq && db'.lastSeq[u] > 0
        ensures TopRow(db', u)
      {
        if u == user {
          assert w.key in db'.rows && db'.rows[w.key].author == u;
        } else {
          assert u in db.lastSeq && TopRow(db, u);
          var k :| k in db.rows && db.rows[k].author == u && db.rows[k].seqNo == db.Last(u);
          assert k in db'.rows && db'.rows[k].author == u && db'.rows[k].seqNo == db'.Last(u);
        }
      }
    }
  }

  lemma UpsertKeepsSeqs(db: Database, user: User, w: Write, now: Stamp)
    requires SeqsOk(db)
    ensures SeqsOk(Upserted(db, user, w, now).0)
    ensures Grew(db, Upserted(db, user, w, now).0)
  {
    hide Upserted;
    hide TopRow;
    hide Grew;
    UpsertGrows(db, user, w, now);
    UpsertKeepsTop(db, user, w, now);
    UpsertKeepsRange(db, user, w, now);
    UpsertKeepsDistinct(db, user, w, now);
  }

  lemma GrewTransitive(a: Database, b: Database, c: Database)
    requires SeqsOk(a) && SeqsOk(b)
    requires Grew(a, b) && Grew(b, c)
    ensures Grew(a, c)
  {
    forall k | k in a.rows
      ensures k in c.rows && c.rows[k].author == a.rows[k].author && Advanced(a, c, k)
    {
      assert Advanced(a, b, k) && Advanced(b, c, k);
      assert a.Last(a.rows[k].author) <= b.Last(a.rows[k].author);
    }
    forall k | k in c.rows && k !in a.rows
      ensures a.Last(c.rows[k].author) < c.rows[k].seqNo
    {
      assert a.Last(c.rows[k].author) <= b.Last(c.rows[k].author);
      if k in b.rows {
        assert Advanced(b, c, k);
      }
    }
  }

  /** The server's invariant over any request, hence over any run of them. */
  lemma {:induction false} PushKeepsSeqs(db: Database, user: User, ws: seq<Write>, now: Stamp)
    requires SeqsOk(db)
    ensures SeqsOk(PushedAll(db, user, ws, now).0)
    ensures Grew(db, PushedAll(db, user, ws, now).0)
  {
    if ws != [] {
      var front := ws[..|ws| - 1];
      PushKeepsSeqs(db, user, front, now);
      var db' := PushedAll(db, user, front, now).0;
      UpsertKeepsSeqs(db', user, ws[|ws| - 1], now);
      GrewTransitive(db, db', PushedAll(db, user, ws, now).0);
    }
  }

  /** A push that lands while a pull is under way. */
  datatype Landing = Landing(user: User, ws: seq<Write>, now: Stamp)

  function Landed(db: Database, l: Landing): Database {
    PushedAll(db, l.user, l.ws, l.now).0
  }

  lemma LandedGrew(db: Database, l: Landing)
    requires SeqsOk(db)
    ensures SeqsOk(Landed(db, l)) && Grew(db, Landed(db, l))
  {
    PushKeepsSeqs(db, l.user, l.ws, l.now);
  }

  function AcceptedCount(replies: seq<Reply>): nat {
    if replies == [] then 0
    else AcceptedCount(replies[..|replies| - 1]) + (if replies[|replies| - 1].outcome.Accepted? then 1 else 0)
  }

  lemma UpsertTakesNextSeq(db: Database, user: User, w: Write, now: Stamp)
    ensures var (db', outcome) := Upserted(db, user, w, now);
            && (outcome.Accepted? ==> outcome.row.seqNo == db.Last(user) + 1)
            && db'.Last(user) == db.Last(user) + (if outcome.Accepted? then 1 else 0)
            && (forall u :: u != user ==> db'.Last(u) == db.Last(u))
  {
  }

  /** The replies answer the rows in the order they were sent, and the accepted
      ones carry consecutive seqs in that order: the i-th reply, if accepted,
      has as many seqs between it and the old counter as there were rows
      accepted before it, so nothing else took a seq in between. */
  lemma {:induction false} RepliesInSeqOrder(db: Database, user: User, ws: seq<Write>, now: Stamp)
    ensures var (db', replies) := PushedAll(db, user, ws, now);
            && |replies| == |ws|
            && (forall i :: 0 <= i < |ws| ==> replies[i].key == ws[i].key)
            && (forall i :: 0 <= i < |ws| && replies[i].outcome.Accepted? ==>
                  replies[i].outcome.row.seqNo == db.Last(user) + AcceptedCount(replies[..i]) + 1)
            && db'.Last(user) == db.Last(user) + AcceptedCount(replies)
            && (forall u :: u != user ==> db'.Last(u) == db.Last(u))
  {
    if ws != [] {
      var front, last := ws[..|ws| - 1], ws[|ws| - 1];
      RepliesInSeqOrder(db, user, front, now);
      var (mid, before) := PushedAll(db, user, front, now);
      UpsertTakesNextSeq(mid, user, last, now);
      var (db', replies) := PushedAll(db, user, ws, now);
      hide Upserted;
      assert replies[..|front|] == before && AcceptedCount(before[..|before|]) == AcceptedCount(before) by {
        assert before[..|before|] == before;
      }
      forall i | 0 <= i < |ws|
        ensures replies[i].key == ws[i].key
        ensures replies[i].outcome.Accepted? ==>
                  replies[i].outcome.row.seqNo == db.Last(user) + AcceptedCount(replies[..i]) + 1
      {
        if i < |front| {
          assert replies[i] == before[i] && replies[..i] == before[..i] && ws[i] == front[i];
        }
      }
    }
  }

  lemma {:induction false} AcceptedCountMonotone(replies: seq<Reply>, i: nat, j: nat)
    requires i < j <= |replies|
    ensures AcceptedCount(replies[..i]) <= AcceptedCount(replies[..j])
    ensures replies[i].outcome.Accepted? ==> AcceptedCount(replies[..i]) < AcceptedCount(replies[..j])
    decreases j
  {
    assert replies[..j][..j - 1] == replies[..j - 1];
    if i < j - 1 {
      AcceptedCountMonotone(replies, i, j - 1);
    }
  }

  /** Whether a push of the row is taken, decided by the row alone. */
  predicate Accepts(db: Database, user: User, w: Write) {
    w.key !in db.rows || (db.rows[w.key].author == user && db.rows[w.key].version == w.version)
  }

  predicate Refuses(db: Database, user: User, w: Write) {
    w.key in db.rows && db.rows[w.key].author != user
  }

  ghost predicate SameRow(a: Database, b: Database, k: Key) {
    (k in a.rows <==> k in b.rows) && (k in a.rows ==> a.rows[k] == b.rows[k])
  }

  /** What one request made of one of its rows. */
  ghost predicate IsOutcome(before: Database, after: Database, user: User, w: Write, outcome: Outcome) {
    && (outcome.Accepted? <==> Accepts(before, user, w))
    && (outcome.Forbidden? <==> Refuses(before, user, w))
    && (outcome.Accepted? ==>
          && w.key in after.rows && after.rows[w.key] == outcome.row
          && outcome.row.author == user && outcome.row.fields == Stored(w.key.table, w.fields)
          && outcome.row.version == (if w.key in before.rows then w.version + 1 else 1))
    && (outcome.Conflict? ==> w.key in before.rows && outcome.row == before.rows[w.key])
    && (!outcome.Accepted? ==> SameRow(before, after, w.key))
  }

  ghost predicate DistinctRows(ws: seq<Write>) {
    forall i, j :: 0 <= i < j < |ws| ==> ws[i].key != ws[j].key
  }

  /** Rows of one request do not disturb each other: each is answered as if it
      had been sent alone, and no other row changes. */
  lemma {:induction false} RowsAnsweredAlone(db: Database, user: User, ws: seq<Write>, now: Stamp)
    requires DistinctRows(ws)
    ensures var (db', replies) := PushedAll(db, user, ws, now);
            && |replies| == |ws|
            && (forall i :: 0 <= i < |ws| ==> replies[i].key == ws[i].key)
            && (forall i :: 0 <= i < |ws| ==> IsOutcome(db, db', user, ws[i], replies[i].outcome))
            && (forall k :: (forall i :: 0 <= i < |ws| ==> ws[i].key != k) ==> SameRow(db, db', k))
  {
    if ws != [] {
      var front, last := ws[..|ws| - 1], ws[|ws| - 1];
      RowsAnsweredAlone(db, user, front, now);
      var (mid, before) := PushedAll(db, user, front, now);
      assert SameRow(db, mid, last.key);
      var (db', replies) := PushedAll(db, user, ws, now);
      forall i | 0 <= i < |ws|
        ensures replies[i].key == ws[i].key && IsOutcome(db, db', user, ws[i], replies[i].outcome)
      {
        if i < |front| {
          assert IsOutcome(db, mid, user, front[i], before[i].outcome);
        }
      }
      forall k | forall i :: 0 <= i < |ws| ==> ws[i].key != k
        ensures SameRow(db, db', k)
      {
        assert ws[|ws| - 1].key != k;
        assert forall i :: 0 <= i < |front| ==> front[i] == ws[i];
        assert SameRow(db, mid, k);
      }
    }
  }

  // ---------- Rows of one id ----------

  /** The rows of a request that name one id, in the order they came. */
  function Naming(ws: seq<Write>, k: Key): seq<Write> {
    if ws == [] then []
    else Naming(ws[..|ws| - 1], k) + (if ws[|ws| - 1].key == k then [ws[|ws| - 1]] else [])
  }

  function RepliesTo(replies: seq<Reply>, k: Key): seq<Reply> {
    if replies == [] then []
    else
      var last := replies[|replies| - 1];
      RepliesTo(replies[..|replies| - 1], k) + (if last.key == k then [last] else [])
  }

  /** The same but for the place in the stream. */
  predicate AlikeRow(a: Row, b: Row) {
    a.(seqNo := 0) == b.(seqNo := 0)
  }

  predicate AlikeReply(a: Reply, b: Reply) {
    && a.key == b.key
    && (match a.outcome
        case Accepted(r) => b.outcome.Accepted? && AlikeRow(r, b.outcome.row)
        case Conflict(r) => b.outcome.Conflict? && AlikeRow(r, b.outcome.row)
        case Forbidden => b.outcome.Forbidden?)
  }

  predicate AlikeAt(a: Database, b: Database, k: Key) {
    (k in a.rows <==> k in b.rows) && (k in a.rows ==> AlikeRow(a.rows[k], b.rows[k]))
  }

  /** The rows that name an id are answered, and leave it, as they would if the
      request had held nothing else; only seqs tell the difference. */
  ghost predicate OnItsOwn(db: Database, user: User, ws: seq<Write>, now: Stamp, k: Key) {
    var (all, replies) := PushedAll(db, user, ws, now);
    var (alone, own) := PushedAll(db, user, Naming(ws, k), now);
    && AlikeAt(all, alone, k) && |RepliesTo(replies, k)| == |own|
    && (forall i :: 0 <= i < |own| ==> AlikeReply(RepliesTo(replies, k)[i], own[i]))
    && (Naming(ws, k) == [] ==> SameRow(db, all, k))
  }

  lemma NamingOneMore(ws: seq<Write>, w: Write, k: Key)
    ensures Naming(ws + [w], k) == Naming(ws, k) + (if w.key == k then [w] else [])
  {
    assert (ws + [w])[..|ws|] == ws;
  }

  lemma ToOneMore(replies: seq<Reply>, r: Reply, k: Key)
    ensures RepliesTo(replies + [r], k) == RepliesTo(replies, k) + (if r.key == k then [r] else [])
  {
    assert (replies + [r])[..|replies|] == replies;
  }

  lemma NothingPushed(db: Database, user: User, now: Stamp)
    ensures PushedAll(db, user, [], now) == (db, [])
  {
  }

  /** A push of one row more is a push and then one upsert. */
  lemma OneMorePushed(db: Database, user: User, ws: seq<Write>, w: Write, now: Stamp)
    ensures var (mid, replies) := PushedAll(db, user, ws, now);
            var (db', outcome) := Upserted(mid, user, w, now);
            PushedAll(db, user, ws + [w], now) == (db', replies + [Reply(w.key, outcome)])
  {
    hide Upserted;
    assert (ws + [w])[..|ws|] == ws;
  }

  lemma UpsertAlike(a: Database, b: Database, user: User, w: Write, now: Stamp)
    requires AlikeAt(a, b, w.key)
    ensures var (a', outcome) := Upserted(a, user, w, now);
            var (b', outcome') := Upserted(b, user, w, now);
            AlikeAt(a', b', w.key) && AlikeReply(Reply(w.key, outcome), Reply(w.key, outcome'))
  {
  }

  lemma UpsertElsewhere(db: Database, user: User, w: Write, now: Stamp, k: Key)
    requires w.key != k
    ensures SameRow(db, Upserted(db, user, w, now).0, k)
  {
  }

  lemma OneMoreOnItsOwn(db: Database, user: User, ws: seq<Write>, w: Write, now: Stamp, k: Key)
    requires OnItsOwn(db, user, ws, now, k)
    ensures OnItsOwn(db, user, ws + [w], now, k)
  {
    hide Upserted;
    hide AlikeReply;
    hide PushedAll;
    hide Naming;
    hide RepliesTo;
    var (mid, replies) := PushedAll(db, user, ws, now);
    var (one, own) := PushedAll(db, user, Naming(ws, k), now);
    OneMorePushed(db, user, ws, w, now);
    ToOneMore(replies, Reply(w.key, Upserted(mid, user, w, now).1), k);
    NamingOneMore(ws, w, k);
    if w.key == k {
      UpsertAlike(mid, one, user, w, now);
      OneMorePushed(db, user, Naming(ws, k), w, now);
    } else {
      UpsertElsewhere(mid, user, w, now, k);
      assert Naming(ws, k) + [] == Naming(ws, k) && RepliesTo(replies, k) + [] == RepliesTo(replies, k);
    }
  }

  /** Rows of different ids do not disturb each other, in any request, one that
      names an id twice included. */
  lemma {:induction false} IdsDoNotMeet(db: Database, user: User, ws: seq<Write>, now: Stamp, k: Key)
    ensures OnItsOwn(db, user, ws, now, k)
  {
    if ws != [] {
      var front, last := ws[..|ws| - 1], ws[|ws| - 1];
      IdsDoNotMeet(db, user, front, now, k);
      OneMoreOnItsOwn(db, user, front, last, now, k);
      assert front + [last] == ws;
    }
  }

  /** No notebook and no deadline is stored without a kind, whatever a client
      sends. */
  ghost predicate KindsOk(db: Database) {
    forall k :: k in db.rows && (k.table == Notebooks || k.table == Deadlines) ==> db.rows[k].fields.kind != ""
  }

  lemma {:induction false} PushKeepsKinds(db: Database, user: User, ws: seq<Write>, now: Stamp)
    requires KindsOk(db)
    ensures KindsOk(PushedAll(db, user, ws, now).0)
  {
    if ws != [] {
      PushKeepsKinds(db, user, ws[..|ws| - 1], now);
    }
  }

  // ---------- The request as it arrives ----------

  datatype Pushed = Pushed(id: Id, fields: Fields, version: nat)

  datatype PushRequest = PushRequest(classes: seq<Pushed>, notebooks: seq<Pushed>,
                                     notes: seq<Pushed>, deadlines: seq<Pushed>)

  const MAX_PUSH_ROWS := 100

  function Tagged(table: Table, rows: seq<Pushed>): (ws: seq<Write>)
    ensures |ws| == |rows|
    ensures forall i :: 0 <= i < |rows| ==> ws[i] == Write(Key(table, rows[i].id), rows[i].fields, rows[i].version)
  {
    seq(|rows|, i requires 0 <= i < |rows| => Write(Key(table, rows[i].id), rows[i].fields, rows[i].version))
  }

  /** Dependency order: classes, notebooks, notes, deadlines. */
  function Writes(req: PushRequest): seq<Write> {
    Tagged(Classes, req.classes) + Tagged(Notebooks, req.notebooks)
      + Tagged(Notes, req.notes) + Tagged(Deadlines, req.deadlines)
  }

  predicate TooLarge(req: PushRequest) {
    |req.classes| > MAX_PUSH_ROWS || |req.notebooks| > MAX_PUSH_ROWS
    || |req.notes| > MAX_PUSH_ROWS || |req.deadlines| > MAX_PUSH_ROWS
  }

  function Rank(table: Table): nat {
    match table
    case Classes => 0
    case Notebooks => 1
    case Notes => 2
    case Deadlines => 3
  }

  lemma RanksInOrder(req: PushRequest, i: nat, j: nat)
    requires i < |Writes(req)| && j < |Writes(req)|
    requires Rank(Writes(req)[i].key.table) < Rank(Writes(req)[j].key.table)
    ensures i < j
  {
  }

  /** Accepted rows of one request take their seqs in dependency order, so a
      pull replays a notebook after its class and a deadline after its notes. */
  lemma AcceptedInDependencyOrder(db: Database, user: User, req: PushRequest, now: Stamp, i: nat, j: nat)
    requires i < |Writes(req)| && j < |Writes(req)|
    ensures var replies := PushedAll(db, user, Writes(req), now).1;
            && |replies| == |Writes(req)|
            && (replies[i].outcome.Accepted? && replies[j].outcome.Accepted?
                && Rank(replies[i].key.table) < Rank(replies[j].key.table)
                ==> replies[i].outcome.row.seqNo < replies[j].outcome.row.seqNo)
  {
    hide PushedAll;
    hide Writes;
    hide AcceptedCount;
    var ws := Writes(req);
    RepliesInSeqOrder(db, user, ws, now);
    var replies := PushedAll(db, user, ws, now).1;
    if replies[i].outcome.Accepted? && replies[j].outcome.Accepted? && Rank(ws[i].key.table) < Rank(ws[j].key.table) {
      RanksInOrder(req, i, j);
      AcceptedCountMonotone(replies, i, j);
    }
  }

  // ---------- The rows of one user ----------

  /** The user's rows are the same; other accounts' may differ. */
  ghost predicate SameFor(user: User, db: Database, db': Database) {
    && (forall k :: k in db.rows && db.rows[k].author == user ==> k in db'.rows && db'.rows[k] == db.rows[k])
    && (forall k :: k in db'.rows && db'.rows[k].author == user ==> k in db.rows && db.rows[k].author == user)
  }

  lemma SameForReflexive(user: User, db: Database)
    ensures SameFor(user, db, db)
  {
  }

  lemma SameForTransitive(user: User, a: Database, b: Database, c: Database)
    requires SameFor(user, a, b) && SameFor(user, b, c)
    ensures SameFor(user, a, c)
  {
  }

  lemma SameForSymmetric(user: User, db: Database, db': Database)
    requires SameFor(user, db, db')
    ensures SameFor(user, db', db)
  {
  }

  lemma OtherUpsert(db: Database, other: User, w: Write, now: Stamp, user: User)
    requires other != user
    ensures SameFor(user, db, Upserted(db, other, w, now).0)
  {
  }

  /** No account can touch another one's rows. */
  lemma {:induction false} OtherPush(db: Database, other: User, ws: seq<Write>, now: Stamp, user: User)
    requires other != user || ws == []
    ensures SameFor(user, db, PushedAll(db, other, ws, now).0)
  {
    if ws == [] {
      SameForReflexive(user, db);
    } else {
      var front, last := ws[..|ws| - 1], ws[|ws| - 1];
      OtherPush(db, other, front, now, user);
      var mid := PushedAll(db, other, front, now).0;
      OtherUpsert(mid, other, last, now, user);
      SameForTransitive(user, db, mid, PushedAll(db, other, ws, now).0);
      hide SameFor;
    }
  }
}
