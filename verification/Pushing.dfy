/** How a run of the push cuts the dirty rows into requests, and what it makes
    of each row. */
module Pushing {
  import opened Common
  import opened Rows
  import opened Server
  import opened Device
  import opened Validation

  const BATCH := 100

  // ---------- The requests ----------

  /** At most a batch of the sequence from one position on. */
  function Cut<T>(s: seq<T>, from: nat): (c: seq<T>)
    ensures |c| <= BATCH
  {
    s[Min(from, |s|)..Min(from + BATCH, |s|)]
  }

  /** The keys a run sends, table by table, in the order they were read. */
  datatype Order = Order(classes: seq<Key>, notebooks: seq<Key>, notes: seq<Key>, deadlines: seq<Key>) {
    function Keys(): seq<Key> {
      classes + notebooks + notes + deadlines
    }

    function Batch(index: nat): Order {
      Order(Cut(classes, index * BATCH), Cut(notebooks, index * BATCH), Cut(notes, index * BATCH),
            Cut(deadlines, index * BATCH))
    }

    function Longest(): nat {
      Max(Max(|classes|, |notebooks|), Max(|notes|, |deadlines|))
    }

    /** The number of requests: the longest array decides it. */
    function Requests(): nat {
      (Longest() + BATCH - 1) / BATCH
    }
  }

  function Joined<T>(s: seq<T>, n: nat): seq<T> {
    if n == 0 then [] else Joined(s, n - 1) + Cut(s, (n - 1) * BATCH)
  }

  lemma {:induction false} JoinedIsFront<T>(s: seq<T>, n: nat)
    ensures Joined(s, n) == s[..Min(n * BATCH, |s|)]
  {
    if n > 0 {
      JoinedIsFront(s, n - 1);
    }
  }

  /** The batches of every table put together again are the table, no batch is
      over a hundred rows, and one request fewer would leave rows behind. */
  lemma BatchesCover(order: Order)
    ensures var n := order.Requests();
            && Joined(order.classes, n) == order.classes && Joined(order.notebooks, n) == order.notebooks
            && Joined(order.notes, n) == order.notes && Joined(order.deadlines, n) == order.deadlines
            && (n > 0 ==> (n - 1) * 100 < order.Longest() <= n * 100)
            && (forall i: nat :: var b := order.Batch(i);
                  |b.classes| <= 100 && |b.notebooks| <= 100 && |b.notes| <= 100 && |b.deadlines| <= 100)
  {
    var n := order.Requests();
    JoinedIsFront(order.classes, n);
    JoinedIsFront(order.notebooks, n);
    JoinedIsFront(order.notes, n);
    JoinedIsFront(order.deadlines, n);
  }

  predicate Fits(batch: Order) {
    |batch.classes| <= BATCH && |batch.notebooks| <= BATCH && |batch.notes| <= BATCH && |batch.deadlines| <= BATCH
  }

  ghost predicate NoRepeat(keys: seq<Key>) {
    forall i, j :: 0 <= i < j < |keys| ==> keys[i] != keys[j]
  }

  ghost predicate Tabled(order: Order) {
    && (forall k :: k in order.classes ==> k.table == Classes)
    && (forall k :: k in order.notebooks ==> k.table == Notebooks)
    && (forall k :: k in order.notes ==> k.table == Notes)
    && (forall k :: k in order.deadlines ==> k.table == Deadlines)
    && NoRepeat(order.classes) && NoRepeat(order.notebooks) && NoRepeat(order.notes) && NoRepeat(order.deadlines)
  }

  /** The four queries list every dirty row of their table, each once. */
  ghost predicate ListsDirty(order: Order, tables: Tables) {
    && Tabled(order)
    && (forall k :: k in order.Keys() <==> k in DirtyKeys(tables))
  }

  lemma TabledKeysDiffer(order: Order)
    requires Tabled(order)
    ensures NoRepeat(order.Keys())
  {
    var keys := order.Keys();
    forall i, j | 0 <= i < j < |keys|
      ensures keys[i] != keys[j]
    {
      assert keys[i] in order.classes || keys[i] in order.notebooks
             || keys[i] in order.notes || keys[i] in order.deadlines;
    }
  }

  lemma CutKeeps(s: seq<Key>, from: nat)
    requires NoRepeat(s)
    ensures NoRepeat(Cut(s, from)) && forall k :: k in Cut(s, from) ==> k in s
  {
  }

  lemma BatchTabled(order: Order, index: nat)
    requires Tabled(order)
    ensures Tabled(order.Batch(index))
  {
    hide NoRepeat;
    CutKeeps(order.classes, index * BATCH);
    CutKeeps(order.notebooks, index * BATCH);
    CutKeeps(order.notes, index * BATCH);
    CutKeeps(order.deadlines, index * BATCH);
    hide Cut;
  }

  function Payload(keys: seq<Key>, tables: Tables): (rows: seq<Pushed>)
    requires forall k :: k in keys ==> k in tables
    ensures |rows| == |keys|
    ensures forall i :: 0 <= i < |keys| ==>
            rows[i] == Pushed(keys[i].id, tables[keys[i]].fields, tables[keys[i]].version)
  {
    seq(|keys|, i requires 0 <= i < |keys| => Pushed(keys[i].id, tables[keys[i]].fields, tables[keys[i]].version))
  }

  function RequestFor(order: Order, tables: Tables): PushRequest
    requires forall k :: k in order.Keys() ==> k in tables
  {
    PushRequest(Payload(order.classes, tables), Payload(order.notebooks, tables),
                Payload(order.notes, tables), Payload(order.deadlines, tables))
  }

  ghost predicate ValidKeys(rule: Rule, tables: Tables, keys: seq<Key>) {
    forall k :: k in keys ==> k in tables && ValidRow(rule, ToWrite(k, tables[k]))
  }

  lemma SameValidity(rule: Rule, tables: Tables, keys: seq<Key>, ws: seq<Write>)
    requires |ws| == |keys|
    requires forall i :: 0 <= i < |keys| ==> keys[i] in tables && ws[i] == ToWrite(keys[i], tables[keys[i]])
    ensures AllValid(rule, ws) <==> ValidKeys(rule, tables, keys)
  {
    hide ValidRow;
    hide ToWrite;
    if ValidKeys(rule, tables, keys) {
      forall i | 0 <= i < |ws|
        ensures ValidRow(rule, ws[i])
      {
        assert keys[i] in keys;
      }
    }
  }

  lemma RequestWrites(order: Order, tables: Tables)
    requires Tabled(order) && forall k :: k in order.Keys() ==> k in tables
    ensures var ws, keys := Writes(RequestFor(order, tables)), order.Keys();
            && |ws| == |keys|
            && (forall i :: 0 <= i < |keys| ==> keys[i] in tables && ws[i] == ToWrite(keys[i], tables[keys[i]]))
            && DistinctRows(ws)
    ensures Fits(order) ==> !TooLarge(RequestFor(order, tables))
    ensures forall rule :: AllValid(rule, Writes(RequestFor(order, tables))) <==> ValidKeys(rule, tables, order.Keys())
  {
    var ws, keys := Writes(RequestFor(order, tables)), order.Keys();
    TabledKeysDiffer(order);
    forall i | 0 <= i < |keys|
      ensures keys[i] in tables && ws[i] == ToWrite(keys[i], tables[keys[i]])
    {
      assert keys[i] in keys;
    }
    forall rule
      ensures AllValid(rule, ws) <==> ValidKeys(rule, tables, keys)
    {
      SameValidity(rule, tables, keys, ws);
    }
  }

  // ---------- What becomes of a request ----------

  /** The answer of a request arrives, and the device's own tables take so many
      of its results before one fails; or no answer arrives, and the server has
      taken so many of its rows: none when the request was lost, all when the
      answer was, some when the server failed on the way. */
  datatype Delivery = Answers(results: nat) | NeverAnswers(taken: nat)

  ghost predicate Through(delivery: Delivery, rule: Rule, tables: Tables, keys: seq<Key>) {
    delivery.Answers? && |keys| <= delivery.results && ValidKeys(rule, tables, keys)
  }

  ghost predicate ThroughFirst(order: Order, rule: Rule, tables: Tables, net: nat -> Delivery, n: nat) {
    forall index: nat :: index < n ==> Through(net(index), rule, tables, order.Batch(index).Keys())
  }

  /** Every request of a run is answered, taken and applied to the end. */
  ghost predicate GetsThrough(order: Order, rule: Rule, tables: Tables, net: nat -> Delivery) {
    ThroughFirst(order, rule, tables, net, order.Requests())
  }

  lemma NoneThrough(order: Order, rule: Rule, tables: Tables, net: nat -> Delivery)
    ensures ThroughFirst(order, rule, tables, net, 0)
  {
  }

  lemma OneMoreThrough(order: Order, rule: Rule, tables: Tables, net: nat -> Delivery, n: nat)
    requires ThroughFirst(order, rule, tables, net, n) && n < order.Requests()
    ensures if Through(net(n), rule, tables, order.Batch(n).Keys()) then ThroughFirst(order, rule, tables, net, n + 1)
            else !GetsThrough(order, rule, tables, net)
  {
    hide Through;
  }

  // ---------- What becomes of a row ----------

  ghost predicate ForkAt(before: Tables, after: Tables, k: Key, marker: string, id: Id) {
    && k in before && Key(Notes, id) !in before && Key(Notes, id) in after
    && after[Key(Notes, id)] == Forked(before[k], marker)
  }

  ghost predicate HasFork(before: Tables, after: Tables, k: Key, marker: string) {
    exists id :: ForkAt(before, after, k, marker, id)
  }

  /** A pushed row after its result: accepted, it is clean and the server has its
      fields under the version it now names; conflicted, it is the server's copy,
      and a note has a fork besides; refused, nothing at all has changed. */
  ghost predicate Settled(before: Tables, after: Tables, db: Database, db': Database, user: User, k: Key,
                          marker: string) {
    k in before && k in after &&
    var w := ToWrite(k, before[k]);
    if Accepts(db, user, w) then
      && k in db'.rows && db'.rows[k].author == user && db'.rows[k].fields == Stored(k.table, before[k].fields)
      && db'.rows[k].version == (if k in db.rows then before[k].version + 1 else 1)
      && after[k] == before[k].(version := db'.rows[k].version, dirty := false)
    else
      && SameRow(db, db', k)
      && (if Refuses(db, user, w) then after[k] == before[k]
          else after[k] == FromWire(db.rows[k]) && (k.table == Notes ==> HasFork(before, after, k, marker)))
  }

  /** A row that a run added is a fork: a dirty note at version 0. */
  ghost predicate NewIsFork(before: Tables, after: Tables, k: Key) {
    k in after && k !in before ==> k.table == Notes && after[k].dirty && after[k].version == 0
  }

  datatype PushSummary = PushSummary(pushed: nat, conflicted: nat, forbidden: nat, failed: nat) {
    function Handled(): nat {
      pushed + conflicted + forbidden
    }

    /** The rows a run has changed on the device. */
    function Moved(): nat {
      pushed + conflicted
    }

    function Counting(outcome: Outcome): PushSummary {
      match outcome
      case Accepted(_) => this.(pushed := pushed + 1)
      case Conflict(_) => this.(conflicted := conflicted + 1)
      case Forbidden => this.(forbidden := forbidden + 1)
    }
  }

  /** One result applied, seen from the row it answers. */
  lemma ResultSettles(before: Tables, tables: Tables, db: Database, db': Database, user: User, k: Key, outcome: Outcome,
                      fork: Id, marker: string)
    requires k in before && k in tables && tables[k] == before[k] && before[k].dirty
    requires IsOutcome(db, db', user, ToWrite(k, before[k]), outcome)
    requires Key(Notes, fork) !in before && Key(Notes, fork) !in tables
    ensures Settled(before, AfterResult(tables, k, before[k], outcome, fork, marker), db, db', user, k, marker)
  {
    var after := AfterResult(tables, k, before[k], outcome, fork, marker);
    if outcome.Conflict? && k.table == Notes {
      assert ForkAt(before, after, k, marker, fork);
    }
  }

  /** Seen from any other row. */
  lemma ResultKeepsOthers(before: Tables, tables: Tables, k: Key, sent: Local, outcome: Outcome,
                          fork: Id, marker: string, j: Key)
    requires k in tables && j != k && before.Keys <= tables.Keys
    requires Key(Notes, fork) !in tables && NewIsFork(before, tables, j)
    ensures var after := AfterResult(tables, k, sent, outcome, fork, marker);
            && (j in tables ==> j in after && after[j] == tables[j])
            && NewIsFork(before, after, j)
            && (j in after && j !in tables ==> j == Key(Notes, fork))
  {
  }

  lemma SettledStays(before: Tables, a: Tables, b: Tables, db: Database, mid: Database, db': Database, user: User,
                     k: Key, marker: string)
    requires Settled(before, a, db, mid, user, k, marker) && SameRow(mid, db', k)
    requires forall j :: j in a && (j == k || j !in before) ==> j in b && b[j] == a[j]
    ensures Settled(before, b, db, db', user, k, marker)
  {
    if HasFork(before, a, k, marker) {
      var id :| ForkAt(before, a, k, marker, id);
      assert ForkAt(before, b, k, marker, id);
    }
  }

  // ---------- What is still to be sent ----------

  function Rest<T>(s: seq<T>, index: nat): seq<T> {
    s[Min(index * BATCH, |s|)..]
  }

  ghost predicate Pending(order: Order, index: nat, k: Key) {
    match k.table
    case Classes => k in Rest(order.classes, index)
    case Notebooks => k in Rest(order.notebooks, index)
    case Notes => k in Rest(order.notes, index)
    case Deadlines => k in Rest(order.deadlines, index)
  }

  lemma RestSplits(s: seq<Key>, index: nat, k: Key)
    requires NoRepeat(s)
    ensures k in Rest(s, index) <==> k in Cut(s, index * BATCH) || k in Rest(s, index + 1)
    ensures !(k in Cut(s, index * BATCH) && k in Rest(s, index + 1))
  {
    assert (index + 1) * BATCH == index * BATCH + BATCH;
    assert Rest(s, index) == Cut(s, index * BATCH) + Rest(s, index + 1);
  }

  lemma InOneTable(order: Order, k: Key)
    requires Tabled(order)
    ensures k in order.Keys() <==> match k.table {
              case Classes => k in order.classes
              case Notebooks => k in order.notebooks
              case Notes => k in order.notes
              case Deadlines => k in order.deadlines
            }
  {
  }

  lemma PendingSplits(order: Order, index: nat, k: Key)
    requires Tabled(order)
    ensures Pending(order, index, k) <==> k in order.Batch(index).Keys() || Pending(order, index + 1, k)
    ensures !(k in order.Batch(index).Keys() && Pending(order, index + 1, k))
  {
    BatchTabled(order, index);
    RestSplits(order.classes, index, k);
    RestSplits(order.notebooks, index, k);
    RestSplits(order.notes, index, k);
    RestSplits(order.deadlines, index, k);
    InOneTable(order.Batch(index), k);
    hide Cut;
    hide Rest;
  }

  lemma PendingEnds(order: Order, k: Key)
    requires Tabled(order)
    ensures Pending(order, 0, k) <==> k in order.Keys()
    ensures !Pending(order, order.Requests(), k)
  {
    InOneTable(order, k);
  }

  /** How many rows the first requests carry. */
  function Sent(order: Order, index: nat): nat {
    Min(index * BATCH, |order.classes|) + Min(index * BATCH, |order.notebooks|)
    + Min(index * BATCH, |order.notes|) + Min(index * BATCH, |order.deadlines|)
  }

  lemma SentGrows(order: Order, index: nat)
    ensures Sent(order, index + 1) == Sent(order, index) + |order.Batch(index).Keys()|
    ensures Sent(order, order.Requests()) == |order.Keys()|
  {
  }

  /** An endless supply of ids no note of the device has. */
  ghost predicate FreshIds(mint: nat -> Id, minted: nat, tables: Tables) {
    && (forall i: nat, j: nat :: i < j ==> mint(i) != mint(j))
    && (forall i: nat :: minted <= i ==> Key(Notes, mint(i)) !in tables)
  }

  lemma AnsweredFromStart(start: Database, cur: Database, db': Database, user: User, w: Write, outcome: Outcome)
    requires IsOutcome(cur, db', user, w, outcome) && SameRow(start, cur, w.key)
    ensures IsOutcome(start, db', user, w, outcome)
  {
  }

  // ---------- What the counts say ----------

  /** The rows that were dirty before a run and are clean now, by what the server
      made of them. */
  ghost function AcceptedRows(before: Tables, start: Database, user: User, tables: Tables): set<Key> {
    set k | k in before && before[k].dirty && k in tables && !tables[k].dirty
            && Accepts(start, user, ToWrite(k, before[k]))
  }

  ghost function ConflictedRows(before: Tables, start: Database, user: User, tables: Tables): set<Key> {
    set k | k in before && before[k].dirty && k in tables && !tables[k].dirty
            && !Accepts(start, user, ToWrite(k, before[k])) && !Refuses(start, user, ToWrite(k, before[k]))
  }

  ghost function RefusedRows(before: Tables, start: Database, user: User): set<Key> {
    set k | k in before && before[k].dirty && Refuses(start, user, ToWrite(k, before[k]))
  }

  /** The counts are exact at any point of a run, and the tables have moved if and
      only if something was accepted or conflicted. */
  ghost predicate CountsShow(before: Tables, start: Database, user: User, tables: Tables, summary: PushSummary) {
    && summary.pushed == |AcceptedRows(before, start, user, tables)|
    && summary.conflicted == |ConflictedRows(before, start, user, tables)|
    && (summary.Moved() == 0 <==> tables == before)
  }

  lemma CountsStart(before: Tables, start: Database, user: User)
    ensures CountsShow(before, start, user, before, PushSummary(0, 0, 0, 0))
  {
    hide Accepts;
    hide Refuses;
    assert AcceptedRows(before, start, user, before) == {};
    assert ConflictedRows(before, start, user, before) == {};
  }

  /** A result makes its own row clean, or leaves everything as it is. */
  lemma ResultCleans(before: Tables, tables: Tables, start: Database, db: Database, user: User, k: Key,
                     outcome: Outcome, fork: Id, marker: string)
    requires before.Keys <= tables.Keys && k in before && tables[k] == before[k] && before[k].dirty
    requires Key(Notes, fork) !in tables && IsOutcome(start, db, user, ToWrite(k, before[k]), outcome)
    ensures var after := AfterResult(tables, k, before[k], outcome, fork, marker);
            && before.Keys <= after.Keys && (forall j :: j in before && j != k ==> after[j] == tables[j])
            && (outcome.Forbidden? ==> after == tables && Refuses(start, user, ToWrite(k, before[k])))
            && (outcome.Accepted? ==> !after[k].dirty && Accepts(start, user, ToWrite(k, before[k])))
            && (outcome.Conflict? ==> !after[k].dirty && !Accepts(start, user, ToWrite(k, before[k]))
                                      && !Refuses(start, user, ToWrite(k, before[k])))
  {
  }

  /** A row that turns clean joins the rows of its outcome. */
  lemma OneTurns(before: Tables, start: Database, user: User, tables: Tables, after: Tables, k: Key)
    requires before.Keys <= tables.Keys && before.Keys <= after.Keys
    requires forall j :: j in before && j != k ==> after[j] == tables[j]
    requires k in before && before[k].dirty && tables[k].dirty && !after[k].dirty
    ensures var w := ToWrite(k, before[k]);
            && AcceptedRows(before, start, user, after)
               == AcceptedRows(before, start, user, tables) + (if Accepts(start, user, w) then {k} else {})
            && ConflictedRows(before, start, user, after)
               == ConflictedRows(before, start, user, tables)
                  + (if !Accepts(start, user, w) && !Refuses(start, user, w) then {k} else {})
    ensures k !in AcceptedRows(before, start, user, tables) && k !in ConflictedRows(before, start, user, tables)
  {
    hide Accepts;
    hide Refuses;
    hide ToWrite;
  }

  lemma ResultCounts(before: Tables, tables: Tables, start: Database, db: Database, user: User, summary: PushSummary,
                     k: Key, outcome: Outcome, fork: Id, marker: string)
    requires CountsShow(before, start, user, tables, summary)
    requires before.Keys <= tables.Keys && k in before && tables[k] == before[k] && before[k].dirty
    requires Key(Notes, fork) !in tables && IsOutcome(start, db, user, ToWrite(k, before[k]), outcome)
    ensures CountsShow(before, start, user, AfterResult(tables, k, before[k], outcome, fork, marker),
                       summary.Counting(outcome))
  {
    ResultCleans(before, tables, start, db, user, k, outcome, fork, marker);
    hide IsOutcome;
    hide AfterResult;
    if !outcome.Forbidden? {
      OneTurns(before, start, user, tables, AfterResult(tables, k, before[k], outcome, fork, marker), k);
    }
    hide Accepts;
    hide Refuses;
    hide ToWrite;
    hide AcceptedRows;
    hide ConflictedRows;
  }

  lemma CountsDespite(before: Tables, start: Database, user: User, tables: Tables, summary: PushSummary, failed: nat)
    requires CountsShow(before, start, user, tables, summary)
    ensures CountsShow(before, start, user, tables, summary.(failed := failed))
  {
  }

  /** Something was accepted or conflicted exactly when the tables moved, and then
      a row that is not another account's has turned clean. */
  lemma CountsMean(before: Tables, start: Database, user: User, tables: Tables, summary: PushSummary)
    requires CountsShow(before, start, user, tables, summary)
    ensures summary.Moved() > 0 <==> tables != before
    ensures summary.Moved() > 0 ==>
              exists k :: && k in before && before[k].dirty && k in tables && !tables[k].dirty
                          && !Refuses(start, user, ToWrite(k, before[k]))
  {
    if summary.Moved() > 0 {
      var turned := if summary.pushed > 0 then AcceptedRows(before, start, user, tables)
                    else ConflictedRows(before, start, user, tables);
      assert turned != {};
      var k :| k in turned;
      assert k in before && before[k].dirty && k in tables && !tables[k].dirty;
    }
  }

  /** A request of which nothing is accepted changes nothing. */
  lemma {:induction false} NothingAccepted(db: Database, user: User, ws: seq<Write>, now: Stamp)
    requires forall r :: r in PushedAll(db, user, ws, now).1 ==> !r.outcome.Accepted?
    ensures PushedAll(db, user, ws, now).0 == db
  {
    if ws != [] {
      var front, last := ws[..|ws| - 1], ws[|ws| - 1];
      var (mid, before) := PushedAll(db, user, front, now);
      var (db', replies) := PushedAll(db, user, ws, now);
      assert replies == before + [Reply(last.key, Upserted(mid, user, last, now).1)];
      assert replies[|replies| - 1] in replies;
      forall r | r in before
        ensures !r.outcome.Accepted?
      {
        assert r in replies;
      }
      NothingAccepted(db, user, front, now);
    }
  }

  /** During a run: sent rows are settled, the others as they were read. */
  ghost predicate Progress(before: Tables, tables: Tables, start: Database, db: Database, user: User, order: Order,
                           index: nat, k: Key, marker: string) {
    && NewIsFork(before, tables, k)
    && (k in before ==> k in tables)
    && (k in before && !before[k].dirty ==> tables[k] == before[k])
    && (k in before && before[k].dirty ==>
          if Pending(order, index, k) then tables[k] == before[k] && SameRow(start, db, k)
          else Settled(before, tables, start, db, user, k, marker))
  }

  /** While the results of one request are applied: the rows answered so far are
      settled and every other row is as it was when the request was sent. */
  ghost predicate Applying(before: Tables, sent: Tables, tables: Tables, start: Database, db: Database, user: User,
                           keys: seq<Key>, j: nat, marker: string) {
    && j <= |keys| && before.Keys <= tables.Keys
    && (forall k :: NewIsFork(before, tables, k))
    && (forall i :: 0 <= i < j ==> Settled(before, tables, start, db, user, keys[i], marker))
    && (forall k :: k in sent && k !in keys[..j] ==> k in tables && tables[k] == sent[k])
  }

  /** Rows about to be sent: as they were read, on the device and on the server. */
  ghost predicate Ready(before: Tables, tables: Tables, start: Database, db: Database, keys: seq<Key>) {
    && before.Keys <= tables.Keys && (forall k :: NewIsFork(before, tables, k))
    && (forall k :: k in keys ==>
          k in before && k in tables && tables[k] == before[k] && before[k].dirty && SameRow(start, db, k))
  }

  lemma ApplyingStarts(before: Tables, sent: Tables, start: Database, cur: Database, db: Database, user: User,
                       keys: seq<Key>, marker: string)
    requires Ready(before, sent, start, cur, keys)
    ensures Applying(before, sent, sent, start, db, user, keys, 0, marker)
    ensures forall i :: 0 <= i < |keys| ==> keys[i] in before && keys[i] in sent && sent[keys[i]] == before[keys[i]]
                                            && before[keys[i]].dirty && SameRow(start, cur, keys[i])
  {
    hide Settled;
    hide SameRow;
    hide NewIsFork;
  }

  lemma ResultKeepsRow(before: Tables, tables: Tables, k: Key, outcome: Outcome, fork: Id, marker: string, j: Key)
    requires k in before && k in tables && before.Keys <= tables.Keys
    requires Key(Notes, fork) !in tables && NewIsFork(before, tables, j)
    ensures var after := AfterResult(tables, k, before[k], outcome, fork, marker);
            && (j != k && j in tables ==> j in after && after[j] == tables[j])
            && NewIsFork(before, after, j)
            && (j in after && j !in tables ==> j == Key(Notes, fork))
            && (j in tables ==> j in after)
  {
    if j != k {
      ResultKeepsOthers(before, tables, k, before[k], outcome, fork, marker, j);
    }
  }

  lemma ApplyingStep(before: Tables, sent: Tables, tables: Tables, start: Database, db: Database, user: User,
                     keys: seq<Key>, j: nat, outcome: Outcome, fork: Id, marker: string)
    requires Applying(before, sent, tables, start, db, user, keys, j, marker) && j < |keys| && NoRepeat(keys)
    requires keys[j] in before && keys[j] in sent && sent[keys[j]] == before[keys[j]] && before[keys[j]].dirty
    requires IsOutcome(start, db, user, ToWrite(keys[j], before[keys[j]]), outcome)
    requires Key(Notes, fork) !in tables
    ensures keys[j] in tables && tables[keys[j]] == before[keys[j]]
    ensures Applying(before, sent, AfterResult(tables, keys[j], before[keys[j]], outcome, fork, marker), start, db,
                     user, keys, j + 1, marker)
    ensures forall id :: id != fork && Key(Notes, id) !in tables ==>
              Key(Notes, id) !in AfterResult(tables, keys[j], before[keys[j]], outcome, fork, marker)
  {
    hide AfterResult;
    hide Settled;
    hide NewIsFork;
    hide IsOutcome;
    hide ToWrite;
    var k := keys[j];
    var after := AfterResult(tables, k, before[k], outcome, fork, marker);
    assert k !in keys[..j];
    ResultSettles(before, tables, start, db, user, k, outcome, fork, marker);
    forall i
      ensures i != k && i in tables ==> i in after && after[i] == tables[i]
      ensures NewIsFork(before, after, i) && (i in tables ==> i in after)
      ensures i in after && i !in tables ==> i == Key(Notes, fork)
    {
      ResultKeepsRow(before, tables, k, outcome, fork, marker, i);
    }
    forall i | 0 <= i < j
      ensures Settled(before, after, start, db, user, keys[i], marker)
    {
      assert keys[i] != k;
      SettledStays(before, tables, after, start, db, db, user, keys[i], marker);
    }
    assert keys[..j + 1] == keys[..j] + [k];
  }

  lemma ApplyingKeeps(before: Tables, sent: Tables, tables: Tables, start: Database, db: Database, user: User,
                      keys: seq<Key>, j: nat, marker: string)
    requires Applying(before, sent, tables, start, db, user, keys, j, marker)
    ensures before.Keys <= tables.Keys
  {
  }

  ghost predicate InRun(before: Tables, tables: Tables, start: Database, db: Database, user: User, order: Order,
                        index: nat, marker: string) {
    ListsDirty(order, before) && forall k :: Progress(before, tables, start, db, user, order, index, k, marker)
  }

  lemma RunStarts(before: Tables, start: Database, user: User, order: Order, marker: string)
    requires ListsDirty(order, before)
    ensures InRun(before, before, start, start, user, order, 0, marker)
  {
    forall k
      ensures Progress(before, before, start, start, user, order, 0, k, marker)
    {
      PendingEnds(order, k);
      assert k in order.Keys() <==> k in DirtyKeys(before);
    }
  }

  ghost predicate OthersSame(db: Database, db': Database, keys: seq<Key>) {
    forall k :: k !in keys ==> SameRow(db, db', k)
  }

  lemma PendingIsListed(order: Order, index: nat, k: Key)
    requires Pending(order, index, k)
    ensures k in order.Keys()
  {
  }

  lemma BatchReady(before: Tables, tables: Tables, start: Database, db: Database, user: User, order: Order,
                   index: nat, marker: string)
    requires InRun(before, tables, start, db, user, order, index, marker)
    ensures Tabled(order.Batch(index)) && Fits(order.Batch(index))
    ensures Ready(before, tables, start, db, order.Batch(index).Keys())
  {
    BatchTabled(order, index);
    hide Settled;
    hide SameRow;
    forall k
      ensures NewIsFork(before, tables, k) && (k in before ==> k in tables)
    {
      assert Progress(before, tables, start, db, user, order, index, k, marker);
    }
    forall k | k in order.Batch(index).Keys()
      ensures k in before && k in tables && tables[k] == before[k] && before[k].dirty && SameRow(start, db, k)
    {
      PendingSplits(order, index, k);
      PendingIsListed(order, index, k);
      assert k in DirtyKeys(before);
      assert Progress(before, tables, start, db, user, order, index, k, marker);
    }
  }

  lemma KeepsSettled(before: Tables, tables: Tables, tables': Tables, start: Database, db: Database, db': Database,
                     user: User, batch: Order, k: Key, marker: string)
    requires Settled(before, tables, start, db, user, k, marker) && k !in batch.Keys()
    requires forall j :: j in batch.Keys() ==> j in before
    requires forall j :: j in tables && j !in batch.Keys() ==> j in tables' && tables'[j] == tables[j]
    requires forall j :: j !in batch.Keys() ==> SameRow(db, db', j)
    ensures Settled(before, tables', start, db', user, k, marker)
  {
    SettledStays(before, tables, tables', start, db, db', user, k, marker);
  }

  lemma RunAdvances(before: Tables, tables: Tables, tables': Tables, start: Database, db: Database, db': Database,
                    user: User, order: Order, index: nat, marker: string)
    requires InRun(before, tables, start, db, user, order, index, marker)
    requires var keys := order.Batch(index).Keys();
             Applying(before, tables, tables', start, db', user, keys, |keys|, marker) && OthersSame(db, db', keys)
    ensures InRun(before, tables', start, db', user, order, index + 1, marker)
  {
    ghost var keys := order.Batch(index).Keys();
    assert keys[..|keys|] == keys;
    assert forall k :: k in keys ==> Settled(before, tables', start, db', user, k, marker);
    BatchReady(before, tables, start, db, user, order, index, marker);
    var next := index + 1;
    forall k
      ensures Progress(before, tables', start, db', user, order, next, k, marker)
    {
      assert NewIsFork(before, tables', k);
      assert Progress(before, tables, start, db, user, order, index, k, marker);
      PendingSplits(order, index, k);
      if k in before && before[k].dirty && !Pending(order, index, k) {
        KeepsSettled(before, tables, tables', start, db, db', user, order.Batch(index), k, marker);
      }
      hide Settled;
    }
  }

  /** What a run leaves, at any point where it may end. */
  lemma RunEnds(before: Tables, tables: Tables, start: Database, db: Database, db': Database, user: User, order: Order,
                index: nat, marker: string, k: Key)
    requires InRun(before, tables, start, db, user, order, index, marker)
    requires !Pending(order, index, k) ==> SameRow(db, db', k)
    ensures NewIsFork(before, tables, k)
    ensures k in before && !before[k].dirty ==> k in tables && tables[k] == before[k]
    ensures k in order.Keys() ==>
              if Pending(order, index, k) then k in before && k in tables && tables[k] == before[k]
              else Settled(before, tables, start, db', user, k, marker)
  {
    assert Progress(before, tables, start, db, user, order, index, k, marker);
    assert k in order.Keys() <==> k in DirtyKeys(before);
    if k in order.Keys() && !Pending(order, index, k) {
      SettledStays(before, tables, tables, start, db, db', user, k, marker);
    }
  }

  /** However a run ends: every row it was to send is settled or as it was read,
      clean rows are untouched, and what it added are forks. */
  ghost predicate RunLeft(before: Tables, tables: Tables, start: Database, db: Database, user: User, order: Order,
                          marker: string) {
    && (forall k :: NewIsFork(before, tables, k))
    && (forall k :: k in before && !before[k].dirty ==> k in tables && tables[k] == before[k])
    && (forall k :: k in order.Keys() ==>
          || Settled(before, tables, start, db, user, k, marker)
          || (k in before && k in tables && tables[k] == before[k]))
  }

  lemma EndOfRun(before: Tables, tables: Tables, start: Database, db: Database, db': Database, user: User, order: Order,
                 index: nat, marker: string)
    requires InRun(before, tables, start, db, user, order, index, marker)
    requires forall k :: !Pending(order, index, k) ==> SameRow(db, db', k)
    ensures RunLeft(before, tables, start, db', user, order, marker)
  {
    hide Settled;
    hide Pending;
    forall k
      ensures NewIsFork(before, tables, k)
      ensures k in before && !before[k].dirty ==> k in tables && tables[k] == before[k]
      ensures k in order.Keys() ==>
                || Settled(before, tables, start, db', user, k, marker)
                || (k in before && k in tables && tables[k] == before[k])
    {
      RunEnds(before, tables, start, db, db', user, order, index, marker, k);
    }
  }

  /** A run that never began left everything as it was. */
  lemma NothingRun(tables: Tables, db: Database, user: User, order: Order, marker: string)
    requires ListsDirty(order, tables)
    ensures RunLeft(tables, tables, db, db, user, order, marker)
  {
    hide Settled;
    forall k | k in order.Keys()
      ensures k in tables
    {
      assert k in DirtyKeys(tables);
    }
  }

  /** Every row that a run was to send is settled. */
  ghost predicate AllSettled(before: Tables, tables: Tables, start: Database, db: Database, user: User, order: Order,
                             marker: string) {
    forall k :: k in order.Keys() ==> Settled(before, tables, start, db, user, k, marker)
  }

  lemma WholeRun(before: Tables, tables: Tables, start: Database, db: Database, user: User, order: Order,
                 marker: string)
    requires InRun(before, tables, start, db, user, order, order.Requests(), marker)
    ensures RunLeft(before, tables, start, db, user, order, marker)
    ensures AllSettled(before, tables, start, db, user, order, marker)
  {
    hide Settled;
    hide Pending;
    hide Order.Requests;
    EndOfRun(before, tables, start, db, db, user, order, order.Requests(), marker);
    forall k | k in order.Keys()
      ensures Settled(before, tables, start, db, user, k, marker)
    {
      PendingEnds(order, k);
      RunEnds(before, tables, start, db, db, user, order, order.Requests(), marker, k);
    }
  }

  /** A run that breaks off while the results of a request are applied leaves the
      rows applied so far settled, and those after them as they were read. */
  lemma BrokenOff(before: Tables, tables: Tables, tables': Tables, start: Database, db: Database, db': Database,
                  user: User, order: Order, index: nat, stop: nat, marker: string)
    requires InRun(before, tables, start, db, user, order, index, marker)
    requires Applying(before, tables, tables', start, db', user, order.Batch(index).Keys(), stop, marker)
    requires OthersSame(db, db', order.Batch(index).Keys())
    ensures RunLeft(before, tables', start, db', user, order, marker)
  {
    ghost var done := order.Batch(index).Keys()[..stop];
    assert forall k :: k in done ==> k in order.Batch(index).Keys();
    hide Settled;
    hide SameRow;
    hide Pending;
    BatchReady(before, tables, start, db, user, order, index, marker);
    forall k
      ensures k in before && !before[k].dirty ==> k in tables' && tables'[k] == before[k]
      ensures k in order.Keys() ==>
                || Settled(before, tables', start, db', user, k, marker)
                || (k in before && k in tables' && tables'[k] == before[k])
    {
      assert Progress(before, tables, start, db, user, order, index, k, marker);
      PendingSplits(order, index, k);
      assert k in order.Keys() <==> k in DirtyKeys(before);
      if k in order.Keys() && k !in done && !Pending(order, index, k) {
        KeepsSettled(before, tables, tables', start, db, db', user, order.Batch(index), k, marker);
      }
    }
  }

  lemma SentStarts(order: Order)
    ensures Sent(order, 0) == 0
    ensures |order.Keys()| == |order.classes| + |order.notebooks| + |order.notes| + |order.deadlines|
  {
  }

  lemma SentFits(order: Order, index: nat)
    ensures Sent(order, index) <= |order.Keys()|
    ensures index < order.Requests() ==> Sent(order, index) < |order.Keys()|
  {
    BatchesCover(order);
    if index < order.Requests() {
      assert index * BATCH <= (order.Requests() - 1) * BATCH < order.Longest();
    }
  }

  /** A request of which the server took any number of rows, without its answer
      reaching the device, changed only rows of that request. */
  lemma LostBatch(db: Database, user: User, batch: Order, tables: Tables, taken: nat, now: Stamp)
    requires Tabled(batch) && forall k :: k in batch.Keys() ==> k in tables
    requires taken <= |Writes(RequestFor(batch, tables))|
    ensures var ws := Writes(RequestFor(batch, tables));
            var db' := PushedAll(db, user, ws[..taken], now).0;
            (SeqsOk(db) ==> SeqsOk(db')) && OthersSame(db, db', batch.Keys())
  {
    hide SeqsOk;
    RequestWrites(batch, tables);
    var all := Writes(RequestFor(batch, tables));
    var ws := all[..taken];
    if SeqsOk(db) {
      PushKeepsSeqs(db, user, ws, now);
    }
    RowsAnsweredAlone(db, user, ws, now);
    hide PushedAll;
    hide IsOutcome;
    hide Writes;
    var db' := PushedAll(db, user, ws, now).0;
    forall k | k !in batch.Keys()
      ensures SameRow(db, db', k)
    {
      forall i | 0 <= i < |ws|
        ensures ws[i].key != k
      {
        assert batch.Keys()[i] in batch.Keys();
      }
    }
  }

  /** Rows already sent are not of the next request. */
  lemma SentStaySame(order: Order, index: nat, db: Database, db': Database)
    requires Tabled(order) && OthersSame(db, db', order.Batch(index).Keys())
    ensures forall k :: !Pending(order, index, k) ==> SameRow(db, db', k)
  {
    hide SameRow;
    hide Pending;
    hide Order.Keys;
    hide Order.Batch;
    forall k | !Pending(order, index, k)
      ensures SameRow(db, db', k)
    {
      PendingSplits(order, index, k);
    }
  }

  /** Rows that are as they were read are valid or not as they were. */
  lemma SameKeys(rule: Rule, before: Tables, tables: Tables, start: Database, db: Database, keys: seq<Key>)
    requires Ready(before, tables, start, db, keys)
    ensures ValidKeys(rule, before, keys) <==> ValidKeys(rule, tables, keys)
  {
    hide ValidRow;
  }

  lemma NothingLost(db: Database)
    ensures forall k :: SameRow(db, db, k)
    ensures forall keys :: OthersSame(db, db, keys)
  {
  }

  /** No request of a run is empty. */
  lemma SomethingIsSent(order: Order, index: nat)
    requires index < order.Requests()
    ensures |order.Batch(index).Keys()| > 0
  {
    SentFits(order, index);
    BatchesCover(order);
  }

  /** Every row that was dirty is another account's. */
  ghost predicate OnlyForeign(before: Tables, start: Database, user: User) {
    forall k :: k in before && before[k].dirty ==> Refuses(start, user, ToWrite(k, before[k]))
  }

  lemma RefusedIfUntouched(before: Tables, start: Database, db: Database, user: User, k: Key, marker: string)
    requires Settled(before, before, start, db, user, k, marker) && before[k].dirty
    ensures Refuses(start, user, ToWrite(k, before[k]))
  {
  }

  lemma UntouchedIsForeign(before: Tables, start: Database, db: Database, user: User, order: Order, marker: string)
    requires ListsDirty(order, before) && AllSettled(before, before, start, db, user, order, marker)
    ensures OnlyForeign(before, start, user)
  {
    hide Settled;
    hide Refuses;
    hide Order.Keys;
    hide Tabled;
    forall k | k in before && before[k].dirty
      ensures Refuses(start, user, ToWrite(k, before[k]))
    {
      assert k in DirtyKeys(before) && k in order.Keys();
      RefusedIfUntouched(before, start, db, user, k, marker);
    }
  }

  lemma {:induction false} ListedOnce(keys: seq<Key>, listed: set<Key>)
    requires NoRepeat(keys) && forall k :: k in keys <==> k in listed
    ensures |keys| == |listed|
  {
    if keys == [] {
      assert listed == {};
    } else {
      var front, last := keys[..|keys| - 1], keys[|keys| - 1];
      assert keys == front + [last];
      ListedOnce(front, listed - {last});
    }
  }

  lemma SettledTurns(before: Tables, tables: Tables, start: Database, db: Database, user: User, k: Key, marker: string)
    requires Settled(before, tables, start, db, user, k, marker) && before[k].dirty
    ensures k in tables && (tables[k].dirty ==> Refuses(start, user, ToWrite(k, before[k])))
  {
  }

  lemma ListsOnce(order: Order, before: Tables)
    requires ListsDirty(order, before)
    ensures |order.Keys()| == |DirtyKeys(before)|
    ensures forall k :: k in order.Keys() <==> k in DirtyKeys(before)
  {
    TabledKeysDiffer(order);
    ListedOnce(order.Keys(), DirtyKeys(before));
  }

  lemma ThreeKinds(before: Tables, start: Database, user: User, tables: Tables)
    requires forall k :: k in before && before[k].dirty ==>
               k in tables && (tables[k].dirty ==> Refuses(start, user, ToWrite(k, before[k])))
    ensures |DirtyKeys(before)| == |AcceptedRows(before, start, user, tables)|
                                   + |ConflictedRows(before, start, user, tables)| + |RefusedRows(before, start, user)|
  {
    var a, c := AcceptedRows(before, start, user, tables), ConflictedRows(before, start, user, tables);
    var r := RefusedRows(before, start, user);
    assert forall w :: Accepts(start, user, w) ==> !Refuses(start, user, w);
    hide Accepts;
    hide Refuses;
    hide ToWrite;
    assert a !! c && (a + c) !! r;
    assert a + c + r == DirtyKeys(before);
    hide AcceptedRows;
    hide ConflictedRows;
    hide RefusedRows;
    hide DirtyKeys;
    assert |a + c + r| == |a| + |c| + |r|;
  }

  /** After a run that got through, every dirty row is counted for what became of
      it, those of other accounts included. */
  lemma RefusedCounted(before: Tables, tables: Tables, start: Database, db: Database, user: User, order: Order,
                       marker: string, summary: PushSummary)
    requires ListsDirty(order, before) && AllSettled(before, tables, start, db, user, order, marker)
    requires CountsShow(before, start, user, tables, summary) && summary.Handled() == |order.Keys()|
    ensures summary.forbidden == |RefusedRows(before, start, user)|
  {
    ListsOnce(order, before);
    hide ListsDirty;
    hide Settled;
    hide Refuses;
    hide ToWrite;
    hide Order.Keys;
    forall k | k in before && before[k].dirty
      ensures k in tables && (tables[k].dirty ==> Refuses(start, user, ToWrite(k, before[k])))
    {
      assert k in DirtyKeys(before) && k in order.Keys();
      SettledTurns(before, tables, start, db, user, k, marker);
    }
    ThreeKinds(before, start, user, tables);
    hide AcceptedRows;
    hide ConflictedRows;
    hide RefusedRows;
  }

  lemma AllThrough(order: Order, rule: Rule, tables: Tables, net: nat -> Delivery)
    requires ThroughFirst(order, rule, tables, net, order.Requests())
    ensures GetsThrough(order, rule, tables, net)
  {
  }

  ghost predicate ResultFor(before: Tables, sent: Tables, start: Database, db: Database, user: User, k: Key, r: Reply) {
    && r.key == k && k in before && k in sent && sent[k] == before[k] && before[k].dirty
    && IsOutcome(start, db, user, ToWrite(k, before[k]), r.outcome)
  }

  /** The results of a request, each for the row at its place, which is as it was
      read. */
  ghost predicate ResultsFor(before: Tables, sent: Tables, start: Database, db: Database, user: User, keys: seq<Key>,
                             results: seq<Reply>) {
    && |results| == |keys|
    && (forall i :: 0 <= i < |keys| ==> ResultFor(before, sent, start, db, user, keys[i], results[i]))
  }

  lemma ResultsAreFor(before: Tables, sent: Tables, start: Database, cur: Database, db: Database, user: User,
                      keys: seq<Key>, ws: seq<Write>, results: seq<Reply>)
    requires Ready(before, sent, start, cur, keys) && |results| == |ws| == |keys|
    requires forall i :: 0 <= i < |keys| ==> keys[i] in sent && ws[i] == ToWrite(keys[i], sent[keys[i]])
    requires forall i :: 0 <= i < |ws| ==>
               results[i].key == ws[i].key && IsOutcome(cur, db, user, ws[i], results[i].outcome)
    ensures ResultsFor(before, sent, start, db, user, keys, results)
  {
    hide IsOutcome;
    hide SameRow;
    forall i | 0 <= i < |keys|
      ensures ResultFor(before, sent, start, db, user, keys[i], results[i])
    {
      assert keys[i] in keys;
      AnsweredFromStart(start, cur, db, user, ws[i], results[i].outcome);
    }
  }

  lemma ReadyKeys(before: Tables, tables: Tables, start: Database, db: Database, keys: seq<Key>)
    requires Ready(before, tables, start, db, keys)
    ensures forall k :: k in keys ==> k in tables
    ensures forall i :: 0 <= i < |keys| ==> keys[i] in tables && tables[keys[i]].dirty
  {
    hide SameRow;
    hide NewIsFork;
  }

  /** Rows that are not sent are not touched. */
  lemma SentAlone(db: Database, db': Database, keys: seq<Key>, ws: seq<Write>)
    requires |ws| == |keys| && forall i :: 0 <= i < |keys| ==> ws[i].key == keys[i]
    requires forall k :: (forall i :: 0 <= i < |ws| ==> ws[i].key != k) ==> SameRow(db, db', k)
    ensures OthersSame(db, db', keys)
  {
    hide SameRow;
    forall k | k !in keys
      ensures SameRow(db, db', k)
    {
      forall i | 0 <= i < |ws|
        ensures ws[i].key != k
      {
        assert keys[i] in keys;
      }
    }
  }

  lemma ListsTabled(order: Order, tables: Tables)
    requires ListsDirty(order, tables)
    ensures Tabled(order)
  {
  }

  lemma {:induction false} InSomeBatch(order: Order, k: Key, n: nat) returns (index: nat)
    requires Tabled(order) && Pending(order, 0, k) && !Pending(order, n, k)
    ensures index < n && k in order.Batch(index).Keys()
  {
    hide Pending;
    hide Tabled;
    hide Order.Keys;
    if Pending(order, n - 1, k) {
      PendingSplits(order, n - 1, k);
      index := n - 1;
    } else {
      index := InSomeBatch(order, k, n - 1);
    }
  }

  /** A dirty row that the server finds invalid stops every push, whatever the
      network does. */
  lemma InvalidRowBlocks(order: Order, rule: Rule, tables: Tables, net: nat -> Delivery, k: Key)
    requires ListsDirty(order, tables) && k in tables && tables[k].dirty
    requires !ValidRow(rule, ToWrite(k, tables[k]))
    ensures !GetsThrough(order, rule, tables, net)
  {
    assert k in DirtyKeys(tables) && k in order.Keys();
    PendingEnds(order, k);
    var index := InSomeBatch(order, k, order.Requests());
    hide ValidRow;
    hide Pending;
    assert !Through(net(index), rule, tables, order.Batch(index).Keys());
  }
}
