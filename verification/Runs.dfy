/** What a device and the server do together, as a stretch of a run of the
    protocol. Each piece of a push or a pull is a sequence of the device's own
    steps, and so is a whole cycle; what holds over all runs therefore holds of
    it, whatever came before. */
module Runs {
  import opened Common
  import opened Rows
  import opened Server
  import opened Paging
  import opened Device
  import opened Protocol
  import opened Invariant
  import opened Safety
  import opened Pushing

  /** A step of the device's own push or pull: nobody types, and no other device
      moves. */
  predicate SyncStep(step: Step, d: DeviceId) {
    match step
    case Snapshot(e, _) => e == d
    case Handle(e, _, _) => e == d
    case Apply(e, _, _, _) => e == d
    case LosePush(e) => e == d
    case Answered(e, _, _) => e == d
    case Deliver(e) => e == d
    case _ => false
  }

  ghost predicate SyncSteps(steps: seq<Step>, d: DeviceId) {
    forall i :: 0 <= i < |steps| ==> SyncStep(steps[i], d)
  }

  /** A run of the device's own steps leads from the one state to the other. */
  ghost predicate Reaches(s: State, s': State, d: DeviceId) {
    exists states: seq<State>, steps: seq<Step> ::
      Run(states, steps) && SyncSteps(steps, d) && states[0] == s && states[|states| - 1] == s'
  }

  lemma ReachesItself(s: State, d: DeviceId)
    ensures Reaches(s, s, d)
  {
    var states: seq<State>, steps: seq<Step> := [s], [];
    assert Run(states, steps) && SyncSteps(steps, d);
  }

  lemma RunLonger(states: seq<State>, steps: seq<Step>, step: Step)
    requires Run(states, steps) && Enabled(states[|states| - 1], step)
    ensures Run(states + [After(states[|states| - 1], step)], steps + [step])
  {
    hide After;
    hide Enabled;
    var states', steps' := states + [After(states[|states| - 1], step)], steps + [step];
    forall i | 0 <= i < |steps'|
      ensures Enabled(states'[i], steps'[i]) && states'[i + 1] == After(states'[i], steps'[i])
    {
      if i < |steps| {
        assert Enabled(states[i], steps[i]) && states[i + 1] == After(states[i], steps[i]);
      }
    }
  }

  lemma ReachesNext(s: State, s': State, d: DeviceId, step: Step)
    requires Reaches(s, s', d) && Enabled(s', step) && SyncStep(step, d)
    ensures Reaches(s, After(s', step), d)
  {
    hide After;
    hide Enabled;
    var states, steps :| Run(states, steps) && SyncSteps(steps, d) && states[0] == s && states[|states| - 1] == s';
    RunLonger(states, steps, step);
    hide Run;
    assert SyncSteps(steps + [step], d);
  }

  /** A run and one that begins where it ends are one run. */
  lemma {:induction false} RunsJoin(states: seq<State>, steps: seq<Step>, more: seq<State>, next: seq<Step>)
    requires Run(states, steps) && Run(more, next) && states[|states| - 1] == more[0]
    ensures Run(states + more[1..], steps + next)
    ensures (states + more[1..])[|states + more[1..]| - 1] == more[|more| - 1]
  {
    hide After;
    hide Enabled;
    var all, both := states + more[1..], steps + next;
    forall i | 0 <= i < |both|
      ensures Enabled(all[i], both[i]) && all[i + 1] == After(all[i], both[i])
    {
      if i < |steps| {
        RunStep(states, steps, i);
      } else {
        RunStep(more, next, i - |steps|);
        assert all[i] == more[i - |steps|];
      }
    }
  }

  lemma ReachesFurther(a: State, b: State, c: State, d: DeviceId)
    requires Reaches(a, b, d) && Reaches(b, c, d)
    ensures Reaches(a, c, d)
  {
    hide After;
    hide Enabled;
    var states, steps :| Run(states, steps) && SyncSteps(steps, d) && states[0] == a && states[|states| - 1] == b;
    var more, next :| Run(more, next) && SyncSteps(next, d) && more[0] == b && more[|more| - 1] == c;
    RunsJoin(states, steps, more, next);
    hide Run;
    assert SyncSteps(steps + next, d);
  }

  // ---------- A device and the server at one moment ----------

  /** The tables and cursor of a device between cycles, and the server's tables. */
  datatype Site = Site(rows: Tables, cursor: nat, db: Database)

  ghost predicate At(s: State, d: DeviceId, user: User, site: Site) {
    && s.world.user == user && s.world.db == site.db && d in s.nodes
    && Idle(s.nodes[d]) && s.nodes[d].rows == site.rows && s.nodes[d].cursor == site.cursor
  }

  /** The ids the device has yet to mint are new. */
  ghost predicate Unminted(s: State, mint: nat -> Id, minted: nat) {
    && (forall i: nat, j: nat :: i < j ==> mint(i) != mint(j))
    && (forall i: nat :: minted <= i ==> mint(i) !in s.world.minted)
  }

  ghost predicate Leads(s: State, d: DeviceId, user: User, mint: nat -> Id, b: Site, minted: nat) {
    exists s' :: Reaches(s, s', d) && At(s', d, user, b) && Unminted(s', mint, minted)
  }

  /** From any state of the protocol that shows the one, a run of the device's own
      steps leads to a state that shows the other. */
  ghost predicate Simulates(user: User, mint: nat -> Id, a: Site, minted: nat, b: Site, minted': nat) {
    forall s, d :: At(s, d, user, a) && Unminted(s, mint, minted) ==> Leads(s, d, user, mint, b, minted')
  }

  lemma SimulatesItself(user: User, mint: nat -> Id, a: Site, minted: nat)
    ensures Simulates(user, mint, a, minted, a, minted)
  {
    hide At;
    hide Unminted;
    hide Reaches;
    forall s, d | At(s, d, user, a) && Unminted(s, mint, minted)
      ensures Leads(s, d, user, mint, a, minted)
    {
      ReachesItself(s, d);
    }
  }

  lemma SimulatesFurther(user: User, mint: nat -> Id, a: Site, m: nat, b: Site, n: nat, c: Site, o: nat)
    requires Simulates(user, mint, a, m, b, n) && Simulates(user, mint, b, n, c, o)
    ensures Simulates(user, mint, a, m, c, o)
  {
    hide At;
    hide Unminted;
    hide Reaches;
    forall s, d | At(s, d, user, a) && Unminted(s, mint, m)
      ensures Leads(s, d, user, mint, c, o)
    {
      assert Leads(s, d, user, mint, b, n);
      var s' :| Reaches(s, s', d) && At(s', d, user, b) && Unminted(s', mint, n);
      assert Leads(s', d, user, mint, c, o);
      var s'' :| Reaches(s', s'', d) && At(s'', d, user, c) && Unminted(s'', mint, o);
      ReachesFurther(s, s', s'', d);
    }
  }

  /** What the invariant promises of one row at one moment, `history` holding the
      fields of every version the server has had: the row is not missed if it lies
      at or below the cursor, it shows a version of the server's if it is clean,
      and it is never ahead of the server. */
  ghost predicate RowSound(user: User, site: Site, history: map<Version, Fields>, k: Key) {
    var db, rows := site.db, site.rows;
    && (k in db.rows && db.rows[k].author == user && db.rows[k].seqNo <= site.cursor ==>
          k in rows && (rows[k].dirty || Matches(rows[k], db.rows[k])))
    && (k in rows && !rows[k].dirty ==>
          && rows[k].version > 0 && Version(k, rows[k].version) in history
          && history[Version(k, rows[k].version)] == rows[k].fields)
    && (k in rows && rows[k].version > 0 ==>
          && k in db.rows && db.rows[k].author == user && rows[k].version <= db.rows[k].version
          && (!rows[k].dirty && rows[k].version == db.rows[k].version ==> Matches(rows[k], db.rows[k])))
  }

  ghost predicate SiteSound(user: User, site: Site, history: map<Version, Fields>) {
    forall k :: RowSound(user, site, history, k)
  }

  lemma SoundRow(s: State, d: DeviceId, user: User, site: Site, k: Key)
    requires Inv(s) && At(s, d, user, site)
    ensures RowSound(user, site, s.world.history, k)
  {
    var w, n := s.world, s.nodes[d];
    assert NodeAt(s, d);
    assert KeyOk(w, n, k) && WorldRow(w, k);
    if k in n.rows {
      var v := Version(k, n.rows[k].version);
      assert SeenOk(w, n, v) && WorldVersion(w, v);
    }
  }

  lemma SoundAt(states: seq<State>, steps: seq<Step>, i: nat, d: DeviceId, user: User, site: Site)
    requires Run(states, steps) && Init(states[0]) && i < |states| && At(states[i], d, user, site)
    ensures SiteSound(user, site, states[i].world.history)
  {
    RunKeepsInv(states, steps, i);
    hide Inv;
    hide At;
    hide RowSound;
    forall k
      ensures RowSound(user, site, states[i].world.history, k)
    {
      SoundRow(states[i], d, user, site, k);
    }
  }

  /** The device's own steps type nothing over: the text of a dirty note can be
      followed through them. */
  lemma SyncKeepsText(states: seq<State>, steps: seq<Step>, i: nat, j: nat, d: DeviceId, k: Key, c: Fields)
    requires Run(states, steps) && Init(states[0]) && i <= j < |states|
    requires forall m :: i <= m < j ==> SyncStep(steps[m], d)
    requires HoldsAt(states[i], d, k, c)
    ensures Carried(states[j], d, Followed(states, steps, d, Held(k), i, j), c)
  {
    hide Init;
    forall m | i <= m < j
      ensures !TypedOver(steps[m], d, Followed(states, steps, d, Held(k), i, m), c)
    {
      assert SyncStep(steps[m], d);
    }
    NoteTextConserved(states, steps, i, j, d, k, c);
  }

  lemma SimulatedContinues(states: seq<State>, steps: seq<Step>, d: DeviceId, user: User, mint: nat -> Id, a: Site,
                           m: nat, b: Site, n: nat) returns (all: seq<State>, both: seq<Step>)
    requires Run(states, steps) && At(states[|steps|], d, user, a) && Unminted(states[|steps|], mint, m)
    requires Simulates(user, mint, a, m, b, n)
    ensures Run(all, both) && states <= all && steps <= both && SyncSteps(both[|steps|..], d)
    ensures At(all[|both|], d, user, b)
  {
    hide After;
    hide Enabled;
    hide At;
    hide Unminted;
    hide SyncSteps;
    var s := states[|steps|];
    assert Leads(s, d, user, mint, b, n);
    var s' :| Reaches(s, s', d) && At(s', d, user, b) && Unminted(s', mint, n);
    var more, next :| Run(more, next) && SyncSteps(next, d) && more[0] == s && more[|more| - 1] == s';
    RunsJoin(states, steps, more, next);
    all, both := states + more[1..], steps + next;
    assert both[|steps|..] == next;
  }

  /** What is a stretch of runs, a whole cycle say, continues any run that has come
      to where it begins, by steps of the device alone. So what holds in every
      state the protocol can reach holds where it ends; and it types nothing over:
      the text of a note that was dirty when it began can be followed to its end. */
  lemma SimulatedIsSound(states: seq<State>, steps: seq<Step>, d: DeviceId, user: User, mint: nat -> Id, a: Site,
                         m: nat, b: Site, n: nat) returns (all: seq<State>, both: seq<Step>)
    requires Run(states, steps) && Init(states[0])
    requires At(states[|steps|], d, user, a) && Unminted(states[|steps|], mint, m)
    requires Simulates(user, mint, a, m, b, n)
    ensures Run(all, both) && states <= all && steps <= both && SyncSteps(both[|steps|..], d)
    ensures At(all[|both|], d, user, b) && SiteSound(user, b, all[|both|].world.history)
    ensures forall k: Key :: k.table == Notes && k in a.rows && a.rows[k].dirty ==>
              Carried(all[|both|], d, Followed(all, both, d, Held(k), |steps|, |both|), a.rows[k].fields)
  {
    hide After;
    hide Enabled;
    hide Init;
    hide Simulates;
    hide Unminted;
    hide Inv;
    all, both := SimulatedContinues(states, steps, d, user, mint, a, m, b, n);
    SoundAt(all, both, |both|, d, user, b);
    hide SiteSound;
    assert all[|steps|] == states[|steps|];
    forall i | |steps| <= i < |both|
      ensures SyncStep(both[i], d)
    {
      assert both[i] == both[|steps|..][i - |steps|];
    }
    forall k: Key | k.table == Notes && k in a.rows && a.rows[k].dirty
      ensures Carried(all[|both|], d, Followed(all, both, d, Held(k), |steps|, |both|), a.rows[k].fields)
    {
      assert HoldsAt(all[|steps|], d, k, a.rows[k].fields);
      SyncKeepsText(all, both, |steps|, |both|, d, k, a.rows[k].fields);
    }
  }

  // ---------- Local edits ----------

  lemma CreateIsStep(s: State, d: DeviceId, user: User, mint: nat -> Id, site: Site, minted: nat, table: Table,
                     fields: Fields, at: Stamp)
    requires At(s, d, user, site) && Unminted(s, mint, minted) && Normal(table, fields)
    ensures var k := Key(table, mint(minted));
            var step := Create(d, k, fields, at);
            && Enabled(s, step) && Unminted(After(s, step), mint, minted + 1)
            && At(After(s, step), d, user, site.(rows := site.rows[k := Local(fields, 0, true, at)]))
  {
  }

  lemma EditIsStep(s: State, d: DeviceId, user: User, mint: nat -> Id, site: Site, minted: nat, k: Key,
                   fields: Fields, at: Stamp)
    requires At(s, d, user, site) && Unminted(s, mint, minted) && k in site.rows && Normal(k.table, fields)
    ensures var step := Edit(d, k, fields, at);
            && Enabled(s, step) && Unminted(After(s, step), mint, minted)
            && At(After(s, step), d, user,
                  site.(rows := site.rows[k := Local(fields, site.rows[k].version, true, at)]))
  {
  }

  // ---------- A page ----------

  lemma PageSimulates(user: User, mint: nat -> Id, site: Site, minted: nat, limit: nat, p: Page)
    requires limit >= 1 && IsPage(site.db, user, site.cursor, limit, p)
    ensures Simulates(user, mint, site, minted, Site(AfterPage(site.rows, p.rows), p.cursor, site.db), minted)
  {
    hide IsPage;
    hide AfterPage;
    var site' := Site(AfterPage(site.rows, p.rows), p.cursor, site.db);
    forall s, d | At(s, d, user, site) && Unminted(s, mint, minted)
      ensures Leads(s, d, user, mint, site', minted)
    {
      var asked, delivered := Answered(d, limit, p), Deliver(d);
      ReachesItself(s, d);
      ReachesNext(s, s, d, asked);
      ReachesNext(s, After(s, asked), d, delivered);
      assert At(After(After(s, asked), delivered), d, user, site');
      assert Unminted(After(After(s, asked), delivered), mint, minted);
      hide Reaches;
    }
  }

  // ---------- A request ----------

  /** The tables after the first j results of a request. */
  function AfterResults(sent: Tables, replies: seq<Reply>, mint: nat -> Id, minted: nat, marker: string, j: nat): Tables
    requires j <= |replies| && forall i :: 0 <= i < |replies| ==> replies[i].key in sent
  {
    if j == 0 then sent
    else
      var r := replies[j - 1];
      AfterResult(AfterResults(sent, replies, mint, minted, marker, j - 1), r.key, sent[r.key], r.outcome,
                  mint(minted + (j - 1)), marker)
  }

  ghost predicate Awaits(n: Node, sent: Tables, k: Key, outcome: Outcome) {
    k in sent && k in n.answers && n.answers[k] == Answer(sent[k], outcome)
  }

  /** In the middle of a request: the server has handled its first m rows and the
      device has applied the first j results. */
  ghost predicate MidNode(n: Node, sent: Tables, keys: seq<Key>, replies: seq<Reply>, m: nat, j: nat) {
    && n.page == None && j <= m <= |keys| == |replies|
    && (forall k :: k in n.queue <==> k in keys[m..])
    && (forall k :: k in n.queue ==> k in sent && n.queue[k] == sent[k])
    && (forall k :: k in n.answers <==> k in keys[j..m])
    && (forall i :: j <= i < m ==> Awaits(n, sent, keys[i], replies[i].outcome))
  }

  ghost predicate Mid(s: State, d: DeviceId, user: User, site: Site, sent: Tables, keys: seq<Key>, replies: seq<Reply>,
                      m: nat, j: nat) {
    && s.world.user == user && s.world.db == site.db && d in s.nodes
    && s.nodes[d].rows == site.rows && s.nodes[d].cursor == site.cursor
    && MidNode(s.nodes[d], sent, keys, replies, m, j)
  }

  lemma Splits(keys: seq<Key>, j: nat, m: nat)
    requires j <= m < |keys| && NoRepeat(keys)
    ensures forall k :: k in keys[m..] <==> k == keys[m] || k in keys[m + 1..]
    ensures forall k :: k in keys[j..m + 1] <==> k in keys[j..m] || k == keys[m]
    ensures keys[m] !in keys[m + 1..] && keys[m] !in keys[j..m]
    ensures forall i :: j <= i < m ==> keys[i] != keys[m]
  {
    assert keys[m..] == [keys[m]] + keys[m + 1..];
    assert keys[j..m + 1] == keys[j..m] + [keys[m]];
  }

  lemma SplitsFirst(keys: seq<Key>, j: nat, m: nat)
    requires j < m <= |keys| && NoRepeat(keys)
    ensures forall k :: k in keys[j..m] <==> k == keys[j] || k in keys[j + 1..m]
    ensures keys[j] !in keys[j + 1..m]
  {
    assert keys[j..m] == [keys[j]] + keys[j + 1..m];
  }

  lemma HandledParts(n: Node, k: Key, outcome: Outcome)
    requires k in n.queue
    ensures var n' := Handled(n, k, outcome);
            && n'.page == n.page && n'.rows == n.rows && n'.cursor == n.cursor
            && (forall i :: i in n'.queue <==> i in n.queue && i != k)
            && (forall i :: i in n'.queue ==> n'.queue[i] == n.queue[i])
            && (forall i :: i in n'.answers <==> i in n.answers || i == k)
            && (forall i :: i in n.answers && i != k ==> n'.answers[i] == n.answers[i])
            && n'.answers[k] == Answer(n.queue[k], outcome)
  {
  }

  lemma HandledAwaits(n: Node, sent: Tables, keys: seq<Key>, replies: seq<Reply>, m: nat, k: Key, outcome: Outcome)
    requires m < |keys| == |replies| && keys[m] == k && replies[m].outcome == outcome
    requires k in n.queue && k in sent && n.queue[k] == sent[k]
    requires forall i :: 0 <= i < m ==> keys[i] != k && Awaits(n, sent, keys[i], replies[i].outcome)
    ensures forall i :: 0 <= i < m + 1 ==> Awaits(Handled(n, k, outcome), sent, keys[i], replies[i].outcome)
  {
    HandledParts(n, k, outcome);
    hide Handled;
    var n' := Handled(n, k, outcome);
    forall i | 0 <= i < m + 1
      ensures Awaits(n', sent, keys[i], replies[i].outcome)
    {
      if i < m {
        assert Awaits(n, sent, keys[i], replies[i].outcome);
      }
    }
  }

  lemma HandledMid(n: Node, sent: Tables, keys: seq<Key>, replies: seq<Reply>, m: nat)
    requires MidNode(n, sent, keys, replies, m, 0) && m < |keys| && NoRepeat(keys)
    ensures keys[m] in n.queue && MidNode(Handled(n, keys[m], replies[m].outcome), sent, keys, replies, m + 1, 0)
  {
    hide Handled;
    hide Awaits;
    Splits(keys, 0, m);
    hide NoRepeat;
    var k, outcome := keys[m], replies[m].outcome;
    assert k in keys[m..];
    HandledParts(n, k, outcome);
    HandledAwaits(n, sent, keys, replies, m, k, outcome);
  }

  lemma AppliedMid(n: Node, sent: Tables, keys: seq<Key>, replies: seq<Reply>, m: nat, j: nat, fork: Id, marker: string)
    requires MidNode(n, sent, keys, replies, m, j) && j < m && NoRepeat(keys)
    ensures Awaits(n, sent, keys[j], replies[j].outcome)
    ensures MidNode(Applied(n, keys[j], fork, marker), sent, keys, replies, m, j + 1)
  {
    SplitsFirst(keys, j, m);
    hide AfterResult;
    hide Learned;
    var n' := Applied(n, keys[j], fork, marker);
    forall i | j + 1 <= i < m
      ensures Awaits(n', sent, keys[i], replies[i].outcome)
    {
      assert Awaits(n, sent, keys[i], replies[i].outcome);
    }
    hide NoRepeat;
  }

  lemma SnapshotStep(s: State, d: DeviceId, user: User, site: Site, keys: seq<Key>, replies: seq<Reply>)
    requires At(s, d, user, site) && |keys| == |replies|
    requires forall k :: k in keys ==> k in site.rows && site.rows[k].dirty
    ensures var step := Snapshot(d, set k | k in keys);
            Enabled(s, step) && Mid(After(s, step), d, user, site, site.rows, keys, replies, 0, 0)
            && After(s, step).world == s.world
  {
    assert keys[0..] == keys;
  }

  lemma HandleStep(s: State, d: DeviceId, user: User, site: Site, sent: Tables, keys: seq<Key>, replies: seq<Reply>,
                   m: nat, now: Stamp, db': Database)
    requires Mid(s, d, user, site, sent, keys, replies, m, 0) && m < |keys| && NoRepeat(keys)
    requires keys[m] in sent
    requires (db', replies[m].outcome) == Upserted(site.db, user, ToWrite(keys[m], sent[keys[m]]), now)
    ensures var step := Handle(d, keys[m], now);
            && Enabled(s, step) && Mid(After(s, step), d, user, site.(db := db'), sent, keys, replies, m + 1, 0)
            && After(s, step).world.minted == s.world.minted
  {
    HandledMid(s.nodes[d], sent, keys, replies, m);
    hide Upserted;
    hide Handled;
    var n := s.nodes[d];
    assert n.queue[keys[m]] == sent[keys[m]];
    hide MidNode;
    HandledParts(n, keys[m], replies[m].outcome);
  }

  lemma ApplyStep(s: State, d: DeviceId, user: User, site: Site, sent: Tables, keys: seq<Key>, replies: seq<Reply>,
                  m: nat, j: nat, fork: Id, marker: string)
    requires Mid(s, d, user, site, sent, keys, replies, m, j) && j < m && NoRepeat(keys) && fork !in s.world.minted
    requires keys[j] in sent
    ensures var step := Apply(d, keys[j], fork, marker);
            var rows' := AfterResult(site.rows, keys[j], sent[keys[j]], replies[j].outcome, fork, marker);
            && Enabled(s, step) && Mid(After(s, step), d, user, site.(rows := rows'), sent, keys, replies, m, j + 1)
            && After(s, step).world.minted == s.world.minted + {fork}
  {
    AppliedMid(s.nodes[d], sent, keys, replies, m, j, fork, marker);
    hide AfterResult;
    hide MidNode;
    hide Learned;
  }

  lemma AbandonStep(s: State, d: DeviceId, user: User, site: Site, sent: Tables, keys: seq<Key>, replies: seq<Reply>,
                    m: nat, j: nat)
    requires Mid(s, d, user, site, sent, keys, replies, m, j)
    ensures Enabled(s, LosePush(d)) && At(After(s, LosePush(d)), d, user, site)
            && After(s, LosePush(d)).world == s.world
  {
  }

  /** A request's replies do not depend on the rows after them. */
  lemma {:induction false} PrefixReplies(db: Database, user: User, ws: seq<Write>, m: nat, now: Stamp)
    requires 0 < m <= |ws|
    ensures var (mid, _) := PushedAll(db, user, ws[..m - 1], now);
            var (db', _) := PushedAll(db, user, ws[..m], now);
            && |PushedAll(db, user, ws, now).1| == |ws|
            && PushedAll(db, user, ws, now).1[m - 1].key == ws[m - 1].key
            && (db', PushedAll(db, user, ws, now).1[m - 1].outcome) == Upserted(mid, user, ws[m - 1], now)
    decreases |ws|
  {
    hide Upserted;
    if m == |ws| {
      RepliesInSeqOrder(db, user, ws, now);
      assert ws[..m] == ws;
    } else {
      var front := ws[..|ws| - 1];
      assert front[..m] == ws[..m] && front[..m - 1] == ws[..m - 1];
      PrefixReplies(db, user, front, m, now);
    }
  }

  /** The server handles the first m rows of a request. */
  lemma {:induction false} HandleRows(s0: State, s: State, d: DeviceId, user: User, site: Site, keys: seq<Key>,
                                      ws: seq<Write>, m: nat, now: Stamp) returns (s': State)
    requires var replies := PushedAll(site.db, user, ws, now).1;
             |ws| == |keys| == |replies| && Mid(s, d, user, site, site.rows, keys, replies, 0, 0)
    requires NoRepeat(keys) && m <= |keys| && Reaches(s0, s, d)
    requires forall i :: 0 <= i < |keys| ==> keys[i] in site.rows && ws[i] == ToWrite(keys[i], site.rows[keys[i]])
    ensures var (db', replies) := PushedAll(site.db, user, ws[..m], now);
            Mid(s', d, user, site.(db := db'), site.rows, keys, PushedAll(site.db, user, ws, now).1, m, 0)
    ensures Reaches(s0, s', d) && s'.world.minted == s.world.minted
    decreases m
  {
    hide Mid;
    hide Reaches;
    hide PushedAll;
    hide Upserted;
    hide ToWrite;
    hide NoRepeat;
    if m == 0 {
      NothingPushed(site.db, user, now);
      assert ws[..m] == [];
      s' := s;
      assert site.(db := site.db) == site;
    } else {
      var mid := HandleRows(s0, s, d, user, site, keys, ws, m - 1, now);
      PrefixReplies(site.db, user, ws, m, now);
      var (db, _) := PushedAll(site.db, user, ws[..m - 1], now);
      var (db', _) := PushedAll(site.db, user, ws[..m], now);
      var step := Handle(d, keys[m - 1], now);
      HandleStep(mid, d, user, site.(db := db), site.rows, keys, PushedAll(site.db, user, ws, now).1, m - 1, now, db');
      ReachesNext(s0, mid, d, step);
      s' := After(mid, step);
    }
  }

  /** The device applies the first j results of those it has. */
  lemma {:induction false} ApplyRows(s0: State, s: State, d: DeviceId, user: User, site: Site, keys: seq<Key>,
                                     replies: seq<Reply>, m: nat, j: nat, mint: nat -> Id, minted: nat, marker: string)
    returns (s': State)
    requires Mid(s, d, user, site, site.rows, keys, replies, m, 0) && j <= m <= |keys| == |replies|
    requires NoRepeat(keys) && Reaches(s0, s, d) && Unminted(s, mint, minted)
    requires forall i :: 0 <= i < |keys| ==> keys[i] in site.rows && replies[i].key == keys[i]
    ensures Mid(s', d, user, site.(rows := AfterResults(site.rows, replies, mint, minted, marker, j)), site.rows, keys,
                replies, m, j)
    ensures Reaches(s0, s', d) && Unminted(s', mint, minted + j)
    decreases j
  {
    hide Mid;
    hide Reaches;
    hide AfterResult;
    hide NoRepeat;
    if j == 0 {
      s' := s;
      assert site.(rows := site.rows) == site;
    } else {
      var mid := ApplyRows(s0, s, d, user, site, keys, replies, m, j - 1, mint, minted, marker);
      var fork, k := mint(minted + (j - 1)), keys[j - 1];
      var step := Apply(d, k, fork, marker);
      ApplyStep(mid, d, user, site.(rows := AfterResults(site.rows, replies, mint, minted, marker, j - 1)), site.rows,
                keys, replies, m, j - 1, fork, marker);
      ReachesNext(s0, mid, d, step);
      hide After;
      hide Enabled;
      s' := After(mid, step);
    }
  }

  lemma ApplyMore(s0: State, s: State, d: DeviceId, user: User, site: Site, db': Database, keys: seq<Key>,
                  replies: seq<Reply>, m: nat, j: nat, mint: nat -> Id, minted: nat, marker: string) returns (s': State)
    requires Mid(s, d, user, site.(db := db'), site.rows, keys, replies, m, 0) && j <= m <= |keys| == |replies|
    requires NoRepeat(keys) && Reaches(s0, s, d) && Unminted(s, mint, minted)
    requires forall i :: 0 <= i < |keys| ==> keys[i] in site.rows && replies[i].key == keys[i]
    ensures Mid(s', d, user, Site(AfterResults(site.rows, replies, mint, minted, marker, j), site.cursor, db'),
                site.rows, keys, replies, m, j)
    ensures Reaches(s0, s', d) && Unminted(s', mint, minted + j)
  {
    hide Mid;
    hide Reaches;
    hide AfterResults;
    s' := ApplyRows(s0, s, d, user, site.(db := db'), keys, replies, m, j, mint, minted, marker);
  }

  lemma RequestLeads(s: State, d: DeviceId, user: User, mint: nat -> Id, site: Site, minted: nat, keys: seq<Key>,
                     ws: seq<Write>, replies: seq<Reply>, m: nat, j: nat, marker: string, now: Stamp)
    requires At(s, d, user, site) && Unminted(s, mint, minted)
    requires NoRepeat(keys) && |ws| == |keys| == |replies| && j <= m <= |keys|
    requires replies == PushedAll(site.db, user, ws, now).1
    requires forall i :: 0 <= i < |keys| ==>
               keys[i] in site.rows && site.rows[keys[i]].dirty && ws[i] == ToWrite(keys[i], site.rows[keys[i]])
    requires forall i :: 0 <= i < |replies| ==> replies[i].key == keys[i]
    ensures Leads(s, d, user, mint, Site(AfterResults(site.rows, replies, mint, minted, marker, j), site.cursor,
                                         PushedAll(site.db, user, ws[..m], now).0), minted + j)
  {
    hide PushedAll;
    hide NoRepeat;
    hide AfterResults;
    hide At;
    hide Mid;
    hide Reaches;
    hide After;
    hide Enabled;
    hide ToWrite;
    var db' := PushedAll(site.db, user, ws[..m], now).0;
    var site' := Site(AfterResults(site.rows, replies, mint, minted, marker, j), site.cursor, db');
    var read := Snapshot(d, set k | k in keys);
    assert forall k :: k in keys ==> k in site.rows && site.rows[k].dirty;
    SnapshotStep(s, d, user, site, keys, replies);
    ReachesItself(s, d);
    ReachesNext(s, s, d, read);
    var handled := HandleRows(s, After(s, read), d, user, site, keys, ws, m, now);
    var applied := ApplyMore(s, handled, d, user, site, db', keys, replies, m, j, mint, minted, marker);
    AbandonStep(applied, d, user, site', site.rows, keys, replies, m, j);
    ReachesNext(s, applied, d, LosePush(d));
  }

  /** A request of which the server handles the first m rows and the device
      applies the first j results, whether or not that is all of them. */
  lemma RequestSimulates(user: User, mint: nat -> Id, site: Site, minted: nat, keys: seq<Key>, ws: seq<Write>, m: nat,
                         j: nat, marker: string, now: Stamp)
    requires NoRepeat(keys) && |ws| == |keys| && j <= m <= |keys|
    requires forall i :: 0 <= i < |keys| ==>
               keys[i] in site.rows && site.rows[keys[i]].dirty && ws[i] == ToWrite(keys[i], site.rows[keys[i]])
    ensures var replies := PushedAll(site.db, user, ws, now).1;
            && |replies| == |ws| && (forall i :: 0 <= i < |replies| ==> replies[i].key == keys[i])
            && Simulates(user, mint, site, minted,
                         Site(AfterResults(site.rows, replies, mint, minted, marker, j), site.cursor,
                              PushedAll(site.db, user, ws[..m], now).0), minted + j)
  {
    hide PushedAll;
    hide NoRepeat;
    RepliesInSeqOrder(site.db, user, ws, now);
    var replies := PushedAll(site.db, user, ws, now).1;
    assert forall i :: 0 <= i < |replies| ==> replies[i].key == ws[i].key == keys[i];
    var site' := Site(AfterResults(site.rows, replies, mint, minted, marker, j), site.cursor,
                      PushedAll(site.db, user, ws[..m], now).0);
    hide AfterResults;
    hide At;
    hide Unminted;
    hide Leads;
    forall s, d | At(s, d, user, site) && Unminted(s, mint, minted)
      ensures Leads(s, d, user, mint, site', minted + j)
    {
      RequestLeads(s, d, user, mint, site, minted, keys, ws, replies, m, j, marker, now);
    }
  }

  lemma OneMoreResult(sent: Tables, replies: seq<Reply>, mint: nat -> Id, minted: nat, marker: string, j: nat)
    requires j < |replies| && forall i :: 0 <= i < |replies| ==> replies[i].key in sent
    ensures AfterResults(sent, replies, mint, minted, marker, j + 1)
            == AfterResult(AfterResults(sent, replies, mint, minted, marker, j), replies[j].key, sent[replies[j].key],
                           replies[j].outcome, mint(minted + j), marker)
  {
  }

  lemma NoResults(sent: Tables, replies: seq<Reply>, mint: nat -> Id, minted: nat, marker: string)
    requires forall i :: 0 <= i < |replies| ==> replies[i].key in sent
    ensures AfterResults(sent, replies, mint, minted, marker, 0) == sent
  {
  }

  /** A request that the server handles to the end, of which the device applies
      the first j results. */
  lemma StoppedSimulates(user: User, mint: nat -> Id, site: Site, minted: nat, keys: seq<Key>, ws: seq<Write>, j: nat,
                         marker: string, now: Stamp)
    requires NoRepeat(keys) && |ws| == |keys| && j <= |keys|
    requires forall i :: 0 <= i < |keys| ==>
               keys[i] in site.rows && site.rows[keys[i]].dirty && ws[i] == ToWrite(keys[i], site.rows[keys[i]])
    ensures var (db', replies) := PushedAll(site.db, user, ws, now);
            && |replies| == |ws| && (forall i :: 0 <= i < |replies| ==> replies[i].key in site.rows)
            && Simulates(user, mint, site, minted,
                         Site(AfterResults(site.rows, replies, mint, minted, marker, j), site.cursor, db'), minted + j)
  {
    RequestSimulates(user, mint, site, minted, keys, ws, |keys|, j, marker, now);
    assert ws[..|keys|] == ws;
    hide Simulates;
  }

  /** A request of which the server handles the first m rows and the device none. */
  lemma LostSimulates(user: User, mint: nat -> Id, site: Site, minted: nat, keys: seq<Key>, ws: seq<Write>, m: nat,
                      now: Stamp)
    requires NoRepeat(keys) && |ws| == |keys| && m <= |keys|
    requires forall i :: 0 <= i < |keys| ==>
               keys[i] in site.rows && site.rows[keys[i]].dirty && ws[i] == ToWrite(keys[i], site.rows[keys[i]])
    ensures Simulates(user, mint, site, minted, site.(db := PushedAll(site.db, user, ws[..m], now).0), minted)
  {
    RequestSimulates(user, mint, site, minted, keys, ws, m, 0, "", now);
    hide Simulates;
  }
}
