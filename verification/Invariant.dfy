/** What holds in every reachable state of the protocol, stated row by row, and why
    each step keeps it. */
module Invariant {
  import opened Common
  import opened Rows
  import opened Server
  import opened Paging
  import opened Device
  import opened Protocol

  // ---------- The server's side ----------

  ghost predicate WorldRow(w: World, k: Key) {
    Mine(w, k) ==>
      && k.id in w.minted && Normal(k.table, w.db.rows[k].fields)
      && Version(k, w.db.rows[k].version) in w.history
      && w.history[Version(k, w.db.rows[k].version)] == w.db.rows[k].fields
      && 1 <= w.db.rows[k].version && 1 <= w.db.rows[k].seqNo <= w.db.Last(w.user)
  }

  ghost predicate WorldVersion(w: World, v: Version) {
    v in w.history ==> Mine(w, v.key) && 1 <= v.number <= w.db.rows[v.key].version
  }

  ghost predicate WorldOk(w: World) {
    && SeqsOk(w.db)
    && (forall k :: WorldRow(w, k))
    && (forall v :: WorldVersion(w, v))
  }

  /** A row the server once answered with: it still holds it, or holds a later
      version of it whose seq lies above the bound. */
  ghost predicate Received(w: World, k: Key, r: Row, bound: nat) {
    && Mine(w, k) && r.author == w.user && 1 <= r.version && Normal(k.table, r.fields)
    && Version(k, r.version) in w.history && w.history[Version(k, r.version)] == r.fields
    && (r == w.db.rows[k] || (r.version < w.db.rows[k].version && bound < w.db.rows[k].seqNo))
  }

  // ---------- A device's side ----------

  /** A clean row shows the fields of the version it names. */
  ghost predicate RowOk(w: World, n: Node, k: Key) {
    k in n.rows ==>
      var row := n.rows[k];
      && k.id in w.minted
      && Normal(k.table, row.fields)
      && (1 <= row.version ==> Version(k, row.version) in n.seen)
      && (!row.dirty ==> 1 <= row.version && Version(k, row.version) in n.seen
                         && n.seen[Version(k, row.version)] == row.fields)
  }

  /** The row is dirty while its copy is under way, and shows another stamp as
      soon as it shows other fields. */
  ghost predicate InFlight(row: Local, sent: Local) {
    row.dirty && row.version == sent.version && (row.updated == sent.updated ==> row.fields == sent.fields)
  }

  ghost predicate QueueOk(n: Node, k: Key) {
    k in n.queue ==> k in n.rows && k !in n.answers && InFlight(n.rows[k], n.queue[k])
                     && Normal(k.table, n.queue[k].fields)
  }

  ghost predicate OutcomeOk(w: World, k: Key, a: Answer, cursor: nat) {
    match a.outcome
    case Accepted(r) =>
      Received(w, k, r, cursor) && r.fields == a.sent.fields && a.sent.version < r.version && cursor < r.seqNo
    case Conflict(r) =>
      Received(w, k, r, cursor) && a.sent.version < r.version
    case Forbidden =>
      k in w.db.rows && w.db.rows[k].author != w.user
  }

  ghost predicate AnswerOk(w: World, n: Node, k: Key) {
    k in n.answers ==>
      k in n.rows && InFlight(n.rows[k], n.answers[k].sent) && OutcomeOk(w, k, n.answers[k], n.cursor)
  }

  ghost predicate PageRowOk(w: World, n: Node, k: Key) {
    n.page.Some? ==>
      var p := n.page.value;
      && (k in p.rows ==> Received(w, k, p.rows[k], p.cursor) && n.cursor < p.rows[k].seqNo <= p.cursor
                          && (k in n.rows ==> n.rows[k].version <= p.rows[k].version))
      && (Mine(w, k) && n.cursor < w.db.rows[k].seqNo <= p.cursor ==> k in p.rows && p.rows[k] == w.db.rows[k])
  }

  /** Cursor soundness for one row: what lies at or below the cursor is held,
      dirty or exactly as the server has it. */
  ghost predicate Covered(w: World, n: Node, k: Key) {
    Mine(w, k) && w.db.rows[k].seqNo <= n.cursor ==>
      && k in n.rows
      && (n.rows[k].dirty || (n.rows[k].version == w.db.rows[k].version && n.rows[k].fields == w.db.rows[k].fields))
  }

  ghost predicate SeenOk(w: World, n: Node, v: Version) {
    v in n.seen ==> v in w.history && w.history[v] == n.seen[v]
  }

  ghost predicate KeyOk(w: World, n: Node, k: Key) {
    RowOk(w, n, k) && QueueOk(n, k) && AnswerOk(w, n, k) && PageRowOk(w, n, k) && Covered(w, n, k)
  }

  ghost predicate CursorsOk(w: World, n: Node) {
    && n.cursor <= w.db.Last(w.user)
    && (n.page.Some? ==> n.cursor <= n.page.value.cursor <= w.db.Last(w.user)
                         && n.queue == map[] && n.answers == map[])
  }

  ghost predicate NodeOk(w: World, n: Node) {
    && CursorsOk(w, n)
    && (forall k :: KeyOk(w, n, k))
    && (forall v :: SeenOk(w, n, v))
  }

  // ---------- The whole state ----------

  ghost predicate StrayOk(s: State, x: Stray) {
    x in s.network ==>
      && x.device in s.nodes
      && x.write.key in s.nodes[x.device].rows
      && Normal(x.write.key.table, x.write.fields)
      && (1 <= x.write.version ==> Version(x.write.key, x.write.version) in s.nodes[x.device].seen)
  }

  /** A row the server does not have is on one device at most. */
  ghost predicate Private(s: State, k: Key) {
    forall d, e :: d in s.nodes && e in s.nodes && k in s.nodes[d].rows && k in s.nodes[e].rows && d != e
      ==> Mine(s.world, k)
  }

  ghost predicate NodeAt(s: State, d: DeviceId) {
    d in s.nodes ==> NodeOk(s.world, s.nodes[d])
  }

  ghost predicate Inv(s: State) {
    && WorldOk(s.world)
    && (forall d :: NodeAt(s, d))
    && (forall x :: StrayOk(s, x))
    && (forall k :: Private(s, k))
  }

  lemma InitInv(s: State)
    requires Init(s)
    ensures Inv(s)
  {
    forall d
      ensures NodeAt(s, d)
    {
    }
  }

  // ---------- A write of the user's reaches the server ----------

  /** What the invariant says of a write under way. */
  ghost predicate Sendable(w: World, x: Write) {
    && x.key.id in w.minted && Normal(x.key.table, x.fields)
    && (1 <= x.version ==> Version(x.key, x.version) in w.history)
  }

  ghost predicate Renewed(w: World, w': World, k: Key)
    requires Mine(w, k) && Mine(w', k)
  {
    w.db.rows[k].version < w'.db.rows[k].version && w.db.Last(w.user) < w'.db.rows[k].seqNo
  }

  ghost predicate LaterRow(w: World, w': World, k: Key) {
    && (Mine(w, k) ==> Mine(w', k) && (w'.db.rows[k] == w.db.rows[k] || Renewed(w, w', k)))
    && (!Mine(w, k) && Mine(w', k) ==> w.db.Last(w.user) < w'.db.rows[k].seqNo)
    && (k in w.db.rows && !Mine(w, k) ==> k in w'.db.rows && !Mine(w', k))
  }

  /** The server's side only moves forward. */
  ghost predicate Later(w: World, w': World) {
    && w'.user == w.user && w.minted <= w'.minted
    && w.db.Last(w.user) <= w'.db.Last(w.user)
    && (forall k :: LaterRow(w, w', k))
    && (forall v :: v in w.history ==> v in w'.history && w'.history[v] == w.history[v])
  }

  lemma SubmitLater(w: World, x: Write, now: Stamp)
    requires WorldOk(w)
    ensures Later(w, Submit(w, x, now).0)
  {
    var w' := Submit(w, x, now).0;
    assert WorldVersion(w, Version(x.key, if x.key in w.db.rows then w.db.rows[x.key].version + 1 else 1));
    forall k
      ensures LaterRow(w, w', k)
    {
    }
  }

  lemma SubmitKeepsRow(w: World, x: Write, now: Stamp, k: Key)
    requires WorldRow(w, k) && Sendable(w, x)
    ensures WorldRow(Submit(w, x, now).0, k)
  {
  }

  lemma SubmitKeepsVersion(w: World, x: Write, now: Stamp, v: Version)
    requires WorldVersion(w, v)
    ensures WorldVersion(Submit(w, x, now).0, v)
  {
  }

  lemma SubmitKeepsWorld(w: World, x: Write, now: Stamp)
    requires WorldOk(w) && Sendable(w, x)
    ensures WorldOk(Submit(w, x, now).0)
  {
    UpsertKeepsSeqs(w.db, w.user, x, now);
    forall k
      ensures WorldRow(Submit(w, x, now).0, k)
    {
      SubmitKeepsRow(w, x, now, k);
    }
    forall v
      ensures WorldVersion(Submit(w, x, now).0, v)
    {
      SubmitKeepsVersion(w, x, now, v);
    }
    hide SeqsOk;
    hide WorldRow;
    hide WorldVersion;
  }

  lemma LaterKeepsReceived(w: World, w': World, k: Key, r: Row, bound: nat)
    requires Received(w, k, r, bound) && Later(w, w') && bound <= w.db.Last(w.user)
    ensures Received(w', k, r, bound)
  {
    assert LaterRow(w, w', k);
  }

  lemma LaterKeepsKey(w: World, w': World, n: Node, k: Key)
    requires KeyOk(w, n, k) && CursorsOk(w, n) && Later(w, w')
    ensures KeyOk(w', n, k)
  {
    assert LaterRow(w, w', k);
    if k in n.answers {
      match n.answers[k].outcome
      case Accepted(r) => LaterKeepsReceived(w, w', k, r, n.cursor);
      case Conflict(r) => LaterKeepsReceived(w, w', k, r, n.cursor);
      case Forbidden =>
    }
    if n.page.Some? && k in n.page.value.rows {
      LaterKeepsReceived(w, w', k, n.page.value.rows[k], n.page.value.cursor);
    }
  }

  /** Whatever the server did meanwhile, a device keeps what it knew. */
  lemma LaterKeepsNode(w: World, w': World, n: Node)
    requires NodeOk(w, n) && Later(w, w')
    ensures NodeOk(w', n)
  {
    forall k
      ensures KeyOk(w', n, k)
    {
      assert KeyOk(w, n, k) && LaterRow(w, w', k);
      LaterKeepsKey(w, w', n, k);
    }
    forall v
      ensures SeenOk(w', n, v)
    {
      assert SeenOk(w, n, v);
    }
  }

  lemma MintLater(w: World, ids: set<Id>)
    requires WorldOk(w)
    ensures WorldOk(w.(minted := w.minted + ids)) && Later(w, w.(minted := w.minted + ids))
  {
    var w' := w.(minted := w.minted + ids);
    forall k
      ensures WorldRow(w', k)
    {
      assert WorldRow(w, k);
    }
    forall v
      ensures WorldVersion(w', v)
    {
      assert WorldVersion(w, v);
    }
    forall k
      ensures LaterRow(w, w', k)
    {
    }
  }

  lemma ForeignKeepsRow(w: World, other: User, x: Write, now: Stamp, k: Key)
    requires WorldRow(w, k) && other != w.user
    ensures var w' := w.(db := Upserted(w.db, other, x, now).0);
            WorldRow(w', k) && LaterRow(w, w', k) && (Mine(w', k) <==> Mine(w, k))
            && (Mine(w, k) ==> w'.db.rows[k] == w.db.rows[k])
  {
  }

  /** Another user's push touches nothing of this user's. */
  lemma ForeignLater(w: World, other: User, x: Write, now: Stamp)
    requires WorldOk(w) && other != w.user
    ensures var w' := w.(db := Upserted(w.db, other, x, now).0);
            WorldOk(w') && Later(w, w')
  {
    hide SeqsOk;
    hide WorldRow;
    hide LaterRow;
    var w' := w.(db := Upserted(w.db, other, x, now).0);
    UpsertKeepsSeqs(w.db, other, x, now);
    forall k
      ensures WorldRow(w', k) && LaterRow(w, w', k)
    {
      ForeignKeepsRow(w, other, x, now, k);
    }
    forall v
      ensures WorldVersion(w', v)
    {
      assert WorldVersion(w, v);
      ForeignKeepsRow(w, other, x, now, v.key);
    }
    hide WorldVersion;
  }

  // ---------- A device's own steps ----------

  lemma CreateKeepsNode(w: World, n: Node, k: Key, fields: Fields, at: Stamp)
    requires WorldOk(w) && NodeOk(w, n)
    requires k.id !in w.minted && Normal(k.table, fields)
    ensures NodeOk(w.(minted := w.minted + {k.id}), Created(n, k, fields, at))
  {
    var w', n' := w.(minted := w.minted + {k.id}), Created(n, k, fields, at);
    forall j
      ensures KeyOk(w', n', j)
    {
      assert KeyOk(w, n, j) && WorldRow(w, j);
    }
    forall v
      ensures SeenOk(w', n', v)
    {
      assert SeenOk(w, n, v);
    }
  }

  lemma EditKeepsNode(w: World, n: Node, k: Key, fields: Fields, at: Stamp)
    requires NodeOk(w, n)
    requires k in n.rows && Normal(k.table, fields) && FreshStamp(n, k, at)
    ensures NodeOk(w, Edited(n, k, fields, at))
  {
    var n' := Edited(n, k, fields, at);
    forall j
      ensures KeyOk(w, n', j)
    {
      assert KeyOk(w, n, j);
    }
    forall v
      ensures SeenOk(w, n', v)
    {
      assert SeenOk(w, n, v);
    }
  }

  lemma SnapshotKeepsNode(w: World, n: Node, keys: set<Key>)
    requires NodeOk(w, n)
    requires n.page == None && keys <= DirtyKeys(n.rows) && keys !! n.answers.Keys
    ensures NodeOk(w, Queued(n, keys))
  {
    var n' := Queued(n, keys);
    forall j
      ensures KeyOk(w, n', j)
    {
      assert KeyOk(w, n, j);
    }
    forall v
      ensures SeenOk(w, n', v)
    {
      assert SeenOk(w, n, v);
    }
  }

  lemma AbandonKeepsNode(w: World, n: Node)
    requires NodeOk(w, n)
    ensures NodeOk(w, Abandoned(n)) && NodeOk(w, n.(page := None))
  {
    forall j
      ensures KeyOk(w, Abandoned(n), j) && KeyOk(w, n.(page := None), j)
    {
      assert KeyOk(w, n, j);
    }
    forall v
      ensures SeenOk(w, Abandoned(n), v) && SeenOk(w, n.(page := None), v)
    {
      assert SeenOk(w, n, v);
    }
  }

  /** Every row under way may be sent. */
  lemma QueuedIsSendable(w: World, n: Node, k: Key)
    requires NodeOk(w, n) && k in n.queue
    ensures Sendable(w, ToWrite(k, n.queue[k]))
  {
    assert KeyOk(w, n, k);
    assert SeenOk(w, n, Version(k, n.queue[k].version));
  }

  /** The answer to a row under way says what the device will rely on. */
  lemma SubmitAnswers(w: World, n: Node, k: Key, now: Stamp)
    requires WorldOk(w) && NodeOk(w, n) && k in n.queue
    ensures var (w', outcome) := Submit(w, ToWrite(k, n.queue[k]), now);
            OutcomeOk(w', k, Answer(n.queue[k], outcome), n.cursor)
  {
    var sent := n.queue[k];
    QueuedIsSendable(w, n, k);
    assert KeyOk(w, n, k) && WorldRow(w, k);
    assert WorldVersion(w, Version(k, sent.version));
  }

  lemma HandleKeepsNode(w: World, w': World, n: Node, k: Key, outcome: Outcome)
    requires NodeOk(w', n) && k in n.queue
    requires OutcomeOk(w', k, Answer(n.queue[k], outcome), n.cursor)
    ensures NodeOk(w', Handled(n, k, outcome))
  {
    var n' := Handled(n, k, outcome);
    forall j
      ensures KeyOk(w', n', j)
    {
      assert KeyOk(w', n, j);
    }
    forall v
      ensures SeenOk(w', n', v)
    {
      assert SeenOk(w', n, v);
    }
  }

  lemma AskKeepsNode(w: World, n: Node, limit: nat, p: Page)
    requires WorldOk(w) && NodeOk(w, n) && Idle(n)
    requires IsPage(w.db, w.user, n.cursor, limit, p)
    ensures NodeOk(w, n.(page := Some(p)))
  {
    var n' := n.(page := Some(p));
    PageShrinksRest(w.db, w.user, n.cursor, limit, p);
    if p.rows != map[] {
      var top :| top in p.rows && p.rows[top].seqNo == p.cursor;
      assert WorldRow(w, top);
    }
    forall j
      ensures KeyOk(w, n', j)
    {
      assert KeyOk(w, n, j) && WorldRow(w, j);
      if j in n.rows && 1 <= n.rows[j].version {
        assert SeenOk(w, n, Version(j, n.rows[j].version));
        assert WorldVersion(w, Version(j, n.rows[j].version));
      }
    }
    forall v
      ensures SeenOk(w, n', v)
    {
      assert SeenOk(w, n, v);
    }
  }

  lemma DeliverKeepsKey(w: World, n: Node, k: Key)
    requires KeyOk(w, n, k) && WorldRow(w, k) && CursorsOk(w, n) && n.page.Some?
    requires forall v :: SeenOk(w, n, v)
    ensures KeyOk(w, Delivered(n), k)
  {
    var p := n.page.value;
    if k in p.rows {
      assert Version(k, p.rows[k].version) in Versions(p);
    }
  }

  lemma DeliverKeepsNode(w: World, n: Node)
    requires WorldOk(w) && NodeOk(w, n) && n.page.Some?
    ensures NodeOk(w, Delivered(n))
  {
    var n', p := Delivered(n), n.page.value;
    forall v
      ensures SeenOk(w, n', v)
    {
      assert SeenOk(w, n, v) && KeyOk(w, n, v.key);
    }
    forall j
      ensures KeyOk(w, n', j)
    {
      assert KeyOk(w, n, j) && WorldRow(w, j);
      DeliverKeepsKey(w, n, j);
    }
  }

  lemma FreshForkIsUnknown(w: World, n: Node, fork: Id, j: Key)
    requires WorldRow(w, j) && KeyOk(w, n, j) && fork !in w.minted
    ensures j == Key(Notes, fork) ==> j !in n.rows && j !in n.queue && j !in n.answers && !Mine(w, j)
  {
  }

  lemma ApplyKeepsKey(w: World, n: Node, k: Key, fork: Id, marker: string, j: Key)
    requires KeyOk(w, n, k) && KeyOk(w, n, j) && WorldRow(w, j) && CursorsOk(w, n)
    requires k in n.answers && fork !in w.minted
    ensures KeyOk(w.(minted := w.minted + {fork}), Applied(n, k, fork, marker), j)
  {
    FreshForkIsUnknown(w, n, fork, j);
  }

  lemma ApplyKeepsNode(w: World, n: Node, k: Key, fork: Id, marker: string)
    requires WorldOk(w) && NodeOk(w, n)
    requires k in n.answers && fork !in w.minted
    ensures NodeOk(w.(minted := w.minted + {fork}), Applied(n, k, fork, marker))
  {
    var w', n' := w.(minted := w.minted + {fork}), Applied(n, k, fork, marker);
    assert KeyOk(w, n, k);
    forall v
      ensures SeenOk(w', n', v)
    {
      assert SeenOk(w, n, v);
    }
    forall j
      ensures KeyOk(w', n', j)
    {
      assert KeyOk(w, n, j) && WorldRow(w, j);
      ApplyKeepsKey(w, n, k, fork, marker, j);
    }
  }

  // ---------- Whole states ----------

  /** What a step may do to its device beyond the device's own invariant: it
      forgets nothing, and a row it gains is new to everybody or the server's. */
  ghost predicate NodeGrew(w: World, w': World, n: Node, n': Node) {
    && n.rows.Keys <= n'.rows.Keys && n.seen.Keys <= n'.seen.Keys
    && (forall k :: k in n'.rows && k !in n.rows ==> Mine(w', k) || k.id !in w.minted)
  }

  ghost predicate NewStray(s: State, s': State, d: DeviceId, x: Stray) {
    x in s'.network && x !in s.network ==>
      x.device == d && d in s.nodes && x.write.key in s.nodes[d].queue
      && x.write == ToWrite(x.write.key, s.nodes[d].queue[x.write.key])
  }

  lemma KeepsStray(s: State, s': State, d: DeviceId, n': Node, x: Stray)
    requires d in s.nodes && s'.nodes == s.nodes[d := n'] && NodeOk(s.world, s.nodes[d])
    requires NodeGrew(s.world, s'.world, s.nodes[d], n')
    requires NewStray(s, s', d, x) && StrayOk(s, x)
    ensures StrayOk(s', x)
  {
    if x in s'.network && x !in s.network {
      assert KeyOk(s.world, s.nodes[d], x.write.key);
    }
  }

  lemma KeepsPrivate(s: State, s': State, d: DeviceId, n': Node, k: Key)
    requires d in s.nodes && s'.nodes == s.nodes[d := n'] && Private(s, k) && LaterRow(s.world, s'.world, k)
    requires NodeGrew(s.world, s'.world, s.nodes[d], n')
    requires forall e :: e in s.nodes && k in s.nodes[e].rows ==> k.id in s.world.minted
    ensures Private(s', k)
  {
  }

  lemma DeviceStepKeepsInv(s: State, s': State, d: DeviceId, n': Node)
    requires Inv(s) && d in s.nodes && s'.nodes == s.nodes[d := n']
    requires WorldOk(s'.world) && Later(s.world, s'.world) && NodeOk(s'.world, n')
    requires NodeGrew(s.world, s'.world, s.nodes[d], n')
    requires forall x :: NewStray(s, s', d, x)
    ensures Inv(s')
  {
    forall e
      ensures NodeAt(s', e)
    {
      assert NodeAt(s, e);
      if e in s.nodes && e != d {
        LaterKeepsNode(s.world, s'.world, s.nodes[e]);
      }
    }
    forall x
      ensures StrayOk(s', x)
    {
      assert NodeAt(s, d) && StrayOk(s, x) && NewStray(s, s', d, x);
      KeepsStray(s, s', d, n', x);
    }
    forall k
      ensures Private(s', k)
    {
      assert Private(s, k) && LaterRow(s.world, s'.world, k);
      forall e | e in s.nodes && k in s.nodes[e].rows
        ensures k.id in s.world.minted
      {
        assert NodeAt(s, e) && KeyOk(s.world, s.nodes[e], k);
      }
      KeepsPrivate(s, s', d, n', k);
    }
  }

  /** A step of the server alone. */
  lemma WorldStepKeepsInv(s: State, w': World)
    requires Inv(s) && WorldOk(w') && Later(s.world, w')
    ensures Inv(s.(world := w'))
  {
    var s' := s.(world := w');
    forall e
      ensures NodeAt(s', e)
    {
      assert NodeAt(s, e);
      if e in s.nodes {
        LaterKeepsNode(s.world, w', s.nodes[e]);
      }
    }
    forall x
      ensures StrayOk(s', x)
    {
      assert StrayOk(s, x);
    }
    forall k
      ensures Private(s', k)
    {
      assert Private(s, k) && LaterRow(s.world, w', k);
    }
  }

  lemma SameWorldLater(w: World)
    ensures Later(w, w)
  {
    forall k
      ensures LaterRow(w, w, k)
    {
    }
  }

  lemma StrayIsSendable(s: State, x: Stray)
    requires Inv(s) && x in s.network
    ensures Sendable(s.world, x.write)
  {
    assert StrayOk(s, x);
    var n := s.nodes[x.device];
    assert NodeAt(s, x.device);
    assert KeyOk(s.world, n, x.write.key) && SeenOk(s.world, n, Version(x.write.key, x.write.version));
  }

  lemma CreateKeepsInv(s: State, step: Step)
    requires Inv(s) && Enabled(s, step) && step.Create?
    ensures Inv(After(s, step))
  {
    var n := s.nodes[step.d];
    assert NodeAt(s, step.d);
    CreateKeepsNode(s.world, n, step.k, step.fields, step.at);
    MintLater(s.world, {step.k.id});
    DeviceStepKeepsInv(s, After(s, step), step.d, Created(n, step.k, step.fields, step.at));
  }

  lemma LocalStepKeepsNode(s: State, step: Step)
    requires Inv(s) && Enabled(s, step)
    requires step.Edit? || step.Snapshot? || step.LosePush? || step.Answered? || step.LosePage?
    ensures NodeOk(s.world, After(s, step).nodes[step.d])
  {
    var n := s.nodes[step.d];
    assert NodeAt(s, step.d);
    hide NodeOk;
    AbandonKeepsNode(s.world, n);
    match step {
      case Edit(d, k, fields, at) => EditKeepsNode(s.world, n, k, fields, at);
      case Snapshot(d, keys) => SnapshotKeepsNode(s.world, n, keys);
      case Answered(d, limit, p) => AskKeepsNode(s.world, n, limit, p);
      case _ =>
    }
  }

  lemma LocalStepKeepsInv(s: State, step: Step)
    requires Inv(s) && Enabled(s, step)
    requires step.Edit? || step.Snapshot? || step.LosePush? || step.Answered? || step.LosePage?
    ensures Inv(After(s, step))
  {
    LocalStepKeepsNode(s, step);
    SameWorldLater(s.world);
    hide NodeOk;
    hide WorldOk;
    hide Later;
    DeviceStepKeepsInv(s, After(s, step), step.d, After(s, step).nodes[step.d]);
  }

  lemma HandleKeepsInv(s: State, step: Step)
    requires Inv(s) && Enabled(s, step) && step.Handle?
    ensures Inv(After(s, step))
  {
    var n, k := s.nodes[step.d], step.k;
    assert NodeAt(s, step.d);
    var x := ToWrite(k, n.queue[k]);
    var (w', outcome) := Submit(s.world, x, step.now);
    QueuedIsSendable(s.world, n, k);
    SubmitKeepsWorld(s.world, x, step.now);
    SubmitLater(s.world, x, step.now);
    SubmitAnswers(s.world, n, k, step.now);
    LaterKeepsNode(s.world, w', n);
    HandleKeepsNode(s.world, w', n, k, outcome);
    hide NodeOk;
    hide WorldOk;
    hide Later;
    DeviceStepKeepsInv(s, After(s, step), step.d, Handled(n, k, outcome));
  }

  lemma ApplyKeepsInv(s: State, step: Step)
    requires Inv(s) && Enabled(s, step) && step.Apply?
    ensures Inv(After(s, step))
  {
    var n, k := s.nodes[step.d], step.k;
    assert NodeAt(s, step.d) && KeyOk(s.world, n, k);
    ApplyKeepsNode(s.world, n, k, step.fork, step.marker);
    MintLater(s.world, {step.fork});
    hide NodeOk;
    hide WorldOk;
    hide Later;
    DeviceStepKeepsInv(s, After(s, step), step.d, Applied(n, k, step.fork, step.marker));
  }

  lemma DeliverKeepsInv(s: State, step: Step)
    requires Inv(s) && Enabled(s, step) && step.Deliver?
    ensures Inv(After(s, step))
  {
    var n := s.nodes[step.d];
    assert NodeAt(s, step.d);
    DeliverKeepsNode(s.world, n);
    SameWorldLater(s.world);
    forall k | k in n.page.value.rows
      ensures Mine(s.world, k)
    {
      assert KeyOk(s.world, n, k);
    }
    hide NodeOk;
    hide WorldOk;
    hide Later;
    DeviceStepKeepsInv(s, After(s, step), step.d, Delivered(n));
  }

  lemma {:induction false} StepKeepsInv(s: State, step: Step)
    requires Inv(s) && Enabled(s, step)
    ensures Inv(After(s, step))
  {
    match step
    case Create(d, k, fields, at) => CreateKeepsInv(s, step);
    case Edit(d, k, fields, at) => LocalStepKeepsInv(s, step);
    case Snapshot(d, keys) => LocalStepKeepsInv(s, step);
    case Handle(d, k, now) => HandleKeepsInv(s, step);
    case Apply(d, k, fork, marker) => ApplyKeepsInv(s, step);
    case LosePush(d) => LocalStepKeepsInv(s, step);
    case Late(stray, now) =>
      StrayIsSendable(s, stray);
      SubmitKeepsWorld(s.world, stray.write, now);
      SubmitLater(s.world, stray.write, now);
      WorldStepKeepsInv(s, Submit(s.world, stray.write, now).0);
    case Answered(d, limit, p) => LocalStepKeepsInv(s, step);
    case Deliver(d) => DeliverKeepsInv(s, step);
    case LosePage(d) => LocalStepKeepsInv(s, step);
    case Foreign(other, write, now) =>
      ForeignLater(s.world, other, write, now);
      WorldStepKeepsInv(s, s.world.(db := Upserted(s.world.db, other, write, now).0));
  }

  /** The invariant holds in every state of every run. */
  lemma {:induction false} RunKeepsInv(states: seq<State>, steps: seq<Step>, i: nat)
    requires Run(states, steps) && Init(states[0]) && i < |states|
    ensures Inv(states[i])
  {
    if i == 0 {
      InitInv(states[0]);
    } else {
      RunKeepsInv(states, steps, i - 1);
      StepKeepsInv(states[i - 1], steps[i - 1]);
    }
  }
}
