/** What the protocol promises over whole runs: nothing skipped, nothing
    overwritten unseen, no note text lost. */
module Safety {
  import opened Common
  import opened Rows
  import opened Server
  import opened Paging
  import opened Device
  import opened Protocol
  import opened Invariant

  // ---------- The cursor never passes a row the device does not hold ----------

  lemma CursorSound(states: seq<State>, steps: seq<Step>, i: nat, d: DeviceId, k: Key)
    requires Run(states, steps) && Init(states[0]) && i < |states|
    requires d in states[i].nodes && Mine(states[i].world, k)
    ensures var row, n := states[i].world.db.rows[k], states[i].nodes[d];
            row.seqNo <= n.cursor ==>
              k in n.rows && (n.rows[k].dirty || Matches(n.rows[k], row))
  {
    RunKeepsInv(states, steps, i);
    assert NodeAt(states[i], d);
    assert KeyOk(states[i].world, states[i].nodes[d], k);
  }

  /** A clean row shows a version the server has had, fields and all, and no
      row claims a version the server has not reached. */
  lemma CleanRowsAreTheServers(states: seq<State>, steps: seq<Step>, i: nat, d: DeviceId, k: Key)
    requires Run(states, steps) && Init(states[0]) && i < |states|
    requires d in states[i].nodes && k in states[i].nodes[d].rows
    ensures var w, row := states[i].world, states[i].nodes[d].rows[k];
            && (row.dirty || row.version > 0)
            && (row.version > 0 ==> Mine(w, k) && row.version <= w.db.rows[k].version
                                    && Version(k, row.version) in w.history)
            && (!row.dirty ==> w.history[Version(k, row.version)] == row.fields)
            && (!row.dirty && row.version == w.db.rows[k].version ==> row.fields == w.db.rows[k].fields)
  {
    RunKeepsInv(states, steps, i);
    var w, n := states[i].world, states[i].nodes[d];
    var v := Version(k, n.rows[k].version);
    assert NodeAt(states[i], d);
    assert KeyOk(w, n, k) && SeenOk(w, n, v) && WorldVersion(w, v) && WorldRow(w, k);
  }

  // ---------- Steps move forward ----------

  lemma StepLater(s: State, step: Step)
    requires Inv(s) && Enabled(s, step)
    ensures Later(s.world, After(s, step).world)
  {
    SameWorldLater(s.world);
    match step {
      case Create(d, k, fields, at) => MintLater(s.world, {k.id});
      case Handle(d, k, now) => SubmitLater(s.world, ToWrite(k, s.nodes[d].queue[k]), now);
      case Apply(d, k, fork, marker) => MintLater(s.world, {fork});
      case Late(stray, now) => SubmitLater(s.world, stray.write, now);
      case Foreign(other, write, now) => ForeignLater(s.world, other, write, now);
      case _ =>
    }
  }

  ghost predicate Forward(s: State, s': State, d: DeviceId) {
    d in s.nodes ==>
      && d in s'.nodes
      && s.nodes[d].cursor <= s'.nodes[d].cursor
      && (forall k :: k in s.nodes[d].rows ==>
          k in s'.nodes[d].rows && s.nodes[d].rows[k].version <= s'.nodes[d].rows[k].version)
  }

  lemma CursorForward(s: State, step: Step, d: DeviceId)
    requires Enabled(s, step) && d in s.nodes && CursorsOk(s.world, s.nodes[d])
    ensures d in After(s, step).nodes && s.nodes[d].cursor <= After(s, step).nodes[d].cursor
  {
    hide IsPage;
    hide Submit;
    hide AfterResult;
    hide AfterPage;
  }

  lemma RowForward(s: State, step: Step, d: DeviceId, k: Key)
    requires Enabled(s, step) && d in s.nodes && KeyOk(s.world, s.nodes[d], k) && k in s.nodes[d].rows
    ensures d in After(s, step).nodes && k in After(s, step).nodes[d].rows
    ensures s.nodes[d].rows[k].version <= After(s, step).nodes[d].rows[k].version
  {
    hide IsPage;
    hide Submit;
    hide Upserted;
  }

  lemma SameDevices(s: State, step: Step)
    requires Enabled(s, step)
    ensures After(s, step).nodes.Keys == s.nodes.Keys
  {
  }

  lemma StepForward(s: State, step: Step, d: DeviceId)
    requires Inv(s) && Enabled(s, step)
    ensures Forward(s, After(s, step), d)
  {
    if d in s.nodes {
      assert NodeAt(s, d);
      SameDevices(s, step);
      CursorForward(s, step, d);
      forall k | k in s.nodes[d].rows
        ensures k in After(s, step).nodes[d].rows
        ensures s.nodes[d].rows[k].version <= After(s, step).nodes[d].rows[k].version
      {
        assert KeyOk(s.world, s.nodes[d], k);
        RowForward(s, step, d, k);
      }
      hide After;
      hide Enabled;
      hide Inv;
    }
  }

  /** Over any stretch of a run a device's cursor and its version of each row
      only grow, and it forgets no row. */
  lemma {:induction false} NeverBackwards(states: seq<State>, steps: seq<Step>, i: nat, j: nat, d: DeviceId)
    requires Run(states, steps) && Init(states[0]) && i <= j < |states|
    ensures Forward(states[i], states[j], d)
    decreases j
  {
    hide After;
    hide Enabled;
    hide Init;
    hide Inv;
    if i < j {
      NeverBackwards(states, steps, i, j - 1, d);
      RunKeepsInv(states, steps, j - 1);
      RunStep(states, steps, j - 1);
      hide Run;
      StepForward(states[j - 1], steps[j - 1], d);
    }
  }

  lemma LaterTransitive(a: World, b: World, c: World)
    requires Later(a, b) && Later(b, c)
    ensures Later(a, c)
  {
    forall k
      ensures LaterRow(a, c, k)
    {
      assert LaterRow(a, b, k) && LaterRow(b, c, k);
    }
  }

  lemma {:induction false} RunLater(states: seq<State>, steps: seq<Step>, i: nat, j: nat)
    requires Run(states, steps) && Init(states[0]) && i <= j < |states|
    ensures Later(states[i].world, states[j].world)
    decreases j
  {
    hide After;
    hide Enabled;
    hide Init;
    hide Inv;
    hide Later;
    if i == j {
      SameWorldLater(states[i].world);
    } else {
      RunLater(states, steps, i, j - 1);
      RunKeepsInv(states, steps, j - 1);
      RunStep(states, steps, j - 1);
      StepLater(states[j - 1], steps[j - 1]);
      LaterTransitive(states[i].world, states[j - 1].world, states[j].world);
    }
  }

  // ---------- No blind overwrite ----------

  /** The step gives the device this version of this row: as the answer to its
      own push, as the server's copy of a conflict, or in a page. */
  ghost predicate Learns(s: State, step: Step, d: DeviceId, v: Version, fields: Fields) {
    match step
    case Apply(e, k, fork, marker) =>
      && e == d && e in s.nodes && k == v.key && k in s.nodes[e].answers
      && !s.nodes[e].answers[k].outcome.Forbidden?
      && s.nodes[e].answers[k].outcome.row.version == v.number
      && s.nodes[e].answers[k].outcome.row.fields == fields
    case Deliver(e) =>
      && e == d && e in s.nodes && s.nodes[e].page.Some? && v.key in s.nodes[e].page.value.rows
      && s.nodes[e].page.value.rows[v.key].version == v.number
      && s.nodes[e].page.value.rows[v.key].fields == fields
    case _ => false
  }

  lemma StepLearns(s: State, step: Step, d: DeviceId, v: Version)
    requires Enabled(s, step) && d in s.nodes && v in After(s, step).nodes[d].seen
    ensures var fields := After(s, step).nodes[d].seen[v];
            (v in s.nodes[d].seen && s.nodes[d].seen[v] == fields) || Learns(s, step, d, v, fields)
  {
    hide IsPage;
    hide AfterResult;
    hide AfterPage;
    hide Submit;
  }

  lemma InitSeesNothing(s: State, d: DeviceId, v: Version)
    requires Init(s)
    ensures !(d in s.nodes && v in s.nodes[d].seen)
  {
  }

  lemma {:induction false} SeenWasLearned(states: seq<State>, steps: seq<Step>, j: nat, d: DeviceId, v: Version)
    returns (i: nat)
    requires Run(states, steps) && Init(states[0]) && j < |states| == |steps| + 1
    requires d in states[j].nodes && v in states[j].nodes[d].seen
    ensures i < j && Learns(states[i], steps[i], d, v, states[j].nodes[d].seen[v])
  {
    hide After;
    hide Enabled;
    hide Learns;
    hide Init;
    hide Run;
    InitSeesNothing(states[0], d, v);
    RunStep(states, steps, j - 1);
    var s, step := states[j - 1], steps[j - 1];
    SameDevices(s, step);
    StepLearns(s, step, d, v);
    i := j - 1;
    if v in s.nodes[d].seen && s.nodes[d].seen[v] == states[j].nodes[d].seen[v] {
      i := SeenWasLearned(states, steps, j - 1, d, v);
    }
  }

  /** The write a step submits, and for which device. */
  function Submitted(s: State, step: Step): Option<(DeviceId, Write)> {
    match step
    case Handle(d, k, now) =>
      if d in s.nodes && k in s.nodes[d].queue then Some((d, ToWrite(k, s.nodes[d].queue[k]))) else None
    case Late(stray, now) => Some((stray.device, stray.write))
    case _ => None
  }

  lemma OverwriteSeen(s: State, step: Step, k: Key)
    requires Inv(s) && Enabled(s, step)
    requires Mine(s.world, k) && Mine(After(s, step).world, k)
    requires After(s, step).world.db.rows[k] != s.world.db.rows[k]
    ensures var row, v := s.world.db.rows[k], Version(k, s.world.db.rows[k].version);
            && Submitted(s, step).Some? && Submitted(s, step).value.1.key == k
            && After(s, step).world.db.rows[k].version == row.version + 1
            && (var d := Submitted(s, step).value.0;
                d in s.nodes && v in s.nodes[d].seen && s.nodes[d].seen[v] == row.fields)
  {
    var v := Version(k, s.world.db.rows[k].version);
    assert WorldRow(s.world, k);
    var (d, write) := Submitted(s, step).value;
    if step.Late? {
      assert StrayOk(s, step.stray);
    }
    assert NodeAt(s, d);
    assert KeyOk(s.world, s.nodes[d], k) && SeenOk(s.world, s.nodes[d], v);
  }

  /** Whenever the server replaces a version of a row, the device whose write
      replaced it had been given exactly that version, fields and all, in an
      earlier step of the run. */
  lemma NoBlindOverwrite(states: seq<State>, steps: seq<Step>, j: nat, k: Key) returns (i: nat)
    requires Run(states, steps) && Init(states[0]) && j < |steps|
    requires Mine(states[j].world, k) && Mine(states[j + 1].world, k)
    requires states[j + 1].world.db.rows[k] != states[j].world.db.rows[k]
    ensures var row, submitted := states[j].world.db.rows[k], Submitted(states[j], steps[j]);
            && submitted.Some? && submitted.value.1.key == k
            && states[j + 1].world.db.rows[k].version == row.version + 1
            && i < j && Learns(states[i], steps[i], submitted.value.0, Version(k, row.version), row.fields)
  {
    RunKeepsInv(states, steps, j);
    OverwriteSeen(states[j], steps[j], k);
    var d := Submitted(states[j], steps[j]).value.0;
    i := SeenWasLearned(states, steps, j, d, Version(k, states[j].world.db.rows[k].version));
  }

  // ---------- No note text lost ----------

  /** The note still says what `c` said: nothing changed but markers after the title. */
  predicate Carries(c: Fields, f: Fields) {
    f == c.(title := f.title) && c.title <= f.title
  }

  lemma CarriesAll(c: Fields, f: Fields)
    ensures Carries(c, f) <==>
              && |c.title| <= |f.title| && f.title[..|c.title|] == c.title
              && f.body == c.body && f.kind == c.kind && f.deleted == c.deleted && f.rest == c.rest
  {
    if Carries(c, f) {
      assert f.title[..|c.title|] == c.title;
    }
  }

  ghost predicate HoldsAt(s: State, d: DeviceId, k: Key, c: Fields) {
    && d in s.nodes && k.table == Notes && k in s.nodes[d].rows
    && s.nodes[d].rows[k].dirty && Carries(c, s.nodes[d].rows[k].fields)
  }

  // Where the text of a note is: in a dirty note of the device, or in a version
  // of a note that the server has taken.
  datatype Trace = Held(k: Key) | Taken(v: Version)

  /** Where a step takes the text of a note: an acceptance of what the row says
      takes it to the server, a conflict into the fork, anything else nowhere. */
  function Follow(s: State, step: Step, d: DeviceId, t: Trace): Trace {
    if t.Held? && step.Apply? && step.d == d && step.k == t.k && d in s.nodes && t.k in s.nodes[d].answers
       && t.k in s.nodes[d].rows then
      var a := s.nodes[d].answers[t.k];
      match a.outcome
      case Accepted(r) => if s.nodes[d].rows[t.k].updated == a.sent.updated then Taken(Version(t.k, r.version)) else t
      case Conflict(_) => Held(Key(Notes, step.fork))
      case Forbidden => t
    else t
  }

  /** The same over the steps from i to j. */
  function Followed(states: seq<State>, steps: seq<Step>, d: DeviceId, t: Trace, i: nat, j: nat): Trace
    requires i <= j < |states| && j <= |steps|
    decreases j
  {
    if i == j then t else Follow(states[j - 1], steps[j - 1], d, Followed(states, steps, d, t, i, j - 1))
  }

  ghost predicate Carried(s: State, d: DeviceId, t: Trace, c: Fields) {
    match t
    case Held(k) => HoldsAt(s, d, k, c)
    case Taken(v) => v.key.table == Notes && v in s.world.history && Carries(c, s.world.history[v])
  }

  /** The user types over the very note that holds the text. */
  ghost predicate TypedOver(step: Step, d: DeviceId, t: Trace, c: Fields) {
    step.Edit? && step.d == d && t == Held(step.k) && !Carries(c, step.fields)
  }

  /** One step, one dirty note: afterwards it is dirty with the same fields,
      unless the user edited it, the server has taken it word for word, or it
      was moved whole into a new dirty note the server has never had. */
  lemma NoteTextMoves(s: State, step: Step, d: DeviceId, k: Key)
    requires Inv(s) && Enabled(s, step)
    requires d in s.nodes && k.table == Notes && k in s.nodes[d].rows && s.nodes[d].rows[k].dirty
    ensures var s', row := After(s, step), s.nodes[d].rows[k];
            var n' := s'.nodes[d];
            || (k in n'.rows && n'.rows[k].dirty && n'.rows[k].fields == row.fields)
            || (step.Edit? && step.d == d && step.k == k)
            || (step.Apply? && step.d == d && step.k == k && k in n'.rows
                && Version(k, n'.rows[k].version) in s'.world.history
                && s'.world.history[Version(k, n'.rows[k].version)] == row.fields)
            || (step.Apply? && step.d == d && step.k == k
                && Key(Notes, step.fork) !in s.nodes[d].rows && Key(Notes, step.fork) in n'.rows
                && n'.rows[Key(Notes, step.fork)] == Forked(row, step.marker))
  {
    assert NodeAt(s, d);
    assert KeyOk(s.world, s.nodes[d], k) && WorldRow(s.world, k);
    if step.Apply? {
      FreshForkIsUnknown(s.world, s.nodes[d], step.fork, k);
      assert KeyOk(s.world, s.nodes[d], Key(Notes, step.fork));
    }
  }

  lemma ForkCarries(c: Fields, row: Local, marker: string)
    requires Carries(c, row.fields)
    ensures Carries(c, Forked(row, marker).fields)
  {
    var t := row.fields.title;
    assert t <= t + " " + marker;
    assert c.title <= t + " " + marker by {
      assert (t + " " + marker)[..|c.title|] == t[..|c.title|];
    }
  }

  /** A result never leaves a note's text behind. */
  lemma AppliedTrace(s: State, step: Step, d: DeviceId, k: Key, c: Fields)
    requires Inv(s) && Enabled(s, step) && HoldsAt(s, d, k, c) && step.Apply? && step.d == d && step.k == k
    ensures Carried(After(s, step), d, Follow(s, step, d, Held(k)), c)
  {
    assert NodeAt(s, d);
    assert KeyOk(s.world, s.nodes[d], k);
    hide Inv;
    ForkCarries(c, s.nodes[d].rows[k], step.marker);
    hide Carries;
  }

  lemma HasMintedId(s: State, d: DeviceId, k: Key)
    requires Inv(s) && d in s.nodes && k in s.nodes[d].rows
    ensures k.id in s.world.minted
  {
    assert NodeAt(s, d);
    assert KeyOk(s.world, s.nodes[d], k);
  }

  lemma KeptInPlace(s: State, step: Step, d: DeviceId, k: Key)
    requires Enabled(s, step) && d in s.nodes && k in s.nodes[d].rows && s.nodes[d].rows[k].dirty
    requires !(step.Apply? && step.d == d && step.k == k)
    requires k.id in s.world.minted
    ensures d in After(s, step).nodes && k in After(s, step).nodes[d].rows && After(s, step).nodes[d].rows[k].dirty
    ensures After(s, step).nodes[d].rows[k].fields
            == (if step.Edit? && step.d == d && step.k == k then step.fields else s.nodes[d].rows[k].fields)
  {
    hide IsPage;
    hide Submit;
  }

  lemma StepKeepsText(s: State, step: Step, d: DeviceId, t: Trace, c: Fields)
    requires Inv(s) && Enabled(s, step) && Carried(s, d, t, c) && !TypedOver(step, d, t, c)
    ensures Carried(After(s, step), d, Follow(s, step, d, t), c)
  {
    if t.Taken? {
      StepLater(s, step);
    } else {
      if step.Apply? && step.d == d && step.k == t.k {
        AppliedTrace(s, step, d, t.k, c);
      } else {
        HasMintedId(s, d, t.k);
        KeptInPlace(s, step, d, t.k);
      }
    }
  }

  lemma RunKeepsText(states: seq<State>, steps: seq<Step>, j: nat, d: DeviceId, t: Trace, c: Fields)
    requires Run(states, steps) && Init(states[0]) && j < |steps|
    requires Carried(states[j], d, t, c) && !TypedOver(steps[j], d, t, c)
    ensures Carried(states[j + 1], d, Follow(states[j], steps[j], d, t), c)
  {
    hide Init;
    hide Inv;
    hide After;
    hide Enabled;
    hide Carried;
    hide Follow;
    hide TypedOver;
    RunKeepsInv(states, steps, j);
    RunStep(states, steps, j);
    hide Run;
    StepKeepsText(states[j], steps[j], d, t, c);
  }

  /** Over any run, through conflicts, lost responses, late requests and edits in
      flight, the text of a dirty note can be followed: it is in that note or in
      the fork it has moved to, still dirty, or in the version of it that the
      server has taken, until the user types over that very note. */
  lemma {:induction false} NoteTextConserved(states: seq<State>, steps: seq<Step>, i: nat, j: nat, d: DeviceId, k: Key,
                                             c: Fields)
    requires Run(states, steps) && Init(states[0]) && i <= j < |states|
    requires HoldsAt(states[i], d, k, c)
    requires forall m :: i <= m < j ==> !TypedOver(steps[m], d, Followed(states, steps, d, Held(k), i, m), c)
    ensures Carried(states[j], d, Followed(states, steps, d, Held(k), i, j), c)
    decreases j
  {
    hide Init;
    hide HoldsAt;
    hide Follow;
    hide TypedOver;
    hide After;
    hide Enabled;
    if i < j {
      NoteTextConserved(states, steps, i, j - 1, d, k, c);
      RunKeepsText(states, steps, j - 1, d, Followed(states, steps, d, Held(k), i, j - 1), c);
    }
  }

  // ---------- Why an edit needs a fresh stamp ----------

  /** An edit made while a copy of the row is on its way and is then accepted:
      the row shows the edit and the server the copy, and the row stays dirty
      exactly when the edit has another stamp than the copy. With the same stamp,
      as two writes of one millisecond have, nothing ever sends the edit. */
  lemma EditInFlight(s: State, d: DeviceId, k: Key, fields: Fields, at: Stamp, now: Stamp, fork: Id, marker: string)
    requires Inv(s) && d in s.nodes && k in s.nodes[d].queue && fork !in s.world.minted
    requires k in s.world.db.rows ==> Mine(s.world, k) && s.world.db.rows[k].version == s.nodes[d].queue[k].version
    ensures k in s.nodes[d].rows
    ensures var sent, s1 := s.nodes[d].queue[k], With(s, d, Edited(s.nodes[d], k, fields, at));
            && Enabled(s1, Handle(d, k, now)) && Enabled(After(s1, Handle(d, k, now)), Apply(d, k, fork, marker))
            && (var s' := After(After(s1, Handle(d, k, now)), Apply(d, k, fork, marker));
                var row := s'.nodes[d].rows[k];
                && k in s'.nodes[d].rows && row.fields == fields
                && s'.world.db.rows[k].fields == sent.fields && s'.world.db.rows[k].version == row.version
                && (row.dirty <==> at != sent.updated))
  {
    assert NodeAt(s, d) && KeyOk(s.world, s.nodes[d], k);
  }

  // ---------- What a lost answer costs ----------

  lemma QueuedRow(s: State, d: DeviceId, k: Key)
    requires Inv(s) && d in s.nodes && k in s.nodes[d].queue && k in s.nodes[d].rows
    ensures var row := s.nodes[d].rows[k];
            row.dirty && Normal(k.table, row.fields) && (row.version > 0 ==> Mine(s.world, k))
  {
    var v := Version(k, s.nodes[d].rows[k].version);
    assert NodeAt(s, d);
    assert KeyOk(s.world, s.nodes[d], k) && SeenOk(s.world, s.nodes[d], v) && WorldVersion(s.world, v);
  }

  /** A row that the server accepts while its answer is lost conflicts with
      itself when it is sent again: the conflicting row says word for word what
      the device sent, and no other device has had a part in it. */
  lemma RetryConflictsWithItself(s: State, d: DeviceId, k: Key, now: Stamp, again: Stamp)
    requires Inv(s) && d in s.nodes && s.nodes[d].page == None && k in s.nodes[d].queue && k in s.nodes[d].rows
    requires s.nodes[d].rows[k] == s.nodes[d].queue[k]
    requires k in s.world.db.rows ==> Mine(s.world, k) && s.world.db.rows[k].version == s.nodes[d].queue[k].version
    ensures Enabled(s, Handle(d, k, now))
    ensures var sent, lost := s.nodes[d].queue[k], After(After(s, Handle(d, k, now)), LosePush(d));
            && Enabled(lost, Snapshot(d, {k}))
            && (var retried := After(lost, Snapshot(d, {k}));
                && Enabled(retried, Handle(d, k, again))
                && (var s' := After(retried, Handle(d, k, again));
                    && k in s'.nodes[d].answers && s'.nodes[d].answers[k].outcome.Conflict?
                    && s'.nodes[d].answers[k].outcome.row.fields == sent.fields
                    && s'.world == retried.world))
  {
    hide Inv;
    hide IsPage;
    QueuedRow(s, d, k);
    var n := s.nodes[d];
    var lost := After(After(s, Handle(d, k, now)), LosePush(d));
    assert lost.nodes[d].rows == n.rows && lost.nodes[d].queue == map[] && lost.nodes[d].answers == map[];
    var retried := After(lost, Snapshot(d, {k}));
    assert retried.nodes[d].queue[k] == n.rows[k];
  }

  // ---------- Why one cycle at a time ----------

  /** Were a pull to start while a push of the device is under way, a row the page
      holds and the push then gets accepted would be taken back to the version
      it had before the push. The guard is what Answered's Idle stands for. */
  lemma OverlapGoesBackwards(s: State, d: DeviceId, k: Key, limit: nat, p: Page, now: Stamp, fork: Id, marker: string)
    requires d in s.nodes && k in s.nodes[d].queue && k in s.nodes[d].rows && fork !in s.world.minted
    requires s.nodes[d].rows[k] == s.nodes[d].queue[k]
    requires Mine(s.world, k) && s.world.db.rows[k].version == s.nodes[d].queue[k].version
    requires IsPage(s.world.db, s.world.user, s.nodes[d].cursor, limit, p) && k in p.rows
    ensures !Enabled(s, Answered(d, limit, p))
    ensures var asked := With(s, d, s.nodes[d].(page := Some(p)));
            && Enabled(asked, Handle(d, k, now))
            && (var handled := After(asked, Handle(d, k, now));
                && Enabled(handled, Apply(d, k, fork, marker))
                && (var applied := After(handled, Apply(d, k, fork, marker));
                    && Enabled(applied, Deliver(d)) && k in applied.nodes[d].rows
                    && k in After(applied, Deliver(d)).nodes[d].rows
                    && After(applied, Deliver(d)).nodes[d].rows[k].version < applied.nodes[d].rows[k].version))
  {
    assert p.rows[k] == s.world.db.rows[k];
    hide IsPage;
  }
}
