/** Once its user stops typing, two pushes and enough pages leave a device with exactly the server's rows. */
module Convergence {
  import opened Common
  import opened Rows
  import opened Server
  import opened Paging
  import opened Device
  import opened Protocol
  import opened Invariant
  import opened Safety

  /** No row of the device bears an id that another account holds on the server. */
  ghost predicate OwnRow(s: State, d: DeviceId, k: Key) {
    d in s.nodes && k in s.nodes[d].rows && k in s.world.db.rows ==> Mine(s.world, k)
  }

  /** A row of the device bears an id that another account holds. */
  ghost predicate HeldByOther(s: State, d: DeviceId, k: Key) {
    !OwnRow(s, d, k)
  }

  /** What a step may be while device d settles: nobody types on d, no push of
      its is lost, and no other account uses an id of this user's. */
  ghost predicate Quiet(s: State, step: Step, d: DeviceId) {
    match step
    case Create(e, _, _, _) => e != d
    case Edit(e, _, _, _) => e != d
    case LosePush(e) => e != d
    case Apply(e, _, fork, _) => e == d ==> Key(Notes, fork) !in s.world.db.rows
    case Foreign(_, write, _) => write.key.id !in s.world.minted
    case _ => true
  }

  ghost predicate QuietRun(states: seq<State>, steps: seq<Step>, d: DeviceId) {
    && Run(states, steps)
    && Inv(states[0]) && (forall i :: 0 <= i < |states| ==> d in states[i].nodes)
    && (forall i :: 0 <= i < |steps| ==> Quiet(states[i], steps[i], d))
  }

  ghost predicate NothingUnderWay(n: Node) {
    n.queue == map[] && n.answers == map[]
  }

  /** A dirty note the server has never been sent. */
  ghost predicate Unsent(s: State, d: DeviceId, k: Key) {
    && d in s.nodes && k in s.nodes[d].rows && s.nodes[d].rows[k].version == 0
    && k !in s.world.db.rows
    && (forall x :: x in s.network ==> x.write.key != k)
  }

  ghost predicate OnlyUnsent(s: State, d: DeviceId, k: Key) {
    d in s.nodes && k in s.nodes[d].rows && s.nodes[d].rows[k].dirty ==> Unsent(s, d, k)
  }

  ghost predicate Unedited(n: Node, k: Key) {
    && (k in n.queue && k in n.rows ==> n.queue[k] == n.rows[k])
    && (k in n.answers && k in n.rows ==> n.answers[k].sent == n.rows[k])
  }

  /** During the first push: a dirty row is on its way unedited, or is a fork. */
  ghost predicate Settling(s: State, d: DeviceId, k: Key) {
    d in s.nodes ==>
      var n := s.nodes[d];
      && OwnRow(s, d, k) && Unedited(n, k)
      && (k in n.answers ==> !n.answers[k].outcome.Forbidden?)
      && (k in n.rows && n.rows[k].dirty ==> k in n.queue || k in n.answers || Unsent(s, d, k))
  }

  /** During the second: a dirty row is on its way unedited and is one the
      server does not have, or has been accepted. */
  ghost predicate Sending(s: State, d: DeviceId, k: Key) {
    d in s.nodes ==>
      var n := s.nodes[d];
      && Unedited(n, k)
      && (k in n.answers ==> n.answers[k].outcome.Accepted?)
      && (k in n.queue ==> Unsent(s, d, k))
      && (k in n.rows && n.rows[k].dirty ==> k in n.queue || k in n.answers)
  }

  lemma SnapshotSettles(s: State, d: DeviceId, k: Key)
    requires Inv(s) && d in s.nodes && NothingUnderWay(s.nodes[d]) && OwnRow(s, d, k)
    requires Enabled(s, Snapshot(d, DirtyKeys(s.nodes[d].rows)))
    ensures Settling(After(s, Snapshot(d, DirtyKeys(s.nodes[d].rows))), d, k)
  {
  }

  lemma SnapshotSends(s: State, d: DeviceId, k: Key)
    requires Inv(s) && d in s.nodes && NothingUnderWay(s.nodes[d])
    requires OnlyUnsent(s, d, k)
    requires Enabled(s, Snapshot(d, DirtyKeys(s.nodes[d].rows)))
    ensures Sending(After(s, Snapshot(d, DirtyKeys(s.nodes[d].rows))), d, k)
  {
  }

  /** What the invariant says about the row and everything that names it. */
  ghost predicate Placed(s: State, d: DeviceId, k: Key) {
    && WorldRow(s.world, k) && Private(s, k)
    && (d in s.nodes ==> KeyOk(s.world, s.nodes[d], k) && CursorsOk(s.world, s.nodes[d]))
    && (forall e :: e in s.nodes && k in s.nodes[e].queue ==> k in s.nodes[e].rows)
    && (forall x :: x in s.network && x.write.key == k ==> k.id in s.world.minted)
  }

  lemma InvPlaces(s: State, d: DeviceId, k: Key)
    requires Inv(s)
    ensures Placed(s, d, k)
  {
    assert Private(s, k) && NodeAt(s, d);
    forall e | e in s.nodes && k in s.nodes[e].queue
      ensures k in s.nodes[e].rows
    {
      assert NodeAt(s, e) && KeyOk(s.world, s.nodes[e], k);
    }
    forall x | x in s.network && x.write.key == k
      ensures k.id in s.world.minted
    {
      StrayIsSendable(s, x);
    }
  }

  lemma SettlingApply(s: State, step: Step, d: DeviceId, k: Key)
    requires Placed(s, d, k) && Enabled(s, step) && Quiet(s, step, d) && Settling(s, d, k)
    requires step.Apply?
    ensures Settling(After(s, step), d, k)
  {
  }

  lemma SettlingHandle(s: State, step: Step, d: DeviceId, k: Key)
    requires Placed(s, d, k) && Enabled(s, step) && Quiet(s, step, d) && Settling(s, d, k)
    requires step.Handle?
    ensures Settling(After(s, step), d, k)
  {
  }

  lemma SettlingStep(s: State, step: Step, d: DeviceId, k: Key)
    requires Placed(s, d, k) && Enabled(s, step) && Quiet(s, step, d) && Settling(s, d, k)
    ensures Settling(After(s, step), d, k)
  {
    hide IsPage;
    if step.Apply? {
      SettlingApply(s, step, d, k);
    } else if step.Handle? {
      SettlingHandle(s, step, d, k);
    }
  }

  // ---------- Rows of another account's id ----------

  lemma ForeignIsDirty(s: State, d: DeviceId, k: Key)
    requires Inv(s) && HeldByOther(s, d, k)
    ensures s.nodes[d].rows[k].dirty
  {
    var v := Version(k, s.nodes[d].rows[k].version);
    assert NodeAt(s, d);
    assert KeyOk(s.world, s.nodes[d], k) && SeenOk(s.world, s.nodes[d], v) && WorldVersion(s.world, v);
  }

  /** Nothing is ever accepted or conflicted for such a row. */
  lemma ForeignIsRefused(s: State, d: DeviceId, k: Key)
    requires Inv(s) && HeldByOther(s, d, k)
    ensures k in s.nodes[d].answers ==> s.nodes[d].answers[k].outcome.Forbidden?
  {
    assert NodeAt(s, d);
    assert KeyOk(s.world, s.nodes[d], k);
  }

  /** No step of the protocol gives such a row to the device's user, or drops it. */
  lemma ForeignStays(s: State, step: Step, d: DeviceId, k: Key)
    requires Inv(s) && Enabled(s, step) && HeldByOther(s, d, k)
    ensures HeldByOther(After(s, step), d, k)
  {
    StepLater(s, step);
    assert LaterRow(s.world, After(s, step).world, k);
    StepForward(s, step, d);
    hide Inv;
    hide Enabled;
    hide After;
  }

  ghost predicate SendingOrForeign(s: State, d: DeviceId, k: Key) {
    Sending(s, d, k) || HeldByOther(s, d, k)
  }

  ghost predicate AllSending(s: State, d: DeviceId) {
    forall k :: SendingOrForeign(s, d, k)
  }

  /** While everything sent is accepted or refused, no fork is made and nothing is
      left to read into the queue. */
  lemma SendingStep(s: State, step: Step, d: DeviceId, k: Key)
    requires Placed(s, d, k) && Enabled(s, step) && Quiet(s, step, d) && Sending(s, d, k)
    requires step.Apply? && step.d == d ==> !s.nodes[d].answers[step.k].outcome.Conflict?
    ensures Sending(After(s, step), d, k)
  {
    hide IsPage;
  }

  lemma AllSendingAt(s: State, d: DeviceId, k: Key)
    requires AllSending(s, d)
    ensures SendingOrForeign(s, d, k)
  {
  }

  /** A push of which no row conflicts makes no fork. */
  lemma NoConflict(s: State, step: Step, d: DeviceId)
    requires Inv(s) && Enabled(s, step) && AllSending(s, d)
    ensures step.Apply? && step.d == d ==> !s.nodes[d].answers[step.k].outcome.Conflict?
  {
    if step.Apply? && step.d == d {
      AllSendingAt(s, d, step.k);
      if HeldByOther(s, d, step.k) {
        ForeignIsRefused(s, d, step.k);
      }
    }
  }

  lemma {:induction false} QuietRunInv(states: seq<State>, steps: seq<Step>, d: DeviceId, i: nat)
    requires QuietRun(states, steps, d) && i < |states|
    ensures Inv(states[i]) && d in states[i].nodes
  {
    if i > 0 {
      QuietRunInv(states, steps, d, i - 1);
      StepKeepsInv(states[i - 1], steps[i - 1]);
      SameDevices(states[i - 1], steps[i - 1]);
    }
  }

  lemma QuietStep(states: seq<State>, steps: seq<Step>, d: DeviceId, i: nat)
    requires QuietRun(states, steps, d) && i < |steps|
    ensures |states| == |steps| + 1 && d in states[i].nodes && d in states[i + 1].nodes
    ensures Inv(states[i]) && Enabled(states[i], steps[i]) && Quiet(states[i], steps[i], d)
    ensures states[i + 1] == After(states[i], steps[i])
  {
    hide Inv;
    hide Quiet;
    hide After;
    hide Enabled;
    QuietRunInv(states, steps, d, i);
    RunStep(states, steps, i);
  }

  lemma RunShape(states: seq<State>, steps: seq<Step>, d: DeviceId)
    requires QuietRun(states, steps, d)
    ensures |states| == |steps| + 1
  {
  }

  lemma {:induction false} SettlingRun(states: seq<State>, steps: seq<Step>, d: DeviceId, i: nat, j: nat, k: Key)
    requires QuietRun(states, steps, d) && i <= j < |states| && Settling(states[i], d, k)
    ensures Settling(states[j], d, k)
    decreases j
  {
    hide Inv;
    hide Placed;
    hide Settling;
    hide Quiet;
    hide After;
    hide Enabled;
    RunShape(states, steps, d);
    hide QuietRun;
    if i < j {
      SettlingRun(states, steps, d, i, j - 1, k);
      QuietStep(states, steps, d, j - 1);
      InvPlaces(states[j - 1], d, k);
      SettlingStep(states[j - 1], steps[j - 1], d, k);
    }
  }

  lemma AllSendingStep(s: State, step: Step, d: DeviceId)
    requires Inv(s) && Enabled(s, step) && Quiet(s, step, d) && AllSending(s, d)
    ensures AllSending(After(s, step), d)
  {
    hide Inv;
    hide Placed;
    hide Sending;
    hide OwnRow;
    hide After;
    hide Enabled;
    hide Quiet;
    NoConflict(s, step, d);
    forall k
      ensures SendingOrForeign(After(s, step), d, k)
    {
      InvPlaces(s, d, k);
      AllSendingAt(s, d, k);
      if HeldByOther(s, d, k) {
        ForeignStays(s, step, d, k);
      } else {
        SendingStep(s, step, d, k);
      }
    }
  }

  lemma {:induction false} SendingRun(states: seq<State>, steps: seq<Step>, d: DeviceId, i: nat, j: nat)
    requires QuietRun(states, steps, d) && i <= j < |states| && AllSending(states[i], d)
    ensures AllSending(states[j], d)
    decreases j
  {
    hide Inv;
    hide AllSending;
    hide Quiet;
    hide After;
    hide Enabled;
    RunShape(states, steps, d);
    hide QuietRun;
    if i < j {
      SendingRun(states, steps, d, i, j - 1);
      QuietStep(states, steps, d, j - 1);
      AllSendingStep(states[j - 1], steps[j - 1], d);
    }
  }

  /** The first push leaves no dirty row but forks the server has never been
      sent, although other devices may push and pull all the while. */
  lemma FirstPushLeavesForks(states: seq<State>, steps: seq<Step>, d: DeviceId, a: nat, b: nat, k: Key)
    requires QuietRun(states, steps, d) && a < b < |states|
    requires NothingUnderWay(states[a].nodes[d]) && steps[a] == Snapshot(d, DirtyKeys(states[a].nodes[d].rows))
    requires OwnRow(states[a], d, k)
    requires d in states[b].nodes && NothingUnderWay(states[b].nodes[d])
    ensures OnlyUnsent(states[b], d, k)
  {
    QuietRunInv(states, steps, d, a);
    SnapshotSettles(states[a], d, k);
    SettlingRun(states, steps, d, a + 1, b, k);
  }

  /** A push of unsent rows, and of rows that are refused, leaves only these dirty. */
  lemma SecondPushLeavesNothing(states: seq<State>, steps: seq<Step>, d: DeviceId, b: nat, c: nat, k: Key)
    requires QuietRun(states, steps, d) && b < c < |states|
    requires NothingUnderWay(states[b].nodes[d]) && steps[b] == Snapshot(d, DirtyKeys(states[b].nodes[d].rows))
    requires forall i :: OnlyUnsent(states[b], d, i) || HeldByOther(states[b], d, i)
    requires d in states[c].nodes && NothingUnderWay(states[c].nodes[d])
    ensures k in states[c].nodes[d].rows && states[c].nodes[d].rows[k].dirty ==> HeldByOther(states[c], d, k)
  {
    QuietStep(states, steps, d, b);
    var s' := states[b + 1];
    forall i
      ensures SendingOrForeign(s', d, i)
    {
      if HeldByOther(states[b], d, i) {
        ForeignStays(states[b], steps[b], d, i);
      } else {
        assert OnlyUnsent(states[b], d, i);
        SnapshotSends(states[b], d, i);
      }
    }
    hide Inv;
    hide Unsent;
    hide OwnRow;
    SendingRun(states, steps, d, b + 1, c);
    AllSendingAt(states[c], d, k);
  }

  lemma {:induction false} ForeignRun(states: seq<State>, steps: seq<Step>, d: DeviceId, i: nat, j: nat, k: Key)
    requires QuietRun(states, steps, d) && i <= j < |states| && HeldByOther(states[i], d, k)
    ensures HeldByOther(states[j], d, k) && states[j].nodes[d].rows[k].dirty
    decreases j
  {
    hide Inv;
    hide Quiet;
    hide After;
    hide Enabled;
    RunShape(states, steps, d);
    QuietRunInv(states, steps, d, j);
    hide QuietRun;
    if i < j {
      ForeignRun(states, steps, d, i, j - 1, k);
      QuietStep(states, steps, d, j - 1);
      ForeignStays(states[j - 1], steps[j - 1], d, k);
    }
    ForeignIsDirty(states[j], d, k);
  }

  lemma ForeignIsHeld(s: State, d: DeviceId, k: Key)
    requires HeldByOther(s, d, k)
    ensures d in s.nodes && k in s.nodes[d].rows
  {
  }

  lemma OwnStaysOwn(states: seq<State>, steps: seq<Step>, d: DeviceId, a: nat, c: nat, k: Key)
    requires QuietRun(states, steps, d) && a < c < |states| && OwnRow(states[a], d, k)
    requires NothingUnderWay(states[a].nodes[d]) && steps[a] == Snapshot(d, DirtyKeys(states[a].nodes[d].rows))
    ensures OwnRow(states[c], d, k)
  {
    QuietRunInv(states, steps, d, a);
    SnapshotSettles(states[a], d, k);
    SettlingRun(states, steps, d, a + 1, c, k);
  }

  /** Two pushes of the device, each of all that is dirty then, the first begun at
      a, the second at b, when the first was over, which is over itself at c. */
  ghost predicate TwoPushes(states: seq<State>, steps: seq<Step>, d: DeviceId, a: nat, b: nat, c: nat) {
    && QuietRun(states, steps, d) && a < b < c < |states| == |steps| + 1
    && NothingUnderWay(states[a].nodes[d]) && steps[a] == Snapshot(d, DirtyKeys(states[a].nodes[d].rows))
    && NothingUnderWay(states[b].nodes[d]) && steps[b] == Snapshot(d, DirtyKeys(states[b].nodes[d].rows))
    && NothingUnderWay(states[c].nodes[d])
  }

  /** What two pushes leave dirty, exactly: the rows whose id another account
      held when the first began. Whatever else was dirty, whatever conflicts it
      met and whatever other devices do meanwhile, nothing else is. */
  lemma TwoPushesSettle(states: seq<State>, steps: seq<Step>, d: DeviceId, a: nat, b: nat, c: nat, k: Key)
    requires TwoPushes(states, steps, d, a, b, c)
    ensures k in DirtyKeys(states[c].nodes[d].rows) <==> HeldByOther(states[a], d, k)
  {
    hide Inv;
    hide Quiet;
    hide OnlyUnsent;
    hide OwnRow;
    forall i
      ensures OnlyUnsent(states[b], d, i) || HeldByOther(states[b], d, i)
    {
      if HeldByOther(states[a], d, i) {
        ForeignRun(states, steps, d, a, b, i);
      } else {
        FirstPushLeavesForks(states, steps, d, a, b, i);
      }
    }
    SecondPushLeavesNothing(states, steps, d, b, c, k);
    if HeldByOther(states[a], d, k) {
      ForeignRun(states, steps, d, a, c, k);
      ForeignIsHeld(states[c], d, k);
    } else {
      OwnStaysOwn(states, steps, d, a, c, k);
    }
  }

  // ---------- A push comes to its end ----------

  /** What a push has still to do: each row read is handled, then applied. */
  function UnderWay(n: Node): nat {
    2 * |n.queue| + |n.answers|
  }

  predicate Works(step: Step, d: DeviceId) {
    (step.Handle? || step.Apply?) && step.d == d
  }

  function Work(steps: seq<Step>, d: DeviceId, i: nat, j: nat): nat
    requires i <= j <= |steps|
    decreases j
  {
    if i == j then 0 else Work(steps, d, i, j - 1) + (if Works(steps[j - 1], d) then 1 else 0)
  }

  /** As long as something is under way, some step of the push can be taken. */
  lemma WorkIsEnabled(s: State, d: DeviceId, now: Stamp, fork: Id, marker: string) returns (step: Step)
    requires d in s.nodes && fork !in s.world.minted && !NothingUnderWay(s.nodes[d])
    ensures Works(step, d) && Enabled(s, step)
  {
    var n := s.nodes[d];
    if n.queue != map[] {
      var k :| k in n.queue;
      step := Handle(d, k, now);
    } else {
      var k :| k in n.answers;
      step := Apply(d, k, fork, marker);
    }
  }

  /** The same for the pull: an idle device can ask and be answered, and a page on
      its way can be applied. */
  lemma PullIsEnabled(s: State, d: DeviceId) returns (step: Step)
    requires Inv(s) && d in s.nodes && NothingUnderWay(s.nodes[d])
    ensures Enabled(s, step)
    ensures if s.nodes[d].page == None then step.Answered? && step.d == d && step.limit == PAGE else step == Deliver(d)
  {
    if s.nodes[d].page == None {
      var p := PageExists(s.world.db, s.world.user, s.nodes[d].cursor, PAGE);
      step := Answered(d, PAGE, p);
    } else {
      step := Deliver(d);
    }
  }

  lemma HandledCounts(n: Node, k: Key, outcome: Outcome)
    requires k in n.queue && k !in n.answers
    ensures UnderWay(n) == UnderWay(Handled(n, k, outcome)) + 1
  {
    var n' := Handled(n, k, outcome);
    assert n'.queue.Keys == n.queue.Keys - {k} && n'.answers.Keys == n.answers.Keys + {k};
    assert |n.queue| == |n.queue.Keys| && |n'.queue| == |n'.queue.Keys|;
    assert |n.answers| == |n.answers.Keys| && |n'.answers| == |n'.answers.Keys|;
  }

  lemma AppliedCounts(n: Node, k: Key, fork: Id, marker: string)
    requires k in n.answers
    ensures UnderWay(n) == UnderWay(Applied(n, k, fork, marker)) + 1
  {
    var n' := Applied(n, k, fork, marker);
    assert n'.queue == n.queue && n'.answers.Keys == n.answers.Keys - {k};
    assert |n.answers| == |n.answers.Keys| && |n'.answers| == |n'.answers.Keys|;
  }

  lemma QueuedIsUnanswered(w: World, n: Node, k: Key)
    requires NodeOk(w, n) && k in n.queue
    ensures k !in n.answers
  {
    assert KeyOk(w, n, k);
  }

  lemma WorkCounts(s: State, step: Step, d: DeviceId)
    requires Inv(s) && Enabled(s, step) && Quiet(s, step, d) && d in s.nodes
    requires step.Snapshot? ==> step.d != d
    ensures UnderWay(s.nodes[d]) == UnderWay(After(s, step).nodes[d]) + (if Works(step, d) then 1 else 0)
  {
    hide IsPage;
    hide Submit;
    hide AfterResult;
    hide AfterPage;
    hide NodeOk;
    var n := s.nodes[d];
    assert NodeAt(s, d);
    hide Inv;
    if step.Handle? && step.d == d {
      QueuedIsUnanswered(s.world, n, step.k);
      HandledCounts(n, step.k, Submit(s.world, ToWrite(step.k, n.queue[step.k]), step.now).1);
      hide UnderWay;
      hide Handled;
    } else if step.Apply? && step.d == d {
      AppliedCounts(n, step.k, step.fork, step.marker);
      hide UnderWay;
      hide Applied;
    }
  }

  lemma NoneUnderWay(n: Node)
    ensures UnderWay(n) == 0 <==> NothingUnderWay(n)
  {
    assert |n.queue| == 0 <==> n.queue == map[];
    assert |n.answers| == 0 <==> n.answers == map[];
  }

  /** A push of n rows is over after exactly 2n steps of its own, whatever the
      other devices do in between. */
  lemma {:induction false} PushComesToAnEnd(states: seq<State>, steps: seq<Step>, d: DeviceId, i: nat, j: nat)
    requires QuietRun(states, steps, d) && i <= j < |states| == |steps| + 1
    requires forall m :: i <= m < j ==> !(steps[m].Snapshot? && steps[m].d == d)
    ensures d in states[i].nodes && d in states[j].nodes
    ensures UnderWay(states[i].nodes[d]) == UnderWay(states[j].nodes[d]) + Work(steps, d, i, j)
    ensures Work(steps, d, i, j) == UnderWay(states[i].nodes[d]) <==> NothingUnderWay(states[j].nodes[d])
    decreases j
  {
    hide Inv;
    hide Quiet;
    hide After;
    hide Enabled;
    hide QuietRun;
    hide UnderWay;
    QuietRunInv(states, steps, d, i);
    if i < j {
      PushComesToAnEnd(states, steps, d, i, j - 1);
      QuietStep(states, steps, d, j - 1);
      WorkCounts(states[j - 1], steps[j - 1], d);
    }
    NoneUnderWay(states[j].nodes[d]);
  }

  // ---------- Pulling the rest ----------

  lemma CleanHasNoAnswers(w: World, n: Node)
    requires NodeOk(w, n) && DirtyKeys(n.rows) == {}
    ensures n.answers == map[]
  {
    forall k
      ensures k !in n.answers
    {
      assert KeyOk(w, n, k) && k !in DirtyKeys(n.rows);
    }
  }

  lemma CleanRow(s: State, step: Step, d: DeviceId, k: Key)
    requires Enabled(s, step) && Quiet(s, step, d) && d in s.nodes && s.nodes[d].answers == map[]
    requires k in s.nodes[d].rows ==> !s.nodes[d].rows[k].dirty
    ensures d in After(s, step).nodes
    ensures k in After(s, step).nodes[d].rows ==> !After(s, step).nodes[d].rows[k].dirty
  {
    hide IsPage;
    hide Submit;
    hide Upserted;
    hide AfterResult;
  }

  lemma CleanStep(s: State, step: Step, d: DeviceId)
    requires Inv(s) && Enabled(s, step) && Quiet(s, step, d) && d in s.nodes
    requires DirtyKeys(s.nodes[d].rows) == {}
    ensures d in After(s, step).nodes && DirtyKeys(After(s, step).nodes[d].rows) == {}
  {
    assert NodeAt(s, d);
    hide Inv;
    CleanHasNoAnswers(s.world, s.nodes[d]);
    hide NodeOk;
    SameDevices(s, step);
    hide After;
    hide Enabled;
    hide Quiet;
    var s' := After(s, step);
    forall k | k in s'.nodes[d].rows
      ensures !s'.nodes[d].rows[k].dirty
    {
      assert k in s.nodes[d].rows ==> k !in DirtyKeys(s.nodes[d].rows);
      CleanRow(s, step, d, k);
    }
  }

  lemma {:induction false} CleanRun(states: seq<State>, steps: seq<Step>, d: DeviceId, i: nat, j: nat)
    requires QuietRun(states, steps, d) && i <= j < |states| && DirtyKeys(states[i].nodes[d].rows) == {}
    ensures d in states[j].nodes && DirtyKeys(states[j].nodes[d].rows) == {}
    decreases j
  {
    hide Inv;
    hide Quiet;
    hide After;
    hide Enabled;
    hide DirtyKeys;
    RunShape(states, steps, d);
    hide QuietRun;
    if i < j {
      CleanRun(states, steps, d, i, j - 1);
      QuietStep(states, steps, d, j - 1);
      CleanStep(states[j - 1], steps[j - 1], d);
    }
  }

  /** How many of the user's rows lie ahead of the device's cursor. */
  ghost function Ahead(s: State, d: DeviceId): nat
  {
    if d in s.nodes then |Above(s.world.db, s.world.user, s.nodes[d].cursor)| else 0
  }

  /** How many pages reach the device between two points of a run. */
  function Deliveries(steps: seq<Step>, d: DeviceId, i: nat, j: nat): nat
    requires i <= j <= |steps|
    decreases j
  {
    if i == j then 0 else Deliveries(steps, d, i, j - 1) + (if steps[j - 1] == Deliver(d) then 1 else 0)
  }

  /** How many rows pages of one size make up. */
  function Pulled(steps: seq<Step>, d: DeviceId, limit: nat, i: nat, j: nat): nat
    requires i <= j <= |steps|
    decreases j
  {
    if i == j then 0 else Pulled(steps, d, limit, i, j - 1) + (if steps[j - 1] == Deliver(d) then limit else 0)
  }

  lemma {:induction false} PulledByCount(steps: seq<Step>, d: DeviceId, limit: nat, i: nat, j: nat)
    requires i <= j <= |steps|
    ensures Pulled(steps, d, limit, i, j) == Deliveries(steps, d, i, j) * limit
    decreases j
  {
    if i < j {
      PulledByCount(steps, d, limit, i, j - 1);
      var m := Deliveries(steps, d, i, j - 1);
      assert (m + 1) * limit == m * limit + limit;
    }
  }

  /** The page on its way, if any, is the one the server would give now. */
  ghost predicate PageCurrent(s: State, d: DeviceId, limit: nat) {
    && d in s.nodes
    && (s.nodes[d].page.Some? ==> IsPage(s.world.db, s.world.user, s.nodes[d].cursor, limit, s.nodes[d].page.value))
  }

  lemma DeliverStep(s: State, d: DeviceId, limit: nat)
    requires Enabled(s, Deliver(d)) && PageCurrent(s, d, limit)
    ensures var s' := After(s, Deliver(d));
            PageCurrent(s', d, limit) && Ahead(s', d) == Max(0, Ahead(s, d) - limit)
  {
    PageShrinksRest(s.world.db, s.world.user, s.nodes[d].cursor, limit, s.nodes[d].page.value);
    hide IsPage;
    hide AfterPage;
  }

  ghost predicate SameRows(w: World, w': World) {
    w'.user == w.user && SameFor(w.user, w.db, w'.db)
  }

  ghost predicate PullingStep(s: State, step: Step, d: DeviceId, limit: nat) {
    && Enabled(s, step)
    && SameRows(s.world, After(s, step).world)
    && (step.Answered? && step.d == d ==> step.limit == limit)
  }

  /** Apart from a delivery and a loss the page on its way is what it was, or one
      just read. */
  lemma PageStays(s: State, step: Step, d: DeviceId)
    requires Enabled(s, step) && d in s.nodes && step != Deliver(d)
    ensures d in After(s, step).nodes && After(s, step).nodes[d].cursor == s.nodes[d].cursor
    ensures After(s, step).nodes[d].page == if step.Answered? && step.d == d then Some(step.p)
                                            else if step == LosePage(d) then None else s.nodes[d].page
    ensures step.Answered? ==> After(s, step).world == s.world
  {
    hide IsPage;
    hide AfterPage;
    hide AfterResult;
    hide Submit;
    hide Upserted;
  }

  lemma PullStep(s: State, step: Step, d: DeviceId, limit: nat)
    requires PullingStep(s, step, d, limit) && PageCurrent(s, d, limit)
    ensures PageCurrent(After(s, step), d, limit)
    ensures Ahead(After(s, step), d) == Max(0, Ahead(s, d) - (if step == Deliver(d) then limit else 0))
  {
    hide IsPage;
    hide Above;
    if step == Deliver(d) {
      DeliverStep(s, d, limit);
    } else {
      PageStays(s, step, d);
      var n, w, w' := s.nodes[d], s.world, After(s, step).world;
      SameAbove(w.user, w.db, w'.db, n.cursor);
      if n.page.Some? {
        SamePage(w.user, w.db, w'.db, n.cursor, limit, n.page.value);
      }
      hide After;
    }
  }

  /** The user's rows stay as they are on the server, and every page asked for is
      of one size. */
  ghost predicate StillPulling(states: seq<State>, steps: seq<Step>, d: DeviceId, limit: nat, i: nat, j: nat) {
    && Run(states, steps) && i <= j < |states|
    && (forall m :: i <= m < j ==> PullingStep(states[m], steps[m], d, limit))
  }

  lemma StillShorter(states: seq<State>, steps: seq<Step>, d: DeviceId, limit: nat, i: nat, j: nat)
    requires StillPulling(states, steps, d, limit, i, j) && i < j
    ensures StillPulling(states, steps, d, limit, i, j - 1)
    ensures PullingStep(states[j - 1], steps[j - 1], d, limit) && Enabled(states[j - 1], steps[j - 1])
    ensures states[j] == After(states[j - 1], steps[j - 1])
  {
    hide After;
    hide Enabled;
  }

  /** While the user's rows stand still on the server, each page takes exactly `limit` rows off
      what lies ahead, until nothing does. */
  lemma {:induction false} PullsCatchUp(states: seq<State>, steps: seq<Step>, d: DeviceId, limit: nat, i: nat, j: nat)
    requires i <= j < |states| == |steps| + 1
    requires StillPulling(states, steps, d, limit, i, j) && PageCurrent(states[i], d, limit)
    ensures PageCurrent(states[j], d, limit)
    ensures Ahead(states[j], d) == Max(0, Ahead(states[i], d) - Pulled(steps, d, limit, i, j))
    decreases j
  {
    hide StillPulling;
    hide PullingStep;
    hide PageCurrent;
    hide Ahead;
    hide After;
    hide Enabled;
    if i < j {
      StillShorter(states, steps, d, limit, i, j);
      PullsCatchUp(states, steps, d, limit, i, j - 1);
      PullStep(states[j - 1], steps[j - 1], d, limit);
    }
  }

  // ---------- Agreement ----------

  /** A clean local row with the server's version and fields. */
  predicate Shows(local: Local, row: Row) {
    !local.dirty && Matches(local, row)
  }

  /** The device shows exactly the user's rows as the server has them. */
  ghost predicate Agrees(s: State, d: DeviceId) {
    && d in s.nodes
    && (forall k :: k in s.nodes[d].rows <==> Mine(s.world, k))
    && (forall k :: k in s.nodes[d].rows ==> Shows(s.nodes[d].rows[k], s.world.db.rows[k]))
  }

  lemma CleanKeyAgrees(w: World, n: Node, k: Key)
    requires WorldOk(w) && NodeOk(w, n) && DirtyKeys(n.rows) == {} && Above(w.db, w.user, n.cursor) == {}
    ensures k in n.rows <==> Mine(w, k)
    ensures k in n.rows ==> Shows(n.rows[k], w.db.rows[k])
  {
    assert KeyOk(w, n, k) && WorldRow(w, k);
    assert k !in DirtyKeys(n.rows) && k !in Above(w.db, w.user, n.cursor);
    if k in n.rows {
      var v := Version(k, n.rows[k].version);
      assert SeenOk(w, n, v) && WorldVersion(w, v);
    }
  }

  lemma CleanAndCaughtUpAgrees(s: State, d: DeviceId)
    requires Inv(s) && d in s.nodes && DirtyKeys(s.nodes[d].rows) == {} && Ahead(s, d) == 0
    ensures Agrees(s, d)
  {
    assert NodeAt(s, d);
    var w, n := s.world, s.nodes[d];
    assert Above(w.db, w.user, n.cursor) == {};
    forall k
      ensures k in n.rows <==> Mine(w, k)
      ensures k in n.rows ==> Shows(n.rows[k], w.db.rows[k])
    {
      CleanKeyAgrees(w, n, k);
    }
  }

  /** A device that was to settle and has caught up agrees with the server if and
      only if no row of its bore an id of another account. */
  lemma SettledAgrees(states: seq<State>, steps: seq<Step>, d: DeviceId, a: nat, b: nat, c: nat, last: nat)
    requires TwoPushes(states, steps, d, a, b, c) && c <= last < |states| && Ahead(states[last], d) == 0
    ensures Agrees(states[last], d) <==> forall k :: OwnRow(states[a], d, k)
  {
    hide Inv;
    hide Quiet;
    hide OwnRow;
    hide Ahead;
    QuietRunInv(states, steps, d, last);
    if forall k :: OwnRow(states[a], d, k) {
      forall k
        ensures k !in DirtyKeys(states[c].nodes[d].rows)
      {
        TwoPushesSettle(states, steps, d, a, b, c, k);
      }
      assert DirtyKeys(states[c].nodes[d].rows) == {};
      CleanRun(states, steps, d, c, last);
      CleanAndCaughtUpAgrees(states[last], d);
    } else {
      var k :| !OwnRow(states[a], d, k);
      ForeignRun(states, steps, d, a, last, k);
      ForeignIsHeld(states[last], d, k);
    }
  }

  /** Convergence: two pushes, then pages of `limit` rows while no other device of
      the user pushes, as many as the rows ahead need. At the end the device holds exactly
      the server's rows, if and only if no row of its bore an id of another
      account; hence any two devices that got so far hold the same. */
  lemma Converges(states: seq<State>, steps: seq<Step>, d: DeviceId, a: nat, b: nat, c: nat, limit: nat)
    requires TwoPushes(states, steps, d, a, b, c) && Idle(states[c].nodes[d])
    requires StillPulling(states, steps, d, limit, c, |steps|)
    requires Deliveries(steps, d, c, |steps|) * limit >= Ahead(states[c], d)
    ensures Agrees(states[|states| - 1], d) <==> forall k :: OwnRow(states[a], d, k)
  {
    hide After;
    hide Enabled;
    hide IsPage;
    hide Run;
    hide StillPulling;
    hide Inv;
    hide Quiet;
    hide OwnRow;
    hide Ahead;
    hide Agrees;
    var last := |states| - 1;
    RunShape(states, steps, d);
    assert PageCurrent(states[c], d, limit);
    PullsCatchUp(states, steps, d, limit, c, last);
    PulledByCount(steps, d, limit, c, last);
    SettledAgrees(states, steps, d, a, b, c, last);
  }

  // ---------- While the user's other devices push ----------

  /** How many rows are left once the page on its way, if there is one, is applied. */
  ghost function Remaining(s: State, d: DeviceId): nat {
    if d !in s.nodes then 0
    else
      var n := s.nodes[d];
      |Above(s.world.db, s.world.user, if n.page.Some? then n.page.value.cursor else n.cursor)|
  }

  /** Pages are asked for in one size and none is lost. Anything may be pushed. */
  ghost predicate BusyStep(s: State, step: Step, d: DeviceId, limit: nat) {
    && Enabled(s, step) && d in s.nodes && step != LosePage(d)
    && (step.Answered? && step.d == d ==> step.limit == limit)
  }

  ghost predicate BusyPulling(states: seq<State>, steps: seq<Step>, d: DeviceId, limit: nat, i: nat, j: nat) {
    && Run(states, steps) && i <= j < |states|
    && (forall m :: i <= m < j ==> BusyStep(states[m], steps[m], d, limit))
  }

  /** How many of the user's rows the server takes between two points of a run. */
  ghost function Landings(states: seq<State>, i: nat, j: nat): nat
    requires i <= j < |states|
    decreases j
  {
    if i == j then 0
    else Landings(states, i, j - 1) + (if SameRows(states[j - 1].world, states[j].world) then 0 else 1)
  }

  /** How many pages the server gives the device. */
  function Asked(steps: seq<Step>, d: DeviceId, i: nat, j: nat): nat
    requires i <= j <= |steps|
    decreases j
  {
    if i == j then 0
    else Asked(steps, d, i, j - 1) + (if steps[j - 1].Answered? && steps[j - 1].d == d then 1 else 0)
  }

  lemma {:induction false} AskedInParts(steps: seq<Step>, d: DeviceId, i: nat, m: nat, j: nat)
    requires i <= m <= j <= |steps|
    ensures Asked(steps, d, i, j) == Asked(steps, d, i, m) + Asked(steps, d, m, j)
    decreases j
  {
    if m < j {
      AskedInParts(steps, d, i, m, j - 1);
    }
  }

  /** One row taken puts at most one row ahead. */
  lemma SubmitAdds(w: World, write: Write, now: Stamp, since: nat)
    ensures |Above(Submit(w, write, now).0.db, w.user, since)| <= |Above(w.db, w.user, since)| + 1
  {
    var above, above' := Above(w.db, w.user, since), Above(Submit(w, write, now).0.db, w.user, since);
    assert above' <= above + {write.key};
    CardinalityMonotone(above', above + {write.key});
  }

  lemma WorldAdds(s: State, step: Step, since: nat)
    requires Enabled(s, step)
    ensures var w, w' := s.world, After(s, step).world;
            |Above(w'.db, w'.user, since)| <= |Above(w.db, w.user, since)| + (if SameRows(w, w') then 0 else 1)
  {
    hide IsPage;
    hide Above;
    hide SameFor;
    var w, w' := s.world, After(s, step).world;
    SameForReflexive(w.user, w.db);
    if SameRows(w, w') {
      SameAbove(w.user, w.db, w'.db, since);
    } else {
      match step {
        case Handle(d, k, now) => SubmitAdds(w, ToWrite(k, s.nodes[d].queue[k]), now, since);
        case Late(stray, now) => SubmitAdds(w, stray.write, now, since);
        case Foreign(other, write, now) => OtherUpsert(w.db, other, write, now, w.user);
        case _ =>
      }
      hide Submit;
    }
  }

  lemma RemainingStep(s: State, step: Step, d: DeviceId, limit: nat)
    requires BusyStep(s, step, d, limit)
    ensures Remaining(After(s, step), d)
            <= if step.Answered? && step.d == d then Max(0, Remaining(s, d) - limit)
               else Remaining(s, d) + (if SameRows(s.world, After(s, step).world) then 0 else 1)
  {
    var w, n := s.world, s.nodes[d];
    if step == Deliver(d) {
      hide AfterPage;
      hide Above;
    } else {
      PageStays(s, step, d);
      if step.Answered? && step.d == d {
        PageShrinksRest(w.db, w.user, n.cursor, limit, step.p);
      } else {
        WorldAdds(s, step, if n.page.Some? then n.page.value.cursor else n.cursor);
      }
      hide After;
      hide IsPage;
      hide Above;
      hide SameRows;
    }
  }

  /** However pages and pushes interleave: what is left are at most the rows
      pushed meanwhile, or what was ahead and these less the rows of the pages. */
  lemma {:induction false} RemainingBound(states: seq<State>, steps: seq<Step>, d: DeviceId, limit: nat, i: nat, j: nat)
    requires i <= j < |states| == |steps| + 1 && BusyPulling(states, steps, d, limit, i, j)
    ensures var pushed := Landings(states, i, j);
            Remaining(states[j], d) <= Max(pushed, Remaining(states[i], d) + pushed - Asked(steps, d, i, j) * limit)
    decreases j
  {
    hide After;
    hide Enabled;
    hide Remaining;
    hide SameRows;
    if i < j {
      RunStep(states, steps, j - 1);
      assert BusyStep(states[j - 1], steps[j - 1], d, limit);
      RemainingBound(states, steps, d, limit, i, j - 1);
      RemainingStep(states[j - 1], steps[j - 1], d, limit);
      var m := Asked(steps, d, i, j - 1);
      assert (m + 1) * limit == m * limit + limit;
    }
  }

  lemma BusyParts(states: seq<State>, steps: seq<Step>, d: DeviceId, limit: nat, i: nat, m: nat, j: nat)
    requires BusyPulling(states, steps, d, limit, i, j) && i <= m <= j
    ensures BusyPulling(states, steps, d, limit, i, m) && BusyPulling(states, steps, d, limit, m, j)
  {
    hide BusyStep;
  }

  lemma RemainingIsAhead(s: State, d: DeviceId)
    requires d in s.nodes && s.nodes[d].page == None
    ensures Remaining(s, d) == Ahead(s, d)
  {
  }

  lemma PagesInParts(m: nat, n: nat, limit: nat)
    ensures (m + n) * limit == m * limit + n * limit
  {
  }

  /** Enough pages leave nothing ahead: pages for what was ahead and for what was
      pushed, of which those for what was pushed come after the last of it. */
  lemma NothingRemains(states: seq<State>, steps: seq<Step>, d: DeviceId, limit: nat, c: nat, e: nat, last: nat)
    requires c <= e <= last < |states| == |steps| + 1 && BusyPulling(states, steps, d, limit, c, last)
    requires Landings(states, e, last) == 0
    requires Asked(steps, d, c, last) * limit >= Remaining(states[c], d) + Landings(states, c, e)
    requires Asked(steps, d, e, last) * limit >= Landings(states, c, e)
    ensures Remaining(states[last], d) == 0
  {
    hide BusyPulling;
    hide Remaining;
    hide Landings;
    BusyParts(states, steps, d, limit, c, e, last);
    RemainingBound(states, steps, d, limit, c, e);
    RemainingBound(states, steps, d, limit, e, last);
    AskedInParts(steps, d, c, e, last);
    PagesInParts(Asked(steps, d, c, e), Asked(steps, d, e, last), limit);
    hide Asked;
    hide BusyStep;
  }

  /** Convergence while others push: if the user's other devices push so many rows
      during the pull, pages for what was ahead and for these rows are enough, as
      long as those for these rows come after the last of them. */
  lemma ConvergesDespitePushes(states: seq<State>, steps: seq<Step>, d: DeviceId, a: nat, b: nat, c: nat, e: nat,
                               last: nat, limit: nat)
    requires TwoPushes(states, steps, d, a, b, c) && Idle(states[c].nodes[d])
    requires c <= e <= last < |states| && states[last].nodes[d].page == None
    requires BusyPulling(states, steps, d, limit, c, last) && Landings(states, e, last) == 0
    requires Asked(steps, d, c, last) * limit >= Ahead(states[c], d) + Landings(states, c, e)
    requires Asked(steps, d, e, last) * limit >= Landings(states, c, e)
    ensures Agrees(states[last], d) <==> forall k :: OwnRow(states[a], d, k)
  {
    hide BusyPulling;
    hide Remaining;
    hide Landings;
    hide Asked;
    hide Ahead;
    hide OwnRow;
    RunShape(states, steps, d);
    QuietRunInv(states, steps, d, last);
    hide Inv;
    hide QuietRun;
    RemainingIsAhead(states[c], d);
    RemainingIsAhead(states[last], d);
    NothingRemains(states, steps, d, limit, c, e, last);
    SettledAgrees(states, steps, d, a, b, c, last);
  }

  // ---------- Whole pulls ----------

  ghost predicate LastPage(s: State, step: Step, d: DeviceId) {
    step == Deliver(d) && d in s.nodes && s.nodes[d].page.Some? && !s.nodes[d].page.value.more
  }

  /** A pull that got through: twenty pages, or fewer of which one said that
      there were no more. */
  ghost predicate PullRun(states: seq<State>, steps: seq<Step>, d: DeviceId, i: nat, j: nat) {
    && StillPulling(states, steps, d, PAGE, i, j)
    && (Deliveries(steps, d, i, j) >= MAX_PAGES || exists m :: i <= m < j && LastPage(states[m], steps[m], d))
  }

  lemma StillPart(states: seq<State>, steps: seq<Step>, d: DeviceId, limit: nat, i: nat, m: nat, n: nat, j: nat)
    requires StillPulling(states, steps, d, limit, i, j) && i <= m <= n <= j
    ensures StillPulling(states, steps, d, limit, m, n)
  {
    hide PullingStep;
  }

  lemma LastPageEnds(s: State, d: DeviceId, limit: nat)
    requires LastPage(s, Deliver(d), d) && Enabled(s, Deliver(d)) && PageCurrent(s, d, limit)
    ensures Ahead(After(s, Deliver(d)), d) == 0
  {
    PageShrinksRest(s.world.db, s.world.user, s.nodes[d].cursor, limit, s.nodes[d].page.value);
    hide IsPage;
    hide AfterPage;
  }

  lemma EndsAt(states: seq<State>, steps: seq<Step>, d: DeviceId, i: nat, m: nat)
    requires i <= m && m + 1 < |states| == |steps| + 1
    requires StillPulling(states, steps, d, PAGE, i, m + 1) && PageCurrent(states[i], d, PAGE)
    requires LastPage(states[m], steps[m], d)
    ensures Ahead(states[m + 1], d) == 0
  {
    hide After;
    hide Enabled;
    hide IsPage;
    hide Ahead;
    hide PageCurrent;
    StillShorter(states, steps, d, PAGE, i, m + 1);
    PullsCatchUp(states, steps, d, PAGE, i, m);
    assert steps[m] == Deliver(d);
    LastPageEnds(states[m], d, PAGE);
  }

  /** A pull that got through leaves nothing ahead, or two thousand rows less. */
  lemma PullRunShrinks(states: seq<State>, steps: seq<Step>, d: DeviceId, i: nat, j: nat)
    requires i <= j < |states| == |steps| + 1
    requires PullRun(states, steps, d, i, j) && PageCurrent(states[i], d, PAGE)
    ensures PageCurrent(states[j], d, PAGE)
    ensures Ahead(states[j], d) <= Max(0, Ahead(states[i], d) - PAGE * MAX_PAGES)
  {
    hide After;
    hide Enabled;
    hide IsPage;
    hide Ahead;
    hide PullingStep;
    hide PageCurrent;
    hide LastPage;
    PullsCatchUp(states, steps, d, PAGE, i, j);
    PulledByCount(steps, d, PAGE, i, j);
    if m :| i <= m < j && LastPage(states[m], steps[m], d) {
      StillPart(states, steps, d, PAGE, i, i, m + 1, j);
      StillPart(states, steps, d, PAGE, i, m + 1, j, j);
      EndsAt(states, steps, d, i, m);
      hide StillPulling;
      PullsCatchUp(states, steps, d, PAGE, i, m + 1);
      PullsCatchUp(states, steps, d, PAGE, m + 1, j);
    }
  }

  /** Pulls one after another, `marks` telling where each begins and the last ends. */
  ghost predicate PullRuns(states: seq<State>, steps: seq<Step>, d: DeviceId, marks: seq<nat>) {
    && |states| == |steps| + 1 && marks != []
    && (forall i :: 0 <= i < |marks| ==> marks[i] < |states|)
    && (forall i, j :: 0 <= i && j == i + 1 && j < |marks| ==>
          marks[i] <= marks[j] && PullRun(states, steps, d, marks[i], marks[j]))
  }

  lemma {:induction false} PullRunsShrink(states: seq<State>, steps: seq<Step>, d: DeviceId, marks: seq<nat>, n: nat)
    requires PullRuns(states, steps, d, marks) && n < |marks| && PageCurrent(states[marks[0]], d, PAGE)
    ensures PageCurrent(states[marks[n]], d, PAGE)
    ensures Ahead(states[marks[n]], d) <= Max(0, Ahead(states[marks[0]], d) - PAGE * MAX_PAGES * n)
  {
    hide PullRun;
    hide PageCurrent;
    hide Ahead;
    if n > 0 {
      PullRunsShrink(states, steps, d, marks, n - 1);
      PullRunShrinks(states, steps, d, marks[n - 1], marks[n]);
    }
  }

  lemma {:induction false} MarksGrow(states: seq<State>, steps: seq<Step>, d: DeviceId, marks: seq<nat>, n: nat)
    requires PullRuns(states, steps, d, marks) && n < |marks|
    ensures marks[0] <= marks[n]
  {
    hide PullRun;
    if n > 0 {
      MarksGrow(states, steps, d, marks, n - 1);
    }
  }

  /** Convergence by whole cycles: two pushes, then one pull for every two
      thousand rows ahead, the last one possibly short. */
  lemma ConvergesInPulls(states: seq<State>, steps: seq<Step>, d: DeviceId, a: nat, b: nat, marks: seq<nat>)
    requires PullRuns(states, steps, d, marks) && TwoPushes(states, steps, d, a, b, marks[0])
    requires Idle(states[marks[0]].nodes[d])
    requires |marks| - 1 == (Ahead(states[marks[0]], d) + PAGE * MAX_PAGES - 1) / (PAGE * MAX_PAGES)
    ensures Agrees(states[marks[|marks| - 1]], d) <==> forall k :: OwnRow(states[a], d, k)
  {
    hide After;
    hide Enabled;
    hide IsPage;
    hide Run;
    hide PullRun;
    hide Inv;
    hide Quiet;
    hide OwnRow;
    hide Ahead;
    hide Agrees;
    var c, n := marks[0], |marks| - 1;
    MarksGrow(states, steps, d, marks, n);
    assert PageCurrent(states[c], d, PAGE);
    PullRunsShrink(states, steps, d, marks, n);
    SettledAgrees(states, steps, d, a, b, c, marks[n]);
  }

  /** Two devices of the user that have settled and caught up hold the same rows,
      unless one of them bore an id of another account. */
  lemma ReplicasAgree(states: seq<State>, steps: seq<Step>, d: DeviceId, a: nat, b: nat, c: nat, e: DeviceId, a': nat,
                      b': nat, c': nat, last: nat, k: Key)
    requires TwoPushes(states, steps, d, a, b, c) && TwoPushes(states, steps, e, a', b', c')
    requires c <= last && c' <= last < |states| && Ahead(states[last], d) == 0 == Ahead(states[last], e)
    requires forall i :: OwnRow(states[a], d, i) && OwnRow(states[a'], e, i)
    ensures var rows, others := states[last].nodes[d].rows, states[last].nodes[e].rows;
            && (k in rows <==> k in others)
            && (k in rows ==> rows[k].fields == others[k].fields && rows[k].version == others[k].version)
  {
    hide TwoPushes;
    hide OwnRow;
    hide Ahead;
    SettledAgrees(states, steps, d, a, b, c, last);
    SettledAgrees(states, steps, e, a', b', c', last);
  }
}
