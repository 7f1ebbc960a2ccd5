/** Pages over a whole run: what one delivers no later one delivers again, and a
    last page leaves nothing behind. */
module Delivery {
  import opened Common
  import opened Rows
  import opened Paging
  import opened Device
  import opened Protocol
  import opened Invariant
  import opened Safety

  ghost predicate Delivers(s: State, step: Step, d: DeviceId) {
    step == Deliver(d) && d in s.nodes && s.nodes[d].page.Some?
  }

  lemma PageSlot(s: State, step: Step, d: DeviceId)
    requires Enabled(s, step) && d in s.nodes && After(s, step).nodes[d].page.Some?
    ensures After(s, step).nodes[d].cursor == s.nodes[d].cursor
    ensures After(s, step).nodes[d].page == (if step.Answered? && step.d == d then Some(step.p) else s.nodes[d].page)
  {
    hide IsPage;
    hide AfterResult;
    hide AfterPage;
    hide Submit;
  }

  /** The step at which the page now on its way was read from the server; the
      device's slot has held it ever since. */
  lemma {:induction false} PageWasAsked(states: seq<State>, steps: seq<Step>, i: nat, j: nat, d: DeviceId)
    returns (q: nat)
    requires Run(states, steps) && i <= j < |states|
    requires d in states[i].nodes && states[i].nodes[d].page == None
    requires d in states[j].nodes && states[j].nodes[d].page.Some?
    ensures i <= q < j && steps[q].Answered? && steps[q].d == d && Some(steps[q].p) == states[j].nodes[d].page
    ensures d in states[q].nodes && states[q].nodes[d].cursor == states[j].nodes[d].cursor
    decreases j
  {
    hide After;
    hide Enabled;
    assert i < j;
    var s, step := states[j - 1], steps[j - 1];
    RunStep(states, steps, j - 1);
    SameDevices(s, step);
    PageSlot(s, step, d);
    if step.Answered? && step.d == d {
      q := j - 1;
    } else {
      q := PageWasAsked(states, steps, i, j - 1, d);
    }
  }

  /** A delivery moves the cursor to the end of its page, strictly forward when
      the page holds anything, and its rows lie exactly in between. */
  lemma DeliveryMovesCursor(states: seq<State>, steps: seq<Step>, i: nat, d: DeviceId)
    requires Run(states, steps) && Init(states[0]) && i < |steps| && Delivers(states[i], steps[i], d)
    ensures var n, p := states[i].nodes[d], states[i].nodes[d].page.value;
            && d in states[i + 1].nodes && states[i + 1].nodes[d].cursor == p.cursor
            && states[i + 1].nodes[d].page == None
            && (forall k :: k in p.rows ==> n.cursor < p.rows[k].seqNo <= p.cursor)
            && (p.rows != map[] ==> n.cursor < p.cursor)
  {
    RunKeepsInv(states, steps, i);
    var s := states[i];
    assert NodeAt(s, d);
    var p := s.nodes[d].page.value;
    forall k | k in p.rows
      ensures s.nodes[d].cursor < p.rows[k].seqNo <= p.cursor
    {
      assert KeyOk(s.world, s.nodes[d], k);
    }
    if p.rows != map[] {
      var k :| k in p.rows;
    }
  }

  lemma PageHoldsRow(s: State, step: Step, k: Key)
    requires Enabled(s, step) && step.Answered? && k in step.p.rows
    ensures k in s.world.db.rows && step.p.rows[k] == s.world.db.rows[k]
  {
  }

  lemma InPage(s: State, d: DeviceId, k: Key)
    requires Inv(s) && d in s.nodes && s.nodes[d].page.Some? && k in s.nodes[d].page.value.rows
    ensures var p := s.nodes[d].page.value;
            Received(s.world, k, p.rows[k], p.cursor) && p.cursor <= s.world.db.Last(s.world.user)
  {
    assert NodeAt(s, d) && KeyOk(s.world, s.nodes[d], k);
  }

  /** No version of a row is delivered twice to a device: a row that comes in two
      of its pages has a higher version in the later one. Pushes, conflicts and
      lost pages in between change nothing. */
  lemma DeliveredOnce(states: seq<State>, steps: seq<Step>, i: nat, j: nat, d: DeviceId, k: Key)
    requires Run(states, steps) && Init(states[0]) && i < j < |steps|
    requires Delivers(states[i], steps[i], d) && Delivers(states[j], steps[j], d)
    requires k in states[i].nodes[d].page.value.rows && k in states[j].nodes[d].page.value.rows
    ensures states[i].nodes[d].page.value.rows[k].version < states[j].nodes[d].page.value.rows[k].version
  {
    hide After;
    hide Enabled;
    hide Init;
    hide Inv;
    hide Later;
    RunStep(states, steps, i);
    DeliveryMovesCursor(states, steps, i, d);
    DeliveryMovesCursor(states, steps, j, d);
    NeverBackwards(states, steps, i + 1, j, d);
    var q := PageWasAsked(states, steps, i + 1, j, d);
    RunLater(states, steps, i, q);
    RunKeepsInv(states, steps, i);
    RunStep(states, steps, q);
    PageHoldsRow(states[q], steps[q], k);
    InPage(states[i], d, k);
    var r, r' := states[i].nodes[d].page.value.rows[k], states[j].nodes[d].page.value.rows[k];
    assert r.seqNo < r'.seqNo;
    LaterKeepsReceived(states[i].world, states[q].world, k, r, states[i].nodes[d].page.value.cursor);
  }

  lemma {:induction false} DevicesStay(states: seq<State>, steps: seq<Step>, j: nat)
    requires Run(states, steps) && j < |states|
    ensures states[j].nodes.Keys == states[0].nodes.Keys
  {
    if j > 0 {
      DevicesStay(states, steps, j - 1);
      SameDevices(states[j - 1], steps[j - 1]);
    }
  }

  /** A page without has_more ends the stream: once it is applied, every row the
      user had on the server when it was read is on the device, dirty or as the
      server has it, unless the server's row has changed since. */
  lemma LastPageLeavesNothing(states: seq<State>, steps: seq<Step>, j: nat, d: DeviceId) returns (q: nat)
    requires Run(states, steps) && Init(states[0]) && j < |steps|
    requires Delivers(states[j], steps[j], d) && !states[j].nodes[d].page.value.more
    ensures q < j && steps[q].Answered? && steps[q].d == d && steps[q].p == states[j].nodes[d].page.value
    ensures d in states[j + 1].nodes
    ensures var was, now, held := states[q].world, states[j + 1].world, states[j + 1].nodes[d].rows;
            forall k :: Mine(was, k) && Mine(now, k) && now.db.rows[k] == was.db.rows[k] ==>
              && k in held
              && (held[k].dirty || Matches(held[k], was.db.rows[k]))
  {
    DevicesStay(states, steps, j);
    q := PageWasAsked(states, steps, 0, j, d);
    DeliveryMovesCursor(states, steps, j, d);
    RunLater(states, steps, q, j + 1);
    var was, now, held := states[q].world, states[j + 1].world, states[j + 1].nodes[d].rows;
    assert Enabled(states[q], steps[q]);
    PageShrinksRest(was.db, was.user, states[q].nodes[d].cursor, steps[q].limit, steps[q].p);
    forall k | Mine(was, k) && Mine(now, k) && now.db.rows[k] == was.db.rows[k]
      ensures k in held
      ensures held[k].dirty || Matches(held[k], was.db.rows[k])
    {
      assert k !in Above(was.db, was.user, steps[q].p.cursor);
      CursorSound(states, steps, j + 1, d, k);
    }
  }
}
