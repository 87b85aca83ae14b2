/** What a caller of the concurrent pool may conclude about the capabilities of the agent it gets. */
module PoolCapabilities {
  import opened Basics
  import opened Admission
  import opened Pool
  import opened PoolInvariant
  import opened PoolCapacity
  import opened PoolKill
  import opened PoolWitness
  import opened PoolLive

  /** Every stored task records the capabilities of the call that built it. */
  ghost predicate CapsOfBuilder(s: State) {
    forall i :: 0 <= i < |s.cells| && s.cells[i].value.Some? ==>
      && HeldBy(s, i, s.cells[i].value.value.agent)
      && s.cells[i].value.value.caps == s.calls[s.builders[s.cells[i].value.value.agent]].want
  }

  lemma CapsStep(s: State, step: Step)
    requires Inv(s) && CapsOfBuilder(s) && Enabled(s, step)
    ensures CapsOfBuilder(Apply(s, step))
  {
    hide Apply, Enabled, Locks, Queues, Stops, Count;
    StepCells(s, step);
    StepCalls(s, step);
    var r := Apply(s, step);
    forall i | 0 <= i < |r.cells| && r.cells[i].value.Some?
      ensures HeldBy(r, i, r.cells[i].value.value.agent)
      ensures r.cells[i].value.value.caps == r.calls[r.builders[r.cells[i].value.value.agent]].want
    {
      if i < |s.cells| && r.cells[i].value == s.cells[i].value {
        var b := s.builders[s.cells[i].value.value.agent];
        if Moves(step, b) { StepMoves(s, step, b); }
        assert r.calls[b] == s.calls[b];
      } else {
        PublishStores(s, step.c);
      }
    }
  }

  lemma PublishStores(s: State, c: CallId)
    requires Inv(s) && Enabled(s, Publish(c))
    ensures var r := Apply(s, Publish(c));
      var i := s.calls[c].slot;
      && r.cells[i].value == Some(Managed(s.calls[c].agent, s.calls[c].want))
      && HeldBy(r, i, s.calls[c].agent) && r.builders[s.calls[c].agent] == c && r.calls[c].want == s.calls[c].want
  {
    hide Locks, Queues, Stops, Count;
  }

  lemma {:induction false} CapsOverRuns(steps: seq<Step>)
    requires Valid(INIT, steps)
    ensures CapsOfBuilder(Run(INIT, steps))
  {
    InitInv();
    hide Apply, Enabled, Locks, Queues, Provenance, Stops, Count;
    if steps != [] {
      var n := |steps| - 1;
      CapsOverRuns(steps[..n]);
      ReachableInv(INIT, steps[..n]);
      CapsStep(Run(INIT, steps[..n]), steps[n]);
    }
  }

  /** A call that returned got the agent of its slot, with the capabilities of the request that built it. */
  lemma ReturnedCapabilities(steps: seq<Step>, c: CallId)
    requires Valid(INIT, steps) && c < |Run(INIT, steps).calls| && Run(INIT, steps).calls[c].Returned?
    ensures var s := Run(INIT, steps);
      var call := s.calls[c];
      && call.slot < |s.cells| && s.cells[call.slot].value.Some?
      && var managed := s.cells[call.slot].value.value;
         && managed.agent == call.agent && HeldBy(s, call.slot, call.agent)
         && managed.caps == s.calls[s.builders[call.agent]].want
  {
    hide Apply, Enabled, Locks, Queues, Stops, Count;
    InitInv();
    ReachableInv(INIT, steps);
    CapsOverRuns(steps);
  }

  const NEWER: RuntimeCapabilities := RuntimeCapabilities(Some(3))

  const WAITING: State :=
    State(map["a" := 0], [Cell("a", None, Some(0), [1])],
          [Building("a", NO_CAPS, 0), Queued("a", NEWER, 0)], [], [], 1, 6, [])

  const SERVED: State :=
    State(map["a" := 0], [Cell("a", Some(Managed(0, NO_CAPS)), None, [])],
          [Returned("a", NO_CAPS, 0, 0), Returned("a", NEWER, 0, 0)], [INFO], [0], 0, 6, [])

  lemma JoinQueue(s: State)
    requires s == Started(INIT, "a", NO_CAPS) && WellFormed(s)
    ensures Valid(s, [Start("a", NEWER), Check(1), Obtain(1)]) && WellFormed(WAITING)
    ensures var t := Run(s, [Start("a", NEWER), Check(1), Obtain(1)]);
      Valid(t, [Enter(1)]) && Run(t, [Enter(1)]) == WAITING
  {
    assert s.cells == [Cell("a", None, Some(0), [])] && s.tasks == map["a" := 0] && [] + [1] == [1];
    var s1 := Apply(s, Start("a", NEWER));
    assert s1.calls == [Building("a", NO_CAPS, 0), Arrived("a", NEWER)];
    var s2 := Apply(s1, Check(1));
    assert s2.calls == [Building("a", NO_CAPS, 0), Ready("a", NEWER)];
    var s3 := Apply(s2, Obtain(1));
    assert s3.calls == [Building("a", NO_CAPS, 0), Holding("a", NEWER, 0)];
    var s4 := Apply(s3, Enter(1));
    assert s4.calls == WAITING.calls && s4.cells == WAITING.cells;
    assert Enabled(s3, Enter(1)) && s4 == WAITING;
    hide Apply, Enabled;
    ThreeSteps(s, Start("a", NEWER), Check(1), Obtain(1));
    RunStep(s3, [], Enter(1));
    assert [] + [Enter(1)] == [Enter(1)];
  }

  const STORED: State :=
    State(map["a" := 0], [Cell("a", Some(Managed(0, NO_CAPS)), None, [1])],
          [Returned("a", NO_CAPS, 0, 0), Queued("a", NEWER, 0)], [INFO], [0], 0, 6, [])

  lemma ServeFirst()
    ensures WellFormed(WAITING) && Valid(WAITING, [FactoryOk(0, INFO), Release(0), Publish(0)])
    ensures Run(WAITING, [FactoryOk(0, INFO), Release(0), Publish(0)]) == STORED
  {
    var s1 := Apply(WAITING, FactoryOk(0, INFO));
    assert s1.calls == [Built("a", NO_CAPS, 0, 0), Queued("a", NEWER, 0)];
    var s2 := Apply(s1, Release(0));
    assert s2.calls == [Released("a", NO_CAPS, 0, 0), Queued("a", NEWER, 0)];
    var s3 := Apply(s2, Publish(0));
    assert s3.calls == STORED.calls && s3.cells == STORED.cells;
    assert s3 == STORED;
    hide Apply, Enabled;
    ThreeSteps(WAITING, FactoryOk(0, INFO), Release(0), Publish(0));
  }

  lemma ServeSecond()
    ensures WellFormed(STORED) && Valid(STORED, [Wake(1)]) && Run(STORED, [Wake(1)]) == SERVED
  {
    var s := Apply(STORED, Wake(1));
    assert Without([1], 1) == [];
    assert s.calls == SERVED.calls && s.cells == SERVED.cells;
    RunStep(STORED, [], Wake(1));
    assert [] + [Wake(1)] == [Wake(1)];
  }

  /** A run in which a caller gets Ok with an agent that lacks the capability it asked for. */
  lemma OkWithoutCapability() returns (steps: seq<Step>)
    ensures Valid(INIT, steps) && Run(INIT, steps) == SERVED
    ensures SERVED.calls[1] == Returned("a", NEWER, 0, 0) && !SERVED.cells[0].value.value.caps.Satisfies(NEWER)
  {
    hide Apply, Enabled, Locks, Queues, Provenance, Stops, Count;
    InitInv();
    InitTotal();
    var order := FreshBuild(INIT, "a", NO_CAPS);
    var build := BuildSteps(0, "a", NO_CAPS, order);
    JoinQueue(Started(INIT, "a", NO_CAPS));
    ServeFirst();
    ServeSecond();
    RunConcat(INIT, build, [Start("a", NEWER), Check(1), Obtain(1)]);
    RunConcat(INIT, build + [Start("a", NEWER), Check(1), Obtain(1)], [Enter(1)]);
    var joined := build + [Start("a", NEWER), Check(1), Obtain(1)] + [Enter(1)];
    RunConcat(INIT, joined, [FactoryOk(0, INFO), Release(0), Publish(0)]);
    RunConcat(INIT, joined + [FactoryOk(0, INFO), Release(0), Publish(0)], [Wake(1)]);
    steps := joined + [FactoryOk(0, INFO), Release(0), Publish(0)] + [Wake(1)];
  }
}
