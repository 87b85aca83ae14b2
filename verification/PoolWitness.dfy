/** Runs that show which promises the pool does not keep, and that the proved bounds are attained. */
module PoolWitness {
  import opened Basics
  import opened Admission
  import opened Pool
  import opened PoolInvariant
  import opened PoolCapacity
  import opened PoolKill

  /** The state after a call for a fresh conversation got as far as its factory. */
  function Started(s: State, id: ConvId, want: RuntimeCapabilities): State {
    s.(calls := s.calls + [Building(id, want, |s.cells|)],
       cells := s.cells + [Cell(id, None, Some(|s.calls|), [])],
       tasks := s.tasks[id := |s.cells|],
       building := s.building + 1)
  }

  function BuildSteps(c: CallId, id: ConvId, want: RuntimeCapabilities, order: seq<ConvId>): seq<Step> {
    [Start(id, want), Check(c), Obtain(c), Enter(c), Acquire(c), Admit(c, None, order, {})]
  }

  lemma FreshHeadSteps(s: State, id: ConvId, want: RuntimeCapabilities)
    requires WellFormed(s) && id !in s.tasks
    ensures var c := |s.calls|;
      var s1, s2 := s.(calls := s.calls + [Arrived(id, want)]), s.(calls := s.calls + [Ready(id, want)]);
      && WellFormed(s1) && WellFormed(s2)
      && Enabled(s, Start(id, want)) && Apply(s, Start(id, want)) == s1
      && Enabled(s1, Check(c)) && Apply(s1, Check(c)) == s2
      && Enabled(s2, Obtain(c))
      && Apply(s2, Obtain(c))
         == s.(calls := s.calls + [Holding(id, want, |s.cells|)], cells := s.cells + [Cell(id, None, None, [])],
               tasks := s.tasks[id := |s.cells|])
  {
    var c := |s.calls|;
    assert (s.calls + [Arrived(id, want)])[c := Ready(id, want)] == s.calls + [Ready(id, want)];
    assert (s.calls + [Ready(id, want)])[c := Holding(id, want, |s.cells|)] == s.calls + [Holding(id, want, |s.cells|)];
  }

  lemma FreshHead(s: State, id: ConvId, want: RuntimeCapabilities)
    requires Inv(s) && id !in s.tasks
    ensures var c := |s.calls|;
      && Valid(s, [Start(id, want), Check(c), Obtain(c)])
      && Run(s, [Start(id, want), Check(c), Obtain(c)])
         == s.(calls := s.calls + [Holding(id, want, |s.cells|)], cells := s.cells + [Cell(id, None, None, [])],
               tasks := s.tasks[id := |s.cells|])
  {
    hide Locks, Queues, Provenance, Stops, Count, Apply, Enabled;
    FreshHeadSteps(s, id, want);
    ThreeSteps(s, Start(id, want), Check(|s.calls|), Obtain(|s.calls|));
  }

  lemma FreshTailSteps(s: State, c: CallId)
    requires WellFormed(s) && c < |s.calls| && s.calls[c].Holding?
    requires s.cells[s.calls[c].slot] == Cell(s.calls[c].id, None, None, [])
    ensures Enabled(s, Enter(c)) && Enabled(Apply(s, Enter(c)), Acquire(c))
    ensures var call := s.calls[c];
      Apply(Apply(s, Enter(c)), Acquire(c))
      == s.(calls := s.calls[c := Initialising(call.id, call.want, call.slot)],
            cells := s.cells[call.slot := Cell(call.id, None, Some(c), [])])
    ensures ViewOf(Apply(Apply(s, Enter(c)), Acquire(c))) == ViewOf(s)
  {
    var call := s.calls[c];
    var s1 := Apply(s, Enter(c));
    assert s1.cells[call.slot].waiters == [c] && Without([c], c) == [];
    var s2 := Apply(s1, Acquire(c));
    assert forall i :: 0 <= i < |s.cells| ==> s2.cells[i].value == s.cells[i].value;
    assert s1.calls[c := Initialising(call.id, call.want, call.slot)]
        == s.calls[c := Initialising(call.id, call.want, call.slot)];
  }

  lemma AdmitBelowLimit(s: State, c: CallId, order: seq<ConvId>)
    requires WellFormed(s) && c < |s.calls| && s.calls[c].Initialising? && Enumerates(order, ViewOf(s))
    requires Active(s) + s.building < s.limit
    ensures Enabled(s, Admit(c, None, order, {}))
    ensures var call := s.calls[c];
      Apply(s, Admit(c, None, order, {}))
      == s.(calls := s.calls[c := Building(call.id, call.want, call.slot)], building := s.building + 1)
  {
    assert DecisionOf(s, Admit(c, None, order, {})) == Decision([], true);
    hide Decide, Enumerates, WellFormed;
  }

  lemma FreshTail(s: State, c: CallId, order: seq<ConvId>)
    requires Inv(s) && c < |s.calls| && s.calls[c].Holding?
    requires s.cells[s.calls[c].slot] == Cell(s.calls[c].id, None, None, []) && Enumerates(order, ViewOf(s))
    requires Active(s) + s.building < s.limit
    ensures var call := s.calls[c];
      && Valid(s, [Enter(c), Acquire(c), Admit(c, None, order, {})])
      && Run(s, [Enter(c), Acquire(c), Admit(c, None, order, {})])
         == s.(calls := s.calls[c := Building(call.id, call.want, call.slot)],
               cells := s.cells[call.slot := Cell(call.id, None, Some(c), [])], building := s.building + 1)
  {
    var call := s.calls[c];
    hide Locks, Queues, Provenance, Stops, Count, Apply, Enabled, Enumerates, Valid, Run, ViewOf, ActiveIds, WellFormed;
    FreshTailSteps(s, c);
    var s2 := Apply(Apply(s, Enter(c)), Acquire(c));
    AdmitBelowLimit(s2, c, order);
    assert s2.calls[c := Building(call.id, call.want, call.slot)] == s.calls[c := Building(call.id, call.want, call.slot)];
    ThreeSteps(s, Enter(c), Acquire(c), Admit(c, None, order, {}));
  }

  /** Below the limit, a call for a fresh conversation can run undisturbed up to its factory. */
  lemma FreshBuild(s: State, id: ConvId, want: RuntimeCapabilities) returns (order: seq<ConvId>)
    requires Inv(s) && id !in s.tasks && Active(s) + s.building < s.limit
    ensures Valid(s, BuildSteps(|s.calls|, id, want, order))
    ensures Run(s, BuildSteps(|s.calls|, id, want, order)) == Started(s, id, want)
  {
    hide Apply, Enabled, Locks, Queues, Provenance, Stops, Count;
    var c := |s.calls|;
    var head := [Start(id, want), Check(c), Obtain(c)];
    FreshHead(s, id, want);
    ReachableInv(s, head);
    var t := Run(s, head);
    order := OrderExists(t.tasks.Keys);
    assert ActiveIds(ViewOf(t)) == ActiveIds(ViewOf(s));
    FreshTail(t, c, order);
    var tail := [Enter(c), Acquire(c), Admit(c, None, order, {})];
    RunConcat(s, head, tail);
    assert head + tail == BuildSteps(c, id, want, order);
  }

  /** Runs that set the limit to one first and never change it. */
  predicate LimitOne(steps: seq<Step>) {
    steps != [] && steps[0] == Configure(1) && forall j :: 1 <= j < |steps| ==> !steps[j].Configure?
  }

  lemma {:induction false} LimitOnePeak(steps: seq<Step>)
    requires Valid(INIT, steps) && LimitOne(steps)
    ensures Run(INIT, steps).limit == 1 && PeakLimit(INIT, steps) <= 1
  {
    hide Apply, Enabled, Locks, Queues, Provenance, Stops, Count;
    var n := |steps| - 1;
    ConfigureOne();
    if n == 0 {
      assert steps == [Configure(1)];
    } else {
      LimitOnePeak(steps[..n]);
      LimitKept(Run(INIT, steps[..n]), steps[n]);
    }
  }

  lemma ConfigureOne()
    ensures Inv(INIT) && Valid(INIT, [Configure(1)])
    ensures Run(INIT, [Configure(1)]) == INIT.(limit := 1) && PeakLimit(INIT, [Configure(1)]) == 0
  {
    InitInv();
    hide Locks, Queues, Provenance, Stops, Count, Inv;
    assert [Configure(1)][..|[Configure(1)]| - 1] == [];
    assert Valid(INIT, []) && Run(INIT, []) == INIT;
  }

  lemma LimitKept(s: State, step: Step)
    requires WellFormed(s) && Enabled(s, step) && !step.Configure?
    ensures Apply(s, step).limit == s.limit
  {
    hide Decide, Enumerates, WellFormed, RemoveAll;
  }

  function Name(k: nat): ConvId { seq(k, _ => 'x') }

  /** From the window on, the call has left the counter and its agent is not yet in the map. */
  lemma ParkOne(s: State, id: ConvId, want: RuntimeCapabilities) returns (more: seq<Step>)
    requires Inv(s) && id !in s.tasks && Active(s) + s.building < s.limit
    ensures Valid(s, more) && forall j :: 0 <= j < |more| ==> !more[j].Configure?
    ensures var r := Run(s, more);
      && r.building == s.building && Active(r) == Active(s) && Window(r) == Window(s) + 1
      && r.tasks.Keys == s.tasks.Keys + {id}
  {
    hide Apply, Enabled, Locks, Queues, Provenance, Stops, Count;
    var order := FreshBuild(s, id, want);
    var c := |s.calls|;
    var head := BuildSteps(c, id, want, order);
    ReachableInv(s, head);
    var t := Started(s, id, want);
    ParkTail(t, c);
    assert ActiveIds(ViewOf(t)) == ActiveIds(ViewOf(s));
    var tail := [FactoryOk(c, AgentInfo(Acp, None, 0)), Release(c)];
    RunConcat(s, head, tail);
    more := head + tail;
    WindowOfStarted(s, id, want);
  }

  lemma WindowOfStarted(s: State, id: ConvId, want: RuntimeCapabilities)
    ensures Window(Started(s, id, want)) == Window(s)
  {
    CountAppend(s.calls, Building(id, want, |s.cells|), InWindow);
  }

  lemma ParkTail(t: State, c: CallId)
    requires Inv(t) && c < |t.calls| && t.calls[c].Building?
    ensures var tail := [FactoryOk(c, AgentInfo(Acp, None, 0)), Release(c)];
      && Valid(t, tail)
      && var r := Run(t, tail);
         r.building == t.building - 1 && Active(r) == Active(t) && Window(r) == Window(t) + 1 && r.tasks == t.tasks
  {
    hide Locks, Queues, Provenance, Stops, Count, Apply, Enabled;
    var a, b := FactoryOk(c, AgentInfo(Acp, None, 0)), Release(c);
    ParkTailSteps(t, c);
    var t1 := Apply(t, a);
    WindowChange(t, a);
    WindowChange(t1, b);
    RunStep(t, [], a);
    RunStep(t, [a], b);
    assert [] + [a] == [a] && [a] + [b] == [a, b];
  }

  lemma ParkTailSteps(t: State, c: CallId)
    requires WellFormed(t) && c < |t.calls| && t.calls[c].Building?
    ensures var a, b := FactoryOk(c, AgentInfo(Acp, None, 0)), Release(c);
      && Enabled(t, a) && Enabled(Apply(t, a), b)
      && var r := Apply(Apply(t, a), b);
         r.building == t.building - 1 && r.tasks == t.tasks && ViewOf(r) == ViewOf(t)
  {
    var r := Apply(Apply(t, FactoryOk(c, AgentInfo(Acp, None, 0))), Release(c));
    assert r.cells == t.cells && r.tasks == t.tasks;
    hide WellFormed;
  }

  lemma NothingParked()
    ensures Valid(INIT, [Configure(1)]) && WellFormed(Run(INIT, [Configure(1)]))
    ensures var s := Run(INIT, [Configure(1)]); Active(s) == 0 && Window(s) == 0
  {
    hide Apply, Enabled, Locks, Queues, Provenance, Stops;
    ConfigureOne();
    InitTotal();
    assert ViewOf(Run(INIT, [Configure(1)])) == ViewOf(INIT);
  }

  lemma {:induction false} ParkMany(k: nat) returns (steps: seq<Step>)
    ensures Valid(INIT, steps) && LimitOne(steps)
    ensures var s := Run(INIT, steps);
      && Active(s) == 0 && s.building == 0 && Window(s) == k && s.limit == 1
      && forall id :: id in s.tasks ==> |id| < k
  {
    hide Apply, Enabled, Locks, Queues, Provenance, Stops, Count, Window, ViewOf, ActiveIds, WellFormed, Valid, Run;
    ConfigureOne();
    if k == 0 {
      steps := [Configure(1)];
      NothingParked();
    } else {
      var first := ParkMany(k - 1);
      ReachableInv(INIT, first);
      var more := ParkOne(Run(INIT, first), Name(k - 1), RuntimeCapabilities(None));
      RunConcat(INIT, first, more);
      steps := first + more;
      assert steps[0] == Configure(1);
      LimitOnePeak(steps);
    }
  }

  /**
   The slack is attained, for every window size: with the limit at one throughout, some run has `k`
   builds in the release window and a total of one plus `k`.
   */
  lemma SlackIsAttained(k: nat) returns (steps: seq<Step>)
    ensures Valid(INIT, steps) && PeakLimit(INIT, steps) == 1
    ensures Window(Run(INIT, steps)) == k && Total(Run(INIT, steps)) == PeakLimit(INIT, steps) + k
  {
    InitInv();
    hide Apply, Enabled, Locks, Queues, Provenance, Stops, Count, Window;
    var first := ParkMany(k);
    ReachableInv(INIT, first);
    var s := Run(INIT, first);
    var want := RuntimeCapabilities(None);
    var order := FreshBuild(s, Name(k), want);
    var more := BuildSteps(|s.calls|, Name(k), want, order);
    RunConcat(INIT, first, more);
    steps := first + more;
    assert steps[0] == Configure(1);
    LimitOnePeak(steps);
    WindowOfStarted(s, Name(k), want);
    assert ActiveIds(ViewOf(Started(s, Name(k), want))) == ActiveIds(ViewOf(s));
    PeakIsPositive(INIT, steps);
  }

  lemma PeakIsPositive(s: State, steps: seq<Step>)
    requires WellFormed(s) && Valid(s, steps) && steps != [] && steps[|steps| - 1].Admit?
    ensures PeakLimit(s, steps) >= 1
  {}

  /** A kill future gave up on slot 0 while call 0, which obtained it earlier, is on its way to the queue. */
  const GAVE_UP: State :=
    State(map[], [Cell("a", None, None, [])],
          [Holding("a", RuntimeCapabilities(None), 0), KillDone(0, None)], [], [], 0, 6, [])

  const LATE: Call := Holding("a", RuntimeCapabilities(None), 0)

  const OBTAINED: State := INIT.(calls := [LATE], cells := [Cell("a", None, None, [])], tasks := map["a" := 0])

  lemma SlotTaken()
    ensures WellFormed(OBTAINED) && Enabled(OBTAINED, KillAndWait("a"))
    ensures Apply(OBTAINED, KillAndWait("a")) == GAVE_UP.(calls := [LATE, KillHolding(0)])
  {
    assert OBTAINED.tasks - {"a"} == map[];
    assert [LATE] + [KillHolding(0)] == [LATE, KillHolding(0)];
  }

  lemma KillerQueues()
    ensures var s, r := GAVE_UP.(calls := [LATE, KillHolding(0)]),
                        GAVE_UP.(calls := [LATE, KillQueued(0)], cells := [Cell("a", None, None, [1])]);
      WellFormed(s) && Enabled(s, KillEnter(1)) && Apply(s, KillEnter(1)) == r
  {
    var s := GAVE_UP.(calls := [LATE, KillHolding(0)]);
    assert s.calls[1 := KillQueued(0)] == [LATE, KillQueued(0)];
    assert [] + [1] == [1];
    assert s.cells[0 := Cell("a", None, None, [1])] == [Cell("a", None, None, [1])];
  }

  lemma KillerGivesUp()
    ensures var s := GAVE_UP.(calls := [LATE, KillQueued(0)], cells := [Cell("a", None, None, [1])]);
      WellFormed(s) && Enabled(s, KillAcquire(1)) && Apply(s, KillAcquire(1)) == GAVE_UP
  {
    var s := GAVE_UP.(calls := [LATE, KillQueued(0)], cells := [Cell("a", None, None, [1])]);
    assert Without([1], 1) == [];
    assert s.calls[1 := KillDone(0, None)] == [LATE, KillDone(0, None)];
    assert s.cells[0 := Cell("a", None, None, [])] == [Cell("a", None, None, [])];
  }

  lemma GiveUpTail()
    ensures WellFormed(OBTAINED) && Valid(OBTAINED, [KillAndWait("a"), KillEnter(1), KillAcquire(1)])
    ensures Run(OBTAINED, [KillAndWait("a"), KillEnter(1), KillAcquire(1)]) == GAVE_UP
  {
    SlotTaken();
    KillerQueues();
    KillerGivesUp();
    hide Apply, Enabled, WellFormed, GAVE_UP, OBTAINED, LATE;
    ThreeSteps(OBTAINED, KillAndWait("a"), KillEnter(1), KillAcquire(1));
  }

  /** The failing case of `kill_and_wait` is reachable: the future has resolved and the slot can still be filled. */
  lemma GivingUpHappens() returns (steps: seq<Step>)
    ensures Valid(INIT, steps) && Run(INIT, steps) == GAVE_UP
    ensures GAVE_UP.calls[1] == KillDone(0, None) && Contender(GAVE_UP, 0, 0)
    ensures CanStillFill(Run(INIT, steps), 0)
  {
    hide Apply, Enabled, Locks, Queues, Provenance, Stops, Count;
    InitInv();
    var want := RuntimeCapabilities(None);
    var head, tail := [Start("a", want), Check(0), Obtain(0)], [KillAndWait("a"), KillEnter(1), KillAcquire(1)];
    FreshHead(INIT, "a", want);
    assert Run(INIT, head) == OBTAINED;
    GiveUpTail();
    RunConcat(INIT, head, tail);
    steps := head + tail;
    ReachableInv(INIT, steps);
    assert NobodyPending(GAVE_UP, 0);
    var more := ContenderCanFill(Run(INIT, steps), 0, 0);
  }
}
