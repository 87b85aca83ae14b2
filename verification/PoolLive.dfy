/** The number of agents actually running: it can pass the limit, and only by stranded agents. */
module PoolLive {
  import opened Basics
  import opened Admission
  import opened Pool
  import opened PoolInvariant
  import opened PoolCapacity
  import opened PoolSafety
  import opened PoolKill
  import opened PoolWitness

  /** Built and not handed over for stopping. */
  ghost function LiveAgents(s: State): set<AgentId> {
    set a | 0 <= a < |s.agents| && a !in s.stops
  }

  /** Live agents in slots that are out of the map: orphaned, or awaited by a kill future. */
  ghost function StrandedAgents(s: State): set<AgentId> {
    set a | 0 <= a < |s.agents| && IsStranded(s, a)
  }

  ghost predicate IsStranded(s: State, a: AgentId) { exists i :: Stranded(s, a, i) }

  predicate Carries(call: Call) { call.Unpublished() }

  function Carried(calls: seq<Call>): set<AgentId> {
    if calls == [] then {}
    else Carried(calls[..|calls| - 1]) + (if Carries(calls[|calls| - 1]) then {calls[|calls| - 1].agent} else {})
  }

  predicate DistinctCarried(calls: seq<Call>) {
    forall c, d :: 0 <= c < d < |calls| && Carries(calls[c]) && Carries(calls[d]) ==> calls[c].agent != calls[d].agent
  }

  lemma {:induction false} CarriedExact(calls: seq<Call>)
    requires DistinctCarried(calls)
    ensures |Carried(calls)| == Count(calls, Carries)
    ensures forall a :: a in Carried(calls) <==> exists c :: 0 <= c < |calls| && Carries(calls[c]) && calls[c].agent == a
  {
    if calls != [] {
      var n := |calls| - 1;
      CarriedExact(calls[..n]);
      assert forall c :: 0 <= c < n ==> calls[..n][c] == calls[c];
      if Carries(calls[n]) {
        assert calls[n].agent !in Carried(calls[..n]);
      }
    }
  }

  /** Built calls hold a reservation, released ones are in the window. */
  lemma {:induction false} CarriersSplit(calls: seq<Call>)
    ensures Count(calls, Carries) + Count(calls, RunsFactory) == Count(calls, Reserving) + Count(calls, InWindow)
  {
    if calls != [] { CarriersSplit(calls[..|calls| - 1]); }
  }

  predicate RunsFactory(call: Call) { call.Building? }

  function AgentAt(view: View, id: ConvId): AgentId {
    if id in view && view[id].Some? then view[id].value.agent else 0
  }

  ghost function ResidentAgents(s: State): set<AgentId>
    requires WellFormed(s)
  {
    var view := ViewOf(s);
    set id | id in ActiveIds(view) :: AgentAt(view, id)
  }

  lemma {:induction false} ImageExact(ids: set<ConvId>, view: View)
    requires forall x, y :: x in ids && y in ids && AgentAt(view, x) == AgentAt(view, y) ==> x == y
    ensures |set id | id in ids :: AgentAt(view, id)| == |ids|
  {
    if ids != {} {
      var x :| x in ids;
      var rest := set id | id in ids - {x} :: AgentAt(view, id);
      ImageExact(ids - {x}, view);
      assert AgentAt(view, x) !in rest;
      assert (set id | id in ids :: AgentAt(view, id)) == rest + {AgentAt(view, x)};
    }
  }

  /** Each resident conversation has an agent of its own. */
  lemma ResidentCount(s: State)
    requires Inv(s)
    ensures |ResidentAgents(s)| == Active(s)
    ensures forall a :: a in ResidentAgents(s) <==> Resident(s, a)
  {
    hide Locks, Queues, Stops, Count;
    var view := ViewOf(s);
    forall x, y | x in ActiveIds(view) && y in ActiveIds(view) && AgentAt(view, x) == AgentAt(view, y) ensures x == y {
      assert HeldBy(s, s.tasks[x], AgentAt(view, x)) && HeldBy(s, s.tasks[y], AgentAt(view, y));
      assert s.cells[s.tasks[x]].owner == x && s.cells[s.tasks[y]].owner == y;
    }
    ImageExact(ActiveIds(view), view);
    forall a ensures a in ResidentAgents(s) <==> Resident(s, a) {
      if Resident(s, a) {
        var id :| id in s.tasks && s.cells[s.tasks[id]].value.Some? && s.cells[s.tasks[id]].value.value.agent == a;
        assert id in ActiveIds(view) && AgentAt(view, id) == a;
      }
    }
  }

  lemma UnpublishedCount(s: State)
    requires Inv(s)
    ensures |Carried(s.calls)| == Count(s.calls, Carries)
    ensures forall a :: a in Carried(s.calls) <==> Unpublished(s, a)
  {
    hide Locks, Queues, Stops, Count;
    assert DistinctCarried(s.calls) by {
      assert forall c :: 0 <= c < |s.calls| && Carries(s.calls[c]) ==> s.builders[s.calls[c].agent] == c;
    }
    CarriedExact(s.calls);
  }

  lemma LiveSplits(s: State)
    requires Inv(s)
    ensures LiveAgents(s) == ResidentAgents(s) + Carried(s.calls) + StrandedAgents(s)
    ensures ResidentAgents(s) !! Carried(s.calls) && StrandedAgents(s) !! (ResidentAgents(s) + Carried(s.calls))
  {
    var residents, unpublished, stranded := ResidentAgents(s), Carried(s.calls), StrandedAgents(s);
    forall a: AgentId
      ensures a in LiveAgents(s) <==> a in residents || a in unpublished || a in stranded
      ensures !(a in residents && a in unpublished) && !(a in stranded && (a in residents || a in unpublished))
    {
      hide LiveAgents, StrandedAgents, Resident, Unpublished, Inv;
      ResidentCount(s);
      UnpublishedCount(s);
      LiveOrNot(s, a);
      Apart(s, a);
    }
    hide *;
  }

  /** A stranded agent is either awaited by a kill future or orphaned. */
  lemma StrandedIsKept(s: State, a: AgentId)
    requires WellFormed(s)
    ensures IsStranded(s, a) <==> Awaited(s, a) || Orphaned(s, a)
  {
    hide Stranded, KillPending;
  }

  lemma Apart(s: State, a: AgentId)
    requires Inv(s)
    ensures !(Resident(s, a) && Unpublished(s, a))
    ensures a in StrandedAgents(s) ==> !Resident(s, a) && !Unpublished(s, a)
  {
    StrandedIsKept(s, a);
    if a < |s.agents| {
      Classified(s, a);
    } else {
      hide Locks, Queues, Stops, Count;
    }
    hide Inv, Resident, Unpublished, Awaited, Orphaned, IsStranded;
  }

  lemma LiveOrNot(s: State, a: AgentId)
    requires Inv(s)
    ensures a in LiveAgents(s) <==> Resident(s, a) || Unpublished(s, a) || a in StrandedAgents(s)
  {
    StrandedIsKept(s, a);
    if a < |s.agents| {
      Classified(s, a);
    } else {
      hide Locks, Queues, Stops, Count;
    }
    hide Inv, Resident, Unpublished, Awaited, Orphaned, IsStranded;
  }

  /** Running agents are the residents, the unpublished and the stranded ones, each counted once. */
  lemma LiveExact(s: State)
    requires Inv(s)
    ensures |LiveAgents(s)| == Active(s) + Count(s.calls, Carries) + |StrandedAgents(s)|
    ensures |LiveAgents(s)| == Total(s) - Count(s.calls, RunsFactory) + |StrandedAgents(s)|
  {
    hide Locks, Queues, Provenance, Stops;
    LiveSplits(s);
    ResidentCount(s);
    UnpublishedCount(s);
    CarriersSplit(s.calls);
  }

  /**
   Over every run, running agents that are not stranded stay within the limit and the slack of the
   release window; the pool's own total is passed exactly when more agents are stranded than factories run.
   */
  lemma LiveBoundOverRuns(steps: seq<Step>)
    requires Valid(INIT, steps)
    ensures var s := Run(INIT, steps);
      && |LiveAgents(s)| - |StrandedAgents(s)| <= PeakLimit(INIT, steps) + AdmissionWindow(INIT, steps)
      && (|LiveAgents(s)| > Total(s) <==> |StrandedAgents(s)| > Count(s.calls, RunsFactory))
  {
    hide Apply, Enabled, Locks, Queues, Provenance, Stops, Count, LiveAgents, StrandedAgents;
    InitInv();
    ReachableInv(INIT, steps);
    CapacityOverRuns(steps);
    LiveExact(Run(INIT, steps));
  }

  const NO_CAPS: RuntimeCapabilities := RuntimeCapabilities(None)
  const INFO: AgentInfo := AgentInfo(Acp, None, 0)

  /** After a killed build published its agent: nothing in the map, nobody to stop it. */
  const AFTER_ORPHAN: State :=
    State(map[], [Cell("a", Some(Managed(0, NO_CAPS)), None, [])], [Returned("a", NO_CAPS, 0, 0)], [INFO], [0], 0, 1, [])

  lemma OrphanKill(s: State)
    requires s == Started(INIT.(limit := 1), "a", NO_CAPS) && WellFormed(s)
    ensures Valid(s, [Kill("a")]) && Run(s, [Kill("a")]) == AFTER_KILL
  {
    assert Apply(s, Kill("a")) == AFTER_KILL;
    RunStep(s, [], Kill("a"));
    assert [] + [Kill("a")] == [Kill("a")];
  }

  lemma OrphanTail()
    ensures WellFormed(AFTER_KILL) && Valid(AFTER_KILL, [FactoryOk(0, INFO), Release(0), Publish(0)])
    ensures Run(AFTER_KILL, [FactoryOk(0, INFO), Release(0), Publish(0)]) == AFTER_ORPHAN
  {
    var s3 := Apply(AFTER_KILL, FactoryOk(0, INFO));
    assert s3.calls == [Built("a", NO_CAPS, 0, 0)];
    var s4 := Apply(s3, Release(0));
    assert s4.calls == [Released("a", NO_CAPS, 0, 0)];
    var s5 := Apply(s4, Publish(0));
    assert s5.cells == AFTER_ORPHAN.cells && s5.calls == AFTER_ORPHAN.calls;
    assert s5 == AFTER_ORPHAN;
    hide Apply, Enabled;
    ThreeSteps(AFTER_KILL, FactoryOk(0, INFO), Release(0), Publish(0));
  }

  const AFTER_KILL: State :=
    State(map[], [Cell("a", None, Some(0), [])], [Building("a", NO_CAPS, 0)], [], [], 1, 1, [])

  lemma OrphanRun() returns (steps: seq<Step>)
    ensures Valid(INIT, steps) && LimitOne(steps) && Run(INIT, steps) == AFTER_ORPHAN
  {
    hide Apply, Enabled, Locks, Queues, Provenance, Stops, Count;
    ConfigureOne();
    InitTotal();
    var s0 := INIT.(limit := 1);
    ReachableInv(INIT, [Configure(1)]);
    assert ViewOf(s0) == ViewOf(INIT);
    var order := FreshBuild(s0, "a", NO_CAPS);
    var build := BuildSteps(0, "a", NO_CAPS, order);
    RunConcat(INIT, [Configure(1)], build);
    OrphanKill(Started(s0, "a", NO_CAPS));
    OrphanTail();
    RunConcat(INIT, [Configure(1)] + build, [Kill("a")]);
    RunConcat(INIT, [Configure(1)] + build + [Kill("a")], [FactoryOk(0, INFO), Release(0), Publish(0)]);
    steps := [Configure(1)] + build + [Kill("a")] + [FactoryOk(0, INFO), Release(0), Publish(0)];
  }

  lemma SecondAgent(s: State)
    requires s == Started(AFTER_ORPHAN, "b", NO_CAPS) && WellFormed(s)
    ensures Enabled(s, FactoryOk(1, INFO))
    ensures var r := Apply(s, FactoryOk(1, INFO)); Orphaned(r, 0) && LiveAgents(r) == {0, 1}
  {
    assert s.calls == [Returned("a", NO_CAPS, 0, 0), Building("b", NO_CAPS, 1)];
    var r := Apply(s, FactoryOk(1, INFO));
    assert r.calls == [Returned("a", NO_CAPS, 0, 0), Built("b", NO_CAPS, 1, 1)];
    assert r.agents == [INFO, INFO] && r.stops == [] && r.tasks == map["b" := 1];
    assert Stranded(r, 0, 0) && !KillPending(r, 0);
  }

  /**
   Killing a conversation during its build leaves an agent nobody stops, which the limit does not see:
   with the limit at one throughout, two agents run at once.
   */
  lemma LimitDoesNotBoundLiveAgents() returns (steps: seq<Step>)
    ensures Valid(INIT, steps) && PeakLimit(INIT, steps) <= 1
    ensures Orphaned(Run(INIT, steps), 0) && |LiveAgents(Run(INIT, steps))| == 2
  {
    hide Apply, Enabled, Locks, Queues, Provenance, Stops, Count, Orphaned, LiveAgents;
    InitInv();
    var first := OrphanRun();
    ReachableInv(INIT, first);
    assert ActiveIds(ViewOf(AFTER_ORPHAN)) == {};
    var order := FreshBuild(AFTER_ORPHAN, "b", NO_CAPS);
    var more := BuildSteps(1, "b", NO_CAPS, order);
    RunConcat(INIT, first, more);
    SecondAgent(Started(AFTER_ORPHAN, "b", NO_CAPS));
    RunStep(INIT, first + more, FactoryOk(1, INFO));
    steps := first + more + [FactoryOk(1, INFO)];
    assert steps[0] == Configure(1);
    LimitOnePeak(steps);
  }
}
