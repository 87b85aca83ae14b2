/**
 An idle scan in the concurrent pool: it collects ids, and stops by id later, when other callers and the
 agents themselves have moved on. Which agent the stop then hits, and whether that agent is idle.
 */
module PoolScan {
  import opened Basics
  import opened Admission
  import opened Pool
  import opened PoolInvariant
  import opened PoolCapacity
  import opened PoolSafety
  import opened PoolKill

  /** The agent that a stop of `id` hits, if any. */
  ghost function HitBy(s: State, id: ConvId): Option<AgentId>
    requires WellFormed(s)
  {
    if id in s.tasks && s.cells[s.tasks[id]].value.Some? then Some(s.cells[s.tasks[id]].value.value.agent) else None
  }

  /** The last report about an agent that is there after `steps`: a change, its factory's, or the one in `s`. */
  ghost function LastReport(s: State, steps: seq<Step>, a: AgentId): AgentInfo
    requires WellFormed(s) && Valid(s, steps) && a < |Run(s, steps).agents|
    decreases |steps|
  {
    if steps == [] then s.agents[a]
    else
      var n := |steps| - 1;
      AgentsGrow(Run(s, steps[..n]), steps[n]);
      if (steps[n].AgentChange? && steps[n].agent == a) || a == |Run(s, steps[..n]).agents| then steps[n].info
      else LastReport(s, steps[..n], a)
  }

  /** Only a factory adds an agent, with its first report; only a change replaces a report. */
  lemma AgentsGrow(s: State, step: Step)
    requires WellFormed(s) && Enabled(s, step)
    ensures step.AgentChange? ==> step.agent < |s.agents|
    ensures var agents := Apply(s, step).agents;
      agents == if step.FactoryOk? then s.agents + [step.info]
                else if step.AgentChange? then s.agents[step.agent := step.info]
                else s.agents
  {
    hide Decide, Enumerates, RemoveAll, WellFormed;
  }

  /** Some step of the run takes slot `i` out of the map. */
  ghost predicate Unmaps(s: State, steps: seq<Step>, i: SlotId)
    requires WellFormed(s) && Valid(s, steps)
    decreases |steps|
  {
    steps != [] &&
    var n := |steps| - 1;
    var t := Run(s, steps[..n]);
    Unmaps(s, steps[..n], i)
    || (i < |t.cells| <= |Run(s, steps).cells| && Mapped(t, i) && !Mapped(Run(s, steps), i))
  }

  lemma {:induction false} ReportsExact(s: State, steps: seq<Step>, a: AgentId)
    requires WellFormed(s) && Valid(s, steps) && a < |Run(s, steps).agents|
    ensures Run(s, steps).agents[a] == LastReport(s, steps, a)
  {
    hide Apply, Enabled, WellFormed;
    if steps != [] {
      var n := |steps| - 1;
      AgentsGrow(Run(s, steps[..n]), steps[n]);
      if a < |Run(s, steps[..n]).agents| { ReportsExact(s, steps[..n], a); }
    }
  }

  lemma {:induction false} MappedExactly(s: State, steps: seq<Step>, i: SlotId)
    requires Inv(s) && Valid(s, steps) && i < |s.cells| && Mapped(s, i)
    ensures i < |Run(s, steps).cells| && (Mapped(Run(s, steps), i) <==> !Unmaps(s, steps, i))
  {
    hide Apply, Enabled, Locks, Queues, Provenance, Stops, Count;
    if steps != [] {
      var n := |steps| - 1;
      MappedExactly(s, steps[..n], i);
      var t := Run(s, steps[..n]);
      StepCells(t, steps[n]);
      if !Mapped(t, i) { UnmappedStays(t, steps[n], i); }
    }
  }

  /** In every state, an agent resident under `id` sits in the slot that maps to `id`, and nowhere else. */
  lemma ResidentSlot(s: State, i: SlotId, id: ConvId)
    requires Inv(s) && i < |s.cells| && s.cells[i].value.Some? && s.cells[i].owner == id
    ensures HitBy(s, id) == Some(s.cells[i].value.value.agent) <==> Mapped(s, i)
  {
    hide Locks, Queues, Stops, Count;
    if id in s.tasks && s.cells[s.tasks[id]].value.Some? {
      var j := s.tasks[id];
      assert HeldBy(s, j, s.cells[j].value.value.agent) && HeldBy(s, i, s.cells[i].value.value.agent);
    }
  }

  /**
   What a stop hits that was decided on at `s` for an idle conversation and comes after `between`: the agent
   that was collected if and only if no step took its slot out of the map meanwhile. Whichever agent `b` it
   hits, the collected one or one built since, that agent is idle if and only if the last report about it,
   from its factory or later, is one of idleness.
   */
  lemma ScanHitsExactly(s: State, between: seq<Step>, id: ConvId)
    requires Inv(s) && Valid(s, between) && Idle(ViewOf(s), s.agents, id)
    ensures var i := s.tasks[id];
      var a := s.cells[i].value.value.agent;
      var t := Run(s, between);
      && (HitBy(t, id) == Some(a) <==> !Unmaps(s, between, i))
      && (HitBy(t, id).Some? ==> var b := HitBy(t, id).value;
            b < |t.agents| && (Idle(ViewOf(t), t.agents, id) <==> IdleStatus(LastReport(s, between, b).status)))
  {
    hide *;
    CollectedSlot(s, id);
    var i := s.tasks[id];
    var t := Run(s, between);
    MappedExactly(s, between, i);
    PublishedForever(s, between, i);
    ReachableInv(s, between);
    OwnerStays(s, between, i);
    ResidentSlot(t, i, id);
    if HitBy(t, id).Some? {
      HitInRange(t, id);
      ReportsExact(s, between, HitBy(t, id).value);
    }
  }

  lemma CollectedSlot(s: State, id: ConvId)
    requires Inv(s) && Idle(ViewOf(s), s.agents, id)
    ensures WellFormed(s) && id in s.tasks && s.tasks[id] < |s.cells| && s.cells[s.tasks[id]].value.Some?
    ensures s.cells[s.tasks[id]].owner == id && Mapped(s, s.tasks[id])
    ensures s.cells[s.tasks[id]].value.value.agent < |s.agents|
  {}

  lemma HitInRange(s: State, id: ConvId)
    requires Inv(s) && HitBy(s, id).Some?
    ensures HitBy(s, id).value < |s.agents|
    ensures Idle(ViewOf(s), s.agents, id) <==> IdleStatus(s.agents[HitBy(s, id).value].status)
  {
    hide Locks, Queues, Stops, Count;
    assert HeldBy(s, s.tasks[id], HitBy(s, id).value);
  }

  lemma {:induction false} OwnerStays(s: State, steps: seq<Step>, i: SlotId)
    requires WellFormed(s) && Valid(s, steps) && i < |s.cells|
    ensures i < |Run(s, steps).cells| && Run(s, steps).cells[i].owner == s.cells[i].owner
  {
    hide Apply, Enabled, WellFormed;
    if steps != [] {
      var n := |steps| - 1;
      OwnerStays(s, steps[..n], i);
      StepCells(Run(s, steps[..n]), steps[n]);
    }
  }

  /** The stop does not look again: an agent that has become busy since the collection is stopped all the same. */
  lemma ScanStopsBusyAgent(s: State, id: ConvId, busy: AgentInfo)
    requires Inv(s) && Idle(ViewOf(s), s.agents, id) && busy.status == Some(Running)
    ensures var a := s.cells[s.tasks[id]].value.value.agent;
      var steps := [AgentChange(a, busy), KillAndWait(id)];
      && Valid(s, steps) && a in Run(s, steps).stops && a < |Run(s, steps).agents|
      && Run(s, steps).agents[a].status == Some(Running)
  {
    hide *;
    CollectedSlot(s, id);
    var a := s.cells[s.tasks[id]].value.value.agent;
    ReportEffect(s, a, busy);
    StopEffect(Apply(s, AgentChange(a, busy)), id);
    TwoSteps(s, AgentChange(a, busy), KillAndWait(id));
  }

  lemma ReportEffect(s: State, a: AgentId, info: AgentInfo)
    requires WellFormed(s) && a < |s.agents|
    ensures Enabled(s, AgentChange(a, info)) && Apply(s, AgentChange(a, info)) == s.(agents := s.agents[a := info])
  {}

  lemma StopEffect(s: State, id: ConvId)
    requires WellFormed(s) && id in s.tasks && s.tasks[id] < |s.cells| && s.cells[s.tasks[id]].value.Some?
    ensures var r := Apply(s, KillAndWait(id));
      Enabled(s, KillAndWait(id)) && s.cells[s.tasks[id]].value.value.agent in r.stops && r.agents == s.agents
  {}
}
