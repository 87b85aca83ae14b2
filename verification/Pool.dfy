/**
 The resident agent pool as a step system over all interleavings of its callers.

 A slot is an `Arc<OnceCell>`: a value written once, a single initialisation permit and the FIFO of
 those waiting for it. Slots, calls and agents are numbered in order of creation. Granularity: one
 `enforce_resident_capacity` call with the following increment of `building_count` is one step (both
 run under `capacity_lock`); dropping the reservation and storing the value are two steps, because the
 init future ends before the cell stores its result; every access to the task map is one step.
 Between the end of the factory and the store there is no suspension point, so a call is not cancelled
 there. `owner`, `builders` and `stops` only record history.
 */
module Pool {
  import opened Basics
  import opened Admission

  type SlotId = nat
  type CallId = nat

  datatype Cell = Cell(owner: ConvId, value: Option<Managed>, holder: Option<CallId>, waiters: seq<CallId>)

  /** Where a call of `get_or_build_task` or a future of `kill_and_wait` stands. */
  datatype Call =
    | Arrived(id: ConvId, want: RuntimeCapabilities)
    | Replacing(id: ConvId, want: RuntimeCapabilities)
    | Ready(id: ConvId, want: RuntimeCapabilities)
    | Holding(id: ConvId, want: RuntimeCapabilities, slot: SlotId)
    | Queued(id: ConvId, want: RuntimeCapabilities, slot: SlotId)
    | Initialising(id: ConvId, want: RuntimeCapabilities, slot: SlotId)
    | Building(id: ConvId, want: RuntimeCapabilities, slot: SlotId)
    | Built(id: ConvId, want: RuntimeCapabilities, slot: SlotId, agent: AgentId)
    | Released(id: ConvId, want: RuntimeCapabilities, slot: SlotId, agent: AgentId)
    | Returned(id: ConvId, want: RuntimeCapabilities, slot: SlotId, agent: AgentId)
    | Failed
    | KillHolding(slot: SlotId)
    | KillQueued(slot: SlotId)
    | KillDone(slot: SlotId, found: Option<AgentId>)
  {
    predicate HasSlot() { Contends() || Returned? || Killer() }
    /** May still put an agent into its slot. */
    predicate Contends() { Holding? || Queued? || HoldsPermit() }
    predicate HoldsPermit() { Initialising? || Building? || Unpublished() }
    predicate Unpublished() { Built? || Released? }
    predicate Waits() { Queued? || KillQueued? }
    predicate PendingKill() { KillHolding? || KillQueued? }
    predicate Killer() { PendingKill() || KillDone? }
    predicate Live() { !Returned? && !Failed? && !KillDone? }
  }

  predicate Reserving(call: Call) { call.Building? || call.Built? }
  predicate InWindow(call: Call) { call.Released? }

  datatype State = State(
    tasks: map<ConvId, SlotId>,
    cells: seq<Cell>,
    calls: seq<Call>,
    agents: seq<AgentInfo>,
    builders: seq<CallId>,
    building: int,
    limit: nat,
    stops: seq<AgentId>)

  const INIT: State := State(map[], [], [], [], [], 0, 6, [])

  datatype Step =
    | Start(id: ConvId, want: RuntimeCapabilities)
    | Check(c: CallId)
    | Replace(c: CallId, ok: bool)
    | Obtain(c: CallId)
    | Enter(c: CallId)
    | Acquire(c: CallId)
    | Admit(c: CallId, memory: Option<real>, order: seq<ConvId>, refusing: set<AgentId>)
    | FactoryOk(c: CallId, info: AgentInfo)
    | FactoryErr(c: CallId)
    | Release(c: CallId)
    | Publish(c: CallId)
    | Wake(c: CallId)
    | Cancel(c: CallId)
    | Kill(victim: ConvId)
    | KillAndWait(victim: ConvId)
    | KillEnter(c: CallId)
    | KillAcquire(c: CallId)
    | KillWake(c: CallId)
    | Configure(configured: nat)
    | AgentChange(agent: AgentId, info: AgentInfo)

  ghost predicate WellFormed(s: State) {
    && (forall id :: id in s.tasks ==> s.tasks[id] < |s.cells| && s.cells[s.tasks[id]].owner == id)
    && (forall c :: 0 <= c < |s.calls| && s.calls[c].HasSlot() ==> s.calls[c].slot < |s.cells|)
  }

  ghost function ViewOf(s: State): View
    requires WellFormed(s)
  {
    map id | id in s.tasks :: s.cells[s.tasks[id]].value
  }

  predicate Mapped(s: State, slot: SlotId)
    requires slot < |s.cells|
  {
    s.cells[slot].owner in s.tasks && s.tasks[s.cells[slot].owner] == slot
  }

  ghost function SetCall(s: State, c: CallId, call: Call): (r: State)
    requires WellFormed(s) && c < |s.calls| && (call.HasSlot() ==> call.slot < |s.cells|)
    ensures WellFormed(r)
  {
    s.(calls := s.calls[c := call])
  }

  ghost function SetCell(s: State, slot: SlotId, cell: Cell): (r: State)
    requires WellFormed(s) && slot < |s.cells| && cell.owner == s.cells[slot].owner
    ensures WellFormed(r)
  {
    s.(cells := s.cells[slot := cell])
  }

  /** Removing a task: `kill`, one round of `clear`, an eviction, a capability-driven kill. */
  ghost function Remove(s: State, id: ConvId): (r: State)
    requires WellFormed(s)
    ensures WellFormed(r) && r.calls == s.calls && r.cells == s.cells && r.agents == s.agents
    ensures r.building == s.building && r.limit == s.limit && r.builders == s.builders
  {
    if id !in s.tasks then s
    else
      var value := s.cells[s.tasks[id]].value;
      s.(tasks := s.tasks - {id}, stops := if value.Some? then s.stops + [value.value.agent] else s.stops)
  }

  ghost function RemoveAll(s: State, ids: seq<ConvId>): (r: State)
    requires WellFormed(s)
    ensures WellFormed(r) && r.calls == s.calls && r.cells == s.cells && r.agents == s.agents
    ensures r.building == s.building && r.limit == s.limit && r.builders == s.builders
  {
    if ids == [] then s else Remove(RemoveAll(s, ids[..|ids| - 1]), ids[|ids| - 1])
  }

  /** The init future ends without a value: the permit and any reservation are given back. */
  ghost function Abandon(s: State, c: CallId): (r: State)
    requires WellFormed(s) && c < |s.calls| && s.calls[c].HoldsPermit()
    ensures WellFormed(r)
  {
    var slot := s.calls[c].slot;
    SetCall(SetCell(s, slot, s.cells[slot].(holder := None)), c, Failed)
      .(building := s.building - if Reserving(s.calls[c]) then 1 else 0)
  }

  ghost function Dequeue(s: State, c: CallId, call: Call): (r: State)
    requires WellFormed(s) && c < |s.calls| && s.calls[c].HasSlot() && (call.HasSlot() ==> call.slot < |s.cells|)
    ensures WellFormed(r)
  {
    var slot := s.calls[c].slot;
    SetCall(SetCell(s, slot, s.cells[slot].(waiters := Without(s.cells[slot].waiters, c))), c, call)
  }

  ghost function Enqueue(s: State, c: CallId, call: Call): (r: State)
    requires WellFormed(s) && c < |s.calls| && s.calls[c].HasSlot() && (call.HasSlot() ==> call.slot < |s.cells|)
    ensures WellFormed(r)
  {
    var slot := s.calls[c].slot;
    SetCall(SetCell(s, slot, s.cells[slot].(waiters := s.cells[slot].waiters + [c])), c, call)
  }

  /** `c` is the first waiter, the permit is free and the cell is empty. */
  predicate Granted(s: State, c: CallId)
    requires c < |s.calls| && s.calls[c].HasSlot() && s.calls[c].slot < |s.cells|
  {
    var cell := s.cells[s.calls[c].slot];
    cell.value.None? && cell.holder.None? && cell.waiters != [] && cell.waiters[0] == c
  }

  predicate Full(s: State, c: CallId)
    requires c < |s.calls| && s.calls[c].HasSlot() && s.calls[c].slot < |s.cells|
  {
    s.cells[s.calls[c].slot].value.Some?
  }

  ghost predicate Enabled(s: State, step: Step)
    requires WellFormed(s)
  {
    match step
    case Start(_, _) => true
    case Check(c) => c < |s.calls| && s.calls[c].Arrived?
    case Replace(c, _) => c < |s.calls| && s.calls[c].Replacing?
    case Obtain(c) => c < |s.calls| && s.calls[c].Ready?
    case Enter(c) => c < |s.calls| && s.calls[c].Holding?
    case Acquire(c) => c < |s.calls| && s.calls[c].Queued? && Granted(s, c)
    case Admit(c, _, order, _) => c < |s.calls| && s.calls[c].Initialising? && Enumerates(order, ViewOf(s))
    case FactoryOk(c, _) => c < |s.calls| && s.calls[c].Building?
    case FactoryErr(c) => c < |s.calls| && s.calls[c].Building?
    case Release(c) => c < |s.calls| && s.calls[c].Built?
    case Publish(c) => c < |s.calls| && s.calls[c].Released?
    case Wake(c) => c < |s.calls| && s.calls[c].Queued? && Full(s, c)
    case Cancel(c) => c < |s.calls| && s.calls[c].Live() && !s.calls[c].Unpublished()
    case Kill(_) => true
    case KillAndWait(_) => true
    case KillEnter(c) => c < |s.calls| && s.calls[c].KillHolding?
    case KillAcquire(c) => c < |s.calls| && s.calls[c].KillQueued? && Granted(s, c)
    case KillWake(c) => c < |s.calls| && s.calls[c].KillQueued? && Full(s, c)
    case Configure(_) => true
    case AgentChange(a, _) => a < |s.agents|
  }

  ghost function DecisionOf(s: State, step: Step): Decision
    requires WellFormed(s) && step.Admit? && Enabled(s, step)
  {
    Decide(ViewOf(s), s.agents, s.building, s.limit, s.calls[step.c].id, step.memory, step.order, step.refusing)
  }

  ghost function KillForRebuild(s: State, c: CallId, ok: bool): (r: State)
    requires WellFormed(s) && c < |s.calls| && s.calls[c].Replacing?
    ensures WellFormed(r)
  {
    var call := s.calls[c];
    var stopped := call.id in s.tasks && s.cells[s.tasks[call.id]].value.Some?;
    SetCall(Remove(s, call.id), c, if stopped && !ok then Failed else Ready(call.id, call.want))
  }

  ghost function ObtainSlot(s: State, c: CallId): (r: State)
    requires WellFormed(s) && c < |s.calls| && s.calls[c].Ready?
    ensures WellFormed(r)
  {
    var call := s.calls[c];
    if call.id in s.tasks then SetCall(s, c, Holding(call.id, call.want, s.tasks[call.id]))
    else
      var t := s.(cells := s.cells + [Cell(call.id, None, None, [])], tasks := s.tasks[call.id := |s.cells|]);
      SetCall(t, c, Holding(call.id, call.want, |s.cells|))
  }

  ghost function Enforce(s: State, c: CallId, d: Decision): (r: State)
    requires WellFormed(s) && c < |s.calls| && s.calls[c].Initialising?
    ensures WellFormed(r)
  {
    var call := s.calls[c];
    var t := RemoveAll(s, d.victims);
    if d.admitted then SetCall(t, c, Building(call.id, call.want, call.slot)).(building := t.building + 1)
    else Abandon(t, c)
  }

  ghost function RemoveAndWait(s: State, id: ConvId): (r: State)
    requires WellFormed(s)
    ensures WellFormed(r)
  {
    if id !in s.tasks then s
    else
      var slot := s.tasks[id];
      var value := s.cells[slot].value;
      Remove(s, id).(calls := s.calls + [if value.Some? then KillDone(slot, Some(value.value.agent))
                                         else KillHolding(slot)])
  }

  /** `get_or_try_init` first looks for a value, then queues for the permit. */
  ghost function Look(s: State, c: CallId): (r: State)
    requires WellFormed(s) && c < |s.calls| && s.calls[c].Holding?
    ensures WellFormed(r)
  {
    var call := s.calls[c];
    if Full(s, c) then SetCall(s, c, Returned(call.id, call.want, call.slot, s.cells[call.slot].value.value.agent))
    else Enqueue(s, c, Queued(call.id, call.want, call.slot))
  }

  ghost function KillLook(s: State, c: CallId): (r: State)
    requires WellFormed(s) && c < |s.calls| && s.calls[c].KillHolding?
    ensures WellFormed(r)
  {
    var slot := s.calls[c].slot;
    if Full(s, c) then
      var a := s.cells[slot].value.value.agent;
      SetCall(s, c, KillDone(slot, Some(a))).(stops := s.stops + [a])
    else Enqueue(s, c, KillQueued(slot))
  }

  ghost function TakePermit(s: State, c: CallId): (r: State)
    requires WellFormed(s) && c < |s.calls| && s.calls[c].Queued?
    ensures WellFormed(r)
  {
    var call := s.calls[c];
    var cell := s.cells[call.slot];
    SetCall(SetCell(s, call.slot, cell.(holder := Some(c), waiters := Without(cell.waiters, c))),
            c, Initialising(call.id, call.want, call.slot))
  }

  ghost function Store(s: State, c: CallId): (r: State)
    requires WellFormed(s) && c < |s.calls| && s.calls[c].Released?
    ensures WellFormed(r)
  {
    var call := s.calls[c];
    var cell := s.cells[call.slot];
    SetCall(SetCell(s, call.slot, cell.(value := Some(Managed(call.agent, call.want)), holder := None)),
            c, Returned(call.id, call.want, call.slot, call.agent))
  }

  ghost function Apply(s: State, step: Step): (r: State)
    requires WellFormed(s) && Enabled(s, step)
    ensures WellFormed(r)
  {
    match step
    case Start(id, want) => s.(calls := s.calls + [Arrived(id, want)])
    case Check(c) =>
      var call := s.calls[c];
      var view := ViewOf(s);
      if call.id in view && view[call.id].Some? && !view[call.id].value.caps.Satisfies(call.want)
      then SetCall(s, c, Replacing(call.id, call.want))
      else SetCall(s, c, Ready(call.id, call.want))
    case Replace(c, ok) => KillForRebuild(s, c, ok)
    case Obtain(c) => ObtainSlot(s, c)
    case Enter(c) => Look(s, c)
    case Acquire(c) => TakePermit(s, c)
    case Admit(c, _, _, _) => Enforce(s, c, DecisionOf(s, step))
    case FactoryOk(c, info) =>
      var call := s.calls[c];
      SetCall(s, c, Built(call.id, call.want, call.slot, |s.agents|))
        .(agents := s.agents + [info], builders := s.builders + [c])
    case FactoryErr(c) => Abandon(s, c)
    case Release(c) =>
      var call := s.calls[c];
      SetCall(s, c, Released(call.id, call.want, call.slot, call.agent)).(building := s.building - 1)
    case Publish(c) => Store(s, c)
    case Wake(c) =>
      var call := s.calls[c];
      Dequeue(s, c, Returned(call.id, call.want, call.slot, s.cells[call.slot].value.value.agent))
    case Cancel(c) =>
      if s.calls[c].HoldsPermit() then Abandon(s, c)
      else if s.calls[c].Waits() then Dequeue(s, c, Failed)
      else SetCall(s, c, Failed)
    case Kill(id) => Remove(s, id)
    case KillAndWait(id) => RemoveAndWait(s, id)
    case KillEnter(c) => KillLook(s, c)
    case KillAcquire(c) => Dequeue(s, c, KillDone(s.calls[c].slot, None))
    case KillWake(c) =>
      var slot := s.calls[c].slot;
      var a := s.cells[slot].value.value.agent;
      Dequeue(s, c, KillDone(slot, Some(a))).(stops := s.stops + [a])
    case Configure(limit) => s.(limit := AtLeastOne(limit))
    case AgentChange(a, info) => s.(agents := s.agents[a := info])
  }

  /** A run: every step is enabled where it is taken. */
  ghost predicate Valid(s: State, steps: seq<Step>)
    requires WellFormed(s)
    decreases |steps|, 0
  {
    steps != [] ==>
      && Valid(s, steps[..|steps| - 1])
      && Enabled(Run(s, steps[..|steps| - 1]), steps[|steps| - 1])
  }

  ghost function Run(s: State, steps: seq<Step>): (r: State)
    requires WellFormed(s) && Valid(s, steps)
    ensures WellFormed(r)
    decreases |steps|, 1
  {
    if steps == [] then s else Apply(Run(s, steps[..|steps| - 1]), steps[|steps| - 1])
  }

  lemma RunStep(s: State, steps: seq<Step>, step: Step)
    requires WellFormed(s) && Valid(s, steps) && Enabled(Run(s, steps), step)
    ensures Valid(s, steps + [step]) && Run(s, steps + [step]) == Apply(Run(s, steps), step)
  {
    assert (steps + [step])[..|steps|] == steps;
  }

  lemma {:induction false} RunConcat(s: State, steps: seq<Step>, more: seq<Step>)
    requires WellFormed(s) && Valid(s, steps) && Valid(Run(s, steps), more)
    ensures Valid(s, steps + more) && Run(s, steps + more) == Run(Run(s, steps), more)
  {
    hide Enabled, Apply;
    if more == [] {
      assert steps + more == steps;
    } else {
      var n := |more| - 1;
      RunConcat(s, steps, more[..n]);
      assert steps + more == (steps + more[..n]) + [more[n]];
      RunStep(s, steps + more[..n], more[n]);
    }
  }

  lemma {:induction false} ValidPrefix(s: State, steps: seq<Step>, i: nat)
    requires WellFormed(s) && Valid(s, steps) && i <= |steps|
    ensures Valid(s, steps[..i])
    ensures i < |steps| ==>
              Valid(s, steps[..i + 1]) && Enabled(Run(s, steps[..i]), steps[i])
    ensures i < |steps| ==> Run(s, steps[..i + 1]) == Apply(Run(s, steps[..i]), steps[i])
  {
    var n := |steps| - 1;
    if i == |steps| {
      assert steps[..i] == steps;
    } else if i == n {
      assert steps[..i + 1] == steps;
    } else {
      ValidPrefix(s, steps[..n], i);
      assert steps[..n][..i] == steps[..i] && steps[..n][..i + 1] == steps[..i + 1];
    }
  }
}
