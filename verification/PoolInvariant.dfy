/** What every step of the pool keeps, and hence what holds in every reachable state. */
module PoolInvariant {
  import opened Basics
  import opened Admission
  import opened Pool

  /** Permits and queues agree with where the calls stand. */
  ghost predicate Locks(s: State) {
    && (forall i :: 0 <= i < |s.cells| && s.cells[i].holder.Some? ==> s.cells[i].holder.value < |s.calls|)
    && (forall i :: 0 <= i < |s.cells| && s.cells[i].value.Some? ==> s.cells[i].holder.None?)
    && (forall i, c :: 0 <= i < |s.cells| && 0 <= c < |s.calls| ==>
          (s.cells[i].holder == Some(c) <==> s.calls[c].HoldsPermit() && s.calls[c].slot == i))
  }

  ghost predicate Queues(s: State) {
    && (forall i, c :: 0 <= i < |s.cells| && c in s.cells[i].waiters ==> c < |s.calls|)
    && (forall i, c :: 0 <= i < |s.cells| && 0 <= c < |s.calls| ==>
          (c in s.cells[i].waiters <==> s.calls[c].Waits() && s.calls[c].slot == i))
    && (forall i :: 0 <= i < |s.cells| ==> NoDup(s.cells[i].waiters))
  }

  /** Every agent belongs to the call that built it, and at most one slot holds it. */
  ghost predicate Provenance(s: State) { Builders(s) && Holders(s) }

  ghost predicate Builders(s: State) {
    && |s.builders| == |s.agents|
    && (forall a :: 0 <= a < |s.builders| ==> s.builders[a] < |s.calls|)
    && (forall a, c :: 0 <= a < |s.builders| && 0 <= c < |s.calls| && s.builders[a] == c ==>
          (s.calls[c].Unpublished() || s.calls[c].Returned?) && s.calls[c].agent == a)
    && (forall c :: 0 <= c < |s.calls| && s.calls[c].Unpublished() ==>
          s.calls[c].agent < |s.builders| && s.builders[s.calls[c].agent] == c)
  }

  ghost predicate Holders(s: State) {
    && (forall i :: 0 <= i < |s.cells| && s.cells[i].value.Some? ==> HeldBy(s, i, s.cells[i].value.value.agent))
    && (forall i, c :: 0 <= i < |s.cells| && 0 <= c < |s.calls| && s.calls[c].Returned? && s.calls[c].slot == i ==>
          s.cells[i].value.Some? && s.cells[i].value.value.agent == s.calls[c].agent)
  }

  /** `a` was built and published by a call that returned it from slot `i`. */
  ghost predicate HeldBy(s: State, i: SlotId, a: AgentId) {
    && a < |s.builders| && s.builders[a] < |s.calls|
    && s.calls[s.builders[a]].Returned? && s.calls[s.builders[a]].slot == i
  }

  /** Stopped agents sit in unmapped slots that nobody still has to stop; one killer per slot. */
  ghost predicate Stops(s: State)
    requires WellFormed(s)
  {
    && NoDup(s.stops)
    && (forall a :: a in s.stops ==>
          && a < |s.builders| && s.builders[a] < |s.calls|
          && s.calls[s.builders[a]].Returned? && !Mapped(s, s.calls[s.builders[a]].slot))
    && (forall k, a :: 0 <= k < |s.calls| && s.calls[k].PendingKill() && a in s.stops ==>
          !HeldBy(s, s.calls[k].slot, a))
    && (forall k :: 0 <= k < |s.calls| && s.calls[k].Killer() ==> !Mapped(s, s.calls[k].slot))
    && (forall k, l :: 0 <= k < l < |s.calls| && s.calls[k].Killer() && s.calls[l].Killer() ==>
          s.calls[k].slot != s.calls[l].slot)
    && (forall k :: 0 <= k < |s.calls| && s.calls[k].KillDone? && s.calls[k].found.Some? ==>
          s.calls[k].found.value in s.stops && HeldBy(s, s.calls[k].slot, s.calls[k].found.value))
  }

  ghost predicate Inv(s: State) {
    && WellFormed(s) && Locks(s) && Queues(s) && Provenance(s) && Stops(s)
    && s.building == Count(s.calls, Reserving)
  }

  lemma InitInv()
    ensures Inv(INIT)
  {
    NothingYet(INIT);
  }

  lemma NothingYet(s: State)
    requires s.tasks == map[] && s.cells == [] && s.calls == [] && s.agents == [] && s.builders == [] && s.stops == []
    requires s.building == 0
    ensures Inv(s)
  {
    assert WellFormed(s) && Locks(s);
    assert Queues(s);
    assert Builders(s) && Holders(s);
    assert Stops(s);
    hide Locks, Queues, Provenance, Stops, WellFormed;
    assert Provenance(s) by { NothingMade(s); }
  }

  lemma NothingMade(s: State)
    requires Builders(s) && Holders(s)
    ensures Provenance(s)
  {}

  // ---- One call moves and its slot's cell changes with it ----

  const NO_CELL: Cell := Cell("", None, None, [])

  /** The cell of slot `i`; a number that is no slot stands for "no slot involved". */
  function CellAt(s: State, i: SlotId): Cell {
    if i < |s.cells| then s.cells[i] else NO_CELL
  }

  /** `c` is, and stays, attached to no slot but `i`. */
  ghost predicate Local(s: State, c: CallId, call: Call, i: SlotId, cell: Cell) {
    && WellFormed(s) && c < |s.calls| && cell.owner == CellAt(s, i).owner
    && (i >= |s.cells| ==> cell == NO_CELL)
    && (s.calls[c].HasSlot() ==> s.calls[c].slot == i)
    && (call.HasSlot() ==> call.slot == i && i < |s.cells|)
  }

  ghost function Update(s: State, c: CallId, call: Call, i: SlotId, cell: Cell, building: int): (r: State)
    requires Local(s, c, call, i, cell)
    ensures WellFormed(r)
  {
    s.(calls := s.calls[c := call], cells := if i < |s.cells| then s.cells[i := cell] else s.cells, building := building)
  }

  lemma LocksUpdate(s: State, c: CallId, call: Call, i: SlotId, cell: Cell, building: int)
    requires Local(s, c, call, i, cell) && Locks(s)
    requires cell.holder == Some(c) <==> call.HoldsPermit()
    requires cell.holder == CellAt(s, i).holder
             || (cell.holder == Some(c) && CellAt(s, i).holder == None)
             || (cell.holder == None && CellAt(s, i).holder == Some(c))
    requires cell.value.Some? ==> cell.holder.None?
    ensures Locks(Update(s, c, call, i, cell, building))
  {}

  lemma QueuesUpdate(s: State, c: CallId, call: Call, i: SlotId, cell: Cell, building: int)
    requires Local(s, c, call, i, cell) && Queues(s)
    requires forall x :: x != c ==> (x in cell.waiters <==> x in CellAt(s, i).waiters)
    requires c in cell.waiters <==> call.Waits()
    requires NoDup(cell.waiters)
    ensures Queues(Update(s, c, call, i, cell, building))
  {}

  /** `c` keeps the agent it built, and the cell is written only by its builder and only when empty. */
  ghost predicate Publishes(s: State, c: CallId, call: Call, i: SlotId, cell: Cell)
    requires c < |s.calls|
  {
    && !s.calls[c].Returned?
    && (s.calls[c].Unpublished() ==> (call.Unpublished() || call.Returned?) && call.agent == s.calls[c].agent)
    && (call.Unpublished() ==> s.calls[c].Unpublished())
    && (cell.value != CellAt(s, i).value ==>
          CellAt(s, i).value.None? && cell.value.Some? && s.calls[c].Unpublished() && call.Returned?)
    && (call.Returned? ==> cell.value.Some? && call.agent == cell.value.value.agent)
  }

  lemma ProvenanceUpdate(s: State, c: CallId, call: Call, i: SlotId, cell: Cell, building: int)
    requires Local(s, c, call, i, cell) && Provenance(s) && Publishes(s, c, call, i, cell)
    ensures Provenance(Update(s, c, call, i, cell, building))
  {
    assert Builders(Update(s, c, call, i, cell, building));
    HoldersUpdate(s, c, call, i, cell, building);
    hide *;
  }

  lemma HoldersUpdate(s: State, c: CallId, call: Call, i: SlotId, cell: Cell, building: int)
    requires Local(s, c, call, i, cell) && Provenance(s) && Publishes(s, c, call, i, cell)
    ensures Holders(Update(s, c, call, i, cell, building))
  {
    var r := Update(s, c, call, i, cell, building);
    forall j | 0 <= j < |r.cells| && r.cells[j].value.Some? ensures HeldBy(r, j, r.cells[j].value.value.agent) {
      if j != i || cell.value == s.cells[i].value { assert HeldBy(s, j, s.cells[j].value.value.agent); }
    }
  }

  /** A kill future stays one, and reports an agent only when that agent was stopped. */
  ghost predicate StopsFor(s: State, c: CallId, call: Call)
    requires c < |s.calls|
  {
    && (call.PendingKill() ==> s.calls[c].PendingKill())
    && (call.KillDone? ==> s.calls[c].Killer())
    && (call.KillDone? && call.found.Some? ==> call.found.value in s.stops && HeldBy(s, call.slot, call.found.value))
  }

  lemma StopsUpdate(s: State, c: CallId, call: Call, i: SlotId, cell: Cell, building: int)
    requires Local(s, c, call, i, cell) && Stops(s)
    requires !s.calls[c].Returned?
    requires forall a :: a in s.stops ==> a < |s.builders| && s.builders[a] != c
    requires StopsFor(s, c, call)
    ensures Stops(Update(s, c, call, i, cell, building))
  {}

  lemma UpdateKeeps(s: State, c: CallId, call: Call, i: SlotId, cell: Cell, building: int)
    requires Inv(s) && Local(s, c, call, i, cell)
    requires cell.holder == Some(c) <==> call.HoldsPermit()
    requires cell.holder == CellAt(s, i).holder
             || (cell.holder == Some(c) && CellAt(s, i).holder == None)
             || (cell.holder == None && CellAt(s, i).holder == Some(c))
    requires cell.value.Some? ==> cell.holder.None?
    requires forall x :: x != c ==> (x in cell.waiters <==> x in CellAt(s, i).waiters)
    requires c in cell.waiters <==> call.Waits()
    requires NoDup(cell.waiters)
    requires Publishes(s, c, call, i, cell)
    requires StopsFor(s, c, call)
    requires building - s.building == (if Reserving(call) then 1 else 0) - (if Reserving(s.calls[c]) then 1 else 0)
    ensures Inv(Update(s, c, call, i, cell, building))
  {
    StoppedIsNot(s, c);
    hide Locks, Queues, Provenance, Stops, Publishes;
    LocksUpdate(s, c, call, i, cell, building);
    QueuesUpdate(s, c, call, i, cell, building);
    ProvenanceUpdate(s, c, call, i, cell, building);
    StopsUpdate(s, c, call, i, cell, building);
    CountUpdate(s.calls, c, call, Reserving);
  }

  lemma StoppedIsNot(s: State, c: CallId)
    requires Inv(s) && c < |s.calls| && !s.calls[c].Returned?
    ensures forall a :: a in s.stops ==> a < |s.builders| && s.builders[a] != c
  {}

  /** What a call at its slot can rely on. */
  lemma AtSlot(s: State, c: CallId)
    requires Inv(s) && c < |s.calls| && s.calls[c].HasSlot()
    ensures var cell := s.cells[s.calls[c].slot];
      && (cell.holder == Some(c) <==> s.calls[c].HoldsPermit())
      && (c in cell.waiters <==> s.calls[c].Waits())
      && NoDup(cell.waiters)
      && (cell.value.Some? ==> cell.holder.None?)
      && NoDup(Without(cell.waiters, c)) && c !in Without(cell.waiters, c)
      && (!s.calls[c].Waits() ==> NoDup(cell.waiters + [c]))
  {
    WithoutNoDup(s.cells[s.calls[c].slot].waiters, c);
  }

  // ---- A call or a future appears ----

  lemma LocksAppend(s: State, call: Call)
    requires WellFormed(s) && Locks(s) && !call.HoldsPermit()
    ensures Locks(s.(calls := s.calls + [call]))
  {}

  lemma QueuesAppend(s: State, call: Call)
    requires WellFormed(s) && Queues(s) && !call.Waits()
    ensures Queues(s.(calls := s.calls + [call]))
  {}

  lemma ProvenanceAppend(s: State, call: Call)
    requires WellFormed(s) && Provenance(s) && !call.Unpublished() && !call.Returned?
    ensures Provenance(s.(calls := s.calls + [call]))
  {}

  lemma StopsAppend(s: State, call: Call)
    requires WellFormed(s) && Stops(s) && (call.HasSlot() ==> call.slot < |s.cells|)
    requires call.Killer() ==>
               !Mapped(s, call.slot)
               && forall k :: 0 <= k < |s.calls| && s.calls[k].Killer() ==> s.calls[k].slot != call.slot
    requires call.PendingKill() ==> forall a :: a in s.stops ==> !HeldBy(s, call.slot, a)
    requires call.KillDone? && call.found.Some? ==> call.found.value in s.stops && HeldBy(s, call.slot, call.found.value)
    ensures WellFormed(s.(calls := s.calls + [call])) && Stops(s.(calls := s.calls + [call]))
  {}

  lemma AppendKeeps(s: State, call: Call)
    requires Inv(s) && (call.Arrived? || call.KillHolding? || call.KillDone?)
    requires WellFormed(s.(calls := s.calls + [call])) && Stops(s.(calls := s.calls + [call]))
    ensures Inv(s.(calls := s.calls + [call]))
  {
    hide Locks, Queues, Provenance, Stops;
    LocksAppend(s, call);
    QueuesAppend(s, call);
    ProvenanceAppend(s, call);
    CountAppend(s.calls, call, Reserving);
  }

  // ---- Removing tasks ----

  /** Nobody will stop an agent of slot `i` any more. */
  ghost predicate NobodyPending(s: State, i: SlotId) {
    forall k :: 0 <= k < |s.calls| && s.calls[k].PendingKill() ==> s.calls[k].slot != i
  }

  lemma StopsPush(s: State, i: SlotId, a: AgentId)
    requires WellFormed(s) && Stops(s) && i < |s.cells| && !Mapped(s, i) && NobodyPending(s, i)
    requires HeldBy(s, i, a) && a !in s.stops
    ensures WellFormed(s.(stops := s.stops + [a])) && Stops(s.(stops := s.stops + [a]))
  {
    var r := s.(stops := s.stops + [a]);
    assert forall j, b :: HeldBy(r, j, b) == HeldBy(s, j, b);
    assert forall j :: 0 <= j < |s.cells| ==> Mapped(r, j) == Mapped(s, j);
    assert s.calls[s.builders[a]].Returned? && s.calls[s.builders[a]].slot == i;
    assert forall j :: HeldBy(s, j, a) ==> j == i;
    hide Mapped, HeldBy;
  }

  lemma UnmapKeepsStops(s: State, id: ConvId)
    requires WellFormed(s) && Stops(s)
    ensures var r := s.(tasks := s.tasks - {id}); WellFormed(r) && Stops(r)
  {
    var r := s.(tasks := s.tasks - {id});
    assert forall j, b :: HeldBy(r, j, b) == HeldBy(s, j, b);
    assert forall j :: 0 <= j < |s.cells| && Mapped(r, j) ==> Mapped(s, j);
    hide Mapped, HeldBy;
  }

  lemma RemoveStops(s: State, id: ConvId)
    requires WellFormed(s) && Provenance(s) && Stops(s)
    ensures Stops(Remove(s, id))
  {
    if id in s.tasks {
      var i := s.tasks[id];
      var value := s.cells[i].value;
      UnmapKeepsStops(s, id);
      var t := s.(tasks := s.tasks - {id});
      assert Mapped(s, i) && !Mapped(t, i);
      assert NobodyPending(t, i);
      if value.Some? {
        assert HeldBy(s, i, value.value.agent);
        assert HeldBy(t, i, value.value.agent) && value.value.agent !in s.stops;
        hide Stops, Provenance, Mapped, HeldBy, NobodyPending;
        StopsPush(t, i, value.value.agent);
      }
    }
  }

  /** Fields the three local parts of the invariant do not mention. */
  lemma Aside(s: State, r: State)
    requires Locks(s) && Queues(s) && Provenance(s)
    requires r.cells == s.cells && r.calls == s.calls && r.builders == s.builders && |r.agents| == |s.agents|
    ensures Locks(r) && Queues(r) && Provenance(r)
  {
    assert Locks(r);
    assert Queues(r);
    assert forall j, b :: HeldBy(r, j, b) == HeldBy(s, j, b);
    hide HeldBy, Locks, Queues;
  }

  lemma RemoveKeeps(s: State, id: ConvId)
    requires Inv(s)
    ensures Inv(Remove(s, id))
  {
    hide Locks, Queues, Provenance, Stops, Count;
    RemoveStops(s, id);
    Aside(s, Remove(s, id));
  }

  lemma {:induction false} RemoveAllKeeps(s: State, ids: seq<ConvId>)
    requires Inv(s)
    ensures Inv(RemoveAll(s, ids))
  {
    hide Locks, Queues, Provenance, Stops, Remove, Count;
    if ids != [] {
      RemoveAllKeeps(s, ids[..|ids| - 1]);
      RemoveKeeps(RemoveAll(s, ids[..|ids| - 1]), ids[|ids| - 1]);
    }
  }

  lemma RemoveAndWaitKeeps(s: State, id: ConvId)
    requires Inv(s)
    ensures Inv(RemoveAndWait(s, id))
  {
    if id in s.tasks {
      RemoveKeeps(s, id);
      var t := Remove(s, id);
      var call := RemoveAndWait(s, id).calls[|s.calls|];
      WaiterStops(s, id, call);
      hide Locks, Queues, Provenance, Stops, Count;
      AppendKeeps(t, call);
    }
  }

  lemma WaiterStops(s: State, id: ConvId, call: Call)
    requires Inv(s) && id in s.tasks && Inv(Remove(s, id))
    requires var value := s.cells[s.tasks[id]].value;
      call == if value.Some? then KillDone(s.tasks[id], Some(value.value.agent)) else KillHolding(s.tasks[id])
    ensures var t := Remove(s, id);
      WellFormed(t.(calls := t.calls + [call])) && Stops(t.(calls := t.calls + [call]))
  {
    hide Locks, Queues;
    var t := Remove(s, id);
    assert Mapped(s, call.slot) && !Mapped(t, call.slot);
    StopsAppend(t, call);
  }

  // ---- A slot, an agent, a stop ----

  lemma NewSlotKeeps(s: State, id: ConvId)
    requires Inv(s) && id !in s.tasks
    ensures Inv(s.(cells := s.cells + [Cell(id, None, None, [])], tasks := s.tasks[id := |s.cells|]))
  {
    hide Provenance, Stops, Count;
    NewSlotStops(s, id);
    NewSlotProvenance(s, id);
  }

  lemma NewSlotStops(s: State, id: ConvId)
    requires Inv(s) && id !in s.tasks
    ensures var r := s.(cells := s.cells + [Cell(id, None, None, [])], tasks := s.tasks[id := |s.cells|]);
      WellFormed(r) && Stops(r)
  {
    hide Locks, Queues, Provenance;
  }

  lemma NewSlotProvenance(s: State, id: ConvId)
    requires Inv(s) && id !in s.tasks
    ensures Provenance(s.(cells := s.cells + [Cell(id, None, None, [])], tasks := s.tasks[id := |s.cells|]))
  {
    hide Locks, Queues, Stops;
  }

  ghost function WithAgent(s: State, c: CallId, info: AgentInfo): (r: State)
    requires WellFormed(s) && c < |s.calls| && s.calls[c].Building?
    ensures WellFormed(r)
  {
    var call := s.calls[c];
    SetCall(s, c, Built(call.id, call.want, call.slot, |s.agents|))
      .(agents := s.agents + [info], builders := s.builders + [c])
  }

  lemma WithAgentProvenance(s: State, c: CallId, info: AgentInfo)
    requires Inv(s) && c < |s.calls| && s.calls[c].Building?
    ensures Provenance(WithAgent(s, c, info))
  {
    hide Locks, Queues, Stops;
  }

  lemma WithAgentStops(s: State, c: CallId, info: AgentInfo)
    requires Inv(s) && c < |s.calls| && s.calls[c].Building?
    ensures Stops(WithAgent(s, c, info))
  {
    StoppedIsNot(s, c);
    var i := s.calls[c].slot;
    var call := WithAgent(s, c, info).calls[c];
    hide Locks, Queues, Provenance, Stops;
    StopsUpdate(s, c, call, i, s.cells[i], s.building);
    var t := Update(s, c, call, i, s.cells[i], s.building);
    StopsBuilder(t, c, s.agents + [info]);
    assert WithAgent(s, c, info) == t.(agents := s.agents + [info], builders := s.builders + [c]);
  }

  lemma StopsBuilder(s: State, c: CallId, agents: seq<AgentInfo>)
    requires WellFormed(s) && Stops(s)
    ensures var r := s.(agents := agents, builders := s.builders + [c]); WellFormed(r) && Stops(r)
  {}

  lemma WithAgentLocks(s: State, c: CallId, info: AgentInfo)
    requires Inv(s) && c < |s.calls| && s.calls[c].Building?
    ensures Locks(WithAgent(s, c, info)) && Queues(WithAgent(s, c, info))
  {
    hide Provenance, Stops;
  }

  lemma WithAgentKeeps(s: State, c: CallId, info: AgentInfo)
    requires Inv(s) && c < |s.calls| && s.calls[c].Building?
    ensures Inv(WithAgent(s, c, info))
  {
    WithAgentProvenance(s, c, info);
    WithAgentStops(s, c, info);
    WithAgentLocks(s, c, info);
    hide Locks, Queues, Provenance, Stops;
    CountUpdate(s.calls, c, WithAgent(s, c, info).calls[c], Reserving);
  }

  /** The kill future leaves the queue and stops the agent it found. */
  lemma KillFoundKeeps(s: State, c: CallId)
    requires Inv(s) && c < |s.calls| && s.calls[c].PendingKill() && Full(s, c)
    ensures var i := s.calls[c].slot;
      var a := s.cells[i].value.value.agent;
      Inv(Dequeue(s, c, KillDone(i, Some(a))).(stops := s.stops + [a]))
  {
    var i := s.calls[c].slot;
    var a := s.cells[i].value.value.agent;
    FoundIsNew(s, c);
    LeaveQueueKeeps(s, c);
    hide Locks, Queues, Provenance, Stops, Count, HeldBy, Inv;
    var t := Dequeue(s, c, KillDone(i, None));
    HolderElsewhere(s, t, i, a);
    KillDoneKeeps(t, c, a);
    assert t.calls[c := KillDone(i, Some(a))] == s.calls[c := KillDone(i, Some(a))];
  }

  lemma LeaveQueueKeeps(s: State, c: CallId)
    requires Inv(s) && c < |s.calls| && s.calls[c].PendingKill()
    ensures Inv(Dequeue(s, c, KillDone(s.calls[c].slot, None)))
  {
    hide Locks, Queues, Provenance, Stops, Count, HeldBy;
    AtSlot(s, c);
    var i := s.calls[c].slot;
    var cell := s.cells[i].(waiters := Without(s.cells[i].waiters, c));
    UpdateKeeps(s, c, KillDone(i, None), i, cell, s.building);
  }

  lemma FoundIsNew(s: State, c: CallId)
    requires Inv(s) && c < |s.calls| && s.calls[c].PendingKill() && Full(s, c)
    ensures var a := s.cells[s.calls[c].slot].value.value.agent;
      HeldBy(s, s.calls[c].slot, a) && s.builders[a] != c && a !in s.stops
  {}

  lemma KillDoneKeeps(s: State, c: CallId, a: AgentId)
    requires Inv(s) && c < |s.calls| && s.calls[c].KillDone?
    requires HeldBy(s, s.calls[c].slot, a) && a !in s.stops
    ensures Inv(s.(stops := s.stops + [a], calls := s.calls[c := KillDone(s.calls[c].slot, Some(a))]))
  {
    var i := s.calls[c].slot;
    DoneIsQuiet(s, c);
    hide Locks, Queues, Provenance, Stops, Count, NobodyPending, HeldBy;
    var t := s.(stops := s.stops + [a]);
    AtSlot(s, c);
    StopsPush(s, i, a);
    Aside(s, t);
    assert Inv(t);
    assert s.cells[i := s.cells[i]] == s.cells;
    assert HeldBy(t, i, a) by { SameHolder(s, t, i, a); }
    UpdateKeeps(t, c, KillDone(i, Some(a)), i, s.cells[i], s.building);
  }

  lemma DoneIsQuiet(s: State, c: CallId)
    requires WellFormed(s) && Stops(s) && c < |s.calls| && s.calls[c].KillDone?
    ensures !Mapped(s, s.calls[c].slot) && NobodyPending(s, s.calls[c].slot)
  {
    hide HeldBy;
  }

  lemma HolderElsewhere(s: State, r: State, i: SlotId, a: AgentId)
    requires HeldBy(s, i, a) && r.builders == s.builders
    requires s.builders[a] < |r.calls| && r.calls[s.builders[a]] == s.calls[s.builders[a]]
    ensures HeldBy(r, i, a)
  {}

  lemma SameHolder(s: State, r: State, i: SlotId, a: AgentId)
    requires r.builders == s.builders && r.calls == s.calls
    ensures HeldBy(r, i, a) == HeldBy(s, i, a)
  {}

  // ---- The steps ----

  lemma StartKeeps(s: State, id: ConvId, want: RuntimeCapabilities)
    requires Inv(s)
    ensures Inv(Apply(s, Start(id, want)))
  {
    hide Locks, Queues, Provenance, Stops, Count;
    StopsAppend(s, Arrived(id, want));
    AppendKeeps(s, Arrived(id, want));
  }

  lemma SlotlessKeeps(s: State, c: CallId, call: Call)
    requires Inv(s) && c < |s.calls| && !s.calls[c].HasSlot() && !call.HasSlot()
    ensures Inv(SetCall(s, c, call))
  {
    hide Locks, Queues, Provenance, Stops, Count;
    UpdateKeeps(s, c, call, |s.cells|, NO_CELL, s.building);
  }

  lemma ObtainKeeps(s: State, c: CallId)
    requires Inv(s) && c < |s.calls| && s.calls[c].Ready?
    ensures Inv(ObtainSlot(s, c))
  {
    hide Locks, Queues, Provenance, Stops, Count;
    var call := s.calls[c];
    var t := if call.id in s.tasks then s
             else s.(cells := s.cells + [Cell(call.id, None, None, [])], tasks := s.tasks[call.id := |s.cells|]);
    if call.id !in s.tasks {
      NewSlotKeeps(s, call.id);
    }
    var i := t.tasks[call.id];
    SlotFree(t, c, i);
    UpdateKeeps(t, c, Holding(call.id, call.want, i), i, t.cells[i], t.building);
    assert ObtainSlot(s, c) == Update(t, c, Holding(call.id, call.want, i), i, t.cells[i], t.building);
  }

  lemma SlotFree(s: State, c: CallId, i: SlotId)
    requires Inv(s) && c < |s.calls| && !s.calls[c].HasSlot() && i < |s.cells|
    ensures s.cells[i].holder != Some(c) && c !in s.cells[i].waiters && NoDup(s.cells[i].waiters)
    ensures s.cells[i].value.Some? ==> s.cells[i].holder.None?
  {}

  lemma AbandonKeeps(s: State, c: CallId)
    requires Inv(s) && c < |s.calls| && s.calls[c].HoldsPermit() && !s.calls[c].Unpublished()
    ensures Inv(Abandon(s, c))
  {
    hide Locks, Queues, Provenance, Stops, Count;
    AtSlot(s, c);
    var i := s.calls[c].slot;
    UpdateKeeps(s, c, Failed, i, s.cells[i].(holder := None), Abandon(s, c).building);
  }

  lemma EnqueueKeeps(s: State, c: CallId, call: Call)
    requires Inv(s) && c < |s.calls| && (s.calls[c].Holding? || s.calls[c].KillHolding?)
    requires call.Waits() && call.slot == s.calls[c].slot && (call.KillQueued? ==> s.calls[c].KillHolding?)
    ensures Inv(Enqueue(s, c, call))
  {
    hide Locks, Queues, Provenance, Stops, Count;
    AtSlot(s, c);
    var i := s.calls[c].slot;
    UpdateKeeps(s, c, call, i, s.cells[i].(waiters := s.cells[i].waiters + [c]), s.building);
  }

  lemma DequeueKeeps(s: State, c: CallId, call: Call)
    requires Inv(s) && c < |s.calls| && (s.calls[c].Waits() || s.calls[c].Holding? || s.calls[c].KillHolding?)
    requires || call.Failed?
             || (s.calls[c].KillQueued? && call == KillDone(s.calls[c].slot, None))
             || (Full(s, c) && call.Returned? && call.slot == s.calls[c].slot
                 && call.agent == s.cells[call.slot].value.value.agent)
    ensures Inv(Dequeue(s, c, call))
  {
    hide Locks, Queues, Provenance, Stops, Count;
    AtSlot(s, c);
    var i := s.calls[c].slot;
    UpdateKeeps(s, c, call, i, s.cells[i].(waiters := Without(s.cells[i].waiters, c)), s.building);
  }

  /** Leaving a queue one is not in changes nothing. */
  lemma NotQueued(s: State, c: CallId, call: Call)
    requires Inv(s) && c < |s.calls| && (s.calls[c].Holding? || s.calls[c].KillHolding?)
    requires call.HasSlot() ==> call.slot == s.calls[c].slot
    ensures Dequeue(s, c, call) == SetCall(s, c, call)
  {
    AtSlot(s, c);
    var i := s.calls[c].slot;
    WithoutAbsent(s.cells[i].waiters, c);
    hide Locks, Queues, Provenance, Stops, Count;
    assert s.cells[i := s.cells[i]] == s.cells;
  }

  lemma PermitStepKeeps(s: State, c: CallId, call: Call, cell: Cell, building: int)
    requires Inv(s) && c < |s.calls| && s.calls[c].HasSlot() && call.HasSlot() && call.slot == s.calls[c].slot
    requires var i := s.calls[c].slot;
      || (s.calls[c].Queued? && call.Initialising? && Granted(s, c) && building == s.building
          && cell == s.cells[i].(holder := Some(c), waiters := Without(s.cells[i].waiters, c)))
      || (s.calls[c].Initialising? && call.Building? && building == s.building + 1 && cell == s.cells[i])
      || (s.calls[c].Built? && call.Released? && call.agent == s.calls[c].agent && building == s.building - 1
          && cell == s.cells[i])
      || (s.calls[c].Released? && call.Returned? && call.agent == s.calls[c].agent && building == s.building
          && cell == s.cells[i].(value := Some(Managed(call.agent, call.want)), holder := None))
    ensures Inv(SetCall(SetCell(s, s.calls[c].slot, cell), c, call).(building := building))
  {
    hide Locks, Queues, Provenance, Stops, Count;
    AtSlot(s, c);
    UpdateKeeps(s, c, call, s.calls[c].slot, cell, building);
  }

  lemma ReserveKeeps(s: State, c: CallId)
    requires Inv(s) && c < |s.calls| && s.calls[c].Initialising?
    ensures var call := s.calls[c];
      Inv(SetCall(s, c, Building(call.id, call.want, call.slot)).(building := s.building + 1))
  {
    var call := s.calls[c];
    hide Locks, Queues, Provenance, Stops, Count;
    assert s.cells[call.slot := s.cells[call.slot]] == s.cells;
    PermitStepKeeps(s, c, Building(call.id, call.want, call.slot), s.cells[call.slot], s.building + 1);
  }

  lemma AdmitKeeps(s: State, c: CallId, d: Decision)
    requires Inv(s) && c < |s.calls| && s.calls[c].Initialising?
    ensures Inv(Enforce(s, c, d))
  {
    hide Locks, Queues, Provenance, Stops, Count, RemoveAll, Abandon;
    RemoveAllKeeps(s, d.victims);
    var t := RemoveAll(s, d.victims);
    if d.admitted {
      ReserveKeeps(t, c);
    } else {
      AbandonKeeps(t, c);
    }
  }

  lemma LookKeeps(s: State, step: Step)
    requires Inv(s) && Enabled(s, step) && (step.Enter? || step.KillEnter?)
    ensures Inv(Apply(s, step))
  {
    var c := step.c;
    var call := Apply(s, step).calls[c];
    hide Locks, Queues, Provenance, Stops, Count;
    if !Full(s, c) {
      EnqueueKeeps(s, c, call);
    } else {
      NotQueued(s, c, call);
      if step.Enter? { DequeueKeeps(s, c, call); } else { KillFoundKeeps(s, c); }
    }
  }

  lemma CancelKeeps(s: State, c: CallId)
    requires Inv(s) && Enabled(s, Cancel(c))
    ensures Inv(Apply(s, Cancel(c)))
  {
    hide Locks, Queues, Provenance, Stops, Count;
    if s.calls[c].HoldsPermit() {
      AbandonKeeps(s, c);
    } else if s.calls[c].Waits() {
      DequeueKeeps(s, c, Failed);
    } else if s.calls[c].HasSlot() {
      NotQueued(s, c, Failed);
      DequeueKeeps(s, c, Failed);
    } else {
      SlotlessKeeps(s, c, Failed);
    }
  }

  lemma ReleaseKeeps(s: State, c: CallId)
    requires Inv(s) && Enabled(s, Release(c))
    ensures Inv(Apply(s, Release(c)))
  {
    var r := Apply(s, Release(c));
    var i := s.calls[c].slot;
    hide Locks, Queues, Provenance, Stops, Count;
    assert s.cells[i := s.cells[i]] == s.cells;
    PermitStepKeeps(s, c, r.calls[c], s.cells[i], r.building);
  }

  lemma BuildStepKeeps(s: State, step: Step)
    requires Inv(s) && Enabled(s, step)
    requires step.Acquire? || step.Admit? || step.FactoryOk? || step.FactoryErr? || step.Release? || step.Publish?
    ensures Inv(Apply(s, step))
  {
    hide Locks, Queues, Provenance, Stops, Count, Decide, Enforce;
    var c := step.c;
    if step.Admit? {
      AdmitKeeps(s, c, DecisionOf(s, step));
    } else if step.FactoryOk? {
      WithAgentKeeps(s, c, step.info);
    } else if step.FactoryErr? {
      AbandonKeeps(s, c);
    } else if step.Release? {
      ReleaseKeeps(s, c);
    } else {
      var r := Apply(s, step);
      PermitStepKeeps(s, c, r.calls[c], r.cells[s.calls[c].slot], s.building);
    }
  }

  lemma KillStepKeeps(s: State, step: Step)
    requires Inv(s) && Enabled(s, step)
    requires step.Kill? || step.KillAndWait? || step.KillAcquire? || step.KillWake?
    ensures Inv(Apply(s, step))
  {
    hide Locks, Queues, Provenance, Stops, Count, RemoveAndWait, Remove;
    if step.Kill? {
      RemoveKeeps(s, step.victim);
    } else if step.KillAndWait? {
      RemoveAndWaitKeeps(s, step.victim);
    } else if step.KillAcquire? {
      DequeueKeeps(s, step.c, KillDone(s.calls[step.c].slot, None));
    } else {
      KillFoundKeeps(s, step.c);
    }
  }

  lemma CallStepKeeps(s: State, step: Step)
    requires Inv(s) && Enabled(s, step)
    requires step.Start? || step.Check? || step.Replace? || step.Obtain? || step.Wake? || step.Cancel?
    ensures Inv(Apply(s, step))
  {
    hide Locks, Queues, Provenance, Stops, Count, ObtainSlot, Remove;
    if step.Start? {
      StartKeeps(s, step.id, step.want);
    } else if step.Check? {
      SlotlessKeeps(s, step.c, Apply(s, step).calls[step.c]);
    } else if step.Replace? {
      RemoveKeeps(s, s.calls[step.c].id);
      SlotlessKeeps(Remove(s, s.calls[step.c].id), step.c, Apply(s, step).calls[step.c]);
    } else if step.Obtain? {
      ObtainKeeps(s, step.c);
    } else if step.Wake? {
      DequeueKeeps(s, step.c, Apply(s, step).calls[step.c]);
    } else {
      CancelKeeps(s, step.c);
    }
  }

  lemma StepKeepsInv(s: State, step: Step)
    requires Inv(s) && Enabled(s, step)
    ensures Inv(Apply(s, step))
  {
    if step.Kill? || step.KillAndWait? || step.KillAcquire? || step.KillWake? {
      KillStepKeeps(s, step);
    } else if step.Start? || step.Check? || step.Replace? || step.Obtain? || step.Wake? || step.Cancel? {
      CallStepKeeps(s, step);
    } else if step.Enter? || step.KillEnter? {
      LookKeeps(s, step);
    } else if step.Configure? || step.AgentChange? {
      EnvironmentKeeps(s, Apply(s, step));
    } else {
      hide *;
      BuildStepKeeps(s, step);
    }
  }

  lemma EnvironmentKeeps(s: State, r: State)
    requires Inv(s) && r == s.(limit := r.limit, agents := r.agents) && |r.agents| == |s.agents|
    ensures Inv(r)
  {
    Aside(s, r);
    StopsAside(s, r);
    hide Locks, Queues, Provenance, Stops, Count;
  }

  lemma StopsAside(s: State, r: State)
    requires WellFormed(s) && Stops(s) && r == s.(limit := r.limit, agents := r.agents)
    ensures WellFormed(r) && Stops(r)
  {
    assert forall j, b :: HeldBy(r, j, b) == HeldBy(s, j, b);
    assert forall j :: 0 <= j < |s.cells| ==> Mapped(r, j) == Mapped(s, j);
    hide Mapped, HeldBy;
  }

  /** Every reachable state satisfies the invariant. */
  lemma {:induction false} ReachableInv(s: State, steps: seq<Step>)
    requires Inv(s) && Valid(s, steps)
    ensures Inv(Run(s, steps))
  {
    hide Enabled, Apply, Locks, Queues, Provenance, Stops, Count;
    if steps != [] {
      ReachableInv(s, steps[..|steps| - 1]);
      StepKeepsInv(Run(s, steps[..|steps| - 1]), steps[|steps| - 1]);
    }
  }
}
