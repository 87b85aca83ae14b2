/** Single flight, conservation of agents, and where orphaned agents come from. */
module PoolSafety {
  import opened Basics
  import opened Admission
  import opened Pool
  import opened PoolInvariant
  import opened PoolCapacity

  ghost predicate BuiltIn(s: State, a: AgentId, slot: SlotId) {
    && a < |s.builders| && s.builders[a] < |s.calls|
    && (s.calls[s.builders[a]].Unpublished() || s.calls[s.builders[a]].Returned?)
    && s.calls[s.builders[a]].slot == slot
  }

  /**
   Per slot at most one call runs the factory, and only while the cell is empty; at most one build ever
   succeeds; every call that returned from a slot got the same agent.
   */
  ghost predicate OneFlightPerSlot(s: State)
    requires WellFormed(s)
  {
    && (forall c, d :: 0 <= c < |s.calls| && 0 <= d < |s.calls| && SameSlot(s.calls[c], s.calls[d]) ==>
          && (s.calls[c].HoldsPermit() && s.calls[d].HoldsPermit() ==> c == d)
          && (s.calls[c].Returned? && s.calls[d].Returned? ==> s.calls[c].agent == s.calls[d].agent)
          && !(s.calls[c].HoldsPermit() && s.calls[d].Returned?))
    && (forall a: AgentId, b: AgentId, i: SlotId :: BuiltIn(s, a, i) && BuiltIn(s, b, i) ==> a == b)
  }

  predicate SameSlot(c: Call, d: Call) { c.HasSlot() && d.HasSlot() && c.slot == d.slot }

  lemma OneFlightFromInv(s: State)
    requires Inv(s)
    ensures OneFlightPerSlot(s)
  {
    hide Stops, Queues, Count;
    forall c, d | 0 <= c < |s.calls| && 0 <= d < |s.calls| && SameSlot(s.calls[c], s.calls[d])
      ensures s.calls[c].HoldsPermit() && s.calls[d].HoldsPermit() ==> c == d
      ensures s.calls[c].Returned? && s.calls[d].Returned? ==> s.calls[c].agent == s.calls[d].agent
      ensures !(s.calls[c].HoldsPermit() && s.calls[d].Returned?)
    {
      var cell := s.cells[s.calls[c].slot];
      assert s.calls[c].HoldsPermit() ==> cell.holder == Some(c);
    }
    forall a: AgentId, b: AgentId, i: SlotId | BuiltIn(s, a, i) && BuiltIn(s, b, i) ensures a == b {
      assert SameSlot(s.calls[s.builders[a]], s.calls[s.builders[b]]);
    }
  }

  lemma SingleFlight(steps: seq<Step>)
    requires Valid(INIT, steps)
    ensures OneFlightPerSlot(Run(INIT, steps))
  {
    InitInv();
    ReachableInv(INIT, steps);
    hide Apply, Enabled, Inv, OneFlightPerSlot;
    OneFlightFromInv(Run(INIT, steps));
  }

  /** A published value never changes again. */
  lemma {:induction false} PublishedForever(s: State, steps: seq<Step>, i: SlotId)
    requires Inv(s) && Valid(s, steps) && i < |s.cells| && s.cells[i].value.Some?
    ensures i < |Run(s, steps).cells| && Run(s, steps).cells[i].value == s.cells[i].value
  {
    hide Apply, Queues, Stops, Provenance, Count;
    if steps != [] {
      var n := |steps| - 1;
      PublishedForever(s, steps[..n], i);
      ReachableInv(s, steps[..n]);
      var t := Run(s, steps[..n]);
      StepCells(t, steps[n]);
    }
  }

  /** The cell is empty, its permit is free, and the first waiter can take it. */
  ghost predicate Retryable(s: State, i: SlotId)
    requires WellFormed(s)
  {
    && i < |s.cells| && s.cells[i].value.None? && s.cells[i].holder.None?
    && (s.cells[i].waiters != [] ==>
          var w := s.cells[i].waiters[0];
          w < |s.calls| && s.calls[w].Waits() && s.calls[w].slot == i && Granted(s, w))
  }

  lemma AbandonRetryable(s: State, c: CallId)
    requires Inv(s) && c < |s.calls| && s.calls[c].HoldsPermit() && !s.calls[c].Unpublished()
    ensures Retryable(Abandon(s, c), s.calls[c].slot)
  {
    AtSlot(s, c);
    AbandonKeeps(s, c);
    hide Stops, Provenance, Count;
    var r := Abandon(s, c);
    var i := s.calls[c].slot;
    if r.cells[i].waiters != [] {
      assert r.cells[i].waiters[0] in r.cells[i].waiters;
    }
  }

  /** A build that fails, is refused or is cancelled leaves the cell retryable. */
  lemma FailureLeavesRetryable(s: State, step: Step)
    requires Inv(s) && Enabled(s, step)
    requires step.FactoryErr? || step.Admit? || step.Cancel?
    requires s.calls[step.c].HoldsPermit() && Apply(s, step).calls[step.c].Failed?
    ensures Retryable(Apply(s, step), s.calls[step.c].slot)
  {
    hide Decide, Locks, Queues, Stops, Provenance, Count, Enumerates, Retryable, RemoveAll;
    if step.Admit? {
      RemoveAllKeeps(s, DecisionOf(s, step).victims);
      AbandonRetryable(RemoveAll(s, DecisionOf(s, step).victims), step.c);
    } else {
      AbandonRetryable(s, step.c);
    }
  }

  // ---- Conservation ----

  ghost predicate Unpublished(s: State, a: AgentId) {
    exists c :: 0 <= c < |s.calls| && s.calls[c].Unpublished() && s.calls[c].agent == a
  }

  ghost predicate Resident(s: State, a: AgentId)
    requires WellFormed(s)
  {
    exists id :: id in s.tasks && s.cells[s.tasks[id]].value.Some? && s.cells[s.tasks[id]].value.value.agent == a
  }

  ghost predicate Stopped(s: State, a: AgentId) { a in s.stops }

  /** Sits in a slot taken out of the map, not stopped. */
  ghost predicate Stranded(s: State, a: AgentId, i: SlotId) {
    && i < |s.cells| && s.cells[i].value.Some? && s.cells[i].value.value.agent == a
    && (forall id :: id in s.tasks ==> s.tasks[id] != i) && a !in s.stops
  }

  ghost predicate KillPending(s: State, i: SlotId) {
    exists k :: 0 <= k < |s.calls| && s.calls[k].PendingKill() && s.calls[k].slot == i
  }

  /** A `kill_and_wait` future is still going to stop it. */
  ghost predicate Awaited(s: State, a: AgentId) {
    exists i :: Stranded(s, a, i) && KillPending(s, i)
  }

  /** Nobody will ever stop it. */
  ghost predicate Orphaned(s: State, a: AgentId) {
    exists i :: Stranded(s, a, i) && !KillPending(s, i)
  }

  lemma StrandedSlot(s: State, a: AgentId, i: SlotId)
    requires Inv(s) && Stranded(s, a, i)
    ensures HeldBy(s, i, a) && !Mapped(s, i)
  {
    hide Locks, Queues, Count, Stops;
  }

  lemma UnmappedIsStranded(s: State, a: AgentId, i: SlotId)
    requires Inv(s) && HeldBy(s, i, a) && !Mapped(s, i) && a !in s.stops
    ensures Stranded(s, a, i)
  {
    hide Locks, Queues, Count, Stops;
    assert i < |s.cells|;
    forall id | id in s.tasks ensures s.tasks[id] != i {
      assert s.cells[s.tasks[id]].owner == id;
    }
  }

  /**
   Conservation of agents: every successfully built agent is exactly one of not yet published, resident,
   handed over for stopping, awaited by a `kill_and_wait` future, or orphaned; none is stopped twice.
   */
  lemma AgentsConserved(steps: seq<Step>, a: AgentId)
    requires Valid(INIT, steps) && a < |Run(INIT, steps).agents|
    ensures var s := Run(INIT, steps);
      && NoDup(s.stops)
      && (Unpublished(s, a) || Resident(s, a) || Stopped(s, a) || Awaited(s, a) || Orphaned(s, a))
      && (Unpublished(s, a) ==> !Resident(s, a) && !Stopped(s, a) && !Awaited(s, a) && !Orphaned(s, a))
      && (Resident(s, a) ==> !Stopped(s, a) && !Awaited(s, a) && !Orphaned(s, a))
      && (Stopped(s, a) ==> !Awaited(s, a) && !Orphaned(s, a))
      && (Awaited(s, a) ==> !Orphaned(s, a))
  {
    InitInv();
    ReachableInv(INIT, steps);
    hide Apply, Enabled, Run, Valid, Locks, Queues, Count;
    Classified(Run(INIT, steps), a);
  }

  lemma Classified(s: State, a: AgentId)
    requires Inv(s) && a < |s.agents|
    ensures Unpublished(s, a) || Resident(s, a) || Stopped(s, a) || Awaited(s, a) || Orphaned(s, a)
    ensures Unpublished(s, a) ==> !Resident(s, a) && !Stopped(s, a) && !Awaited(s, a) && !Orphaned(s, a)
    ensures Resident(s, a) ==> !Stopped(s, a) && !Awaited(s, a) && !Orphaned(s, a)
    ensures Awaited(s, a) ==> !Orphaned(s, a)
  {
    hide Locks, Queues, Count, KillPending;
    var b := s.builders[a];
    var i := s.calls[b].slot;
    assert s.calls[b].Unpublished() || s.calls[b].Returned?;
    if s.calls[b].Unpublished() {
      assert Unpublished(s, a);
    } else {
      assert HeldBy(s, i, a);
      if Mapped(s, i) {
        assert s.cells[i].owner in s.tasks;
        assert Resident(s, a);
      } else if a !in s.stops {
        UnmappedIsStranded(s, a, i);
      }
    }
    forall j | Stranded(s, a, j) ensures j == i && s.calls[b].Returned? && !Mapped(s, i) {
      StrandedSlot(s, a, j);
    }
    if Resident(s, a) {
      var id :| id in s.tasks && s.cells[s.tasks[id]].value.Some? && s.cells[s.tasks[id]].value.value.agent == a;
      assert HeldBy(s, s.tasks[id], a) && s.cells[s.tasks[id]].owner == id;
      assert s.tasks[id] == i && Mapped(s, i);
    }
  }

  // ---- Where orphans come from ----

  /** Step `j` of the run took slot `i` out of the map while it was empty and call `c` held it. */
  ghost predicate RemovedUnder(steps: seq<Step>, j: nat, c: CallId, i: SlotId) {
    && j < |steps| && WellFormed(INIT) && Valid(INIT, steps[..j])
    && var s := Run(INIT, steps[..j]);
       && Enabled(s, steps[j]) && i < |s.cells| && i < |Apply(s, steps[j]).cells|
       && Mapped(s, i) && !Mapped(Apply(s, steps[j]), i)
       && HoldsEmpty(s, c, i)
  }

  ghost predicate HoldsEmpty(s: State, c: CallId, i: SlotId) {
    && c < |s.calls| && i < |s.cells|
    && s.calls[c].Contends() && s.calls[c].slot == i && s.cells[i].value.None?
  }

  /** `c` built the agent in slot `i`, and nobody stopped it. */
  ghost predicate LeftBehind(s: State, c: CallId, i: SlotId) {
    && c < |s.calls| && i < |s.cells| && s.calls[c].Returned? && s.calls[c].slot == i
    && s.calls[c].agent < |s.builders| && s.builders[s.calls[c].agent] == c && s.calls[c].agent !in s.stops
  }

  ghost predicate Exposed(s: State, c: CallId, i: SlotId) {
    (HoldsEmpty(s, c, i) || LeftBehind(s, c, i)) && !Mapped(s, i)
  }

  lemma {:induction false} RemoveAllStops(s: State, ids: seq<ConvId>, i: SlotId)
    requires WellFormed(s) && i < |s.cells| && Mapped(s, i) && s.cells[i].value.Some?
    ensures !Mapped(RemoveAll(s, ids), i) ==> s.cells[i].value.value.agent in RemoveAll(s, ids).stops
  {
    if ids != [] {
      RemoveAllStops(s, ids[..|ids| - 1], i);
    }
  }

  /** Taking an initialised slot out of the map always hands its agent over for stopping. */
  lemma UnmapStops(s: State, step: Step, i: SlotId)
    requires WellFormed(s) && Enabled(s, step) && i < |s.cells| && Mapped(s, i) && s.cells[i].value.Some?
    ensures var r := Apply(s, step);
      i < |r.cells| && (!Mapped(r, i) ==> s.cells[i].value.value.agent in r.stops)
  {
    StepCells(s, step);
    hide Decide, Enumerates, RemoveAll;
    if step.Admit? {
      RemoveAllStops(s, DecisionOf(s, step).victims, i);
    }
  }

  lemma HoldsEmptyBefore(s: State, step: Step, c: CallId, i: SlotId)
    requires WellFormed(s) && Enabled(s, step)
    requires HoldsEmpty(Apply(s, step), c, i) && !Mapped(Apply(s, step), i)
    ensures HoldsEmpty(s, c, i)
  {
    hide Apply, Enabled;
    StepCells(s, step);
    StepCalls(s, step);
    NewCalls(s, step);
    PublishFills(s, step);
    if step.Obtain? {
      ObtainMapped(s, step.c);
    }
    assert c < |s.calls|;
    if Moves(step, c) {
      StepMoves(s, step, c);
    }
    assert s.calls[c].Contends() && s.calls[c].slot == i;
  }

  lemma NewCalls(s: State, step: Step)
    requires WellFormed(s) && Enabled(s, step)
    ensures forall c :: |s.calls| <= c < |Apply(s, step).calls| ==>
              !Apply(s, step).calls[c].Contends() && !Apply(s, step).calls[c].Returned?
    ensures forall a :: |s.builders| <= a < |Apply(s, step).builders| ==>
              step.FactoryOk? && Apply(s, step).builders[a] == step.c && Apply(s, step).calls[step.c].Built?
  {
    hide Decide, Enumerates, RemoveAll;
    var r := Apply(s, step);
    if step.FactoryOk? {
      assert r.builders == s.builders + [step.c];
    } else {
      assert r.builders == s.builders;
    }
  }

  lemma PublishFills(s: State, step: Step)
    requires WellFormed(s) && Enabled(s, step)
    ensures step.Publish? ==> Apply(s, step).cells[s.calls[step.c].slot].value.Some?
  {}

  lemma LeftBehindBefore(s: State, step: Step, c: CallId, i: SlotId)
    requires Inv(s) && Enabled(s, step) && LeftBehind(Apply(s, step), c, i)
    ensures HoldsEmpty(s, c, i) || LeftBehind(s, c, i)
  {
    hide Apply, Enabled, Queues, Stops, Count, CellsKept;
    StepCalls(s, step);
    NewCalls(s, step);
    assert c < |s.calls|;
    var r := Apply(s, step);
    var a := r.calls[c].agent;
    assert s.builders[a] == c && a !in s.stops;
    assert s.calls[c].Unpublished() || s.calls[c].Returned?;
    if Moves(step, c) {
      StepMoves(s, step, c);
      AtSlot(s, c);
      assert HoldsEmpty(s, c, i);
    } else {
      assert s.calls[c] == r.calls[c];
      assert LeftBehind(s, c, i);
    }
  }

  lemma ExposedBefore(s: State, step: Step, c: CallId, i: SlotId)
    requires Inv(s) && Enabled(s, step) && Exposed(Apply(s, step), c, i)
    ensures Exposed(s, c, i) || (HoldsEmpty(s, c, i) && Mapped(s, i))
  {
    hide Apply, Enabled, Locks, Queues, Stops, Count;
    var r := Apply(s, step);
    if HoldsEmpty(r, c, i) {
      HoldsEmptyBefore(s, step, c, i);
    } else {
      LeftBehindBefore(s, step, c, i);
      if LeftBehind(s, c, i) && Mapped(s, i) {
        assert s.cells[i].value.Some? && s.cells[i].value.value.agent == s.calls[c].agent;
        UnmapStops(s, step, i);
        StepCalls(s, step);
        if Moves(step, c) { StepMoves(s, step, c); }
      }
    }
  }

  lemma {:induction false} ExposedCause(steps: seq<Step>, c: CallId, i: SlotId)
    requires Valid(INIT, steps) && Exposed(Run(INIT, steps), c, i)
    ensures exists j: nat :: RemovedUnder(steps, j, c, i)
  {
    InitInv();
    hide Enabled, Apply, Inv, HoldsEmpty, LeftBehind;
    if steps == [] {
      InitHasNoSlots(c, i);
    } else {
      var n := |steps| - 1;
      var s := Run(INIT, steps[..n]);
      ReachableInv(INIT, steps[..n]);
      ExposedBefore(s, steps[n], c, i);
      if Exposed(s, c, i) {
        ExposedCause(steps[..n], c, i);
        var j: nat :| RemovedUnder(steps[..n], j, c, i);
        assert steps[..n][..j] == steps[..j];
        assert RemovedUnder(steps, j, c, i);
      } else {
        HoldsInRange(s, steps[n], c, i);
        assert RemovedUnder(steps, n, c, i);
      }
    }
  }

  lemma InitHasNoSlots(c: CallId, i: SlotId)
    ensures !HoldsEmpty(INIT, c, i) && !LeftBehind(INIT, c, i)
  {}

  lemma HoldsInRange(s: State, step: Step, c: CallId, i: SlotId)
    requires WellFormed(s) && Enabled(s, step) && HoldsEmpty(s, c, i)
    ensures i < |s.cells| <= |Apply(s, step).cells|
  {
    StepCells(s, step);
  }

  /**
   Orphans arise only from a removal that overlapped the call that built the agent: while that call
   held the slot, and before anything was stored in it, some step took the slot out of the map.
   */
  lemma OrphansNeedOverlap(steps: seq<Step>, a: AgentId)
    requires Valid(INIT, steps) && Orphaned(Run(INIT, steps), a)
    ensures a < |Run(INIT, steps).builders|
    ensures exists j: nat, i: SlotId :: RemovedUnder(steps, j, Run(INIT, steps).builders[a], i)
  {
    InitInv();
    ReachableInv(INIT, steps);
    var s := Run(INIT, steps);
    var i :| Stranded(s, a, i) && !KillPending(s, i);
    StrandedSlot(s, a, i);
    assert Exposed(s, s.builders[a], i) by { hide Run, Valid, Locks, Queues, Stops, Count; }
    hide Apply, Enabled, Inv;
    ExposedCause(steps, s.builders[a], i);
    var j: nat :| RemovedUnder(steps, j, s.builders[a], i);
  }
}
