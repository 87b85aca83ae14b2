/**
 When taking a slot out of the map can leave an agent that nobody stops: exactly when the slot was empty
 and some call still held it.
 */
module PoolStrand {
  import opened Basics
  import opened Admission
  import opened Pool
  import opened PoolInvariant
  import opened PoolCapacity
  import opened PoolSafety
  import opened PoolKill

  /** Some continuation leaves in slot `i` an agent that is not stopped, out of the map, with no kill future left. */
  ghost predicate CanStrand(s: State, i: SlotId)
    requires WellFormed(s)
  {
    exists more: seq<Step>, a: AgentId ::
      Valid(s, more) && Stranded(Run(s, more), a, i) && !KillPending(Run(s, more), i)
  }

  // ---- An agent that gets into an unmapped slot without kill future stays unstopped ----

  lemma {:induction false} RemoveAllNewStops(s: State, ids: seq<ConvId>, a: AgentId)
    requires Inv(s) && a in RemoveAll(s, ids).stops && a !in s.stops
    ensures exists j: SlotId :: j < |s.cells| && Mapped(s, j) && HeldBy(s, j, a)
  {
    hide Locks, Queues, Stops, Count;
    if ids != [] {
      var n := |ids| - 1;
      var t := RemoveAll(s, ids[..n]);
      if a in t.stops {
        RemoveAllNewStops(s, ids[..n], a);
      } else {
        RemoveAllFrame(s, ids[..n]);
        var j := t.tasks[ids[n]];
        assert j < |s.cells| && s.cells[j].owner == ids[n];
        assert Mapped(s, j) && HeldBy(s, j, a);
      }
    }
  }

  /** Agents are handed over for stopping from mapped slots, or by a pending kill future of their slot. */
  lemma NewStops(s: State, step: Step, a: AgentId)
    requires Inv(s) && Enabled(s, step) && a in Apply(s, step).stops && a !in s.stops
    ensures exists j: SlotId :: j < |s.cells| && HeldBy(s, j, a) && (Mapped(s, j) || KillPending(s, j))
  {
    if step.Admit? {
      AdmitStops(s, step);
      hide *;
      RemoveAllNewStops(s, DecisionOf(s, step).victims, a);
    } else if step.KillEnter? || step.KillWake? {
      var j := s.calls[step.c].slot;
      hide Locks, Queues, Stops, Count;
      assert HeldBy(s, j, a) && KillPending(s, j);
    } else {
      OtherStops(s, step, a);
      hide *;
    }
  }

  lemma AdmitStops(s: State, step: Step)
    requires Inv(s) && Enabled(s, step) && step.Admit?
    ensures Apply(s, step).stops == RemoveAll(s, DecisionOf(s, step).victims).stops
  {
    hide Inv, Decide, Enumerates, RemoveAll;
  }

  lemma OtherStops(s: State, step: Step, a: AgentId)
    requires Inv(s) && Enabled(s, step) && a in Apply(s, step).stops && a !in s.stops
    requires !step.Admit? && !step.KillEnter? && !step.KillWake?
    ensures exists j: SlotId :: j < |s.cells| && HeldBy(s, j, a) && Mapped(s, j)
  {
    hide Locks, Queues, Stops, Count, Decide, Enumerates;
    var id := if step.Replace? then s.calls[step.c].id else if step.Kill? || step.KillAndWait? then step.victim else "";
    assert id in s.tasks && a in Remove(s, id).stops;
    assert Mapped(s, s.tasks[id]) && HeldBy(s, s.tasks[id], a);
  }

  /** Out of the map, with no kill future, and whatever it holds is not stopped. */
  ghost predicate Unguarded(s: State, i: SlotId) {
    && i < |s.cells| && !Mapped(s, i) && NobodyPending(s, i)
    && (s.cells[i].value.Some? ==> s.cells[i].value.value.agent !in s.stops)
  }

  lemma PendingStays(s: State, step: Step, i: SlotId)
    requires WellFormed(s) && Enabled(s, step) && i < |s.cells| && !Mapped(s, i) && NobodyPending(s, i)
    ensures NobodyPending(Apply(s, step), i)
  {
    hide Apply, Enabled;
    StepCalls(s, step);
    NewKillers(s, step);
    var r := Apply(s, step);
    forall k: CallId | k < |r.calls| && r.calls[k].PendingKill() ensures r.calls[k].slot != i {
      if k < |s.calls| && Moves(step, k) { StepMoves(s, step, k); }
    }
  }

  /** A kill future is born for a slot that the map held. */
  lemma NewKillers(s: State, step: Step)
    requires WellFormed(s) && Enabled(s, step)
    ensures forall k: CallId :: |s.calls| <= k < |Apply(s, step).calls| && Apply(s, step).calls[k].Killer() ==>
              Apply(s, step).calls[k].slot < |s.cells| && Mapped(s, Apply(s, step).calls[k].slot)
  {
    hide Decide, Enumerates, RemoveAll;
    if step.Start? || step.KillAndWait? {
      if step.KillAndWait? && step.victim in s.tasks { assert Mapped(s, s.tasks[step.victim]); }
    } else {
      WindowCalls(s, step);
      hide Apply, Enabled;
    }
  }

  lemma UnguardedStep(s: State, step: Step, i: SlotId)
    requires Inv(s) && Enabled(s, step) && Unguarded(s, i)
    ensures Unguarded(Apply(s, step), i)
  {
    StepKeepsInv(s, step);
    hide Apply, Enabled, Locks, Queues, Stops, Count;
    UnmappedStays(s, step, i);
    PendingStays(s, step, i);
    StepCells(s, step);
    var r := Apply(s, step);
    if r.cells[i].value.Some? {
      var a := r.cells[i].value.value.agent;
      NotStoppedBefore(s, step, i);
      assert HeldBy(r, i, a);
      forall j: SlotId | HeldBy(s, j, a) ensures j == i { HeldStays(s, step, j, a); }
      if a in r.stops {
        NewStops(s, step, a);
      }
    }
  }

  lemma HeldStays(s: State, step: Step, j: SlotId, a: AgentId)
    requires WellFormed(s) && Enabled(s, step) && HeldBy(s, j, a)
    ensures HeldBy(Apply(s, step), j, a)
  {
    hide Apply, Enabled;
    StepCalls(s, step);
    if Moves(step, s.builders[a]) { StepMoves(s, step, s.builders[a]); }
  }

  /** A value published into the slot is not stopped at that moment. */
  lemma NotStoppedBefore(s: State, step: Step, i: SlotId)
    requires Inv(s) && Enabled(s, step) && Unguarded(s, i)
    requires i < |Apply(s, step).cells| && Apply(s, step).cells[i].value.Some?
    ensures Apply(s, step).cells[i].value.value.agent !in s.stops
  {
    StepCells(s, step);
    if step.Publish? && s.calls[step.c].slot == i {
      ReleaseAndPublish(s, step.c);
      StoppedIsNot(s, step.c);
      hide Apply, Locks, Queues, Stops, Count;
    } else {
      hide Apply, Enabled;
    }
  }

  lemma {:induction false} UnguardedRun(s: State, steps: seq<Step>, i: SlotId)
    requires Inv(s) && Valid(s, steps) && Unguarded(s, i)
    ensures Unguarded(Run(s, steps), i)
  {
    hide Apply, Enabled, Unguarded, Locks, Queues, Provenance, Stops, Count;
    if steps != [] {
      var n := |steps| - 1;
      UnguardedRun(s, steps[..n], i);
      ReachableInv(s, steps[..n]);
      UnguardedStep(Run(s, steps[..n]), steps[n], i);
    }
  }

  lemma UnguardedIsStranded(s: State, i: SlotId)
    requires WellFormed(s) && Unguarded(s, i) && s.cells[i].value.Some?
    ensures Stranded(s, s.cells[i].value.value.agent, i) && !KillPending(s, i)
  {
    forall id | id in s.tasks ensures s.tasks[id] != i {
      assert s.cells[s.tasks[id]].owner == id;
    }
  }

  // ---- A kill future can be dropped ----

  /** Whatever kill future there is can be cancelled; cells, map, stops and contenders stay. */
  lemma DropKiller(s: State, i: SlotId) returns (more: seq<Step>)
    requires Inv(s) && i < |s.cells| && !Mapped(s, i)
    ensures Valid(s, more)
    ensures var r := Run(s, more);
      && NobodyPending(r, i) && r.tasks == s.tasks && r.stops == s.stops && |r.cells| == |s.cells|
      && (forall j :: 0 <= j < |s.cells| ==> r.cells[j].owner == s.cells[j].owner)
      && r.cells[i].value == s.cells[i].value
      && (forall c: CallId :: Contender(s, c, i) ==> Contender(r, c, i))
  {
    if NobodyPending(s, i) {
      more := [];
    } else {
      var k: CallId :| k < |s.calls| && s.calls[k].PendingKill() && s.calls[k].slot == i;
      CancelKiller(s, k);
      RunStep(s, [], Cancel(k));
      assert [] + [Cancel(k)] == [Cancel(k)];
      more := [Cancel(k)];
    }
  }

  lemma CancelKiller(s: State, k: CallId)
    requires Inv(s) && k < |s.calls| && s.calls[k].PendingKill()
    ensures Enabled(s, Cancel(k))
    ensures var r := Apply(s, Cancel(k));
      var i := s.calls[k].slot;
      && NobodyPending(r, i) && r.tasks == s.tasks && r.stops == s.stops && |r.cells| == |s.cells|
      && (forall j :: 0 <= j < |s.cells| ==> r.cells[j].owner == s.cells[j].owner && r.cells[j].value == s.cells[j].value)
      && (forall c: CallId :: Contender(s, c, i) ==> Contender(r, c, i))
  {
    var r := Apply(s, Cancel(k));
    var i := s.calls[k].slot;
    assert r.calls == s.calls[k := Failed];
    assert forall l :: 0 <= l < |s.calls| && s.calls[l].Killer() && l != k ==> s.calls[l].slot != i;
    hide Locks, Queues, Provenance, Stops, Count;
  }

  // ---- The exact condition ----

  /** A slot out of the map can come to hold an agent nobody stops if and only if it is not settled. */
  lemma StrandingIsExact(s: State, i: SlotId)
    requires Inv(s) && i < |s.cells| && !Mapped(s, i)
    ensures CanStrand(s, i) <==> !Settled(s, i)
  {
    hide Apply, Enabled, Locks, Queues, Provenance, Stops, Count, KillPending;
    if Settled(s, i) {
      if CanStrand(s, i) {
        var more: seq<Step>, a: AgentId :|
          Valid(s, more) && Stranded(Run(s, more), a, i) && !KillPending(Run(s, more), i);
        SettledForever(s, more, i);
        assert Settled(Run(s, more), i);
      }
    } else {
      var first := DropKiller(s, i);
      var t := Run(s, first);
      ReachableInv(s, first);
      assert Unguarded(t, i);
      var second: seq<Step> := [];
      if s.cells[i].value.None? {
        var c: CallId :| Contender(s, c, i);
        second := ContenderCanFill(t, c, i);
      }
      UnguardedRun(t, second, i);
      RunConcat(s, first, second);
      UnguardedIsStranded(Run(t, second), i);
      assert Valid(s, first + second);
    }
  }

  /** Right after a step that took slot `i` out of the map. */
  lemma RemovalSettles(s: State, step: Step, i: SlotId)
    requires Inv(s) && Enabled(s, step) && i < |s.cells| && Mapped(s, i)
    requires i < |Apply(s, step).cells| && !Mapped(Apply(s, step), i)
    ensures Settled(Apply(s, step), i) <==> s.cells[i].value.Some? || forall c: CallId :: !Contender(s, c, i)
  {
    var r := Apply(s, step);
    StepCells(s, step);
    if s.cells[i].value.Some? {
      UnmapStops(s, step, i);
      hide Apply, Enabled, Queues, Provenance, Stops, Count;
    } else {
      hide Apply, Enabled, Locks, Queues, Provenance, Stops, Count;
      UnmapIsPlain(s, step, i);
    }
  }

  /** A step that unmaps an empty slot moves none of its holders and fills nothing. */
  lemma UnmapIsPlain(s: State, step: Step, i: SlotId)
    requires Inv(s) && Enabled(s, step) && i < |s.cells| && Mapped(s, i) && s.cells[i].value.None?
    requires i < |Apply(s, step).cells| && !Mapped(Apply(s, step), i)
    ensures Apply(s, step).cells[i].value.None?
    ensures forall c: CallId :: Contender(Apply(s, step), c, i) <==> Contender(s, c, i)
  {
    UnmappingStep(s, step, i);
    StepCells(s, step);
    StepCalls(s, step);
    NewCalls(s, step);
    if step.Replace? { assert s.calls[step.c].Replacing?; }
    hide Apply, Enabled, Inv, WellFormed;
    var r := Apply(s, step);
    forall c: CallId ensures Contender(r, c, i) <==> Contender(s, c, i) {
      if c < |s.calls| && Moves(step, c) { StepMoves(s, step, c); }
    }
  }

  lemma UnmappingStep(s: State, step: Step, i: SlotId)
    requires Inv(s) && Enabled(s, step) && i < |s.cells| && Mapped(s, i) && s.cells[i].value.None?
    requires i < |Apply(s, step).cells| && !Mapped(Apply(s, step), i)
    ensures step.Kill? || step.KillAndWait? || step.Replace?
  {
    if step.Admit? {
      EvictedHasValue(s, step, i);
      hide *;
    } else if !step.Kill? && !step.KillAndWait? && !step.Replace? {
      TasksStay(s, step);
      StepCells(s, step);
      hide Apply, Enabled, Inv;
    }
  }

  lemma TasksStay(s: State, step: Step)
    requires WellFormed(s) && Enabled(s, step)
    requires !step.Admit? && !step.Kill? && !step.KillAndWait? && !step.Replace?
    ensures forall id :: id in s.tasks ==> id in Apply(s, step).tasks && Apply(s, step).tasks[id] == s.tasks[id]
  {
    hide Decide, Enumerates, WellFormed;
  }

  lemma {:induction false} RemoveAllUnmaps(s: State, ids: seq<ConvId>, i: SlotId)
    requires WellFormed(s) && i < |s.cells| && Mapped(s, i) && !Mapped(RemoveAll(s, ids), i)
    ensures s.cells[i].owner in ids
  {
    if ids != [] && s.cells[i].owner != ids[|ids| - 1] {
      RemoveAllUnmaps(s, ids[..|ids| - 1], i);
    }
  }

  /** Eviction only takes initialised slots. */
  lemma EvictedHasValue(s: State, step: Step, i: SlotId)
    requires Inv(s) && Enabled(s, step) && step.Admit? && i < |s.cells| && Mapped(s, i)
    requires i < |Apply(s, step).cells| && !Mapped(Apply(s, step), i)
    ensures s.cells[i].value.Some?
  {
    var victims := DecisionOf(s, step).victims;
    assert !Mapped(RemoveAll(s, victims), i) by { hide Inv, Decide, Enumerates, RemoveAll; }
    RemoveAllUnmaps(s, victims, i);
    DecideIsLruCorrect(ViewOf(s), s.agents, s.building, s.limit, s.calls[step.c].id, step.memory, step.order, step.refusing);
    hide Inv, Decide, Enumerates, RemoveAll, Apply, Enabled;
    assert Evictable(ViewOf(s), s.agents, s.calls[step.c].id, s.cells[i].owner);
  }

  /**
   For every step that takes a slot out of the map (`kill`, a round of `clear`, an eviction, a
   capability-driven kill, `kill_and_wait`): some continuation leaves an agent there that nobody stops if
   and only if the slot was empty and some call held it. An eviction therefore never does.
   */
  lemma RemovalStrandsExactly(s: State, step: Step, i: SlotId)
    requires Inv(s) && Enabled(s, step) && i < |s.cells| && Mapped(s, i)
    requires i < |Apply(s, step).cells| && !Mapped(Apply(s, step), i)
    ensures CanStrand(Apply(s, step), i) <==> s.cells[i].value.None? && exists c: CallId :: Contender(s, c, i)
  {
    hide Apply, Enabled, Settled, CanStrand, Locks, Queues, Provenance, Stops, Count;
    StepKeepsInv(s, step);
    RemovalSettles(s, step, i);
    StrandingIsExact(Apply(s, step), i);
  }

  /** Over whole runs: the removals that `OrphansNeedOverlap` names are exactly those an orphan can follow. */
  lemma OverlapCanStrand(steps: seq<Step>, j: nat, i: SlotId)
    requires j < |steps| && Valid(INIT, steps[..j])
    requires var s := Run(INIT, steps[..j]);
      && Enabled(s, steps[j]) && i < |s.cells| && i < |Apply(s, steps[j]).cells|
      && Mapped(s, i) && !Mapped(Apply(s, steps[j]), i)
    ensures CanStrand(Apply(Run(INIT, steps[..j]), steps[j]), i) <==> exists c: CallId :: RemovedUnder(steps, j, c, i)
  {
    InitInv();
    ReachableInv(INIT, steps[..j]);
    var s := Run(INIT, steps[..j]);
    RemovalStrandsExactly(s, steps[j], i);
    hide Apply, Enabled, Inv, CanStrand, Run, Valid;
    forall c: CallId ensures RemovedUnder(steps, j, c, i) <==> s.cells[i].value.None? && Contender(s, c, i) {}
  }
}
