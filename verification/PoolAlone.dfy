/**
 A call of `get_or_build_task` that nobody disturbs: from its first look at the map on, only it moves.
 It never comes back without the capabilities it asked for, it leaves a resident that covers them alone,
 and it has an outdated one stopped.
 */
module PoolAlone {
  import opened Basics
  import opened Admission
  import opened Pool
  import opened PoolInvariant
  import opened PoolCapacity
  import opened PoolKill
  import opened PoolPromise

  predicate AllMove(steps: seq<Step>, c: CallId) {
    forall j :: 0 <= j < |steps| ==> Moves(steps[j], c)
  }

  /** Conversation `id` has a resident agent. */
  predicate HasResident(s: State, id: ConvId) {
    id in s.tasks && s.tasks[id] < |s.cells| && s.cells[s.tasks[id]].value.Some?
  }

  function ResidentOf(s: State, id: ConvId): Managed
    requires HasResident(s, id)
  {
    s.cells[s.tasks[id]].value.value
  }

  // ---- What the first steps do ----

  /** The first look: to rebuilding exactly if there is a resident that does not cover the request. */
  lemma CheckEffect(s: State, c: CallId)
    requires WellFormed(s) && c < |s.calls| && s.calls[c].Arrived?
    ensures Enabled(s, Check(c))
    ensures var call := s.calls[c];
      var outdated := HasResident(s, call.id) && !ResidentOf(s, call.id).caps.Satisfies(call.want);
      Apply(s, Check(c)) ==
        s.(calls := s.calls[c := if outdated then Replacing(call.id, call.want) else Ready(call.id, call.want)])
  {}

  /** Rebuilding takes the conversation out of the map, stops its agent, and fails exactly if that is refused. */
  lemma ReplaceEffect(s: State, c: CallId, ok: bool)
    requires WellFormed(s) && c < |s.calls| && s.calls[c].Replacing?
    ensures Enabled(s, Replace(c, ok))
    ensures var call := s.calls[c];
      var resident := HasResident(s, call.id);
      Apply(s, Replace(c, ok)) ==
        s.(tasks := s.tasks - {call.id},
           stops := s.stops + (if resident then [ResidentOf(s, call.id).agent] else []),
           calls := s.calls[c := if resident && !ok then Failed else Ready(call.id, call.want)])
  {
    if s.calls[c].id !in s.tasks { assert s.tasks - {s.calls[c].id} == s.tasks; }
    assert s.stops + [] == s.stops;
  }

  /** The slot in the map, or a fresh empty one. */
  lemma ObtainEffect(s: State, c: CallId)
    requires WellFormed(s) && c < |s.calls| && s.calls[c].Ready?
    ensures Enabled(s, Obtain(c))
    ensures var call := s.calls[c];
      if call.id in s.tasks then
        Apply(s, Obtain(c)) == s.(calls := s.calls[c := Holding(call.id, call.want, s.tasks[call.id])])
      else
        Apply(s, Obtain(c)) == s.(calls := s.calls[c := Holding(call.id, call.want, |s.cells|)],
                                  cells := s.cells + [Cell(call.id, None, None, [])],
                                  tasks := s.tasks[call.id := |s.cells|])
  {}

  lemma EarlySteps(s: State, step: Step, c: CallId)
    requires WellFormed(s) && Enabled(s, step) && Moves(step, c) && c < |s.calls|
    ensures s.calls[c].Arrived? ==> step == Check(c) || step == Cancel(c)
    ensures s.calls[c].Replacing? ==> step == Cancel(c) || (step.Replace? && step == Replace(c, step.ok))
    ensures s.calls[c].Ready? ==> step == Obtain(c) || step == Cancel(c)
    ensures s.calls[c].Live()
  {}

  lemma CancelEarly(s: State, c: CallId)
    requires WellFormed(s) && Enabled(s, Cancel(c)) && !s.calls[c].HasSlot()
    ensures Apply(s, Cancel(c)) == s.(calls := s.calls[c := Failed])
  {}

  lemma CancelHolding(s: State, c: CallId)
    requires WellFormed(s) && Enabled(s, Cancel(c)) && s.calls[c].Holding?
    ensures Apply(s, Cancel(c)) == s.(calls := s.calls[c := Failed])
  {}

  // ---- It comes back capable ----

  ghost predicate OnTrack(s: State, c: CallId, id: ConvId, want: RuntimeCapabilities) {
    && c < |s.calls|
    && var call := s.calls[c];
       if call.Failed? then true
       else if call.Arrived? || call.Replacing? then call.id == id && call.want == want
       else if call.Ready? then
         call.id == id && call.want == want && (HasResident(s, id) ==> ResidentOf(s, id).caps.Satisfies(want))
       else if call.Returned? then ReturnedCapable(s, c, want)
       else
         call.Contends() && call.want == want && call.slot < |s.cells|
         && (s.cells[call.slot].value.Some? ==> call.Holding? && s.cells[call.slot].value.value.caps.Satisfies(want))
  }

  lemma EarlyOnTrack(s: State, step: Step, c: CallId, id: ConvId, want: RuntimeCapabilities)
    requires Inv(s) && Enabled(s, step) && Moves(step, c) && OnTrack(s, c, id, want)
    requires s.calls[c].Arrived? || s.calls[c].Replacing? || s.calls[c].Ready?
    ensures OnTrack(Apply(s, step), c, id, want)
  {
    EarlySteps(s, step, c);
    hide Apply, Enabled, Locks, Queues, Provenance, Stops, Count;
    if step.Cancel? {
      CancelEarly(s, c);
    } else if step.Check? {
      CheckEffect(s, c);
    } else if step.Replace? {
      ReplaceEffect(s, c, step.ok);
    } else {
      ObtainEffect(s, c);
    }
  }

  lemma HoldingOnTrack(s: State, step: Step, c: CallId, id: ConvId, want: RuntimeCapabilities)
    requires Inv(s) && Enabled(s, step) && Moves(step, c) && OnTrack(s, c, id, want) && s.calls[c].Holding?
    ensures OnTrack(Apply(s, step), c, id, want)
  {
    var i := s.calls[c].slot;
    HoldingMoves(s, step, c);
    hide Apply, Enabled, Locks, Queues, Provenance, Stops, Count;
    if step.Cancel? {
      CancelHolding(s, c);
    } else if s.cells[i].value.Some? {
      EntersFull(s, c, i);
    } else {
      EnterEffect(s, c, i);
    }
  }

  lemma LaterOnTrack(s: State, step: Step, c: CallId, id: ConvId, want: RuntimeCapabilities)
    requires Inv(s) && Enabled(s, step) && Moves(step, c) && OnTrack(s, c, id, want)
    requires s.calls[c].Queued? || s.calls[c].HoldsPermit()
    ensures OnTrack(Apply(s, step), c, id, want)
  {
    hide Apply, Enabled, Inv, ReturnedCapable, WellFormed, HasResident, RuntimeCapabilities.Satisfies;
    InvWellFormed(s);
    WantStays(s, step, c);
    if step.Publish? {
      PublishReturns(s, c);
    } else {
      StillEmpty(s, step, s.calls[c].slot);
    }
  }

  lemma StillEmpty(s: State, step: Step, i: SlotId)
    requires Inv(s) && Enabled(s, step) && !step.Publish? && i < |s.cells| && s.cells[i].value.None?
    ensures i < |Apply(s, step).cells| && Apply(s, step).cells[i].value.None?
  {
    hide *;
    ValueAfter(s, step, i);
  }

  lemma PublishReturns(s: State, c: CallId)
    requires Inv(s) && Enabled(s, Publish(c))
    ensures ReturnedCapable(Apply(s, Publish(c)), c, s.calls[c].want) && Apply(s, Publish(c)).calls[c].Returned?
  {
    hide Locks, Queues, Provenance, Stops, Count;
  }

  lemma {:induction false} OnTrackRun(s: State, more: seq<Step>, c: CallId, id: ConvId, want: RuntimeCapabilities)
    requires Inv(s) && Valid(s, more) && AllMove(more, c) && OnTrack(s, c, id, want)
    ensures OnTrack(Run(s, more), c, id, want)
  {
    hide Apply, Enabled, Locks, Queues, Provenance, Stops, Count, OnTrack;
    if more != [] {
      var n := |more| - 1;
      OnTrackRun(s, more[..n], c, id, want);
      ReachableInv(s, more[..n]);
      OnTrackStep(Run(s, more[..n]), more[n], c, id, want);
    }
  }

  lemma OnTrackStep(s: State, step: Step, c: CallId, id: ConvId, want: RuntimeCapabilities)
    requires Inv(s) && Enabled(s, step) && Moves(step, c) && OnTrack(s, c, id, want)
    ensures OnTrack(Apply(s, step), c, id, want)
  {
    EarlySteps(s, step, c);
    hide Apply, Enabled, Locks, Queues, Provenance, Stops, Count;
    if s.calls[c].Arrived? || s.calls[c].Replacing? || s.calls[c].Ready? {
      EarlyOnTrack(s, step, c, id, want);
    } else if s.calls[c].Holding? {
      HoldingOnTrack(s, step, c, id, want);
    } else {
      LaterOnTrack(s, step, c, id, want);
    }
  }

  // ---- It leaves a good resident alone ----

  /** Only the call has moved, and it is on the way to the resident's slot. */
  ghost predicate Straight(s: State, r: State, c: CallId)
    requires c < |s.calls| && s.calls[c].Arrived? && HasResident(s, s.calls[c].id)
  {
    var id, want, i := s.calls[c].id, s.calls[c].want, s.tasks[s.calls[c].id];
    && |r.calls| == |s.calls| && r == s.(calls := s.calls[c := r.calls[c]])
    && var call := r.calls[c];
       call == Arrived(id, want) || call == Ready(id, want) || call == Holding(id, want, i) || call == Failed
       || call == Returned(id, want, i, ResidentOf(s, id).agent)
  }

  /** Moving the call on from there. */
  lemma Overwritten(s: State, r: State, c: CallId, call: Call)
    requires c < |s.calls| && |r.calls| == |s.calls| && r == s.(calls := s.calls[c := r.calls[c]])
    ensures var next := r.(calls := r.calls[c := call]);
      |next.calls| == |s.calls| && next.calls[c] == call && next == s.(calls := s.calls[c := call])
  {
    assert r.calls[c := call] == s.calls[c := call];
  }

  lemma StraightStep(s: State, r: State, step: Step, c: CallId)
    requires Inv(s) && c < |s.calls| && s.calls[c].Arrived? && HasResident(s, s.calls[c].id)
    requires ResidentOf(s, s.calls[c].id).caps.Satisfies(s.calls[c].want)
    requires Inv(r) && Straight(s, r, c) && Enabled(r, step) && Moves(step, c)
    ensures Straight(s, Apply(r, step), c)
  {
    hide Apply, Enabled, Inv, RuntimeCapabilities.Satisfies;
    InvWellFormed(r);
    var id, want, i := s.calls[c].id, s.calls[c].want, s.tasks[s.calls[c].id];
    EarlySteps(r, step, c);
    if r.calls[c].Holding? { HoldingMoves(r, step, c); }
    if step.Cancel? {
      if r.calls[c].Holding? { CancelHolding(r, c); } else { CancelEarly(r, c); }
      Overwritten(s, r, c, Failed);
    } else if r.calls[c].Arrived? {
      CheckEffect(r, c);
      Overwritten(s, r, c, Ready(id, want));
    } else if r.calls[c].Ready? {
      ObtainEffect(r, c);
      Overwritten(s, r, c, Holding(id, want, i));
    } else {
      EntersFullCells(r, c, i);
      Overwritten(s, r, c, Returned(id, want, i, ResidentOf(s, id).agent));
    }
  }

  lemma InvWellFormed(s: State)
    requires Inv(s)
    ensures WellFormed(s)
  {}

  lemma EntersFullCells(s: State, c: CallId, i: SlotId)
    requires WellFormed(s) && HoldsAt(s, c, i) && s.cells[i].value.Some?
    ensures Enabled(s, Enter(c))
    ensures Apply(s, Enter(c)) ==
              s.(calls := s.calls[c := Returned(s.calls[c].id, s.calls[c].want, i, s.cells[i].value.value.agent)])
  {}

  lemma {:induction false} StraightRun(s: State, more: seq<Step>, c: CallId)
    requires Inv(s) && c < |s.calls| && s.calls[c].Arrived? && HasResident(s, s.calls[c].id)
    requires ResidentOf(s, s.calls[c].id).caps.Satisfies(s.calls[c].want)
    requires Valid(s, more) && AllMove(more, c)
    ensures Straight(s, Run(s, more), c)
  {
    hide Apply, Enabled, Locks, Queues, Provenance, Stops, Count;
    if more == [] {
      assert s.calls[c := s.calls[c]] == s.calls;
    } else {
      hide Straight;
      var n := |more| - 1;
      StraightRun(s, more[..n], c);
      ReachableInv(s, more[..n]);
      StraightStep(s, Run(s, more[..n]), more[n], c);
    }
  }

  // ---- It has an outdated resident stopped ----

  ghost predicate WillStop(s: State, c: CallId, id: ConvId, want: RuntimeCapabilities, a: AgentId) {
    && c < |s.calls|
    && (a in s.stops || s.calls[c].Failed?
        || ((s.calls[c] == Arrived(id, want) || s.calls[c] == Replacing(id, want))
            && HasResident(s, id) && ResidentOf(s, id).agent == a && !ResidentOf(s, id).caps.Satisfies(want)))
  }

  lemma WillStopStep(s: State, step: Step, c: CallId, id: ConvId, want: RuntimeCapabilities, a: AgentId)
    requires Inv(s) && Enabled(s, step) && Moves(step, c) && WillStop(s, c, id, want, a)
    ensures WillStop(Apply(s, step), c, id, want, a)
  {
    EarlySteps(s, step, c);
    StepCalls(s, step);
    hide Apply, Enabled, Locks, Queues, Provenance, Stops, Count;
    if a !in s.stops {
      if step.Cancel? {
        CancelEarly(s, c);
      } else if step.Check? {
        CheckEffect(s, c);
      } else {
        ReplaceEffect(s, c, step.ok);
      }
    }
  }

  lemma {:induction false} WillStopRun(s: State, more: seq<Step>, c: CallId, id: ConvId, want: RuntimeCapabilities, a: AgentId)
    requires Inv(s) && Valid(s, more) && AllMove(more, c) && WillStop(s, c, id, want, a)
    ensures WillStop(Run(s, more), c, id, want, a)
  {
    hide Apply, Enabled, Locks, Queues, Provenance, Stops, Count, WillStop;
    if more != [] {
      var n := |more| - 1;
      WillStopRun(s, more[..n], c, id, want, a);
      ReachableInv(s, more[..n]);
      WillStopStep(Run(s, more[..n]), more[n], c, id, want, a);
    }
  }

  // ---- The law of undisturbed calls ----

  /**
   Whatever happened before, from its arrival on undisturbed: a call that returns has the capabilities it
   asked for. If the resident covers them, it returns that very agent and nothing but the call has changed;
   if the resident does not, that agent has been handed over for stopping.
   */
  lemma UndisturbedCall(s: State, c: CallId, more: seq<Step>)
    requires Inv(s) && c < |s.calls| && s.calls[c].Arrived?
    requires Valid(s, more) && AllMove(more, c) && c < |Run(s, more).calls| && Run(s, more).calls[c].Returned?
    ensures var r := Run(s, more);
      var id, want := s.calls[c].id, s.calls[c].want;
      && ReturnedCapable(r, c, want)
      && (HasResident(s, id) && ResidentOf(s, id).caps.Satisfies(want) ==>
            r.calls[c].agent == ResidentOf(s, id).agent
            && r.stops == s.stops && r.tasks == s.tasks && r.cells == s.cells && r.agents == s.agents)
      && (HasResident(s, id) && !ResidentOf(s, id).caps.Satisfies(want) ==> ResidentOf(s, id).agent in r.stops)
  {
    var id, want := s.calls[c].id, s.calls[c].want;
    hide Apply, Enabled, Locks, Queues, Provenance, Stops, Count, Run, Valid;
    OnTrackRun(s, more, c, id, want);
    if HasResident(s, id) {
      if ResidentOf(s, id).caps.Satisfies(want) {
        StraightRun(s, more, c);
      } else {
        WillStopRun(s, more, c, id, want, ResidentOf(s, id).agent);
      }
    }
  }

  /** Three steps suffice when the resident covers the request. */
  lemma CoveredCallReturns(s: State, c: CallId)
    requires Inv(s) && c < |s.calls| && s.calls[c].Arrived? && HasResident(s, s.calls[c].id)
    requires ResidentOf(s, s.calls[c].id).caps.Satisfies(s.calls[c].want)
    ensures Valid(s, [Check(c), Obtain(c), Enter(c)]) && AllMove([Check(c), Obtain(c), Enter(c)], c)
    ensures Run(s, [Check(c), Obtain(c), Enter(c)]).calls
         == s.calls[c := Returned(s.calls[c].id, s.calls[c].want, s.tasks[s.calls[c].id], ResidentOf(s, s.calls[c].id).agent)]
  {
    hide Apply, Enabled, Inv, RuntimeCapabilities.Satisfies;
    InvWellFormed(s);
    var id, want, i := s.calls[c].id, s.calls[c].want, s.tasks[s.calls[c].id];
    CheckEffect(s, c);
    var t := Apply(s, Check(c));
    ObtainEffect(t, c);
    var u := Apply(t, Obtain(c));
    Overwritten(s, t, c, Holding(id, want, i));
    EntersFullCells(u, c, i);
    Overwritten(s, u, c, Returned(id, want, i, ResidentOf(s, id).agent));
    ThreeSteps(s, Check(c), Obtain(c), Enter(c));
  }
}
