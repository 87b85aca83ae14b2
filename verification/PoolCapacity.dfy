/** How one step may change the pool, and the bound on residents, builds and the release window. */
module PoolCapacity {
  import opened Basics
  import opened Admission
  import opened Pool
  import opened PoolInvariant

  /** The call a step moves, if it moves an existing one. */
  predicate Moves(step: Step, c: CallId) {
    !step.Start? && !step.Kill? && !step.KillAndWait? && !step.Configure? && !step.AgentChange? && step.c == c
  }

  /** Cells keep their value except the one being published; fresh cells are empty. */
  ghost predicate CellsKept(s: State, step: Step, r: State) {
    && |s.cells| <= |r.cells|
    && (forall i :: 0 <= i < |s.cells| ==> r.cells[i].owner == s.cells[i].owner)
    && (forall i :: 0 <= i < |s.cells| && r.cells[i].value != s.cells[i].value ==>
          step.Publish? && step.c < |s.calls| && s.calls[step.c].Released? && s.calls[step.c].slot == i)
    && (forall i :: |s.cells| <= i < |r.cells| ==> r.cells[i].value.None?)
  }

  /** The map only loses entries or gains fresh slots. */
  ghost predicate TasksKept(s: State, r: State) {
    forall id :: id in r.tasks ==> (id in s.tasks && r.tasks[id] == s.tasks[id]) || r.tasks[id] >= |s.cells|
  }

  ghost predicate CallsKept(s: State, step: Step, r: State) {
    && |s.calls| <= |r.calls|
    && (forall c :: 0 <= c < |s.calls| && r.calls[c] != s.calls[c] ==> Moves(step, c))
    && s.builders <= r.builders && s.stops <= r.stops && |s.agents| <= |r.agents|
  }

  lemma {:induction false} RemoveAllFrame(s: State, ids: seq<ConvId>)
    requires WellFormed(s)
    ensures var r := RemoveAll(s, ids);
      && r.tasks.Keys <= s.tasks.Keys && (forall id :: id in r.tasks ==> r.tasks[id] == s.tasks[id])
      && s.stops <= r.stops
  {
    if ids != [] {
      RemoveAllFrame(s, ids[..|ids| - 1]);
    }
  }

  /** Steps on the way from the queue to the result. */
  predicate PermitStep(step: Step) {
    step.Acquire? || step.Admit? || step.FactoryOk? || step.FactoryErr? || step.Release? || step.Publish? || step.Cancel?
  }

  predicate KillStep(step: Step) {
    step.Kill? || step.KillAndWait? || step.KillEnter? || step.KillAcquire? || step.KillWake?
  }

  lemma StepCells(s: State, step: Step)
    requires WellFormed(s) && Enabled(s, step)
    ensures CellsKept(s, step, Apply(s, step))
  {
    if PermitStep(step) {
      hide *;
      PermitStepCells(s, step);
    } else if KillStep(step) {
      hide *;
      KillStepCells(s, step);
    } else {
      hide Decide, Enumerates, RemoveAll;
    }
  }

  lemma KillStepCells(s: State, step: Step)
    requires WellFormed(s) && Enabled(s, step) && KillStep(step)
    ensures CellsKept(s, step, Apply(s, step))
  {
    hide Decide, Enumerates, RemoveAll;
  }

  lemma PermitStepCells(s: State, step: Step)
    requires WellFormed(s) && Enabled(s, step) && PermitStep(step)
    ensures CellsKept(s, step, Apply(s, step))
  {
    hide Decide, Enumerates, RemoveAll;
  }

  lemma StepTasks(s: State, step: Step)
    requires WellFormed(s) && Enabled(s, step)
    ensures TasksKept(s, Apply(s, step))
  {
    hide Decide, Enumerates, WellFormed, RemoveAll;
    if step.Admit? {
      RemoveAllFrame(s, DecisionOf(s, step).victims);
    }
  }

  lemma StepCalls(s: State, step: Step)
    requires WellFormed(s) && Enabled(s, step)
    ensures CallsKept(s, step, Apply(s, step))
  {
    if PermitStep(step) {
      hide *;
      PermitStepCalls(s, step);
    } else {
      hide Decide, Enumerates, WellFormed, RemoveAll;
    }
  }

  lemma PermitStepCalls(s: State, step: Step)
    requires WellFormed(s) && Enabled(s, step) && PermitStep(step)
    ensures CallsKept(s, step, Apply(s, step))
  {
    hide Decide, Enumerates, WellFormed, RemoveAll;
    if step.Admit? {
      RemoveAllFrame(s, DecisionOf(s, step).victims);
    }
  }

  /** How the call a step moves may change: it keeps its slot, and gets one only by looking in the map. */
  lemma StepMoves(s: State, step: Step, c: CallId)
    requires WellFormed(s) && Enabled(s, step) && Moves(step, c)
    ensures c < |s.calls| && c < |Apply(s, step).calls|
    ensures Advances(step, s.calls[c], Apply(s, step).calls[c])
  {
    if PermitStep(step) {
      hide *;
      PermitStepMoves(s, step, c);
    } else if KillStep(step) {
      hide *;
      KillStepMoves(s, step, c);
    } else {
      hide Decide, Enumerates, RemoveAll, WellFormed;
    }
  }

  lemma KillStepMoves(s: State, step: Step, c: CallId)
    requires WellFormed(s) && Enabled(s, step) && Moves(step, c) && KillStep(step)
    ensures c < |s.calls| && c < |Apply(s, step).calls|
    ensures Advances(step, s.calls[c], Apply(s, step).calls[c])
  {
    hide Decide, Enumerates, RemoveAll, WellFormed;
  }

  lemma PermitStepMoves(s: State, step: Step, c: CallId)
    requires WellFormed(s) && Enabled(s, step) && Moves(step, c) && PermitStep(step)
    ensures c < |s.calls| && c < |Apply(s, step).calls|
    ensures Advances(step, s.calls[c], Apply(s, step).calls[c])
  {
    hide Decide, Enumerates, RemoveAll, WellFormed;
  }

  predicate Advances(step: Step, o: Call, n: Call) {
    && (n.Contends() ==> (o.Contends() && o.slot == n.slot) || step.Obtain?)
    && (n.Returned? ==> o.Contends() && o.slot == n.slot && (step.Publish? || !o.HoldsPermit()))
    && (n.Killer() ==> o.PendingKill() && o.slot == n.slot)
    && (n.Holding? ==> step.Obtain?)
    && (n.Queued? ==> step.Enter? && o.Holding?)
    && o.Live()
    && (n.HoldsPermit() && !o.HoldsPermit() ==> step.Acquire?)
  }

  lemma ObtainMapped(s: State, c: CallId)
    requires WellFormed(s) && Enabled(s, Obtain(c))
    ensures var r := Apply(s, Obtain(c)); r.calls[c].Holding? && Mapped(r, r.calls[c].slot)
  {}

  ghost function Active(s: State): nat
    requires WellFormed(s)
  {
    |ActiveIds(ViewOf(s))|
  }

  /** Builds that have given back their reservation and not yet stored their agent. */
  ghost function Window(s: State): nat { Count(s.calls, InWindow) }

  ghost function Total(s: State): int
    requires WellFormed(s)
  {
    Active(s) + s.building + Window(s)
  }

  /** The step admits a build below the limit, without evicting. */
  ghost predicate AdmitsBelowLimit(s: State, step: Step)
    requires WellFormed(s) && Enabled(s, step)
  {
    step.Admit? && DecisionOf(s, step) == Decision([], true)
  }

  lemma ActiveWithin(s: State, step: Step, r: State, extra: set<ConvId>)
    requires WellFormed(s) && WellFormed(r) && TasksKept(s, r) && CellsKept(s, step, r)
    requires step.Publish? && step.c < |s.calls| && s.calls[step.c].Released? ==>
               s.cells[s.calls[step.c].slot].owner in extra
    ensures ActiveIds(ViewOf(r)) <= ActiveIds(ViewOf(s)) + extra
  {
    forall id | id in ActiveIds(ViewOf(r)) ensures id in ActiveIds(ViewOf(s)) + extra {
      assert r.cells[r.tasks[id]].owner == id && r.cells[r.tasks[id]].value.Some?;
    }
  }

  /** Only a publication adds a resident, and only under the owner of its slot. */
  lemma ActiveNotMore(s: State, step: Step)
    requires WellFormed(s) && Enabled(s, step)
    ensures Active(Apply(s, step)) <= Active(s) + if step.Publish? then 1 else 0
  {
    StepCells(s, step);
    StepTasks(s, step);
    var r := Apply(s, step);
    var extra: set<ConvId> := if step.Publish? then {s.cells[s.calls[step.c].slot].owner} else {};
    ActiveWithin(s, step, r, extra);
    hide Apply, Enabled, ActiveIds, CellsKept, TasksKept;
    CardSubset(ActiveIds(ViewOf(r)), ActiveIds(ViewOf(s)) + extra);
  }

  lemma WindowChange(s: State, step: Step)
    requires WellFormed(s) && Enabled(s, step)
    ensures var r := Apply(s, step);
      Window(r) == Window(s) + (if step.Release? then 1 else 0) - (if step.Publish? then 1 else 0)
  {
    WindowCalls(s, step);
    var r := Apply(s, step);
    hide Apply, Enabled, WellFormed, InWindow;
    if step.Start? || step.KillAndWait? {
      if |r.calls| > |s.calls| {
        CountAppend(s.calls, r.calls[|s.calls|], InWindow);
      }
    } else if !step.Kill? && !step.Configure? && !step.AgentChange? {
      CountUpdate(s.calls, step.c, r.calls[step.c], InWindow);
    }
  }

  /** Only a release enters the window and only a publication leaves it. */
  lemma WindowCalls(s: State, step: Step)
    requires WellFormed(s) && Enabled(s, step)
    ensures var r := Apply(s, step);
      if step.Start? || step.KillAndWait? then
        r.calls == s.calls || (|r.calls| == |s.calls| + 1 && r.calls == s.calls + [r.calls[|s.calls|]]
                               && !InWindow(r.calls[|s.calls|]))
      else if step.Kill? || step.Configure? || step.AgentChange? then r.calls == s.calls
      else
        && step.c < |s.calls| == |r.calls| && r.calls == s.calls[step.c := r.calls[step.c]]
        && (InWindow(r.calls[step.c]) <==> step.Release?) && (InWindow(s.calls[step.c]) <==> step.Publish?)
  {
    hide Decide, Enumerates, WellFormed, RemoveAll;
  }

  lemma BuildingChange(s: State, step: Step)
    requires WellFormed(s) && Enabled(s, step)
    ensures Apply(s, step).building <= s.building
                                       + (if step.Admit? && DecisionOf(s, step).admitted then 1 else 0)
                                       - (if step.Release? then 1 else 0)
  {
    hide Decide, Enumerates, WellFormed;
  }

  lemma RemoveActive(s: State, id: ConvId)
    requires WellFormed(s) && id in ActiveIds(ViewOf(s))
    ensures Active(Remove(s, id)) == Active(s) - 1
  {
    assert ActiveIds(ViewOf(Remove(s, id))) == ActiveIds(ViewOf(s)) - {id};
  }

  lemma SingleVictim(s: State, step: Step)
    requires WellFormed(s) && Enabled(s, step) && step.Admit?
    requires DecisionOf(s, step).admitted && DecisionOf(s, step).victims != []
    ensures var victims := DecisionOf(s, step).victims;
      |victims| == 1 && victims[0] in ActiveIds(ViewOf(s)) && RemoveAll(s, victims) == Remove(s, victims[0])
  {
    DecideIsLruCorrect(ViewOf(s), s.agents, s.building, s.limit, s.calls[step.c].id, step.memory, step.order, step.refusing);
    hide Decide, Remove;
    var victims := DecisionOf(s, step).victims;
    assert victims[0] in victims;
    assert Evictable(ViewOf(s), s.agents, s.calls[step.c].id, victims[0]);
    assert victims[..|victims| - 1] == [];
    assert RemoveAll(s, []) == s;
  }

  /** An eviction makes room for the build it admits. */
  lemma EvictionMakesRoom(s: State, step: Step)
    requires WellFormed(s) && Enabled(s, step) && step.Admit?
    requires DecisionOf(s, step).admitted && DecisionOf(s, step).victims != []
    ensures Active(Apply(s, step)) == Active(s) - 1
  {
    SingleVictim(s, step);
    var v := DecisionOf(s, step).victims[0];
    RemoveActive(s, v);
    hide Decide, Remove, RemoveAll, Enumerates;
    assert ViewOf(Apply(s, step)) == ViewOf(Remove(s, v));
  }

  /** One step raises the total only by admitting below the limit, and then only up to limit plus window. */
  lemma StepTotal(s: State, step: Step)
    requires Inv(s) && Enabled(s, step)
    ensures AdmitsBelowLimit(s, step) ==>
              Total(Apply(s, step)) <= EffectiveLimit(s.limit, step.memory) + Window(s)
    ensures !AdmitsBelowLimit(s, step) ==> Total(Apply(s, step)) <= Total(s)
  {
    ActiveNotMore(s, step);
    WindowChange(s, step);
    BuildingChange(s, step);
    if step.Admit? && DecisionOf(s, step).admitted && DecisionOf(s, step).victims != [] {
      EvictionMakesRoom(s, step);
    }
    hide Apply, Enabled, Locks, Queues, Provenance, Stops, Count;
  }

  function Max(a: nat, b: nat): nat { if a < b then b else a }

  /** Largest effective limit any admission of the run was decided with. */
  ghost function PeakLimit(s: State, steps: seq<Step>): nat
    requires WellFormed(s) && Valid(s, steps)
  {
    if steps == [] then 0
    else
      var n := |steps| - 1;
      var rest := PeakLimit(s, steps[..n]);
      if steps[n].Admit? then Max(rest, EffectiveLimit(Run(s, steps[..n]).limit, steps[n].memory)) else rest
  }

  /** Most builds in the release window at any admission of the run. */
  ghost function AdmissionWindow(s: State, steps: seq<Step>): nat
    requires WellFormed(s) && Valid(s, steps)
  {
    if steps == [] then 0
    else
      var n := |steps| - 1;
      var rest := AdmissionWindow(s, steps[..n]);
      if steps[n].Admit? then Max(rest, Window(Run(s, steps[..n]))) else rest
  }

  /** Most builds in the release window at once anywhere in the run. */
  ghost function PeakWindow(s: State, steps: seq<Step>): nat
    requires WellFormed(s) && Valid(s, steps)
  {
    if steps == [] then Window(s) else Max(PeakWindow(s, steps[..|steps| - 1]), Window(Run(s, steps)))
  }

  /** Capacity safety over every run. */
  lemma {:induction false} CapacityOverRuns(steps: seq<Step>)
    requires Valid(INIT, steps)
    ensures Total(Run(INIT, steps)) <= PeakLimit(INIT, steps) + AdmissionWindow(INIT, steps)
    ensures AdmissionWindow(INIT, steps) <= PeakWindow(INIT, steps)
    ensures Window(Run(INIT, steps)) <= PeakWindow(INIT, steps)
  {
    InitInv();
    InitTotal();
    hide Enabled, Apply, Inv, Window, Active;
    if steps == [] {
    } else {
      var n := |steps| - 1;
      var s := Run(INIT, steps[..n]);
      CapacityOverRuns(steps[..n]);
      ReachableInv(INIT, steps[..n]);
      StepTotal(s, steps[n]);
    }
  }

  lemma InitTotal()
    ensures WellFormed(INIT) && Total(INIT) == 0
  {
    assert ActiveIds(ViewOf(INIT)) == {};
  }

  /** Runs in which every release is followed at once by its own publication. */
  ghost predicate ReleaseThenPublish(steps: seq<Step>) {
    forall i :: 0 <= i < |steps| - 1 && steps[i].Release? ==> steps[i + 1] == Publish(steps[i].c)
  }

  lemma {:induction false} WindowWhenPaired(steps: seq<Step>)
    requires Valid(INIT, steps) && ReleaseThenPublish(steps)
    ensures Window(Run(INIT, steps)) == if steps != [] && steps[|steps| - 1].Release? then 1 else 0
    ensures AdmissionWindow(INIT, steps) == 0
  {
    InitInv();
    InitTotal();
    hide Apply, Inv, Active;
    if steps != [] {
      var n := |steps| - 1;
      var s := Run(INIT, steps[..n]);
      WindowWhenPaired(steps[..n]);
      WindowChange(s, steps[n]);
      if n > 0 && steps[..n][n - 1].Release? {
        assert steps[n] == Publish(steps[n - 1].c);
      }
    }
  }

  /** With release and publication as one step the bound is exact: residents and builds never pass the limit. */
  lemma CapacityWhenPaired(steps: seq<Step>)
    requires Valid(INIT, steps) && ReleaseThenPublish(steps)
    ensures Active(Run(INIT, steps)) + Run(INIT, steps).building <= PeakLimit(INIT, steps)
  {
    CapacityOverRuns(steps);
    WindowWhenPaired(steps);
    hide Apply, Enabled, Run, Valid;
  }

  /** `building_count` is the number of reservations held; each is given back once, so it never goes below zero. */
  lemma ReservationsExact(steps: seq<Step>)
    requires Valid(INIT, steps)
    ensures Run(INIT, steps).building == Count(Run(INIT, steps).calls, Reserving) >= 0
  {
    InitInv();
    ReachableInv(INIT, steps);
    hide Apply, Enabled;
  }
}
