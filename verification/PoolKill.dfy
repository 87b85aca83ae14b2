/** What `kill_and_wait` guarantees about a slot it took away during a build. */
module PoolKill {
  import opened Basics
  import opened Admission
  import opened Pool
  import opened PoolInvariant
  import opened PoolCapacity
  import opened PoolSafety

  ghost predicate Contender(s: State, c: CallId, i: SlotId) {
    c < |s.calls| && s.calls[c].Contends() && s.calls[c].slot == i
  }

  /** The slot is out of the map and either holds a stopped agent or has nobody left to fill it. */
  ghost predicate Settled(s: State, i: SlotId) {
    && i < |s.cells| && !Mapped(s, i)
    && (if s.cells[i].value.Some? then s.cells[i].value.value.agent in s.stops
        else forall c: CallId :: !Contender(s, c, i))
  }

  /** Every agent ever built in a settled slot has been stopped. */
  lemma SettledMeansStopped(s: State, i: SlotId, a: AgentId)
    requires Inv(s) && Settled(s, i) && BuiltIn(s, a, i)
    ensures a in s.stops
  {
    hide Queues, Stops, Count;
    var b := s.builders[a];
    assert s.calls[b].agent == a;
    assert s.calls[b].Unpublished() ==> Contender(s, b, i);
  }

  lemma UnmappedStays(s: State, step: Step, i: SlotId)
    requires WellFormed(s) && Enabled(s, step) && i < |s.cells| && !Mapped(s, i)
    ensures i < |Apply(s, step).cells| && !Mapped(Apply(s, step), i)
  {
    hide Apply, Enabled;
    StepCells(s, step);
    StepTasks(s, step);
  }

  /** Nobody joins a slot that is out of the map; those at it move on towards its permit. */
  lemma ContendersStay(s: State, step: Step, c: CallId, i: SlotId)
    requires WellFormed(s) && Enabled(s, step) && i < |s.cells| && !Mapped(s, i)
    requires Contender(Apply(s, step), c, i)
    ensures Contender(s, c, i)
    ensures Moves(step, c) ==> Apply(s, step).calls[c].HoldsPermit() || s.calls[c].Holding?
  {
    hide Apply, Enabled;
    StepCalls(s, step);
    NewCalls(s, step);
    UnmappedStays(s, step, i);
    assert c < |s.calls|;
    if Moves(step, c) {
      StepMoves(s, step, c);
      if step.Obtain? { ObtainMapped(s, c); }
    }
  }

  /** A settled slot stays settled, and its value never changes again. */
  lemma SettledStep(s: State, step: Step, i: SlotId)
    requires Inv(s) && Enabled(s, step) && Settled(s, i)
    ensures Settled(Apply(s, step), i) && Apply(s, step).cells[i].value == s.cells[i].value
  {
    hide Apply, Enabled, Queues, Provenance, Stops, Count;
    UnmappedStays(s, step, i);
    StepCells(s, step);
    StepCalls(s, step);
    var r := Apply(s, step);
    if step.Publish? && s.cells[i].value.None? {
      assert !Contender(s, step.c, i);
    }
    if s.cells[i].value.None? {
      forall c: CallId | Contender(r, c, i) ensures false {
        ContendersStay(s, step, c, i);
      }
    }
  }

  lemma {:induction false} SettledForever(s: State, steps: seq<Step>, i: SlotId)
    requires Inv(s) && Valid(s, steps) && Settled(s, i)
    ensures Settled(Run(s, steps), i) && Run(s, steps).cells[i].value == s.cells[i].value
  {
    hide Apply, Enabled, Locks, Queues, Provenance, Stops, Count, Settled;
    if steps != [] {
      var n := |steps| - 1;
      SettledForever(s, steps[..n], i);
      ReachableInv(s, steps[..n]);
      SettledStep(Run(s, steps[..n]), steps[n], i);
    }
  }

  // ---- FIFO: everyone who may still build is ahead of the kill future ----

  ghost predicate Sealed(s: State, k: CallId, i: SlotId) {
    && k < |s.calls| && s.calls[k] == KillQueued(i) && i < |s.cells|
    && forall c: CallId :: Contender(s, c, i) ==>
         s.calls[c].HoldsPermit() || (s.calls[c].Queued? && c in Ahead(s.cells[i].waiters, k))
  }

  /** A step adds its call to the end of a queue, takes it out, or leaves the queue alone. */
  lemma StepWaiters(s: State, step: Step, i: SlotId)
    requires WellFormed(s) && Enabled(s, step) && i < |s.cells|
    ensures i < |Apply(s, step).cells|
    ensures var q, q' := s.cells[i].waiters, Apply(s, step).cells[i].waiters;
      q' == q || (exists c :: Moves(step, c) && (q' == q + [c] || q' == Without(q, c)))
  {
    hide Decide, Enumerates, RemoveAll;
    var r := Apply(s, step);
    if r.cells[i].waiters != s.cells[i].waiters {
      assert Moves(step, step.c);
    }
  }

  lemma AheadKept(s: State, step: Step, k: CallId, i: SlotId)
    requires Inv(s) && Enabled(s, step) && k < |s.calls| && s.calls[k] == KillQueued(i) && !Moves(step, k)
    ensures i < |Apply(s, step).cells|
    ensures forall c :: c in Ahead(s.cells[i].waiters, k) && !Moves(step, c) ==>
              c in Ahead(Apply(s, step).cells[i].waiters, k)
  {
    hide Apply, Enabled, Locks, Provenance, Stops, Count;
    StepWaiters(s, step, i);
    var q, q' := s.cells[i].waiters, Apply(s, step).cells[i].waiters;
    if q' != q {
      var c :| Moves(step, c) && (q' == q + [c] || q' == Without(q, c));
      if q' == q + [c] { AheadAppend(q, k, c); } else { AheadWithout(q, k, c); }
    }
  }

  lemma SealedStep(s: State, step: Step, k: CallId, i: SlotId)
    requires Inv(s) && Enabled(s, step) && Sealed(s, k, i) && !Moves(step, k)
    ensures Sealed(Apply(s, step), k, i)
  {
    hide Apply, Enabled, Locks, Queues, Provenance, Count;
    AheadKept(s, step, k, i);
    StepCalls(s, step);
    var r := Apply(s, step);
    assert !Mapped(s, i);
    forall c: CallId | Contender(r, c, i)
      ensures r.calls[c].HoldsPermit() || (r.calls[c].Queued? && c in Ahead(r.cells[i].waiters, k))
    {
      ContendersStay(s, step, c, i);
    }
  }

  /** When the kill future resolves, its slot is settled. */
  lemma SealedResolves(s: State, step: Step, k: CallId, i: SlotId)
    requires Inv(s) && Enabled(s, step) && Sealed(s, k, i) && Moves(step, k)
    ensures Apply(s, step).calls[k].Failed? || (Apply(s, step).calls[k].KillDone? && Settled(Apply(s, step), i))
  {
    hide Decide, Enumerates, Provenance, Count, RemoveAll;
    assert !Mapped(s, i);
    var r := Apply(s, step);
    if step.KillAcquire? {
      forall c: CallId ensures !Contender(r, c, i) {
        assert Contender(r, c, i) ==> Contender(s, c, i);
      }
    }
  }

  lemma {:induction false} SealedRun(s: State, steps: seq<Step>, k: CallId, i: SlotId)
    requires Inv(s) && Valid(s, steps) && Sealed(s, k, i)
    ensures var r := Run(s, steps);
      && k < |r.calls|
      && (Sealed(r, k, i) || r.calls[k].Failed? || (r.calls[k].KillDone? && Settled(r, i)))
  {
    hide Apply, Enabled, Locks, Queues, Provenance, Stops, Count, Settled;
    if steps != [] {
      var n := |steps| - 1;
      SealedRun(s, steps[..n], k, i);
      ReachableInv(s, steps[..n]);
      var t := Run(s, steps[..n]);
      StepCalls(t, steps[n]);
      if Moves(steps[n], k) {
        StepMoves(t, steps[n], k);
        SealedResolves(t, steps[n], k, i);
      } else if Sealed(t, k, i) {
        SealedStep(t, steps[n], k, i);
      } else if t.calls[k].KillDone? {
        SettledStep(t, steps[n], i);
      }
    }
  }

  /** The kill future joins the queue when no call that obtained the slot is still on its way to the queue. */
  lemma SealedOnEntry(s: State, k: CallId)
    requires Inv(s) && Enabled(s, KillEnter(k)) && !Full(s, k)
    requires forall c :: 0 <= c < |s.calls| && s.calls[c].Holding? ==> s.calls[c].slot != s.calls[k].slot
    ensures Sealed(Apply(s, KillEnter(k)), k, s.calls[k].slot)
  {
    AtSlot(s, k);
    hide Provenance, Stops, Count;
    var i := s.calls[k].slot;
    AheadLast(s.cells[i].waiters, k);
    var r := Apply(s, KillEnter(k));
    forall c: CallId | Contender(r, c, i)
      ensures r.calls[c].HoldsPermit() || (r.calls[c].Queued? && c in Ahead(r.cells[i].waiters, k))
    {
      assert Contender(s, c, i) && s.calls[c] == r.calls[c];
    }
  }

  /** No call that obtained slot `i` is still on its way to the queue. */
  ghost predicate NoStraggler(s: State, i: SlotId) {
    forall c :: 0 <= c < |s.calls| && s.calls[c].Holding? ==> s.calls[c].slot != i
  }

  /** Every agent ever built in slot `i` has been stopped. */
  ghost predicate AllStopped(s: State, i: SlotId) {
    forall a: AgentId :: BuiltIn(s, a, i) ==> a in s.stops
  }

  lemma SettledAllStopped(s: State, i: SlotId)
    requires Inv(s) && Settled(s, i)
    ensures AllStopped(s, i)
  {
    hide Inv, Settled, BuiltIn;
    forall a: AgentId | BuiltIn(s, a, i) ensures a in s.stops { SettledMeansStopped(s, i, a); }
  }

  lemma SettlesAfterEntry(s: State, k: CallId, during: seq<Step>)
    requires Inv(s) && Enabled(s, KillEnter(k)) && NoStraggler(s, s.calls[k].slot)
    requires Valid(Apply(s, KillEnter(k)), during)
    requires var r := Run(Apply(s, KillEnter(k)), during); k < |r.calls| && r.calls[k].KillDone?
    ensures Settled(Run(Apply(s, KillEnter(k)), during), s.calls[k].slot)
  {
    StepKeepsInv(s, KillEnter(k));
    if Full(s, k) {
      FullOnEntry(s, k);
      hide Apply, Enabled, Locks, Queues, Provenance, Stops, Count, Settled;
      SettledForever(Apply(s, KillEnter(k)), during, s.calls[k].slot);
    } else {
      SealedOnEntry(s, k);
      hide Apply, Enabled, Locks, Queues, Provenance, Stops, Count, Settled;
      SealedRun(Apply(s, KillEnter(k)), during, k, s.calls[k].slot);
    }
  }

  /**
   `kill_and_wait` on an in-flight build. If, when the future joins the queue, every call holding the
   slot is building or queued, then once the future resolves every agent ever built in that slot has
   been stopped, and whatever happens later no agent is ever put into it.
   */
  lemma KillAndWaitGuarantee(before: seq<Step>, k: CallId, during: seq<Step>, after: seq<Step>)
    requires Valid(INIT, before) && Enabled(Run(INIT, before), KillEnter(k))
    requires NoStraggler(Run(INIT, before), Run(INIT, before).calls[k].slot)
    requires Valid(Apply(Run(INIT, before), KillEnter(k)), during)
    requires var r := Run(Apply(Run(INIT, before), KillEnter(k)), during);
      k < |r.calls| && r.calls[k].KillDone? && Valid(r, after)
    ensures var i := Run(INIT, before).calls[k].slot;
      var r := Run(Apply(Run(INIT, before), KillEnter(k)), during);
      var t := Run(r, after);
      && AllStopped(r, i) && AllStopped(t, i)
      && i < |r.cells| && i < |t.cells| && t.cells[i].value == r.cells[i].value
  {
    var s := Run(INIT, before);
    assert k < |s.calls| && s.calls[k].HasSlot();
    hide Apply, Enabled, Locks, Queues, Provenance, Stops, Count, Settled, AllStopped, NoStraggler;
    InitInv();
    ReachableInv(INIT, before);
    var i := s.calls[k].slot;
    SettlesAfterEntry(s, k, during);
    StepKeepsInv(s, KillEnter(k));
    var s1 := Apply(s, KillEnter(k));
    var r := Run(s1, during);
    ReachableInv(s1, during);
    ReachableInv(r, after);
    SettledForever(r, after, i);
    SettledAllStopped(r, i);
    SettledAllStopped(Run(r, after), i);
    SettledInRange(r, i);
    SettledInRange(Run(r, after), i);
  }

  /** Nobody straggles into a removed slot, so the condition may as well be checked when the slot is removed. */
  lemma {:induction false} NoStragglerStays(s: State, steps: seq<Step>, i: SlotId)
    requires Inv(s) && Valid(s, steps) && i < |s.cells| && !Mapped(s, i) && NoStraggler(s, i)
    ensures var r := Run(s, steps); i < |r.cells| && !Mapped(r, i) && NoStraggler(r, i)
  {
    hide Apply, Enabled, Locks, Queues, Provenance, Stops, Count;
    if steps != [] {
      var n := |steps| - 1;
      NoStragglerStays(s, steps[..n], i);
      var t, r := Run(s, steps[..n]), Run(s, steps);
      UnmappedStays(t, steps[n], i);
      StepCalls(t, steps[n]);
      forall c: CallId | c < |r.calls| && r.calls[c].Holding? ensures r.calls[c].slot != i {
        if r.calls[c].slot == i {
          assert Contender(r, c, i);
          ContendersStay(t, steps[n], c, i);
        }
      }
    }
  }

  lemma SettledInRange(s: State, i: SlotId)
    requires Settled(s, i)
    ensures i < |s.cells|
  {}

  lemma FullOnEntry(s: State, k: CallId)
    requires Inv(s) && Enabled(s, KillEnter(k)) && Full(s, k)
    ensures Settled(Apply(s, KillEnter(k)), s.calls[k].slot)
  {
    hide Locks, Queues, Provenance, Count;
  }

  // ---- Without that condition: the slot can still be filled exactly when somebody still holds it ----

  lemma {:induction false} OrderExists(keys: set<ConvId>) returns (order: seq<ConvId>)
    ensures NoDup(order) && forall id :: id in order <==> id in keys
  {
    if keys == {} {
      order := [];
    } else {
      var id :| id in keys;
      var rest := OrderExists(keys - {id});
      order := rest + [id];
    }
  }

  lemma ThreeSteps(s: State, a: Step, b: Step, c: Step)
    requires WellFormed(s) && Enabled(s, a) && Enabled(Apply(s, a), b) && Enabled(Apply(Apply(s, a), b), c)
    ensures Valid(s, [a, b, c]) && Run(s, [a, b, c]) == Apply(Apply(Apply(s, a), b), c)
  {
    hide Apply, Enabled, WellFormed;
    assert [] + [a] == [a] && [a] + [b] == [a, b] && [a, b] + [c] == [a, b, c];
    RunStep(s, [], a);
    RunStep(s, [a], b);
    RunStep(s, [a, b], c);
  }

  // ---- Undisturbed, a call that holds the slot gets its agent into it ----

  /** Between `s` and `r` only call `c` moved. */
  ghost predicate OnlyMoved(s: State, r: State, c: CallId) {
    |s.calls| <= |r.calls| && forall d :: 0 <= d < |s.calls| && d != c ==> r.calls[d] == s.calls[d]
  }

  predicate OnlyMoves(steps: seq<Step>, c: CallId) {
    forall j :: 0 <= j < |steps| ==> steps[j].Configure? || Moves(steps[j], c)
  }

  lemma {:induction false} OthersStay(s: State, steps: seq<Step>, c: CallId)
    requires WellFormed(s) && Valid(s, steps) && OnlyMoves(steps, c)
    ensures OnlyMoved(s, Run(s, steps), c)
  {
    hide Apply, Enabled, WellFormed;
    if steps != [] {
      var n := |steps| - 1;
      OthersStay(s, steps[..n], c);
      StepCalls(Run(s, steps[..n]), steps[n]);
    }
  }

  /** `r` has in the slot of `c` an agent built for the request that `c` has in `s`; only `c` moved. */
  ghost predicate FilledBy(s: State, r: State, c: CallId)
    requires c < |s.calls| && s.calls[c].Contends()
  {
    var i := s.calls[c].slot;
    && i < |r.cells| && r.cells[i].value.Some? && r.cells[i].value.value.caps == s.calls[c].want
    && OnlyMoved(s, r, c)
  }

  lemma CanAdmit(s: State, c: CallId, order: seq<ConvId>)
    requires Inv(s) && c < |s.calls| && s.calls[c].Initialising? && Enumerates(order, ViewOf(s))
    requires Active(s) + s.building < s.limit
    ensures Enabled(s, Admit(c, None, order, {}))
    ensures var r := Apply(s, Admit(c, None, order, {}));
      |r.calls| == |s.calls| && r.calls[c] == Building(s.calls[c].id, s.calls[c].want, s.calls[c].slot)
  {
    assert DecisionOf(s, Admit(c, None, order, {})) == Decision([], true);
  }

  lemma TwoSteps(s: State, a: Step, b: Step)
    requires WellFormed(s) && Enabled(s, a) && Enabled(Apply(s, a), b)
    ensures Valid(s, [a, b]) && Run(s, [a, b]) == Apply(Apply(s, a), b)
  {
    hide Apply, Enabled, WellFormed;
    assert [] + [a] == [a] && [a] + [b] == [a, b];
    RunStep(s, [], a);
    RunStep(s, [a], b);
  }

  /** The initialising call can be admitted under a raised limit. */
  lemma InitialisingCanBuild(s: State, c: CallId) returns (more: seq<Step>)
    requires Inv(s) && c < |s.calls| && s.calls[c].Initialising?
    ensures Valid(s, more) && OnlyMoves(more, c)
    ensures var r := Run(s, more);
      c < |r.calls| && r.calls[c] == Building(s.calls[c].id, s.calls[c].want, s.calls[c].slot)
  {
    hide Apply, Enabled, Count, Locks, Queues, Provenance, Stops, ViewOf, ActiveIds;
    var limit := RaisedLimit(s);
    var t := Apply(s, Configure(limit));
    StepKeepsInv(s, Configure(limit));
    var order := OrderExists(ViewOf(t).Keys);
    CanAdmit(t, c, order);
    TwoSteps(s, Configure(limit), Admit(c, None, order, {}));
    more := [Configure(limit), Admit(c, None, order, {})];
  }

  /** The administrator can always make room. */
  lemma RaisedLimit(s: State) returns (limit: nat)
    requires Inv(s)
    ensures Enabled(s, Configure(limit)) && Apply(s, Configure(limit)) == s.(limit := limit)
    ensures var t := Apply(s, Configure(limit)); Active(t) + t.building < t.limit
  {
    hide Locks, Queues, Provenance, Stops, Count;
    limit := AtLeastOne(Active(s) + Count(s.calls, Reserving) + 1);
    assert ViewOf(Apply(s, Configure(limit))) == ViewOf(s);
  }

  /** What release and publication do to the call and its cell. */
  lemma ReleaseAndPublish(s: State, c: CallId)
    requires Inv(s) && c < |s.calls| && s.calls[c].Unpublished()
    ensures s.calls[c].Built? ==>
              Enabled(s, Release(c)) && c < |Apply(s, Release(c)).calls|
              && Apply(s, Release(c)).calls[c] == Released(s.calls[c].id, s.calls[c].want, s.calls[c].slot, s.calls[c].agent)
    ensures s.calls[c].Released? ==>
              Enabled(s, Publish(c)) && s.calls[c].slot < |Apply(s, Publish(c)).cells|
              && Apply(s, Publish(c)).cells[s.calls[c].slot].value == Some(Managed(s.calls[c].agent, s.calls[c].want))
  {
    hide Locks, Queues, Provenance, Stops, Count;
  }

  /** A built agent can always be published. */
  lemma UnpublishedCanFill(s: State, c: CallId) returns (more: seq<Step>)
    requires Inv(s) && c < |s.calls| && s.calls[c].Unpublished()
    ensures Valid(s, more) && FilledBy(s, Run(s, more), c)
  {
    ReleaseAndPublish(s, c);
    hide Apply, Enabled, Locks, Queues, Provenance, Stops, Count;
    if s.calls[c].Built? {
      StepKeepsInv(s, Release(c));
      ReleaseAndPublish(Apply(s, Release(c)), c);
      TwoSteps(s, Release(c), Publish(c));
      more := [Release(c), Publish(c)];
    } else {
      RunStep(s, [], Publish(c));
      assert [] + [Publish(c)] == [Publish(c)];
      more := [Publish(c)];
    }
    OthersStay(s, more, c);
  }

  /** The factory can succeed. */
  lemma FactorySucceeds(s: State, c: CallId)
    requires Inv(s) && c < |s.calls| && s.calls[c].Building?
    ensures var step := FactoryOk(c, AgentInfo(Acp, None, 0));
      Enabled(s, step) && c < |Apply(s, step).calls|
      && Apply(s, step).calls[c] == Built(s.calls[c].id, s.calls[c].want, s.calls[c].slot, |s.agents|)
  {
    hide Locks, Queues, Provenance, Stops, Count;
  }

  /** A build can always succeed and publish. */
  lemma BuildCanFinish(s: State, c: CallId) returns (more: seq<Step>)
    requires Inv(s) && c < |s.calls| && s.calls[c].Building?
    ensures Valid(s, more) && FilledBy(s, Run(s, more), c)
  {
    var step := FactoryOk(c, AgentInfo(Acp, None, 0));
    FactorySucceeds(s, c);
    hide Apply, Enabled, Locks, Queues, Provenance, Stops, Count;
    StepKeepsInv(s, step);
    StepCalls(s, step);
    var rest := UnpublishedCanFill(Apply(s, step), c);
    RunStep(s, [], step);
    assert [] + [step] == [step];
    RunConcat(s, [step], rest);
    more := [step] + rest;
  }

  /** Whoever holds the permit can fill the slot. */
  lemma PermitCanFill(s: State, c: CallId) returns (more: seq<Step>)
    requires Inv(s) && c < |s.calls| && s.calls[c].HoldsPermit()
    ensures Valid(s, more) && FilledBy(s, Run(s, more), c)
  {
    hide Apply, Enabled, Locks, Queues, Provenance, Stops, Count;
    if s.calls[c].Initialising? {
      var first := InitialisingCanBuild(s, c);
      ReachableInv(s, first);
      OthersStay(s, first, c);
      var second := BuildCanFinish(Run(s, first), c);
      RunConcat(s, first, second);
      more := first + second;
    } else if s.calls[c].Building? {
      more := BuildCanFinish(s, c);
    } else {
      more := UnpublishedCanFill(s, c);
    }
  }

  lemma AcquirePermit(s: State, c: CallId)
    requires Inv(s) && c < |s.calls| && s.calls[c].Queued? && Granted(s, c)
    ensures Enabled(s, Acquire(c)) && c < |Apply(s, Acquire(c)).calls|
    ensures Apply(s, Acquire(c)).calls[c] == Initialising(s.calls[c].id, s.calls[c].want, s.calls[c].slot)
  {
    hide Locks, Queues, Provenance, Stops, Count;
  }

  /** The first waiter of a free, empty cell can fill it. */
  lemma HeadCanFill(s: State, c: CallId) returns (more: seq<Step>)
    requires Inv(s) && c < |s.calls| && s.calls[c].Queued? && Granted(s, c)
    ensures Valid(s, more) && FilledBy(s, Run(s, more), c)
  {
    AcquirePermit(s, c);
    hide Apply, Enabled, Locks, Queues, Provenance, Stops, Count, Granted;
    StepKeepsInv(s, Acquire(c));
    StepCalls(s, Acquire(c));
    var rest := PermitCanFill(Apply(s, Acquire(c)), c);
    RunStep(s, [], Acquire(c));
    assert [] + [Acquire(c)] == [Acquire(c)];
    RunConcat(s, [Acquire(c)], rest);
    more := [Acquire(c)] + rest;
  }

  ghost predicate CanStillFill(s: State, i: SlotId)
    requires WellFormed(s)
  {
    exists more :: Valid(s, more) && i < |Run(s, more).cells| && Run(s, more).cells[i].value.Some?
  }

  /**
   The kill future gives up on an empty slot. From then on some continuation fills that slot with an
   agent if and only if some call that obtained the slot earlier still holds it; so the caller is safe
   exactly when there is no such straggler.
   */
  lemma GivingUpIsExact(s: State, k: CallId)
    requires Inv(s) && Enabled(s, KillAcquire(k))
    ensures var r := Apply(s, KillAcquire(k));
      var i := s.calls[k].slot;
      CanStillFill(r, i) <==> exists c: CallId :: Contender(r, c, i)
  {
    var r := Apply(s, KillAcquire(k));
    var i := s.calls[k].slot;
    StepKeepsInv(s, KillAcquire(k));
    GivenUp(s, k);
    hide Apply, Enabled, Locks, Queues, Provenance, Stops, Count;
    if exists c: CallId :: Contender(r, c, i) {
      var c: CallId :| Contender(r, c, i);
      var more := ContenderCanFill(r, c, i);
    } else if CanStillFill(r, i) {
      var more :| Valid(r, more) && i < |Run(r, more).cells| && Run(r, more).cells[i].value.Some?;
      SettledForever(r, more, i);
    }
  }

  lemma GivenUp(s: State, k: CallId)
    requires Inv(s) && Enabled(s, KillAcquire(k))
    ensures var r := Apply(s, KillAcquire(k));
      var i := s.calls[k].slot;
      && k < |r.calls| && r.calls[k] == KillDone(i, None)
      && i < |r.cells| && r.cells[i].value.None? && !Mapped(r, i) && NobodyPending(r, i)
  {
    hide Locks, Queues, Provenance, Count;
  }

  /** Nobody else being able to take the permit away, a call that holds an empty slot can see it filled. */
  lemma ContenderCanFill(s: State, c: CallId, i: SlotId) returns (more: seq<Step>)
    requires Inv(s) && Contender(s, c, i) && NobodyPending(s, i)
    requires i < |s.cells| && s.cells[i].value.None?
    ensures Valid(s, more) && i < |Run(s, more).cells| && Run(s, more).cells[i].value.Some?
  {
    if s.cells[i].holder.Some? {
      var h := s.cells[i].holder.value;
      HolderHolds(s, i);
      hide Apply, Enabled, Locks, Queues, Provenance, Stops, Count;
      more := PermitCanFill(s, h);
    } else if s.cells[i].waiters != [] {
      var w := s.cells[i].waiters[0];
      FirstWaiter(s, i);
      hide Apply, Enabled, Locks, Queues, Provenance, Stops, Count;
      more := HeadCanFill(s, w);
    } else {
      LoneHolder(s, c, i);
      StepKeepsInv(s, Enter(c));
      var t := Apply(s, Enter(c));
      RunStep(s, [], Enter(c));
      assert [] + [Enter(c)] == [Enter(c)];
      hide Apply, Enabled, Locks, Queues, Provenance, Stops, Count;
      var rest := HeadCanFill(t, c);
      RunConcat(s, [Enter(c)], rest);
      more := [Enter(c)] + rest;
    }
  }

  lemma HolderHolds(s: State, i: SlotId)
    requires Inv(s) && i < |s.cells| && s.cells[i].holder.Some?
    ensures var h := s.cells[i].holder.value;
      h < |s.calls| && s.calls[h].HoldsPermit() && s.calls[h].slot == i && s.cells[i].value.None?
  {
    hide Queues, Provenance, Stops, Count;
  }

  lemma FirstWaiter(s: State, i: SlotId)
    requires Inv(s) && NobodyPending(s, i)
    requires i < |s.cells| && s.cells[i].value.None? && s.cells[i].holder.None? && s.cells[i].waiters != []
    ensures var w := s.cells[i].waiters[0];
      w < |s.calls| && s.calls[w].Queued? && s.calls[w].slot == i && Granted(s, w)
  {
    hide Locks, Provenance, Stops, Count;
    assert s.cells[i].waiters[0] in s.cells[i].waiters;
  }

  lemma LoneHolder(s: State, c: CallId, i: SlotId)
    requires Inv(s) && Contender(s, c, i)
    requires i < |s.cells| && s.cells[i].value.None? && s.cells[i].holder.None? && s.cells[i].waiters == []
    ensures Enabled(s, Enter(c))
    ensures var t := Apply(s, Enter(c)); t.calls[c].Queued? && t.calls[c].slot == i && Granted(t, c)
  {
    AtSlot(s, c);
    hide Locks, Provenance, Stops, Count;
  }
}
