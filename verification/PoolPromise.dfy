/**
 What a call can rely on from the moment it obtains its slot: every way to return gives it an agent with
 the capabilities it asked for exactly when all calls that can still fill the slot before it ask for enough.
 */
module PoolPromise {
  import opened Basics
  import opened Admission
  import opened Pool
  import opened PoolInvariant
  import opened PoolCapacity
  import opened PoolSafety
  import opened PoolKill

  /** `c` waits in the queue of empty slot `i`. */
  ghost predicate WaitsAt(s: State, c: CallId, i: SlotId) {
    c < |s.calls| && s.calls[c].Queued? && s.calls[c].slot == i && i < |s.cells| && s.cells[i].value.None?
  }

  ghost predicate Covers(s: State, d: CallId, want: RuntimeCapabilities) {
    d < |s.calls| && s.calls[d].Contends() && s.calls[d].want.Satisfies(want)
  }

  /**
   The holder of the permit and the calls queued ahead ask for enough. A holder that has its agent can
   neither fail nor be cancelled, so then it alone counts. Kill futures in the queue build nothing.
   */
  ghost predicate CapableFirst(s: State, c: CallId, i: SlotId, want: RuntimeCapabilities)
    requires i < |s.cells|
  {
    var cell := s.cells[i];
    && (cell.holder.Some? ==> Covers(s, cell.holder.value, want))
    && ((cell.holder.Some? && cell.holder.value < |s.calls| && s.calls[cell.holder.value].Unpublished())
        || forall d: CallId :: d in Ahead(cell.waiters, c) && d < |s.calls| && s.calls[d].Queued? ==> Covers(s, d, want))
  }

  /** In `r`, call `c` has returned an agent with what it wanted. */
  ghost predicate ReturnedCapable(r: State, c: CallId, want: RuntimeCapabilities) {
    && c < |r.calls| && r.calls[c].Returned? && r.calls[c].slot < |r.cells|
    && r.cells[r.calls[c].slot].value.Some? && r.cells[r.calls[c].slot].value.value.caps.Satisfies(want)
  }

  ghost predicate AlwaysCapable(s: State, c: CallId)
    requires WellFormed(s) && c < |s.calls| && (s.calls[c].Ready? || s.calls[c].Contends())
  {
    forall more: seq<Step> ::
      Valid(s, more) && c < |Run(s, more).calls| && Run(s, more).calls[c].Returned? ==>
        ReturnedCapable(Run(s, more), c, s.calls[c].want)
  }

  // ---- If: the promise is kept by every step ----

  ghost predicate Promise(s: State, c: CallId, i: SlotId, want: RuntimeCapabilities) {
    && c < |s.calls| && i < |s.cells|
    && (s.calls[c].Failed? || ((s.calls[c].Contends() || s.calls[c].Returned?) && s.calls[c].slot == i && s.calls[c].want == want
          && (if s.cells[i].value.Some? then s.cells[i].value.value.caps.Satisfies(want)
              else s.calls[c].HoldsPermit() || (s.calls[c].Queued? && CapableFirst(s, c, i, want)))))
  }

  /** A call at a slot keeps slot and request until it returns or fails. */
  lemma WantStays(s: State, step: Step, c: CallId)
    requires WellFormed(s) && Enabled(s, step) && Moves(step, c) && c < |s.calls| && s.calls[c].Contends()
    ensures c < |Apply(s, step).calls|
    ensures var o, n := s.calls[c], Apply(s, step).calls[c];
      n.Failed? || ((n.Contends() || n.Returned?) && n.slot == o.slot && n.want == o.want)
    ensures s.calls[c].Queued? && !Full(s, c) ==>
              Apply(s, step).calls[c].Failed? || Apply(s, step).calls[c].HoldsPermit()
    ensures s.calls[c].HoldsPermit() ==>
              var n := Apply(s, step).calls[c]; n.Failed? || n.HoldsPermit() || (n.Returned? && step.Publish?)
    ensures s.calls[c].Unpublished() ==> Apply(s, step).calls[c].Unpublished() || step.Publish?
  {
    hide Decide, Enumerates, RemoveAll;
  }

  lemma PublishedValue(s: State, c: CallId)
    requires Inv(s) && Enabled(s, Publish(c))
    ensures var r := Apply(s, Publish(c));
      var i := s.calls[c].slot;
      i < |s.cells| && i < |r.cells| && s.cells[i].holder == Some(c) && s.cells[i].value.None?
      && r.cells[i].value == Some(Managed(s.calls[c].agent, s.calls[c].want))
  {
    AtSlot(s, c);
    hide Locks, Queues, Provenance, Stops, Count;
  }

  /** The value of slot `i` after a step: as before, or that of the holder that publishes. */
  lemma ValueAfter(s: State, step: Step, i: SlotId)
    requires Inv(s) && Enabled(s, step) && i < |s.cells|
    ensures i < |Apply(s, step).cells|
    ensures Apply(s, step).cells[i].value == s.cells[i].value
            || (&& step.Publish? && s.cells[i].value.None? && s.cells[i].holder == Some(step.c)
                && step.c < |s.calls| && s.calls[step.c].Released?
                && Apply(s, step).cells[i].value == Some(Managed(s.calls[step.c].agent, s.calls[step.c].want)))
  {
    StepCells(s, step);
    if step.Publish? { PublishedValue(s, step.c); }
    hide Apply, Inv;
  }

  /** Who holds the permit after a step: the one before, or the first in the queue. */
  lemma HolderAfter(s: State, step: Step, i: SlotId)
    requires Inv(s) && Enabled(s, step) && i < |s.cells| && i < |Apply(s, step).cells|
    requires Apply(s, step).cells[i].holder.Some?
    ensures var h := Apply(s, step).cells[i].holder.value;
      && h < |s.calls| && s.calls[h].Contends() && s.calls[h].slot == i
      && (s.cells[i].holder == Some(h)
          || (step == Acquire(h) && s.calls[h].Queued? && s.cells[i].holder.None?
              && s.cells[i].waiters != [] && s.cells[i].waiters[0] == h))
  {
    StepKeepsInv(s, step);
    StepCalls(s, step);
    NewCalls(s, step);
    HolderHolds(Apply(s, step), i);
    var h := Apply(s, step).cells[i].holder.value;
    if Moves(step, h) { StepMoves(s, step, h); }
    hide Apply, Queues, Provenance, Stops, Count;
    if !s.calls[h].HoldsPermit() {
      assert step == Acquire(h);
    }
  }

  lemma AheadAfter(s: State, step: Step, c: CallId, i: SlotId, want: RuntimeCapabilities)
    requires Inv(s) && Enabled(s, step) && WaitsAt(s, c, i) && !Moves(step, c)
    requires forall d: CallId :: d in Ahead(s.cells[i].waiters, c) && d < |s.calls| && s.calls[d].Queued? ==> Covers(s, d, want)
    ensures i < |Apply(s, step).cells|
    ensures var r := Apply(s, step);
      forall d: CallId :: d in Ahead(r.cells[i].waiters, c) && d < |r.calls| && r.calls[d].Queued? ==> Covers(r, d, want)
  {
    hide Apply, Enabled, Locks, Provenance, Stops, Count;
    StepWaiters(s, step, i);
    StepCalls(s, step);
    var r := Apply(s, step);
    var q, q' := s.cells[i].waiters, r.cells[i].waiters;
    assert c in q && NoDup(q);
    if q' != q {
      var x :| Moves(step, x) && (q' == q + [x] || q' == Without(q, x));
      if q' == q + [x] { AheadAppend(q, c, x); } else { AheadWithout(q, c, x); }
    }
    assert Ahead(q', c) <= Ahead(q, c);
    AheadSubset(q, c);
    forall d: CallId | d in Ahead(q', c) && d < |r.calls| && r.calls[d].Queued? ensures Covers(r, d, want) {
      assert d in q && d < |s.calls| && s.calls[d].Waits();
      if Moves(step, d) { StepMoves(s, step, d); }
    }
  }

  lemma HolderCovered(s: State, step: Step, c: CallId, i: SlotId, want: RuntimeCapabilities)
    requires Inv(s) && Enabled(s, step) && WaitsAt(s, c, i) && !Moves(step, c) && CapableFirst(s, c, i, want)
    requires i < |Apply(s, step).cells| && Apply(s, step).cells[i].holder.Some?
    ensures Covers(Apply(s, step), Apply(s, step).cells[i].holder.value, want)
  {
    hide Apply, Enabled, Locks, Queues, Provenance, Stops, Count;
    var r := Apply(s, step);
    var h := r.cells[i].holder.value;
    HolderAfter(s, step, i);
    StepKeepsInv(s, step);
    StepCalls(s, step);
    HolderHolds(r, i);
    assert Covers(s, h, want);
    if Moves(step, h) { WantStays(s, step, h); }
  }

  lemma CapableAfter(s: State, step: Step, c: CallId, i: SlotId, want: RuntimeCapabilities)
    requires Inv(s) && Enabled(s, step) && WaitsAt(s, c, i) && !Moves(step, c) && CapableFirst(s, c, i, want)
    requires i < |Apply(s, step).cells| && Apply(s, step).cells[i].value.None?
    ensures CapableFirst(Apply(s, step), c, i, want)
  {
    hide Apply, Enabled, Locks, Queues, Provenance, Stops, Count, Covers;
    if Apply(s, step).cells[i].holder.Some? {
      HolderCovered(s, step, c, i, want);
    }
    var cell := s.cells[i];
    if cell.holder.Some? && cell.holder.value < |s.calls| && s.calls[cell.holder.value].Unpublished() {
      UnpublishedHolds(s, step, i);
    } else {
      AheadAfter(s, step, c, i, want);
    }
  }

  /** A holder that has its agent keeps the permit until it publishes. */
  lemma UnpublishedHolds(s: State, step: Step, i: SlotId)
    requires Inv(s) && Enabled(s, step) && i < |s.cells| && s.cells[i].holder.Some?
    requires var h := s.cells[i].holder.value; h < |s.calls| && s.calls[h].Unpublished()
    requires i < |Apply(s, step).cells| && Apply(s, step).cells[i].value.None?
    ensures var r := Apply(s, step);
      r.cells[i].holder == s.cells[i].holder && s.cells[i].holder.value < |r.calls|
      && r.calls[s.cells[i].holder.value].Unpublished()
  {
    var h := s.cells[i].holder.value;
    HolderHolds(s, i);
    StepKeepsInv(s, step);
    StepCalls(s, step);
    if step.Publish? { PublishedValue(s, step.c); }
    if Moves(step, h) { WantStays(s, step, h); }
    hide Apply, Enabled, Queues, Provenance, Stops, Count;
    var r := Apply(s, step);
    assert step.Publish? ==> step.c != h;
    assert r.calls[h].Unpublished();
  }

  lemma PromiseStep(s: State, step: Step, c: CallId, i: SlotId, want: RuntimeCapabilities)
    requires Inv(s) && Enabled(s, step) && Promise(s, c, i, want)
    ensures Promise(Apply(s, step), c, i, want)
  {
    var r := Apply(s, step);
    StepCalls(s, step);
    ValueAfter(s, step, i);
    if Moves(step, c) { StepMoves(s, step, c); }
    if Moves(step, c) && s.calls[c].Contends() { WantStays(s, step, c); }
    AtPermit(s, c);
    hide Apply, Enabled, Inv, CapableFirst;
    if !s.calls[c].Failed? && s.cells[i].value.None? && s.calls[c].Queued? {
      if r.cells[i].value.Some? {
        HolderCapable(s, c, i, want);
      } else if !Moves(step, c) {
        CapableAfter(s, step, c, i, want);
      }
    }
  }

  lemma AtPermit(s: State, c: CallId)
    requires Inv(s) && c < |s.calls|
    ensures s.calls[c].HoldsPermit() ==> s.calls[c].slot < |s.cells| && s.cells[s.calls[c].slot].holder == Some(c)
    ensures s.calls[c].Returned? ==> s.calls[c].slot < |s.cells| && s.cells[s.calls[c].slot].value.Some?
  {
    hide Queues, Stops, Count;
  }

  lemma HolderCapable(s: State, c: CallId, i: SlotId, want: RuntimeCapabilities)
    requires i < |s.cells| && CapableFirst(s, c, i, want)
    ensures s.cells[i].holder.Some? ==> Covers(s, s.cells[i].holder.value, want)
  {}

  lemma {:induction false} PromiseRun(s: State, steps: seq<Step>, c: CallId, i: SlotId, want: RuntimeCapabilities)
    requires Inv(s) && Valid(s, steps) && Promise(s, c, i, want)
    ensures Promise(Run(s, steps), c, i, want)
  {
    hide Apply, Enabled, Locks, Queues, Provenance, Stops, Count, Promise;
    if steps != [] {
      var n := |steps| - 1;
      PromiseRun(s, steps[..n], c, i, want);
      ReachableInv(s, steps[..n]);
      PromiseStep(Run(s, steps[..n]), steps[n], c, i, want);
    }
  }

  // ---- Only if: a call that asks for less can be let through first ----

  lemma WakeStep(s: State, c: CallId)
    requires Inv(s) && c < |s.calls| && s.calls[c].Queued? && Full(s, c)
    ensures Enabled(s, Wake(c))
    ensures var r := Apply(s, Wake(c));
      var i := s.calls[c].slot;
      c < |r.calls| && r.calls[c].Returned? && r.calls[c].slot == i && i < |r.cells| && r.cells[i].value == s.cells[i].value
  {
    hide Locks, Queues, Provenance, Stops, Count;
  }

  /** Some continuation returns `c` an agent without what it wanted. */
  ghost predicate CanMiss(s: State, c: CallId, want: RuntimeCapabilities)
    requires WellFormed(s)
  {
    exists more: seq<Step> ::
      Valid(s, more) && c < |Run(s, more).calls| && Run(s, more).calls[c].Returned? && !ReturnedCapable(Run(s, more), c, want)
  }

  /** Once `b` has filled the slot, `c` wakes up with the agent of `b`. */
  lemma FillThenWake(s: State, b: CallId, c: CallId, i: SlotId, more: seq<Step>)
    requires Inv(s) && WaitsAt(s, c, i) && b != c && b < |s.calls| && s.calls[b].Contends() && s.calls[b].slot == i
    requires !s.calls[b].want.Satisfies(s.calls[c].want)
    requires Valid(s, more) && FilledBy(s, Run(s, more), b)
    ensures CanMiss(s, c, s.calls[c].want)
  {
    hide Apply, Enabled, Locks, Queues, Provenance, Stops, Count;
    ReachableInv(s, more);
    var t := Run(s, more);
    assert t.calls[c] == s.calls[c];
    WakeStep(t, c);
    RunStep(s, more, Wake(c));
    assert !ReturnedCapable(Run(s, more + [Wake(c)]), c, s.calls[c].want);
  }

  /** Cancelling the holder, or somebody in the queue. */
  lemma CancelEffect(s: State, x: CallId, i: SlotId)
    requires Inv(s) && x < |s.calls| && i < |s.cells| && s.cells[i].value.None?
    requires (s.calls[x].HoldsPermit() && !s.calls[x].Unpublished()) || s.calls[x].Waits()
    requires s.calls[x].slot == i
    ensures Enabled(s, Cancel(x))
    ensures var r := Apply(s, Cancel(x));
      && i < |r.cells| && r.cells[i].value.None? && r.calls == s.calls[x := Failed]
      && (if s.calls[x].HoldsPermit() then r.cells[i].holder.None? && r.cells[i].waiters == s.cells[i].waiters
          else r.cells[i].holder == s.cells[i].holder && r.cells[i].waiters == Without(s.cells[i].waiters, x))
  {
    hide Locks, Queues, Provenance, Stops, Count;
  }

  lemma MissAfter(s: State, step: Step, c: CallId, want: RuntimeCapabilities)
    requires WellFormed(s) && Enabled(s, step) && CanMiss(Apply(s, step), c, want)
    ensures CanMiss(s, c, want)
  {
    hide Apply, Enabled, ReturnedCapable;
    var t := Apply(s, step);
    var more: seq<Step> :|
      Valid(t, more) && c < |Run(t, more).calls| && Run(t, more).calls[c].Returned? && !ReturnedCapable(Run(t, more), c, want);
    RunStep(s, [], step);
    assert [] + [step] == [step];
    RunConcat(s, [step], more);
    assert Valid(s, [step] + more);
  }

  /** With the permit free, everybody ahead of `b` can give up; then `b` builds. */
  lemma {:induction false} AheadCanMiss(s: State, b: CallId, c: CallId, i: SlotId)
    requires Inv(s) && WaitsAt(s, c, i) && WaitsAt(s, b, i) && s.cells[i].holder.None?
    requires b in Ahead(s.cells[i].waiters, c) && !s.calls[b].want.Satisfies(s.calls[c].want)
    ensures CanMiss(s, c, s.calls[c].want)
    decreases |s.cells[i].waiters|
  {
    var q := s.cells[i].waiters;
    var w := q[0];
    AheadSubset(q, c);
    Waiter(s, i);
    hide Apply, Enabled, Locks, Queues, Provenance, Stops, Count, CanMiss;
    if w == b {
      var more := HeadCanFill(s, b);
      FillThenWake(s, b, c, i, more);
    } else {
      assert w != c;
      CancelEffect(s, w, i);
      StepKeepsInv(s, Cancel(w));
      AheadWithout(q, c, w);
      var t := Apply(s, Cancel(w));
      assert Without(q, w) == q[1..];
      AheadCanMiss(t, b, c, i);
      MissAfter(s, Cancel(w), c, s.calls[c].want);
    }
  }

  lemma Waiter(s: State, i: SlotId)
    requires Inv(s) && i < |s.cells| && s.cells[i].waiters != []
    ensures var w := s.cells[i].waiters[0]; w < |s.calls| && s.calls[w].Waits() && s.calls[w].slot == i
    ensures NoDup(s.cells[i].waiters)
  {
    hide Locks, Provenance, Stops, Count;
    assert s.cells[i].waiters[0] in s.cells[i].waiters;
  }

  /** The same with a holder that can still be cancelled. */
  lemma BehindHolderCanMiss(s: State, b: CallId, c: CallId, i: SlotId)
    requires Inv(s) && WaitsAt(s, c, i) && WaitsAt(s, b, i) && s.cells[i].holder.Some?
    requires s.cells[i].holder.value < |s.calls| ==> !s.calls[s.cells[i].holder.value].Unpublished()
    requires b in Ahead(s.cells[i].waiters, c) && !s.calls[b].want.Satisfies(s.calls[c].want)
    ensures CanMiss(s, c, s.calls[c].want)
  {
    hide Apply, Enabled, Locks, Queues, Provenance, Stops, Count, CanMiss;
    var h := s.cells[i].holder.value;
    HolderHolds(s, i);
    CancelEffect(s, h, i);
    StepKeepsInv(s, Cancel(h));
    AheadCanMiss(Apply(s, Cancel(h)), b, c, i);
    MissAfter(s, Cancel(h), c, s.calls[c].want);
  }

  lemma IncapableCanMiss(s: State, c: CallId, i: SlotId)
    requires Inv(s) && WaitsAt(s, c, i) && !CapableFirst(s, c, i, s.calls[c].want)
    ensures CanMiss(s, c, s.calls[c].want)
  {
    hide Apply, Enabled, Locks, Queues, Provenance, Stops, Count, CanMiss;
    var want := s.calls[c].want;
    var cell := s.cells[i];
    if cell.holder.Some? {
      HolderHolds(s, i);
    }
    if cell.holder.Some? && !Covers(s, cell.holder.value, want) {
      var more := PermitCanFill(s, cell.holder.value);
      FillThenWake(s, cell.holder.value, c, i, more);
    } else {
      var b: CallId :| b in Ahead(cell.waiters, c) && b < |s.calls| && s.calls[b].Queued? && !Covers(s, b, want);
      AheadSubset(cell.waiters, c);
      InQueue(s, b, i);
      if cell.holder.None? {
        AheadCanMiss(s, b, c, i);
      } else {
        BehindHolderCanMiss(s, b, c, i);
      }
    }
  }

  lemma InQueue(s: State, b: CallId, i: SlotId)
    requires Inv(s) && i < |s.cells| && b in s.cells[i].waiters
    ensures b < |s.calls| && s.calls[b].Waits() && s.calls[b].slot == i
  {
    hide Locks, Provenance, Stops, Count;
  }

  // ---- The exact condition ----

  /**
   For a call that has queued on an empty slot: every continuation that returns it gives it what it asked
   for if and only if the holder of the permit and all calls ahead of it ask for enough.
   */
  lemma QueuedCapabilitiesExact(s: State, c: CallId, i: SlotId)
    requires Inv(s) && WaitsAt(s, c, i)
    ensures AlwaysCapable(s, c) <==> CapableFirst(s, c, i, s.calls[c].want)
  {
    hide Apply, Enabled, Locks, Queues, Provenance, Stops, Count, CapableFirst;
    var want := s.calls[c].want;
    if CapableFirst(s, c, i, want) {
      forall more: seq<Step> | Valid(s, more) && c < |Run(s, more).calls| && Run(s, more).calls[c].Returned?
        ensures ReturnedCapable(Run(s, more), c, want)
      {
        PromiseRun(s, more, c, i, want);
        ReachableInv(s, more);
        AtPermit(Run(s, more), c);
      }
    } else {
      IncapableCanMiss(s, c, i);
    }
  }

  // ---- Before the queue: a call that holds its slot ----

  ghost predicate HoldsAt(s: State, c: CallId, i: SlotId) {
    c < |s.calls| && s.calls[c].Holding? && s.calls[c].slot == i && i < |s.cells|
  }

  /** The permit is with a call that has its agent already and asked for enough. */
  ghost predicate CapableHolder(s: State, i: SlotId, want: RuntimeCapabilities)
    requires i < |s.cells|
  {
    && s.cells[i].holder.Some? && Covers(s, s.cells[i].holder.value, want)
    && s.calls[s.cells[i].holder.value].Unpublished()
  }

  ghost predicate OthersCover(s: State, c: CallId, i: SlotId, want: RuntimeCapabilities) {
    forall d: CallId :: Contender(s, d, i) && d != c ==> Covers(s, d, want)
  }

  /**
   A full slot decides by its value. For an empty one: nothing is asked for; or the permit is with a call
   that has a good agent; or nobody else can come any more and all who hold the slot ask for enough.
   */
  ghost predicate CapableSlot(s: State, c: CallId, i: SlotId, want: RuntimeCapabilities)
    requires i < |s.cells|
  {
    if s.cells[i].value.Some? then s.cells[i].value.value.caps.Satisfies(want)
    else want.contextVersion.None? || CapableHolder(s, i, want) || (!Mapped(s, i) && OthersCover(s, c, i, want))
  }

  // ---- If ----

  /** The promise to a call that still holds its slot, or to one that has gone on. */
  ghost predicate EarlyPromise(s: State, c: CallId, i: SlotId, want: RuntimeCapabilities) {
    Promise(s, c, i, want)
    || (HoldsAt(s, c, i) && s.calls[c].want == want
        && (if s.cells[i].value.Some? then s.cells[i].value.value.caps.Satisfies(want)
            else CapableHolder(s, i, want) || (!Mapped(s, i) && OthersCover(s, c, i, want))))
  }

  lemma EnterEffect(s: State, c: CallId, i: SlotId)
    requires Inv(s) && HoldsAt(s, c, i) && s.cells[i].value.None?
    ensures Enabled(s, Enter(c)) && c !in s.cells[i].waiters
    ensures var r := Apply(s, Enter(c));
      && r.calls == s.calls[c := Queued(s.calls[c].id, s.calls[c].want, i)] && i < |r.cells|
      && r.cells[i] == s.cells[i].(waiters := s.cells[i].waiters + [c])
  {
    AtSlot(s, c);
    hide Locks, Queues, Provenance, Stops, Count;
  }

  /** What the call meets in the queue when it enters. */
  lemma EntersCapable(s: State, c: CallId, i: SlotId, want: RuntimeCapabilities)
    requires Inv(s) && HoldsAt(s, c, i) && s.calls[c].want == want && s.cells[i].value.None?
    requires CapableHolder(s, i, want) || OthersCover(s, c, i, want)
    ensures Promise(Apply(s, Enter(c)), c, i, want)
  {
    EnterEffect(s, c, i);
    var r := Apply(s, Enter(c));
    if s.cells[i].holder.Some? {
      var h := s.cells[i].holder.value;
      HolderHolds(s, i);
      assert Contender(s, h, i) && h != c && r.calls[h] == s.calls[h];
      assert Covers(r, h, want);
    }
    hide Apply, Enabled, Locks, Provenance, Stops, Count;
    if !CapableHolder(s, i, want) {
      QueueCovers(s, c, i, want);
      assert CapableFirst(r, c, i, want);
    }
  }

  lemma QueueCovers(s: State, c: CallId, i: SlotId, want: RuntimeCapabilities)
    requires Inv(s) && HoldsAt(s, c, i) && s.cells[i].value.None? && OthersCover(s, c, i, want)
    ensures i < |Apply(s, Enter(c)).cells|
    ensures var r := Apply(s, Enter(c));
      forall d: CallId :: d in Ahead(r.cells[i].waiters, c) && d < |r.calls| && r.calls[d].Queued? ==> Covers(r, d, want)
  {
    EnterEffect(s, c, i);
    hide Apply, Enabled, Locks, Provenance, Stops, Count;
    var r := Apply(s, Enter(c));
    AheadSubset(r.cells[i].waiters, c);
    forall d: CallId | d in Ahead(r.cells[i].waiters, c) && d < |r.calls| && r.calls[d].Queued?
      ensures Covers(r, d, want)
    {
      assert d in s.cells[i].waiters && d != c && s.calls[d] == r.calls[d];
      InQueue(s, d, i);
      assert Contender(s, d, i);
    }
  }

  lemma EarlyStepOther(s: State, step: Step, c: CallId, i: SlotId, want: RuntimeCapabilities)
    requires Inv(s) && Enabled(s, step) && HoldsAt(s, c, i) && s.calls[c].want == want && s.cells[i].value.None?
    requires CapableHolder(s, i, want) || (!Mapped(s, i) && OthersCover(s, c, i, want))
    requires !Moves(step, c) && i < |Apply(s, step).cells| && Apply(s, step).cells[i].value.None?
    ensures CapableHolder(Apply(s, step), i, want)
            || (!Mapped(Apply(s, step), i) && OthersCover(Apply(s, step), c, i, want))
  {
    hide Apply, Enabled, Locks, Queues, Provenance, Stops, Count;
    var r := Apply(s, step);
    StepCalls(s, step);
    if CapableHolder(s, i, want) {
      var h := s.cells[i].holder.value;
      UnpublishedHolds(s, step, i);
      if Moves(step, h) { WantStays(s, step, h); }
    } else {
      UnmappedStays(s, step, i);
      forall d: CallId | Contender(r, d, i) && d != c ensures Covers(r, d, want) {
        ContendersStay(s, step, d, i);
        if Moves(step, d) { WantStays(s, step, d); }
      }
    }
  }

  lemma EarlyStep(s: State, step: Step, c: CallId, i: SlotId, want: RuntimeCapabilities)
    requires Inv(s) && Enabled(s, step) && EarlyPromise(s, c, i, want)
    ensures EarlyPromise(Apply(s, step), c, i, want)
  {
    hide Apply, Enabled, Locks, Queues, Provenance, Stops, Count, Promise, CapableHolder, OthersCover;
    if Promise(s, c, i, want) {
      PromiseStep(s, step, c, i, want);
    } else if Moves(step, c) {
      EarlyMove(s, step, c, i, want);
    } else {
      ValueAfter(s, step, i);
      StepCalls(s, step);
      if Apply(s, step).cells[i].value.None? {
        EarlyStepOther(s, step, c, i, want);
      } else if s.cells[i].value.None? {
        EarlyPublished(s, c, i, want);
      }
    }
  }

  lemma EarlyPublished(s: State, c: CallId, i: SlotId, want: RuntimeCapabilities)
    requires Inv(s) && HoldsAt(s, c, i) && s.cells[i].holder.Some?
    requires CapableHolder(s, i, want) || OthersCover(s, c, i, want)
    ensures Covers(s, s.cells[i].holder.value, want)
  {
    HolderHolds(s, i);
  }

  lemma HoldingMoves(s: State, step: Step, c: CallId)
    requires WellFormed(s) && Enabled(s, step) && Moves(step, c) && c < |s.calls| && s.calls[c].Holding?
    ensures step == Enter(c) || step == Cancel(c)
  {}

  lemma EarlyMove(s: State, step: Step, c: CallId, i: SlotId, want: RuntimeCapabilities)
    requires Inv(s) && Enabled(s, step) && EarlyPromise(s, c, i, want) && !Promise(s, c, i, want) && Moves(step, c)
    ensures Promise(Apply(s, step), c, i, want)
  {
    HoldingMoves(s, step, c);
    if step.Cancel? {
      CancelFails(s, c);
      StepCells(s, step);
      hide Apply, Enabled;
    } else if s.cells[i].value.None? {
      hide Apply, Enabled, Locks, Queues, Provenance, Stops, Count, Promise, CapableHolder, OthersCover;
      EntersCapable(s, c, i, want);
    } else {
      EntersFull(s, c, i);
      hide Apply, Enabled;
    }
  }

  lemma CancelFails(s: State, c: CallId)
    requires WellFormed(s) && Enabled(s, Cancel(c))
    ensures c < |Apply(s, Cancel(c)).calls| && Apply(s, Cancel(c)).calls[c].Failed?
  {}

  lemma EntersFull(s: State, c: CallId, i: SlotId)
    requires WellFormed(s) && HoldsAt(s, c, i) && s.cells[i].value.Some?
    ensures Enabled(s, Enter(c))
    ensures var r := Apply(s, Enter(c));
      && i < |r.cells| && r.cells[i] == s.cells[i]
      && r.calls == s.calls[c := Returned(s.calls[c].id, s.calls[c].want, i, s.cells[i].value.value.agent)]
  {}

  lemma {:induction false} EarlyRun(s: State, steps: seq<Step>, c: CallId, i: SlotId, want: RuntimeCapabilities)
    requires Inv(s) && Valid(s, steps) && EarlyPromise(s, c, i, want)
    ensures EarlyPromise(Run(s, steps), c, i, want)
  {
    hide Apply, Enabled, Locks, Queues, Provenance, Stops, Count, EarlyPromise;
    if steps != [] {
      var n := |steps| - 1;
      EarlyRun(s, steps[..n], c, i, want);
      ReachableInv(s, steps[..n]);
      EarlyStep(Run(s, steps[..n]), steps[n], c, i, want);
    }
  }

  // ---- Only if ----

  /** Once it enters behind a call that asks for less, `c` can be let down. */
  lemma BehindBadCanMiss(s: State, c: CallId, d: CallId, i: SlotId)
    requires Inv(s) && HoldsAt(s, c, i) && s.cells[i].value.None? && !CapableHolder(s, i, s.calls[c].want)
    requires Contender(s, d, i) && d != c && !Covers(s, d, s.calls[c].want) && !s.calls[d].Holding?
    ensures CanMiss(s, c, s.calls[c].want)
  {
    var want := s.calls[c].want;
    EnterEffect(s, c, i);
    StepKeepsInv(s, Enter(c));
    AtSlot(s, d);
    if s.cells[i].holder.Some? { HolderHolds(s, i); }
    hide Apply, Enabled, Locks, Queues, Provenance, Stops, Count, CanMiss;
    var r := Apply(s, Enter(c));
    AheadLast(s.cells[i].waiters, c);
    assert s.calls[d].Queued? ==> d in Ahead(r.cells[i].waiters, c);
    assert !CapableFirst(r, c, i, want);
    IncapableCanMiss(r, c, i);
    MissAfter(s, Enter(c), c, want);
  }

  /** Wherever the call that asks for less stands. */
  lemma BadContenderCanMiss(s: State, c: CallId, d: CallId, i: SlotId)
    requires Inv(s) && HoldsAt(s, c, i) && s.cells[i].value.None? && !CapableHolder(s, i, s.calls[c].want)
    requires Contender(s, d, i) && d != c && !Covers(s, d, s.calls[c].want)
    ensures CanMiss(s, c, s.calls[c].want)
  {
    hide Apply, Enabled, Locks, Queues, Provenance, Stops, Count, CanMiss;
    if s.calls[d].Holding? {
      EnterEffect(s, d, i);
      StepKeepsInv(s, Enter(d));
      if s.cells[i].holder.Some? { HolderHolds(s, i); }
      BehindBadCanMiss(Apply(s, Enter(d)), c, d, i);
      MissAfter(s, Enter(d), c, s.calls[c].want);
    } else {
      BehindBadCanMiss(s, c, d, i);
    }
  }

  /** A slot in the map can be obtained by a new call that asks for nothing. */
  lemma Newcomer(s: State, i: SlotId)
    requires Inv(s) && i < |s.cells| && Mapped(s, i) && s.cells[i].value.None?
    ensures var id, none, d := s.cells[i].owner, RuntimeCapabilities(None), |s.calls|;
      && Valid(s, [Start(id, none), Check(d), Obtain(d)])
      && Run(s, [Start(id, none), Check(d), Obtain(d)]) == s.(calls := s.calls + [Holding(id, none, i)])
  {
    NewcomerSteps(s, i);
    var d := |s.calls|;
    hide Apply, Enabled, Locks, Queues, Provenance, Stops, Count;
    ThreeSteps(s, Start(s.cells[i].owner, RuntimeCapabilities(None)), Check(d), Obtain(d));
  }

  lemma NewcomerSteps(s: State, i: SlotId)
    requires WellFormed(s) && i < |s.cells| && Mapped(s, i) && s.cells[i].value.None?
    ensures var id, none, d := s.cells[i].owner, RuntimeCapabilities(None), |s.calls|;
      var s1, s2 := s.(calls := s.calls + [Arrived(id, none)]), s.(calls := s.calls + [Ready(id, none)]);
      && WellFormed(s1) && WellFormed(s2)
      && Enabled(s, Start(id, none)) && Apply(s, Start(id, none)) == s1
      && Enabled(s1, Check(d)) && Apply(s1, Check(d)) == s2
      && Enabled(s2, Obtain(d)) && Apply(s2, Obtain(d)) == s.(calls := s.calls + [Holding(id, none, i)])
  {
    var id, none, d := s.cells[i].owner, RuntimeCapabilities(None), |s.calls|;
    assert (s.calls + [Arrived(id, none)])[d := Ready(id, none)] == s.calls + [Ready(id, none)];
    assert (s.calls + [Ready(id, none)])[d := Holding(id, none, i)] == s.calls + [Holding(id, none, i)];
  }

  lemma NewcomerCanMiss(s: State, c: CallId, i: SlotId)
    requires Inv(s) && HoldsAt(s, c, i) && s.cells[i].value.None? && !CapableHolder(s, i, s.calls[c].want)
    requires Mapped(s, i) && s.calls[c].want.contextVersion.Some?
    ensures CanMiss(s, c, s.calls[c].want)
  {
    var id, none, d := s.cells[i].owner, RuntimeCapabilities(None), |s.calls|;
    var steps := [Start(id, none), Check(d), Obtain(d)];
    Newcomer(s, i);
    if s.cells[i].holder.Some? { HolderHolds(s, i); }
    hide Apply, Enabled, Locks, Queues, Provenance, Stops, Count, CanMiss;
    ReachableInv(s, steps);
    BadContenderCanMiss(Run(s, steps), c, d, i);
    MissAfterRun(s, steps, c, s.calls[c].want);
  }

  lemma MissAfterRun(s: State, steps: seq<Step>, c: CallId, want: RuntimeCapabilities)
    requires WellFormed(s) && Valid(s, steps) && CanMiss(Run(s, steps), c, want)
    ensures CanMiss(s, c, want)
  {
    hide Apply, Enabled, ReturnedCapable;
    var t := Run(s, steps);
    var more: seq<Step> :|
      Valid(t, more) && c < |Run(t, more).calls| && Run(t, more).calls[c].Returned? && !ReturnedCapable(Run(t, more), c, want);
    RunConcat(s, steps, more);
    assert Valid(s, steps + more);
  }

  lemma FullCanMiss(s: State, c: CallId, i: SlotId)
    requires Inv(s) && HoldsAt(s, c, i) && s.cells[i].value.Some?
    requires !s.cells[i].value.value.caps.Satisfies(s.calls[c].want)
    ensures CanMiss(s, c, s.calls[c].want)
  {
    EntersFull(s, c, i);
    RunStep(s, [], Enter(c));
    hide Apply, Enabled;
    assert [] + [Enter(c)] == [Enter(c)];
    assert !ReturnedCapable(Run(s, [Enter(c)]), c, s.calls[c].want);
  }

  /**
   From the moment a call holds its slot: every continuation that returns it gives it what it asked for if
   and only if the slot is capable in the sense above. The call may find the slot full without ever queueing.
   */
  lemma HoldingCapabilitiesExact(s: State, c: CallId, i: SlotId)
    requires Inv(s) && HoldsAt(s, c, i)
    ensures AlwaysCapable(s, c) <==> CapableSlot(s, c, i, s.calls[c].want)
  {
    hide Apply, Enabled, Locks, Queues, Provenance, Stops, Count, CapableHolder, OthersCover;
    var want := s.calls[c].want;
    if CapableSlot(s, c, i, want) {
      forall more: seq<Step> | Valid(s, more) && c < |Run(s, more).calls| && Run(s, more).calls[c].Returned?
        ensures ReturnedCapable(Run(s, more), c, want)
      {
        ReachableInv(s, more);
        AtPermit(Run(s, more), c);
        if s.cells[i].value.Some? || want.contextVersion.Some? {
          EarlyRun(s, more, c, i, want);
        }
      }
    } else if s.cells[i].value.Some? {
      FullCanMiss(s, c, i);
    } else if Mapped(s, i) {
      NewcomerCanMiss(s, c, i);
    } else {
      SomeoneIsBad(s, c, i, want);
      var d: CallId :| Contender(s, d, i) && d != c && !Covers(s, d, want);
      BadContenderCanMiss(s, c, d, i);
    }
  }

  lemma SomeoneIsBad(s: State, c: CallId, i: SlotId, want: RuntimeCapabilities)
    requires !OthersCover(s, c, i, want)
    ensures exists d: CallId :: Contender(s, d, i) && d != c && !Covers(s, d, want)
  {}

  // ---- Before that ----

  lemma ObtainsFresh(s: State, c: CallId)
    requires Inv(s) && c < |s.calls| && s.calls[c].Ready? && s.calls[c].id !in s.tasks
    ensures Enabled(s, Obtain(c))
    ensures var r := Apply(s, Obtain(c));
      var i := |s.cells|;
      && HoldsAt(r, c, i) && r.calls[c].want == s.calls[c].want
      && r.cells[i].value.None? && r.cells[i].holder.None? && Mapped(r, i)
  {
    hide Locks, Queues, Provenance, Stops, Count;
  }

  lemma KillUnmaps(s: State, id: ConvId)
    requires WellFormed(s)
    ensures Enabled(s, Kill(id)) && Apply(s, Kill(id)).calls == s.calls && id !in Apply(s, Kill(id)).tasks
  {}

  /** A call that has not obtained its slot yet can rely on nothing but having asked for nothing. */
  lemma ReadyCapabilitiesExact(s: State, c: CallId)
    requires Inv(s) && c < |s.calls| && s.calls[c].Ready?
    ensures AlwaysCapable(s, c) <==> s.calls[c].want.contextVersion.None?
  {
    hide Apply, Enabled, Locks, Queues, Provenance, Stops, Count, CapableHolder;
    var want := s.calls[c].want;
    if want.contextVersion.None? {
      forall more: seq<Step> | Valid(s, more) && c < |Run(s, more).calls| && Run(s, more).calls[c].Returned?
        ensures ReturnedCapable(Run(s, more), c, want)
      {
        ReachableInv(s, more);
        AtPermit(Run(s, more), c);
      }
    } else {
      KillUnmaps(s, s.calls[c].id);
      StepKeepsInv(s, Kill(s.calls[c].id));
      var t := Apply(s, Kill(s.calls[c].id));
      ObtainsFresh(t, c);
      StepKeepsInv(t, Obtain(c));
      NoCapableHolder(Apply(t, Obtain(c)), |t.cells|, want);
      NewcomerCanMiss(Apply(t, Obtain(c)), c, |t.cells|);
      MissAfter(t, Obtain(c), c, want);
      MissAfter(s, Kill(s.calls[c].id), c, want);
    }
  }

  lemma NoCapableHolder(s: State, i: SlotId, want: RuntimeCapabilities)
    requires i < |s.cells| && s.cells[i].holder.None?
    ensures !CapableHolder(s, i, want)
  {}
}
