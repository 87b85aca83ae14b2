/**
 The per-agent status machine. An emitter takes its decision under the status lock (`Emit`) and
 broadcasts after releasing it (`Send`), so both are steps of their own and anything may happen in
 between. Every terminal event is stamped with its turn, the number of resets before its decision.
 */
module AgentRuntime {
  import opened Basics
  import opened Admission

  datatype Event = Finish(session: Option<string>) | Error(data: string)
  datatype Stamped = Stamped(event: Event, turn: nat)

  datatype State = State(status: Option<ConversationStatus>, turn: nat, pending: seq<Stamped>, sent: seq<Stamped>)
  {
    predicate Done() { status == Some(Finished) }
  }

  datatype Step = Transition(to: ConversationStatus) | Reset(to: ConversationStatus) | Emit(event: Event) | Send(i: nat)

  const INIT := State(None, 0, [], [])

  predicate Enabled(s: State, step: Step) { step.Send? ==> step.i < |s.pending| }

  function Apply(s: State, step: Step): State
    requires Enabled(s, step)
  {
    match step
    case Transition(to) => if s.Done() then s else s.(status := Some(to))
    case Reset(to) => s.(status := Some(to), turn := s.turn + 1)
    case Emit(event) =>
      if s.Done() then s else s.(status := Some(Finished), pending := s.pending + [Stamped(event, s.turn)])
    case Send(i) =>
      s.(pending := s.pending[..i] + s.pending[i + 1..], sent := s.sent + [s.pending[i]])
  }

  predicate ValidRun(steps: seq<Step>)
    decreases |steps|, 0
  {
    steps == [] || (ValidRun(steps[..|steps| - 1]) && Enabled(Run(steps[..|steps| - 1]), steps[|steps| - 1]))
  }

  function Run(steps: seq<Step>): State
    requires ValidRun(steps)
    decreases |steps|, 1
  {
    if steps == [] then INIT else Apply(Run(steps[..|steps| - 1]), steps[|steps| - 1])
  }

  lemma {:induction false} ValidPrefix(steps: seq<Step>, n: nat)
    requires ValidRun(steps) && n <= |steps|
    ensures ValidRun(steps[..n])
  {
    if n < |steps| {
      ValidPrefix(steps[..|steps| - 1], n);
      assert steps[..|steps| - 1][..n] == steps[..n];
    } else {
      assert steps[..n] == steps;
    }
  }

  lemma RunNext(steps: seq<Step>, step: Step)
    requires ValidRun(steps) && Enabled(Run(steps), step)
    ensures ValidRun(steps + [step]) && Run(steps + [step]) == Apply(Run(steps), step)
  {
    assert (steps + [step])[..|steps|] == steps;
  }

  // ---- Reading a run off its labels, without the status ----

  predicate Finishes(step: Step) {
    step.Emit? || (step.Transition? && step.to.Finished?) || (step.Reset? && step.to.Finished?)
  }

  function Resets(steps: seq<Step>): nat { Count(steps, (step: Step) => step.Reset?) }

  /** Since the start of the run or some reset to another status, nothing before step `k` finished the turn. */
  ghost predicate Open(steps: seq<Step>, k: nat)
    requires k <= |steps|
  {
    exists r {:trigger Reopens(steps, r)} ::
      0 <= r <= k && Reopens(steps, r) && forall j :: r <= j < k ==> !Finishes(steps[j])
  }

  predicate Reopens(steps: seq<Step>, r: int)
    requires r <= |steps|
  {
    r <= 0 || (steps[r - 1].Reset? && !Finishes(steps[r - 1]))
  }

  /** Step `k` is an emitter that gets to broadcast. */
  ghost predicate Wins(steps: seq<Step>, k: nat)
    requires k < |steps|
  {
    steps[k].Emit? && Open(steps, k)
  }

  ghost function Winners(steps: seq<Step>): set<nat> {
    set k: nat | k < |steps| && Wins(steps, k)
  }

  lemma OpenPrefix(steps: seq<Step>, n: nat, k: nat)
    requires k <= n <= |steps|
    ensures Open(steps[..n], k) == Open(steps, k)
  {
    var head := steps[..n];
    if Open(steps, k) {
      var r :| 0 <= r <= k && Reopens(steps, r) && forall j :: r <= j < k ==> !Finishes(steps[j]);
      assert Reopens(head, r);
    }
    if Open(head, k) {
      var r :| 0 <= r <= k && Reopens(head, r) && forall j :: r <= j < k ==> !Finishes(head[j]);
      assert Reopens(steps, r);
      assert forall j :: r <= j < k ==> head[j] == steps[j];
    }
  }

  lemma OpenNext(steps: seq<Step>, k: nat)
    requires k < |steps|
    ensures Open(steps, k + 1) == (Reopens(steps, k + 1) || (Open(steps, k) && !Finishes(steps[k])))
  {
    if Open(steps, k + 1) && !Reopens(steps, k + 1) {
      var r :| 0 <= r <= k + 1 && Reopens(steps, r) && forall j :: r <= j < k + 1 ==> !Finishes(steps[j]);
      assert r <= k;
    }
  }

  /** The status lock says Finished exactly when the labels say that the turn is over. */
  lemma {:induction false} StatusExact(steps: seq<Step>)
    requires ValidRun(steps)
    ensures Run(steps).Done() <==> !Open(steps, |steps|)
    ensures Run(steps).turn == Resets(steps)
  {
    if steps == [] {
      assert Reopens(steps, 0);
    } else {
      var n := |steps| - 1;
      StatusExact(steps[..n]);
      OpenPrefix(steps, n, n);
      OpenNext(steps, n);
    }
  }

  lemma {:induction false} WinnersNext(steps: seq<Step>)
    requires steps != []
    ensures var n := |steps| - 1; Winners(steps) == Winners(steps[..n]) + if Wins(steps, n) then {n} else {}
  {
    var n := |steps| - 1;
    forall k: nat | k < n ensures Wins(steps[..n], k) == Wins(steps, k) {
      OpenPrefix(steps, n, k);
    }
  }

  /** One more step: who wins, seen from the labels and from the state. */
  lemma LastStep(steps: seq<Step>)
    requires ValidRun(steps) && steps != []
    ensures var n := |steps| - 1;
      && Run(steps) == Apply(Run(steps[..n]), steps[n]) && Run(steps[..n]).turn == Resets(steps[..n])
      && (Wins(steps, n) <==> steps[n].Emit? && !Run(steps[..n]).Done())
      && |Winners(steps)| == |Winners(steps[..n])| + if Wins(steps, n) then 1 else 0
  {
    var n := |steps| - 1;
    StatusExact(steps[..n]);
    OpenPrefix(steps, n, n);
    WinnersNext(steps);
    WinnersBelow(steps[..n]);
    hide Open, Winners, Resets, Apply;
  }

  /** There are as many terminal events, sent or still pending, as winning emitters. */
  lemma {:induction false} EventsAreAsMany(steps: seq<Step>)
    requires ValidRun(steps)
    ensures var s := Run(steps); |s.sent| + |s.pending| == |Winners(steps)|
  {
    if steps == [] {
      assert Winners(steps) == {};
    } else {
      EventsAreAsMany(steps[..|steps| - 1]);
      LastStep(steps);
      hide Run, Winners, Resets, Wins;
    }
  }

  /** Every terminal event belongs to a winning emitter. */
  lemma {:induction false} EventsAreWon(steps: seq<Step>, x: Stamped)
    requires ValidRun(steps) && (x in Run(steps).sent || x in Run(steps).pending)
    ensures WonBy(steps, x)
  {
    if steps != [] {
      var n := |steps| - 1;
      var s := Run(steps[..n]);
      LastStep(steps);
      hide Run, Winners, Resets, Open;
      if x in s.sent || x in s.pending {
        EventsAreWon(steps[..n], x);
        WonByExtends(steps, n, x);
      } else {
        LastWins(steps);
      }
    }
  }

  lemma WinnersBelow(steps: seq<Step>)
    ensures |steps| !in Winners(steps)
  {}

  lemma WonByExtends(steps: seq<Step>, n: nat, x: Stamped)
    requires n <= |steps| && WonBy(steps[..n], x)
    ensures WonBy(steps, x)
  {
    var k :| 0 <= k < n && Wins(steps[..n], k) && Stamped(steps[..n][k].event, Resets(steps[..n][..k])) == x;
    OpenPrefix(steps, n, k);
    assert steps[..n][..k] == steps[..k];
    assert Wins(steps, k);
  }

  ghost predicate WonBy(steps: seq<Step>, x: Stamped) {
    exists k :: 0 <= k < |steps| && Wins(steps, k) && Stamped(steps[k].event, Resets(steps[..k])) == x
  }

  lemma LastWins(steps: seq<Step>)
    requires steps != [] && Wins(steps, |steps| - 1)
    ensures WonBy(steps, Stamped(steps[|steps| - 1].event, Resets(steps[..|steps| - 1])))
  {}

  /** Between consecutive resets at most one emitter wins. */
  lemma OneWinnerPerTurn(steps: seq<Step>, i: nat, k: nat)
    requires i < k < |steps| && Wins(steps, i) && Wins(steps, k)
    ensures exists j :: i < j < k && steps[j].Reset?
  {
    var r :| 0 <= r <= k && Reopens(steps, r) && forall j :: r <= j < k ==> !Finishes(steps[j]);
    assert Finishes(steps[i]);
    assert steps[r - 1].Reset?;
  }

  // ---- The bound on terminal events ----

  ghost predicate Distinct(xs: seq<Stamped>) { forall i, j :: 0 <= i < j < |xs| ==> xs[i].turn != xs[j].turn }

  ghost predicate Inv(s: State) {
    && Distinct(s.sent) && Distinct(s.pending)
    && (forall x, y :: x in s.sent && y in s.pending ==> x.turn != y.turn)
    && (forall x :: x in s.sent || x in s.pending ==> x.turn <= s.turn && (x.turn == s.turn ==> s.Done()))
  }

  lemma DistinctWithout(xs: seq<Stamped>, i: nat)
    requires Distinct(xs) && i < |xs|
    ensures var rest := xs[..i] + xs[i + 1..];
      Distinct(rest) && forall y :: y in rest ==> y in xs && y.turn != xs[i].turn
  {
    var rest := xs[..i] + xs[i + 1..];
    assert forall j :: 0 <= j < |rest| ==> rest[j] == xs[if j < i then j else j + 1];
  }

  lemma DistinctConcat(a: seq<Stamped>, b: seq<Stamped>)
    requires Distinct(a) && Distinct(b) && forall x, y :: x in a && y in b ==> x.turn != y.turn
    ensures Distinct(a + b)
  {}

  lemma SendKeepsInv(s: State, i: nat)
    requires Inv(s) && i < |s.pending|
    ensures Inv(Apply(s, Send(i)))
  {
    var x := s.pending[i];
    DistinctConcat(s.sent, [x]);
    DistinctWithout(s.pending, i);
    hide Distinct;
  }

  lemma StepKeepsInv(s: State, step: Step)
    requires Inv(s) && Enabled(s, step)
    ensures Inv(Apply(s, step))
  {
    if step.Send? {
      SendKeepsInv(s, step.i);
    } else if step.Emit? && !s.Done() {
      assert Distinct(s.pending + [Stamped(step.event, s.turn)]);
    }
  }

  lemma {:induction false} ReachableInv(steps: seq<Step>)
    requires ValidRun(steps)
    ensures Inv(Run(steps))
  {
    if steps != [] {
      hide Inv;
      ReachableInv(steps[..|steps| - 1]);
      StepKeepsInv(Run(steps[..|steps| - 1]), steps[|steps| - 1]);
    } else {
    }
  }

  lemma {:induction false} Pigeonhole(xs: seq<Stamped>, bound: nat)
    requires Distinct(xs) && forall x :: x in xs ==> x.turn < bound
    ensures |xs| <= bound
  {
    var turns := set x | x in xs :: x.turn;
    CardDistinct(xs);
    assert turns <= Below(bound);
    assert Below(bound) == turns + (Below(bound) - turns);
  }

  function Below(n: nat): (r: set<nat>)
    ensures |r| == n && forall t: nat :: t in r <==> t < n
  {
    if n == 0 then {} else Below(n - 1) + {n - 1}
  }

  lemma {:induction false} CardDistinct(xs: seq<Stamped>)
    requires Distinct(xs)
    ensures |(set x | x in xs :: x.turn)| == |xs|
  {
    if xs != [] {
      var n := |xs| - 1;
      CardDistinct(xs[..n]);
      assert xs == xs[..n] + [xs[n]];
      assert (set x | x in xs :: x.turn) == (set x | x in xs[..n] :: x.turn) + {xs[n].turn};
    }
  }

  /**
   In every interleaving the terminal events sent or pending number at most one plus the resets so far,
   no two of them belong to the same turn, and they are exactly as many as the winning emitters.
   */
  lemma TerminalEventBound(steps: seq<Step>)
    requires ValidRun(steps)
    ensures var s := Run(steps);
      && |s.sent| + |s.pending| <= 1 + Resets(steps)
      && |s.sent| + |s.pending| == |Winners(steps)|
      && Distinct(s.sent + s.pending)
  {
    var s := Run(steps);
    ReachableInv(steps);
    StatusExact(steps);
    EventsAreAsMany(steps);
    var all := s.sent + s.pending;
    hide Run, Winners, Resets, Distinct;
    DistinctConcat(s.sent, s.pending);
    Pigeonhole(all, s.turn + 1);
  }

  /** Finished is left only by a reset. */
  lemma {:induction false} FinishedUntilReset(steps: seq<Step>, n: nat)
    requires ValidRun(steps) && n <= |steps| && forall j :: n <= j < |steps| ==> !steps[j].Reset?
    requires ValidRun(steps[..n]) && Run(steps[..n]).Done()
    ensures Run(steps).Done()
  {
    if n < |steps| {
      var m := |steps| - 1;
      assert steps[..m][..n] == steps[..n];
      FinishedUntilReset(steps[..m], n);
    } else {
      assert steps[..n] == steps;
    }
  }

  // ---- Order of the broadcasts ----

  /** Every reset finds nothing pending. */
  ghost predicate ResetsWhenQuiet(steps: seq<Step>) {
    forall k: nat :: k < |steps| ==> QuietAt(steps, k)
  }

  ghost predicate QuietAt(steps: seq<Step>, k: nat)
    requires k < |steps|
  {
    steps[k].Reset? ==> ValidRun(steps[..k]) && Run(steps[..k]).pending == []
  }

  ghost predicate InTurnOrder(xs: seq<Stamped>) { forall i, j :: 0 <= i < j < |xs| ==> xs[i].turn < xs[j].turn }

  /** Every event is broadcast in the turn in which it was decided. */
  ghost predicate SentInTurn(steps: seq<Step>) {
    forall k: nat :: k < |steps| ==> InTurnAt(steps, k)
  }

  ghost predicate InTurnAt(steps: seq<Step>, k: nat)
    requires k < |steps|
  {
    steps[k].Send? ==> ValidRun(steps[..k]) && InTurn(Run(steps[..k]), steps[k])
  }

  ghost predicate InTurn(s: State, step: Step) {
    step.Send? && step.i < |s.pending| && s.pending[step.i].turn == s.turn
  }

  /** Nothing is left over from an earlier turn. */
  ghost predicate NothingLate(s: State) { forall x :: x in s.pending ==> x.turn == s.turn }

  lemma PrefixAt(steps: seq<Step>, n: nat, k: nat)
    requires k < n <= |steps|
    ensures InTurnAt(steps[..n], k) == InTurnAt(steps, k) && QuietAt(steps[..n], k) == QuietAt(steps, k)
  {
    assert steps[..n][..k] == steps[..k];
  }

  lemma LastSend(steps: seq<Step>)
    requires steps != []
    ensures SentInTurn(steps) <==> SentInTurn(steps[..|steps| - 1]) && InTurnAt(steps, |steps| - 1)
  {
    hide InTurnAt;
    var n := |steps| - 1;
    forall k: nat | k < n ensures InTurnAt(steps[..n], k) == InTurnAt(steps, k) {
      PrefixAt(steps, n, k);
    }
    if SentInTurn(steps[..n]) && InTurnAt(steps, n) {
      forall k: nat | k < |steps| ensures InTurnAt(steps, k) {
        assert k < n ==> InTurnAt(steps[..n], k);
      }
    }
  }

  lemma LastReset(steps: seq<Step>)
    requires steps != []
    ensures ResetsWhenQuiet(steps) <==> ResetsWhenQuiet(steps[..|steps| - 1]) && QuietAt(steps, |steps| - 1)
  {
    hide QuietAt;
    var n := |steps| - 1;
    forall k: nat | k < n ensures QuietAt(steps[..n], k) == QuietAt(steps, k) {
      PrefixAt(steps, n, k);
    }
    if ResetsWhenQuiet(steps[..n]) && QuietAt(steps, n) {
      forall k: nat | k < |steps| ensures QuietAt(steps, k) {
        assert k < n ==> QuietAt(steps[..n], k);
      }
    }
  }

  /** One step: what is left over, and what it has to do with the step. */
  lemma LateStep(s: State, step: Step)
    requires Inv(s) && Enabled(s, step)
    ensures NothingLate(Apply(s, step)) && (step.Send? ==> InTurn(s, step)) <==>
              NothingLate(s) && (step.Reset? ==> s.pending == [])
  {
    if step.Reset? {
      if s.pending != [] { assert s.pending[0] in s.pending; }
    } else if step.Send? {
      var rest := s.pending[..step.i] + s.pending[step.i + 1..];
      assert s.pending == s.pending[..step.i] + [s.pending[step.i]] + s.pending[step.i + 1..];
      assert forall x :: x in s.pending <==> x in rest || x == s.pending[step.i];
    }
  }

  /** No event comes out, or will come out, after its turn if and only if every reset finds nothing pending. */
  lemma {:induction false} LateEventsExactly(steps: seq<Step>)
    requires ValidRun(steps)
    ensures SentInTurn(steps) && NothingLate(Run(steps)) <==> ResetsWhenQuiet(steps)
  {
    if steps != [] {
      var n := |steps| - 1;
      LateEventsExactly(steps[..n]);
      LastSend(steps);
      LastReset(steps);
      ReachableInv(steps[..n]);
      LateStep(Run(steps[..n]), steps[n]);
      assert Run(steps) == Apply(Run(steps[..n]), steps[n]);
      hide Apply, Run, InTurn, NothingLate, SentInTurn, ResetsWhenQuiet;
    }
  }

  /** Then events appear in the order of their turns. */
  lemma {:induction false} QuietResetsKeepOrder(steps: seq<Step>)
    requires ValidRun(steps) && ResetsWhenQuiet(steps)
    ensures InTurnOrder(Run(steps).sent) && NothingLate(Run(steps))
  {
    LateEventsExactly(steps);
    if steps != [] {
      var n := |steps| - 1;
      var s, step := Run(steps[..n]), steps[n];
      LastReset(steps);
      LastSend(steps);
      QuietResetsKeepOrder(steps[..n]);
      ReachableInv(steps[..n]);
      assert Run(steps) == Apply(s, step);
      hide SentInTurn, ResetsWhenQuiet, Run;
      if step.Send? {
        assert s.pending[step.i] in s.pending;
        forall i | 0 <= i < |s.sent| ensures s.sent[i].turn < s.pending[step.i].turn {
          assert s.sent[i] in s.sent;
        }
      }
    }
  }

  /** Otherwise a later turn's event can overtake: the old event is broadcast inside the new turn. */
  lemma StaleEventOvertaken(stale: Event, fresher: Event)
    ensures var steps := [Emit(stale), Reset(Running), Emit(fresher), Send(1), Send(0)];
      ValidRun(steps) && Run(steps).sent == [Stamped(fresher, 1), Stamped(stale, 0)]
  {
    RunNext([], Emit(stale));
    var s1 := [Emit(stale)];
    assert [] + s1 == s1;
    RunNext(s1, Reset(Running));
    var s2 := s1 + [Reset(Running)];
    RunNext(s2, Emit(fresher));
    var s3 := s2 + [Emit(fresher)];
    assert Run(s3) == State(Some(Finished), 1, [Stamped(stale, 0), Stamped(fresher, 1)], []);
    RunNext(s3, Send(1));
    var s4 := s3 + [Send(1)];
    assert Run(s4) == State(Some(Finished), 1, [Stamped(stale, 0)], [Stamped(fresher, 1)]);
    RunNext(s4, Send(0));
    assert s4 + [Send(0)] == [Emit(stale), Reset(Running), Emit(fresher), Send(1), Send(0)];
  }

  // ---- The object, one call at a time ----

  function Events(xs: seq<Stamped>): seq<Event> {
    if xs == [] then [] else Events(xs[..|xs| - 1]) + [xs[|xs| - 1].event]
  }

  class Runtime {
    var status: Option<ConversationStatus>
    var lastActivity: int
    var log: seq<Event>
    ghost var steps: seq<Step>

    /** The steps taken so far lead to this object, with nothing left pending. */
    ghost predicate Valid()
      reads this
    {
      ValidRun(steps) && Run(steps).status == status && Run(steps).pending == [] && Events(Run(steps).sent) == log
    }

    constructor (now: int)
      ensures Valid() && status == None && lastActivity == now && log == [] && steps == []
    {
      status, lastActivity, log, steps := None, now, [], [];
    }

    /** What the pool and the idle scan see of the agent. */
    function Info(kind: AgentType): AgentInfo
      reads this
    {
      AgentInfo(kind, status, lastActivity)
    }

    method BumpActivity(now: int)
      modifies this`lastActivity
      ensures forall kind :: Info(kind) == old(Info(kind)).(lastActivity := now)
    {
      lastActivity := now;
    }

    method TransitionTo(to: ConversationStatus)
      requires Valid()
      modifies this`status, this`steps
      ensures Valid() && steps == old(steps) + [Transition(to)]
      ensures status == if old(status) == Some(Finished) then Some(Finished) else Some(to)
    {
      RunNext(steps, Transition(to));
      hide Run, ValidRun;
      steps := steps + [Transition(to)];
      if status == Some(Finished) {
        return;
      }
      status := Some(to);
    }

    method ResetForNewTurn(to: ConversationStatus)
      requires Valid()
      modifies this`status, this`steps
      ensures Valid() && steps == old(steps) + [Reset(to)] && status == Some(to)
    {
      RunNext(steps, Reset(to));
      hide Run, ValidRun;
      steps := steps + [Reset(to)];
      status := Some(to);
    }

    /** Serves `emit_finish` and `emit_error_data`, which differ in the event only. */
    method EmitTerminal(event: Event)
      requires Valid()
      modifies this`status, this`log, this`steps
      ensures Valid() && status == Some(Finished)
      ensures log == if old(status) == Some(Finished) then old(log) else old(log) + [event]
      ensures steps == old(steps) + if old(status) == Some(Finished) then [Emit(event)] else [Emit(event), Send(0)]
    {
      hide Run, ValidRun, Events;
      TerminalNext(steps, event);
      steps := steps + if status == Some(Finished) then [Emit(event)] else [Emit(event), Send(0)];
      var finished := status == Some(Finished);
      if !finished {
        status := Some(Finished);
      }
      if finished {
        return;
      }
      log := log + [event];
    }
  }

  /** An emitter that runs alone: a loser changes nothing, a winner finishes the turn and adds its event. */
  lemma TerminalNext(steps: seq<Step>, event: Event)
    requires ValidRun(steps) && Run(steps).pending == []
    ensures var s := Run(steps);
      var next := steps + if s.Done() then [Emit(event)] else [Emit(event), Send(0)];
      && ValidRun(next) && Run(next).status == Some(Finished) && Run(next).pending == []
      && Events(Run(next).sent) == Events(s.sent) + if s.Done() then [] else [event]
  {
    var s := Run(steps);
    RunNext(steps, Emit(event));
    if !s.Done() {
      var mid := Apply(s, Emit(event));
      RunNext(steps + [Emit(event)], Send(0));
      assert steps + [Emit(event)] + [Send(0)] == steps + [Emit(event), Send(0)];
      assert Apply(mid, Send(0)).sent == s.sent + [Stamped(event, s.turn)];
      assert (s.sent + [Stamped(event, s.turn)])[..|s.sent|] == s.sent;
    }
  }
}
