/**
 The lease registry purges an expired lease only when somebody looks it up. Its reference is a registry
 that never removes anything. Clock readings are parameters; lookup-and-purge is one step.
 */
module ActiveLease {
  import opened Basics
  import opened Admission

  const I64_MAX: int := 0x7fff_ffff_ffff_ffff
  const I64_MIN: int := -0x8000_0000_0000_0000
  type Timestamp = t: int | I64_MIN <= t <= I64_MAX witness 0

  function Clamp(n: int): Timestamp {
    if n < I64_MIN then I64_MIN else if n > I64_MAX then I64_MAX else n
  }

  function SaturatingAdd(a: Timestamp, b: Timestamp): Timestamp { Clamp(a + b) }

  /** Addition in 64 bits: the sum where it fits, the nearest bound otherwise. */
  lemma SaturatingIsClosest(a: Timestamp, b: Timestamp)
    ensures SaturatingAdd(a, b) ==
              if a + b > 9_223_372_036_854_775_807 then 9_223_372_036_854_775_807
              else if a + b < -9_223_372_036_854_775_808 then -9_223_372_036_854_775_808
              else a + b
  {}

  type Leases = map<ConvId, Timestamp>

  /** What a registry holding `leases` answers at time `now`. */
  function Answer(leases: Leases, id: ConvId, now: Timestamp): Option<Timestamp> {
    if id in leases && leases[id] > now then Some(leases[id]) else None
  }

  /** A lookup drops an expired lease. */
  function Purge(leases: Leases, id: ConvId, now: Timestamp): Leases {
    if Answer(leases, id, now).None? then leases - {id} else leases
  }

  function RenewAll(leases: Leases, ids: seq<ConvId>, expires: Timestamp): Leases {
    if ids == [] then leases else RenewAll(leases, ids[..|ids| - 1], expires)[ids[|ids| - 1] := expires]
  }

  /** `lazy` has forgotten only leases that had expired by time `clock`. */
  ghost predicate Forgets(lazy: Leases, full: Leases, clock: Timestamp) {
    && (forall id :: id in lazy ==> id in full && full[id] == lazy[id])
    && (forall id :: id in full && id !in lazy ==> full[id] <= clock)
  }

  // ---- Scans: which tasks an idle scan selects ----

  /** Initialised ACP task with status None or Finished, idle strictly beyond the threshold. */
  predicate IdleBeyond(view: View, agents: seq<AgentInfo>, threshold: Timestamp, now: Timestamp, id: ConvId) {
    && Idle(view, agents, id)
    && var info := agents[view[id].value.agent];
       info.kind.Acp? && Clamp(now - info.lastActivity) > threshold
  }

  /** One pass of `collect_idle` over the map; `readings` are the clock readings of the lease lookups. */
  datatype Pass = Pass(view: View, agents: seq<AgentInfo>, threshold: Timestamp, now: Timestamp,
                       order: seq<ConvId>, readings: seq<Timestamp>)
  {
    ghost predicate WellFormed() {
      |readings| == |order| && Enumerates(order, view)
    }
  }

  predicate Selected(p: Pass, j: nat)
    requires j < |p.order|
  {
    IdleBeyond(p.view, p.agents, p.threshold, p.now, p.order[j])
  }

  /** Ids collected from the first `n` entries by a registry that never purges. */
  function Collected(p: Pass, leases: Leases, n: nat): seq<ConvId>
    requires n <= |p.order| == |p.readings|
  {
    if n == 0 then []
    else
      Collected(p, leases, n - 1)
      + if Selected(p, n - 1) && Answer(leases, p.order[n - 1], p.readings[n - 1]).None? then [p.order[n - 1]] else []
  }

  /** The same pass by the purging registry: the ids and the leases left. */
  function LazyCollected(p: Pass, leases: Leases, n: nat): (seq<ConvId>, Leases)
    requires n <= |p.order| == |p.readings|
  {
    if n == 0 then ([], leases)
    else
      var (ids, left) := LazyCollected(p, leases, n - 1);
      var id, now := p.order[n - 1], p.readings[n - 1];
      if !Selected(p, n - 1) then (ids, left)
      else if Answer(left, id, now).None? then (ids + [id], Purge(left, id, now))
      else (ids, left)
  }

  // ---- Whole histories ----

  datatype Op =
    | Renew(id: ConvId, now: Timestamp)
    | RenewMany(ids: seq<ConvId>, now: Timestamp)
    | Lookup(id: ConvId, now: Timestamp)
    | Collect(pass: Pass)

  datatype Reply = Expires(at: Timestamp) | Renewed(count: nat, at: Timestamp) | Until(lease: Option<Timestamp>) | Ids(ids: seq<ConvId>)

  ghost predicate OpWellFormed(op: Op) { op.Collect? ==> op.pass.WellFormed() }

  function Reads(op: Op): seq<Timestamp> {
    match op
    case Renew(_, now) => [now]
    case RenewMany(_, now) => [now]
    case Lookup(_, now) => [now]
    case Collect(p) => [p.now] + p.readings
  }

  function AllReads(ops: seq<Op>): seq<Timestamp> {
    if ops == [] then [] else AllReads(ops[..|ops| - 1]) + Reads(ops[|ops| - 1])
  }

  ghost predicate Nondecreasing(ts: seq<Timestamp>) { forall i, j :: 0 <= i < j < |ts| ==> ts[i] <= ts[j] }

  ghost function FullStep(ttl: Timestamp, full: Leases, op: Op): (Reply, Leases)
    requires OpWellFormed(op)
  {
    match op
    case Renew(id, now) => (Expires(SaturatingAdd(now, ttl)), full[id := SaturatingAdd(now, ttl)])
    case RenewMany(ids, now) =>
      (Renewed(|ids|, SaturatingAdd(now, ttl)), RenewAll(full, ids, SaturatingAdd(now, ttl)))
    case Lookup(id, now) => (Until(Answer(full, id, now)), full)
    case Collect(p) => (Ids(Collected(p, full, |p.order|)), full)
  }

  ghost function LazyStep(ttl: Timestamp, lazy: Leases, op: Op): (Reply, Leases)
    requires OpWellFormed(op)
  {
    match op
    case Renew(id, now) => (Expires(SaturatingAdd(now, ttl)), lazy[id := SaturatingAdd(now, ttl)])
    case RenewMany(ids, now) =>
      (Renewed(|ids|, SaturatingAdd(now, ttl)), RenewAll(lazy, ids, SaturatingAdd(now, ttl)))
    case Lookup(id, now) => (Until(Answer(lazy, id, now)), Purge(lazy, id, now))
    case Collect(p) =>
      var (ids, left) := LazyCollected(p, lazy, |p.order|);
      (Ids(ids), left)
  }

  ghost predicate OpsWellFormed(ops: seq<Op>) { forall i :: 0 <= i < |ops| ==> OpWellFormed(ops[i]) }

  ghost function FullRun(ttl: Timestamp, ops: seq<Op>): (seq<Reply>, Leases)
    requires OpsWellFormed(ops)
  {
    if ops == [] then ([], map[])
    else
      var (replies, full) := FullRun(ttl, ops[..|ops| - 1]);
      var (reply, next) := FullStep(ttl, full, ops[|ops| - 1]);
      (replies + [reply], next)
  }

  ghost function LazyRun(ttl: Timestamp, ops: seq<Op>): (seq<Reply>, Leases)
    requires OpsWellFormed(ops)
  {
    if ops == [] then ([], map[])
    else
      var (replies, lazy) := LazyRun(ttl, ops[..|ops| - 1]);
      var (reply, next) := LazyStep(ttl, lazy, ops[|ops| - 1]);
      (replies + [reply], next)
  }

  /** A renewal protects from its moment on for the time to live, and not a millisecond longer. */
  lemma LeaseLastsExactly(ttl: Timestamp, full: Leases, id: ConvId, now: Timestamp, t: Timestamp)
    requires -9_223_372_036_854_775_808 <= now + ttl <= 9_223_372_036_854_775_807
    ensures var next := FullStep(ttl, full, Renew(id, now)).1;
      && Answer(next, id, t) == (if t < now + ttl then Some(now + ttl) else None)
      && forall other :: other != id ==> Answer(next, other, t) == Answer(full, other, t)
  {}

  lemma {:induction false} RenewAllExact(leases: Leases, ids: seq<ConvId>, expires: Timestamp)
    ensures var r := RenewAll(leases, ids, expires);
      && (forall id :: id in r <==> id in leases || id in ids)
      && (forall id :: id in r ==> r[id] == if id in ids then expires else leases[id])
  {
    if ids != [] {
      RenewAllExact(leases, ids[..|ids| - 1], expires);
      assert ids == ids[..|ids| - 1] + [ids[|ids| - 1]];
    }
  }

  lemma ForgetsLater(lazy: Leases, full: Leases, clock: Timestamp, now: Timestamp)
    requires Forgets(lazy, full, clock) && clock <= now
    ensures Forgets(lazy, full, now)
  {}

  /** The heart of it: at any time from `clock` on, the purging registry answers like the full one. */
  lemma LookupAgrees(lazy: Leases, full: Leases, clock: Timestamp, id: ConvId, now: Timestamp)
    requires Forgets(lazy, full, clock) && clock <= now
    ensures Answer(lazy, id, now) == Answer(full, id, now)
    ensures Forgets(Purge(lazy, id, now), full, now)
  {}

  lemma {:induction false} CollectAgrees(p: Pass, lazy: Leases, full: Leases, clock: Timestamp, n: nat)
    requires Forgets(lazy, full, clock) && n <= |p.order| == |p.readings|
    requires Nondecreasing(p.readings[..n]) && forall i :: 0 <= i < n ==> clock <= p.readings[i]
    ensures LazyCollected(p, lazy, n).0 == Collected(p, full, n)
    ensures Forgets(LazyCollected(p, lazy, n).1, full, if n == 0 then clock else p.readings[n - 1])
  {
    if n > 0 {
      assert p.readings[..n - 1] == p.readings[..n][..n - 1];
      CollectAgrees(p, lazy, full, clock, n - 1);
      var left := LazyCollected(p, lazy, n - 1).1;
      var before := if n == 1 then clock else p.readings[n - 2];
      assert n > 1 ==> p.readings[..n][n - 2] <= p.readings[..n][n - 1];
      LookupAgrees(left, full, before, p.order[n - 1], p.readings[n - 1]);
    }
  }

  /** The clock after a history: the last reading, or the earliest time when there was none. */
  function ClockOf(readings: seq<Timestamp>): Timestamp {
    if readings == [] then I64_MIN else readings[|readings| - 1]
  }

  lemma StepAgrees(ttl: Timestamp, lazy: Leases, full: Leases, clock: Timestamp, op: Op)
    requires OpWellFormed(op) && Forgets(lazy, full, clock)
    requires Nondecreasing(Reads(op)) && forall i :: 0 <= i < |Reads(op)| ==> clock <= Reads(op)[i]
    ensures LazyStep(ttl, lazy, op).0 == FullStep(ttl, full, op).0
    ensures Forgets(LazyStep(ttl, lazy, op).1, FullStep(ttl, full, op).1, ClockOf(Reads(op)))
  {
    assert clock <= Reads(op)[0];
    match op
    case Renew(id, now) =>
    case RenewMany(ids, now) =>
      RenewAllExact(lazy, ids, SaturatingAdd(now, ttl));
      RenewAllExact(full, ids, SaturatingAdd(now, ttl));
    case Lookup(id, now) => LookupAgrees(lazy, full, clock, id, now);
    case Collect(p) =>
      var readings := Reads(op);
      assert p.readings[..|p.order|] == p.readings;
      forall i, j | 0 <= i < j < |p.readings| ensures p.readings[i] <= p.readings[j] {
        assert readings[i + 1] == p.readings[i] && readings[j + 1] == p.readings[j];
      }
      forall i | 0 <= i < |p.readings| ensures clock <= p.readings[i] {
        assert readings[i + 1] == p.readings[i];
      }
      CollectAgrees(p, lazy, full, clock, |p.order|);
      if p.readings == [] {
        assert readings == [p.now];
        ForgetsLater(LazyCollected(p, lazy, 0).1, full, clock, p.now);
      } else {
        assert readings[|readings| - 1] == p.readings[|p.readings| - 1];
      }
  }

  /**
   For every nondecreasing clock and every sequence of renewals, lookups and scans, the lazily purging
   registry gives exactly the answers of one that never removes anything.
   */
  lemma {:induction false} PurgingIsInvisible(ttl: Timestamp, ops: seq<Op>)
    requires OpsWellFormed(ops) && Nondecreasing(AllReads(ops))
    ensures LazyRun(ttl, ops).0 == FullRun(ttl, ops).0
    ensures Forgets(LazyRun(ttl, ops).1, FullRun(ttl, ops).1, ClockOf(AllReads(ops)))
  {
    if ops != [] {
      var n := |ops| - 1;
      var before, readings := AllReads(ops[..n]), Reads(ops[n]);
      SplitReads(before, readings);
      PurgingIsInvisible(ttl, ops[..n]);
      StepAgrees(ttl, LazyRun(ttl, ops[..n]).1, FullRun(ttl, ops[..n]).1, ClockOf(before), ops[n]);
    }
  }

  lemma SplitReads(before: seq<Timestamp>, readings: seq<Timestamp>)
    requires Nondecreasing(before + readings)
    ensures Nondecreasing(before) && Nondecreasing(readings)
    ensures forall i :: 0 <= i < |readings| ==> ClockOf(before) <= readings[i]
    ensures readings != [] ==> ClockOf(before + readings) == ClockOf(readings)
  {
    var all := before + readings;
    forall i, j | 0 <= i < j < |before| ensures before[i] <= before[j] {
      assert all[i] == before[i] && all[j] == before[j];
    }
    forall i, j | 0 <= i < j < |readings| ensures readings[i] <= readings[j] {
      assert all[|before| + i] == readings[i] && all[|before| + j] == readings[j];
    }
    forall i | 0 <= i < |readings| ensures ClockOf(before) <= readings[i] {
      if before != [] {
        assert all[|before| - 1] == before[|before| - 1] && all[|before| + i] == readings[i];
      }
    }
  }

  // ---- Any clock: exactly when the purge can be seen ----

  /** `op` looks at the lease of `id` at time `t`. */
  ghost predicate LooksUp(op: Op, id: ConvId, t: Timestamp)
    requires OpWellFormed(op)
  {
    match op
    case Lookup(x, now) => x == id && now == t
    case Collect(p) => exists j :: 0 <= j < |p.order| && Selected(p, j) && p.order[j] == id && p.readings[j] == t
    case _ => false
  }

  /** `op` finds the lease of `id` expired. */
  ghost predicate FindsExpired(full: Leases, op: Op, id: ConvId)
    requires OpWellFormed(op)
  {
    id in full && exists t: Timestamp :: LooksUp(op, id, t) && full[id] <= t
  }

  /** Since the last renewal of `id` somebody found its lease expired. */
  ghost predicate Lapsed(ttl: Timestamp, ops: seq<Op>, id: ConvId)
    requires OpsWellFormed(ops)
    decreases |ops|
  {
    ops != [] &&
    var n := |ops| - 1;
    id !in RenewedBy(ops[n]) && (Lapsed(ttl, ops[..n], id) || FindsExpired(FullRun(ttl, ops[..n]).1, ops[n], id))
  }

  /** Operation `k` looks at a lapsed lease at a time before its expiry: the clock has gone back. */
  ghost predicate ReadsBack(ttl: Timestamp, ops: seq<Op>, k: nat)
    requires OpsWellFormed(ops) && k < |ops|
  {
    var full := FullRun(ttl, ops[..k]).1;
    exists id: ConvId, t: Timestamp ::
      LooksUp(ops[k], id, t) && id in full && full[id] > t && Lapsed(ttl, ops[..k], id)
  }

  /** `lazy` holds some of the leases of `full`. */
  ghost predicate PartOf(lazy: Leases, full: Leases) {
    forall id :: id in lazy ==> id in full && full[id] == lazy[id]
  }

  /** Two registries can be told apart by `op`. */
  ghost predicate Differs(lazy: Leases, full: Leases, op: Op)
    requires OpWellFormed(op)
  {
    exists id: ConvId, t: Timestamp :: LooksUp(op, id, t) && id in full && full[id] > t && id !in lazy
  }

  predicate DiffersAt(p: Pass, lazy: Leases, full: Leases, j: nat)
    requires j < |p.order| == |p.readings|
  {
    Selected(p, j) && p.order[j] in full && full[p.order[j]] > p.readings[j] && p.order[j] !in lazy
  }

  predicate PurgedAt(p: Pass, lazy: Leases, j: nat)
    requires j < |p.order| == |p.readings|
  {
    Selected(p, j) && p.order[j] in lazy && lazy[p.order[j]] <= p.readings[j]
  }

  lemma PassNext(p: Pass, lazy: Leases, n: nat)
    requires n < |p.order| == |p.readings|
    ensures var before := LazyCollected(p, lazy, n).1;
      LazyCollected(p, lazy, n + 1).1 == if PurgedAt(p, before, n) then before - {p.order[n]} else before
  {
    var before := LazyCollected(p, lazy, n).1;
    hide IdleBeyond;
    if p.order[n] !in before { assert before - {p.order[n]} == before; }
  }

  lemma {:induction false} PassPurges(p: Pass, lazy: Leases, n: nat)
    requires p.WellFormed() && n <= |p.order|
    ensures PartOf(LazyCollected(p, lazy, n).1, lazy)
    ensures var left := LazyCollected(p, lazy, n).1;
      && (forall j: nat :: j < n ==> (p.order[j] in left <==> p.order[j] in lazy && !PurgedAt(p, lazy, j)))
      && (forall id :: id in lazy && id !in p.order[..n] ==> id in left)
  {
    PassKeepsPart(p, lazy, n);
    hide PartOf;
    if n > 0 {
      var id := p.order[n - 1];
      PassPurges(p, lazy, n - 1);
      SameAtOrder(p, lazy, n - 1);
      PassNext(p, lazy, n - 1);
      FreshAt(p, n - 1);
      var before := LazyCollected(p, lazy, n - 1).1;
      hide LazyCollected, Enumerates, NoDup, Selected, Pass.WellFormed;
      assert p.order[..n] == p.order[..n - 1] + [id];
      assert id in before <==> id in lazy;
      hide PurgedAt;
    }
  }

  lemma {:induction false} PassKeepsPart(p: Pass, lazy: Leases, n: nat)
    requires n <= |p.order| == |p.readings|
    ensures PartOf(LazyCollected(p, lazy, n).1, lazy)
  {
    if n > 0 {
      PassKeepsPart(p, lazy, n - 1);
      PassNext(p, lazy, n - 1);
      hide LazyCollected, PurgedAt;
    }
  }

  lemma SameAtOrder(p: Pass, lazy: Leases, n: nat)
    requires n < |p.order| == |p.readings|
    ensures var before := LazyCollected(p, lazy, n).1;
      (p.order[n] in before <==> p.order[n] in lazy) ==> PurgedAt(p, before, n) == PurgedAt(p, lazy, n)
  {
    PassKeepsPart(p, lazy, n);
    hide LazyCollected, Selected;
  }

  lemma FreshAt(p: Pass, n: nat)
    requires p.WellFormed() && n < |p.order|
    ensures p.order[n] !in p.order[..n] && forall j: nat :: j < n ==> p.order[j] != p.order[n]
  {}

  lemma {:induction false} PassReplies(p: Pass, lazy: Leases, full: Leases, n: nat)
    requires p.WellFormed() && n <= |p.order| && PartOf(lazy, full)
    ensures |LazyCollected(p, lazy, n).0| >= |Collected(p, full, n)|
    ensures LazyCollected(p, lazy, n).0 == Collected(p, full, n) <==> forall j: nat :: j < n ==> !DiffersAt(p, lazy, full, j)
  {
    if n > 0 {
      PassReplies(p, lazy, full, n - 1);
      PassPurges(p, lazy, n - 1);
      var id, now := p.order[n - 1], p.readings[n - 1];
      assert id !in p.order[..n - 1];
      var (ids, left) := LazyCollected(p, lazy, n - 1);
      assert Answer(left, id, now) == Answer(lazy, id, now);
      var x := if Selected(p, n - 1) && Answer(lazy, id, now).None? then [id] else [];
      var y := if Selected(p, n - 1) && Answer(full, id, now).None? then [id] else [];
      assert LazyCollected(p, lazy, n).0 == ids + x && Collected(p, full, n) == Collected(p, full, n - 1) + y;
      assert |x| >= |y| && (x == y <==> !DiffersAt(p, lazy, full, n - 1));
      hide LazyCollected, Collected, DiffersAt, Selected, Answer;
      SameTail(ids, Collected(p, full, n - 1), x, y);
    }
  }

  lemma SameTail(a: seq<ConvId>, b: seq<ConvId>, x: seq<ConvId>, y: seq<ConvId>)
    requires |a| >= |b| && |x| >= |y|
    ensures a + x == b + y <==> a == b && x == y
  {
    if a + x == b + y {
      assert |a + x| == |b + y|;
      assert (a + x)[..|a|] == a && (b + y)[..|b|] == b;
      assert (a + x)[|a|..] == x && (b + y)[|b|..] == y;
    }
  }

  /** One operation: the replies differ exactly when it looks at a dropped lease that is still to expire. */
  lemma ReplyExact(ttl: Timestamp, lazy: Leases, full: Leases, op: Op)
    requires OpWellFormed(op) && PartOf(lazy, full)
    ensures LazyStep(ttl, lazy, op).0 == FullStep(ttl, full, op).0 <==> !Differs(lazy, full, op)
  {
    if op.Collect? {
      var p := op.pass;
      PassReplies(p, lazy, full, |p.order|);
      hide LazyCollected, Collected, Selected;
      if Differs(lazy, full, op) {
        var id: ConvId, t: Timestamp :| LooksUp(op, id, t) && id in full && full[id] > t && id !in lazy;
        var j :| 0 <= j < |p.order| && Selected(p, j) && p.order[j] == id && p.readings[j] == t;
        assert DiffersAt(p, lazy, full, j);
      }
      forall j: nat | j < |p.order| && DiffersAt(p, lazy, full, j) ensures Differs(lazy, full, op) {
        assert LooksUp(op, p.order[j], p.readings[j]);
      }
    } else if op.Lookup? {
      assert LooksUp(op, op.id, op.now);
    }
  }

  /** One operation: what is missing afterwards was missing before, or has just been found expired. */
  lemma MissingExact(ttl: Timestamp, lazy: Leases, full: Leases, op: Op, id: ConvId)
    requires OpWellFormed(op) && PartOf(lazy, full)
    ensures PartOf(LazyStep(ttl, lazy, op).1, FullStep(ttl, full, op).1)
    ensures id in FullStep(ttl, full, op).1 && id !in LazyStep(ttl, lazy, op).1 <==>
              id !in RenewedBy(op) && ((id in full && id !in lazy) || FindsExpired(full, op, id))
  {
    match op
    case Renew(_, _) =>
    case RenewMany(ids, now) =>
      RenewAllExact(lazy, ids, SaturatingAdd(now, ttl));
      RenewAllExact(full, ids, SaturatingAdd(now, ttl));
    case Lookup(x, now) => assert LooksUp(op, x, now);
    case Collect(p) =>
      PassPurges(p, lazy, |p.order|);
      assert p.order[..|p.order|] == p.order;
      if id in lazy { PassMisses(p, lazy, full, op, id); }
      hide LazyCollected, Collected, Selected;
  }

  lemma PassMisses(p: Pass, lazy: Leases, full: Leases, op: Op, id: ConvId)
    requires p.WellFormed() && op == Collect(p) && PartOf(lazy, full) && id in lazy
    ensures FindsExpired(full, op, id) <==> exists j: nat :: j < |p.order| && p.order[j] == id && PurgedAt(p, lazy, j)
  {
    if FindsExpired(full, op, id) {
      var t: Timestamp :| LooksUp(op, id, t) && full[id] <= t;
      var j :| 0 <= j < |p.order| && Selected(p, j) && p.order[j] == id && p.readings[j] == t;
      assert PurgedAt(p, lazy, j);
    }
    forall j: nat | j < |p.order| && p.order[j] == id && PurgedAt(p, lazy, j) ensures FindsExpired(full, op, id) {
      assert LooksUp(op, id, p.readings[j]);
    }
  }

  /** What the purging registry has dropped, told from the history of the full one. */
  lemma {:induction false} DroppedIsLapsed(ttl: Timestamp, ops: seq<Op>, id: ConvId)
    requires OpsWellFormed(ops)
    ensures PartOf(LazyRun(ttl, ops).1, FullRun(ttl, ops).1)
    ensures id in FullRun(ttl, ops).1 && id !in LazyRun(ttl, ops).1 <==> Lapsed(ttl, ops, id)
  {
    if ops != [] {
      var n := |ops| - 1;
      DroppedIsLapsed(ttl, ops[..n], id);
      MissingExact(ttl, LazyRun(ttl, ops[..n]).1, FullRun(ttl, ops[..n]).1, ops[n], id);
      hide LazyStep, FullStep, FindsExpired, RenewedBy;
    }
  }

  lemma ReadsBackExact(ttl: Timestamp, ops: seq<Op>, k: nat)
    requires OpsWellFormed(ops) && k < |ops|
    ensures ReadsBack(ttl, ops, k) <==> Differs(LazyRun(ttl, ops[..k]).1, FullRun(ttl, ops[..k]).1, ops[k])
  {
    hide LazyRun, FullRun, LooksUp, Lapsed;
    forall id: ConvId
      ensures id in FullRun(ttl, ops[..k]).1 && id !in LazyRun(ttl, ops[..k]).1 <==> Lapsed(ttl, ops[..k], id)
    {
      DroppedIsLapsed(ttl, ops[..k], id);
    }
    if ReadsBack(ttl, ops, k) {
      var id: ConvId, t: Timestamp :| LooksUp(ops[k], id, t) && id in FullRun(ttl, ops[..k]).1
        && FullRun(ttl, ops[..k]).1[id] > t && Lapsed(ttl, ops[..k], id);
      assert id !in LazyRun(ttl, ops[..k]).1;
    }
  }

  lemma ReadsBackPrefix(ttl: Timestamp, ops: seq<Op>, n: nat, k: nat)
    requires OpsWellFormed(ops) && k < n <= |ops|
    ensures ReadsBack(ttl, ops[..n], k) == ReadsBack(ttl, ops, k)
  {
    assert ops[..n][..k] == ops[..k];
  }

  /**
   With any clock whatever, the purging registry gives the answers of the full one if and only if no
   operation looks at a lease before its expiry although an earlier look, since the last renewal, came after.
   */
  lemma {:induction false} PurgingVisibleExactly(ttl: Timestamp, ops: seq<Op>)
    requires OpsWellFormed(ops)
    ensures |LazyRun(ttl, ops).0| == |FullRun(ttl, ops).0|
    ensures LazyRun(ttl, ops).0 == FullRun(ttl, ops).0 <==> forall k: nat :: k < |ops| ==> !ReadsBack(ttl, ops, k)
  {
    if ops != [] {
      var n := |ops| - 1;
      var (lazyReplies, lazy) := LazyRun(ttl, ops[..n]);
      var (fullReplies, full) := FullRun(ttl, ops[..n]);
      var x, y := LazyStep(ttl, lazy, ops[n]).0, FullStep(ttl, full, ops[n]).0;
      assert LazyRun(ttl, ops).0 == lazyReplies + [x] && FullRun(ttl, ops).0 == fullReplies + [y];
      PurgingVisibleExactly(ttl, ops[..n]);
      DroppedIsLapsed(ttl, ops[..n], "");
      ReplyExact(ttl, lazy, full, ops[n]);
      ReadsBackExact(ttl, ops, n);
      hide LazyRun, FullRun, LazyStep, FullStep, ReadsBack, Differs;
      forall k: nat | k < n ensures ReadsBack(ttl, ops[..n], k) == ReadsBack(ttl, ops, k) {
        ReadsBackPrefix(ttl, ops, n, k);
      }
      if forall k: nat :: k < n ==> !ReadsBack(ttl, ops[..n], k) {
        assert forall k: nat :: k < n ==> !ReadsBack(ttl, ops, k);
      }
      SameReplies(lazyReplies, fullReplies, x, y);
    }
  }

  lemma SameReplies(a: seq<Reply>, b: seq<Reply>, x: Reply, y: Reply)
    requires |a| == |b|
    ensures a + [x] == b + [y] <==> a == b && x == y
  {
    if a + [x] == b + [y] {
      assert (a + [x])[..|a|] == a && (b + [y])[..|b|] == b;
      assert (a + [x])[|a|] == x && (b + [y])[|b|] == y;
    }
  }

  /** With a clock that goes back, the two differ: the promise needs the monotone clock. */
  lemma ClockMustNotGoBack()
    ensures var ops := [Renew("a", 0), Lookup("a", 20), Lookup("a", 5)];
      OpsWellFormed(ops) && LazyRun(10, ops).0 != FullRun(10, ops).0
  {
    var ops := [Renew("a", 0), Lookup("a", 20), Lookup("a", 5)];
    var one, two := [Renew("a", 0)], [Renew("a", 0), Lookup("a", 20)];
    assert ops[..2] == two && two[..1] == one && one[..0] == [];
    var held: Leases := map["a" := 10];
    assert FullStep(10, map[], Renew("a", 0)).1 == held == LazyStep(10, map[], Renew("a", 0)).1;
    assert FullRun(10, one).1 == held && LazyRun(10, one).1 == held;
    assert held - {"a"} == map[];
    assert LazyStep(10, held, Lookup("a", 20)).1 == map[] && FullStep(10, held, Lookup("a", 20)).1 == held;
    assert LazyRun(10, two).1 == map[] && FullRun(10, two).1 == held;
    assert LazyRun(10, ops).0[2] == Until(None) && FullRun(10, ops).0[2] == Until(Some(10));
  }

  // ---- Expiries only move forward; a lease protects until it expires ----

  ghost predicate Bounded(ttl: Timestamp, full: Leases, clock: Timestamp) {
    forall id :: id in full ==> full[id] <= SaturatingAdd(clock, ttl)
  }

  lemma StepBounded(ttl: Timestamp, full: Leases, clock: Timestamp, op: Op)
    requires OpWellFormed(op) && Bounded(ttl, full, clock) && clock <= Reads(op)[|Reads(op)| - 1]
    ensures Bounded(ttl, FullStep(ttl, full, op).1, ClockOf(Reads(op)))
  {
    var last := Reads(op)[|Reads(op)| - 1];
    assert ClockOf(Reads(op)) == last && SaturatingAdd(clock, ttl) <= SaturatingAdd(last, ttl);
    assert op.Renew? || op.RenewMany? ==> last == op.now;
    hide Clamp;
    if op.RenewMany? {
      RenewAllExact(full, op.ids, SaturatingAdd(op.now, ttl));
    }
    var next := FullStep(ttl, full, op).1;
    forall id | id in next ensures next[id] <= SaturatingAdd(last, ttl) {
      assert next[id] == SaturatingAdd(last, ttl) || (id in full && next[id] == full[id]);
    }
  }

  lemma {:induction false} ExpiriesBounded(ttl: Timestamp, ops: seq<Op>)
    requires OpsWellFormed(ops) && Nondecreasing(AllReads(ops))
    ensures Bounded(ttl, FullRun(ttl, ops).1, ClockOf(AllReads(ops)))
  {
    if ops != [] {
      var n := |ops| - 1;
      var before, readings := AllReads(ops[..n]), Reads(ops[n]);
      assert AllReads(ops) == before + readings && readings != [];
      hide FullStep, Bounded, Reads, AllReads, Clamp;
      SplitReads(before, readings);
      ExpiriesBounded(ttl, ops[..n]);
      assert ClockOf(before) <= readings[|readings| - 1];
      StepBounded(ttl, FullRun(ttl, ops[..n]).1, ClockOf(before), ops[n]);
    }
  }

  lemma StepNeverRecedes(ttl: Timestamp, full: Leases, clock: Timestamp, op: Op, id: ConvId)
    requires OpWellFormed(op) && Bounded(ttl, full, clock) && clock <= Reads(op)[0] && id in full
    ensures id in FullStep(ttl, full, op).1 && full[id] <= FullStep(ttl, full, op).1[id]
  {
    if op.RenewMany? {
      RenewAllExact(full, op.ids, SaturatingAdd(op.now, ttl));
    }
  }

  /** Across any further operations no expiry moves backwards, also under saturation. */
  lemma {:induction false} ExpiriesNeverRecede(ttl: Timestamp, ops: seq<Op>, n: nat, id: ConvId)
    requires OpsWellFormed(ops) && Nondecreasing(AllReads(ops)) && n <= |ops|
    requires id in FullRun(ttl, ops[..n]).1
    ensures id in FullRun(ttl, ops).1 && FullRun(ttl, ops[..n]).1[id] <= FullRun(ttl, ops).1[id]
  {
    hide FullStep, Bounded, Reads, AllReads, Clamp, FullRun, Nondecreasing;
    if n == |ops| {
      assert ops[..n] == ops;
    } else {
      var m := |ops| - 1;
      assert ops[..m][..n] == ops[..n];
      LastOp(ttl, ops);
      ExpiriesNeverRecede(ttl, ops[..m], n, id);
      ExpiriesBounded(ttl, ops[..m]);
      StepNeverRecedes(ttl, FullRun(ttl, ops[..m]).1, ClockOf(AllReads(ops[..m])), ops[m], id);
    }
  }

  /** Taking a history apart at its last operation. */
  lemma LastOp(ttl: Timestamp, ops: seq<Op>)
    requires OpsWellFormed(ops) && Nondecreasing(AllReads(ops)) && ops != []
    ensures var m := |ops| - 1;
      && Nondecreasing(AllReads(ops[..m])) && |Reads(ops[m])| > 0
      && ClockOf(AllReads(ops[..m])) <= Reads(ops[m])[0]
      && FullRun(ttl, ops).1 == FullStep(ttl, FullRun(ttl, ops[..m]).1, ops[m]).1
  {
    var m := |ops| - 1;
    SplitReads(AllReads(ops[..m]), Reads(ops[m]));
    hide Nondecreasing, FullStep;
  }

  /** Exactly what one pass of `collect_idle` returns. */
  lemma {:induction false} CollectedExact(p: Pass, leases: Leases, n: nat)
    requires p.WellFormed() && n <= |p.order|
    ensures forall j :: 0 <= j < n ==>
              (p.order[j] in Collected(p, leases, n) <==>
               Selected(p, j) && Answer(leases, p.order[j], p.readings[j]).None?)
    ensures forall id :: id in Collected(p, leases, n) ==> id in p.order[..n]
  {
    if n > 0 {
      CollectedExact(p, leases, n - 1);
      FreshAt(p, n - 1);
      var prev, id := Collected(p, leases, n - 1), p.order[n - 1];
      assert Collected(p, leases, n)
          == prev + if Selected(p, n - 1) && Answer(leases, id, p.readings[n - 1]).None? then [id] else [];
      hide Collected, Selected, Answer, Enumerates, NoDup;
      assert p.order[..n] == p.order[..n - 1] + [id];
      assert id !in prev;
    }
  }

  function RenewedBy(op: Op): set<ConvId> {
    match op
    case Renew(id, _) => {id}
    case RenewMany(ids, _) => set id | id in ids
    case _ => {}
  }

  ghost predicate AllBefore(readings: seq<Timestamp>, t: Timestamp) {
    forall j :: 0 <= j < |readings| ==> readings[j] < t
  }

  /** A live lease keeps its conversation out of one pass. */
  lemma LiveLeaseSkipped(p: Pass, full: Leases, id: ConvId)
    requires p.WellFormed() && id in full && AllBefore(p.readings, full[id])
    ensures id !in Collected(p, full, |p.order|)
  {
    CollectedExact(p, full, |p.order|);
    assert p.order[..|p.order|] == p.order;
  }

  /**
   Over whole histories: a lease renewed at time `t` keeps its conversation out of every later scan whose
   clock readings lie before `t` plus the time to live.
   */
  lemma LeaseProtects(ttl: Timestamp, before: seq<Op>, i: nat, id: ConvId, p: Pass)
    requires OpsWellFormed(before) && p.WellFormed() && i < |before| && id in RenewedBy(before[i])
    requires Nondecreasing(AllReads(before + [Collect(p)]))
    requires AllBefore(p.readings, SaturatingAdd(before[i].now, ttl))
    ensures OpsWellFormed(before + [Collect(p)])
    ensures var reply := LazyStep(ttl, LazyRun(ttl, before).1, Collect(p)).0;
      reply.Ids? && id !in reply.ids
  {
    var ops := before + [Collect(p)];
    assert ops[..|before|] == before;
    assert AllReads(ops) == AllReads(before) + Reads(Collect(p));
    hide *;
    SplitReads(AllReads(before), Reads(Collect(p)));
    LeaseLives(ttl, before, i, id);
    PurgingIsInvisible(ttl, before);
    ScanSkips(ttl, LazyRun(ttl, before).1, FullRun(ttl, before).1, ClockOf(AllReads(before)), p, id,
              SaturatingAdd(before[i].now, ttl));
  }

  /** The renewed lease is still there, no shorter, whatever followed. */
  lemma LeaseLives(ttl: Timestamp, ops: seq<Op>, i: nat, id: ConvId)
    requires OpsWellFormed(ops) && Nondecreasing(AllReads(ops)) && i < |ops| && id in RenewedBy(ops[i])
    ensures id in FullRun(ttl, ops).1 && SaturatingAdd(ops[i].now, ttl) <= FullRun(ttl, ops).1[id]
  {
    hide FullRun, AllReads, RenewedBy, Clamp, Nondecreasing;
    RenewalTakesEffect(ttl, ops, i, id);
    ExpiriesNeverRecede(ttl, ops, i + 1, id);
  }

  lemma ScanSkips(ttl: Timestamp, lazy: Leases, full: Leases, clock: Timestamp, p: Pass, id: ConvId, until: Timestamp)
    requires p.WellFormed() && Forgets(lazy, full, clock) && id in full && until <= full[id] && AllBefore(p.readings, until)
    requires Nondecreasing(Reads(Collect(p)))
    requires forall i :: 0 <= i < |Reads(Collect(p))| ==> clock <= Reads(Collect(p))[i]
    ensures var reply := LazyStep(ttl, lazy, Collect(p)).0; reply.Ids? && id !in reply.ids
  {
    assert FullStep(ttl, full, Collect(p)).0 == Ids(Collected(p, full, |p.order|));
    assert AllBefore(p.readings, full[id]);
    hide Forgets, Nondecreasing, LazyStep, FullStep, Collected, Reads;
    StepAgrees(ttl, lazy, full, clock, Collect(p));
    LiveLeaseSkipped(p, full, id);
  }

  lemma RenewalTakesEffect(ttl: Timestamp, ops: seq<Op>, i: nat, id: ConvId)
    requires OpsWellFormed(ops) && i < |ops| && id in RenewedBy(ops[i])
    ensures id in FullRun(ttl, ops[..i + 1]).1 && FullRun(ttl, ops[..i + 1]).1[id] == SaturatingAdd(ops[i].now, ttl)
  {
    assert ops[..i + 1][..i] == ops[..i];
    if ops[i].RenewMany? {
      RenewAllExact(FullRun(ttl, ops[..i]).1, ops[i].ids, SaturatingAdd(ops[i].now, ttl));
    }
  }

  // ---- The registry object ----

  class ActiveLeaseRegistry {
    var leases: Leases
    const ttl: Timestamp
    ghost var full: Leases
    ghost var clock: Timestamp

    ghost predicate Valid()
      reads this
    {
      Forgets(leases, full, clock)
    }

    constructor (ttl: Timestamp)
      ensures Valid() && this.ttl == ttl && leases == map[] && full == map[] && clock == I64_MIN
    {
      this.ttl := ttl;
      leases, full, clock := map[], map[], I64_MIN;
    }

    method Renew(id: ConvId, now: Timestamp) returns (expires: Timestamp)
      requires Valid() && clock <= now
      modifies this
      ensures Valid() && clock == now
      ensures expires == SaturatingAdd(now, ttl)
      ensures leases == old(leases)[id := expires] && full == old(full)[id := expires]
    {
      expires := SaturatingAdd(now, ttl);
      leases := leases[id := expires];
      full := full[id := expires];
      clock := now;
    }

    method RenewMany(ids: seq<ConvId>, now: Timestamp) returns (count: nat, expires: Timestamp)
      requires Valid() && clock <= now
      modifies this
      ensures Valid() && clock == now
      ensures count == |ids| && expires == SaturatingAdd(now, ttl)
      ensures leases == RenewAll(old(leases), ids, expires) && full == RenewAll(old(full), ids, expires)
    {
      expires := SaturatingAdd(now, ttl);
      count := 0;
      clock := now;
      while count < |ids|
        invariant 0 <= count <= |ids| && clock == now && Valid()
        invariant leases == RenewAll(old(leases), ids[..count], expires)
        invariant full == RenewAll(old(full), ids[..count], expires)
      {
        assert ids[..count + 1][..count] == ids[..count];
        leases := leases[ids[count] := expires];
        full := full[ids[count] := expires];
        count := count + 1;
      }
      assert ids[..count] == ids;
    }

    /** The answer is the one the registry would give had it never dropped anything. */
    method ActiveUntil(id: ConvId, now: Timestamp) returns (r: Option<Timestamp>)
      requires Valid() && clock <= now
      modifies this
      ensures Valid() && clock == now && full == old(full)
      ensures r == Answer(old(full), id, now)
      ensures r == Answer(old(leases), id, now) && leases == Purge(old(leases), id, now)
    {
      LookupAgrees(leases, full, clock, id, now);
      ghost var was := leases;
      r := None;
      if id in leases {
        var expires := leases[id];
        if expires > now {
          r := Some(expires);
        } else {
          leases := leases - {id};
        }
      }
      assert leases == Purge(was, id, now);
      clock := now;
    }
  }
}
