/**
 Admission to the resident pool (`enforce_resident_capacity` and what it reads), as a function of
 a view of the task map. The concurrent step system and the sequential task manager both use it.

 A view maps each conversation id to the content of its once-cell. Agent status and last activity,
 the memory percentage, the iteration order of the concurrent map and the set of agents whose own
 `kill` returns an error are inputs from the environment.
 */
module Admission {
  import opened Basics

  type ConvId = string
  type AgentId = nat

  datatype RuntimeCapabilities = RuntimeCapabilities(contextVersion: Option<nat>)
  {
    predicate Satisfies(requested: RuntimeCapabilities) {
      match requested.contextVersion
      case Some(version) => contextVersion.Some? && contextVersion.value >= version
      case None => true
    }
  }

  /** `satisfies` is a preorder, and it is total: any two capability sets are comparable. */
  lemma SatisfiesIsPreorder(a: RuntimeCapabilities, b: RuntimeCapabilities, c: RuntimeCapabilities)
    ensures a.Satisfies(a)
    ensures a.Satisfies(b) && b.Satisfies(c) ==> a.Satisfies(c)
    ensures a.Satisfies(b) || b.Satisfies(a)
    ensures a.Satisfies(b) && b.Satisfies(a) ==> a == b
  {}

  /** On version numbers: a request for none is always covered, one for some by that or a later version. */
  lemma SatisfiesOnVersions(actual: RuntimeCapabilities, have: nat, want: nat)
    ensures actual.Satisfies(RuntimeCapabilities(None))
    ensures !RuntimeCapabilities(None).Satisfies(RuntimeCapabilities(Some(want)))
    ensures RuntimeCapabilities(Some(have)).Satisfies(RuntimeCapabilities(Some(want))) <==> have >= want
  {}

  datatype ConversationStatus = Pending | Running | Finished
  datatype AgentType = Acp | OpenclawGateway | Nanobot | Remote | Aionrs | Gemini | Codex
  datatype AgentInfo = AgentInfo(kind: AgentType, status: Option<ConversationStatus>, lastActivity: int)
  datatype Managed = Managed(agent: AgentId, caps: RuntimeCapabilities)

  type View = map<ConvId, Option<Managed>>

  /** Ids whose slot holds an agent (`active_count` is the size of this set). */
  function ActiveIds(view: View): set<ConvId> {
    set id | id in view && view[id].Some?
  }

  predicate IdleStatus(status: Option<ConversationStatus>) {
    status.None? || status.value.Finished?
  }

  predicate Idle(view: View, agents: seq<AgentInfo>, id: ConvId) {
    && id in view && view[id].Some?
    && view[id].value.agent < |agents|
    && IdleStatus(agents[view[id].value.agent].status)
  }

  function Activity(view: View, agents: seq<AgentInfo>, id: ConvId): int {
    if Idle(view, agents, id) then agents[view[id].value.agent].lastActivity else 0
  }

  /** `order` lists every key of the map once: some iteration order of the concurrent map. */
  ghost predicate Enumerates(order: seq<ConvId>, view: View) {
    NoDup(order) && forall id :: id in order <==> id in view
  }

  predicate Evictable(view: View, agents: seq<AgentInfo>, requested: ConvId, id: ConvId) {
    id != requested && Idle(view, agents, id)
  }

  function IdleOthers(view: View, agents: seq<AgentInfo>, order: seq<ConvId>, requested: ConvId): seq<ConvId> {
    if order == [] then []
    else
      var rest := IdleOthers(view, agents, order[..|order| - 1], requested);
      var id := order[|order| - 1];
      if Evictable(view, agents, requested, id) then rest + [id] else rest
  }

  /** Stable insertion: `id` goes behind every element that is at most as recent. */
  function InsertByActivity(view: View, agents: seq<AgentInfo>, xs: seq<ConvId>, id: ConvId): seq<ConvId> {
    if xs == [] then [id]
    else
      var n := |xs| - 1;
      if Activity(view, agents, xs[n]) <= Activity(view, agents, id) then xs + [id]
      else InsertByActivity(view, agents, xs[..n], id) + [xs[n]]
  }

  function SortByActivity(view: View, agents: seq<AgentInfo>, xs: seq<ConvId>): seq<ConvId> {
    if xs == [] then []
    else InsertByActivity(view, agents, SortByActivity(view, agents, xs[..|xs| - 1]), xs[|xs| - 1])
  }

  function LruCandidates(view: View, agents: seq<AgentInfo>, order: seq<ConvId>, requested: ConvId): seq<ConvId> {
    SortByActivity(view, agents, IdleOthers(view, agents, order, requested))
  }

  function UsedPercent(memory: Option<real>): real {
    if memory.Some? then memory.value else 0.0
  }

  function AtLeastOne(n: nat): nat { if n == 0 then 1 else n }

  function EffectiveLimit(configured: nat, memory: Option<real>): nat {
    var limit := AtLeastOne(configured);
    if UsedPercent(memory) >= 75.0 && limit > 4 then 4 else limit
  }

  /** The kills a loop over `ids` performs when it stops after the first agent that refuses. */
  function UntilRefusal(view: View, ids: seq<ConvId>, refusing: set<AgentId>): seq<ConvId> {
    if ids == [] then []
    else if Refuses(view, ids[0], refusing) then [ids[0]]
    else [ids[0]] + UntilRefusal(view, ids[1..], refusing)
  }

  predicate Refuses(view: View, id: ConvId, refusing: set<AgentId>) {
    id in view && view[id].Some? && view[id].value.agent in refusing
  }

  /** The tasks removed, in order, and whether the build may start. */
  datatype Decision = Decision(victims: seq<ConvId>, admitted: bool)

  function Decide(view: View, agents: seq<AgentInfo>, building: int, configured: nat, requested: ConvId,
                  memory: Option<real>, order: seq<ConvId>, refusing: set<AgentId>): Decision
  {
    var idle := LruCandidates(view, agents, order, requested);
    if UsedPercent(memory) >= 85.0 then Decision(UntilRefusal(view, idle, refusing), false)
    else if |ActiveIds(view)| + building < EffectiveLimit(configured, memory) then Decision([], true)
    else if idle != [] then Decision([idle[0]], !Refuses(view, idle[0], refusing))
    else Decision([], false)
  }

  /** Least recently used among the evictable tasks. */
  ghost predicate IsLruVictim(view: View, agents: seq<AgentInfo>, requested: ConvId, v: ConvId) {
    && Evictable(view, agents, requested, v)
    && forall id :: Evictable(view, agents, requested, id) ==> Activity(view, agents, v) <= Activity(view, agents, id)
  }

  ghost predicate SortedByActivity(view: View, agents: seq<AgentInfo>, xs: seq<ConvId>) {
    forall i, j :: 0 <= i < j < |xs| ==> Activity(view, agents, xs[i]) <= Activity(view, agents, xs[j])
  }

  lemma {:induction false} IdleOthersExact(view: View, agents: seq<AgentInfo>, order: seq<ConvId>, requested: ConvId)
    requires NoDup(order)
    ensures NoDup(IdleOthers(view, agents, order, requested))
    ensures forall id :: id in IdleOthers(view, agents, order, requested)
                    <==> id in order && Evictable(view, agents, requested, id)
  {
    if order != [] {
      var n := |order| - 1;
      IdleOthersExact(view, agents, order[..n], requested);
      assert order == order[..n] + [order[n]];
    }
  }

  lemma {:induction false} InsertPermutes(view: View, agents: seq<AgentInfo>, xs: seq<ConvId>, id: ConvId)
    ensures multiset(InsertByActivity(view, agents, xs, id)) == multiset(xs) + multiset{id}
  {
    if xs != [] {
      var n := |xs| - 1;
      assert xs == xs[..n] + [xs[n]];
      InsertPermutes(view, agents, xs[..n], id);
    }
  }

  lemma {:induction false} InsertSorted(view: View, agents: seq<AgentInfo>, xs: seq<ConvId>, id: ConvId)
    requires SortedByActivity(view, agents, xs)
    ensures SortedByActivity(view, agents, InsertByActivity(view, agents, xs, id))
  {
    var n := |xs| - 1;
    if n >= 0 && Activity(view, agents, xs[n]) > Activity(view, agents, id) {
      assert SortedByActivity(view, agents, xs[..n]);
      InsertSorted(view, agents, xs[..n], id);
      var r := InsertByActivity(view, agents, xs[..n], id);
      InsertPermutes(view, agents, xs[..n], id);
      assert forall x :: x in xs[..n] ==> Activity(view, agents, x) <= Activity(view, agents, xs[n]);
      assert InsertByActivity(view, agents, xs, id) == r + [xs[n]];
      hide Activity, InsertByActivity;
      forall i | 0 <= i < |r| ensures Activity(view, agents, r[i]) <= Activity(view, agents, xs[n]) {
        assert r[i] in multiset(r);
        assert r[i] == id || r[i] in xs[..n];
      }
    }
  }

  /** Sorting yields an ordered permutation of its input. */
  lemma {:induction false} SortSorted(view: View, agents: seq<AgentInfo>, xs: seq<ConvId>)
    ensures SortedByActivity(view, agents, SortByActivity(view, agents, xs))
    ensures multiset(SortByActivity(view, agents, xs)) == multiset(xs)
  {
    if xs != [] {
      var n := |xs| - 1;
      SortSorted(view, agents, xs[..n]);
      InsertSorted(view, agents, SortByActivity(view, agents, xs[..n]), xs[n]);
      InsertPermutes(view, agents, SortByActivity(view, agents, xs[..n]), xs[n]);
      assert xs == xs[..n] + [xs[n]];
    }
  }

  lemma {:induction false} NoDupFromMultiset<T>(xs: seq<T>, ys: seq<T>)
    requires NoDup(xs) && multiset(xs) == multiset(ys)
    ensures NoDup(ys) && forall x :: x in ys <==> x in xs
  {
    forall x ensures x in ys <==> x in xs {
      assert x in ys <==> x in multiset(ys);
      assert x in xs <==> x in multiset(xs);
    }
    forall i, j | 0 <= i < j < |ys| ensures ys[i] != ys[j] {
      if ys[i] == ys[j] {
        assert ys == ys[..i] + [ys[i]] + ys[i + 1..j] + [ys[j]] + ys[j + 1..];
        assert multiset(xs)[ys[i]] >= 2;
        AtMostOnce(xs, ys[i]);
      }
    }
  }

  lemma {:induction false} AtMostOnce<T>(xs: seq<T>, x: T)
    requires NoDup(xs)
    ensures multiset(xs)[x] <= 1
  {
    if xs != [] {
      AtMostOnce(xs[1..], x);
      assert xs == [xs[0]] + xs[1..];
      assert xs[0] !in xs[1..];
      assert xs[0] !in multiset(xs[1..]);
    }
  }

  /** The candidate list holds exactly the evictable tasks, each once, least recently used first. */
  lemma LruCandidatesExact(view: View, agents: seq<AgentInfo>, order: seq<ConvId>, requested: ConvId)
    requires Enumerates(order, view)
    ensures var idle := LruCandidates(view, agents, order, requested);
      && NoDup(idle) && SortedByActivity(view, agents, idle)
      && forall id :: id in idle <==> Evictable(view, agents, requested, id)
  {
    IdleOthersExact(view, agents, order, requested);
    var xs := IdleOthers(view, agents, order, requested);
    SortSorted(view, agents, xs);
    NoDupFromMultiset(xs, SortByActivity(view, agents, xs));
  }

  lemma {:induction false} UntilRefusalPrefix(view: View, ids: seq<ConvId>, refusing: set<AgentId>)
    ensures UntilRefusal(view, ids, refusing) <= ids
    ensures (forall id :: id in ids ==> !Refuses(view, id, refusing)) ==> UntilRefusal(view, ids, refusing) == ids
    ensures forall i :: 0 <= i < |UntilRefusal(view, ids, refusing)| - 1 ==> !Refuses(view, ids[i], refusing)
    ensures |UntilRefusal(view, ids, refusing)| < |ids| ==>
              |UntilRefusal(view, ids, refusing)| > 0
              && Refuses(view, ids[|UntilRefusal(view, ids, refusing)| - 1], refusing)
  {
    if ids != [] && !Refuses(view, ids[0], refusing) {
      UntilRefusalPrefix(view, ids[1..], refusing);
    }
  }

  /**
   Admission is LRU-correct. Under 85% memory a build is admitted without eviction exactly below the
   effective limit; at or over it exactly one task goes, a least recently used evictable one, and the
   build starts unless that agent refuses; the refusal without eviction happens exactly when nothing
   else is evictable. From 85% no build starts and only evictable tasks are removed, all of them
   unless one refuses.
   */
  lemma DecideIsLruCorrect(view: View, agents: seq<AgentInfo>, building: int, configured: nat, requested: ConvId,
                           memory: Option<real>, order: seq<ConvId>, refusing: set<AgentId>)
    requires Enumerates(order, view)
    ensures var d := Decide(view, agents, building, configured, requested, memory, order, refusing);
      var full := |ActiveIds(view)| + building >= EffectiveLimit(configured, memory);
      var evictable := exists id :: Evictable(view, agents, requested, id);
      && NoDup(d.victims)
      && (forall id :: id in d.victims ==> Evictable(view, agents, requested, id))
      && (UsedPercent(memory) >= 85.0 ==>
            && !d.admitted
            && ((forall id :: Evictable(view, agents, requested, id) ==> !Refuses(view, id, refusing)) ==>
                  forall id :: Evictable(view, agents, requested, id) ==> id in d.victims))
      && (UsedPercent(memory) < 85.0 ==>
            && (d.victims == [] <==> !full || !evictable)
            && (d.victims != [] ==> |d.victims| == 1 && IsLruVictim(view, agents, requested, d.victims[0]))
            && (d.admitted <==> !full || (d.victims != [] && !Refuses(view, d.victims[0], refusing))))
  {
    LruCandidatesExact(view, agents, order, requested);
    var idle := LruCandidates(view, agents, order, requested);
    var d := Decide(view, agents, building, configured, requested, memory, order, refusing);
    if UsedPercent(memory) >= 85.0 {
      UntilRefusalPrefix(view, idle, refusing);
    } else if idle != [] {
      assert idle[0] in idle;
      forall id | Evictable(view, agents, requested, id)
        ensures Activity(view, agents, idle[0]) <= Activity(view, agents, id)
      {
        assert id in idle;
      }
    }
  }

  /**
   The same on the fields of tasks and agents. From 85% memory nothing starts; below that a build starts
   without eviction exactly while residents and builds are fewer than the configured limit, at least one,
   and from 75% memory also fewer than four. Otherwise an idle conversation other than the requester goes
   whose agent has the smallest last activity of all those, and the build starts unless it refuses.
   */
  lemma AdmissionOnFields(view: View, agents: seq<AgentInfo>, building: int, configured: nat, requested: ConvId,
                          memory: Option<real>, order: seq<ConvId>, refusing: set<AgentId>)
    requires Enumerates(order, view)
    ensures var d := Decide(view, agents, building, configured, requested, memory, order, refusing);
      var count := |set id | id in view && view[id].Some?| + building;
      var hot := memory.Some? && memory.value >= 85.0;
      var below := (count < 1 || count < configured) && (memory.Some? && memory.value >= 75.0 ==> count < 4);
      var idle := set id | id in view && id != requested && view[id].Some? && view[id].value.agent < |agents|
                           && (agents[view[id].value.agent].status == None
                               || agents[view[id].value.agent].status == Some(Finished));
      && (hot ==> !d.admitted && (forall v :: v in d.victims ==> v in idle)
                  && ((forall id :: id in idle ==> view[id].value.agent !in refusing) ==> forall id :: id in idle ==> id in d.victims))
      && (!hot && below ==> d == Decision([], true))
      && (!hot && !below && idle == {} ==> d == Decision([], false))
      && (!hot && !below && idle != {} ==>
            && |d.victims| == 1 && d.victims[0] in idle
            && (forall id :: id in idle ==>
                  agents[view[d.victims[0]].value.agent].lastActivity <= agents[view[id].value.agent].lastActivity)
            && (d.admitted <==> view[d.victims[0]].value.agent !in refusing))
  {
    var idle := set id | id in view && id != requested && view[id].Some? && view[id].value.agent < |agents|
                         && (agents[view[id].value.agent].status == None
                             || agents[view[id].value.agent].status == Some(Finished));
    forall id ensures id in idle <==> Evictable(view, agents, requested, id) {}
    DecideIsLruCorrect(view, agents, building, configured, requested, memory, order, refusing);
    assert ActiveIds(view) == set id | id in view && view[id].Some?;
    var d := Decide(view, agents, building, configured, requested, memory, order, refusing);
    assert forall id :: id in idle ==> Activity(view, agents, id) == agents[view[id].value.agent].lastActivity;
    hide Enumerates, LruCandidates, UntilRefusal, Decide, ActiveIds, Activity, Idle, Evictable;
  }

  /** The candidate list on fields: least recently used first. */
  lemma LruCandidatesOnFields(view: View, agents: seq<AgentInfo>, order: seq<ConvId>, requested: ConvId)
    requires Enumerates(order, view)
    ensures var idle := LruCandidates(view, agents, order, requested);
      && (forall id :: id in idle <==>
            id in view && id != requested && view[id].Some? && view[id].value.agent < |agents|
            && (agents[view[id].value.agent].status == None || agents[view[id].value.agent].status == Some(Finished)))
      && (forall i, j :: 0 <= i < j < |idle| ==>
            && idle[i] in view && view[idle[i]].Some? && view[idle[i]].value.agent < |agents|
            && idle[j] in view && view[idle[j]].Some? && view[idle[j]].value.agent < |agents|
            && agents[view[idle[i]].value.agent].lastActivity <= agents[view[idle[j]].value.agent].lastActivity)
  {
    LruCandidatesExact(view, agents, order, requested);
    var idle := LruCandidates(view, agents, order, requested);
    forall i | 0 <= i < |idle| ensures Evictable(view, agents, requested, idle[i]) {
      assert idle[i] in idle;
    }
    hide LruCandidates, Enumerates, NoDup;
  }
}
