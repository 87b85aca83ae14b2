/**
 The task manager as one thread sees it: every call runs to completion. A slot is the content of its
 once-cell; a failed build leaves an empty slot behind. The abstract value is a plain map from
 conversation to (agent, capabilities). Agent state, memory use, map iteration order, the agents whose
 own `kill` fails, clock readings and the factory's result are parameters.
 */
module TaskManager {
  import opened Basics
  import opened Admission
  import opened ActiveLease

  type Plain = map<ConvId, Managed>

  /** The initialised tasks of a view. */
  function Residents(view: View): Plain {
    map id | id in view && view[id].Some? :: view[id].value
  }

  datatype Outcome = Ok(agent: AgentId) | Err

  /** `get_or_build_task` on the plain map, given the admission decision and the factory's result. */
  function PlainGetOrBuild(m: Plain, id: ConvId, want: RuntimeCapabilities, killOk: bool, d: Decision,
                           built: Option<AgentId>): (Outcome, Plain)
  {
    if id in m && m[id].caps.Satisfies(want) then (Ok(m[id].agent), m)
    else if id in m && !killOk then (Err, m - {id})
    else
      var rest := (m - {id}) - SetOf(d.victims);
      if d.admitted && built.Some? then (Ok(built.value), rest[id := Managed(built.value, want)]) else (Err, rest)
  }

  /** The agents of `ids`, in order; a repeated id has none the second time. */
  function AgentsOf(m: Plain, ids: seq<ConvId>): seq<AgentId> {
    if ids == [] then []
    else
      var rest, last := ids[..|ids| - 1], ids[|ids| - 1];
      AgentsOf(m, rest) + if last in m && last !in rest then [m[last].agent] else []
  }

  /** The agents a request stops: its own if it has to be rebuilt, then the evicted ones. */
  function PlainStops(m: Plain, id: ConvId, want: RuntimeCapabilities, killOk: bool, d: Decision): seq<AgentId> {
    if id in m && m[id].caps.Satisfies(want) then []
    else AgentsOf(m, [id]) + if id in m && !killOk then [] else AgentsOf(m - {id}, d.victims)
  }

  /** The map as admission sees it: the requester's slot exists and is empty. */
  function AtAdmission(view: View, id: ConvId): View { view[id := None] }

  /** Whether the first look at the map finds a task that covers the request. */
  predicate Covered(view: View, id: ConvId, want: RuntimeCapabilities) {
    id in view && view[id].Some? && view[id].value.caps.Satisfies(want)
  }

  /** Stops performed by killing `ids` one after the other; a repeated id finds nothing the second time. */
  function StopsOf(view: View, ids: seq<ConvId>): seq<AgentId> {
    if ids == [] then []
    else
      var last := ids[|ids| - 1];
      StopsOf(view, ids[..|ids| - 1])
      + if last in view && view[last].Some? && last !in ids[..|ids| - 1] then [view[last].value.agent] else []
  }

  function SetOf(ids: seq<ConvId>): set<ConvId> { set id | id in ids }

  /**
   A successful request yields a task with the requested capabilities, stored under its conversation.
   Every other task is either untouched or one of the evicted, and none appears.
   */
  lemma OkIsCapable(view: View, agents: seq<AgentInfo>, building: nat, limit: nat, id: ConvId, want: RuntimeCapabilities,
                    memory: Option<real>, order: seq<ConvId>, refusing: set<AgentId>, killOk: bool, built: Option<AgentId>)
    requires Enumerates(order, AtAdmission(view, id))
    ensures var m := Residents(view);
      var d := Decide(AtAdmission(view, id), agents, building, limit, id, memory, order, refusing);
      var (outcome, m') := PlainGetOrBuild(m, id, want, killOk, d, built);
      && (outcome.Ok? ==> id in m' && m'[id].agent == outcome.agent && m'[id].caps.Satisfies(want))
      && (outcome.Ok? && want.contextVersion.Some? ==>
            m'[id].caps.contextVersion.Some? && m'[id].caps.contextVersion.value >= want.contextVersion.value)
      && (forall other :: other in m && other != id ==>
            (other in m' && m'[other] == m[other])
            || (other in d.victims && Evictable(AtAdmission(view, id), agents, id, other)))
      && (forall other :: other in m' && other != id ==> other in m && m'[other] == m[other])
  {
    DecideIsLruCorrect(AtAdmission(view, id), agents, building, limit, id, memory, order, refusing);
    hide Enumerates, Decide, Evictable;
  }

  /**
   On version numbers: a resident that is new enough is returned and nothing changes; otherwise Ok comes
   only with the agent just built, stored for the requested version.
   */
  lemma VersionsDecide(m: Plain, id: ConvId, want: nat, killOk: bool, d: Decision, built: Option<AgentId>)
    requires id in m
    ensures var have := m[id].caps.contextVersion;
      var (outcome, m') := PlainGetOrBuild(m, id, RuntimeCapabilities(Some(want)), killOk, d, built);
      if have.Some? && have.value >= want then outcome == Ok(m[id].agent) && m' == m
      else outcome.Ok? ==> killOk && d.admitted && built == Some(outcome.agent)
                           && id in m' && m'[id] == Managed(outcome.agent, RuntimeCapabilities(Some(want)))
  {}

  lemma ResidentKeys(view: View)
    ensures Residents(view).Keys == ActiveIds(view)
    ensures |Residents(view)| == |ActiveIds(view)|
  {}

  /**
   A capability-driven rebuild evicts nobody: from a map within the effective limit, with no build in
   flight, memory under 85% and the old agent stopping, the only change is the rebuilt task itself.
   */
  lemma RebuildEvictsNobody(view: View, agents: seq<AgentInfo>, limit: nat, id: ConvId, want: RuntimeCapabilities,
                            memory: Option<real>, order: seq<ConvId>, refusing: set<AgentId>, built: AgentId)
    requires id in view && view[id].Some? && !Covered(view, id, want)
    requires UsedPercent(memory) < 85.0 && |ActiveIds(view)| <= EffectiveLimit(limit, memory)
    ensures var d := Decide(AtAdmission(view, id), agents, 0, limit, id, memory, order, refusing);
      && d == Decision([], true)
      && PlainGetOrBuild(Residents(view), id, want, true, d, Some(built))
         == (Ok(built), Residents(view)[id := Managed(built, want)])
  {
    assert ActiveIds(AtAdmission(view, id)) == ActiveIds(view) - {id};
    assert id in ActiveIds(view);
    var m := Residents(view);
    var d := Decide(AtAdmission(view, id), agents, 0, limit, id, memory, order, refusing);
    assert d == Decision([], true);
    assert (m - {id}) - SetOf(d.victims) == m - {id};
    assert (m - {id})[id := Managed(built, want)] == m[id := Managed(built, want)];
  }

  // ---- Residents under single map updates ----

  lemma ResidentsRemove(view: View, ids: set<ConvId>)
    ensures Residents(view - ids) == Residents(view) - ids
  {}

  /** What the entry of one conversation says about the plain map. */
  lemma ResidentsAt(view: View, id: ConvId)
    ensures id in Residents(view) <==> id in view && view[id].Some?
    ensures id in Residents(view) ==> Residents(view)[id] == view[id].value
    ensures Residents(AtAdmission(view, id)) == Residents(view) - {id} == Residents(view - {id})
    ensures (view - {id})[id := None] == AtAdmission(view, id)
    ensures id in view && view[id].None? ==> view == AtAdmission(view, id)
    ensures id !in view ==> view[id := None] == AtAdmission(view, id)
  {
    ResidentsEmptied(view, id);
    ResidentsRemove(view, {id});
  }

  lemma {:induction false} StopsAreAgents(view: View, ids: seq<ConvId>)
    ensures StopsOf(view, ids) == AgentsOf(Residents(view), ids)
  {
    if ids != [] {
      StopsAreAgents(view, ids[..|ids| - 1]);
      ResidentsAt(view, ids[|ids| - 1]);
      hide Residents;
    }
  }

  /** What the two removals of a request stop, on the plain map. */
  lemma RequestStops(view: View, id: ConvId, victims: seq<ConvId>, stops: seq<AgentId>)
    ensures var m := Residents(view);
      var own, evicted := AgentsOf(m, [id]), AgentsOf(m - {id}, victims);
      && StopsOf(view, [id]) == own && (id !in m ==> own == [])
      && StopsOf(AtAdmission(view, id), victims) == evicted
      && stops + own + evicted == stops + (own + evicted) && stops + [] == stops && own + [] == own
  {
    StopsAreAgents(view, [id]);
    StopsAreAgents(AtAdmission(view, id), victims);
    ResidentsEmptied(view, id);
    assert [id][..0] == [];
    hide StopsOf, Residents, AtAdmission;
  }

  /** Agents of different conversations are different. */
  ghost predicate OwnAgents(m: Plain) {
    forall x, y :: x in m && y in m && x != y ==> m[x].agent != m[y].agent
  }

  lemma {:induction false} AgentsOfExact(m: Plain, ids: seq<ConvId>)
    requires OwnAgents(m)
    ensures NoDup(AgentsOf(m, ids))
    ensures forall a :: a in AgentsOf(m, ids) <==> exists x :: x in m && x in ids && m[x].agent == a
  {
    if ids != [] {
      var rest, last := ids[..|ids| - 1], ids[|ids| - 1];
      AgentsOfExact(m, rest);
      assert ids == rest + [last];
      hide NoDup, OwnAgents;
      if last in m && last !in rest {
        assert m[last].agent !in AgentsOf(m, rest) by { OwnAgent(m, last); }
        NoDupAppend(AgentsOf(m, rest), m[last].agent);
      }
    }
  }

  lemma OwnAgent(m: Plain, x: ConvId)
    requires OwnAgents(m) && x in m
    ensures forall y :: y in m && m[y].agent == m[x].agent ==> y == x
  {}

  lemma NoDupAppend<T>(s: seq<T>, x: T)
    requires NoDup(s) && x !in s
    ensures NoDup(s + [x])
  {}

  lemma NoDupConcat<T>(s: seq<T>, t: seq<T>)
    requires NoDup(s) && NoDup(t) && forall x :: x in s ==> x !in t
    ensures NoDup(s + t)
  {
    forall i, j | 0 <= i < j < |s + t| ensures (s + t)[i] != (s + t)[j] {
      if i < |s| <= j { assert (s + t)[i] in s && (s + t)[j] in t; }
    }
  }

  /** A request stops exactly the agents that are resident before and not after it, each once. */
  lemma StoppedAreGone(view: View, agents: seq<AgentInfo>, building: nat, limit: nat, id: ConvId, want: RuntimeCapabilities,
                       memory: Option<real>, order: seq<ConvId>, refusing: set<AgentId>, killOk: bool, built: Option<AgentId>)
    requires Enumerates(order, AtAdmission(view, id)) && OwnAgents(Residents(view))
    requires built.Some? ==> forall x :: x in Residents(view) ==> Residents(view)[x].agent != built.value
    ensures var m := Residents(view);
      var d := Decide(AtAdmission(view, id), agents, building, limit, id, memory, order, refusing);
      var m' := PlainGetOrBuild(m, id, want, killOk, d, built).1;
      var stopped := PlainStops(m, id, want, killOk, d);
      && NoDup(stopped)
      && forall a :: a in stopped <==>
           (exists x :: x in m && m[x].agent == a) && !(exists x :: x in m' && m'[x].agent == a)
  {
    var d := Decide(AtAdmission(view, id), agents, building, limit, id, memory, order, refusing);
    DecideIsLruCorrect(AtAdmission(view, id), agents, building, limit, id, memory, order, refusing);
    assert forall v :: v in d.victims ==> v != id && v in Residents(view);
    hide Decide, Enumerates, Evictable, Residents;
    PlainStopsExact(Residents(view), id, want, killOk, d, built);
  }

  lemma PlainStopsExact(m: Plain, id: ConvId, want: RuntimeCapabilities, killOk: bool, d: Decision, built: Option<AgentId>)
    requires OwnAgents(m) && NoDup(d.victims) && forall v :: v in d.victims ==> v != id && v in m
    requires built.Some? ==> forall x :: x in m ==> m[x].agent != built.value
    ensures var m' := PlainGetOrBuild(m, id, want, killOk, d, built).1;
      var stopped := PlainStops(m, id, want, killOk, d);
      && NoDup(stopped)
      && forall a :: a in stopped <==>
           (exists x :: x in m && m[x].agent == a) && !(exists x :: x in m' && m'[x].agent == a)
  {
    var m' := PlainGetOrBuild(m, id, want, killOk, d, built).1;
    var stopped := PlainStops(m, id, want, killOk, d);
    AgentsOfExact(m, [id]);
    AgentsOfExact(m - {id}, d.victims);
    assert NoDup(stopped) by {
      if id in m { OwnAgent(m, id); }
      assert forall a :: a in AgentsOf(m, [id]) ==> id in m && a == m[id].agent;
      assert forall a :: a in AgentsOf(m - {id}, d.victims) ==> exists x :: x in m && x != id && m[x].agent == a;
      NoDupConcat(AgentsOf(m, [id]), AgentsOf(m - {id}, d.victims));
    }
    assert forall y :: y in m' ==> (y in m && m'[y] == m[y]) || (built.Some? && m'[y].agent == built.value);
    forall x | x in m
      ensures m[x].agent in stopped <==> !(x in m' && m'[x] == m[x])
      ensures (exists y :: y in m' && m'[y].agent == m[x].agent) <==> x in m' && m'[x] == m[x]
    {
      OwnAgent(m, x);
      StoppedOne(m, id, want, killOk, d, built, x);
    }
    StoppedWere(m, id, want, killOk, d);
    hide PlainGetOrBuild, PlainStops, OwnAgents;
  }

  lemma StoppedWere(m: Plain, id: ConvId, want: RuntimeCapabilities, killOk: bool, d: Decision)
    requires OwnAgents(m)
    ensures forall a :: a in PlainStops(m, id, want, killOk, d) ==> exists x :: x in m && m[x].agent == a
  {
    AgentsOfExact(m, [id]);
    AgentsOfExact(m - {id}, d.victims);
    forall a | a in AgentsOf(m - {id}, d.victims) ensures exists x :: x in m && m[x].agent == a {
      var x :| x in m - {id} && x in d.victims && (m - {id})[x].agent == a;
      assert x in m && m[x].agent == a;
    }
  }

  lemma StoppedOne(m: Plain, id: ConvId, want: RuntimeCapabilities, killOk: bool, d: Decision, built: Option<AgentId>, x: ConvId)
    requires OwnAgents(m) && x in m && forall v :: v in d.victims ==> v != id && v in m
    requires built.Some? ==> m[x].agent != built.value
    ensures var m' := PlainGetOrBuild(m, id, want, killOk, d, built).1;
      m[x].agent in PlainStops(m, id, want, killOk, d) <==> !(x in m' && m'[x] == m[x])
  {
    OwnAgent(m, x);
    AgentsOfExact(m, [id]);
    AgentsOfExact(m - {id}, d.victims);
    hide AgentsOf, OwnAgents;
  }

  lemma ResidentsEmptied(view: View, id: ConvId)
    ensures Residents(AtAdmission(view, id)) == Residents(view) - {id}
  {}

  lemma ResidentsStore(view: View, id: ConvId, task: Managed)
    ensures Residents(view[id := Some(task)]) == Residents(view)[id := task]
  {}

  function ActiveAmong(view: View, ids: seq<ConvId>): set<ConvId> {
    set id | id in ids && id in view && view[id].Some?
  }

  lemma ActiveNext(view: View, order: seq<ConvId>, k: nat)
    requires NoDup(order) && k < |order| && order[k] in view
    ensures |ActiveAmong(view, order[..k + 1])|
         == |ActiveAmong(view, order[..k])| + if view[order[k]].Some? then 1 else 0
  {
    assert order[..k + 1] == order[..k] + [order[k]];
    assert order[k] !in order[..k];
    var one := if view[order[k]].Some? then {order[k]} else {};
    assert ActiveAmong(view, order[..k + 1]) == ActiveAmong(view, order[..k]) + one;
  }

  lemma ActiveAll(view: View, order: seq<ConvId>)
    requires Enumerates(order, view)
    ensures ActiveAmong(view, order) == Residents(view).Keys
    ensures |ActiveAmong(view, order)| == |Residents(view)|
  {}

  /** Where the high-memory loop stands after `k` kills that nobody refused. */
  lemma RefusalNext(view: View, ids: seq<ConvId>, refusing: set<AgentId>, k: nat)
    requires k < |ids| && forall i :: 0 <= i < k ==> !Refuses(view, ids[i], refusing)
    ensures Refuses(view, ids[k], refusing) ==> UntilRefusal(view, ids, refusing) == ids[..k + 1]
  {
    if Refuses(view, ids[k], refusing) {
      UntilRefusalPrefix(view, ids, refusing);
      var n := |UntilRefusal(view, ids, refusing)|;
      assert n >= k + 1;
    }
  }

  class WorkerTaskManager {
    var tasks: View
    var building: nat
    var limit: nat
    var idleTimeout: Timestamp
    var stops: seq<AgentId>
    const leases: ActiveLeaseRegistry

    constructor (leases: ActiveLeaseRegistry)
      ensures tasks == map[] && building == 0 && limit == 6 && idleTimeout == 180_000 && stops == []
      ensures this.leases == leases
    {
      tasks, building, limit, idleTimeout, stops := map[], 0, 6, 180_000, [];
      this.leases := leases;
    }

    method ConfigureResidentPolicy(taskLimit: nat, idleTimeoutMs: Timestamp)
      modifies this`limit, this`idleTimeout
      ensures limit >= 1 && limit >= taskLimit && limit in {1, taskLimit}
      ensures idleTimeout >= 1_000 && idleTimeout >= idleTimeoutMs && idleTimeout in {1_000, idleTimeoutMs}
    {
      limit := if taskLimit < 1 then 1 else taskLimit;
      idleTimeout := if idleTimeoutMs < 1_000 then 1_000 else idleTimeoutMs;
    }

    method GetTask(id: ConvId) returns (r: Option<AgentId>)
      ensures r == if id in Residents(tasks) then Some(Residents(tasks)[id].agent) else None
    {
      r := None;
      if id in tasks && tasks[id].Some? {
        r := Some(tasks[id].value.agent);
      }
    }

    method ActiveCount(order: seq<ConvId>) returns (n: nat)
      requires Enumerates(order, tasks)
      ensures n == |Residents(tasks)|
    {
      hide ActiveAmong, Residents;
      n := 0;
      assert |ActiveAmong(tasks, order[..0])| == 0 by { NoneActive(tasks, order[..0]); }
      for k := 0 to |order|
        invariant n == |ActiveAmong(tasks, order[..k])|
      {
        assert order[k] in order;
        ActiveNext(tasks, order, k);
        if tasks[order[k]].Some? {
          n := n + 1;
        }
      }
      assert order[..|order|] == order;
      ActiveAll(tasks, order);
    }

    /** Removes the entry whatever its agent answers, and stops the agent if there is one. */
    method Kill(id: ConvId, refusing: set<AgentId>) returns (ok: bool)
      modifies this`tasks, this`stops
      ensures tasks == old(tasks) - {id}
      ensures stops == old(stops) + StopsOf(old(tasks), [id])
      ensures ok == !Refuses(old(tasks), id, refusing)
    {
      ok := true;
      assert [id][..0] == [];
      if id in tasks {
        var slot := tasks[id];
        tasks := tasks - {id};
        if slot.Some? {
          stops := stops + [slot.value.agent];
          ok := slot.value.agent !in refusing;
        }
      }
    }

    /** Without interleaving an empty slot is just dropped: its waiting future finds nothing to stop. */
    method KillAndWait(id: ConvId)
      modifies this`tasks, this`stops
      ensures tasks == old(tasks) - {id} && stops == old(stops) + StopsOf(old(tasks), [id])
    {
      var _ := Kill(id, {});
    }

    method Clear(order: seq<ConvId>)
      requires Enumerates(order, tasks)
      modifies this`tasks, this`stops
      ensures tasks == map[] && stops == old(stops) + StopsOf(old(tasks), order)
    {
      ghost var was := tasks;
      for k := 0 to |order|
        invariant tasks == was - SetOf(order[..k])
        invariant stops == old(stops) + StopsOf(was, order[..k])
      {
        KillNext(was, order, k);
        var _ := Kill(order[k], {});
      }
      assert order[..|order|] == order;
    }

    /** One `kill_and_wait` per id, as the idle scanner issues them. */
    method KillAndWaitEach(ids: seq<ConvId>)
      modifies this`tasks, this`stops
      ensures tasks == old(tasks) - SetOf(ids) && stops == old(stops) + StopsOf(old(tasks), ids)
    {
      ghost var was := tasks;
      assert was - SetOf([]) == was && StopsOf(was, []) == [];
      hide SetOf, StopsOf;
      for k := 0 to |ids|
        invariant tasks == was - SetOf(ids[..k])
        invariant stops == old(stops) + StopsOf(was, ids[..k])
      {
        KillNext(was, ids, k);
        KillAndWait(ids[k]);
      }
      assert ids[..|ids|] == ids;
    }

    method IdleLruCandidates(requested: ConvId, order: seq<ConvId>, agents: seq<AgentInfo>) returns (idle: seq<ConvId>)
      requires Enumerates(order, tasks)
      ensures idle == LruCandidates(tasks, agents, order, requested)
    {
      var candidates: seq<ConvId> := [];
      for k := 0 to |order|
        invariant candidates == IdleOthers(tasks, agents, order[..k], requested)
      {
        assert order[..k + 1][..k] == order[..k];
        if Evictable(tasks, agents, requested, order[k]) {
          candidates := candidates + [order[k]];
        }
      }
      assert order[..|order|] == order;
      idle := SortByActivity(tasks, agents, candidates);
    }

    method EnforceResidentCapacity(requested: ConvId, memory: Option<real>, order: seq<ConvId>, agents: seq<AgentInfo>,
                                   refusing: set<AgentId>) returns (ok: bool)
      requires Enumerates(order, tasks)
      modifies this`tasks, this`stops
      ensures var d := Decide(old(tasks), agents, building, limit, requested, memory, order, refusing);
        && ok == d.admitted
        && tasks == old(tasks) - SetOf(d.victims)
        && stops == old(stops) + StopsOf(old(tasks), d.victims)
    {
      NothingRemoved(tasks, stops);
      hide Enumerates, NoDup, LruCandidates, UntilRefusal, Residents, ActiveIds, Refuses, SetOf, StopsOf, Evictable;
      var used := UsedPercent(memory);
      var bound := AtLeastOne(limit);
      if used >= 75.0 && bound > 4 { bound := 4; }
      var idle := IdleLruCandidates(requested, order, agents);
      if used >= 85.0 {
        LruCandidatesExact(tasks, agents, order, requested);
        KillUntilRefusal(idle, refusing);
        return false;
      }
      var active := ActiveCount(order);
      ResidentKeys(tasks);
      ok := active + building < bound;
      if !ok && |idle| > 0 {
        OnlyOne(idle[0]);
        ok := Kill(idle[0], refusing);
      }
    }

    /** The loop of the high-memory branch: it stops after the first agent that refuses. */
    method KillUntilRefusal(idle: seq<ConvId>, refusing: set<AgentId>)
      requires NoDup(idle)
      modifies this`tasks, this`stops
      ensures var victims := UntilRefusal(old(tasks), idle, refusing);
        tasks == old(tasks) - SetOf(victims) && stops == old(stops) + StopsOf(old(tasks), victims)
    {
      ghost var was := tasks;
      assert was - SetOf([]) == was && StopsOf(was, []) == [];
      hide UntilRefusal, SetOf, StopsOf;
      for k := 0 to |idle|
        invariant tasks == was - SetOf(idle[..k])
        invariant stops == old(stops) + StopsOf(was, idle[..k])
        invariant forall i :: 0 <= i < k ==> !Refuses(was, idle[i], refusing)
      {
        KillNext(was, idle, k);
        StillThere(was, idle, k);
        RefusalNext(was, idle, refusing, k);
        var ok := Kill(idle[k], refusing);
        if !ok {
          return;
        }
      }
      UntilRefusalPrefix(was, idle, refusing);
      assert idle[..|idle|] == idle;
      assert forall id :: id in idle ==> !Refuses(was, id, refusing);
    }

    /** What the once-cell runs for an empty slot: admission, reservation, factory, release, publication. */
    method Initialise(id: ConvId, want: RuntimeCapabilities, memory: Option<real>, order: seq<ConvId>,
                      agents: seq<AgentInfo>, refusing: set<AgentId>, built: Option<AgentId>)
      returns (outcome: Outcome)
      requires Enumerates(order, tasks)
      modifies this`tasks, this`stops, this`building
      ensures building == old(building)
      ensures var d := Decide(old(tasks), agents, building, limit, id, memory, order, refusing);
        var rest := Residents(old(tasks)) - SetOf(d.victims);
        && stops == old(stops) + StopsOf(old(tasks), d.victims)
        && (outcome, Residents(tasks)) ==
           if d.admitted && built.Some? then (Ok(built.value), rest[id := Managed(built.value, want)]) else (Err, rest)
    {
      hide *;
      ghost var d := Decide(tasks, agents, building, limit, id, memory, order, refusing);
      ResidentsRemove(tasks, SetOf(d.victims));
      var admitted := EnforceResidentCapacity(id, memory, order, agents, refusing);
      if !admitted {
        return Err;
      }
      building := building + 1;
      if built.None? {
        building := building - 1;
        return Err;
      }
      building := building - 1;
      ResidentsStore(tasks, id, Managed(built.value, want));
      tasks := tasks[id := Some(Managed(built.value, want))];
      return Ok(built.value);
    }

    /** `get_or_build_task` refines the plain map, and leaves the build counter where it was. */
    method GetOrBuildTask(id: ConvId, want: RuntimeCapabilities, memory: Option<real>, order: seq<ConvId>,
                          agents: seq<AgentInfo>, refusing: set<AgentId>, built: Option<AgentId>)
      returns (outcome: Outcome)
      requires Enumerates(order, AtAdmission(tasks, id))
      modifies this`tasks, this`stops, this`building
      ensures building == old(building)
      ensures var d := Decide(AtAdmission(old(tasks), id), agents, building, limit, id, memory, order, refusing);
        && (outcome, Residents(tasks)) == PlainGetOrBuild(Residents(old(tasks)), id, want,
                                                       !Refuses(old(tasks), id, refusing), d, built)
        && stops == old(stops) + PlainStops(Residents(old(tasks)), id, want, !Refuses(old(tasks), id, refusing), d)
    {
      ghost var was := tasks;
      ResidentsAt(was, id);
      ghost var d := Decide(AtAdmission(was, id), agents, building, limit, id, memory, order, refusing);
      RequestStops(was, id, d.victims, stops);
      hide AgentsOf, Residents, Enumerates, Decide, Refuses, RuntimeCapabilities.Satisfies, SetOf, StopsOf, AtAdmission, NoDup;
      if id in tasks && tasks[id].Some? && !tasks[id].value.caps.Satisfies(want) {
        var ok := Kill(id, refusing);
        if !ok {
          return Err;
        }
      }
      if id !in tasks {
        tasks := tasks[id := None];
      }
      if tasks[id].Some? {
        return Ok(tasks[id].value.agent);
      }
      assert tasks == AtAdmission(was, id);
      outcome := Initialise(id, want, memory, order, agents, refusing, built);
    }

    /** One pass over the map, deciding each lease as a registry that never forgets would. */
    method CollectIdle(threshold: Timestamp, now: Timestamp, order: seq<ConvId>, agents: seq<AgentInfo>,
                       readings: seq<Timestamp>) returns (ids: seq<ConvId>)
      requires leases.Valid() && Pass(tasks, agents, threshold, now, order, readings).WellFormed()
      requires Nondecreasing(readings) && forall k :: 0 <= k < |readings| ==> leases.clock <= readings[k]
      modifies leases
      ensures leases.Valid() && leases.full == old(leases.full)
      ensures leases.clock == old(leases.clock) || leases.clock in readings
      ensures ids == Collected(Pass(tasks, agents, threshold, now, order, readings), leases.full, |order|)
    {
      ghost var pass := Pass(tasks, agents, threshold, now, order, readings);
      ids := [];
      for k := 0 to |order|
        invariant leases.Valid() && leases.full == old(leases.full)
        invariant forall i :: k <= i < |readings| ==> leases.clock <= readings[i]
        invariant leases.clock == old(leases.clock) || leases.clock in readings
        invariant ids == Collected(pass, leases.full, k)
      {
        assert order[k] in order;
        if IdleBeyond(tasks, agents, threshold, now, order[k]) {
          var lease := leases.ActiveUntil(order[k], readings[k]);
          if lease.None? {
            ids := ids + [order[k]];
          }
        }
      }
    }
  }


  lemma NothingRemoved(view: View, stops: seq<AgentId>)
    ensures view - SetOf([]) == view && stops + StopsOf(view, []) == stops
  {}

  lemma OnlyOne(id: ConvId)
    ensures SetOf([id]) == {id}
  {}

  lemma NoneActive(view: View, ids: seq<ConvId>)
    requires ids == []
    ensures |ActiveAmong(view, ids)| == 0
  {}

  /** Removing other tasks does not change what killing this one does. */
  lemma StillThere(was: View, ids: seq<ConvId>, k: nat)
    requires k < |ids| && NoDup(ids)
    ensures ids[k] !in ids[..k]
    ensures forall refusing :: Refuses(was - SetOf(ids[..k]), ids[k], refusing) == Refuses(was, ids[k], refusing)
  {}

  lemma KillNext(was: View, ids: seq<ConvId>, k: nat)
    requires k < |ids|
    ensures (was - SetOf(ids[..k])) - {ids[k]} == was - SetOf(ids[..k + 1])
    ensures StopsOf(was, ids[..k]) + StopsOf(was - SetOf(ids[..k]), [ids[k]]) == StopsOf(was, ids[..k + 1])
  {
    assert ids[..k + 1][..k] == ids[..k] && [ids[k]][..0] == [];
    assert ids[..k + 1] == ids[..k] + [ids[k]];
    assert StopsOf(was - SetOf(ids[..k]), []) == [];
  }
}
