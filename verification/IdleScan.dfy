/**
 One scan of the idle cleanup loop: collect, let the coordinator take over what it wants, stop the rest.
 The coordinator is an arbitrary function from the collected ids to the ids left for the scanner; that it
 only drops ids is what the scanner relies on, not something it enforces.
 */
module IdleScan {
  import opened Basics
  import opened Admission
  import opened ActiveLease
  import opened TaskManager

  type Coordinator = seq<ConvId> -> seq<ConvId>

  predicate OnlyDrops(coordinator: Option<Coordinator>, ids: seq<ConvId>) {
    coordinator.Some? ==> forall id :: id in coordinator.value(ids) ==> id in ids
  }

  /** The ids a scan stops, given what it collected. */
  function LeftToStop(coordinator: Option<Coordinator>, collected: seq<ConvId>): seq<ConvId> {
    if collected == [] || coordinator.None? then collected else coordinator.value(collected)
  }

  /** What may be stopped: idle beyond the threshold and without a live lease at its lookup. */
  ghost predicate FairGame(p: Pass, full: Leases, id: ConvId)
    requires |p.readings| == |p.order|
  {
    exists j :: 0 <= j < |p.order| && p.order[j] == id && Selected(p, j) && Answer(full, id, p.readings[j]).None?
  }

  lemma CollectedIsFairGame(p: Pass, full: Leases, coordinator: Option<Coordinator>)
    requires p.WellFormed()
    ensures forall id :: id in Collected(p, full, |p.order|) <==> FairGame(p, full, id)
    ensures OnlyDrops(coordinator, Collected(p, full, |p.order|)) ==>
              forall id :: id in LeftToStop(coordinator, Collected(p, full, |p.order|)) ==> FairGame(p, full, id)
  {
    CollectedExact(p, full, |p.order|);
    assert p.order[..|p.order|] == p.order;
    hide Selected, Answer, Collected, Enumerates;
    forall id | id in Collected(p, full, |p.order|) ensures FairGame(p, full, id) {
      var j :| 0 <= j < |p.order| && p.order[j] == id;
    }
  }

  /**
   What one pass collects, on the fields of slots, agents and leases: exactly the initialised ACP agents with
   status None or Finished whose idle time, in 64 bits, is over the threshold, and without a live lease.
   */
  lemma CollectedOnFields(p: Pass, full: Leases, j: nat)
    requires p.WellFormed() && j < |p.order|
    ensures var id := p.order[j];
      id in Collected(p, full, |p.order|) <==>
        && id in p.view && p.view[id].Some?
        && var a := p.view[id].value.agent;
           && a < |p.agents| && p.agents[a].kind == Acp
           && (p.agents[a].status == None || p.agents[a].status == Some(Finished))
           && p.now - p.agents[a].lastActivity > p.threshold && p.threshold < 9_223_372_036_854_775_807
           && (id !in full || full[id] <= p.readings[j])
  {
    CollectedExact(p, full, |p.order|);
    hide Collected, Enumerates;
  }

  /** An agent is not collected within the threshold after its last activity. */
  lemma RecentActivityProtects(p: Pass, full: Leases, id: ConvId)
    requires p.WellFormed() && p.threshold >= 0
    requires id in p.view && p.view[id].Some? && p.view[id].value.agent < |p.agents|
    requires p.now <= p.agents[p.view[id].value.agent].lastActivity + p.threshold
    ensures id !in Collected(p, full, |p.order|)
  {
    CollectedIsFairGame(p, full, None);
    hide Collected, Enumerates;
  }

  lemma ScanIsSafe(p: Pass, full: Leases, coordinator: Option<Coordinator>)
    requires p.WellFormed() && OnlyDrops(coordinator, Collected(p, full, |p.order|))
    ensures var left := p.view - SetOf(LeftToStop(coordinator, Collected(p, full, |p.order|)));
      && (forall id :: id in p.view && !FairGame(p, full, id) ==> id in left && left[id] == p.view[id])
      && (forall id :: id in p.view && id in full && AllBefore(p.readings, full[id]) ==> id in left)
  {
    hide Enumerates, Collected, OnlyDrops, LeftToStop;
    CollectedIsFairGame(p, full, coordinator);
  }

  /**
   A scan removes exactly what the coordinator left, and stops the agents found there. With a coordinator
   that only drops ids nothing outside the collected set is touched; in particular a conversation whose
   lease outlives the scan's clock readings survives. Leases renewed while the coordinator runs
   (`renewed`, at time `later`) are recorded but come too late: they do not change what is stopped.
   */
  method ScanAndCleanup(manager: WorkerTaskManager, threshold: Timestamp, coordinator: Option<Coordinator>,
                        now: Timestamp, order: seq<ConvId>, agents: seq<AgentInfo>, readings: seq<Timestamp>,
                        renewed: seq<ConvId>, later: Timestamp)
    requires manager.leases.Valid() && Pass(manager.tasks, agents, threshold, now, order, readings).WellFormed()
    requires Nondecreasing(readings) && forall k :: 0 <= k < |readings| ==> manager.leases.clock <= readings[k]
    requires manager.leases.clock <= later && forall k :: 0 <= k < |readings| ==> readings[k] <= later
    modifies manager`tasks, manager`stops, manager.leases
    ensures manager.leases.Valid()
    ensures var p := Pass(old(manager.tasks), agents, threshold, now, order, readings);
      var collected := Collected(p, old(manager.leases.full), |order|);
      manager.leases.full ==
        if collected != [] && coordinator.Some?
        then RenewAll(old(manager.leases.full), renewed, SaturatingAdd(later, manager.leases.ttl))
        else old(manager.leases.full)
    ensures var p := Pass(old(manager.tasks), agents, threshold, now, order, readings);
      var ids := LeftToStop(coordinator, Collected(p, old(manager.leases.full), |order|));
      && manager.tasks == old(manager.tasks) - SetOf(ids)
      && manager.stops == old(manager.stops) + StopsOf(old(manager.tasks), ids)
    ensures var p := Pass(old(manager.tasks), agents, threshold, now, order, readings);
      var full := old(manager.leases.full);
      OnlyDrops(coordinator, Collected(p, full, |order|)) ==>
        && (forall id :: id in old(manager.tasks) && !FairGame(p, full, id) ==>
              id in manager.tasks && manager.tasks[id] == old(manager.tasks)[id])
        && (forall id :: id in old(manager.tasks) && id in full && AllBefore(readings, full[id]) ==> id in manager.tasks)
  {
    ghost var was := manager.tasks;
    ghost var p := Pass(was, agents, threshold, now, order, readings);
    assert SetOf([]) == {} && was - {} == was && StopsOf(was, []) == [];
    if OnlyDrops(coordinator, Collected(p, manager.leases.full, |order|)) {
      ScanIsSafe(p, manager.leases.full, coordinator);
    }
    hide OnlyDrops, FairGame, AllBefore, SetOf, Enumerates, IdleBeyond, Collected, StopsOf, Nondecreasing, Forgets;
    var ids := manager.CollectIdle(threshold, now, order, agents, readings);
    if |ids| == 0 {
      return;
    }
    if coordinator.Some? {
      ids := coordinator.value(ids);
      var _, _ := manager.leases.RenewMany(renewed, later);
    }
    manager.KillAndWaitEach(ids);
  }
}
