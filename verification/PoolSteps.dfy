/**
 When the steps of the pool may be taken and what the larger ones do, on the fields of the state: no
 outcome of the environment is ruled out, and removals touch nothing but what they name.
 */
module PoolSteps {
  import opened Basics
  import opened Admission
  import opened Pool
  import opened PoolAlone

  /** Nothing the environment or another caller may do is ruled out by the model. */
  lemma NothingIsRuledOut(s: State, c: CallId, id: ConvId, n: nat, memory: Option<real>, order: seq<ConvId>,
                          refusing: set<AgentId>, info: AgentInfo, ok: bool, want: RuntimeCapabilities)
    requires WellFormed(s)
    ensures Enabled(s, Start(id, want)) && Enabled(s, Kill(id)) && Enabled(s, KillAndWait(id)) && Enabled(s, Configure(n))
    ensures n < |s.agents| ==> Enabled(s, AgentChange(n, info))
    ensures c < |s.calls| ==>
      var call := s.calls[c];
      && (call.Arrived? ==> Enabled(s, Check(c)))
      && (call.Replacing? ==> Enabled(s, Replace(c, ok)))
      && (call.Ready? ==> Enabled(s, Obtain(c)))
      && (call.Holding? ==> Enabled(s, Enter(c)))
      && (call.Initialising? && NoDup(order) && (forall x :: x in order <==> x in s.tasks) ==>
            Enabled(s, Admit(c, memory, order, refusing)))
      && (call.Building? ==> Enabled(s, FactoryOk(c, info)) && Enabled(s, FactoryErr(c)))
      && (call.Built? ==> Enabled(s, Release(c)))
      && (call.Released? ==> Enabled(s, Publish(c)))
      && (call.KillHolding? ==> Enabled(s, KillEnter(c)))
      && (call.Queued? && s.cells[call.slot].value.Some? ==> Enabled(s, Wake(c)))
      && (call.KillQueued? && s.cells[call.slot].value.Some? ==> Enabled(s, KillWake(c)))
      && ((call.Arrived? || call.Replacing? || call.Ready? || call.Holding? || call.Queued? || call.Initialising?
           || call.Building? || call.KillHolding? || call.KillQueued?) ==> Enabled(s, Cancel(c)))
  {}

  /** The permit goes to the first in the queue, caller or kill future, as soon as it is free. */
  lemma PermitGoesFirst(s: State, c: CallId)
    requires WellFormed(s) && c < |s.calls| && s.calls[c].Waits()
    requires var cell := s.cells[s.calls[c].slot];
      cell.value.None? && cell.holder.None? && cell.waiters != [] && cell.waiters[0] == c
    ensures if s.calls[c].Queued? then Enabled(s, Acquire(c)) else Enabled(s, KillAcquire(c))
  {}

  lemma RemoveEffect(s: State, id: ConvId)
    requires WellFormed(s)
    ensures Remove(s, id) ==
              s.(tasks := s.tasks - {id},
                 stops := s.stops + (if HasResident(s, id) then [ResidentOf(s, id).agent] else []))
  {
    if id !in s.tasks { assert s.tasks - {id} == s.tasks; }
    assert s.stops + [] == s.stops;
  }

  lemma {:induction false} RemoveAllEffect(s: State, ids: seq<ConvId>)
    requires WellFormed(s)
    ensures var r := RemoveAll(s, ids);
      && r == s.(tasks := r.tasks, stops := r.stops)
      && r.tasks == s.tasks - (set id | id in ids)
      && forall a :: a in r.stops <==> a in s.stops || exists id :: id in ids && HasResident(s, id) && ResidentOf(s, id).agent == a
  {
    if ids == [] {
      assert s.tasks - {} == s.tasks;
      assert (set id | id in ids) == {};
    } else {
      var rest, last := ids[..|ids| - 1], ids[|ids| - 1];
      RemoveAllEffect(s, rest);
      var t := RemoveAll(s, rest);
      RemoveEffect(t, last);
      assert ids == rest + [last];
      assert s.tasks - (set id | id in ids) == (s.tasks - (set id | id in rest)) - {last};
      assert HasResident(t, last) <==> HasResident(s, last) && last !in rest;
      assert HasResident(t, last) ==> ResidentOf(t, last) == ResidentOf(s, last);
      hide Remove, WellFormed;
    }
  }

  /** `kill`: one conversation leaves the map and its agent is handed over. */
  lemma KillEffect(s: State, id: ConvId)
    requires WellFormed(s)
    ensures Apply(s, Kill(id)) ==
              s.(tasks := s.tasks - {id},
                 stops := s.stops + (if HasResident(s, id) then [ResidentOf(s, id).agent] else []))
  {
    RemoveEffect(s, id);
  }

  /** `kill_and_wait`: the same, and a future that is done if an agent was there and waits otherwise. */
  lemma KillAndWaitEffect(s: State, id: ConvId)
    requires WellFormed(s)
    ensures Apply(s, KillAndWait(id)) ==
              if id !in s.tasks then s
              else Remove(s, id).(calls := s.calls + [if HasResident(s, id)
                                                      then KillDone(s.tasks[id], Some(ResidentOf(s, id).agent))
                                                      else KillHolding(s.tasks[id])])
  {}

  /** A kill future that wakes up stops the agent it finds, and reports it. */
  lemma KillWakeEffect(s: State, c: CallId)
    requires WellFormed(s) && Enabled(s, KillWake(c))
    ensures var r := Apply(s, KillWake(c));
      var cell := s.cells[s.calls[c].slot];
      && cell.value.Some?
      && r.stops == s.stops + [cell.value.value.agent] && r.tasks == s.tasks
      && r.calls == s.calls[c := KillDone(s.calls[c].slot, Some(cell.value.value.agent))]
  {}

  /**
   Admission in the pool performs the decision: the victims leave the map, admitted or not, their agents are
   handed over, nobody else leaves, and the call goes on with a reservation or fails and gives its permit back.
   */
  lemma AdmitEffect(s: State, step: Step)
    requires WellFormed(s) && step.Admit? && Enabled(s, step)
    ensures var call := s.calls[step.c];
      var d := Decide(ViewOf(s), s.agents, s.building, s.limit, call.id, step.memory, step.order, step.refusing);
      var r := Apply(s, step);
      && r.tasks == s.tasks - (set id | id in d.victims)
      && (forall a :: a in r.stops <==>
            a in s.stops || exists id :: id in d.victims && HasResident(s, id) && ResidentOf(s, id).agent == a)
      && r.calls == s.calls[step.c := if d.admitted then Building(call.id, call.want, call.slot) else Failed]
      && r.building == s.building + (if d.admitted then 1 else 0)
      && r.cells == (if d.admitted then s.cells else s.cells[call.slot := s.cells[call.slot].(holder := None)])
      && r.agents == s.agents && r.limit == s.limit
  {
    RemoveAllEffect(s, DecisionOf(s, step).victims);
    hide Decide, Enumerates, RemoveAll, WellFormed, HasResident;
  }

  /** A factory that fails leaves no trace but a failed call: permit and reservation are free again. */
  lemma FactoryErrEffect(s: State, c: CallId)
    requires WellFormed(s) && Enabled(s, FactoryErr(c))
    ensures var slot := s.calls[c].slot;
      Apply(s, FactoryErr(c)) ==
        s.(calls := s.calls[c := Failed], cells := s.cells[slot := s.cells[slot].(holder := None)], building := s.building - 1)
  {}
}
