/**
 The agent catalog cache: the rows and the reasons of unavailability are two maps that four operations
 update. The database is part of the state; its writers outside the registry are the `Edit` operation.
 Every operation is one step.
 */
module Registry {
  import opened Basics
  import opened Admission
  import opened Availability

  type Id = string

  const CURATED: set<Id> :=
    {"632f31d2", "2d23ff1c", "8e1acf31", "cc126dd5", "8b20fd41", "e241c49c", "26a946ed", "1e4afc51", "55f3ed1c", "b7e8a9c4"}

  predicate CatalogMember(id: Id, source: Source) {
    source.Custom? || source.Extension? || id in CURATED
  }

  datatype State = State(db: map<Id, Row>, rows: map<Id, Meta>, reasons: map<Id, Reason>)

  predicate Member(s: State, id: Id) { id in s.rows && CatalogMember(id, s.rows[id].source) }

  /** Reasons belong to cached rows that are not available. */
  ghost predicate Weak(s: State) {
    forall id :: id in s.reasons ==> id in s.rows && !s.rows[id].available
  }

  /** For catalog members a reason is there exactly when the row is unavailable. */
  ghost predicate Strong(s: State) {
    forall id :: Member(s, id) ==> (id in s.reasons <==> !s.rows[id].available)
  }

  // ---- The operations as functions ----

  function ProbedRow(env: Env, row: Row): (Meta, Option<Reason>)
    requires Decode(row).Some?
  {
    WithProbe(env, Decode(row).value)
  }

  function Hydrated(s: State, env: Env): State {
    State(
      s.db,
      map id | id in s.db && Decode(s.db[id]).Some? :: ProbedRow(env, s.db[id]).0,
      map id | id in s.db && Decode(s.db[id]).Some? && ProbedRow(env, s.db[id]).1.Some? :: ProbedRow(env, s.db[id]).1.value)
  }

  function Refreshed(s: State, env: Env): State {
    State(
      s.db,
      map id | id in s.rows ::
        if CatalogMember(id, s.rows[id].source) then WithProbe(env, s.rows[id]).0 else s.rows[id],
      map id | id in s.rows && CatalogMember(id, s.rows[id].source) && WithProbe(env, s.rows[id]).1.Some? ::
        WithProbe(env, s.rows[id]).1.value)
  }

  function SetReason(reasons: map<Id, Reason>, id: Id, reason: Option<Reason>): map<Id, Reason> {
    if reason.Some? then reasons[id := reason.value] else reasons - {id}
  }

  function Reloaded(s: State, id: Id, env: Env): State {
    if id !in s.db || Decode(s.db[id]).None? then s.(rows := s.rows - {id}, reasons := s.reasons - {id})
    else
      var (meta, reason) := ProbedRow(env, s.db[id]);
      s.(rows := s.rows[id := meta], reasons := SetReason(s.reasons, id, reason))
  }

  /** Config option merging and the derivation of modes and models from the options. */
  datatype Options = Options(merge: (Option<Value>, Value) -> Option<Value>, modes: Value -> Option<Value>,
                             models: Value -> Option<Value>)

  function OrElse<T>(first: Option<T>, second: Option<T>): Option<T> { if first.Some? then first else second }

  function Enriched(options: Options, existing: Option<Value>, snapshot: Columns<Value>): Columns<Value> {
    if snapshot.config.None? then snapshot
    else
      var config := OrElse(options.merge(existing, snapshot.config.value), snapshot.config);
      snapshot.(config := config,
                modes := OrElse(options.modes(config.value), snapshot.modes),
                models := OrElse(options.models(config.value), snapshot.models))
  }

  /** A column that is not part of the update keeps its stored text. */
  function Written(stored: Option<Text>, update: Option<Value>): Option<Text> {
    if update.Some? then Some(Json(update.value)) else stored
  }

  function WrittenColumns(stored: Columns<Text>, update: Columns<Value>): Columns<Text> {
    Columns(Written(stored.capabilities, update.capabilities), Written(stored.auth, update.auth),
            Written(stored.config, update.config), Written(stored.modes, update.modes),
            Written(stored.models, update.models), Written(stored.commands, update.commands))
  }

  function CachedConfig(s: State, id: Id): Option<Value> {
    if id in s.rows then s.rows[id].handshake.config else None
  }

  /** The row after the update has been written. */
  function UpdatedRow(s: State, options: Options, id: Id, snapshot: Columns<Value>): Row
    requires id in s.db
  {
    s.db[id].(columns := WrittenColumns(s.db[id].columns, Enriched(options, CachedConfig(s, id), snapshot)))
  }

  /** The entry and reason to cache for an updated row: availability is carried over from the cached entry. */
  function Carried(s: State, id: Id, row: Row): (Meta, Option<Reason>)
    requires Decode(row).Some?
  {
    var (meta, reason) := WithCache(Decode(row).value);
    if id in s.rows then
      (meta.(available := s.rows[id].available, resolved := s.rows[id].resolved),
       if s.rows[id].available then None else if id in s.reasons then Some(s.reasons[id]) else reason)
    else (meta, reason)
  }

  function Handshaken(s: State, options: Options, id: Id, snapshot: Columns<Value>): State {
    if id !in s.db then s
    else
      var row := UpdatedRow(s, options, id, snapshot);
      if Decode(row).None? then s.(db := s.db[id := row])
      else
        var (meta, reason) := Carried(s, id, row);
        State(s.db[id := row], s.rows[id := meta], SetReason(s.reasons, id, reason))
  }

  /** The row has been written, and reading it back failed: the cache is left as it was. */
  function StoredOnly(s: State, options: Options, id: Id, snapshot: Columns<Value>): State {
    if id !in s.db then s else s.(db := s.db[id := UpdatedRow(s, options, id, snapshot)])
  }

  /** What the repository does with a handshake: nothing, write it but fail to read it back, or both. */
  datatype Answer = Failed | Stored | Shown

  function HandshakeWith(s: State, options: Options, id: Id, snapshot: Columns<Value>, answer: Answer): State {
    match answer
    case Failed => s
    case Stored => StoredOnly(s, options, id, snapshot)
    case Shown => Handshaken(s, options, id, snapshot)
  }

  /** `ok` is false when the repository call of the operation fails; nothing changes then. */
  datatype Op =
    | Hydrate(env: Env, ok: bool)
    | Refresh(env: Env)
    | Reload(id: Id, env: Env, ok: bool)
    | Handshake(id: Id, options: Options, snapshot: Columns<Value>, answer: Answer)
    | Edit(db: map<Id, Row>)

  function Apply(s: State, op: Op): State {
    match op
    case Hydrate(env, ok) => if ok then Hydrated(s, env) else s
    case Refresh(env) => Refreshed(s, env)
    case Reload(id, env, ok) => if ok then Reloaded(s, id, env) else s
    case Handshake(id, options, snapshot, answer) => HandshakeWith(s, options, id, snapshot, answer)
    case Edit(db) => s.(db := db)
  }

  function Run(s: State, ops: seq<Op>): State {
    if ops == [] then s else Apply(Run(s, ops[..|ops| - 1]), ops[|ops| - 1])
  }

  const EMPTY := State(map[], map[], map[])

  // ---- Consistency of the two maps ----

  lemma ProbeKeepsSource(env: Env, meta: Meta)
    ensures WithProbe(env, meta).0.source == meta.source
  {}

  /** Whatever came before, a hydrated cache is consistent in both senses. */
  lemma HydrateEstablishes(s: State, env: Env)
    ensures Weak(Hydrated(s, env)) && Strong(Hydrated(s, env))
  {
    forall id | id in s.db && Decode(s.db[id]).Some?
      ensures ProbedRow(env, s.db[id]).0.available <==> ProbedRow(env, s.db[id]).1.None?
    {
      ProjectionsExplain(env, Decode(s.db[id]).value);
    }
    hide CatalogMember, ProbedRow, Decode;
  }

  /** So is a refreshed one: refreshing repairs any inconsistency. */
  lemma RefreshEstablishes(s: State, env: Env)
    ensures Weak(Refreshed(s, env)) && Strong(Refreshed(s, env))
  {
    forall id | id in s.rows
      ensures WithProbe(env, s.rows[id]).0.available <==> WithProbe(env, s.rows[id]).1.None?
      ensures WithProbe(env, s.rows[id]).0.source == s.rows[id].source
    {
      ProjectionsExplain(env, s.rows[id]);
    }
    hide CatalogMember, WithProbe;
  }

  lemma ReloadKeeps(s: State, id: Id, env: Env)
    ensures Weak(s) ==> Weak(Reloaded(s, id, env))
    ensures Strong(s) ==> Strong(Reloaded(s, id, env))
  {
    if id in s.db && Decode(s.db[id]).Some? {
      ProjectionsExplain(env, Decode(s.db[id]).value);
    }
    hide CatalogMember, WithProbe, Decode;
  }

  /** Curated, extension and custom agents make the catalog. */
  lemma CatalogOnIds(id: Id, source: Source)
    ensures CatalogMember(id, source) <==>
              source == Extension || source == Custom
              || id in {"632f31d2", "2d23ff1c", "8e1acf31", "cc126dd5", "8b20fd41",
                        "e241c49c", "26a946ed", "1e4afc51", "55f3ed1c", "b7e8a9c4"}
  {}

  /** What a hydrated cache shows of the database: every row that decodes, field by field, probed in `env`. */
  lemma HydratedShowsRows(s: State, env: Env, id: Id)
    ensures var rows := Hydrated(s, env).rows;
      && (id in rows <==> id in s.db && s.db[id].kind.Some? && s.db[id].source.Some?)
      && (id in rows ==>
            && Shows(rows[id], s.db[id]) && rows[id] == WithProbe(env, rows[id]).0
            && (rows[id].source != Builtin && rows[id].resolved.Some? ==>
                  rows[id].command.Some? && rows[id].resolved == env.locate(rows[id].command.value)))
  {
    if id in s.db {
      DecodeShows(s.db[id]);
      if Decode(s.db[id]).Some? {
        ProbeOnFields(env, Decode(s.db[id]).value);
        ProbeForgets(env, env, Decode(s.db[id]).value);
      }
    }
    hide WithProbe, Decode;
  }

  /** What a handshake caches of the row it has written; availability is carried over or projected. */
  lemma HandshakeShowsRow(s: State, options: Options, id: Id, snapshot: Columns<Value>)
    requires id in s.db && s.db[id].kind.Some? && s.db[id].source.Some?
    ensures var r := Handshaken(s, options, id, snapshot);
      && id in r.rows && id in r.db && Shows(r.rows[id], r.db[id])
      && r.db[id] == s.db[id].(columns := r.db[id].columns)
      && (if id in s.rows then r.rows[id].available == s.rows[id].available && r.rows[id].resolved == s.rows[id].resolved
          else r.rows[id].resolved == None && r.rows[id].available == WithCache(r.rows[id]).0.available)
      && forall other :: other != id ==>
           (other in r.rows <==> other in s.rows) && (other in s.rows ==> r.rows[other] == s.rows[other])
  {
    var row := UpdatedRow(s, options, id, snapshot);
    DecodeShows(row);
    CachedOnFields(Decode(row).value);
    assert WithCache(WithCache(Decode(row).value).0).0 == WithCache(Decode(row).value).0;
    assert UpdatedRow(s, options, id, snapshot).kind == s.db[id].kind;
    hide Decode, WithCache, UpdatedRow;
  }

  /** Two states show the same entry and reason for `id`. */
  ghost predicate SameAt(s: State, r: State, id: Id) {
    && (id in s.rows <==> id in r.rows) && (id in s.rows ==> s.rows[id] == r.rows[id])
    && (id in s.reasons <==> id in r.reasons) && (id in s.reasons ==> s.reasons[id] == r.reasons[id])
  }

  /** A reload does for one id what a hydration would do, and nothing else. */
  lemma ReloadIsLocalHydrate(s: State, id: Id, env: Env)
    ensures SameAt(Reloaded(s, id, env), Hydrated(s, env), id)
    ensures forall other :: other != id ==> SameAt(Reloaded(s, id, env), s, other)
  {
    hide WithProbe, Decode;
  }

  /** A probe looks neither at the availability nor at the path found before. */
  lemma ProbeForgets(earlier: Env, env: Env, meta: Meta)
    ensures WithProbe(env, WithProbe(earlier, meta).0) == WithProbe(env, meta)
  {}

  /** For catalog members a refresh is as good as a new hydration; the others keep their entry. */
  lemma RefreshIsHydrate(s: State, before: Env, env: Env, id: Id)
    requires Member(Hydrated(s, before), id)
    ensures SameAt(Refreshed(Hydrated(s, before), env), Hydrated(s, env), id)
  {
    var meta := Decode(s.db[id]).value;
    ProbeForgets(before, env, meta);
    ProbeKeepsSource(before, meta);
    assert Hydrated(s, before).rows[id] == WithProbe(before, meta).0;
    hide WithProbe, Decode, CatalogMember;
  }

  /** The guard under which a handshake leaves a catalog member unavailable without a reason. */
  predicate LosesReason(s: State, id: Id) {
    && id in s.db && Decode(s.db[id]).Some?
    && CatalogMember(id, Decode(s.db[id]).value.source)
    && var meta := Decode(s.db[id]).value;
       if id in s.rows then !s.rows[id].available && id !in s.reasons && (Unexplained(meta) || SnapshotUsable(meta))
       else Unexplained(meta)
  }

  lemma UpdateKeepsProjection(s: State, options: Options, id: Id, snapshot: Columns<Value>)
    requires id in s.db
    ensures var row := UpdatedRow(s, options, id, snapshot);
      && Decode(row).Some? == Decode(s.db[id]).Some?
      && (Decode(row).Some? ==>
            var was, now := Decode(s.db[id]).value, Decode(row).value;
            && now.source == was.source
            && Unexplained(now) == Unexplained(was) && SnapshotUsable(now) == SnapshotUsable(was))
  {}

  /** A handshake keeps the weak form always and the strong form exactly outside that guard. */
  lemma HandshakeExact(s: State, options: Options, id: Id, snapshot: Columns<Value>)
    ensures Weak(s) ==> Weak(Handshaken(s, options, id, snapshot))
    ensures Strong(s) ==> (Strong(Handshaken(s, options, id, snapshot)) <==> !LosesReason(s, id))
  {
    if id in s.db {
      var row := UpdatedRow(s, options, id, snapshot);
      UpdateKeepsProjection(s, options, id, snapshot);
      if Decode(row).Some? {
        var meta := Decode(row).value;
        ProjectionsExplain(AnyEnv(), meta);
        assert WithCache(meta).0.source == meta.source;
        var s' := Handshaken(s, options, id, snapshot);
        var (m', r') := Carried(s, id, row);
        assert m'.source == meta.source && (m'.available ==> r'.None?);
        assert !m'.available && r'.None? <==>
               if id in s.rows then !s.rows[id].available && id !in s.reasons && (Unexplained(meta) || SnapshotUsable(meta))
               else Unexplained(meta);
        hide CatalogMember, Decode, WithCache, Unexplained, SnapshotUsable, UpdatedRow, Carried;
        HandshakeTouchesOne(s, s', id, m', r');
      } else {
        DatabaseOnly(s, Handshaken(s, options, id, snapshot));
      }
    }
  }

  lemma DatabaseOnly(s: State, s': State)
    requires s'.rows == s.rows && s'.reasons == s.reasons
    ensures Weak(s) == Weak(s') && Strong(s) == Strong(s')
  {
    assert forall id :: Member(s, id) == Member(s', id);
  }

  function AnyEnv(): Env { Env(_ => None, None, _ => None) }

  /** Replacing one entry and its reason can only spoil consistency at that entry. */
  lemma HandshakeTouchesOne(s: State, s': State, id: Id, meta: Meta, reason: Option<Reason>)
    requires s'.rows == s.rows[id := meta] && s'.reasons == SetReason(s.reasons, id, reason)
    ensures Weak(s) && (reason.Some? ==> !meta.available) ==> Weak(s')
    ensures Strong(s) ==>
              (Strong(s') <==> (CatalogMember(id, meta.source) ==> (reason.Some? <==> !meta.available)))
  {
    hide CatalogMember;
    assert forall other :: other != id ==> (other in s'.reasons <==> other in s.reasons);
    assert forall other :: other != id ==> Member(s', other) == Member(s, other);
    assert Member(s', id) == CatalogMember(id, meta.source);
    if Strong(s) && (CatalogMember(id, meta.source) ==> (reason.Some? <==> !meta.available)) {
      forall other | Member(s', other) ensures other in s'.reasons <==> !s'.rows[other].available {
        if other != id { assert Member(s, other); }
      }
    }
  }

  /** The guard does hold for an agent added since the last hydration and never checked. */
  lemma FreshAgentLosesReason(s: State, id: Id, row: Row)
    requires id in s.db && s.db[id] == row && id !in s.rows
    requires row.source == Some(Custom) && row.kind.Some? && row.enabled && !row.checks.Any()
    requires row.command.Some? && row.command.value != "" && row.commandOverride.None?
    ensures LosesReason(s, id)
  {
    assert HasCommand(Decode(row).value) && Unexplained(Decode(row).value);
  }

  /** On an id that is already cached under an unchanged source the guard cannot hold. */
  lemma FixedSourceIsSafe(s: State, id: Id)
    requires Strong(s) && FixedSource(s, id)
    ensures !LosesReason(s, id)
  {
    hide Decode, Unexplained, CatalogMember;
    assert id in s.db && Decode(s.db[id]).Some? ==> Member(s, id) == CatalogMember(id, Decode(s.db[id]).value.source);
  }

  predicate FixedSource(s: State, id: Id) {
    id in s.rows && (id in s.db && Decode(s.db[id]).Some? ==> Decode(s.db[id]).value.source == s.rows[id].source)
  }

  /** The weak form holds after every operation of every run. */
  lemma {:induction false} WeakOverRuns(ops: seq<Op>)
    ensures Weak(Run(EMPTY, ops))
  {
    if ops != [] {
      WeakOverRuns(ops[..|ops| - 1]);
      var s, op := Run(EMPTY, ops[..|ops| - 1]), ops[|ops| - 1];
      StepConsistency(s, op);
    }
  }

  predicate Spoils(s: State, op: Op) { op.Handshake? && op.answer.Shown? && LosesReason(s, op.id) }

  /** One operation: the weak form is kept, the strong form is kept exactly unless a handshake loses a reason. */
  lemma StepConsistency(s: State, op: Op)
    ensures Weak(s) ==> Weak(Apply(s, op))
    ensures Strong(s) ==> (Strong(Apply(s, op)) <==> !Spoils(s, op))
  {
    match op
    case Hydrate(env, ok) => if ok { HydrateEstablishes(s, env); }
    case Refresh(env) => RefreshEstablishes(s, env);
    case Reload(id, env, ok) => if ok { ReloadKeeps(s, id, env); }
    case Handshake(id, options, snapshot, answer) =>
      if answer.Shown? {
        HandshakeExact(s, options, id, snapshot);
      } else {
        DatabaseOnly(s, HandshakeWith(s, options, id, snapshot, answer));
      }
    case Edit(db) => DatabaseOnly(s, s.(db := db));
  }

  /** No handshake of the run meets an id that is not cached, or cached under another source. */
  ghost predicate OnlyCachedHandshakes(ops: seq<Op>) {
    forall k :: 0 <= k < |ops| && ops[k].Handshake? && ops[k].answer.Shown? ==> FixedSource(Run(EMPTY, ops[..k]), ops[k].id)
  }

  lemma {:induction false} StrongOverRuns(ops: seq<Op>)
    requires OnlyCachedHandshakes(ops)
    ensures Strong(Run(EMPTY, ops))
  {
    if ops != [] {
      var n := |ops| - 1;
      forall k | 0 <= k < n && ops[..n][k].Handshake? && ops[..n][k].answer.Shown?
        ensures FixedSource(Run(EMPTY, ops[..n][..k]), ops[..n][k].id)
      {
        assert ops[..n][..k] == ops[..k];
      }
      StrongOverRuns(ops[..n]);
      var s := Run(EMPTY, ops[..n]);
      hide Run, FixedSource, LosesReason;
      if ops[n].Handshake? && ops[n].answer.Shown? { FixedSourceIsSafe(s, ops[n].id); }
      StepConsistency(s, ops[n]);
    }
  }

  // ---- Two operations that overlap ----

  /** A handshake that inserts its entry only after a refresh that ran since it set the reason. */
  function Overlapped(s: State, options: Options, id: Id, snapshot: Columns<Value>, env: Env): State
    requires id in s.db && Decode(UpdatedRow(s, options, id, snapshot)).Some?
  {
    var row := UpdatedRow(s, options, id, snapshot);
    var (meta, reason) := Carried(s, id, row);
    var mid := Refreshed(State(s.db[id := row], s.rows, SetReason(s.reasons, id, reason)), env);
    mid.(rows := mid.rows[id := meta])
  }

  /**
   The two locks are taken one after the other, so even the weak form can be lost: exactly when the entry
   was available and the refresh finds that it no longer is.
   */
  lemma OverlapExact(s: State, options: Options, id: Id, snapshot: Columns<Value>, env: Env)
    requires id in s.db && Decode(UpdatedRow(s, options, id, snapshot)).Some?
    ensures Weak(Overlapped(s, options, id, snapshot, env)) <==>
              !(Member(s, id) && s.rows[id].available && WithProbe(env, s.rows[id]).1.Some?)
  {
    var row := UpdatedRow(s, options, id, snapshot);
    var (meta, reason) := Carried(s, id, row);
    assert id in s.rows ==> meta.available == s.rows[id].available;
    var start := State(s.db[id := row], s.rows, SetReason(s.reasons, id, reason));
    RefreshEstablishes(start, env);
    var mid := Refreshed(start, env);
    assert id in mid.reasons <==> Member(s, id) && WithProbe(env, s.rows[id]).1.Some?;
    hide Refreshed, Carried, UpdatedRow, CatalogMember, WithProbe;
    var end := mid.(rows := mid.rows[id := meta]);
    if id in mid.reasons && meta.available {
      assert id in end.reasons && end.rows[id].available;
    }
  }

  /** An agent that is available and whose command then disappears from the path. */
  lemma OverlapBreaksConsistency(options: Options, snapshot: Columns<Value>)
    ensures var row := Row(Some(Acp), Some(Custom), true, Some("agent"), None, None, None, None,
                           Checks(None, None, None, None, None, None, None), Columns(None, None, None, None, None, None));
      var meta := Decode(row).value.(available := true, resolved := Some("/bin/agent"));
      var s := State(map["x" := row], map["x" := meta], map[]);
      && Weak(s) && Strong(s)
      && Decode(UpdatedRow(s, options, "x", snapshot)).Some?
      && !Weak(Overlapped(s, options, "x", snapshot, AnyEnv()))
  {
    var row := Row(Some(Acp), Some(Custom), true, Some("agent"), None, None, None, None,
                   Checks(None, None, None, None, None, None, None), Columns(None, None, None, None, None, None));
    var meta := Decode(row).value.(available := true, resolved := Some("/bin/agent"));
    var s := State(map["x" := row], map["x" := meta], map[]);
    UpdateKeepsProjection(s, options, "x", snapshot);
    assert Probe(AnyEnv(), meta).Lacking? && !Commandless(meta);
    hide Overlapped, UpdatedRow;
    OverlapExact(s, options, "x", snapshot, AnyEnv());
    assert Member(s, "x");
  }

  // ---- Two writes with any operations in between ----

  /** The weak form at every id but one. */
  ghost predicate WeakBut(s: State, id: Id) {
    forall x :: x in s.reasons && x != id ==> x in s.rows && !s.rows[x].available
  }

  /** What an operation does elsewhere does not depend on the reason kept for `id`. */
  lemma ReasonStaysLocal(s: State, op: Op, id: Id)
    ensures var s' := s.(reasons := s.reasons - {id});
      && Apply(s, op).rows == Apply(s', op).rows
      && forall x :: x != id ==> (x in Apply(s, op).reasons <==> x in Apply(s', op).reasons)
  {
    var s' := s.(reasons := s.reasons - {id});
    if op.Handshake? && op.answer.Shown? && op.id in s.db {
      var row := UpdatedRow(s, op.options, op.id, op.snapshot);
      assert UpdatedRow(s', op.options, op.id, op.snapshot) == row;
      hide UpdatedRow, Decode, WithCache;
    } else {
      hide Handshaken, WithProbe, Decode, UpdatedRow, CatalogMember;
    }
  }

  lemma StepKeepsWeakBut(s: State, op: Op, id: Id)
    requires WeakBut(s, id)
    ensures WeakBut(Apply(s, op), id)
  {
    var s' := s.(reasons := s.reasons - {id});
    ReasonStaysLocal(s, op, id);
    StepConsistency(s', op);
    hide Apply;
  }

  lemma {:induction false} RunKeepsWeakBut(s: State, ops: seq<Op>, id: Id)
    requires WeakBut(s, id)
    ensures WeakBut(Run(s, ops), id)
  {
    hide Apply;
    if ops != [] {
      RunKeepsWeakBut(s, ops[..|ops| - 1], id);
      StepKeepsWeakBut(Run(s, ops[..|ops| - 1]), ops[|ops| - 1], id);
    }
  }

  /** Handshake and reload set the reason first and insert the entry afterwards; `ops` run in between. */
  function TwoWrites(s: State, db: map<Id, Row>, id: Id, meta: Meta, reason: Option<Reason>, ops: seq<Op>): State {
    var mid := Run(State(db, s.rows, SetReason(s.reasons, id, reason)), ops);
    mid.(rows := mid.rows[id := meta])
  }

  /**
   Whatever complete operations run in between: the weak form is lost exactly when the entry to be inserted
   is available and they have left a reason for it.
   */
  lemma TwoWritesExact(s: State, db: map<Id, Row>, id: Id, meta: Meta, reason: Option<Reason>, ops: seq<Op>)
    requires Weak(s)
    ensures Weak(TwoWrites(s, db, id, meta, reason, ops)) <==>
              !(meta.available && id in Run(State(db, s.rows, SetReason(s.reasons, id, reason)), ops).reasons)
  {
    var start := State(db, s.rows, SetReason(s.reasons, id, reason));
    RunKeepsWeakBut(start, ops, id);
    hide Run;
    var end := TwoWrites(s, db, id, meta, reason, ops);
    assert id in end.reasons ==> id in end.rows;
  }

  /** Removing an entry and then its reason is safe whatever runs in between. */
  lemma TwoRemovalsKeepWeak(s: State, id: Id, ops: seq<Op>)
    requires Weak(s)
    ensures var mid := Run(s.(rows := s.rows - {id}), ops); Weak(mid.(reasons := mid.reasons - {id}))
  {
    RunKeepsWeakBut(s.(rows := s.rows - {id}), ops, id);
    hide Run;
  }

  /** A hydration replaces the rows first and the reasons afterwards; a reload of `id` runs in between. */
  function HydrateOverlapped(s: State, env: Env, id: Id, later: Env): State {
    var hydrated := Hydrated(s, env);
    var mid := Reloaded(State(s.db, hydrated.rows, s.reasons), id, later);
    mid.(reasons := hydrated.reasons)
  }

  /** The weak form is lost exactly when the hydration found the row lacking and the reload finds it available. */
  lemma HydrateOverlapExact(s: State, env: Env, id: Id, later: Env)
    ensures Weak(HydrateOverlapped(s, env, id, later)) <==>
              !(id in Hydrated(s, env).reasons && ProbedRow(later, s.db[id]).0.available)
  {
    HydrateEstablishes(s, env);
    var end := HydrateOverlapped(s, env, id, later);
    hide ProbedRow, Decode;
    assert forall x :: x != id ==> (x in end.rows <==> x in Hydrated(s, env).rows);
    if id in Hydrated(s, env).reasons {
      assert end.rows[id] == ProbedRow(later, s.db[id]).0;
      assert id in end.reasons;
    }
  }

  lemma SetReasonUnique(before: map<Id, Reason>, after: map<Id, Reason>, id: Id, reason: Option<Reason>)
    requires (id in after <==> reason.Some?) && (reason.Some? ==> after[id] == reason.value)
    requires after - {id} == before - {id}
    ensures after == SetReason(before, id, reason)
  {
    forall other | other != id
      ensures other in after <==> other in before
      ensures other in after ==> after[other] == before[other]
    {
      assert other in after <==> other in after - {id};
      assert other in before <==> other in before - {id};
      if other in after { assert (after - {id})[other] == (before - {id})[other]; }
    }
  }

  // ---- The object ----

  class AgentRegistry {
    var db: map<Id, Row>
    var byId: map<Id, Meta>
    var unavailableReasons: map<Id, Reason>

    ghost function Value(): State
      reads this
    {
      State(db, byId, unavailableReasons)
    }

    constructor (db: map<Id, Row>)
      ensures Value() == State(db, map[], map[])
    {
      this.db, byId, unavailableReasons := db, map[], map[];
    }

    /** `listed` is the order in which the repository returns its rows. */
    method Hydrate(env: Env, listed: seq<Id>)
      requires NoDup(listed) && forall id :: id in listed <==> id in db
      modifies this
      ensures Value() == Hydrated(old(Value()), env)
    {
      hide ProbedRow, Decode;
      var rows: map<Id, Meta>, reasons: map<Id, Reason> := map[], map[];
      for k := 0 to |listed|
        invariant Value() == old(Value())
        invariant forall id :: id in rows <==> id in listed[..k] && Decode(db[id]).Some?
        invariant forall id :: id in rows ==> rows[id] == ProbedRow(env, db[id]).0
        invariant forall id :: id in reasons <==> id in rows && ProbedRow(env, db[id]).1.Some?
        invariant forall id :: id in reasons ==> reasons[id] == ProbedRow(env, db[id]).1.value
      {
        var id := listed[k];
        assert listed[..k + 1] == listed[..k] + [id] && id in listed;
        if Decode(db[id]).Some? {
          var (meta, reason) := ProbedRow(env, db[id]);
          if reason.Some? {
            reasons := reasons[id := reason.value];
          }
          rows := rows[id := meta];
        }
      }
      assert listed[..|listed|] == listed;
      byId := rows;
      unavailableReasons := reasons;
    }

    /** `keys` is the order in which the map yields its entries. */
    method RefreshAvailability(env: Env, keys: seq<Id>)
      requires NoDup(keys) && forall id :: id in keys <==> id in byId
      modifies this
      ensures Value() == Refreshed(old(Value()), env)
    {
      hide WithProbe, CatalogMember;
      ghost var was := byId;
      var reasons: map<Id, Reason> := map[];
      for k := 0 to |keys|
        invariant db == old(db) && unavailableReasons == old(unavailableReasons) && byId.Keys == was.Keys
        invariant forall id :: id in keys[..k] ==>
                    byId[id] == if CatalogMember(id, was[id].source) then WithProbe(env, was[id]).0 else was[id]
        invariant forall id :: id in was && id !in keys[..k] ==> byId[id] == was[id]
        invariant forall id :: id in reasons <==>
                    id in keys[..k] && CatalogMember(id, was[id].source) && WithProbe(env, was[id]).1.Some?
        invariant forall id :: id in reasons ==> reasons[id] == WithProbe(env, was[id]).1.value
      {
        var id := keys[k];
        assert keys[..k + 1] == keys[..k] + [id] && id in keys && id !in keys[..k];
        if CatalogMember(id, byId[id].source) {
          var (meta, reason) := WithProbe(env, byId[id]);
          byId := byId[id := meta];
          if reason.Some? {
            reasons := reasons[id := reason.value];
          }
        }
      }
      assert keys[..|keys|] == keys;
      unavailableReasons := reasons;
    }

    method UpdateCachedUnavailableReason(id: Id, reason: Option<Reason>)
      modifies this`unavailableReasons
      ensures (id in unavailableReasons <==> reason.Some?) && (reason.Some? ==> unavailableReasons[id] == reason.value)
      ensures unavailableReasons - {id} == old(unavailableReasons) - {id}
    {
      if reason.Some? {
        unavailableReasons := unavailableReasons[id := reason.value];
      } else {
        unavailableReasons := unavailableReasons - {id};
      }
    }

    method ReloadOne(id: Id, env: Env) returns (r: Option<Meta>)
      modifies this
      ensures Value() == Reloaded(old(Value()), id, env)
      ensures r == if id in byId then Some(byId[id]) else None
    {
      hide WithProbe, Decode;
      if id !in db || Decode(db[id]).None? {
        byId := byId - {id};
        unavailableReasons := unavailableReasons - {id};
        return None;
      }
      var (meta, reason) := ProbedRow(env, db[id]);
      UpdateCachedUnavailableReason(id, reason);
      SetReasonUnique(old(unavailableReasons), unavailableReasons, id, reason);
      byId := byId[id := meta];
      return Some(meta);
    }

    method ApplyHandshakeInner(id: Id, options: Options, snapshot: Columns<Value>, answer: Answer)
      modifies this
      ensures Value() == HandshakeWith(old(Value()), options, id, snapshot, answer)
    {
      hide WithCache, Decode, WrittenColumns;
      var existing := if id in byId then byId[id].handshake.config else None;
      var update := Enriched(options, existing, snapshot);
      if answer.Failed? || id !in db {
        return;
      }
      var row := db[id].(columns := WrittenColumns(db[id].columns, update));
      db := db[id := row];
      if answer.Stored? || Decode(row).None? {
        return;
      }
      var (meta, reason) := WithCache(Decode(row).value);
      if id in byId {
        meta := meta.(available := byId[id].available, resolved := byId[id].resolved);
        if meta.available {
          reason := None;
        } else if id in unavailableReasons {
          reason := Some(unavailableReasons[id]);
        }
      }
      UpdateCachedUnavailableReason(id, reason);
      SetReasonUnique(old(unavailableReasons), unavailableReasons, id, reason);
      byId := byId[id := meta];
    }
  }
}
