/**
 Handshake updates reach the catalog through a bounded queue with a single consumer. Producers may find
 the queue full, or closed once the consumer is gone; their update is dropped then. Hydration, refresh,
 reload and writers of other columns run in between.
 */
module CatalogSync {
  import opened Basics
  import opened Availability
  import opened Registry

  const CAPACITY: nat := 256

  datatype Message = Message(id: Id, snapshot: Columns<Value>)

  /** The columns that a handshake stores unchanged. */
  datatype Column = Capabilities | Auth | Commands

  function Pick<T>(c: Columns<T>, column: Column): Option<T> {
    match column
    case Capabilities => c.capabilities
    case Auth => c.auth
    case Commands => c.commands
  }

  /**
   `accepted` and `results` record the run: what entered the queue, and how each consumed message fared;
   `stale` are the rows written since their entry was last read.
   */
  datatype World = World(s: State, queue: seq<Message>, closed: bool, accepted: seq<Message>, results: seq<Answer>,
                         stale: set<Id>)

  datatype Step =
    | Send(msg: Message)
    | Consume(options: Options, answer: Answer)
    | Close
    | Maintain(op: Op)

  predicate Enabled(w: World, step: Step) {
    match step
    case Send(_) => true
    case Consume(_, _) => w.queue != [] && !w.closed
    case Close => true
    case Maintain(op) => op.Hydrate? || op.Refresh? || op.Reload? || (op.Edit? && SameStored(w.s.db, op.db))
  }

  /** Another writer of the table left identity and handshake columns of every row alone. */
  predicate SameStored(db: map<Id, Row>, db': map<Id, Row>) {
    db.Keys == db'.Keys
    && forall id :: id in db ==>
         db'[id].kind == db[id].kind && db'[id].source == db[id].source && db'[id].columns == db[id].columns
  }

  /** The rows an operation reads from the database. */
  function ReadBy(op: Op, s: State): set<Id> {
    if op.Hydrate? && op.ok then s.db.Keys else if op.Reload? && op.ok then {op.id} else {}
  }

  predicate Accepts(w: World) { |w.queue| < CAPACITY && !w.closed }

  function Next(w: World, step: Step): World
    requires Enabled(w, step)
  {
    match step
    case Send(msg) => if Accepts(w) then w.(queue := w.queue + [msg], accepted := w.accepted + [msg]) else w
    case Consume(options, answer) =>
      var msg := w.queue[0];
      w.(queue := w.queue[1..], results := w.results + [answer],
         s := HandshakeWith(w.s, options, msg.id, msg.snapshot, answer),
         stale := StaleAfter(w.stale, msg.id, answer))
    case Close => w.(closed := true)
    case Maintain(op) => w.(s := Registry.Apply(w.s, op), stale := w.stale - ReadBy(op, w.s))
  }

  predicate ValidRun(start: State, steps: seq<Step>)
    decreases |steps|, 0
  {
    steps == [] ||
    (ValidRun(start, steps[..|steps| - 1]) && Enabled(Reached(start, steps[..|steps| - 1]), steps[|steps| - 1]))
  }

  function Reached(start: State, steps: seq<Step>): World
    requires ValidRun(start, steps)
    decreases |steps|, 1
  {
    if steps == [] then World(start, [], false, [], [], {})
    else Next(Reached(start, steps[..|steps| - 1]), steps[|steps| - 1])
  }

  lemma RunNext(start: State, steps: seq<Step>, step: Step)
    requires ValidRun(start, steps) && Enabled(Reached(start, steps), step)
    ensures ValidRun(start, steps + [step]) && Reached(start, steps + [step]) == Next(Reached(start, steps), step)
  {
    assert (steps + [step])[..|steps|] == steps;
  }

  // ---- What the columns must hold ----

  /** Message `k` was written and carries a value for the column. */
  predicate Hit(msgs: seq<Message>, results: seq<Answer>, k: nat, id: Id, column: Column)
    requires k < |msgs| == |results|
  {
    !results[k].Failed? && msgs[k].id == id && Pick(msgs[k].snapshot, column).Some?
  }

  function LastWritten(msgs: seq<Message>, results: seq<Answer>, id: Id, column: Column, initial: Option<Text>): Option<Text>
    requires |msgs| == |results|
  {
    if msgs == [] then initial
    else
      var n := |msgs| - 1;
      if Hit(msgs, results, n, id, column) then Some(Json(Pick(msgs[n].snapshot, column).value))
      else LastWritten(msgs[..n], results[..n], id, column, initial)
  }

  /** The value of the last hit; what was there before if nothing hits. */
  lemma {:induction false} LastWrittenMeaning(msgs: seq<Message>, results: seq<Answer>, id: Id, column: Column,
                                              initial: Option<Text>)
    requires |msgs| == |results|
    ensures var r := LastWritten(msgs, results, id, column, initial);
      || (r == initial && forall k: nat :: k < |msgs| ==> !Hit(msgs, results, k, id, column))
      || (exists k: nat :: k < |msgs| && Hit(msgs, results, k, id, column)
            && r == Some(Json(Pick(msgs[k].snapshot, column).value))
            && forall j: nat :: k < j < |msgs| ==> !Hit(msgs, results, j, id, column))
  {
    if msgs != [] {
      var n := |msgs| - 1;
      if !Hit(msgs, results, n, id, column) {
        LastWrittenMeaning(msgs[..n], results[..n], id, column, initial);
        assert forall k: nat :: k < n ==> Hit(msgs[..n], results[..n], k, id, column) == Hit(msgs, results, k, id, column);
        hide LastWritten;
      }
    }
  }

  /** The messages that have left the queue. */
  ghost function Taken(w: World): seq<Message>
    requires |w.results| <= |w.accepted|
  {
    w.accepted[..|w.results|]
  }

  /** The stored column is the last value written for it since `start`. */
  ghost predicate LastSome(start: State, w: World, id: Id, column: Column)
    requires |w.results| <= |w.accepted| && id in start.db && id in w.s.db
  {
    Pick(w.s.db[id].columns, column)
    == LastWritten(Taken(w), w.results, id, column, Pick(start.db[id].columns, column))
  }

  /** Every cached entry belongs to a row that decodes, and shows its handshake columns unless it is stale. */
  ghost predicate Agrees(s: State, stale: set<Id>) {
    forall id :: id in s.rows ==>
      id in s.db && Decode(s.db[id]).Some?
      && (id !in stale ==> s.rows[id].handshake == ParseColumns(s.db[id].columns))
  }

  /** The queue is the accepted messages not consumed yet, in order. */
  ghost predicate Fifo(w: World) {
    |w.queue| <= CAPACITY && |w.results| <= |w.accepted| && w.queue == w.accepted[|w.results|..]
  }

  ghost predicate SameIdentity(start: State, s: State) {
    && start.db.Keys == s.db.Keys
    && forall id :: id in s.db ==> s.db[id].kind == start.db[id].kind && s.db[id].source == start.db[id].source
  }

  predicate InCache(s: State, id: Id) { id in s.db && Decode(s.db[id]).Some? ==> id in s.rows }

  /** A written message for a decodable row leaves its entry in the cache. */
  ghost predicate Cached(w: World)
    requires Fifo(w)
  {
    forall k :: 0 <= k < |w.results| && w.results[k].Shown? ==> InCache(w.s, w.accepted[k].id)
  }

  ghost predicate Inv(start: State, w: World) {
    && Fifo(w) && Agrees(w.s, w.stale) && SameIdentity(start, w.s) && Cached(w)
    && forall id, column :: id in start.db ==> LastSome(start, w, id, column)
  }

  // ---- Proof, step by step ----

  lemma ProbedColumns(env: Env, row: Row)
    requires Decode(row).Some?
    ensures ProbedRow(env, row).0.handshake == ParseColumns(row.columns)
  {
    hide ParseColumns, Probe;
  }

  lemma HydrateAgrees(s: State, env: Env)
    ensures var s' := Hydrated(s, env); s'.db == s.db && Agrees(s', {}) && forall id :: InCache(s', id)
  {
    forall id | id in s.db && Decode(s.db[id]).Some?
      ensures ProbedRow(env, s.db[id]).0.handshake == ParseColumns(s.db[id].columns)
    {
      ProbedColumns(env, s.db[id]);
    }
    hide ProbedRow, ParseColumns, Decode;
  }

  lemma RefreshAgrees(s: State, stale: set<Id>, env: Env)
    requires Agrees(s, stale)
    ensures var s' := Refreshed(s, env); s'.db == s.db && Agrees(s', stale) && s'.rows.Keys == s.rows.Keys
  {
    forall id | id in s.rows ensures WithProbe(env, s.rows[id]).0.handshake == s.rows[id].handshake {}
    hide WithProbe, ParseColumns, Decode, CatalogMember;
  }

  lemma ReloadAgrees(s: State, stale: set<Id>, id: Id, env: Env)
    requires Agrees(s, stale)
    ensures var s' := Reloaded(s, id, env);
      s'.db == s.db && Agrees(s', stale - {id}) && InCache(s', id) && forall other :: other != id && other in s.rows ==> other in s'.rows
  {
    if id in s.db && Decode(s.db[id]).Some? {
      ProbedColumns(env, s.db[id]);
    }
    hide ProbedRow, ParseColumns, Decode;
  }

  lemma EditAgrees(s: State, stale: set<Id>, db: map<Id, Row>)
    requires Agrees(s, stale) && SameStored(s.db, db)
    ensures Agrees(s.(db := db), stale) && forall id :: InCache(s, id) ==> InCache(s.(db := db), id)
  {
    hide ParseColumns;
  }

  lemma MaintainKeeps(s: State, stale: set<Id>, op: Op)
    requires op.Hydrate? || op.Refresh? || op.Reload? || (op.Edit? && SameStored(s.db, op.db))
    requires Agrees(s, stale)
    ensures var s' := Registry.Apply(s, op);
      && SameStored(s.db, s'.db) && Agrees(s', stale - ReadBy(op, s))
      && forall id :: InCache(s, id) ==> InCache(s', id)
  {
    hide Hydrated, Refreshed, Reloaded, Agrees, Decode;
    if op.Edit? {
      EditAgrees(s, stale, op.db);
      assert stale - ReadBy(op, s) == stale;
    } else if op.Hydrate? && op.ok {
      HydrateAgrees(s, op.env);
      StalerAgrees(Hydrated(s, op.env), {}, stale - ReadBy(op, s));
    } else if op.Refresh? {
      RefreshAgrees(s, stale, op.env);
      assert stale - ReadBy(op, s) == stale;
    } else if op.Reload? && op.ok {
      ReloadAgrees(s, stale, op.id, op.env);
    } else {
      assert stale - ReadBy(op, s) == stale;
    }
  }

  lemma StalerAgrees(s: State, stale: set<Id>, more: set<Id>)
    requires Agrees(s, stale) && stale <= more
    ensures Agrees(s, more)
  {}

  lemma WriteKeepsOthers(s: State, options: Options, msg: Message, answer: Answer)
    ensures var s' := HandshakeWith(s, options, msg.id, msg.snapshot, answer);
      && s'.db.Keys == s.db.Keys
      && (forall id :: id in s.db && (id != msg.id || answer.Failed?) ==> s'.db[id] == s.db[id])
      && (msg.id in s.db ==> s'.db[msg.id] == s.db[msg.id].(columns := s'.db[msg.id].columns))
      && (answer.Shown? ==> InCache(s', msg.id)) && (forall id :: InCache(s, id) ==> InCache(s', id))
  {}

  /** Merging and enrichment leave the plain columns alone, and an absent value never clears a stored one. */
  lemma WriteColumn(s: State, options: Options, msg: Message, answer: Answer, column: Column)
    requires msg.id in s.db && !answer.Failed?
    ensures var now := HandshakeWith(s, options, msg.id, msg.snapshot, answer).db[msg.id].columns;
      Pick(now, column) == Written(Pick(s.db[msg.id].columns, column), Pick(msg.snapshot, column))
  {
    var row := UpdatedRow(s, options, msg.id, msg.snapshot);
    var update := Enriched(options, CachedConfig(s, msg.id), msg.snapshot);
    assert HandshakeWith(s, options, msg.id, msg.snapshot, answer).db[msg.id] == row;
    assert Pick(update, column) == Pick(msg.snapshot, column);
  }

  /**
   All six columns: the config options are merged with those cached, and the modes and models they yield
   replace the ones sent; whatever is absent keeps its stored text.
   */
  lemma WriteAllColumns(s: State, options: Options, id: Id, snapshot: Columns<Value>)
    requires id in s.db
    ensures var was, now := s.db[id].columns, StoredOnly(s, options, id, snapshot).db[id].columns;
      var cached := if id in s.rows then s.rows[id].handshake.config else None;
      && now.capabilities == (if snapshot.capabilities.Some? then Some(Json(snapshot.capabilities.value)) else was.capabilities)
      && now.auth == (if snapshot.auth.Some? then Some(Json(snapshot.auth.value)) else was.auth)
      && now.commands == (if snapshot.commands.Some? then Some(Json(snapshot.commands.value)) else was.commands)
      && (snapshot.config.None? ==>
            && now.config == was.config
            && now.modes == (if snapshot.modes.Some? then Some(Json(snapshot.modes.value)) else was.modes)
            && now.models == (if snapshot.models.Some? then Some(Json(snapshot.models.value)) else was.models))
      && (snapshot.config.Some? ==>
            var merged := options.merge(cached, snapshot.config.value);
            var config := if merged.Some? then merged.value else snapshot.config.value;
            && now.config == Some(Json(config))
            && (options.modes(config).Some? ==> now.modes == Some(Json(options.modes(config).value)))
            && (options.modes(config).None? ==>
                  now.modes == if snapshot.modes.Some? then Some(Json(snapshot.modes.value)) else was.modes)
            && (options.models(config).Some? ==> now.models == Some(Json(options.models(config).value)))
            && (options.models(config).None? ==>
                  now.models == if snapshot.models.Some? then Some(Json(snapshot.models.value)) else was.models))
  {}

  lemma CarriedColumns(s: State, id: Id, row: Row)
    requires Decode(row).Some?
    ensures Carried(s, id, row).0.handshake == ParseColumns(row.columns)
  {
    hide CachedReason, ParseColumns;
  }

  /** Writing a row makes its entry stale unless the entry is replaced too. */
  lemma AgreesUpdate(s: State, stale: set<Id>, s': State, stale': set<Id>, id: Id, row: Row)
    requires Agrees(s, stale) && id in s.db && s'.db == s.db[id := row] && Decode(row).Some? == Decode(s.db[id]).Some?
    requires stale - {id} <= stale'
    requires (s'.rows == s.rows && (Decode(row).Some? ==> id in stale'))
             || (Decode(row).Some? && id in s'.rows && s'.rows == s.rows[id := s'.rows[id]]
                 && s'.rows[id].handshake == ParseColumns(row.columns))
    ensures Agrees(s', stale')
  {
    hide Decode, ParseColumns;
  }

  function StaleAfter(stale: set<Id>, id: Id, answer: Answer): set<Id> {
    match answer
    case Failed => stale
    case Stored => stale + {id}
    case Shown => stale - {id}
  }

  lemma WriteAgrees(s: State, stale: set<Id>, options: Options, msg: Message, answer: Answer)
    requires Agrees(s, stale)
    ensures Agrees(HandshakeWith(s, options, msg.id, msg.snapshot, answer), StaleAfter(stale, msg.id, answer))
  {
    if msg.id in s.db && !answer.Failed? {
      var row := UpdatedRow(s, options, msg.id, msg.snapshot);
      UpdateKeepsProjection(s, options, msg.id, msg.snapshot);
      hide Decode, Carried, UpdatedRow, ParseColumns, Agrees, Unexplained, SnapshotUsable;
      if Decode(row).Some? { CarriedColumns(s, msg.id, row); }
      AgreesUpdate(s, stale, HandshakeWith(s, options, msg.id, msg.snapshot, answer), StaleAfter(stale, msg.id, answer),
                   msg.id, row);
    } else {
      AgreesElsewhere(s, stale, StaleAfter(stale, msg.id, answer), msg.id);
    }
  }

  /** A row that is not in the database has no entry to go stale. */
  lemma AgreesElsewhere(s: State, stale: set<Id>, stale': set<Id>, id: Id)
    requires Agrees(s, stale) && stale - {id} <= stale' && (id in s.db ==> stale' == stale)
    ensures Agrees(s, stale')
  {
    hide Decode, ParseColumns;
  }

  lemma ConsumeTakes(w: World, options: Options, answer: Answer)
    requires Fifo(w) && Enabled(w, Consume(options, answer))
    ensures var w' := Next(w, Consume(options, answer));
      && Fifo(w') && Taken(w') == Taken(w) + [w.queue[0]] && w.accepted[|w.results|] == w.queue[0]
  {
    hide HandshakeWith;
    var w' := Next(w, Consume(options, answer));
    var n := |w.results|;
    assert w.queue[0] == w.accepted[n];
    assert w.accepted[..n + 1] == w.accepted[..n] + [w.accepted[n]];
  }

  lemma ConsumeLastSome(start: State, w: World, options: Options, answer: Answer, id: Id, column: Column)
    requires Fifo(w) && Enabled(w, Consume(options, answer)) && id in start.db && id in w.s.db
    requires LastSome(start, w, id, column)
    ensures var w' := Next(w, Consume(options, answer));
      Fifo(w') && id in w'.s.db && LastSome(start, w', id, column)
  {
    var w' := Next(w, Consume(options, answer));
    var msg := w.queue[0];
    ConsumeTakes(w, options, answer);
    WriteKeepsOthers(w.s, options, msg, answer);
    if msg.id == id && !answer.Failed? { WriteColumn(w.s, options, msg, answer, column); }
    assert w'.results == w.results + [answer]
           && w'.s.db == HandshakeWith(w.s, options, msg.id, msg.snapshot, answer).db;
    hide HandshakeWith, Taken, Fifo, Pick, Next;
    assert (Taken(w) + [msg])[..|Taken(w)|] == Taken(w) && (w.results + [answer])[..|w.results|] == w.results;
  }

  lemma StepKeepsInv(start: State, w: World, step: Step)
    requires Inv(start, w) && Enabled(w, step)
    ensures Inv(start, Next(w, step))
  {
    match step
    case Send(msg) =>
      if Accepts(w) {
        var w' := Next(w, step);
        assert w'.accepted[|w.results|..] == w.accepted[|w.results|..] + [msg];
        assert Taken(w') == Taken(w);
        SameColumns(start, w, w');
        hide Taken, Agrees, LastSome;
      }
    case Consume(options, answer) => ConsumeKeepsInv(start, w, options, answer);
    case Close => SameColumns(start, w, Next(w, step));
    case Maintain(op) => MaintainKeepsInv(start, w, op);
  }

  /** A step that neither writes nor takes a message leaves every column as required. */
  lemma SameColumns(start: State, w: World, w': World)
    requires Inv(start, w) && Fifo(w') && SameStored(w.s.db, w'.s.db) && w'.results == w.results && Taken(w') == Taken(w)
    ensures forall id, column :: id in start.db ==> LastSome(start, w', id, column)
  {
    hide LastWritten, Agrees, Cached, Taken;
    forall id, column | id in start.db ensures LastSome(start, w', id, column) {
      assert LastSome(start, w, id, column);
    }
  }

  lemma MaintainKeepsInv(start: State, w: World, op: Op)
    requires Inv(start, w) && Enabled(w, Maintain(op))
    ensures Inv(start, Next(w, Maintain(op)))
  {
    hide Registry.Apply, Decode, LastSome, Agrees, InCache;
    MaintainKeeps(w.s, w.stale, op);
    SameColumns(start, w, Next(w, Maintain(op)));
  }

  lemma ConsumeState(start: State, w: World, options: Options, answer: Answer)
    requires Enabled(w, Consume(options, answer)) && Agrees(w.s, w.stale) && SameIdentity(start, w.s)
    ensures var w' := Next(w, Consume(options, answer));
      && Agrees(w'.s, w'.stale) && SameIdentity(start, w'.s)
      && (forall id :: InCache(w.s, id) ==> InCache(w'.s, id)) && (answer.Shown? ==> InCache(w'.s, w.queue[0].id))
  {
    hide HandshakeWith, Decode, Agrees, InCache, StaleAfter;
    WriteKeepsOthers(w.s, options, w.queue[0], answer);
    WriteAgrees(w.s, w.stale, options, w.queue[0], answer);
  }

  lemma CachedGrows(w: World, w': World, answer: Answer)
    requires Fifo(w) && Fifo(w') && Cached(w) && w'.accepted == w.accepted && w'.results == w.results + [answer]
    requires forall id :: InCache(w.s, id) ==> InCache(w'.s, id)
    requires |w.results| < |w.accepted| && (answer.Shown? ==> InCache(w'.s, w.accepted[|w.results|].id))
    ensures Cached(w')
  {
    hide InCache, Fifo;
    forall k | 0 <= k < |w'.results| && w'.results[k].Shown? ensures InCache(w'.s, w'.accepted[k].id) {
      if k < |w.results| {
        assert w.results[k].Shown?;
        assert InCache(w.s, w.accepted[k].id);
      }
    }
  }

  lemma ConsumeKeepsRest(start: State, w: World, options: Options, answer: Answer)
    requires Inv(start, w) && Enabled(w, Consume(options, answer))
    ensures var w' := Next(w, Consume(options, answer)); Fifo(w') && Agrees(w'.s, w'.stale) && SameIdentity(start, w'.s) && Cached(w')
  {
    var w' := Next(w, Consume(options, answer));
    assert w'.accepted == w.accepted && w'.results == w.results + [answer];
    hide Next, LastSome, Agrees, InCache, Taken, SameIdentity;
    ConsumeTakes(w, options, answer);
    ConsumeState(start, w, options, answer);
    CachedGrows(w, w', answer);
  }

  lemma ConsumeKeepsInv(start: State, w: World, options: Options, answer: Answer)
    requires Inv(start, w) && Enabled(w, Consume(options, answer))
    ensures Inv(start, Next(w, Consume(options, answer)))
  {
    ConsumeKeepsRest(start, w, options, answer);
    hide Next, LastSome, Agrees, Cached;
    var w' := Next(w, Consume(options, answer));
    forall id, column | id in start.db ensures id in w'.s.db && LastSome(start, w', id, column) {
      assert LastSome(start, w, id, column);
      ConsumeLastSome(start, w, options, answer, id, column);
    }
  }

  /**
   Handshake fold. In every run from a state whose cache agrees with the database: the queue is a bounded
   FIFO; each plain column holds the last value among the messages taken and written, whatever was absent,
   failed or was dropped in between; the cache agrees with the database and has every written entry.
   */
  lemma {:induction false} HandshakeFold(start: State, steps: seq<Step>)
    requires ValidRun(start, steps) && Agrees(start, {})
    ensures Inv(start, Reached(start, steps))
  {
    if steps == [] {
    } else {
      hide Inv;
      var n := |steps| - 1;
      HandshakeFold(start, steps[..n]);
      StepKeepsInv(start, Reached(start, steps[..n]), steps[n]);
    }
  }

  // ---- What a cached entry shows ----

  /** Whether the step reads the row of `id` into the cache. */
  predicate Reads(w: World, step: Step, id: Id)
    requires Enabled(w, step)
  {
    match step
    case Consume(_, answer) => answer.Shown? && w.queue[0].id == id
    case Maintain(op) => id in ReadBy(op, w.s)
    case _ => false
  }

  /** How many messages had been consumed when the row of `id` was last read. */
  function ShownUpTo(start: State, steps: seq<Step>, id: Id): nat
    requires ValidRun(start, steps)
    decreases |steps|
  {
    if steps == [] then 0
    else
      var n := |steps| - 1;
      if Reads(Reached(start, steps[..n]), steps[n], id) then |Reached(start, steps).results|
      else ShownUpTo(start, steps[..n], id)
  }

  /** The value a column had after the first `n` messages. */
  ghost function ValueAfter(start: State, w: World, id: Id, column: Column, n: nat): Option<Value>
    requires n <= |w.results| <= |w.accepted| && id in start.db
  {
    ParseText(LastWritten(w.accepted[..n], w.results[..n], id, column, Pick(start.db[id].columns, column)))
  }

  lemma PickParsed(c: Columns<Text>, column: Column)
    ensures Pick(ParseColumns(c), column) == ParseText(Pick(c, column))
  {}

  /** In the database a column has the value after all messages; so has an entry that is not stale. */
  lemma ValueNow(start: State, w: World, id: Id, column: Column)
    requires Inv(start, w) && id in start.db
    ensures id in w.s.db && ParseText(Pick(w.s.db[id].columns, column)) == ValueAfter(start, w, id, column, |w.results|)
    ensures id in w.s.rows && id !in w.stale ==>
              Pick(w.s.rows[id].handshake, column) == ValueAfter(start, w, id, column, |w.results|)
  {
    hide LastWritten, Decode, Cached, ParseColumns;
    assert LastSome(start, w, id, column);
    assert w.results[..|w.results|] == w.results;
    PickParsed(w.s.db[id].columns, column);
  }

  /** A step that does not read the row keeps the entry, and takes no message back. */
  lemma EntryStays(start: State, w: World, step: Step, id: Id)
    requires Inv(start, w) && Enabled(w, step) && !Reads(w, step, id) && id in Next(w, step).s.rows
    ensures var w' := Next(w, step);
      && id in w.s.rows && w'.s.rows[id].handshake == w.s.rows[id].handshake
      && w.results <= w'.results && w.accepted <= w'.accepted
  {
    if step.Maintain? {
      MaintainEntry(w.s, step.op, id);
    }
    hide Hydrated, Refreshed, Reloaded, Decode, LastSome, Cached, Carried, UpdatedRow;
  }

  lemma MaintainEntry(s: State, op: Op, id: Id)
    requires op.Hydrate? || op.Refresh? || op.Reload? || op.Edit?
    requires id !in ReadBy(op, s) && id in Registry.Apply(s, op).rows
    ensures id in s.rows && Registry.Apply(s, op).rows[id].handshake == s.rows[id].handshake
  {
    hide Decode, Probe;
  }

  lemma ReadIsFresh(w: World, step: Step, id: Id)
    requires Enabled(w, step) && Reads(w, step, id)
    ensures id !in Next(w, step).stale
  {
    hide HandshakeWith;
  }

  /** In every run, a cached column has the value after the messages consumed when the row was last read. */
  lemma {:induction false} EntryShowsLastRead(start: State, steps: seq<Step>, id: Id, column: Column)
    requires ValidRun(start, steps) && Agrees(start, {}) && id in Reached(start, steps).s.rows
    ensures var w := Reached(start, steps);
      var n := ShownUpTo(start, steps, id);
      && id in start.db && n <= |w.results| <= |w.accepted|
      && Pick(w.s.rows[id].handshake, column) == ValueAfter(start, w, id, column, n)
  {
    HandshakeFold(start, steps);
    EntryHasRow(start, Reached(start, steps), id);
    if steps == [] {
      ValueNow(start, Reached(start, steps), id, column);
    } else {
      var m := |steps| - 1;
      var w, w' := Reached(start, steps[..m]), Reached(start, steps);
      assert w' == Next(w, steps[m]);
      hide Next, Inv, ValueAfter, Reached, ValidRun, Reads;
      if Reads(w, steps[m], id) {
        ReadIsFresh(w, steps[m], id);
        ValueNow(start, w', id, column);
        InvFifo(start, w');
      } else {
        HandshakeFold(start, steps[..m]);
        EntryStays(start, w, steps[m], id);
        EntryShowsLastRead(start, steps[..m], id, column);
        SameValue(start, w, w', id, column, ShownUpTo(start, steps[..m], id));
        InvFifo(start, w');
      }
    }
  }

  lemma InvFifo(start: State, w: World)
    requires Inv(start, w)
    ensures |w.results| <= |w.accepted|
  {}

  lemma EntryHasRow(start: State, w: World, id: Id)
    requires Inv(start, w) && id in w.s.rows
    ensures id in start.db && id in w.s.db
  {}

  lemma SameValue(start: State, w: World, w': World, id: Id, column: Column, n: nat)
    requires n <= |w.results| <= |w.accepted| && id in start.db && |w'.results| <= |w'.accepted|
    requires w.results <= w'.results && w.accepted <= w'.accepted
    ensures ValueAfter(start, w, id, column, n) == ValueAfter(start, w', id, column, n)
  {
    assert w.results[..n] == w'.results[..n] && w.accepted[..n] == w'.accepted[..n];
  }

  /**
   Cache and database differ on a column exactly when the messages written since the row was last read
   have changed its value.
   */
  lemma StaleExactly(start: State, steps: seq<Step>, id: Id, column: Column)
    requires ValidRun(start, steps) && Agrees(start, {}) && id in Reached(start, steps).s.rows
    ensures var w := Reached(start, steps);
      var n := ShownUpTo(start, steps, id);
      && id in start.db && id in w.s.db && n <= |w.results| <= |w.accepted|
      && (Pick(w.s.rows[id].handshake, column) == ParseText(Pick(w.s.db[id].columns, column)) <==>
            ValueAfter(start, w, id, column, n) == ValueAfter(start, w, id, column, |w.results|))
  {
    HandshakeFold(start, steps);
    EntryShowsLastRead(start, steps, id, column);
    ValueNow(start, Reached(start, steps), id, column);
    hide *;
  }

  /** After draining, an entry shows the last accepted and written value exactly when that is the value it last read. */
  lemma DrainedCacheShowsLastValue(start: State, steps: seq<Step>, id: Id, column: Column)
    requires ValidRun(start, steps) && Agrees(start, {}) && Reached(start, steps).queue == []
    requires id in Reached(start, steps).s.rows
    ensures var w := Reached(start, steps);
      var n := ShownUpTo(start, steps, id);
      && |w.accepted| == |w.results| && id in start.db && n <= |w.results|
      && var last := ParseText(LastWritten(w.accepted, w.results, id, column, Pick(start.db[id].columns, column)));
         && (Pick(w.s.rows[id].handshake, column) == last <==> ValueAfter(start, w, id, column, n) == last)
         && (id !in w.stale ==> Pick(w.s.rows[id].handshake, column) == last)
  {
    HandshakeFold(start, steps);
    EntryShowsLastRead(start, steps, id, column);
    var w := Reached(start, steps);
    hide Reached, ValidRun, LastWritten, Decode, Cached, LastSome, ShownUpTo;
    ValueNow(start, w, id, column);
    assert w.accepted[..|w.results|] == w.accepted && w.results[..|w.results|] == w.results;
  }

  /** A write that cannot be read back leaves the cache behind, for every first value. */
  lemma StaleHappens(row: Row, meta: Meta, options: Options, v: Value)
    requires Decode(row) == Some(meta.(available := false, resolved := None)) && row.columns.capabilities.None?
    ensures var start := State(map["x" := row], map["x" := meta], map[]);
      var msg := Message("x", Columns(Some(v), None, None, None, None, None));
      var steps := [Send(msg), Consume(options, Stored)];
      && Agrees(start, {}) && ValidRun(start, steps)
      && var w := Reached(start, steps);
         && w.queue == [] && "x" in w.s.rows && "x" in w.s.db && !Agrees(w.s, {})
         && Pick(w.s.rows["x"].handshake, Capabilities) == None
         && ParseText(Pick(w.s.db["x"].columns, Capabilities)) == Some(v)
  {
    var start := State(map["x" := row], map["x" := meta], map[]);
    var msg := Message("x", Columns(Some(v), None, None, None, None, None));
    var send, consume := Send(msg), Consume(options, Stored);
    assert meta.handshake == ParseColumns(row.columns);
    assert Agrees(start, {});
    WriteColumn(start, options, msg, Stored, Capabilities);
    var after := StoredOnly(start, options, "x", msg.snapshot);
    PickParsed(after.db["x"].columns, Capabilities);
    PickParsed(row.columns, Capabilities);
    assert after.rows == start.rows && "x" in after.db;
    assert !Agrees(after, {});
    TwoMessages(start, msg, options);
    hide *;
  }

  lemma TwoMessages(start: State, msg: Message, options: Options)
    ensures var steps := [Send(msg), Consume(options, Stored)];
      && ValidRun(start, steps) && Reached(start, steps).queue == []
      && Reached(start, steps).s == StoredOnly(start, options, msg.id, msg.snapshot)
  {
    var send, consume := Send(msg), Consume(options, Stored);
    RunNext(start, [], send);
    assert [] + [send] == [send] && [send] + [consume] == [send, consume];
    hide StoredOnly;
    RunNext(start, [send], consume);
  }

  // ---- Drops ----

  function Sent(steps: seq<Step>): seq<Message> {
    if steps == [] then []
    else Sent(steps[..|steps| - 1]) + if steps[|steps| - 1].Send? then [steps[|steps| - 1].msg] else []
  }

  /** Whether some message was sent into a full or closed queue. */
  ghost predicate MetFullOrClosed(start: State, steps: seq<Step>)
    requires ValidRun(start, steps)
    decreases |steps|
  {
    steps != [] &&
    var n := |steps| - 1;
    MetFullOrClosed(start, steps[..n]) || (steps[n].Send? && !Accepts(Reached(start, steps[..n])))
  }

  /** Messages are lost exactly when one meets a full or closed queue; otherwise all are accepted in order. */
  lemma {:induction false} DropsExact(start: State, steps: seq<Step>)
    requires ValidRun(start, steps)
    ensures |Reached(start, steps).accepted| <= |Sent(steps)|
    ensures Reached(start, steps).accepted == Sent(steps) <==> !MetFullOrClosed(start, steps)
    ensures MetFullOrClosed(start, steps) ==> |Reached(start, steps).accepted| < |Sent(steps)|
  {
    if steps != [] {
      DropsExact(start, steps[..|steps| - 1]);
    }
  }

  /** Hydration, refresh, reload and harmless edits may come at any time; a message may fare in every way. */
  lemma NothingIsRuledOut(w: World, op: Op, options: Options, answer: Answer)
    ensures op.Hydrate? || op.Refresh? || op.Reload? ==> Enabled(w, Maintain(op))
    ensures op.Edit? && SameStored(w.s.db, op.db) ==> Enabled(w, Maintain(op))
    ensures w.queue != [] && !w.closed ==> Enabled(w, Consume(options, answer))
  {}

  /** Once the channel is closed, nothing is accepted or consumed any more. */
  lemma {:induction false} ClosedForGood(start: State, steps: seq<Step>, k: nat)
    requires ValidRun(start, steps) && k < |steps| && steps[k] == Close && ValidRun(start, steps[..k])
    ensures var w, before := Reached(start, steps), Reached(start, steps[..k]);
      w.closed && w.queue == before.queue && w.accepted == before.accepted && w.results == before.results
  {
    var n := |steps| - 1;
    if k < n {
      assert steps[..n][..k] == steps[..k];
      ClosedForGood(start, steps[..n], k);
      hide HandshakeWith;
    }
  }

  // ---- The channel and its consumer ----

  class CatalogChannel {
    const registry: AgentRegistry
    var queue: seq<Message>
    var closed: bool
    ghost const start: State
    ghost var steps: seq<Step>

    /** Channel and registry are where the recorded run leads. */
    ghost predicate Valid()
      reads this, registry
    {
      && ValidRun(start, steps)
      && var w := Reached(start, steps); w.s == registry.Value() && w.queue == queue && w.closed == closed
    }

    constructor (registry: AgentRegistry)
      ensures Valid() && queue == [] && !closed && this.registry == registry && steps == [] && start == registry.Value()
    {
      this.registry := registry;
      queue, closed, steps := [], false, [];
      start := registry.Value();
    }

    method SendPartial(id: Id, snapshot: Columns<Value>)
      requires Valid()
      modifies this`queue, this`steps
      ensures Valid() && steps == old(steps) + [Send(Message(id, snapshot))]
      ensures queue == if |old(queue)| < 256 && !closed then old(queue) + [Message(id, snapshot)] else old(queue)
    {
      var msg := Message(id, snapshot);
      RunNext(start, steps, Send(msg));
      hide Reached, ValidRun;
      steps := steps + [Send(msg)];
      if !closed && |queue| < CAPACITY {
        queue := queue + [msg];
      }
    }

    /** The consumer loop, up to the moment it finds the queue empty; `answers` are the repository's answers. */
    method Drain(options: Options, answers: seq<Answer>)
      requires Valid() && !closed && |answers| == |queue|
      modifies this`queue, this`steps, registry
      ensures Valid() && queue == []
      ensures var w, before := Reached(start, steps), Reached(start, old(steps));
        w.results == before.results + answers && w.accepted == before.accepted
    {
      hide Reached, ValidRun, HandshakeWith;
      var k := 0;
      ghost var before := Reached(start, steps);
      while queue != []
        invariant Valid() && !closed && k <= |answers| && |queue| == |answers| - k
        invariant Reached(start, steps).results == before.results + answers[..k] && Reached(start, steps).accepted == before.accepted
        decreases |queue|
      {
        RunNext(start, steps, Consume(options, answers[k]));
        assert answers[..k + 1] == answers[..k] + [answers[k]];
        var msg := queue[0];
        queue := queue[1..];
        steps := steps + [Consume(options, answers[k])];
        registry.ApplyHandshakeInner(msg.id, options, msg.snapshot, answers[k]);
        k := k + 1;
      }
      assert answers[..k] == answers;
    }
  }
}
