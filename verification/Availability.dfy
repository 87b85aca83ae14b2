/**
 From a database row to a catalog entry and its availability. What the host offers (programs on the
 path, the managed Node runtime and tools) is a parameter.
 */
module Availability {
  import opened Basics
  import opened Admission

  datatype Source = Internal | Builtin | Extension | Custom

  datatype Reason =
    | Disabled
    | NoCommand
    | BridgeMissing(bridge: string)
    | PrimaryMissing(binary: string)
    | CommandMissing(command: string)
    | ManagedRuntimeUnavailable(resource: string, detail: string)

  /** `node` and `tool` give the detail of a missing runtime; `locate` resolves a command to a path. */
  datatype Env = Env(locate: string -> Option<string>, node: Option<string>, tool: string -> Option<string>)

  /** The error codes that the cached projection recognises. */
  datatype ErrorCode =
    | CodeCommandNotFound | CodeCommandMissing | CodePrimaryMissing | CodeBridgeMissing
    | CodeManagedRuntime | CodeNoCommand | CodeDisabled | CodeOther(code: string)

  datatype Checks = Checks(status: Option<bool>, kind: Option<nat>, errorCode: Option<ErrorCode>,
                           errorMessage: Option<string>, checkedAt: Option<int>, successAt: Option<int>,
                           failureAt: Option<int>)
  {
    predicate Any() {
      status.Some? || kind.Some? || errorCode.Some? || checkedAt.Some? || successAt.Some? || failureAt.Some?
    }

    predicate SaysMissing() { errorCode.Some? && !errorCode.value.CodeOther? }
  }

  type Value = string
  datatype Text = Json(value: Value) | Malformed(raw: string)

  datatype Columns<T> = Columns(capabilities: Option<T>, auth: Option<T>, config: Option<T>, modes: Option<T>,
                                models: Option<T>, commands: Option<T>)

  /** A database row; type and source are None when their column does not parse. */
  datatype Row = Row(kind: Option<AgentType>, source: Option<Source>, enabled: bool, command: Option<string>,
                     commandOverride: Option<string>, backend: Option<string>, bridge: Option<string>,
                     binary: Option<string>, checks: Checks, columns: Columns<Text>)

  datatype Meta = Meta(kind: AgentType, source: Source, enabled: bool, available: bool, command: Option<string>,
                       resolved: Option<string>, backend: Option<string>, bridge: Option<string>,
                       binary: Option<string>, checks: Checks, handshake: Columns<Value>)

  function ParseText(text: Option<Text>): Option<Value> {
    if text.Some? && text.value.Json? then Some(text.value.value) else None
  }

  function ParseColumns(c: Columns<Text>): Columns<Value> {
    Columns(ParseText(c.capabilities), ParseText(c.auth), ParseText(c.config), ParseText(c.modes),
            ParseText(c.models), ParseText(c.commands))
  }

  /** The entry before its availability is known. */
  function Decode(row: Row): Option<Meta> {
    if row.kind.None? || row.source.None? then None
    else
      var internalCli := row.kind.value.Aionrs? && row.source.value.Internal?;
      var command := if internalCli then None
                     else if row.commandOverride.Some? then row.commandOverride else row.command;
      Some(Meta(row.kind.value, row.source.value, row.enabled, false, command, None, row.backend, row.bridge,
                row.binary, row.checks, ParseColumns(row.columns)))
  }

  /** The slug of the managed tool that serves a backend. */
  function ManagedTool(backend: Option<string>): Option<string> {
    match backend
    case Some(name) =>
      if name == "codex" then Some("codex-acp") else if name == "claude" then Some("claude-agent-acp") else None
    case None => None
  }

  predicate Managed(meta: Meta) { meta.source.Builtin? && ManagedTool(meta.backend).Some? }

  predicate Commandless(meta: Meta) { meta.enabled && meta.command.None? && meta.source.Internal? }

  predicate HasCommand(meta: Meta) { meta.command.Some? && meta.command.value != "" }

  datatype Probed = Found(path: string) | Lacking(reason: Reason)

  function Probe(env: Env, meta: Meta): Probed {
    if !meta.enabled then Lacking(Disabled)
    else if Managed(meta) then
      var slug := ManagedTool(meta.backend).value;
      if env.node.Some? then Lacking(ManagedRuntimeUnavailable("node", env.node.value))
      else if env.tool(slug).Some? then Lacking(ManagedRuntimeUnavailable(slug, env.tool(slug).value))
      else if meta.binary.Some? && env.locate(meta.binary.value).None? then Lacking(PrimaryMissing(meta.binary.value))
      else Found(slug)
    else if !HasCommand(meta) then Lacking(NoCommand)
    else
      var cmd := meta.command.value;
      if meta.bridge.Some? && meta.bridge.value != cmd && env.locate(meta.bridge.value).None? then
        Lacking(BridgeMissing(meta.bridge.value))
      else if meta.binary.Some? && meta.binary.value != cmd && meta.bridge != meta.binary
              && env.locate(meta.binary.value).None? then
        Lacking(PrimaryMissing(meta.binary.value))
      else if env.locate(cmd).None? then Lacking(CommandMissing(cmd))
      else Found(env.locate(cmd).value)
  }

  /** The programs an entry needs on the host. */
  function Required(meta: Meta): set<string> {
    (if Managed(meta) || meta.command.None? then {} else {meta.command.value})
    + (if Managed(meta) || meta.bridge.None? then {} else {meta.bridge.value})
    + (if meta.binary.None? then {} else {meta.binary.value})
  }

  predicate Blames(env: Env, meta: Meta, reason: Reason) {
    match reason
    case Disabled => !meta.enabled
    case NoCommand => !HasCommand(meta)
    case BridgeMissing(bridge) => meta.bridge == Some(bridge) && env.locate(bridge).None?
    case PrimaryMissing(binary) => meta.binary == Some(binary) && env.locate(binary).None?
    case CommandMissing(command) => meta.command == Some(command) && env.locate(command).None?
    case ManagedRuntimeUnavailable(resource, detail) =>
      if resource == "node" then env.node == Some(detail)
      else ManagedTool(meta.backend) == Some(resource) && env.tool(resource) == Some(detail)
  }

  /**
   The early returns skip some lookups, yet a probe succeeds exactly when the row is enabled and everything
   it requires is there; when it fails, the reason names something that is really missing.
   */
  lemma ProbeExact(env: Env, meta: Meta)
    ensures Probe(env, meta).Found? <==>
              && meta.enabled
              && (if Managed(meta) then env.node.None? && env.tool(ManagedTool(meta.backend).value).None?
                  else HasCommand(meta))
              && forall program :: program in Required(meta) ==> env.locate(program).Some?
    ensures Probe(env, meta).Lacking? ==> Blames(env, meta, Probe(env, meta).reason)
  {
    if Probe(env, meta).Lacking? {
      var reason := Probe(env, meta).reason;
      if reason.BridgeMissing? { assert reason.bridge in Required(meta); }
      if reason.PrimaryMissing? { assert reason.binary in Required(meta); }
      if reason.CommandMissing? { assert reason.command in Required(meta); }
      if reason.ManagedRuntimeUnavailable? { assert ManagedTool(meta.backend).value != "node"; }
    }
  }

  function WithProbe(env: Env, meta: Meta): (Meta, Option<Reason>) {
    var probed := Probe(env, meta);
    var resolved := if probed.Found? then Some(probed.path) else None;
    var available := resolved.Some? || Commandless(meta);
    (meta.(resolved := resolved, available := available),
     if available || probed.Found? then None else Some(probed.reason))
  }

  function CachedReason(meta: Meta): Option<Reason> {
    if meta.checks.errorCode.None? then None
    else
      match meta.checks.errorCode.value
      case CodeDisabled => Some(Disabled)
      case CodeNoCommand => Some(NoCommand)
      case CodeBridgeMissing => if meta.bridge.Some? then Some(BridgeMissing(meta.bridge.value)) else None
      case CodePrimaryMissing => if meta.binary.Some? then Some(PrimaryMissing(meta.binary.value)) else None
      case CodeCommandNotFound => Some(CommandMissing(CommandName(meta)))
      case CodeCommandMissing => Some(CommandMissing(CommandName(meta)))
      case CodeManagedRuntime =>
        Some(ManagedRuntimeUnavailable(
          if meta.backend.Some? then meta.backend.value else "runtime",
          if meta.checks.errorMessage.Some? then meta.checks.errorMessage.value
          else "managed runtime was unavailable during the last health check"))
      case CodeOther(_) => None
  }

  function CommandName(meta: Meta): string {
    if meta.binary.Some? then meta.binary.value else if meta.command.Some? then meta.command.value else "command"
  }

  function WithCache(meta: Meta): (Meta, Option<Reason>) {
    if !meta.enabled then (meta.(available := false), Some(Disabled))
    else if Commandless(meta) then (meta.(available := true), None)
    else if meta.checks.SaysMissing() then (meta.(available := false), CachedReason(meta))
    else if !meta.checks.Any() then
      (meta.(available := false), if !Managed(meta) && !HasCommand(meta) then Some(NoCommand) else None)
    else (meta.(available := true), None)
  }

  /** Entries that the cached projection marks unavailable without being able to say why. */
  predicate Unexplained(meta: Meta) {
    && meta.enabled && !Commandless(meta)
    && (|| (meta.checks.errorCode == Some(CodeBridgeMissing) && meta.bridge.None?)
        || (meta.checks.errorCode == Some(CodePrimaryMissing) && meta.binary.None?)
        || (!meta.checks.Any() && (Managed(meta) || HasCommand(meta))))
  }

  /** Entries whose persisted snapshot says that they can be used. */
  predicate SnapshotUsable(meta: Meta) {
    meta.enabled && (Commandless(meta) || (meta.checks.Any() && !meta.checks.SaysMissing()))
  }

  /** A probe always explains itself; the cached projection does except for the unexplained entries. */
  lemma ProjectionsExplain(env: Env, meta: Meta)
    ensures WithProbe(env, meta).0.available <==> WithProbe(env, meta).1.None?
    ensures WithCache(meta).0.available <==> SnapshotUsable(meta)
    ensures WithCache(meta).0.available ==> WithCache(meta).1.None?
    ensures !WithCache(meta).0.available && WithCache(meta).1.None? <==> Unexplained(meta)
  {}

  /** The code under which a reason is stored and reported. */
  function CodeOf(reason: Reason): ErrorCode {
    match reason
    case Disabled => CodeDisabled
    case NoCommand => CodeNoCommand
    case BridgeMissing(_) => CodeBridgeMissing
    case PrimaryMissing(_) => CodePrimaryMissing
    case CommandMissing(_) => CodeCommandMissing
    case ManagedRuntimeUnavailable(_, _) => CodeManagedRuntime
  }

  /**
   The reason told from a stored code has that code again (a command not found counts as missing), and names
   the program, backend or message of the entry itself.
   */
  lemma CachedReasonExact(meta: Meta)
    requires meta.checks.errorCode.Some?
    ensures var code, reason := meta.checks.errorCode.value, CachedReason(meta);
      && (reason.Some? ==> CodeOf(reason.value) == if code == CodeCommandNotFound then CodeCommandMissing else code)
      && (reason.None? <==> code.CodeOther? || (code == CodeBridgeMissing && meta.bridge.None?)
                            || (code == CodePrimaryMissing && meta.binary.None?))
    ensures match CachedReason(meta)
      case Some(BridgeMissing(bridge)) => meta.bridge == Some(bridge)
      case Some(PrimaryMissing(binary)) => meta.binary == Some(binary)
      case Some(CommandMissing(command)) =>
        meta.binary == Some(command) || (meta.binary.None? && meta.command == Some(command))
        || (meta.binary.None? && meta.command.None? && command == "command")
      case Some(ManagedRuntimeUnavailable(resource, detail)) =>
        (meta.backend == Some(resource) || (meta.backend.None? && resource == "runtime"))
        && (meta.checks.errorMessage.Some? ==> detail == meta.checks.errorMessage.value)
      case _ => true
  {}

  /** The cached projection on fields. */
  lemma CachedOnFields(meta: Meta)
    ensures var checks := meta.checks;
      WithCache(meta).0.available <==>
        && meta.enabled
        && ((meta.command == None && meta.source == Internal)
            || ((checks.status != None || checks.kind != None || checks.errorCode != None || checks.checkedAt != None
                 || checks.successAt != None || checks.failureAt != None)
                && (checks.errorCode == None || checks.errorCode.value.CodeOther?)))
    ensures WithCache(meta).0 == meta.(available := WithCache(meta).0.available)
    ensures !meta.enabled ==> WithCache(meta).1 == Some(Disabled)
  {}

  /** What an entry shows of its row. */
  predicate Shows(meta: Meta, row: Row) {
    && Some(meta.kind) == row.kind && Some(meta.source) == row.source && meta.enabled == row.enabled
    && meta.backend == row.backend && meta.bridge == row.bridge && meta.binary == row.binary && meta.checks == row.checks
    && meta.command == (if row.kind == Some(Aionrs) && row.source == Some(Internal) then None
                        else if row.commandOverride.Some? then row.commandOverride else row.command)
    && Parses(meta.handshake.capabilities, row.columns.capabilities) && Parses(meta.handshake.auth, row.columns.auth)
    && Parses(meta.handshake.config, row.columns.config) && Parses(meta.handshake.modes, row.columns.modes)
    && Parses(meta.handshake.models, row.columns.models) && Parses(meta.handshake.commands, row.columns.commands)
  }

  /** A stored JSON text shows as its value, a malformed or absent one not at all. */
  predicate Parses(value: Option<Value>, text: Option<Text>) {
    match value
    case Some(v) => text == Some(Json(v))
    case None => text.None? || text.value.Malformed?
  }

  lemma DecodeShows(row: Row)
    ensures Decode(row).Some? <==> row.kind.Some? && row.source.Some?
    ensures Decode(row).Some? ==> Shows(Decode(row).value, row)
  {}

  /** What a probe adds: nothing but availability and path. */
  lemma ProbeOnFields(env: Env, meta: Meta)
    ensures var m := WithProbe(env, meta).0;
      var slug := if meta.source != Builtin then None
                  else if meta.backend == Some("codex") then Some("codex-acp")
                  else if meta.backend == Some("claude") then Some("claude-agent-acp") else None;
      && m == meta.(available := m.available, resolved := m.resolved)
      && (m.available <==> m.resolved.Some? || (meta.enabled && meta.command == None && meta.source == Internal))
      && (!meta.enabled ==> m.resolved == None)
      && (meta.enabled && slug.Some? ==>
            m.resolved == if env.node == None && env.tool(slug.value) == None
                             && (meta.binary.Some? ==> env.locate(meta.binary.value).Some?) then slug else None)
      && (meta.enabled && slug.None? ==>
            m.resolved == if meta.command.Some? && meta.command.value != ""
                             && (meta.bridge.Some? ==> env.locate(meta.bridge.value).Some?)
                             && (meta.binary.Some? ==> env.locate(meta.binary.value).Some?)
                          then env.locate(meta.command.value) else None)
  {}
}
