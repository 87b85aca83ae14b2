/**
 The conversation runtime context in an agent's environment: eight managed variables, four canonical
 names and their four legacy names, are taken out and written anew.
 */
module RuntimeEnv {
  import opened Basics
  import opened Admission

  datatype Entry = Entry(key: string, value: string)

  const CORE_USER := "CENTAURAI_CORE_USER_ID"
  const CORE_CONVERSATION := "CENTAURAI_CORE_CONVERSATION_ID"
  const CORE_HELPER := "CENTAURAI_CORE_HELPER_BIN"
  const CORE_BASE_URL := "CENTAURAI_CORE_BASE_URL"
  const LEGACY_USER := "AIONUI_USER_ID"
  const LEGACY_CONVERSATION := "AIONUI_CONVERSATION_ID"
  const LEGACY_HELPER := "AIONUI_HELPER_BIN"
  const LEGACY_BASE_URL := "AIONUI_BASE_URL"
  const CONTEXT_VERSION: nat := 3

  predicate IsManaged(key: string) {
    || key == CORE_USER || key == CORE_CONVERSATION || key == CORE_HELPER || key == CORE_BASE_URL
    || key == LEGACY_USER || key == LEGACY_CONVERSATION || key == LEGACY_HELPER || key == LEGACY_BASE_URL
  }

  datatype Context = Context(user: string, conversation: string, helper: Option<string>, baseUrl: Option<string>)

  function Retained(env: seq<Entry>): seq<Entry> {
    if env == [] then []
    else
      var n := |env| - 1;
      Retained(env[..n]) + if IsManaged(env[n].key) then [] else [env[n]]
  }

  function Both(canonical: string, legacy: string, value: Option<string>): seq<Entry> {
    if value.Some? then [Entry(canonical, value.value), Entry(legacy, value.value)] else []
  }

  function Pushed(c: Context): seq<Entry> {
    [Entry(CORE_USER, c.user), Entry(CORE_CONVERSATION, c.conversation),
     Entry(LEGACY_USER, c.user), Entry(LEGACY_CONVERSATION, c.conversation)]
    + Both(CORE_HELPER, LEGACY_HELPER, c.helper) + Both(CORE_BASE_URL, LEGACY_BASE_URL, c.baseUrl)
  }

  function Applied(env: seq<Entry>, c: Context): seq<Entry> { Retained(env) + Pushed(c) }

  /** The values listed for a key, in order. */
  function Values(env: seq<Entry>, key: string): seq<string> {
    if env == [] then []
    else
      var n := |env| - 1;
      Values(env[..n], key) + if env[n].key == key then [env[n].value] else []
  }

  /** What the context says about a managed key. */
  function Wanted(c: Context, key: string): seq<string> {
    if key == CORE_USER || key == LEGACY_USER then [c.user]
    else if key == CORE_CONVERSATION || key == LEGACY_CONVERSATION then [c.conversation]
    else if key == CORE_HELPER || key == LEGACY_HELPER then if c.helper.Some? then [c.helper.value] else []
    else if c.baseUrl.Some? then [c.baseUrl.value] else []
  }

  /** The eight names are pairwise different. */
  lemma KeysDiffer(key: string)
    ensures key == CORE_USER ==> key != CORE_CONVERSATION && key != LEGACY_USER
    ensures key == CORE_USER || key == LEGACY_USER ==> key != CORE_CONVERSATION && key != LEGACY_CONVERSATION
    ensures key == CORE_CONVERSATION ==> key != LEGACY_CONVERSATION
    ensures key == CORE_USER || key == LEGACY_USER || key == CORE_CONVERSATION || key == LEGACY_CONVERSATION ==>
              key != CORE_HELPER && key != LEGACY_HELPER && key != CORE_BASE_URL && key != LEGACY_BASE_URL
    ensures key == CORE_HELPER || key == LEGACY_HELPER ==> key != CORE_BASE_URL && key != LEGACY_BASE_URL
    ensures CORE_HELPER != LEGACY_HELPER && CORE_BASE_URL != LEGACY_BASE_URL
  {
    assert CORE_USER[0] != LEGACY_CONVERSATION[0];
    assert |CORE_USER| == 22 && |CORE_CONVERSATION| == 30 && |CORE_HELPER| == 25 && |CORE_BASE_URL| == 23;
    assert |LEGACY_USER| == 14 && |LEGACY_CONVERSATION| == 22 && |LEGACY_HELPER| == 17 && |LEGACY_BASE_URL| == 15;
  }

  lemma {:induction false} RetainedConcat(a: seq<Entry>, b: seq<Entry>)
    ensures Retained(a + b) == Retained(a) + Retained(b)
  {
    if b == [] {
      assert a + b == a;
    } else {
      assert (a + b)[..|a + b| - 1] == a + b[..|b| - 1];
      RetainedConcat(a, b[..|b| - 1]);
    }
  }

  lemma {:induction false} ValuesConcat(a: seq<Entry>, b: seq<Entry>, key: string)
    ensures Values(a + b, key) == Values(a, key) + Values(b, key)
  {
    if b == [] {
      assert a + b == a;
    } else {
      assert (a + b)[..|a + b| - 1] == a + b[..|b| - 1];
      ValuesConcat(a, b[..|b| - 1], key);
    }
  }

  lemma {:induction false} AllManaged(env: seq<Entry>)
    requires forall e :: e in env ==> IsManaged(e.key)
    ensures Retained(env) == []
  {
    if env != [] { AllManaged(env[..|env| - 1]); }
  }

  lemma {:induction false} RetainedExact(env: seq<Entry>, key: string)
    ensures Values(Retained(env), key) == if IsManaged(key) then [] else Values(env, key)
    ensures Retained(Retained(env)) == Retained(env)
  {
    if env != [] {
      var n := |env| - 1;
      RetainedExact(env[..n], key);
      var last, kept := [env[n]], Retained(env[..n]);
      hide IsManaged;
      assert last[..0] == [];
      assert Values(last, key) == if env[n].key == key then [env[n].value] else [];
      if IsManaged(env[n].key) {
        assert Retained(env) == kept;
      } else {
        assert Retained(last) == last;
        ValuesConcat(kept, last, key);
        RetainedConcat(kept, last);
      }
    }
  }

  lemma PairValues(canonical: string, legacy: string, value: Option<string>, key: string)
    requires canonical != legacy
    ensures Values(Both(canonical, legacy, value), key)
         == if value.Some? && (key == canonical || key == legacy) then [value.value] else []
  {
    var pair := Both(canonical, legacy, value);
    if value.Some? {
      assert pair[..1] == [pair[0]] && pair[..1][..0] == [];
      assert Values(pair[..1], key) == if pair[0].key == key then [value.value] else [];
    }
  }

  lemma PushedValues(c: Context, key: string)
    ensures Values(Pushed(c), key) == if IsManaged(key) then Wanted(c, key) else []
  {
    hide CORE_USER, CORE_CONVERSATION, CORE_HELPER, CORE_BASE_URL,
         LEGACY_USER, LEGACY_CONVERSATION, LEGACY_HELPER, LEGACY_BASE_URL, Values;
    KeysDiffer(key);
    var users := [Entry(CORE_USER, c.user), Entry(CORE_CONVERSATION, c.conversation)];
    var legacy := [Entry(LEGACY_USER, c.user), Entry(LEGACY_CONVERSATION, c.conversation)];
    var helper, base := Both(CORE_HELPER, LEGACY_HELPER, c.helper), Both(CORE_BASE_URL, LEGACY_BASE_URL, c.baseUrl);
    assert Pushed(c) == ((users + legacy) + helper) + base;
    TwoValues(CORE_USER, c.user, CORE_CONVERSATION, c.conversation, key);
    TwoValues(LEGACY_USER, c.user, LEGACY_CONVERSATION, c.conversation, key);
    PairValues(CORE_HELPER, LEGACY_HELPER, c.helper, key);
    PairValues(CORE_BASE_URL, LEGACY_BASE_URL, c.baseUrl, key);
    ValuesConcat((users + legacy) + helper, base, key);
    ValuesConcat(users + legacy, helper, key);
    ValuesConcat(users, legacy, key);
  }

  lemma TwoValues(a: string, x: string, b: string, y: string, key: string)
    ensures Values([Entry(a, x), Entry(b, y)], key)
         == (if key == a then [x] else []) + (if key == b then [y] else [])
  {
    var pair := [Entry(a, x), Entry(b, y)];
    assert pair[..1] == [pair[0]] && pair[..1][..0] == [];
    assert Values(pair[..1], key) == if key == a then [x] else [];
  }

  /**
   The variables after an application: a managed key has exactly the value of the context, once, under its
   canonical and its legacy name alike, or none; any other key keeps its values.
   */
  lemma AppliedValues(env: seq<Entry>, c: Context, key: string)
    ensures Values(Applied(env, c), key) == if IsManaged(key) then Wanted(c, key) else Values(env, key)
  {
    RetainedExact(env, key);
    PushedValues(c, key);
    ValuesConcat(Retained(env), Pushed(c), key);
  }

  /** The same by name. */
  lemma AppliedByName(env: seq<Entry>, c: Context, key: string)
    ensures var after := Applied(env, c);
      var helper := if c.helper.Some? then [c.helper.value] else [];
      var url := if c.baseUrl.Some? then [c.baseUrl.value] else [];
      && (key == "CENTAURAI_CORE_USER_ID" || key == "AIONUI_USER_ID" ==> Values(after, key) == [c.user])
      && (key == "CENTAURAI_CORE_CONVERSATION_ID" || key == "AIONUI_CONVERSATION_ID" ==> Values(after, key) == [c.conversation])
      && (key == "CENTAURAI_CORE_HELPER_BIN" || key == "AIONUI_HELPER_BIN" ==> Values(after, key) == helper)
      && (key == "CENTAURAI_CORE_BASE_URL" || key == "AIONUI_BASE_URL" ==> Values(after, key) == url)
      && var names := {"CENTAURAI_CORE_USER_ID", "AIONUI_USER_ID", "CENTAURAI_CORE_CONVERSATION_ID", "AIONUI_CONVERSATION_ID",
                       "CENTAURAI_CORE_HELPER_BIN", "AIONUI_HELPER_BIN", "CENTAURAI_CORE_BASE_URL", "AIONUI_BASE_URL"};
         (key !in names ==> Values(after, key) == Values(env, key))
  {
    AppliedValues(env, c, key);
    KeysDiffer(key);
    assert CORE_USER == "CENTAURAI_CORE_USER_ID" && LEGACY_USER == "AIONUI_USER_ID";
    assert CORE_CONVERSATION == "CENTAURAI_CORE_CONVERSATION_ID" && LEGACY_CONVERSATION == "AIONUI_CONVERSATION_ID";
    assert CORE_HELPER == "CENTAURAI_CORE_HELPER_BIN" && LEGACY_HELPER == "AIONUI_HELPER_BIN";
    assert CORE_BASE_URL == "CENTAURAI_CORE_BASE_URL" && LEGACY_BASE_URL == "AIONUI_BASE_URL";
    hide Applied, Values, CORE_USER, CORE_CONVERSATION, CORE_HELPER, CORE_BASE_URL,
         LEGACY_USER, LEGACY_CONVERSATION, LEGACY_HELPER, LEGACY_BASE_URL;
  }

  lemma PushedManaged(c: Context)
    ensures Retained(Pushed(c)) == []
  {
    forall e | e in Pushed(c) ensures IsManaged(e.key) {
      assert e in [Entry(CORE_USER, c.user), Entry(CORE_CONVERSATION, c.conversation),
                   Entry(LEGACY_USER, c.user), Entry(LEGACY_CONVERSATION, c.conversation)]
             || e in Both(CORE_HELPER, LEGACY_HELPER, c.helper)
             || e in Both(CORE_BASE_URL, LEGACY_BASE_URL, c.baseUrl);
    }
    AllManaged(Pushed(c));
  }

  /** An application absorbs an earlier one, and the unmanaged entries are its prefix, in their order. */
  lemma LaterAbsorbs(env: seq<Entry>, first: Context, second: Context)
    ensures Applied(Applied(env, first), second) == Applied(env, second)
    ensures Retained(env) <= Applied(env, first) && Retained(Applied(env, first)) == Retained(env)
  {
    RetainedConcat(Retained(env), Pushed(first));
    PushedManaged(first);
    RetainedExact(env, "");
  }

  class BuildTaskOptions {
    var runtimeEnv: seq<Entry>
    var capabilities: RuntimeCapabilities

    constructor (env: seq<Entry>)
      ensures runtimeEnv == env && capabilities == RuntimeCapabilities(None)
    {
      runtimeEnv, capabilities := env, RuntimeCapabilities(None);
    }

    method Push(key: string, value: string)
      modifies this`runtimeEnv
      ensures runtimeEnv == old(runtimeEnv) + [Entry(key, value)]
    {
      runtimeEnv := runtimeEnv + [Entry(key, value)];
    }

    method RetainUnmanaged()
      modifies this`runtimeEnv
      ensures runtimeEnv == Retained(old(runtimeEnv))
    {
      var env := runtimeEnv;
      var kept: seq<Entry> := [];
      for k := 0 to |env|
        invariant kept == Retained(env[..k]) && runtimeEnv == env
      {
        assert env[..k + 1][..k] == env[..k];
        if !IsManaged(env[k].key) {
          kept := kept + [env[k]];
        }
      }
      assert env[..|env|] == env;
      runtimeEnv := kept;
    }

    method ApplyConversationRuntimeContext(user: string, conversation: string, helper: Option<string>, baseUrl: Option<string>)
      modifies this
      ensures runtimeEnv == Applied(old(runtimeEnv), Context(user, conversation, helper, baseUrl))
      ensures capabilities == RuntimeCapabilities(Some(3))
    {
      hide Retained, CORE_USER, CORE_CONVERSATION, CORE_HELPER, CORE_BASE_URL,
           LEGACY_USER, LEGACY_CONVERSATION, LEGACY_HELPER, LEGACY_BASE_URL;
      RetainUnmanaged();
      ghost var kept := runtimeEnv;
      Push(CORE_USER, user);
      Push(CORE_CONVERSATION, conversation);
      Push(LEGACY_USER, user);
      Push(LEGACY_CONVERSATION, conversation);
      ghost var base := kept + [Entry(CORE_USER, user), Entry(CORE_CONVERSATION, conversation),
                                Entry(LEGACY_USER, user), Entry(LEGACY_CONVERSATION, conversation)];
      assert runtimeEnv == base;
      if helper.Some? {
        Push(CORE_HELPER, helper.value);
        Push(LEGACY_HELPER, helper.value);
      }
      assert runtimeEnv == base + Both(CORE_HELPER, LEGACY_HELPER, helper);
      if baseUrl.Some? {
        Push(CORE_BASE_URL, baseUrl.value);
        Push(LEGACY_BASE_URL, baseUrl.value);
      }
      capabilities := RuntimeCapabilities(Some(CONTEXT_VERSION));
    }
  }
}
