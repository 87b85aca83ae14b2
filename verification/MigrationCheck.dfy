/**
 The before/after comparison of a database migration. A table is known by its row count and the set of
 its row keys; an audit by its tables, its credential counts and three integrity results.
 */
module MigrationCheck {
  import opened Basics

  type Key = string

  datatype Table = Table(rows: nat, keys: set<Key>)

  datatype Audit = Audit(quickCheck: string, violations: nat, orphans: seq<nat>, tables: map<string, Table>,
                         credentials: map<string, nat>)

  const CRITICAL: seq<string> :=
    ["users", "system_settings", "client_preferences", "providers", "conversations", "messages", "assistants",
     "assistant_definitions", "assistant_overlays", "assistant_preferences", "teams", "mailbox", "team_tasks",
     "cron_jobs", "mcp_servers", "remote_agents", "skills", "acp_session"]

  /** Keys are compared as JSON arrays of the key columns. */
  const EXPECTED_REMOVED: map<string, set<Key>> :=
    map["client_preferences" := {"[\"acp.config\"]", "[\"aionrs.config\"]", "[\"codex.config\"]", "[\"acp.cachedModes\"]",
                                 "[\"acp.cachedInitializeResult\"]", "[\"acp.cached_config_options\"]"}]

  function Removable(table: string): set<Key> {
    if table in EXPECTED_REMOVED then EXPECTED_REMOVED[table] else {}
  }

  // ---- One table ----

  /** The check of one table; `after` is None when the table is gone, and then it has no keys either. */
  predicate Preserved(before: Table, after: Option<Table>, removable: set<Key>) {
    var missing := before.keys - if after.Some? then after.value.keys else {};
    && after.Some?
    && after.value.rows >= before.rows - |missing * removable|
    && missing - removable == {}
  }

  /** Every row has a key of its own. */
  predicate UniqueKeys(t: Table) { t.rows == |t.keys| }

  /** A passing check means what it should: no key outside the expected ones is lost. */
  lemma PreservedSound(before: Table, after: Option<Table>, removable: set<Key>)
    requires Preserved(before, after, removable)
    ensures after.Some? && before.keys - removable <= after.value.keys
    ensures before.rows <= after.value.rows + |removable|
  {
    var missing := before.keys - after.value.keys;
    forall key | key in before.keys - removable ensures key in after.value.keys {
      assert key !in missing - removable;
    }
    CardSubset(missing * removable, removable);
  }

  /** With unique keys the key clause decides: the count clause follows from it. */
  lemma UniqueKeysDecide(before: Table, after: Table, removable: set<Key>)
    requires UniqueKeys(before) && UniqueKeys(after)
    ensures Preserved(before, Some(after), removable) <==> before.keys - removable <= after.keys
  {
    var missing := before.keys - after.keys;
    if before.keys - removable <= after.keys {
      assert missing * removable == missing;
      assert before.keys == missing + before.keys * after.keys;
      CardSubset(before.keys * after.keys, after.keys);
    }
    if Preserved(before, Some(after), removable) {
      PreservedSound(before, Some(after), removable);
    }
  }

  /** The check composes over successive upgrades when row keys are unique. */
  lemma PreservedComposes(a: Table, b: Table, c: Table, removable: set<Key>)
    requires UniqueKeys(a) && UniqueKeys(b) && UniqueKeys(c)
    requires Preserved(a, Some(b), removable) && Preserved(b, Some(c), removable)
    ensures Preserved(a, Some(c), removable)
  {
    UniqueKeysDecide(a, b, removable);
    UniqueKeysDecide(b, c, removable);
    UniqueKeysDecide(a, c, removable);
  }

  // ---- When do two passing checks compose, without unique keys? ----

  /** Rows may share a key, but a key needs a row. */
  predicate Real(t: Table) { |t.keys| <= t.rows }

  /** Removable keys that the first upgrade dropped. */
  function Dropped(a: Table, b: Table, removable: set<Key>): set<Key> { (a.keys - b.keys) * removable }

  /** Removable keys that the first upgrade introduced. */
  function Introduced(a: Table, b: Table, removable: set<Key>): set<Key> { b.keys * removable - a.keys }

  function Min(x: nat, y: nat): nat { if x <= y then x else y }

  /**
   Each introduced removable key may be dropped again for free, and each dropped one may return without a
   row of its own where `b` holds duplicates; the first upgrade must have left room for both.
   */
  predicate LeavesRoom(a: Table, b: Table, removable: set<Key>)
    requires Real(b)
  {
    a.rows + |Introduced(a, b, removable)| + Min(b.rows - |b.keys|, |Dropped(a, b, removable)|)
    <= b.rows + |Dropped(a, b, removable)|
  }

  lemma RoomSuffices(a: Table, b: Table, c: Table, removable: set<Key>)
    requires Real(b) && Real(c) && LeavesRoom(a, b, removable)
    requires Preserved(a, Some(b), removable) && Preserved(b, Some(c), removable)
    ensures Preserved(a, Some(c), removable)
  {
    var lost := b.keys - c.keys;
    var dropped, introduced := Dropped(a, b, removable), Introduced(a, b, removable);
    var back := dropped * c.keys;
    var missing := a.keys - c.keys;
    assert lost * removable == lost by { Within(lost, removable); }
    assert missing - removable == {} by {
      PreservedSound(a, Some(b), removable);
      PreservedSound(b, Some(c), removable);
    }
    assert |missing * removable| == |dropped| - |back| + |lost * a.keys| by {
      CardSplit(dropped, c.keys);
      assert missing * removable == (dropped - c.keys) + lost * a.keys;
      assert (dropped - c.keys) * (lost * a.keys) == {};
    }
    assert |lost - a.keys| <= |introduced| by { CardSubset(lost - a.keys, introduced); }
    CardSplit(lost, a.keys);
    assert |c.keys| >= |b.keys| - |lost| + |back| by {
      CardSplit(b.keys, c.keys);
      assert (b.keys * c.keys) * back == {};
      CardSubset(b.keys * c.keys + back, c.keys);
    }
    assert |back| <= |dropped| by { CardSubset(back, dropped); }
    RoomArithmetic(a.rows, b.rows, c.rows, |b.keys|, |c.keys|, |dropped|, |introduced|, |back|, |lost|,
                   |lost * a.keys|, |lost - a.keys|);
  }

  lemma RoomArithmetic(a: nat, b: nat, c: nat, bKeys: nat, cKeys: nat, dropped: nat, introduced: nat, back: nat,
                       lost: nat, lostOld: nat, lostNew: nat)
    requires bKeys <= b && cKeys <= c && back <= dropped && lost == lostOld + lostNew && lostNew <= introduced
    requires a + introduced + Min(b - bKeys, dropped) <= b + dropped
    requires c >= b - lost && cKeys >= bKeys - lost + back
    ensures c >= a - (dropped - back + lostOld)
  {}

  lemma RoomIsNeeded(a: Table, b: Table, removable: set<Key>) returns (c: Table)
    requires Real(b) && Preserved(a, Some(b), removable)
    ensures Real(c) && Preserved(b, Some(c), removable)
    ensures Preserved(a, Some(c), removable) ==> LeavesRoom(a, b, removable)
  {
    var dropped, introduced := Dropped(a, b, removable), Introduced(a, b, removable);
    var back := SubsetOfSize(dropped, Min(b.rows - |b.keys|, |dropped|));
    CardSubset(introduced, b.keys);
    c := Table(b.rows - |introduced|, (b.keys - introduced) + back);
    CardSplit(b.keys, introduced);
    assert b.keys * introduced == introduced;
    assert (b.keys - introduced) * back == {};
    assert b.keys - c.keys == introduced && introduced * removable == introduced && introduced - removable == {};
    assert (a.keys - c.keys) * removable == dropped - back;
    CardSplit(dropped, back);
    assert dropped * back == back;
  }

  /** Exactly then every further upgrade that passes on its own also passes as a whole. */
  lemma ComposesExactly(a: Table, b: Table, removable: set<Key>)
    requires Real(b) && Preserved(a, Some(b), removable)
    ensures LeavesRoom(a, b, removable) <==>
              forall c :: Real(c) && Preserved(b, Some(c), removable) ==> Preserved(a, Some(c), removable)
  {
    if LeavesRoom(a, b, removable) {
      forall c | Real(c) && Preserved(b, Some(c), removable) ensures Preserved(a, Some(c), removable) {
        RoomSuffices(a, b, c, removable);
      }
    } else {
      var c := RoomIsNeeded(a, b, removable);
      assert Real(c) && Preserved(b, Some(c), removable);
    }
  }

  /** Two rows under one removable key, then one row under another, then none. */
  lemma DuplicatesBreakComposition(x: Key, y: Key, removable: set<Key>)
    requires x != y && x in removable && y in removable
    ensures var a, b, c := Table(2, {x}), Table(1, {y}), Table(0, {});
      && Real(a) && Real(b) && Real(c)
      && Preserved(a, Some(b), removable) && Preserved(b, Some(c), removable) && !Preserved(a, Some(c), removable)
  {
    assert ({x} - {y}) * removable == {x} && ({y} - {}) * removable == {y} && ({x} - {}) * removable == {x};
  }

  /** More rows and keys on the right never turn a passing table into a failing one. */
  lemma AddedRowsHarmless(before: Table, after: Table, more: Table, removable: set<Key>)
    requires Preserved(before, Some(after), removable)
    requires after.keys <= more.keys && after.rows + |more.keys - after.keys| <= more.rows
    ensures Preserved(before, Some(more), removable)
  {
    var m, m' := before.keys - after.keys, before.keys - more.keys;
    assert m' - removable == {} by { assert m' - removable <= m - removable; }
    var expected := m * removable;
    CardSplit(expected, more.keys);
    assert expected - more.keys == m' * removable;
    CardSubset(expected * more.keys, more.keys - after.keys);
  }

  // ---- The whole audit ----

  function Sum(ns: seq<nat>): nat { if ns == [] then 0 else Sum(ns[..|ns| - 1]) + ns[|ns| - 1] }

  function TableOf(audit: Audit, table: string): Option<Table> {
    if table in audit.tables then Some(audit.tables[table]) else None
  }

  function CredentialsOf(audit: Audit, name: string): nat {
    if name in audit.credentials then audit.credentials[name] else 0
  }

  predicate TableKept(before: Audit, after: Audit, table: string) {
    table in before.tables ==> Preserved(before.tables[table], TableOf(after, table), Removable(table))
  }

  ghost predicate TablesPreserved(before: Audit, after: Audit) {
    forall table :: table in CRITICAL ==> TableKept(before, after, table)
  }

  predicate FirstKept(before: Audit, after: Audit, tables: seq<string>, k: nat)
    requires k <= |tables|
  {
    forall i :: 0 <= i < k ==> TableKept(before, after, tables[i])
  }

  lemma AllKept(before: Audit, after: Audit, tables: seq<string>)
    ensures FirstKept(before, after, tables, |tables|) <==> forall table :: table in tables ==> TableKept(before, after, table)
  {
    hide TableKept;
    if FirstKept(before, after, tables, |tables|) {
      forall table | table in tables ensures TableKept(before, after, table) {
        var i :| 0 <= i < |tables| && tables[i] == table;
      }
    }
  }

  ghost predicate CredentialsKept(before: Audit, after: Audit) {
    forall name :: name in before.credentials ==> CredentialsOf(after, name) >= before.credentials[name]
  }

  predicate Intact(after: Audit) { after.quickCheck == "ok" && after.violations == 0 && Sum(after.orphans) == 0 }

  ghost predicate Passes(before: Audit, after: Audit) {
    Intact(after) && TablesPreserved(before, after) && CredentialsKept(before, after)
  }

  lemma {:induction false} SumZero(ns: seq<nat>)
    ensures Sum(ns) == 0 <==> forall n :: n in ns ==> n == 0
  {
    if ns != [] {
      var rest, last := ns[..|ns| - 1], ns[|ns| - 1];
      SumZero(rest);
      assert ns == rest + [last];
      assert last in ns && forall n :: n in ns <==> n in rest || n == last;
      assert Sum(ns) == Sum(rest) + last;
    }
  }

  lemma CriticalTables(table: string)
    ensures table in CRITICAL <==>
              table in {"users", "system_settings", "client_preferences", "providers", "conversations", "messages",
                        "assistants", "assistant_definitions", "assistant_overlays", "assistant_preferences", "teams",
                        "mailbox", "team_tasks", "cron_jobs", "mcp_servers", "remote_agents", "skills", "acp_session"}
  {}

  lemma RemovableKeys(table: string)
    ensures Removable(table) ==
              if table == "client_preferences" then
                {"[\"acp.config\"]", "[\"aionrs.config\"]", "[\"codex.config\"]", "[\"acp.cachedModes\"]",
                 "[\"acp.cachedInitializeResult\"]", "[\"acp.cached_config_options\"]"}
              else {}
  {}

  /**
   The verdict on the fields of the two audits: the integrity results are clean, no critical table is gone or
   has lost a key that is not an expected removal, or more rows than expected keys, and no credential count fell.
   */
  lemma PassesOnFields(before: Audit, after: Audit)
    ensures Passes(before, after) <==>
              && after.quickCheck == "ok" && after.violations == 0 && (forall n :: n in after.orphans ==> n == 0)
              && (forall table :: table in CRITICAL && table in before.tables ==>
                    && table in after.tables
                    && var was, now := before.tables[table], after.tables[table];
                       && was.keys - Removable(table) <= now.keys
                       && now.rows + |(was.keys - now.keys) * Removable(table)| >= was.rows)
              && (forall name :: name in before.credentials && before.credentials[name] > 0 ==>
                    name in after.credentials && after.credentials[name] >= before.credentials[name])
  {
    SumZero(after.orphans);
    forall table | table in before.tables
      ensures TableKept(before, after, table) <==>
                && table in after.tables
                && var was, now := before.tables[table], after.tables[table];
                   && was.keys - Removable(table) <= now.keys
                   && now.rows + |(was.keys - now.keys) * Removable(table)| >= was.rows
    {
      hide Removable;
      if table in after.tables {
        var was, now, removable := before.tables[table], after.tables[table], Removable(table);
        if was.keys - removable <= now.keys {
          assert (was.keys - now.keys) - removable == {};
        }
        if (was.keys - now.keys) - removable == {} {
          Within(was.keys - now.keys, removable);
        }
      }
    }
    hide TableKept, Removable, CRITICAL, Sum;
  }

  datatype Check = Check(name: string, passed: bool)

  predicate AllPassed(checks: seq<Check>) { forall i :: 0 <= i < |checks| ==> checks[i].passed }

  lemma AllPassedNext(checks: seq<Check>, check: Check)
    ensures AllPassed(checks + [check]) == (AllPassed(checks) && check.passed)
  {
    if AllPassed(checks + [check]) {
      assert (checks + [check])[|checks|] == check;
      assert forall i :: 0 <= i < |checks| ==> (checks + [check])[i] == checks[i];
    }
  }

  /** The comparison passes exactly when the migration keeps what it must; `names` lists the credential counts. */
  method CompareDatabaseAudits(before: Audit, after: Audit, names: seq<string>) returns (passed: bool, checks: seq<Check>)
    requires forall name :: name in names <==> name in before.credentials
    ensures passed <==> Passes(before, after)
    ensures passed <==> AllPassed(checks)
  {
    checks := [Check("after.quick_check", after.quickCheck == "ok"),
               Check("after.foreign_keys", after.violations == 0),
               Check("after.custom_references", Sum(after.orphans) == 0)];
    assert checks[0].passed == (after.quickCheck == "ok") && checks[1].passed == (after.violations == 0)
           && checks[2].passed == (Sum(after.orphans) == 0);
    assert AllPassed(checks) == Intact(after);
    var tables := CRITICAL;
    AllKept(before, after, tables);
    assert FirstKept(before, after, tables, |tables|) == TablesPreserved(before, after);
    hide AllPassed, Preserved, Removable, Intact, CRITICAL, TablesPreserved;
    for k := 0 to |tables|
      invariant AllPassed(checks) <==> Intact(after) && FirstKept(before, after, tables, k)
    {
      var table := tables[k];
      assert FirstKept(before, after, tables, k + 1) == (FirstKept(before, after, tables, k) && TableKept(before, after, table));
      if table in before.tables {
        var ok := Preserved(before.tables[table], TableOf(after, table), Removable(table));
        AllPassedNext(checks, Check("table." + table + ".preserved", ok));
        checks := checks + [Check("table." + table + ".preserved", ok)];
      }
    }
    for k := 0 to |names|
      invariant AllPassed(checks) <==>
        Intact(after) && TablesPreserved(before, after)
        && forall i :: 0 <= i < k ==> CredentialsOf(after, names[i]) >= before.credentials[names[i]]
    {
      var ok := CredentialsOf(after, names[k]) >= before.credentials[names[k]];
      AllPassedNext(checks, Check("credential_reference." + names[k], ok));
      checks := checks + [Check("credential_reference." + names[k], ok)];
    }
    passed := AllPassed(checks);
  }

  /** Tables from which keys may be removed have unique keys. */
  ghost predicate KeysUnique(audit: Audit) {
    forall table :: table in CRITICAL && table in audit.tables && Removable(table) != {} ==> UniqueKeys(audit.tables[table])
  }

  /** Where nothing may be removed the check composes whatever the keys. */
  lemma NothingRemovableComposes(a: Table, b: Table, c: Table)
    requires Preserved(a, Some(b), {}) && Preserved(b, Some(c), {})
    ensures Preserved(a, Some(c), {})
  {
    PreservedSound(a, Some(b), {});
    PreservedSound(b, Some(c), {});
    assert (a.keys - c.keys) - {} == {} by { assert a.keys <= b.keys <= c.keys; }
  }

  /** Successive upgrades that pass one by one pass as a whole, if tables with removable keys have unique keys. */
  lemma AuditsCompose(a: Audit, b: Audit, c: Audit)
    requires KeysUnique(a) && KeysUnique(b) && KeysUnique(c)
    requires Passes(a, b) && Passes(b, c)
    ensures Passes(a, c)
  {
    hide Intact, Removable, UniqueKeys, Preserved;
    forall table | table in CRITICAL && table in a.tables
      ensures Preserved(a.tables[table], TableOf(c, table), Removable(table))
    {
      assert TableKept(a, b, table);
      InAfter(a.tables[table], TableOf(b, table), Removable(table));
      assert TableKept(b, c, table);
      InAfter(b.tables[table], TableOf(c, table), Removable(table));
      if Removable(table) == {} {
        NothingRemovableComposes(a.tables[table], b.tables[table], c.tables[table]);
      } else {
        PreservedComposes(a.tables[table], b.tables[table], c.tables[table], Removable(table));
      }
    }
    forall name | name in a.credentials ensures CredentialsOf(c, name) >= a.credentials[name] {
      assert CredentialsOf(b, name) >= a.credentials[name];
    }
  }

  lemma InAfter(before: Table, after: Option<Table>, removable: set<Key>)
    requires Preserved(before, after, removable)
    ensures after.Some?
  {}

  // ---- The audit of a database whose preferences have no primary key ----

  const PREFERENCES: string := "client_preferences"

  function OnlyPreferences(t: Table): Audit { Audit("ok", 0, [], map[PREFERENCES := t], map[]) }

  lemma PreferencesAlone(t: Table, u: Table)
    ensures Passes(OnlyPreferences(t), OnlyPreferences(u)) <==> Preserved(t, Some(u), Removable(PREFERENCES))
  {
    hide Preserved, Removable;
    var a, b := OnlyPreferences(t), OnlyPreferences(u);
    assert CRITICAL[2] == PREFERENCES;
    assert PREFERENCES in CRITICAL;
    assert TableKept(a, b, PREFERENCES) <==> Preserved(t, Some(u), Removable(PREFERENCES));
    assert forall table :: table != PREFERENCES ==> TableKept(a, b, table);
    hide CRITICAL, TableKept;
  }

  lemma TwoRemovable()
    ensures "[\"acp.config\"]" in Removable(PREFERENCES) && "[\"codex.config\"]" in Removable(PREFERENCES)
    ensures "[\"acp.config\"]" != "[\"codex.config\"]"
  {
    assert |"[\"acp.config\"]"| == 14 && |"[\"codex.config\"]"| == 16;
  }

  /** Whole audits, with the removable keys of the script: two upgrades pass one by one, and not as a whole. */
  lemma AuditsNeedNotCompose()
    ensures var a, b, c := OnlyPreferences(Table(2, {"[\"acp.config\"]"})), OnlyPreferences(Table(1, {"[\"codex.config\"]"})),
                           OnlyPreferences(Table(0, {}));
      Passes(a, b) && Passes(b, c) && !Passes(a, c)
  {
    var x, y := "[\"acp.config\"]", "[\"codex.config\"]";
    TwoRemovable();
    hide Removable, Passes;
    DuplicatesBreakComposition(x, y, Removable(PREFERENCES));
    PreferencesAlone(Table(2, {x}), Table(1, {y}));
    PreferencesAlone(Table(1, {y}), Table(0, {}));
    PreferencesAlone(Table(2, {x}), Table(0, {}));
  }
}
