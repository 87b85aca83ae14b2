/**
 Normalising the path of a logo asset, with path components as on Unix: a leading slash is the root,
 empty parts vanish, a lone dot counts only at the start.
 */
module LogoPath {
  import opened Basics
  import opened Text

  datatype Component = RootDir | CurDir | ParentDir | Normal(name: string)

  function Classify(part: string, first: bool): seq<Component> {
    if part == "" then []
    else if part == "." then if first then [CurDir] else []
    else if part == ".." then [ParentDir]
    else [Normal(part)]
  }

  function Parts(parts: seq<string>): seq<Component> {
    if parts == [] then [] else Classify(parts[0], false) + Parts(parts[1..])
  }

  function Components(path: string): seq<Component> {
    var parts := Split(path, '/');
    (if path != "" && path[0] == '/' then [RootDir] else []) + Classify(parts[0], true) + Parts(parts[1..])
  }

  // ---- The normal form ----

  function Names(cs: seq<Component>): seq<string> {
    if cs == [] then [] else (if cs[0].Normal? then [cs[0].name] else []) + Names(cs[1..])
  }

  function Push(buffer: string, name: string): string { if buffer == "" then name else buffer + ("/" + name) }

  function Joined(names: seq<string>): string {
    if names == [] then "" else Push(Joined(names[..|names| - 1]), names[|names| - 1])
  }

  predicate Plain(c: Component) { c.Normal? || c.CurDir? }

  predicate AllPlain(cs: seq<Component>) { forall c :: c in cs ==> Plain(c) }

  function Normalized(path: string): Option<string> {
    if '\\' in path || ':' in path then None
    else
      var cs := Components(path);
      if !AllPlain(cs) || Names(cs) == [] then None else Some(Joined(Names(cs)))
  }

  /** What a name may be: not empty, not a dot or two, no separator. */
  predicate IsName(name: string) { name != "" && name != "." && name != ".." && '/' !in name }

  ghost predicate AllNames(names: seq<string>) { forall name :: name in names ==> IsName(name) }

  // ---- Components of a path and of its normal form ----

  lemma {:induction false} NamesConcat(a: seq<Component>, b: seq<Component>)
    ensures Names(a + b) == Names(a) + Names(b)
  {
    if a == [] {
      assert a + b == b;
    } else {
      assert (a + b)[1..] == a[1..] + b;
      NamesConcat(a[1..], b);
    }
  }

  lemma ClassifyExact(part: string, first: bool)
    ensures Names(Classify(part, first)) == if part == "" || part == "." || part == ".." then [] else [part]
    ensures AllPlain(Classify(part, first)) <==> part != ".."
  {
    var cs := Classify(part, first);
    assert cs != [] ==> cs[1..] == [];
    if part == ".." { assert ParentDir in cs; }
  }

  lemma PlainConcat(a: seq<Component>, b: seq<Component>)
    ensures AllPlain(a + b) == (AllPlain(a) && AllPlain(b))
  {
    if AllPlain(a + b) {
      assert forall c :: c in a ==> c in a + b;
      assert forall c :: c in b ==> c in a + b;
    }
  }

  lemma {:induction false} PartsExact(parts: seq<string>)
    requires forall part :: part in parts ==> '/' !in part
    ensures AllNames(Names(Parts(parts)))
    ensures AllPlain(Parts(parts)) <==> ".." !in parts
    ensures Names(Parts(parts)) != [] <==> exists part :: part in parts && IsName(part)
  {
    if parts != [] {
      var head, rest := Classify(parts[0], false), parts[1..];
      PartsExact(rest);
      NamesConcat(head, Parts(rest));
      PlainConcat(head, Parts(rest));
      ClassifyExact(parts[0], false);
      assert parts == [parts[0]] + rest;
      assert Parts(parts) == head + Parts(rest);
      assert IsName(parts[0]) <==> Names(head) != [] by { assert '/' !in parts[0]; }
      hide Names, Parts, AllPlain, Classify, IsName;
      if exists part :: part in parts && IsName(part) {
        var part :| part in parts && IsName(part);
        assert part == parts[0] || part in rest;
      }
    }
  }

  ghost predicate Acceptable(path: string) {
    && '\\' !in path && ':' !in path
    && (path == "" || path[0] != '/')
    && ".." !in Split(path, '/')
    && exists part :: part in Split(path, '/') && IsName(part)
  }

  /** The names of a path, and the exact condition under which it is accepted. */
  lemma AcceptedExactly(path: string)
    ensures Normalized(path).Some? <==> Acceptable(path)
    ensures AllNames(Names(Components(path)))
  {
    var parts := Split(path, '/');
    SplitParts(path, '/');
    PartsExact(parts);
    assert parts == [parts[0]] + parts[1..];
    var cs, ps := Components(path), Parts(parts);
    FirstPart(path);
    hide Split, Parts, Names, Components, IsName;
  }

  /** The special treatment of a leading dot or slash does not add names. */
  lemma FirstPart(path: string)
    ensures var cs, ps := Components(path), Parts(Split(path, '/'));
      && Names(cs) == Names(ps)
      && (AllPlain(cs) <==> !(path != "" && path[0] == '/') && AllPlain(ps))
  {
    var parts := Split(path, '/');
    var root := if path != "" && path[0] == '/' then [RootDir] else [];
    var a, b, rest := Classify(parts[0], true), Classify(parts[0], false), Parts(parts[1..]);
    assert Names(root) == [] by { assert root != [] ==> root[1..] == []; }
    assert AllPlain(root) <==> root == [] by { assert root != [] ==> RootDir in root; }
    ClassifyExact(parts[0], true);
    ClassifyExact(parts[0], false);
    assert Components(path) == root + a + rest && Parts(parts) == b + rest;
    hide Names, Classify, Parts, AllPlain, Components, Split;
    NamesConcat(root + a, rest);
    NamesConcat(root, a);
    NamesConcat(b, rest);
    PlainConcat(root + a, rest);
    PlainConcat(root, a);
    PlainConcat(b, rest);
  }

  function Normals(names: seq<string>): seq<Component> {
    if names == [] then [] else [Normal(names[0])] + Normals(names[1..])
  }

  lemma {:induction false} SplitJoined(names: seq<string>)
    requires names != [] && AllNames(names)
    ensures Split(Joined(names), '/') == names
    ensures Joined(names) != "" && Joined(names)[0] != '/'
  {
    var n := |names| - 1;
    assert names[n] in names;
    if n == 0 {
      assert names[..0] == [] && names == [names[0]];
      SplitParts(names[0], '/');
    } else {
      SplitJoined(names[..n]);
      SplitLast(Joined(names[..n]), '/', names[n]);
      assert names == names[..n] + [names[n]];
    }
  }

  lemma {:induction false} PartsOfNames(names: seq<string>)
    requires AllNames(names)
    ensures Parts(names) == Normals(names) && Names(Normals(names)) == names
    ensures forall c :: c in Normals(names) ==> c.Normal?
  {
    if names != [] {
      PartsOfNames(names[1..]);
      assert IsName(names[0]) by { assert names[0] in names; }
      assert Classify(names[0], false) == [Normal(names[0])];
      assert Normals(names)[1..] == Normals(names[1..]);
    }
  }

  /** Joining names and taking components are inverse to each other. */
  lemma ComponentsOfJoined(names: seq<string>)
    requires names != [] && AllNames(names)
    ensures Components(Joined(names)) == Normals(names)
  {
    SplitJoined(names);
    PartsOfNames(names);
    PartsOfNames(names[1..]);
    assert names[0] in names;
    hide Split, Joined;
  }

  lemma {:induction false} JoinedChars(names: seq<string>, x: char)
    requires x != '/' && forall name :: name in names ==> x !in name
    ensures x !in Joined(names)
  {
    if names != [] { JoinedChars(names[..|names| - 1], x); }
  }

  lemma {:induction false} NamesChars(cs: seq<Component>, x: char)
    requires forall c :: c in cs && c.Normal? ==> x !in c.name
    ensures forall name :: name in Names(cs) ==> x !in name
  {
    if cs != [] { NamesChars(cs[1..], x); }
  }

  lemma {:induction false} PartsChars(parts: seq<string>, x: char)
    requires forall part :: part in parts ==> x !in part
    ensures forall name :: name in Names(Parts(parts)) ==> x !in name
  {
    if parts != [] {
      PartsChars(parts[1..], x);
      var head := Classify(parts[0], false);
      NamesConcat(head, Parts(parts[1..]));
      NamesChars(head, x);
    }
  }

  lemma NoNewChars(path: string, x: char)
    requires x !in path && x != '/'
    ensures x !in Joined(Names(Components(path)))
  {
    SplitParts(path, '/');
    FirstPart(path);
    PartsChars(Split(path, '/'), x);
    JoinedChars(Names(Components(path)), x);
  }

  /** The result is made of normal names only and is its own normal form. */
  lemma Canonical(path: string)
    requires Normalized(path).Some?
    ensures var result := Normalized(path).value;
      && Normalized(result) == Some(result)
      && Components(result) == Normals(Names(Components(path)))
      && forall c :: c in Components(result) ==> c.Normal?
  {
    var names := Names(Components(path));
    var result := Joined(names);
    AcceptedExactly(path);
    ComponentsOfJoined(names);
    PartsOfNames(names);
    NoNewChars(path, '\\');
    NoNewChars(path, ':');
  }

  /** Accepted paths have the same normal form exactly when they have the same list of names. */
  lemma SameNormalForm(p: string, q: string)
    requires Normalized(p).Some? && Normalized(q).Some?
    ensures Normalized(p) == Normalized(q) <==> Names(Components(p)) == Names(Components(q))
  {
    AcceptedExactly(p);
    AcceptedExactly(q);
    var a, b := Names(Components(p)), Names(Components(q));
    ComponentsOfJoined(a);
    ComponentsOfJoined(b);
    PartsOfNames(a);
    PartsOfNames(b);
  }

  // ---- The loop ----

  function ForwardSlashes(s: string): string {
    seq(|s|, i requires 0 <= i < |s| => if s[i] == '\\' then '/' else s[i])
  }

  lemma NamesNext(cs: seq<Component>, c: Component)
    ensures Names(cs + [c]) == if c.Normal? then Names(cs) + [c.name] else Names(cs)
  {
    NamesConcat(cs, [c]);
    assert [c][1..] == [];
  }

  lemma Nothing()
    ensures Names([]) == [] && AllPlain([])
    ensures forall c :: AllPlain([c]) <==> Plain(c)
  {
    forall c ensures AllPlain([c]) <==> Plain(c) {
      assert c in [c];
    }
  }

  lemma NotPlain(cs: seq<Component>, c: Component)
    requires c in cs && !Plain(c)
    ensures !AllPlain(cs)
  {}

  lemma JoinedNext(names: seq<string>, name: string)
    ensures Joined(names + [name]) == Push(Joined(names), name)
  {
    assert (names + [name])[..|names|] == names;
  }

  lemma NothingToReplace(s: string)
    requires '\\' !in s
    ensures ForwardSlashes(s) == s
  {}

  method NormalizeLogoPath(path: string) returns (r: Option<string>)
    ensures r == Normalized(path)
  {
    if '\\' in path || ':' in path {
      return None;
    }
    var cs := Components(path);
    var normalized := "";
    assert Joined([]) == "";
    hide Names, AllPlain, Components, Joined, IsName, ForwardSlashes;
    Nothing();
    for k := 0 to |cs|
      invariant normalized == Joined(Names(cs[..k])) && AllPlain(cs[..k])
    {
      assert cs[..k + 1] == cs[..k] + [cs[k]] && cs[k] in cs;
      NamesNext(cs[..k], cs[k]);
      PlainConcat(cs[..k], [cs[k]]);
      match cs[k] {
        case Normal(name) =>
          JoinedNext(Names(cs[..k]), name);
          normalized := Push(normalized, name);
        case CurDir =>
        case RootDir =>
          NotPlain(cs, cs[k]);
          return None;
        case ParentDir =>
          NotPlain(cs, cs[k]);
          return None;
      }
    }
    assert cs[..|cs|] == cs;
    AcceptedExactly(path);
    if Names(cs) != [] {
      SplitJoined(Names(cs));
    }
    if normalized == "" {
      return None;
    }
    NoNewChars(path, '\\');
    NothingToReplace(normalized);
    r := Some(ForwardSlashes(normalized));
  }
}
