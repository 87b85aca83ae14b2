/** The one-line report on standard error, and the parser that reads it back. */
module ProcessReport {
  import opened Text

  datatype Field = Field(key: string, value: string)
  datatype Report = Report(code: string, message: string, fields: seq<Field>)

  function SanitizeChar(c: char): char { if '!' <= c <= '~' && c != ':' then c else '_' }

  function Sanitize(value: string): string { seq(|value|, i requires 0 <= i < |value| => SanitizeChar(value[i])) }

  function Token(f: Field): string { f.key + "=" + Sanitize(f.value) }

  function Fields(fs: seq<Field>): string {
    if fs == [] then "" else " " + (Token(fs[0]) + Fields(fs[1..]))
  }

  function Line(r: Report): string { (r.code + Fields(r.fields)) + (": " + r.message) }

  // ---- Parsing ----

  function ParseField(token: string): Field {
    var i := Index(token, '=');
    Field(token[..i], After(token, i))
  }

  function ParseFields(tokens: seq<string>): seq<Field> {
    seq(|tokens|, i requires 0 <= i < |tokens| => ParseField(tokens[i]))
  }

  /** First colon, then spaces, then the first equals sign of every token but the code. */
  function Parse(line: string): Report {
    var i := Index(line, ':');
    var tokens := Split(line[..i], ' ');
    Report(tokens[0], After(After(line, i), 0), ParseFields(tokens[1..]))
  }

  // ---- Round trip ----

  predicate Clean(r: Report) {
    && ' ' !in r.code && ':' !in r.code
    && forall f :: f in r.fields ==> CleanKey(f.key)
  }

  predicate CleanKey(key: string) { ' ' !in key && ':' !in key && '=' !in key }

  function Sanitized(fs: seq<Field>): seq<Field> {
    seq(|fs|, i requires 0 <= i < |fs| => Field(fs[i].key, Sanitize(fs[i].value)))
  }

  /** Sanitising keeps the length, changes nothing exactly when every character is printable and no colon, and settles at once. */
  lemma SanitizeFixes(value: string)
    ensures |Sanitize(value)| == |value|
    ensures Sanitize(value) == value <==> forall c :: c in value ==> '!' <= c <= '~' && c != ':'
    ensures Sanitize(Sanitize(value)) == Sanitize(value)
    ensures forall i :: 0 <= i < |value| ==>
              Sanitize(value)[i] == if value[i] < '!' || value[i] > '~' || value[i] == ':' then '_' else value[i]
  {
    if Sanitize(value) == value {
      forall c | c in value ensures '!' <= c <= '~' && c != ':' {
        var i :| 0 <= i < |value| && value[i] == c;
        assert Sanitize(value)[i] == SanitizeChar(c);
      }
    }
    if forall c :: c in value ==> '!' <= c <= '~' && c != ':' {
      forall i | 0 <= i < |value| ensures Sanitize(value)[i] == value[i] {
        assert value[i] in value;
      }
    }
    var once := Sanitize(value);
    forall i | 0 <= i < |once| ensures Sanitize(once)[i] == once[i] {
      assert once[i] == SanitizeChar(value[i]);
    }
  }

  lemma SanitizeClean(value: string)
    ensures ' ' !in Sanitize(value) && ':' !in Sanitize(value)
  {}

  lemma TokenClean(f: Field)
    requires CleanKey(f.key)
    ensures ' ' !in Token(f) && ':' !in Token(f)
    ensures ParseField(Token(f)) == Field(f.key, Sanitize(f.value))
  {
    SanitizeClean(f.value);
    assert Token(f) == f.key + (['='] + Sanitize(f.value));
    IndexAt(f.key, '=', Sanitize(f.value));
    assert Token(f)[..|f.key|] == f.key;
  }

  function Tokens(fs: seq<Field>): seq<string> { seq(|fs|, i requires 0 <= i < |fs| => Token(fs[i])) }

  ghost predicate CleanKeys(fs: seq<Field>) { forall f :: f in fs ==> CleanKey(f.key) }

  lemma TokensNext(fs: seq<Field>)
    requires fs != []
    ensures Tokens(fs) == [Token(fs[0])] + Tokens(fs[1..])
  {
    hide Token;
  }

  lemma FieldsFirst(word: string, fs: seq<Field>)
    requires fs != []
    ensures word + Fields(fs) == word + ([' '] + (Token(fs[0]) + Fields(fs[1..])))
  {}

  lemma {:induction false} SplitLine(word: string, fs: seq<Field>)
    requires ' ' !in word && CleanKeys(fs)
    ensures Split(word + Fields(fs), ' ') == [word] + Tokens(fs)
    decreases |fs|
  {
    if fs == [] {
      assert word + Fields(fs) == word;
    } else {
      var token, rest := Token(fs[0]), fs[1..];
      TokenClean(fs[0]);
      hide Fields, Token, Tokens, Split, CleanKey;
      SplitLine(token, rest);
      SplitFirst(word, ' ', token + Fields(rest));
      TokensNext(fs);
      FieldsFirst(word, fs);
    }
  }

  lemma {:induction false} NoColon(fs: seq<Field>)
    requires CleanKeys(fs)
    ensures ':' !in Fields(fs)
  {
    if fs != [] {
      TokenClean(fs[0]);
      hide Token;
      NoColon(fs[1..]);
    }
  }

  lemma ParseTokens(fs: seq<Field>)
    requires CleanKeys(fs)
    ensures ParseFields(Tokens(fs)) == Sanitized(fs)
  {
    forall i | 0 <= i < |fs| ensures ParseFields(Tokens(fs))[i] == Sanitized(fs)[i] {
      TokenClean(fs[i]);
    }
  }

  lemma CleanRoundTrip(r: Report)
    requires Clean(r)
    ensures Parse(Line(r)) == Report(r.code, r.message, Sanitized(r.fields))
  {
    SplitLine(r.code, r.fields);
    NoColon(r.fields);
    ParseTokens(r.fields);
    var head := r.code + Fields(r.fields);
    var tail := [' '] + r.message;
    assert Line(r) == head + ([':'] + tail);
    IndexAt(head, ':', tail);
    assert (head + ([':'] + tail))[..|head|] == head;
    assert After(tail, 0) == r.message;
    assert ([r.code] + Tokens(r.fields))[1..] == Tokens(r.fields);
  }

  /** Whatever the line, the parser only yields clean codes and keys. */
  lemma ParseClean(line: string)
    ensures Clean(Parse(line))
  {
    var i := Index(line, ':');
    var tokens := Split(line[..i], ' ');
    SplitParts(line[..i], ' ');
    assert forall t :: t in tokens ==> ' ' !in t && ':' !in t;
    assert tokens[0] in tokens;
    forall f | f in Parse(line).fields ensures CleanKey(f.key) {
      var k :| 0 <= k < |tokens[1..]| && f == ParseField(tokens[1..][k]);
      assert tokens[1..][k] in tokens;
    }
  }

  /** Reading the line back gives code, ordered fields with sanitised values and message, exactly for clean reports. */
  lemma RoundTripExact(r: Report)
    ensures Parse(Line(r)) == Report(r.code, r.message, Sanitized(r.fields)) <==> Clean(r)
  {
    if Clean(r) {
      CleanRoundTrip(r);
    } else if Parse(Line(r)) == Report(r.code, r.message, Sanitized(r.fields)) {
      ParseClean(Line(r));
      forall f | f in r.fields ensures CleanKey(f.key) {
        var i :| 0 <= i < |r.fields| && r.fields[i] == f;
        assert Sanitized(r.fields)[i] in Parse(Line(r)).fields;
      }
    }
  }

  lemma {:induction false} FieldsNext(fs: seq<Field>, f: Field)
    ensures Fields(fs + [f]) == Fields(fs) + (" " + Token(f))
  {
    if fs == [] {
      assert fs + [f] == [f] && [f][1..] == [];
      assert Token(f) + Fields([]) == Token(f);
    } else {
      assert (fs + [f])[1..] == fs[1..] + [f];
      FieldsNext(fs[1..], f);
      var token, rest := Token(fs[0]), Fields(fs[1..]);
      hide Token;
      assert " " + (token + (rest + (" " + Token(f)))) == " " + (token + rest) + (" " + Token(f));
    }
  }

  lemma PushField(line: string, f: Field)
    ensures line + " " + f.key + "=" + Sanitize(f.value) == line + (" " + Token(f))
  {
    hide Sanitize;
  }

  method StderrLine(r: Report) returns (line: string)
    ensures line == Line(r)
  {
    line := r.code;
    for k := 0 to |r.fields|
      invariant line == r.code + Fields(r.fields[..k])
    {
      var f := r.fields[k];
      FieldsNext(r.fields[..k], f);
      assert r.fields[..k + 1] == r.fields[..k] + [f];
      PushField(line, f);
      hide Fields, Sanitize, Token;
      line := line + " ";
      line := line + f.key;
      line := line + "=";
      line := line + Sanitize(f.value);
    }
    assert r.fields[..|r.fields|] == r.fields;
    hide Fields;
    line := line + ": ";
    line := line + r.message;
  }
}
