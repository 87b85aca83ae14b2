/**
 The stream that the migration audit feeds to its digest: one record per file or symbolic link, in path
 order. Names and link targets hold no NUL, as on every POSIX file system, but may hold newlines.
 File contents appear as their hash, 64 hexadecimal digits.
 */
module Fingerprint {
  import opened Text

  /** `Other` stands for directories and whatever is neither a link nor a file. */
  datatype Entry = Link(path: string, target: string) | File(path: string, size: nat, hash: string) | Other(path: string)

  predicate NulFree(s: string) { '\0' !in s }

  predicate Proper(e: Entry) {
    NulFree(e.path) && (e.Link? ==> NulFree(e.target)) && (e.File? ==> |e.hash| == 64)
  }

  function Digit(d: nat): char
    requires d < 10
  {
    "0123456789"[d]
  }

  function Decimal(n: nat): string {
    if n < 10 then [Digit(n)] else Decimal(n / 10) + [Digit(n % 10)]
  }

  function Record(e: Entry): string {
    match e
    case Link(path, target) => "L\0" + path + "\0" + target + "\n"
    case File(path, size, hash) => "F\0" + path + "\0" + Decimal(size) + "\0" + hash + "\n"
    case Other(_) => ""
  }

  function Stream(es: seq<Entry>): string {
    if es == [] then "" else Record(es[0]) + Stream(es[1..])
  }

  // ---- Decimal numbers ----

  function DigitValue(c: char): nat { if '0' <= c <= '9' then c as nat - '0' as nat else 0 }

  function Number(s: string): nat {
    if s == "" then 0 else 10 * Number(s[..|s| - 1]) + DigitValue(s[|s| - 1])
  }

  lemma DigitRoundTrip(d: nat)
    requires d < 10
    ensures DigitValue(Digit(d)) == d && Digit(d) != '\0'
  {}

  lemma {:induction false} DecimalRoundTrip(n: nat)
    ensures Number(Decimal(n)) == n && NulFree(Decimal(n))
  {
    DigitRoundTrip(n % 10);
    if n < 10 {
      assert n % 10 == n && Decimal(n) == [Digit(n)];
      assert Decimal(n)[..0] == "";
    } else {
      DecimalRoundTrip(n / 10);
      var head, last := Decimal(n / 10), Digit(n % 10);
      assert Decimal(n) == head + [last] && (head + [last])[..|head|] == head;
      hide Digit, DigitValue;
      assert Number(head + [last]) == 10 * Number(head) + DigitValue(last);
    }
  }

  // ---- The stream is uniquely decodable ----

  lemma FirstNulAt(a: string, rest: string)
    requires NulFree(a) && (rest == "" || rest[0] == '\0')
    ensures Index(a + rest, '\0') == |a|
  {
    if rest == "" {
      IndexNone(a, '\0');
      assert a + rest == a;
    } else {
      IndexAt(a, '\0', rest[1..]);
      assert rest == ['\0'] + rest[1..];
    }
  }

  lemma SameSplit(a: string, b: string, x: string, y: string)
    requires a + x == b + y && |a| == |b|
    ensures a == b && x == y
  {
    assert (a + x)[..|a|] == a && (b + y)[..|b|] == b;
    assert (a + x)[|a|..] == x && (b + y)[|b|..] == y;
  }

  /** A NUL-free field ends at the first NUL. */
  lemma FieldEnds(a: string, b: string, x: string, y: string)
    requires NulFree(a) && NulFree(b) && a + ("\0" + x) == b + ("\0" + y)
    ensures a == b && x == y
  {
    FirstNulAt(a, "\0" + x);
    FirstNulAt(b, "\0" + y);
    SameSplit(a, b, "\0" + x, "\0" + y);
    SameSplit("\0", "\0", x, y);
  }

  /** What follows a record: nothing, or a tag and a NUL. */
  ghost predicate Starts(s: string) { s == "" || (|s| >= 2 && s[0] != '\0' && s[1] == '\0') }

  /** A link target may hold newlines, yet where it ends is decided by what follows. */
  function TargetEnd(s: string): int {
    if Index(s, '\0') == |s| then |s| - 1 else Index(s, '\0') - 2
  }

  lemma TargetEndExact(target: string, rest: string)
    requires NulFree(target) && Starts(rest)
    ensures TargetEnd(target + ("\n" + rest)) == |target|
  {
    if rest == "" {
      FirstNulAt(target + "\n", "");
      assert target + ("\n" + rest) == target + "\n" + "";
    } else {
      FirstNulAt(target + "\n" + [rest[0]], rest[1..]);
      assert target + ("\n" + rest) == target + "\n" + [rest[0]] + rest[1..];
    }
  }

  ghost predicate AllRecords(es: seq<Entry>) { forall i :: 0 <= i < |es| ==> Proper(es[i]) && !es[i].Other? }

  lemma StreamStarts(es: seq<Entry>)
    requires AllRecords(es)
    ensures Starts(Stream(es)) && (es != [] ==> |Stream(es)| > 0)
  {
    if es != [] {
      var r := Record(es[0]);
      assert |r| >= 2 && r[0] != '\0' && r[1] == '\0';
      assert Stream(es)[0] == r[0] && Stream(es)[1] == r[1];
    }
  }

  lemma Assoc(a: string, b: string, c: string)
    ensures (a + b) + c == a + (b + c)
  {}

  lemma LinkShape(path: string, target: string, x: string)
    ensures "L\0" + path + "\0" + target + "\n" + x == "L\0" + (path + ("\0" + (target + ("\n" + x))))
  {
    Assoc("L\0" + path + "\0" + target, "\n", x);
    Assoc("L\0" + path + "\0", target, "\n" + x);
    Assoc("L\0" + path, "\0", target + ("\n" + x));
    Assoc("L\0", path, "\0" + (target + ("\n" + x)));
  }

  lemma FileShape(path: string, size: string, hash: string, x: string)
    ensures "F\0" + path + "\0" + size + "\0" + hash + "\n" + x
         == "F\0" + (path + ("\0" + (size + ("\0" + (hash + ("\n" + x))))))
  {
    Assoc("F\0" + path + "\0" + size + "\0" + hash, "\n", x);
    Assoc("F\0" + path + "\0" + size + "\0", hash, "\n" + x);
    Assoc("F\0" + path + "\0" + size, "\0", hash + ("\n" + x));
    Assoc("F\0" + path + "\0", size, "\0" + (hash + ("\n" + x)));
    Assoc("F\0" + path, "\0", size + ("\0" + (hash + ("\n" + x))));
    Assoc("F\0", path, "\0" + (size + ("\0" + (hash + ("\n" + x)))));
  }

  lemma LinkHead(e: Entry, f: Entry, x: string, y: string)
    requires Proper(e) && Proper(f) && e.Link? && f.Link? && Starts(x) && Starts(y)
    requires Record(e) + x == Record(f) + y
    ensures e == f && x == y
  {
    LinkShape(e.path, e.target, x);
    LinkShape(f.path, f.target, y);
    hide NulFree, Starts;
    var a, b := e.target + ("\n" + x), f.target + ("\n" + y);
    SameSplit("L\0", "L\0", e.path + ("\0" + a), f.path + ("\0" + b));
    FieldEnds(e.path, f.path, a, b);
    TargetEndExact(e.target, x);
    TargetEndExact(f.target, y);
    SameSplit(e.target, f.target, "\n" + x, "\n" + y);
    SameSplit("\n", "\n", x, y);
  }

  lemma FileHead(e: Entry, f: Entry, x: string, y: string)
    requires Proper(e) && Proper(f) && e.File? && f.File?
    requires Record(e) + x == Record(f) + y
    ensures e == f && x == y
  {
    FileShape(e.path, Decimal(e.size), e.hash, x);
    FileShape(f.path, Decimal(f.size), f.hash, y);
    DecimalRoundTrip(e.size);
    DecimalRoundTrip(f.size);
    hide NulFree, Decimal, Number;
    var p, q := e.hash + ("\n" + x), f.hash + ("\n" + y);
    var a, b := Decimal(e.size) + ("\0" + p), Decimal(f.size) + ("\0" + q);
    SameSplit("F\0", "F\0", e.path + ("\0" + a), f.path + ("\0" + b));
    FieldEnds(e.path, f.path, a, b);
    FieldEnds(Decimal(e.size), Decimal(f.size), p, q);
    SameSplit(e.hash, f.hash, "\n" + x, "\n" + y);
    SameSplit("\n", "\n", x, y);
  }

  /** The first record of a stream can be told from the rest. */
  lemma HeadInjective(e: Entry, f: Entry, x: string, y: string)
    requires Proper(e) && Proper(f) && !e.Other? && !f.Other? && Starts(x) && Starts(y)
    requires Record(e) + x == Record(f) + y
    ensures e == f && x == y
  {
    assert (Record(e) + x)[0] == Record(e)[0] && (Record(f) + y)[0] == Record(f)[0];
    if e.Link? {
      LinkHead(e, f, x, y);
    } else {
      FileHead(e, f, x, y);
    }
  }

  /** Equal streams come from equal lists of records. */
  lemma {:induction false} StreamInjective(es: seq<Entry>, fs: seq<Entry>)
    requires AllRecords(es) && AllRecords(fs) && Stream(es) == Stream(fs)
    ensures es == fs
  {
    hide AllRecords, Record, Starts, Proper;
    StreamStarts(es);
    StreamStarts(fs);
    if es != [] && fs != [] {
      hide Stream;
      StreamParts(es);
      StreamParts(fs);
      HeadInjective(es[0], fs[0], Stream(es[1..]), Stream(fs[1..]));
      StreamInjective(es[1..], fs[1..]);
      assert es == [es[0]] + es[1..];
      assert fs == [fs[0]] + fs[1..];
    }
  }

  lemma StreamParts(es: seq<Entry>)
    requires AllRecords(es) && es != []
    ensures Stream(es) == Record(es[0]) + Stream(es[1..]) && Proper(es[0]) && !es[0].Other?
    ensures AllRecords(es[1..]) && Starts(Stream(es[1..]))
  {
    hide Record, Proper, Starts;
    StreamStarts(es[1..]);
  }

  // ---- Path order ----

  predicate Le(a: string, b: string) {
    a == "" || (b != "" && (a[0] < b[0] || (a[0] == b[0] && Le(a[1..], b[1..]))))
  }

  lemma {:induction false} LeTotal(a: string, b: string)
    ensures Le(a, b) || Le(b, a)
    ensures Le(a, b) && Le(b, a) ==> a == b
  {
    if a != "" && b != "" && a[0] == b[0] {
      LeTotal(a[1..], b[1..]);
      assert a == [a[0]] + a[1..] && b == [b[0]] + b[1..];
    }
  }

  lemma {:induction false} LeTransitive(a: string, b: string, c: string)
    requires Le(a, b) && Le(b, c)
    ensures Le(a, c)
  {
    if a != "" && a[0] == b[0] && b[0] == c[0] {
      LeTransitive(a[1..], b[1..], c[1..]);
    }
  }

  /** The order is that of a dictionary: the first difference decides, and a prefix comes first. */
  lemma {:induction false} LeIsLexicographic(p: string, x: char, y: char, u: string, v: string)
    requires x < y
    ensures Le(p + [x] + u, p + [y] + v) && !Le(p + [y] + v, p + [x] + u) && Le(p, p + u)
  {
    if p != "" {
      assert (p + [x] + u)[1..] == p[1..] + [x] + u && (p + [y] + v)[1..] == p[1..] + [y] + v;
      assert (p + u)[1..] == p[1..] + u;
      LeIsLexicographic(p[1..], x, y, u, v);
    }
  }

  function Insert(es: seq<Entry>, e: Entry): seq<Entry> {
    if es == [] then [e]
    else if Le(e.path, es[0].path) then [e] + es
    else [es[0]] + Insert(es[1..], e)
  }

  function Sorted(es: seq<Entry>): seq<Entry> {
    if es == [] then [] else Insert(Sorted(es[1..]), es[0])
  }

  ghost predicate InOrder(es: seq<Entry>) {
    forall i, j :: 0 <= i < j < |es| ==> Le(es[i].path, es[j].path) && es[i].path != es[j].path
  }

  /** A directory listing: no path twice. */
  ghost predicate Listing(es: seq<Entry>) {
    forall i, j :: 0 <= i < j < |es| ==> es[i].path != es[j].path
  }

  lemma PrependInOrder(e: Entry, es: seq<Entry>)
    requires InOrder(es) && forall x :: x in es ==> Le(e.path, x.path) && x.path != e.path
    ensures InOrder([e] + es)
  {
    hide Le;
  }

  lemma {:induction false} InsertInOrder(es: seq<Entry>, e: Entry)
    requires InOrder(es) && forall x :: x in es ==> x.path != e.path
    ensures InOrder(Insert(es, e))
    ensures forall x :: x in Insert(es, e) <==> x == e || x in es
  {
    if es != [] {
      assert es == [es[0]] + es[1..];
      if Le(e.path, es[0].path) {
        forall x | x in es ensures Le(e.path, x.path) {
          var i :| 0 <= i < |es| && es[i] == x;
          if i > 0 { LeTransitive(e.path, es[0].path, x.path); }
        }
        hide Le;
        PrependInOrder(e, es);
      } else {
        LeTotal(e.path, es[0].path);
        InsertInOrder(es[1..], e);
        var rest := Insert(es[1..], e);
        assert forall x :: x in es[1..] ==> Le(es[0].path, x.path) && x.path != es[0].path;
        hide Le, Insert;
        PrependInOrder(es[0], rest);
      }
    }
  }

  lemma {:induction false} SortedExact(es: seq<Entry>)
    requires Listing(es)
    ensures InOrder(Sorted(es)) && forall x :: x in Sorted(es) <==> x in es
  {
    if es != [] {
      SortedExact(es[1..]);
      assert es == [es[0]] + es[1..];
      assert forall x :: x in es[1..] ==> x.path != es[0].path by {
        assert forall i :: 0 < i < |es| ==> es[0].path != es[i].path;
      }
      InsertInOrder(Sorted(es[1..]), es[0]);
    }
  }

  /** There is only one way to put the same entries in order. */
  lemma {:induction false} OrderUnique(a: seq<Entry>, b: seq<Entry>)
    requires InOrder(a) && InOrder(b) && forall x :: x in a <==> x in b
    ensures a == b
  {
    assert a != [] ==> a[0] in b;
    assert b != [] ==> b[0] in a;
    if a != [] && b != [] {
      LeTotal(a[0].path, b[0].path);
      assert a[0] == b[0];
      assert a == [a[0]] + a[1..] && b == [b[0]] + b[1..];
      assert a[0] !in a[1..] && b[0] !in b[1..];
      forall x ensures x in a[1..] <==> x in b[1..] {
        assert x in a[1..] <==> x in a && x != a[0];
        assert x in b[1..] <==> x in b && x != b[0];
      }
      OrderUnique(a[1..], b[1..]);
    }
  }

  // ---- The fingerprint of a tree ----

  /** The files and links of a listing. */
  function Recorded(es: seq<Entry>): seq<Entry> {
    if es == [] then [] else (if es[0].Other? then [] else [es[0]]) + Recorded(es[1..])
  }

  lemma TailInOrder(es: seq<Entry>)
    requires InOrder(es) && es != []
    ensures InOrder(es[1..]) && forall x :: x in es[1..] ==> Le(es[0].path, x.path) && es[0].path != x.path
  {
    hide Le;
  }

  lemma {:induction false} RecordedStream(es: seq<Entry>)
    ensures Stream(Recorded(es)) == Stream(es)
  {
    if es != [] {
      RecordedStream(es[1..]);
      var rest := Recorded(es[1..]);
      assert Recorded(es) == if es[0].Other? then rest else [es[0]] + rest;
      assert ([es[0]] + rest)[1..] == rest;
      hide Recorded;
    }
  }

  lemma {:induction false} RecordedMembers(es: seq<Entry>)
    ensures forall x :: x in Recorded(es) <==> x in es && !x.Other?
  {
    if es != [] {
      RecordedMembers(es[1..]);
      assert es == [es[0]] + es[1..];
    }
  }

  lemma {:induction false} RecordedInOrder(es: seq<Entry>)
    requires InOrder(es)
    ensures InOrder(Recorded(es))
  {
    if es != [] {
      TailInOrder(es);
      RecordedMembers(es[1..]);
      var rest := Recorded(es[1..]);
      assert Recorded(es) == if es[0].Other? then rest else [es[0]] + rest;
      hide Recorded, InOrder, Le;
      RecordedInOrder(es[1..]);
      if !es[0].Other? { PrependInOrder(es[0], rest); }
    }
  }

  lemma RecordedExact(es: seq<Entry>)
    requires InOrder(es)
    ensures Stream(Recorded(es)) == Stream(es) && InOrder(Recorded(es))
    ensures forall x :: x in Recorded(es) <==> x in es && !x.Other?
  {
    hide *;
    RecordedStream(es);
    RecordedMembers(es);
    RecordedInOrder(es);
  }

  function TreeStream(listed: seq<Entry>): string { Stream(Sorted(listed)) }

  /**
   Two trees have the same stream exactly when they hold the same files and links, whatever the order in
   which they are listed.
   */
  lemma FingerprintExact(a: seq<Entry>, b: seq<Entry>)
    requires Listing(a) && Listing(b) && (forall x :: x in a || x in b ==> Proper(x))
    ensures TreeStream(a) == TreeStream(b) <==> forall x: Entry :: !x.Other? ==> (x in a <==> x in b)
  {
    var p, q := Recorded(Sorted(a)), Recorded(Sorted(b));
    SortedExact(a);
    SortedExact(b);
    RecordedExact(Sorted(a));
    RecordedExact(Sorted(b));
    assert Stream(p) == TreeStream(a) && Stream(q) == TreeStream(b);
    assert forall x :: x in p <==> x in a && !x.Other?;
    assert forall x :: x in q <==> x in b && !x.Other?;
    hide *;
    SameRecords(a, b, p, q);
  }

  lemma SameRecords(a: seq<Entry>, b: seq<Entry>, p: seq<Entry>, q: seq<Entry>)
    requires InOrder(p) && InOrder(q) && (forall x :: x in a || x in b ==> Proper(x))
    requires (forall x :: x in p <==> x in a && !x.Other?) && (forall x :: x in q <==> x in b && !x.Other?)
    ensures Stream(p) == Stream(q) <==> forall x: Entry :: !x.Other? ==> (x in a <==> x in b)
  {
    hide InOrder, Proper, Stream;
    if Stream(p) == Stream(q) {
      StreamInjective(p, q);
    }
    if forall x: Entry :: !x.Other? ==> (x in a <==> x in b) {
      OrderUnique(p, q);
    }
  }

  // ---- The loop ----

  function Files(es: seq<Entry>): nat { if es == [] then 0 else (if es[0].File? then 1 else 0) + Files(es[1..]) }

  function Bytes(es: seq<Entry>): nat { if es == [] then 0 else (if es[0].File? then es[0].size else 0) + Bytes(es[1..]) }

  lemma {:induction false} LoopNext(es: seq<Entry>, e: Entry)
    ensures Stream(es + [e]) == Stream(es) + Record(e) && (e.Other? ==> Record(e) == "")
    ensures Files(es + [e]) == Files(es) + if e.File? then 1 else 0
    ensures Bytes(es + [e]) == Bytes(es) + if e.File? then e.size else 0
  {
    if es == [] {
      assert [] + [e] == [e] && [e][1..] == [];
    } else {
      assert (es + [e])[1..] == es[1..] + [e];
      LoopNext(es[1..], e);
    }
  }

  lemma RecordFormat(e: Entry)
    ensures e.Link? ==> Record(e) == "L\0" + e.path + "\0" + e.target + "\n"
    ensures e.File? ==> Record(e) == "F\0" + e.path + "\0" + Decimal(e.size) + "\0" + e.hash + "\n"
  {}

  method TreeFingerprint(listed: seq<Entry>) returns (stream: string, files: nat, totalBytes: nat)
    ensures stream == TreeStream(listed) && files == Files(Sorted(listed)) && totalBytes == Bytes(Sorted(listed))
  {
    var ordered := Sorted(listed);
    hide Sorted, Record, Decimal;
    stream, files, totalBytes := "", 0, 0;
    for k := 0 to |ordered|
      invariant stream == Stream(ordered[..k]) && files == Files(ordered[..k]) && totalBytes == Bytes(ordered[..k])
    {
      var e := ordered[k];
      LoopNext(ordered[..k], e);
      assert ordered[..k + 1] == ordered[..k] + [e];
      RecordFormat(e);
      if e.Link? {
        stream := stream + ("L\0" + e.path + "\0" + e.target + "\n");
      } else if e.File? {
        files := files + 1;
        totalBytes := totalBytes + e.size;
        stream := stream + ("F\0" + e.path + "\0" + Decimal(e.size) + "\0" + e.hash + "\n");
      }
    }
    assert ordered[..|ordered|] == ordered;
  }
}
