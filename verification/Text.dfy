/** Searching and splitting text. */
module Text {

  /** The first position of `c` in `s`, or the length of `s`. */
  function Index(s: string, c: char): (i: nat)
    ensures i <= |s| && c !in s[..i] && (i < |s| ==> s[i] == c)
  {
    if s == "" || s[0] == c then 0
    else
      var i := 1 + Index(s[1..], c);
      assert s[..i] == [s[0]] + s[1..][..i - 1];
      i
  }

  function After(s: string, i: nat): string { if i < |s| then s[i + 1..] else "" }

  /** The parts of `s` between separators. */
  function Split(s: string, c: char): (parts: seq<string>)
    ensures parts != []
  {
    var i := Index(s, c);
    if i == |s| then [s] else [s[..i]] + Split(s[i + 1..], c)
  }

  lemma {:induction false} IndexAt(a: string, c: char, b: string)
    requires c !in a
    ensures Index(a + ([c] + b), c) == |a| && After(a + ([c] + b), |a|) == b
  {
    var s := a + ([c] + b);
    assert s[|a| + 1..] == b;
    if a != "" {
      assert s[1..] == a[1..] + ([c] + b);
      IndexAt(a[1..], c, b);
    }
  }

  lemma {:induction false} IndexNone(s: string, c: char)
    requires c !in s
    ensures Index(s, c) == |s|
  {
    if s != "" { IndexNone(s[1..], c); }
  }

  lemma SplitFirst(word: string, c: char, tail: string)
    requires c !in word
    ensures Split(word + ([c] + tail), c) == [word] + Split(tail, c)
  {
    var s := word + ([c] + tail);
    IndexAt(word, c, tail);
    assert s[..|word|] == word && s[|word| + 1..] == tail;
  }

  lemma SplitNone(word: string, c: char)
    requires c !in word
    ensures Split(word, c) == [word]
  {}

  lemma Regroup(a: string, c: char, b: string, d: string)
    ensures (a + ([c] + b)) + d == a + ([c] + (b + d))
  {
    assert ([c] + b) + d == [c] + (b + d);
  }

  lemma {:induction false} SplitLast(a: string, c: char, word: string)
    requires c !in word
    ensures Split(a + ([c] + word), c) == Split(a, c) + [word]
    decreases |a|
  {
    hide Split;
    var i := Index(a, c);
    if i == |a| {
      assert a[..i] == a;
      SplitFirst(a, c, word);
      SplitNone(a, c);
      SplitNone(word, c);
    } else {
      var head, rest := a[..i], a[i + 1..];
      assert a == head + ([c] + rest);
      Regroup(head, c, rest, [c] + word);
      SplitFirst(head, c, rest);
      SplitFirst(head, c, rest + ([c] + word));
      SplitLast(rest, c, word);
    }
  }

  /** Parts hold no separator and nothing that was not there before. */
  lemma {:induction false} SplitParts(s: string, c: char)
    ensures forall part, x :: part in Split(s, c) && x in part ==> x != c && x in s
  {
    var i := Index(s, c);
    if i < |s| {
      SplitParts(s[i + 1..], c);
    } else {
      assert s[..i] == s;
    }
  }
}
