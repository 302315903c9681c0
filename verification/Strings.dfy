/** The few string operations of Go's standard library the modelled code relies on. */
module Strings {
  function Split(s: string, sep: char): (parts: seq<string>)
    ensures |parts| > 0
  {
    if s == "" then [""]
    else
      var rest := Split(s[1..], sep);
      if s[0] == sep then [""] + rest else [[s[0]] + rest[0]] + rest[1..]
  }

  lemma {:induction false} SplitAtSeparator(x: string, sep: char, rest: string)
    requires sep !in x
    ensures Split(x + [sep] + rest, sep) == [x] + Split(rest, sep)
  {
    var s := x + [sep] + rest;
    if x == "" {
      assert s[1..] == rest;
    } else {
      assert s[1..] == x[1..] + [sep] + rest;
      SplitAtSeparator(x[1..], sep, rest);
      assert [x[0]] + x[1..] == x;
    }
  }

  function Join(parts: seq<string>, sep: char): string
    requires |parts| > 0
  {
    if |parts| == 1 then parts[0] else parts[0] + [sep] + Join(parts[1..], sep)
  }

  ghost predicate Unsplit(parts: seq<string>, sep: char) {
    |parts| > 0 && forall i :: 0 <= i < |parts| ==> sep !in parts[i]
  }

  lemma {:induction false} SplitUnsplit(s: string, sep: char)
    ensures Unsplit(Split(s, sep), sep) && Join(Split(s, sep), sep) == s
  {
    if s != "" {
      var rest := Split(s[1..], sep);
      SplitUnsplit(s[1..], sep);
      assert s == [s[0]] + s[1..];
      if s[0] == sep {
        assert ([""] + rest)[1..] == rest;
      } else {
        assert ([[s[0]] + rest[0]] + rest[1..])[1..] == rest[1..];
        if |rest| > 1 {
          assert [s[0]] + (rest[0] + [sep] + Join(rest[1..], sep)) == ([s[0]] + rest[0]) + [sep] + Join(rest[1..], sep);
        }
      }
    }
  }

  lemma {:induction false} SplitWhole(x: string, sep: char)
    requires sep !in x
    ensures Split(x, sep) == [x]
  {
    if x != "" {
      SplitWhole(x[1..], sep);
      assert x == [x[0]] + x[1..];
    }
  }

  /** Splitting at a separator is the inverse of joining. */
  lemma {:induction false} SplitIs(s: string, sep: char, parts: seq<string>)
    ensures Split(s, sep) == parts <==> Unsplit(parts, sep) && s == Join(parts, sep)
    decreases |parts|
  {
    SplitUnsplit(s, sep);
    if Unsplit(parts, sep) && s == Join(parts, sep) {
      if |parts| == 1 {
        SplitWhole(s, sep);
      } else {
        SplitIs(Join(parts[1..], sep), sep, parts[1..]);
        SplitAtSeparator(parts[0], sep, Join(parts[1..], sep));
        assert parts == [parts[0]] + parts[1..];
      }
    }
  }

  predicate IsSpace(c: char) {
    c in {' ', '\t', '\n', '\r', '\U{0B}', '\U{0C}', '\U{85}', '\U{A0}'}
  }

  ghost predicate Word(s: string) {
    s != "" && forall c :: c in s ==> !IsSpace(c)
  }

  function WordLength(s: string): (n: nat)
    ensures n <= |s|
    ensures forall i :: 0 <= i < n ==> !IsSpace(s[i])
    ensures n < |s| ==> IsSpace(s[n])
  {
    if s == "" || IsSpace(s[0]) then 0 else 1 + WordLength(s[1..])
  }

  // The words of s, white space dropped.
  function Fields(s: string): (words: seq<string>)
    ensures forall i :: 0 <= i < |words| ==> |words[i]| > 0
  {
    if s == "" then []
    else if IsSpace(s[0]) then Fields(s[1..])
    else
      var n := WordLength(s);
      assert n > 0;
      [s[..n]] + Fields(s[n..])
  }

  lemma FieldsOfWord(w: string)
    requires Word(w)
    ensures Fields(w) == [w]
  {
    assert WordLength(w) == |w|;
    assert w[..|w|] == w;
    assert Fields(w[|w|..]) == [];
  }

  lemma FieldsOfWordThen(w: string, rest: string)
    requires Word(w)
    ensures Fields(w + " " + rest) == [w] + Fields(rest)
  {
    var s := w + " " + rest;
    assert s[|w|] == ' ';
    assert forall i :: 0 <= i < |w| ==> s[i] == w[i];
    assert WordLength(s) == |w|;
    assert s[..|w|] == w;
    assert s[|w|..] == " " + rest;
    assert (" " + rest)[1..] == rest;
  }

  predicate HasPrefix(s: string, prefix: string) {
    |prefix| <= |s| && s[..|prefix|] == prefix
  }

  predicate HasSuffix(s: string, suffix: string) {
    |suffix| <= |s| && s[|s| - |suffix|..] == suffix
  }

  function TrimPrefix(s: string, prefix: string): string {
    if HasPrefix(s, prefix) then s[|prefix|..] else s
  }

  function TrimSuffix(s: string, suffix: string): string {
    if HasSuffix(s, suffix) then s[..|s| - |suffix|] else s
  }

  lemma SuffixesCancel(a: string, b: string, c: string)
    ensures HasSuffix(a + c, b + c) <==> HasSuffix(a, b)
  {
    if |b| <= |a| {
      assert (a + c)[|a + c| - |b + c|..] == a[|a| - |b|..] + c;
      assert a[|a| - |b|..] + c == b + c ==> (a[|a| - |b|..] + c)[..|b|] == (b + c)[..|b|];
    }
  }

  lemma SuffixAdded(a: string, c: string)
    ensures HasSuffix(a + c, c) && TrimSuffix(a + c, c) == a
  {}
}
