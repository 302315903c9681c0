/** Lists put together block by block, and lists split into runs of neighbours with the same key. */
module Grouping {
  // How many elements from the front on share the first one's key.
  function RunLength<T>(xs: seq<T>, key: T -> int): (n: nat)
    requires xs != []
    ensures 0 < n <= |xs|
    ensures forall k :: 0 <= k < n ==> key(xs[k]) == key(xs[0])
    ensures n < |xs| ==> key(xs[n]) != key(xs[0])
  {
    if |xs| > 1 && key(xs[1]) == key(xs[0]) then 1 + RunLength(xs[1..], key) else 1
  }

  lemma RunLengthIs<T>(xs: seq<T>, key: T -> int, n: nat)
    requires 0 < n <= |xs| && (n < |xs| ==> key(xs[n]) != key(xs[0]))
    requires forall k :: 0 <= k < n ==> key(xs[k]) == key(xs[0])
    ensures RunLength(xs, key) == n
  {}

  // What the runs make, in order.
  function Grouped<T, R>(xs: seq<T>, key: T -> int, make: seq<T> -> seq<R>): seq<R> {
    if xs == [] then []
    else
      var n := RunLength(xs, key);
      make(xs[..n]) + Grouped(xs[n..], key, make)
  }

  // No run of front + back crosses from one into the other.
  ghost predicate Apart<T>(front: seq<T>, back: seq<T>, key: T -> int) {
    front != [] && back != [] ==> key(front[|front| - 1]) != key(back[0])
  }

  lemma {:induction false} GroupedParts<T, R>(front: seq<T>, back: seq<T>, key: T -> int, make: seq<T> -> seq<R>)
    requires Apart(front, back, key)
    ensures Grouped(front + back, key, make) == Grouped(front, key, make) + Grouped(back, key, make)
    decreases |front|
  {
    var xs := front + back;
    if front == [] {
      assert xs == back;
    } else {
      var n := RunLength(front, key);
      RunLengthIs(xs, key, n);
      assert xs[..n] == front[..n] && xs[n..] == front[n..] + back;
      GroupedParts(front[n..], back, key, make);
      Regroup(make(front[..n]), Grouped(front[n..], key, make), Grouped(back, key, make));
    }
  }

  lemma {:induction false} GroupedNothing<T, R>(xs: seq<T>, key: T -> int, make: seq<T> -> seq<R>)
    requires forall lo, hi :: 0 <= lo <= hi <= |xs| ==> make(xs[lo..hi]) == []
    ensures Grouped(xs, key, make) == []
    decreases |xs|
  {
    if xs != [] {
      var n := RunLength(xs, key);
      assert xs[..n] == xs[0..n];
      forall lo, hi | 0 <= lo <= hi <= |xs[n..]| ensures make(xs[n..][lo..hi]) == [] {
        assert xs[n..][lo..hi] == xs[n + lo..n + hi];
      }
      GroupedNothing(xs[n..], key, make);
    }
  }

  // The blocks lo..hi, one after the other.
  function Concat<T>(block: int -> seq<T>, lo: int, hi: int): seq<T>
    decreases hi - lo
  {
    if lo >= hi then [] else Concat(block, lo, hi - 1) + block(hi - 1)
  }

  lemma {:induction false} ConcatParts<T>(block: int -> seq<T>, lo: int, c: int, hi: int)
    requires lo <= c <= hi
    ensures Concat(block, lo, hi) == Concat(block, lo, c) + Concat(block, c, hi)
    decreases hi - c
  {
    if c < hi {
      ConcatParts(block, lo, c, hi - 1);
      Regroup(Concat(block, lo, c), Concat(block, c, hi - 1), block(hi - 1));
    }
  }

  lemma {:induction false} InConcat<T>(block: int -> seq<T>, lo: int, hi: int, x: T)
    ensures x in Concat(block, lo, hi) <==> exists d :: lo <= d < hi && x in block(d)
    decreases hi - lo
  {
    if lo < hi {
      InConcat(block, lo, hi - 1, x);
    }
  }

  lemma {:induction false} SameConcat<T>(block: int -> seq<T>, block': int -> seq<T>, lo: int, hi: int)
    requires forall d :: lo <= d < hi ==> block(d) == block'(d)
    ensures Concat(block, lo, hi) == Concat(block', lo, hi)
    decreases hi - lo
  {
    if lo < hi {
      SameConcat(block, block', lo, hi - 1);
    }
  }

  lemma Halves<T>(s: seq<T>, n: nat)
    requires n <= |s|
    ensures s == s[..n] + s[n..]
  {}

  lemma Regroup<T>(a: seq<T>, b: seq<T>, c: seq<T>)
    ensures (a + b) + c == a + (b + c)
  {}
}
