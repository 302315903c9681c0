/**
 Repairing repeated keys in YAML trees (internal/topology/reader.go): the last value of a key wins,
 and it takes the place of the key's first occurrence.
 */
module Dedupe {
  import opened Wrappers

  // `List` is a sequence or a document; `Leaf` a scalar, or an alias with the name of its anchor.
  datatype Node = Leaf(text: string) | List(items: seq<Node>) | Mapping(pairs: seq<Pair>)

  datatype Pair = Pair(key: Node, val: Node)

  // A key that is not a scalar has no text.
  function Text(n: Node): string {
    if n.Leaf? then n.text else ""
  }

  // ---- one mapping ----

  // The last pair with the key.
  function Last(pairs: seq<Pair>, k: string): (p: Option<Pair>)
    ensures p.Some? ==> p.value in pairs && Text(p.value.key) == k
    ensures p == None ==> forall i :: 0 <= i < |pairs| ==> Text(pairs[i].key) != k
  {
    if pairs == [] then None
    else if Text(pairs[|pairs| - 1].key) == k then Some(pairs[|pairs| - 1])
    else Last(pairs[..|pairs| - 1], k)
  }

  // The keys in the order in which they first occur.
  function Order(pairs: seq<Pair>): (order: seq<string>)
    ensures forall i, j :: 0 <= i < j < |order| ==> order[i] != order[j]
    ensures forall i :: 0 <= i < |order| ==> Last(pairs, order[i]).Some?
  {
    if pairs == [] then []
    else
      var order, k := Order(pairs[..|pairs| - 1]), Text(pairs[|pairs| - 1].key);
      if k in order then order else order + [k]
  }

  function LastWins(pairs: seq<Pair>): (d: seq<Pair>)
    ensures |d| == |Order(pairs)|
    ensures forall i :: 0 <= i < |d| ==> Last(pairs, Order(pairs)[i]) == Some(d[i])
  {
    var order := Order(pairs);
    seq(|order|, i requires 0 <= i < |order| => Last(pairs, order[i]).value)
  }

  ghost predicate NoRepeats(pairs: seq<Pair>) {
    forall i, j :: 0 <= i < j < |pairs| ==> Text(pairs[i].key) != Text(pairs[j].key)
  }

  lemma {:induction false} OrderHas(pairs: seq<Pair>, k: string)
    ensures k in Order(pairs) <==> Last(pairs, k).Some?
  {
    if pairs != [] {
      OrderHas(pairs[..|pairs| - 1], k);
    }
  }

  lemma {:induction false} LastWinsHasNoRepeats(pairs: seq<Pair>)
    ensures NoRepeats(LastWins(pairs))
  {
    var d, order := LastWins(pairs), Order(pairs);
    forall i, j | 0 <= i < j < |d| ensures Text(d[i].key) != Text(d[j].key) {
      assert Text(d[i].key) == order[i] && Text(d[j].key) == order[j];
    }
  }

  lemma {:induction false} LastUnrepeated(pairs: seq<Pair>, i: nat)
    requires NoRepeats(pairs) && i < |pairs|
    ensures Last(pairs, Text(pairs[i].key)) == Some(pairs[i])
  {
    var n := |pairs| - 1;
    if i < n {
      LastUnrepeated(pairs[..n], i);
    }
  }

  // Looking a key up in the repaired mapping finds its last pair.
  lemma {:induction false} LastWinsKeepsLast(pairs: seq<Pair>, k: string)
    ensures Last(LastWins(pairs), k) == Last(pairs, k)
  {
    var d := LastWins(pairs);
    OrderHas(pairs, k);
    LastWinsHasNoRepeats(pairs);
    if k in Order(pairs) {
      var i :| 0 <= i < |d| && Order(pairs)[i] == k;
      LastUnrepeated(d, i);
    } else {
      assert forall i :: 0 <= i < |d| ==> Text(d[i].key) == Order(pairs)[i];
    }
  }

  // Where a key first occurs.
  function First(pairs: seq<Pair>, k: string): (i: nat)
    ensures i <= |pairs|
    ensures i < |pairs| ==> Text(pairs[i].key) == k
    ensures forall j :: 0 <= j < i ==> Text(pairs[j].key) != k
  {
    if pairs == [] then 0
    else
      var i := First(pairs[..|pairs| - 1], k);
      if i < |pairs| - 1 || Text(pairs[|pairs| - 1].key) == k then i else |pairs|
  }

  lemma {:induction false} FirstHas(pairs: seq<Pair>, k: string)
    ensures First(pairs, k) < |pairs| <==> k in Order(pairs)
  {
    if pairs != [] {
      FirstHas(pairs[..|pairs| - 1], k);
    }
  }

  lemma {:induction false} OrderIsFirst(pairs: seq<Pair>, i: nat, j: nat)
    requires i < j < |Order(pairs)|
    ensures First(pairs, Order(pairs)[i]) < First(pairs, Order(pairs)[j])
  {
    var init := pairs[..|pairs| - 1];
    FirstHas(init, Order(pairs)[i]);
    FirstHas(init, Order(pairs)[j]);
    if j < |Order(init)| {
      OrderIsFirst(init, i, j);
    }
  }

  /** The repaired mapping has the same keys, in the order in which they first occurred. */
  lemma {:induction false} FirstOccurrenceOrder(pairs: seq<Pair>)
    ensures forall k :: Last(LastWins(pairs), k).Some? <==> Last(pairs, k).Some?
    ensures var d := LastWins(pairs);
      forall i, j :: 0 <= i < j < |d| ==> First(pairs, Text(d[i].key)) < First(pairs, Text(d[j].key))
  {
    var d := LastWins(pairs);
    forall k ensures Last(d, k).Some? <==> Last(pairs, k).Some? {
      LastWinsKeepsLast(pairs, k);
    }
    forall i, j | 0 <= i < j < |d| ensures First(pairs, Text(d[i].key)) < First(pairs, Text(d[j].key)) {
      assert Text(d[i].key) == Order(pairs)[i] && Text(d[j].key) == Order(pairs)[j];
      OrderIsFirst(pairs, i, j);
    }
  }

  lemma {:induction false} UnrepeatedOrder(pairs: seq<Pair>)
    requires NoRepeats(pairs)
    ensures |Order(pairs)| == |pairs| && forall i :: 0 <= i < |pairs| ==> Order(pairs)[i] == Text(pairs[i].key)
  {
    if pairs != [] {
      UnrepeatedOrder(pairs[..|pairs| - 1]);
    }
  }

  lemma {:induction false} NothingToRepair(pairs: seq<Pair>)
    requires NoRepeats(pairs)
    ensures LastWins(pairs) == pairs
  {
    UnrepeatedOrder(pairs);
    forall i | 0 <= i < |pairs| ensures LastWins(pairs)[i] == pairs[i] {
      LastUnrepeated(pairs, i);
    }
  }

  // As many keys as pairs means that nothing is repeated.
  lemma {:induction false} AllKeysDiffer(pairs: seq<Pair>)
    ensures |Order(pairs)| <= |pairs|
    ensures |Order(pairs)| == |pairs| ==> NoRepeats(pairs)
  {
    if pairs != [] {
      var init, k := pairs[..|pairs| - 1], Text(pairs[|pairs| - 1].key);
      AllKeysDiffer(init);
      OrderHas(init, k);
    }
  }

  // For each key of the first i pairs, the nodes last seen.
  ghost predicate LastSeen(keyNode: map<string, Node>, valNode: map<string, Node>, pairs: seq<Pair>, i: nat)
    requires i <= |pairs|
  {
    && keyNode.Keys == valNode.Keys
    && forall k :: Last(pairs[..i], k) == if k in valNode then Some(Pair(keyNode[k], valNode[k])) else None
  }

  lemma {:induction false} OneMorePair(keyNode: map<string, Node>, valNode: map<string, Node>, pairs: seq<Pair>, i: nat)
    requires i < |pairs| && LastSeen(keyNode, valNode, pairs, i)
    ensures var k := Text(pairs[i].key);
      && LastSeen(keyNode[k := pairs[i].key], valNode[k := pairs[i].val], pairs, i + 1)
      && Order(pairs[..i + 1]) == if k in valNode then Order(pairs[..i]) else Order(pairs[..i]) + [k]
  {
    assert pairs[..i + 1][..i] == pairs[..i];
    OrderHas(pairs[..i], Text(pairs[i].key));
  }

  // The loop over one mapping: the keys in order of appearance, and for each the nodes last seen.
  method Rebuild(pairs: seq<Pair>) returns (rebuilt: seq<Pair>)
    ensures rebuilt == LastWins(pairs)
  {
    var order: seq<string> := [];
    var keyNode: map<string, Node> := map[];
    var valNode: map<string, Node> := map[];
    for i := 0 to |pairs|
      invariant order == Order(pairs[..i])
      invariant LastSeen(keyNode, valNode, pairs, i)
    {
      var key := Text(pairs[i].key);
      OneMorePair(keyNode, valNode, pairs, i);
      if key !in valNode {
        order := order + [key];
      }
      keyNode := keyNode[key := pairs[i].key];
      valNode := valNode[key := pairs[i].val];
    }
    assert pairs[..|pairs|] == pairs;
    if |order| == |pairs| {
      AllKeysDiffer(pairs);
      NothingToRepair(pairs);
      return pairs;
    }
    rebuilt := [];
    for p := 0 to |order|
      invariant rebuilt == LastWins(pairs)[..p]
    {
      assert Last(pairs, order[p]).Some?;
      rebuilt := rebuilt + [Pair(keyNode[order[p]], valNode[order[p]])];
    }
  }

  // ---- the whole tree ----

  function Repaired(n: Node): Node {
    match n
    case Leaf(_) => n
    case List(items) => List(seq(|items|, i requires 0 <= i < |items| => Repaired(items[i])))
    case Mapping(pairs) =>
      Mapping(LastWins(seq(|pairs|, i requires 0 <= i < |pairs| => Pair(Repaired(pairs[i].key),
        Repaired(pairs[i].val)))))
  }

  function RepairedPair(p: Pair): Pair {
    Pair(Repaired(p.key), Repaired(p.val))
  }

  function RepairedPairs(pairs: seq<Pair>): (r: seq<Pair>)
    ensures |r| == |pairs| && forall i :: 0 <= i < |pairs| ==> r[i] == RepairedPair(pairs[i])
  {
    seq(|pairs|, i requires 0 <= i < |pairs| => RepairedPair(pairs[i]))
  }

  lemma RepairedMapping(pairs: seq<Pair>)
    ensures Repaired(Mapping(pairs)) == Mapping(LastWins(RepairedPairs(pairs)))
  {
    assert seq(|pairs|, i requires 0 <= i < |pairs| => Pair(Repaired(pairs[i].key), Repaired(pairs[i].val))) ==
      RepairedPairs(pairs);
  }

  lemma RepairedText(n: Node)
    ensures Text(Repaired(n)) == Text(n)
  {}

  lemma {:induction false} LastRepaired(pairs: seq<Pair>, k: string)
    ensures Last(RepairedPairs(pairs), k) ==
      match Last(pairs, k) case Some(p) => Some(RepairedPair(p)) case None => None
  {
    if pairs != [] {
      assert RepairedPairs(pairs)[..|pairs| - 1] == RepairedPairs(pairs[..|pairs| - 1]);
      LastRepaired(pairs[..|pairs| - 1], k);
      RepairedText(pairs[|pairs| - 1].key);
    }
  }

  lemma {:induction false} OrderRepaired(pairs: seq<Pair>)
    ensures Order(RepairedPairs(pairs)) == Order(pairs)
  {
    if pairs != [] {
      assert RepairedPairs(pairs)[..|pairs| - 1] == RepairedPairs(pairs[..|pairs| - 1]);
      OrderRepaired(pairs[..|pairs| - 1]);
      RepairedText(pairs[|pairs| - 1].key);
    }
  }

  // It makes no difference whether the children are repaired before or after their mapping.
  lemma {:induction false} RepairCommutes(pairs: seq<Pair>)
    ensures LastWins(RepairedPairs(pairs)) == RepairedPairs(LastWins(pairs))
  {
    OrderRepaired(pairs);
    forall i | 0 <= i < |Order(pairs)| ensures LastWins(RepairedPairs(pairs))[i] == RepairedPair(LastWins(pairs)[i]) {
      LastRepaired(pairs, Order(pairs)[i]);
    }
  }

  function Size(n: Node): nat {
    match n
    case Leaf(_) => 1
    case List(items) => 1 + ItemsSize(items)
    case Mapping(pairs) => 1 + PairsSize(pairs)
  }

  function ItemsSize(items: seq<Node>): nat {
    if items == [] then 0 else Size(items[|items| - 1]) + ItemsSize(items[..|items| - 1])
  }

  function PairsSize(pairs: seq<Pair>): nat {
    if pairs == [] then 0
    else PairSize(pairs[|pairs| - 1]) + PairsSize(pairs[..|pairs| - 1])
  }

  function PairSize(p: Pair): nat {
    Size(p.key) + Size(p.val)
  }

  lemma {:induction false} ItemSmaller(items: seq<Node>, i: nat)
    requires i < |items|
    ensures Size(items[i]) <= ItemsSize(items)
  {
    if i < |items| - 1 {
      ItemSmaller(items[..|items| - 1], i);
    }
  }

  lemma {:induction false} PairSmaller(pairs: seq<Pair>, i: nat)
    requires i < |pairs|
    ensures Size(pairs[i].key) + Size(pairs[i].val) <= PairsSize(pairs)
  {
    if i < |pairs| - 1 {
      PairSmaller(pairs[..|pairs| - 1], i);
    }
  }

  lemma LastWinsPicks(pairs: seq<Pair>, p: nat) returns (i: nat)
    requires p < |LastWins(pairs)|
    ensures i < |pairs| && LastWins(pairs)[p] == pairs[i]
  {
    assert Last(pairs, Order(pairs)[p]) == Some(LastWins(pairs)[p]);
    i :| 0 <= i < |pairs| && pairs[i] == LastWins(pairs)[p];
  }

  method DedupeMappingKeys(n: Node) returns (r: Node)
    ensures r == Repaired(n)
    decreases Size(n)
  {
    match n
    case Leaf(_) => r := n;
    case List(items) =>
      var out: seq<Node> := [];
      for i := 0 to |items|
        invariant |out| == i && forall j :: 0 <= j < i ==> out[j] == Repaired(items[j])
      {
        ItemSmaller(items, i);
        var c := DedupeMappingKeys(items[i]);
        out := out + [c];
      }
      r := List(out);
    case Mapping(pairs) =>
      var content := Rebuild(pairs);
      var out: seq<Pair> := [];
      for i := 0 to |content|
        invariant |out| == i && forall j :: 0 <= j < i ==> out[j] == RepairedPair(content[j])
      {
        PickedSmaller(pairs, i);
        var k := DedupeMappingKeys(content[i].key);
        var v := DedupeMappingKeys(content[i].val);
        out := out + [Pair(k, v)];
      }
      RepairedMapping(pairs);
      RepairCommutes(pairs);
      assert out == RepairedPairs(content);
      r := Mapping(out);
  }

  lemma {:induction false} PickedSmaller(pairs: seq<Pair>, p: nat)
    requires p < |LastWins(pairs)|
    ensures Size(LastWins(pairs)[p].key) < Size(Mapping(pairs)) && Size(LastWins(pairs)[p].val) < Size(Mapping(pairs))
  {
    var i := LastWinsPicks(pairs, p);
    PairSmaller(pairs, i);
  }

  // ---- what the repair means ----

  // No mapping at any depth, keys included, has a repeated key.
  ghost predicate Clean(n: Node) {
    match n
    case Leaf(_) => true
    case List(items) => forall i :: 0 <= i < |items| ==> Clean(items[i])
    case Mapping(pairs) =>
      NoRepeats(pairs) && forall i :: 0 <= i < |pairs| ==> Clean(pairs[i].key) && Clean(pairs[i].val)
  }

  /** Repairing leaves no repeated key at any depth. */
  lemma {:induction false} RepairedIsClean(n: Node)
    ensures Clean(Repaired(n))
  {
    match n
    case Leaf(_) =>
    case List(items) =>
      forall i | 0 <= i < |items| ensures Clean(Repaired(items[i])) {
        RepairedIsClean(items[i]);
      }
    case Mapping(pairs) =>
      var d := LastWins(RepairedPairs(pairs));
      RepairedMapping(pairs);
      LastWinsHasNoRepeats(RepairedPairs(pairs));
      forall p | 0 <= p < |d| ensures Clean(d[p].key) && Clean(d[p].val) {
        var i := LastWinsPicks(RepairedPairs(pairs), p);
        RepairedIsClean(pairs[i].key);
        RepairedIsClean(pairs[i].val);
      }
  }

  /** A tree without repeated keys is left alone. */
  lemma {:induction false} CleanIsUnchanged(n: Node)
    requires Clean(n)
    ensures Repaired(n) == n
  {
    match n
    case Leaf(_) =>
    case List(items) =>
      forall i | 0 <= i < |items| ensures Repaired(items[i]) == items[i] {
        CleanIsUnchanged(items[i]);
      }
      assert Repaired(n).items == items;
    case Mapping(pairs) =>
      forall i | 0 <= i < |pairs| ensures RepairedPair(pairs[i]) == pairs[i] {
        CleanIsUnchanged(pairs[i].key);
        CleanIsUnchanged(pairs[i].val);
      }
      assert RepairedPairs(pairs) == pairs;
      RepairedMapping(pairs);
      NothingToRepair(pairs);
  }

  /** Repairing twice is repairing once. */
  lemma {:induction false} RepairIsIdempotent(n: Node)
    ensures Repaired(Repaired(n)) == Repaired(n)
  {
    RepairedIsClean(n);
    CleanIsUnchanged(Repaired(n));
  }

  datatype Step = Key(k: string) | Index(i: nat)

  // What a path of keys and indices leads to when the last of several equal keys counts.
  function Resolve(n: Node, path: seq<Step>): Option<Node>
    decreases |path|
  {
    if path == [] then Some(n)
    else
      match (path[0], n)
      case (Key(k), Mapping(pairs)) =>
        (match Last(pairs, k) case Some(p) => Resolve(p.val, path[1..]) case None => None)
      case (Index(i), List(items)) => if i < |items| then Resolve(items[i], path[1..]) else None
      case _ => None
  }

  /** Every path leads in the repaired tree to the repair of what it leads to in the original, where the
      last of repeated keys counts. */
  lemma {:induction false} PathsResolveAsLastWins(n: Node, path: seq<Step>)
    ensures Resolve(Repaired(n), path) == match Resolve(n, path) case Some(m) => Some(Repaired(m)) case None => None
    decreases |path|
  {
    if path != [] {
      match (path[0], n)
      case (Key(k), Mapping(pairs)) =>
        RepairedMapping(pairs);
        LastWinsKeepsLast(RepairedPairs(pairs), k);
        LastRepaired(pairs, k);
        if Last(pairs, k).Some? {
          PathsResolveAsLastWins(Last(pairs, k).value.val, path[1..]);
        }
      case (Index(i), List(items)) =>
        if i < |items| {
          PathsResolveAsLastWins(items[i], path[1..]);
        }
      case _ =>
    }
  }
}
