/**
 The parent relation among VOs: a map from a VO to the name of its parent.  A parent need not exist.
 */
module VOParents {
  import opened Wrappers

  type Parents = map<string, string>

  // The k-th ancestor of a.
  function Up(m: Parents, a: string, k: nat): Option<string>
    decreases k
  {
    if k == 0 then Some(a)
    else if a in m then Up(m, m[a], k - 1)
    else None
  }

  // x is the k-th ancestor of a.
  ghost predicate Above(m: Parents, a: string, k: nat, x: string) {
    Up(m, a, k) == Some(x)
  }

  ghost predicate Acyclic(m: Parents) {
    forall a, k: nat :: k > 0 ==> !Above(m, a, k, a)
  }

  // The walk the code does from cur upward, having seen `seen`: false when it comes back to
  // something it saw.
  function Walk(m: Parents, cur: string, seen: set<string>): bool
    decreases |m.Keys - seen| + if cur in m then 1 else 0
  {
    if cur !in m then true
    else if m[cur] in seen then false
    else
      assert m[cur] in m ==> m.Keys - (seen + {m[cur]}) < m.Keys - seen && m[cur] in m.Keys - seen;
      assert m[cur] in m ==> m.Keys - (seen + {m[cur]}) == (m.Keys - seen) - {m[cur]};
      assert m[cur] !in m ==> m.Keys - (seen + {m[cur]}) == m.Keys - seen;
      Walk(m, m[cur], seen + {m[cur]})
  }

  lemma {:induction false} UpPlus(m: Parents, a: string, i: nat, j: nat)
    requires Up(m, a, i).Some?
    ensures Up(m, a, i + j) == Up(m, Up(m, a, i).value, j)
    decreases i
  {
    if i > 0 {
      UpPlus(m, m[a], i - 1, j);
    }
  }

  // ---- the walk accepts: nothing it saw is above ----

  lemma {:induction false} WalkAvoids(m: Parents, cur: string, seen: set<string>, target: string, k: nat)
    requires Walk(m, cur, seen) && target in seen && k > 0
    ensures Up(m, cur, k) != Some(target)
    decreases k
  {
    if cur in m && k > 1 {
      WalkAvoids(m, m[cur], seen + {m[cur]}, target, k - 1);
    }
  }

  // ---- the walk refuses: there is a way back ----

  // Everything seen so far is on the walk: `name`, or one of the first n ancestors of `from`.
  ghost predicate SeenBy(m: Parents, name: string, from: string, n: nat, seen: set<string>) {
    forall x :: x in seen ==> x == name || exists i: nat :: i <= n && Above(m, from, i, x)
  }

  lemma {:induction false} WalkRefuses(m: Parents, name: string, from: string, n: nat, cur: string, seen: set<string>)
    requires Up(m, from, n) == Some(cur) && SeenBy(m, name, from, n, seen) && !Walk(m, cur, seen)
    ensures (exists k: nat :: k > 0 && Above(m, from, k, name)) || !Acyclic(m)
    decreases |m.Keys - seen| + if cur in m then 1 else 0
  {
    var up := m[cur];
    UpPlus(m, from, n, 1);
    assert Up(m, cur, 1) == Some(up) by { assert Up(m, up, 0) == Some(up); }
    var n' := n + 1;
    assert Up(m, from, n') == Some(up);
    if up !in seen {
      assert up in m ==> m.Keys - (seen + {up}) == (m.Keys - seen) - {up};
      assert up !in m ==> m.Keys - (seen + {up}) == m.Keys - seen;
      SeenOneMore(m, name, from, n, seen, up);
      WalkRefuses(m, name, from, n', up, seen + {up});
    } else if up == name {
      assert Above(m, from, n', name);
    } else {
      var i: nat :| i <= n && Above(m, from, i, up);
      UpPlus(m, from, i, n' - i);
      var k: nat := n' - i;
      assert Above(m, up, k, up);
    }
  }

  lemma SeenOneMore(m: Parents, name: string, from: string, n: nat, seen: set<string>, up: string)
    requires SeenBy(m, name, from, n, seen) && Up(m, from, n + 1) == Some(up)
    ensures SeenBy(m, name, from, n + 1, seen + {up})
  {
    forall x | x in seen + {up} ensures x == name || exists i: nat :: i <= n + 1 && Above(m, from, i, x) {
      if x == up {
        var i: nat := n + 1;
        assert Above(m, from, i, x);
      } else if x != name {
        var i: nat :| i <= n && Above(m, from, i, x);
        assert i <= n + 1;
      }
    }
  }

  // ---- giving a VO a parent ----

  // Up to the first visit of name, the ancestors do not depend on name's own parent.
  lemma {:induction false} SameUntilName(m: Parents, m': Parents, name: string, a: string, k: nat)
    requires m - {name} == m' - {name}
    requires forall i: nat :: i < k ==> Up(m, a, i) != Some(name)
    ensures Up(m, a, k) == Up(m', a, k)
    decreases k
  {
    if k > 0 {
      assert Up(m, a, 0) == Some(a);
      assert a in m - {name} <==> a in m;
      assert a in m' - {name} <==> a in m';
      if a in m {
        assert (m - {name})[a] == (m' - {name})[a];
        forall i: nat | i < k - 1 ensures Up(m, m[a], i) != Some(name) {
          assert Up(m, a, i + 1) == Up(m, m[a], i);
        }
        SameUntilName(m, m', name, m[a], k - 1);
      }
    }
  }

  lemma {:induction false} FirstVisit(m: Parents, a: string, name: string, k: nat) returns (j: nat)
    requires Up(m, a, k) == Some(name)
    ensures j <= k && Up(m, a, j) == Some(name) && forall i: nat :: i < j ==> Up(m, a, i) != Some(name)
    decreases k
  {
    if i: nat :| i < k && Up(m, a, i) == Some(name) {
      j := FirstVisit(m, a, name, i);
    } else {
      j := k;
    }
  }

  // A cycle through a visits everything on it again and again; seen from name it starts at its parent.
  lemma {:induction false} CycleFrom(m: Parents, a: string, i: nat, k: nat)
    requires k > 0 && i < k && Up(m, a, k) == Some(a) && Up(m, a, i).Some?
    ensures Up(m, Up(m, a, i).value, k) == Up(m, a, i)
  {
    UpPlus(m, a, i, k);
    UpPlus(m, a, k, i);
  }

  lemma {:induction false} NewParentStaysAcyclic(m: Parents, name: string, parent: string)
    requires Acyclic(m) && parent != name
    requires forall k: nat :: k > 0 ==> Up(m, parent, k) != Some(name)
    ensures Acyclic(m[name := parent])
  {
    var m' := m[name := parent];
    assert m - {name} == m' - {name};
    forall a, k: nat | k > 0 ensures !Above(m', a, k, a) {
      if forall i: nat :: i < k ==> Up(m', a, i) != Some(name) {
        SameUntilName(m', m, name, a, k);
        assert Above(m', a, k, a) <==> Above(m, a, k, a);
      } else if Above(m', a, k, a) {
        var i: nat :| i < k && Up(m', a, i) == Some(name);
        CycleFrom(m', a, i, k);
        assert Up(m', parent, k - 1) == Some(name);
        var j := FirstVisit(m', parent, name, k - 1);
        assert Up(m', parent, 0) == Some(parent);
        SameUntilName(m', m, name, parent, j);
      }
    }
  }

  lemma {:induction false} NewParentCloses(m: Parents, name: string, parent: string, k: nat)
    requires k > 0 && Up(m, parent, k) == Some(name)
    ensures !Acyclic(m[name := parent])
  {
    var m' := m[name := parent];
    assert m - {name} == m' - {name};
    var j := FirstVisit(m, parent, name, k);
    SameUntilName(m, m', name, parent, j);
    var k' := j + 1;
    assert Up(m', name, k') == Up(m', parent, j) == Some(name);
    assert Above(m', name, k', name);
  }

  /** The walk up from a proposed parent refuses exactly the parents that would close a cycle. */
  lemma {:induction false} WalkFindsCycles(m: Parents, name: string, parent: string)
    requires Acyclic(m) && parent != name
    ensures Walk(m, parent, {name, parent}) <==> Acyclic(m[name := parent])
  {
    if Walk(m, parent, {name, parent}) {
      forall k: nat | k > 0 ensures Up(m, parent, k) != Some(name) {
        WalkAvoids(m, parent, {name, parent}, name, k);
      }
      NewParentStaysAcyclic(m, name, parent);
    } else {
      assert Above(m, parent, 0, parent);
      WalkRefuses(m, name, parent, 0, parent, {name, parent});
      var k: nat :| k > 0 && Above(m, parent, k, name);
      NewParentCloses(m, name, parent, k);
    }
  }

  // Taking parents away cannot close a cycle.
  lemma {:induction false} FewerParentsAcyclic(m: Parents, m': Parents)
    requires Acyclic(m) && forall a :: a in m' ==> a in m && m'[a] == m[a]
    ensures Acyclic(m')
  {
    forall a, k: nat | k > 0 ensures !Above(m', a, k, a) {
      FewerParentsUp(m, m', a, k);
      assert !Above(m, a, k, a);
    }
  }

  lemma {:induction false} FewerParentsUp(m: Parents, m': Parents, a: string, k: nat)
    requires forall b :: b in m' ==> b in m && m'[b] == m[b]
    ensures Up(m', a, k).Some? ==> Up(m, a, k) == Up(m', a, k)
    decreases k
  {
    if k > 0 && a in m' {
      FewerParentsUp(m, m', m'[a], k - 1);
    }
  }

  // Every parent exists among `names`.
  ghost predicate ParentsLive(m: Parents, names: set<string>) {
    forall a :: a in m ==> m[a] in names
  }
}
