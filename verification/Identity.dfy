/**
 Which entity a file path refers to while a commit history is walked
 (internal/githistory/identity.go).

 The registry hands out opaque ids.  The specification of what an id means is given without
 ids at all: an event hands its entity on to the next event that uses the path it left the
 entity on, and two events concern the same entity exactly when a chain of such hand-overs
 connects them.
 */
module Identity {
  import opened Wrappers

  // One changed path.  status is 'A', 'M', 'D', 'R' or 'C'.
  datatype Event = Event(status: char, oldPath: string, newPath: string, name: string)

  datatype Registry = Registry(nextId: nat, current: map<string, nat>, finalName: map<nat, string>)

  const EMPTY := Registry(0, map[], map[])

  predicate Known(e: Event) {
    e.status in {'A', 'M', 'D', 'R', 'C'}
  }

  ghost predicate AllKnown(es: seq<Event>) {
    forall i :: 0 <= i < |es| ==> Known(es[i])
  }

  // ---- the registry, as the code updates it ----

  function Touched(r: Registry, e: Event): (Registry, int) {
    match e.status
    case 'A' =>
      (Registry(r.nextId + 1, r.current[e.newPath := r.nextId], r.finalName[r.nextId := e.name]), r.nextId)
    case 'R' => Moved(r, e)
    case 'C' => Moved(r, e)
    case 'M' =>
      if e.newPath in r.current then
        (r.(finalName := r.finalName[r.current[e.newPath] := e.name]), r.current[e.newPath])
      else
        (Registry(r.nextId + 1, r.current[e.newPath := r.nextId], r.finalName[r.nextId := e.name]), r.nextId)
    case 'D' =>
      if e.oldPath in r.current then
        (r.(current := r.current - {e.oldPath}), r.current[e.oldPath])
      else
        (r.(nextId := r.nextId + 1), r.nextId)
    case _ => (r, -1)
  }

  function Moved(r: Registry, e: Event): (Registry, int) {
    var seen := e.oldPath in r.current;
    var id := if seen then r.current[e.oldPath] else r.nextId;
    (Registry(if seen then r.nextId else r.nextId + 1,
              (r.current - {e.oldPath})[e.newPath := id],
              r.finalName[id := e.name]),
     id)
  }

  class PathIdentity {
    var nextId: nat
    var current: map<string, nat>
    var finalName: map<nat, string>

    function View(): Registry
      reads this
    {
      Registry(nextId, current, finalName)
    }

    constructor ()
      ensures View() == EMPTY
    {
      nextId, current, finalName := 0, map[], map[];
    }

    method Touch(status: char, oldPath: string, newPath: string, name: string) returns (id: int)
      modifies this
      ensures (View(), id) == Touched(old(View()), Event(status, oldPath, newPath, name))
    {
      match status
      case 'A' =>
        var newest := NewId();
        current := current[newPath := newest];
        finalName := finalName[newest := name];
        id := newest;
      case 'R' => id := Move(oldPath, newPath, name);
      case 'C' => id := Move(oldPath, newPath, name);
      case 'M' =>
        var owner: nat;
        if newPath in current {
          owner := current[newPath];
        } else {
          owner := NewId();
          current := current[newPath := owner];
        }
        finalName := finalName[owner := name];
        id := owner;
      case 'D' =>
        if oldPath in current {
          id := current[oldPath];
          current := current - {oldPath};
        } else {
          id := NewId();
        }
      case _ => id := -1;
    }

    method Move(oldPath: string, newPath: string, name: string) returns (id: nat)
      modifies this
      ensures forall c :: (View(), id as int) == Moved(old(View()), Event(c, oldPath, newPath, name))
    {
      if oldPath in current {
        id := current[oldPath];
        current := current - {oldPath};
      } else {
        id := NewId();
        assert current - {oldPath} == current;
      }
      current := current[newPath := id];
      finalName := finalName[id := name];
    }

    method NewId() returns (id: nat)
      modifies this`nextId
      ensures id == old(nextId) && nextId == old(nextId) + 1
    {
      id := nextId;
      nextId := nextId + 1;
    }

    // The name recorded last for id; a Go map yields "" for an id that never got one.
    function FinalName(id: int): (name: string)
      reads this
      ensures name == NameIn(View(), id)
    {
      if id in finalName then finalName[id] else ""
    }
  }

  function NameIn(r: Registry, id: int): string {
    if 0 <= id && id in r.finalName then r.finalName[id] else ""
  }

  // ---- a whole walk ----

  // The registry once the first n events have been touched.
  function RegAt(es: seq<Event>, n: nat): Registry
    requires n <= |es|
  {
    if n == 0 then EMPTY else Touched(RegAt(es, n - 1), es[n - 1]).0
  }

  // The id event n is given.
  function IdAt(es: seq<Event>, n: nat): int
    requires n < |es|
  {
    Touched(RegAt(es, n), es[n]).1
  }

  // The final name of the entity event n concerns, once the walk is over.
  function FinalNameAt(es: seq<Event>, n: nat): string
    requires n < |es|
  {
    NameIn(RegAt(es, |es|), IdAt(es, n))
  }

  // A walk depends on the events walked so far and on nothing later.
  lemma {:induction false} WalkPrefix(es: seq<Event>, more: seq<Event>, n: nat)
    requires n <= |es|
    ensures RegAt(es + more, n) == RegAt(es, n)
    ensures n < |es| ==> IdAt(es + more, n) == IdAt(es, n)
  {
    if n > 0 {
      WalkPrefix(es, more, n - 1);
    }
  }

  // ---- lineages, without ids ----

  // The path an event takes its entity from, and the path it leaves it on.
  function Source(e: Event): Option<string> {
    if e.status in {'R', 'C', 'D'} then Some(e.oldPath)
    else if e.status == 'M' then Some(e.newPath)
    else None
  }

  function Dest(e: Event): Option<string> {
    if e.status in {'A', 'M', 'R', 'C'} then Some(e.newPath) else None
  }

  predicate Uses(e: Event, p: string) {
    Source(e) == Some(p) || Dest(e) == Some(p)
  }

  // Event i left an entity on p, and no event before n has used p since.
  ghost predicate Holds(es: seq<Event>, n: nat, p: string, i: nat) {
    && i < n <= |es|
    && Dest(es[i]) == Some(p)
    && forall k :: i < k < n ==> !Uses(es[k], p)
  }

  // Event j picks up the entity event i put down.
  ghost predicate Link(es: seq<Event>, i: nat, j: nat) {
    && i < j < |es|
    && Source(es[j]).Some?
    && Holds(es, j, Source(es[j]).value, i)
  }

  ghost predicate Chain(es: seq<Event>, i: nat, j: nat)
    decreases j - i
  {
    && i <= j < |es|
    && (i == j || exists k :: i < k <= j && Link(es, i, k) && Chain(es, k, j))
  }

  // ---- ids are exactly lineages ----

  ghost predicate Injective(r: Registry) {
    forall p, q :: p in r.current && q in r.current && r.current[p] == r.current[q] ==> p == q
  }

  ghost predicate IdsIssued(r: Registry) {
    && (forall p :: p in r.current ==> r.current[p] < r.nextId)
    && (forall id :: id in r.finalName ==> id < r.nextId)
  }

  // No two paths ever share an entity.
  lemma {:induction false} CurrentStaysInjective(es: seq<Event>, n: nat)
    requires n <= |es|
    ensures Injective(RegAt(es, n)) && IdsIssued(RegAt(es, n))
  {
    if n > 0 {
      CurrentStaysInjective(es, n - 1);
    }
  }

  lemma {:induction false} IdsOnlyGrow(es: seq<Event>, i: nat, n: nat)
    requires AllKnown(es) && i < n <= |es|
    ensures 0 <= IdAt(es, i) < RegAt(es, n).nextId
    decreases n
  {
    CurrentStaysInjective(es, i);
    if i + 1 < n {
      IdsOnlyGrow(es, i, n - 1);
    }
  }

  // What one event does to the tracked paths and to the names.
  lemma OneTouch(r: Registry, e: Event)
    requires Known(e)
    ensures forall p :: !Uses(e, p) ==> (p in Touched(r, e).0.current <==> p in r.current)
    ensures forall p :: !Uses(e, p) && p in r.current ==> Touched(r, e).0.current[p] == r.current[p]
    ensures Touched(r, e).1 >= 0
    ensures Touched(r, e).0.finalName ==
      if e.status == 'D' then r.finalName else r.finalName[Touched(r, e).1 as nat := e.name]
  {}

  // A path is tracked exactly while some event's entity still rests on it, under that event's id.
  lemma {:induction false} TrackedIffHeld(es: seq<Event>, n: nat, p: string)
    requires AllKnown(es) && n <= |es|
    ensures p in RegAt(es, n).current <==> exists i: nat :: Holds(es, n, p, i)
    ensures forall i: nat :: Holds(es, n, p, i) ==> RegAt(es, n).current[p] == IdAt(es, i)
  {
    if n > 0 {
      var m := n - 1;
      var e := es[m];
      TrackedIffHeld(es, m, p);
      assert Known(e);
      if Dest(e) == Some(p) {
        assert Uses(e, p);
        assert Holds(es, n, p, m);
        assert forall i: nat :: Holds(es, n, p, i) ==> i == m;
      } else if Source(e) == Some(p) {
        assert Uses(e, p);
        assert forall i: nat :: !Holds(es, n, p, i);
      } else {
        OneTouch(RegAt(es, m), e);
        assert !Uses(e, p);
        assert forall i: nat :: Holds(es, n, p, i) <==> Holds(es, m, p, i);
      }
    }
  }

  // An event's id is that of the event it continues, or new when it continues none.
  lemma IdOfEvent(es: seq<Event>, j: nat)
    requires AllKnown(es) && j < |es|
    ensures forall i: nat :: Link(es, i, j) ==> IdAt(es, j) == IdAt(es, i)
    ensures (forall i: nat :: !Link(es, i, j)) ==> IdAt(es, j) == RegAt(es, j).nextId
  {
    assert Known(es[j]);
    if Source(es[j]).Some? {
      TrackedIffHeld(es, j, Source(es[j]).value);
      forall i: nat | Holds(es, j, Source(es[j]).value, i) ensures Link(es, i, j) {}
    }
  }

  lemma {:induction false} ChainSharesId(es: seq<Event>, i: nat, j: nat)
    requires AllKnown(es) && Chain(es, i, j)
    ensures IdAt(es, i) == IdAt(es, j)
    decreases j - i
  {
    if i < j {
      var k :| i < k <= j && Link(es, i, k) && Chain(es, k, j);
      IdOfEvent(es, k);
      ChainSharesId(es, k, j);
    }
  }

  lemma {:induction false} ChainThenLink(es: seq<Event>, i: nat, k: nat, j: nat)
    requires Chain(es, i, k) && Link(es, k, j)
    ensures Chain(es, i, j)
    decreases k - i
  {
    if i == k {
      assert Chain(es, j, j);
    } else {
      var m :| i < m <= k && Link(es, i, m) && Chain(es, m, k);
      ChainThenLink(es, m, k, j);
    }
  }

  lemma {:induction false} SharedIdIsChain(es: seq<Event>, i: nat, j: nat)
    requires AllKnown(es) && i <= j < |es| && IdAt(es, i) == IdAt(es, j)
    ensures Chain(es, i, j)
    decreases j, j - i
  {
    if i < j {
      IdsOnlyGrow(es, i, j);
      IdOfEvent(es, j);
      var k: nat :| Link(es, k, j);
      if i <= k {
        SharedIdIsChain(es, i, k);
        ChainThenLink(es, i, k, j);
      } else {
        SharedIdIsChain(es, k, i);
        var m :| k < m <= i && Link(es, k, m) && Chain(es, m, i);
        assert Dest(es[k]) == Source(es[m]) == Source(es[j]);
        assert Uses(es[m], Source(es[j]).value);
        assert false;
      }
    }
  }

  /** Two events get the same id exactly when hand-overs of one entity connect them. */
  lemma SameIdIffSameLineage(es: seq<Event>, i: nat, j: nat)
    requires AllKnown(es) && i <= j < |es|
    ensures IdAt(es, i) == IdAt(es, j) <==> Chain(es, i, j)
  {
    if Chain(es, i, j) {
      ChainSharesId(es, i, j);
    }
    if IdAt(es, i) == IdAt(es, j) {
      SharedIdIsChain(es, i, j);
    }
  }

  // ---- final names ----

  // Event i is the last among the first n to give a name to the entity `id`.
  ghost predicate LastNaming(es: seq<Event>, n: nat, id: int, i: nat) {
    && i < n <= |es|
    && IdAt(es, i) == id && es[i].status != 'D'
    && forall k :: i < k < n && IdAt(es, k) == id ==> es[k].status == 'D'
  }

  lemma {:induction false} FinalNameIsLastNaming(es: seq<Event>, n: nat, id: nat)
    requires AllKnown(es) && n <= |es|
    ensures id in RegAt(es, n).finalName <==> exists i: nat :: LastNaming(es, n, id, i)
    ensures forall i: nat :: LastNaming(es, n, id, i) ==> RegAt(es, n).finalName[id] == es[i].name
  {
    if n > 0 {
      var m := n - 1;
      FinalNameIsLastNaming(es, m, id);
      NamingStep(es, m, n, id);
      if IdAt(es, m) == id && es[m].status != 'D' {
        assert LastNaming(es, n, id, m);
      }
    }
  }

  lemma NamingStep(es: seq<Event>, m: nat, n: nat, id: nat)
    requires AllKnown(es) && m < n == m + 1 <= |es|
    ensures IdAt(es, m) == id && es[m].status != 'D' ==>
      id in RegAt(es, n).finalName && RegAt(es, n).finalName[id] == es[m].name
    ensures IdAt(es, m) == id && es[m].status != 'D' ==> forall i: nat :: LastNaming(es, n, id, i) ==> i == m
    ensures !(IdAt(es, m) == id && es[m].status != 'D') ==>
      && (id in RegAt(es, n).finalName <==> id in RegAt(es, m).finalName)
      && (id in RegAt(es, m).finalName ==> RegAt(es, n).finalName[id] == RegAt(es, m).finalName[id])
      && forall i: nat :: LastNaming(es, n, id, i) <==> LastNaming(es, m, id, i)
  {
    OneTouch(RegAt(es, m), es[m]);
  }

  // The naming rule of the importer's first pass: the name the new path spells if it spells one.
  ghost predicate NamedBy(es: seq<Event>, spelled: string -> Option<string>) {
    forall i {:trigger spelled(es[i].newPath)} ::
      0 <= i < |es| && spelled(es[i].newPath).Some? ==> es[i].name == spelled(es[i].newPath).value
  }

  lemma NamedParts(pre: seq<Event>, suf: seq<Event>, spelled: string -> Option<string>)
    requires NamedBy(pre, spelled) && NamedBy(suf, spelled)
    ensures NamedBy(pre + suf, spelled)
  {
    var es := pre + suf;
    forall i | 0 <= i < |es| && spelled(es[i].newPath).Some? ensures es[i].name == spelled(es[i].newPath).value {
      if i < |pre| {
        assert es[i] == pre[i];
      } else {
        assert es[i] == suf[i - |pre|];
      }
    }
  }

  // One touch keeps the name of a path it leaves alone, and gives the one it uses the name of the event.
  lemma NameAfterTouch(r: Registry, e: Event, p: string)
    requires Known(e) && Injective(r) && IdsIssued(r) && p in Touched(r, e).0.current
    ensures var after := Touched(r, e).0;
      if Dest(e) == Some(p) then NameIn(after, after.current[p]) == e.name
      else p in r.current && NameIn(after, after.current[p]) == NameIn(r, r.current[p])
  {}

  /** At every point of the walk a tracked entity path carries the name that path spells. */
  lemma {:induction false} TrackedPathKeepsItsName(es: seq<Event>, n: nat, p: string, spelled: string -> Option<string>)
    requires AllKnown(es) && NamedBy(es, spelled) && n <= |es|
    requires p in RegAt(es, n).current && spelled(p).Some?
    ensures NameIn(RegAt(es, n), RegAt(es, n).current[p]) == spelled(p).value
  {
    hide Touched, Injective, IdsIssued, NameIn, Known;
    var e := es[n - 1];
    CurrentStaysInjective(es, n - 1);
    NameAfterTouch(RegAt(es, n - 1), e, p);
    if Dest(e) == Some(p) {
      assert e.newPath == p && spelled(es[n - 1].newPath).Some?;
    } else {
      TrackedPathKeepsItsName(es, n - 1, p, spelled);
    }
  }

  // ---- a walk that starts late ----

  // Event j's lineage is named at least once within the walk.
  ghost predicate NamedWithin(es: seq<Event>, j: nat) {
    exists i {:trigger IdAt(es, i)} :: 0 <= i < |es| && j < |es| && IdAt(es, i) == IdAt(es, j) && es[i].status != 'D'
  }

  lemma LinkInSuffix(pre: seq<Event>, suf: seq<Event>, i: nat, j: nat)
    requires i < j < |suf|
    ensures Link(pre + suf, |pre| + i, |pre| + j) <==> Link(suf, i, j)
  {
    var es := pre + suf;
    assert forall k :: 0 <= k < |suf| ==> es[|pre| + k] == suf[k];
    if Link(es, |pre| + i, |pre| + j) {
      forall k | i < k < j ensures !Uses(suf[k], Source(suf[j]).value) {
        assert !Uses(es[|pre| + k], Source(suf[j]).value);
      }
    }
    if Link(suf, i, j) {
      forall k | |pre| + i < k < |pre| + j ensures !Uses(es[k], Source(suf[j]).value) {
        assert !Uses(suf[k - |pre|], Source(suf[j]).value);
      }
    }
  }

  lemma {:induction false} ChainInSuffix(pre: seq<Event>, suf: seq<Event>, i: nat, j: nat)
    requires i <= j < |suf|
    ensures Chain(pre + suf, |pre| + i, |pre| + j) <==> Chain(suf, i, j)
    decreases j - i
  {
    if i < j {
      var es := pre + suf;
      forall k | i < k <= j
        ensures Link(es, |pre| + i, |pre| + k) <==> Link(suf, i, k)
        ensures Chain(es, |pre| + k, |pre| + j) <==> Chain(suf, k, j)
      {
        LinkInSuffix(pre, suf, i, k);
        ChainInSuffix(pre, suf, k, j);
      }
      if Chain(es, |pre| + i, |pre| + j) {
        var k :| |pre| + i < k <= |pre| + j && Link(es, |pre| + i, k) && Chain(es, k, |pre| + j);
        var k' := k - |pre|;
        assert Link(suf, i, k') && Chain(suf, k', j);
      }
      if Chain(suf, i, j) {
        var k :| i < k <= j && Link(suf, i, k) && Chain(suf, k, j);
        assert Link(es, |pre| + i, |pre| + k) && Chain(es, |pre| + k, |pre| + j);
      }
    }
  }

  // What came before a suffix decides which numbers it sees, never which events share one.
  lemma SuffixSharesIds(pre: seq<Event>, suf: seq<Event>, i: nat, j: nat)
    requires AllKnown(pre) && AllKnown(suf) && i < |suf| && j < |suf|
    ensures IdAt(pre + suf, |pre| + i) == IdAt(pre + suf, |pre| + j) <==> IdAt(suf, i) == IdAt(suf, j)
  {
    var lo, hi := if i <= j then i else j, if i <= j then j else i;
    assert AllKnown(pre + suf);
    SameIdIffSameLineage(pre + suf, |pre| + lo, |pre| + hi);
    SameIdIffSameLineage(suf, lo, hi);
    ChainInSuffix(pre, suf, lo, hi);
  }

  lemma IdsAreNat(es: seq<Event>, j: nat)
    requires AllKnown(es) && j < |es|
    ensures 0 <= IdAt(es, j)
  {
    IdsOnlyGrow(es, j, |es|);
  }

  lemma LastNamingInSuffix(pre: seq<Event>, suf: seq<Event>, j: nat, i: nat)
    requires AllKnown(pre) && AllKnown(suf) && j < |suf|
    requires LastNaming(suf, |suf|, IdAt(suf, j), i)
    ensures LastNaming(pre + suf, |pre + suf|, IdAt(pre + suf, |pre| + j), |pre| + i)
  {
    var es := pre + suf;
    SuffixSharesIds(pre, suf, i, j);
    assert es[|pre| + i] == suf[i];
    forall k | |pre| + i < k < |es| && IdAt(es, k) == IdAt(es, |pre| + j)
      ensures es[k].status == 'D'
    {
      SuffixSharesIds(pre, suf, k - |pre|, j);
      assert es[k] == suf[k - |pre|];
    }
  }

  /** A walk that starts late agrees with one that saw everything on the final name of each lineage
      it sees named, and leaves the name of every other lineage empty.  */
  lemma LateStartAgrees(pre: seq<Event>, suf: seq<Event>, j: nat)
    requires AllKnown(pre) && AllKnown(suf) && j < |suf|
    ensures FinalNameAt(suf, j) == if NamedWithin(suf, j) then FinalNameAt(pre + suf, |pre| + j) else ""
  {
    var es := pre + suf;
    assert AllKnown(es);
    IdsAreNat(suf, j);
    IdsAreNat(es, |pre| + j);
    FinalNameIsLastNaming(suf, |suf|, IdAt(suf, j));
    FinalNameIsLastNaming(es, |es|, IdAt(es, |pre| + j));
    if NamedWithin(suf, j) {
      var i :| 0 <= i < |suf| && IdAt(suf, i) == IdAt(suf, j) && suf[i].status != 'D';
      var last := LatestNaming(suf, j, i);
      LastNamingInSuffix(pre, suf, j, last);
      assert es[|pre| + last] == suf[last];
    } else {
      assert forall i: nat :: !LastNaming(suf, |suf|, IdAt(suf, j), i);
    }
  }

  lemma {:induction false} LatestNaming(es: seq<Event>, j: nat, i: nat) returns (last: nat)
    requires AllKnown(es) && i < |es| && j < |es| && IdAt(es, i) == IdAt(es, j) && es[i].status != 'D'
    ensures LastNaming(es, |es|, IdAt(es, j), last)
    decreases |es| - i
  {
    if k :| i < k < |es| && IdAt(es, k) == IdAt(es, j) && es[k].status != 'D' {
      last := LatestNaming(es, j, k);
    } else {
      last := i;
    }
  }

  /** Whatever two walks saw before a common ending, they agree on the final name of every event of
      the ending whose lineage the ending itself names. */
  lemma EndingDecidesNames(pre: seq<Event>, pre': seq<Event>, suf: seq<Event>, j: nat)
    requires AllKnown(pre) && AllKnown(pre') && AllKnown(suf) && j < |suf| && NamedWithin(suf, j)
    ensures FinalNameAt(pre + suf, |pre| + j) == FinalNameAt(pre' + suf, |pre'| + j)
  {
    LateStartAgrees(pre, suf, j);
    LateStartAgrees(pre', suf, j);
  }

  // ---- a lineage that is only deleted ----

  // When the ending starts, the path that its event j deletes is tracked, and nothing uses it until
  // then.
  ghost predicate StillTracked(pre: seq<Event>, suf: seq<Event>, j: nat) {
    && j < |suf| && suf[j].oldPath in RegAt(pre, |pre|).current
    && forall k {:trigger Uses(suf[k], suf[j].oldPath)} :: 0 <= k < j ==> !Uses(suf[k], suf[j].oldPath)
  }

  lemma UnnamedIsDeletion(suf: seq<Event>, j: nat)
    requires AllKnown(suf) && j < |suf| && !NamedWithin(suf, j)
    ensures suf[j].status == 'D'
  {
    IdsAreNat(suf, j);
  }

  // An event of the ending that put the path down would have named the lineage.
  lemma {:induction false} PutDownBefore(pre: seq<Event>, suf: seq<Event>, j: nat, i: nat)
    requires AllKnown(pre) && AllKnown(suf) && j < |suf| && !NamedWithin(suf, j)
    requires Holds(pre + suf, |pre| + j, suf[j].oldPath, i)
    ensures i < |pre|
  {
    UnnamedIsDeletion(suf, j);
    if i >= |pre| {
      assert (pre + suf)[|pre| + j] == suf[j];
      assert Link(pre + suf, i, |pre| + j);
      LinkInSuffix(pre, suf, i - |pre|, j);
      IdOfEvent(suf, j);
      assert false;
    }
  }

  lemma {:induction false} TrackedThroughout(pre: seq<Event>, suf: seq<Event>, j: nat)
    requires AllKnown(pre) && AllKnown(suf) && j < |suf| && !NamedWithin(suf, j)
    ensures suf[j].oldPath in RegAt(pre + suf, |pre| + j).current <==> StillTracked(pre, suf, j)
  {
    var es, p, n := pre + suf, suf[j].oldPath, |pre| + j;
    assert AllKnown(es);
    TrackedIffHeld(es, n, p);
    TrackedIffHeld(pre, |pre|, p);
    assert forall k :: 0 <= k < |suf| ==> es[|pre| + k] == suf[k];
    if i: nat :| Holds(es, n, p, i) {
      PutDownBefore(pre, suf, j, i);
      forall k | i < k < |pre| ensures !Uses(pre[k], p) {
        assert es[k] == pre[k];
      }
      assert Holds(pre, |pre|, p, i);
      forall k | 0 <= k < j ensures !Uses(suf[k], p) {
        assert !Uses(es[|pre| + k], p);
      }
    }
    if StillTracked(pre, suf, j) {
      var i: nat :| Holds(pre, |pre|, p, i);
      forall k | i < k < n ensures !Uses(es[k], p) {
        if k < |pre| {
          assert es[k] == pre[k];
        } else {
          assert es[k] == suf[k - |pre|];
        }
      }
      assert Holds(es, n, p, i);
    }
  }

  // The name of an entity stays while nothing but deletions concern it.
  lemma {:induction false} NameStays(es: seq<Event>, id: nat, n: nat, m: nat)
    requires AllKnown(es) && n <= m <= |es|
    requires forall k :: n <= k < m && IdAt(es, k) == id ==> es[k].status == 'D'
    ensures NameIn(RegAt(es, m), id) == NameIn(RegAt(es, n), id)
    decreases m
  {
    if n < m {
      NameStays(es, id, n, m - 1);
      OneTouch(RegAt(es, m - 1), es[m - 1]);
    }
  }

  lemma {:induction false} NewIdHasNoName(es: seq<Event>, n: nat)
    requires n <= |es|
    ensures NameIn(RegAt(es, n), RegAt(es, n).nextId) == ""
  {
    CurrentStaysInjective(es, n);
  }

  /** The name of a lineage of which an ending shows deletions only: the one that the deleted path spells
      when the path was still tracked, and none otherwise. */
  lemma {:induction false} NameOfDeleted(pre: seq<Event>, suf: seq<Event>, j: nat, spelled: string -> Option<string>)
    requires AllKnown(pre) && AllKnown(suf) && NamedBy(pre, spelled) && NamedBy(suf, spelled)
    requires j < |suf| && !NamedWithin(suf, j) && spelled(suf[j].oldPath).Some?
    ensures FinalNameAt(pre + suf, |pre| + j) ==
      if StillTracked(pre, suf, j) then spelled(suf[j].oldPath).value else ""
  {
    var es, n := pre + suf, |pre| + j;
    assert AllKnown(es) && es[n] == suf[j];
    NamedParts(pre, suf, spelled);
    UnnamedIsDeletion(suf, j);
    TrackedThroughout(pre, suf, j);
    UnnamedIsFinished(pre, suf, j);
    IdsAreNat(es, n);
    FinishedName(es, n, IdAt(es, n));
    DeletedName(es, n, spelled);
  }

  // After event n, only deletions concern the entity.
  ghost predicate Finished(es: seq<Event>, n: nat, id: int) {
    forall k {:trigger IdAt(es, k)} :: n <= k < |es| && IdAt(es, k) == id ==> es[k].status == 'D'
  }

  lemma {:induction false} FinishedName(es: seq<Event>, n: nat, id: nat)
    requires AllKnown(es) && n <= |es| && Finished(es, n, id)
    ensures NameIn(RegAt(es, |es|), id) == NameIn(RegAt(es, n), id)
  {
    NameStays(es, id, n, |es|);
  }

  lemma {:induction false} UnnamedIsFinished(pre: seq<Event>, suf: seq<Event>, j: nat)
    requires AllKnown(pre) && AllKnown(suf) && j < |suf| && !NamedWithin(suf, j)
    ensures Finished(pre + suf, |pre| + j, IdAt(pre + suf, |pre| + j))
  {
    var es, n := pre + suf, |pre| + j;
    forall k | n <= k < |es| && IdAt(es, k) == IdAt(es, n) ensures es[k].status == 'D' {
      SuffixSharesIds(pre, suf, k - |pre|, j);
      assert es[k] == suf[k - |pre|];
    }
  }

  // What a deletion finds as the name of its entity.
  lemma {:induction false} DeletedName(es: seq<Event>, n: nat, spelled: string -> Option<string>)
    requires AllKnown(es) && NamedBy(es, spelled) && n < |es| && es[n].status == 'D' && spelled(es[n].oldPath).Some?
    ensures NameIn(RegAt(es, n), IdAt(es, n)) ==
      if es[n].oldPath in RegAt(es, n).current then spelled(es[n].oldPath).value else ""
  {
    if es[n].oldPath in RegAt(es, n).current {
      TrackedPathKeepsItsName(es, n, es[n].oldPath, spelled);
    } else {
      NewIdHasNoName(es, n);
    }
  }

  // Without a naming in the ending the two walks can differ: an entity added, then deleted, is
  // known by its name to the walk that saw the addition and by no name to the one that did not.
  lemma DeletedOnlyLosesItsName()
    ensures FinalNameAt([Event('A', "", "p", "n"), Event('D', "p", "", "n")], 1) == "n"
    ensures FinalNameAt([Event('D', "p", "", "n")], 0) == ""
  {
    var es := [Event('A', "", "p", "n"), Event('D', "p", "", "n")];
    assert RegAt(es, 1) == Registry(1, map["p" := 0], map[0 := "n"]);
    assert RegAt(es, 2).finalName == map[0 := "n"];
    assert IdAt(es, 1) == 0;
    var ds := [Event('D', "p", "", "n")];
    assert RegAt(ds, 0) == EMPTY;
    assert RegAt(ds, 1) == Registry(1, map[], map[]);
  }
}
