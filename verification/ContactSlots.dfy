/**
 What replacing, listing and handing over contacts does to the slots of an entity: a slot is a
 contact type and a rank.
 */
module ContactSlots {
  import opened Kinds
  import opened SortedStrings
  import opened Contacts

  // ---- replacing a list ----

  // Nothing the entity keeps from before is in a slot that is written now.
  ghost predicate NoClash(rows: seq<ContactRow>, kind: Kind, entity: string, written: seq<ContactRow>) {
    forall i, p :: 0 <= i < |rows| && 0 <= p < |written| && Of(rows[i], kind, entity) ==> !SameSlot(rows[i], written[p])
  }

  lemma {:induction false} AppendKeepsOneHolder(a: seq<ContactRow>, b: seq<ContactRow>, kind: Kind, entity: string)
    requires forall p :: 0 <= p < |b| ==> Of(b[p], kind, entity)
    ensures OneHolderEach(a + b, kind, entity) <==>
      OneHolderEach(a, kind, entity) && OneHolderEach(b, kind, entity) && NoClash(a, kind, entity, b)
  {
    var c := a + b;
    assert forall i :: 0 <= i < |a| ==> c[i] == a[i];
    assert forall p :: 0 <= p < |b| ==> c[|a| + p] == b[p];
    if OneHolderEach(c, kind, entity) {
      forall p, q | 0 <= p < q < |b| ensures !SameSlot(b[p], b[q]) {
        assert !SameSlot(c[|a| + p], c[|a| + q]);
      }
      forall i, p | 0 <= i < |a| && 0 <= p < |b| && Of(a[i], kind, entity) ensures !SameSlot(a[i], b[p]) {
        assert !SameSlot(c[i], c[|a| + p]);
      }
    }
    if OneHolderEach(a, kind, entity) && OneHolderEach(b, kind, entity) && NoClash(a, kind, entity, b) {
      forall i, j | 0 <= i < j < |c| && Of(c[i], kind, entity) && Of(c[j], kind, entity) ensures !SameSlot(c[i], c[j]) {
        if j >= |a| {
          assert c[j] == b[j - |a|];
          if i >= |a| {
            assert c[i] == b[i - |a|];
          }
        }
      }
    }
  }

  lemma {:induction false} WrittenBelongs(kind: Kind, entity: string, cs: seq<Contact>)
    ensures forall p :: 0 <= p < |Written(kind, entity, cs)| ==> Of(Written(kind, entity, cs)[p], kind, entity)
  {
    forall p | 0 <= p < |Written(kind, entity, cs)| ensures Of(Written(kind, entity, cs)[p], kind, entity) {
      var i := WrittenComesFrom(kind, entity, cs, p);
    }
  }

  /** After a replacement no slot of the entity has two holders exactly when the list has at most three
      contacts of each type and, if the entity takes a new name, what is already filed under that name
      is sound and in other slots. */
  lemma {:induction false} ReplaceKeepsOneHolder(rows: seq<ContactRow>, kind: Kind, target: string, name: string,
                                                 cs: seq<Contact>)
    ensures OneHolderEach(Replaced(rows, kind, target, name, cs), kind, name) <==>
      && AtMostThreeEach(cs)
      && (target == name || (OneHolderEach(rows, kind, name) && NoClash(rows, kind, name, Written(kind, name, cs))))
  {
    var kept := Retired(rows, kind, target);
    WrittenBelongs(kind, name, cs);
    WrittenSlotsDistinct(kind, name, cs);
    AppendKeepsOneHolder(kept, Written(kind, name, cs), kind, name);
    if target == name {
      assert forall i :: 0 <= i < |kept| ==> !Of(kept[i], kind, name);
    } else {
      assert forall i :: 0 <= i < |rows| ==> (Of(rows[i], kind, name) <==> Of(kept[i], kind, name));
      assert forall i :: 0 <= i < |rows| ==> (Of(rows[i], kind, name) ==> kept[i] == rows[i]);
      UnchangedFor(rows, kept, kind, name, Written(kind, name, cs));
    }
  }

  lemma {:induction false} UnchangedFor(a: seq<ContactRow>, b: seq<ContactRow>, kind: Kind, entity: string,
                                        written: seq<ContactRow>)
    requires |a| == |b|
    requires forall i :: 0 <= i < |a| ==> (Of(a[i], kind, entity) <==> Of(b[i], kind, entity))
    requires forall i :: 0 <= i < |a| ==> (Of(a[i], kind, entity) ==> b[i] == a[i])
    ensures OneHolderEach(a, kind, entity) <==> OneHolderEach(b, kind, entity)
    ensures NoClash(a, kind, entity, written) <==> NoClash(b, kind, entity, written)
  {}

  lemma {:induction false} OneContactWritten(kind: Kind, entity: string, c: Contact)
    requires !Blank(c)
    ensures Written(kind, entity, [c]) == [RowFor(kind, entity, c, 0)] && AtMostThreeEach([c])
  {
    assert [c][..0] == [];
    assert Written(kind, entity, [c][..0]) == [];
    assert forall t :: Count([c], t) <= 1;
  }

  /** Deleting an entity leaves its contacts live, so creating one again under its name, with a contact
      of its own, gives a slot two holders. */
  lemma {:induction false} OrphanedContactsCollide(kind: Kind, entity: string, other: string, c: Contact)
    requires !Blank(c) && other != entity
    ensures var rows := Written(kind, entity, [c]);
      && OneHolderEach(rows, kind, entity)
      && !OneHolderEach(Replaced(rows, kind, other, entity, [c]), kind, entity)
  {
    var rows := Written(kind, entity, [c]);
    OneContactWritten(kind, entity, c);
    assert Of(rows[0], kind, entity) && SameSlot(rows[0], rows[0]);
    assert !NoClash(rows, kind, entity, rows);
    ReplaceKeepsOneHolder(rows, kind, other, entity, [c]);
  }

  // ---- listing ----

  function LiveOf(rows: seq<ContactRow>, kind: Kind, entity: string): seq<ContactRow> {
    if rows == [] then []
    else
      var r := rows[|rows| - 1];
      LiveOf(rows[..|rows| - 1], kind, entity) + if r.live && r.kind == kind && r.entity == entity then [r] else []
  }

  ghost predicate SlotLeq(a: ContactRow, b: ContactRow) {
    if a.ctype == b.ctype then Leq(a.rank, b.rank) else Leq(a.ctype, b.ctype)
  }

  // What listing an entity's contacts may return: its live rows, by type and rank.
  ghost predicate IsListing(rows: seq<ContactRow>, kind: Kind, entity: string, out: seq<ContactRow>) {
    && multiset(out) == multiset(LiveOf(rows, kind, entity))
    && forall i, j :: 0 <= i < j < |out| ==> SlotLeq(out[i], out[j])
  }

  function Submit(out: seq<ContactRow>): (cs: seq<Contact>)
    ensures |cs| == |out| && forall i :: 0 <= i < |out| ==> cs[i] == Contact(out[i].ctype, out[i].name, out[i].id)
  {
    seq(|out|, i requires 0 <= i < |out| => Contact(out[i].ctype, out[i].name, out[i].id))
  }

  // Every rank held is one of the three, and so is the rank before it held for the same type.
  ghost predicate GapFree(out: seq<ContactRow>) {
    forall i :: 0 <= i < |out| ==> RankedAfterAnother(out, out[i])
  }

  ghost predicate RankedAfterAnother(out: seq<ContactRow>, r: ContactRow) {
    || r.rank == RANKS[0]
    || (r.rank == RANKS[1] && exists j :: 0 <= j < |out| && out[j].ctype == r.ctype && out[j].rank == RANKS[0])
    || (r.rank == RANKS[2] && exists j :: 0 <= j < |out| && out[j].ctype == r.ctype && out[j].rank == RANKS[1])
  }

  ghost predicate NoneBlank(out: seq<ContactRow>) {
    forall i :: 0 <= i < |out| ==> !Blank(Submit(out)[i])
  }

  // The rows listed are live rows of one entity, one per slot, in slot order.
  ghost predicate Listed(out: seq<ContactRow>, kind: Kind, entity: string) {
    && (forall i :: 0 <= i < |out| ==> Of(out[i], kind, entity))
    && OneHolderEach(out, kind, entity)
    && (forall i, j :: 0 <= i < j < |out| ==> SlotLeq(out[i], out[j]))
  }

  lemma {:induction false} RankOrder(m: nat, n: nat)
    requires m < 3 && n < 3
    ensures Leq(RANKS[m], RANKS[n]) ==> m <= n
    ensures RANKS[m] == RANKS[n] ==> m == n
  {
    assert RANKS[0][0] == 'P' && RANKS[1][0] == 'S' && RANKS[2][0] == 'T';
  }

  lemma {:induction false} RankIndex(out: seq<ContactRow>, r: ContactRow) returns (m: nat)
    requires RankedAfterAnother(out, r)
    ensures m < 3 && r.rank == RANKS[m]
  {
    m := if r.rank == RANKS[0] then 0 else if r.rank == RANKS[1] then 1 else 2;
  }

  // Before a contact of a later rank comes one of the rank before it.
  lemma {:induction false} EarlierRank(out: seq<ContactRow>, kind: Kind, entity: string, i: nat, m: nat)
    returns (j: nat)
    requires Listed(out, kind, entity) && i < |out| && RankedAfterAnother(out, out[i])
    requires 0 < m < 3 && out[i].rank == RANKS[m]
    ensures j < i && out[j].ctype == out[i].ctype && out[j].rank == RANKS[m - 1]
  {
    RankOrder(m, 0);
    RankOrder(m, 3 - m);
    RankOrder(m, m - 1);
    j :| 0 <= j < |out| && out[j].ctype == out[i].ctype && out[j].rank == RANKS[m - 1];
    assert SlotLeq(out[i], out[j]) ==> m <= m - 1;
  }

  // In a gap-free listing the position of a contact among those of its type is its rank.
  lemma {:induction false} PositionIsRank(out: seq<ContactRow>, kind: Kind, entity: string, i: nat, m: nat)
    requires Listed(out, kind, entity) && GapFree(out) && NoneBlank(out)
    requires i < |out| && m < 3 && out[i].rank == RANKS[m]
    ensures Count(Submit(out)[..i], out[i].ctype) == m
    decreases i
  {
    var cs, t := Submit(out), out[i].ctype;
    if m > 0 {
      assert RankedAfterAnother(out, out[i]);
      var j := EarlierRank(out, kind, entity, i, m);
      PositionIsRank(out, kind, entity, j, m - 1);
      CountAfter(cs, j, i);
    }
    if Count(cs[..i], t) > m {
      var j := Nth(cs, i, t, m);
      assert RankedAfterAnother(out, out[j]);
      var n := RankIndex(out, out[j]);
      PositionIsRank(out, kind, entity, j, n);
    }
  }

  lemma {:induction false} CountAfter(cs: seq<Contact>, j: nat, i: nat)
    requires j < i <= |cs| && !Blank(cs[j])
    ensures Count(cs[..i], cs[j].ctype) > Count(cs[..j], cs[j].ctype)
  {
    assert cs[..j + 1][..j] == cs[..j];
    CountGrows(cs, j + 1, i, cs[j].ctype);
  }

  lemma WrittenNext(kind: Kind, entity: string, cs: seq<Contact>, n: nat)
    requires 0 < n <= |cs|
    ensures Written(kind, entity, cs[..n]) == Written(kind, entity, cs[..n - 1]) +
      if Blank(cs[n - 1]) then [] else [RowFor(kind, entity, cs[n - 1], Count(cs[..n - 1], cs[n - 1].ctype))]
  {
    assert cs[..n][..n - 1] == cs[..n - 1];
  }

  lemma {:induction false} GapFreeIsFixed(out: seq<ContactRow>, kind: Kind, entity: string, n: nat)
    requires Listed(out, kind, entity) && GapFree(out) && NoneBlank(out) && n <= |out|
    ensures Written(kind, entity, Submit(out)[..n]) == out[..n]
  {
    if n > 0 {
      var cs := Submit(out);
      GapFreeIsFixed(out, kind, entity, n - 1);
      WrittenNext(kind, entity, cs, n);
      RowIsItself(out, kind, entity, n - 1);
    }
  }

  lemma {:induction false} RowIsItself(out: seq<ContactRow>, kind: Kind, entity: string, i: nat)
    requires Listed(out, kind, entity) && GapFree(out) && NoneBlank(out) && i < |out|
    ensures var c := Submit(out)[i];
      !Blank(c) && RowFor(kind, entity, c, Count(Submit(out)[..i], c.ctype)) == out[i]
  {
    assert RankedAfterAnother(out, out[i]) && Of(out[i], kind, entity);
    var m := RankIndex(out, out[i]);
    PositionIsRank(out, kind, entity, i, m);
  }

  lemma WrittenLength(kind: Kind, entity: string, cs: seq<Contact>)
    requires cs != []
    ensures var n := |cs| - 1;
      |Written(kind, entity, cs)| == |Written(kind, entity, cs[..n])| + if Blank(cs[n]) then 0 else 1
  {}

  lemma {:induction false} WrittenShorter(kind: Kind, entity: string, cs: seq<Contact>)
    ensures |Written(kind, entity, cs)| <= |cs|
    ensures |Written(kind, entity, cs)| == |cs| ==>
      forall i :: 0 <= i < |cs| ==> !Blank(cs[i]) && |Written(kind, entity, cs[..i])| == i
  {
    if cs == [] {
      assert |Written(kind, entity, cs)| == 0;
    } else {
      hide Written, Blank;
      var n := |cs| - 1;
      WrittenLength(kind, entity, cs);
      WrittenShorter(kind, entity, cs[..n]);
      if |Written(kind, entity, cs)| == |cs| {
        forall i | 0 <= i < n ensures !Blank(cs[i]) && |Written(kind, entity, cs[..i])| == i {
          assert cs[..n][i] == cs[i] && cs[..n][..i] == cs[..i];
        }
      }
    }
  }

  lemma {:induction false} FixedIsGapFree(out: seq<ContactRow>, kind: Kind, entity: string)
    requires Listed(out, kind, entity) && Written(kind, entity, Submit(out)) == out
    ensures GapFree(out) && NoneBlank(out)
  {
    var cs := Submit(out);
    WrittenShorter(kind, entity, cs);
    forall i | 0 <= i < |out| ensures RankedAfterAnother(out, out[i]) {
      FixedIsRanked(out, kind, entity, i);
    }
  }

  lemma {:induction false} FixedIsRanked(out: seq<ContactRow>, kind: Kind, entity: string, i: nat)
    requires Listed(out, kind, entity) && Written(kind, entity, Submit(out)) == out && i < |out|
    ensures RankedAfterAnother(out, out[i])
  {
    var cs, t := Submit(out), out[i].ctype;
    var c := Count(cs[..i], t);
    RankWritten(out, kind, entity, i);
    WrittenSlotsDistinct(kind, entity, cs);
    assert cs[..|cs|] == cs;
    CountAfter(cs, i, |cs|);
    assert Count(cs, t) <= |RANKS|;
    if c > 0 {
      var j := Nth(cs, i, t, c - 1);
      RankWritten(out, kind, entity, j);
    }
  }

  lemma {:induction false} RankWritten(out: seq<ContactRow>, kind: Kind, entity: string, i: nat)
    requires Written(kind, entity, Submit(out)) == out && i < |out|
    ensures !Blank(Submit(out)[i]) && out[i].rank == RankForOrder(Count(Submit(out)[..i], out[i].ctype))
  {
    WrittenShorter(kind, entity, Submit(out));
    WrittenAt(kind, entity, Submit(out), i);
  }

  lemma {:induction false} LiveOfConcat(a: seq<ContactRow>, b: seq<ContactRow>, kind: Kind, entity: string)
    ensures LiveOf(a + b, kind, entity) == LiveOf(a, kind, entity) + LiveOf(b, kind, entity)
  {
    if b == [] {
      assert a + b == a;
    } else {
      var n := |b| - 1;
      assert (a + b)[..|a + b| - 1] == a + b[..n];
      LiveOfConcat(a, b[..n], kind, entity);
    }
  }

  lemma {:induction false} LiveOfAll(rows: seq<ContactRow>, kind: Kind, entity: string)
    requires forall i :: 0 <= i < |rows| ==> Of(rows[i], kind, entity)
    ensures LiveOf(rows, kind, entity) == rows
  {
    if rows != [] {
      var init := rows[..|rows| - 1];
      assert forall i :: 0 <= i < |init| ==> init[i] == rows[i];
      LiveOfAll(init, kind, entity);
    }
  }

  lemma {:induction false} LiveOfNone(rows: seq<ContactRow>, kind: Kind, entity: string)
    requires forall i :: 0 <= i < |rows| ==> !Of(rows[i], kind, entity)
    ensures LiveOf(rows, kind, entity) == []
  {
    if rows != [] {
      var init := rows[..|rows| - 1];
      assert forall i :: 0 <= i < |init| ==> init[i] == rows[i];
      LiveOfNone(init, kind, entity);
    }
  }

  // After a replacement under the same name the entity's live contacts are those written.
  lemma {:induction false} LiveAfterReplace(rows: seq<ContactRow>, kind: Kind, entity: string, cs: seq<Contact>)
    ensures LiveOf(Replaced(rows, kind, entity, entity, cs), kind, entity) == Written(kind, entity, cs)
  {
    WrittenBelongs(kind, entity, cs);
    LiveOfConcat(Retired(rows, kind, entity), Written(kind, entity, cs), kind, entity);
    LiveOfNone(Retired(rows, kind, entity), kind, entity);
    LiveOfAll(Written(kind, entity, cs), kind, entity);
  }

  /** Submitting again what listing returned changes nothing that listing shows exactly when the listing
      is gap-free and names or identifies everyone. */
  lemma {:induction false} ResubmittingIsFixed(rows: seq<ContactRow>, kind: Kind, entity: string, out: seq<ContactRow>)
    requires IsListing(rows, kind, entity, out) && Listed(out, kind, entity)
    ensures LiveOf(Replaced(rows, kind, entity, entity, Submit(out)), kind, entity) ==
      Written(kind, entity, Submit(out))
    ensures Written(kind, entity, Submit(out)) == out <==> GapFree(out) && NoneBlank(out)
    ensures GapFree(out) && NoneBlank(out) ==>
      IsListing(Replaced(rows, kind, entity, entity, Submit(out)), kind, entity, out)
  {
    LiveAfterReplace(rows, kind, entity, Submit(out));
    if Written(kind, entity, Submit(out)) == out {
      FixedIsGapFree(out, kind, entity);
    }
    if GapFree(out) && NoneBlank(out) {
      GapFreeIsFixed(out, kind, entity, |out|);
      assert Submit(out)[..|out|] == Submit(out) && out[..|out|] == out;
    }
  }

  // ---- handing a slot over ----

  function Vacate(r: ContactRow, kind: Kind, entity: string, ctype: string, rank: string): ContactRow {
    if r.live && r.kind == kind && r.entity == entity && r.ctype == ctype && r.rank == rank then r.(live := false)
      else r
  }

  function SlotGiven(rows: seq<ContactRow>, kind: Kind, entity: string, ctype: string, rank: string, name: string,
                     id: string): (out: seq<ContactRow>)
  {
    seq(|rows|, i requires 0 <= i < |rows| => Vacate(rows[i], kind, entity, ctype, rank))
    + [ContactRow(kind, entity, ctype, rank, name, id, true)]
  }

  /** Whoever held a slot before, the new holder is its only one; every row outside the slot is
      unchanged, so an entity without doubly held slots still has none. */
  lemma {:induction false} SlotHasOneHolder(rows: seq<ContactRow>, kind: Kind, entity: string, ctype: string,
                                            rank: string, name: string, id: string)
    ensures var out := SlotGiven(rows, kind, entity, ctype, rank, name, id);
      && |out| == |rows| + 1 && out[|rows|].name == name && out[|rows|].id == id
      && (forall i :: 0 <= i < |out| ==> (Holds(out[i], kind, entity, ctype, rank) <==> i == |rows|))
      && (forall i :: 0 <= i < |rows| && !Holds(rows[i], kind, entity, ctype, rank) ==> out[i] == rows[i])
      && (OneHolderEach(rows, kind, entity) ==> OneHolderEach(out, kind, entity))
  {
    var out := SlotGiven(rows, kind, entity, ctype, rank, name, id);
    var vacated := out[..|rows|];
    assert out == vacated + [out[|rows|]];
    forall i | 0 <= i < |rows|
      ensures out[i] == Vacate(rows[i], kind, entity, ctype, rank) && !Holds(out[i], kind, entity, ctype, rank)
    {}
    AppendKeepsOneHolder(vacated, [out[|rows|]], kind, entity);
  }
}
