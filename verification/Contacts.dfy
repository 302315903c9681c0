/**
 The contact lists of facilities, sites and resource groups (internal/db/queries_contacts.go,
 internal/db/queries_replacements.go, and the check in internal/handlers/proposals.go).

 A submitted list is ordered; the position of a contact among those of its type decides its rank.
 */
module Contacts {
  import opened Wrappers
  import opened Kinds
  import opened Grouping

  datatype Contact = Contact(ctype: string, name: string, id: string)

  // A row of entity_contacts; `live` is false once it has been soft-deleted.
  datatype ContactRow = ContactRow(kind: Kind, entity: string, ctype: string, rank: string, name: string, id: string,
    live: bool)

  datatype ContactError = TooMany(ctype: string) | UnknownPerson(name: string)

  const RANKS: seq<string> := ["Primary", "Secondary", "Tertiary"]

  function RankForOrder(n: nat): string {
    if n >= |RANKS| then RANKS[|RANKS| - 1] else RANKS[n]
  }

  predicate Blank(c: Contact) {
    c.name == "" && c.id == ""
  }

  // How many contacts of a type a list really has.
  function Count(cs: seq<Contact>, ctype: string): nat {
    if cs == [] then 0
    else
      var last := cs[|cs| - 1];
      Count(cs[..|cs| - 1], ctype) + if !Blank(last) && last.ctype == ctype then 1 else 0
  }

  // ---- checking a list ----

  // The first thing wrong with a list.
  function Rejection(known: string -> bool, cs: seq<Contact>): Option<ContactError> {
    if cs == [] then None
    else
      var init, last := cs[..|cs| - 1], cs[|cs| - 1];
      match Rejection(known, init)
      case Some(e) => Some(e)
      case None =>
        if Blank(last) then None
        else if Count(cs, last.ctype) > |RANKS| then Some(TooMany(last.ctype))
        else if !known(last.id) then Some(UnknownPerson(last.name))
        else None
  }

  method RequireResolved(known: string -> bool, cs: seq<Contact>) returns (err: Option<ContactError>)
    ensures err == Rejection(known, cs)
  {
    var perType: map<string, nat> := map[];
    for i := 0 to |cs|
      invariant Rejection(known, cs[..i]) == None
      invariant forall t :: Count(cs[..i], t) == if t in perType then perType[t] else 0
    {
      var c := cs[i];
      assert cs[..i + 1][..i] == cs[..i];
      if Blank(c) {
        continue;
      }
      perType := perType[c.ctype := (if c.ctype in perType then perType[c.ctype] else 0) + 1];
      if perType[c.ctype] > |RANKS| {
        RejectionIsFinal(known, cs, i + 1);
        return Some(TooMany(c.ctype));
      }
      if !known(c.id) {
        RejectionIsFinal(known, cs, i + 1);
        return Some(UnknownPerson(c.name));
      }
    }
    assert cs[..|cs|] == cs;
    return None;
  }

  lemma {:induction false} RejectionIsFinal(known: string -> bool, cs: seq<Contact>, n: nat)
    requires n <= |cs| && Rejection(known, cs[..n]).Some?
    ensures Rejection(known, cs) == Rejection(known, cs[..n])
    decreases |cs|
  {
    if n < |cs| {
      assert cs[..|cs| - 1][..n] == cs[..n];
      RejectionIsFinal(known, cs[..|cs| - 1], n);
    } else {
      assert cs[..n] == cs;
    }
  }

  ghost predicate AtMostThreeEach(cs: seq<Contact>) {
    forall t :: Count(cs, t) <= |RANKS|
  }

  ghost predicate AllKnown(known: string -> bool, cs: seq<Contact>) {
    forall i :: 0 <= i < |cs| && !Blank(cs[i]) ==> known(cs[i].id)
  }

  lemma {:induction false} AtMostThreeStep(cs: seq<Contact>)
    requires cs != []
    ensures var init, last := cs[..|cs| - 1], cs[|cs| - 1];
      AtMostThreeEach(cs) <==> AtMostThreeEach(init) && (Blank(last) || Count(cs, last.ctype) <= |RANKS|)
  {
    var init, last := cs[..|cs| - 1], cs[|cs| - 1];
    if AtMostThreeEach(cs) {
      forall t ensures Count(init, t) <= |RANKS| {
        assert Count(init, t) <= Count(cs, t) <= |RANKS|;
      }
    } else {
      var t :| Count(cs, t) > |RANKS|;
      assert Count(init, t) <= |RANKS| ==> !Blank(last) && t == last.ctype;
    }
  }

  lemma {:induction false} AllKnownStep(known: string -> bool, cs: seq<Contact>)
    requires cs != []
    ensures var init, last := cs[..|cs| - 1], cs[|cs| - 1];
      AllKnown(known, cs) <==> AllKnown(known, init) && (Blank(last) || known(last.id))
  {
    var init := cs[..|cs| - 1];
    assert forall i :: 0 <= i < |init| ==> init[i] == cs[i];
  }

  /** A list is accepted exactly when no type has more than three contacts and everyone on it is known. */
  lemma {:induction false} AcceptedLists(known: string -> bool, cs: seq<Contact>)
    ensures Rejection(known, cs) == None <==> AtMostThreeEach(cs) && AllKnown(known, cs)
  {
    if cs != [] {
      AcceptedLists(known, cs[..|cs| - 1]);
      AtMostThreeStep(cs);
      AllKnownStep(known, cs);
    }
  }

  // ---- writing a list ----

  function Retire(r: ContactRow, kind: Kind, entity: string): ContactRow {
    if r.live && r.kind == kind && r.entity == entity then r.(live := false) else r
  }

  function Retired(rows: seq<ContactRow>, kind: Kind, entity: string): (out: seq<ContactRow>)
    ensures |out| == |rows| && forall i :: 0 <= i < |rows| ==> out[i] == Retire(rows[i], kind, entity)
  {
    seq(|rows|, i requires 0 <= i < |rows| => Retire(rows[i], kind, entity))
  }

  function RowFor(kind: Kind, entity: string, c: Contact, n: nat): ContactRow {
    ContactRow(kind, entity, c.ctype, RankForOrder(n), c.name, c.id, true)
  }

  // The rows a list becomes.
  function Written(kind: Kind, entity: string, cs: seq<Contact>): seq<ContactRow> {
    if cs == [] then []
    else
      var init, last := cs[..|cs| - 1], cs[|cs| - 1];
      Written(kind, entity, init) + if Blank(last) then [] else [RowFor(kind, entity, last, Count(init, last.ctype))]
  }

  function Replaced(rows: seq<ContactRow>, kind: Kind, target: string, name: string,
                    cs: seq<Contact>): seq<ContactRow>
  {
    Retired(rows, kind, target) + Written(kind, name, cs)
  }

  method ReplaceEntityContacts(rows: seq<ContactRow>, kind: Kind, target: string, name: string, cs: seq<Contact>)
    returns (out: seq<ContactRow>)
    ensures out == Replaced(rows, kind, target, name, cs)
  {
    out := Retired(rows, kind, target);
    var perType: map<string, nat> := map[];
    for i := 0 to |cs|
      invariant out == Replaced(rows, kind, target, name, cs[..i])
      invariant forall t :: Count(cs[..i], t) == if t in perType then perType[t] else 0
    {
      var c := cs[i];
      assert cs[..i + 1][..i] == cs[..i];
      if Blank(c) {
        continue;
      }
      var n := if c.ctype in perType then perType[c.ctype] else 0;
      perType := perType[c.ctype := n + 1];
      Regroup(Retired(rows, kind, target), Written(kind, name, cs[..i]), [RowFor(kind, name, c, n)]);
      out := out + [RowFor(kind, name, c, n)];
    }
    assert cs[..|cs|] == cs;
  }

  // ---- slots ----

  ghost predicate Holds(r: ContactRow, kind: Kind, entity: string, ctype: string, rank: string) {
    r.live && r.kind == kind && r.entity == entity && r.ctype == ctype && r.rank == rank
  }

  ghost predicate SameSlot(a: ContactRow, b: ContactRow) {
    a.ctype == b.ctype && a.rank == b.rank
  }

  ghost predicate Of(r: ContactRow, kind: Kind, entity: string) {
    r.live && r.kind == kind && r.entity == entity
  }

  // No two live contacts of the entity share a slot.
  ghost predicate OneHolderEach(rows: seq<ContactRow>, kind: Kind, entity: string) {
    forall i, j :: 0 <= i < j < |rows| && Of(rows[i], kind, entity) && Of(rows[j], kind, entity) ==>
      !SameSlot(rows[i], rows[j])
  }

  lemma {:induction false} CountGrows(cs: seq<Contact>, i: nat, j: nat, t: string)
    requires i <= j <= |cs|
    ensures Count(cs[..i], t) <= Count(cs[..j], t)
    decreases j
  {
    if i < j {
      assert cs[..j][..j - 1] == cs[..j - 1];
      CountGrows(cs, i, j - 1, t);
    }
  }

  // Row p was written for the contact at index i.
  lemma {:induction false} WrittenComesFrom(kind: Kind, entity: string, cs: seq<Contact>, p: nat) returns (i: nat)
    requires p < |Written(kind, entity, cs)|
    ensures i < |cs| && !Blank(cs[i]) && p == |Written(kind, entity, cs[..i])|
    ensures Written(kind, entity, cs)[p] == RowFor(kind, entity, cs[i], Count(cs[..i], cs[i].ctype))
  {
    var init := cs[..|cs| - 1];
    if p < |Written(kind, entity, init)| {
      i := WrittenComesFrom(kind, entity, init, p);
      assert init[..i] == cs[..i];
    } else {
      i := |cs| - 1;
    }
  }

  lemma {:induction false} WrittenAt(kind: Kind, entity: string, cs: seq<Contact>, i: nat)
    requires i < |cs| && !Blank(cs[i])
    ensures var p := |Written(kind, entity, cs[..i])|;
      && p < |Written(kind, entity, cs)|
      && Written(kind, entity, cs)[p] == RowFor(kind, entity, cs[i], Count(cs[..i], cs[i].ctype))
    decreases |cs|
  {
    if i < |cs| - 1 {
      assert cs[..|cs| - 1][..i] == cs[..i];
      WrittenAt(kind, entity, cs[..|cs| - 1], i);
    }
  }

  lemma {:induction false} WrittenGrows(kind: Kind, entity: string, cs: seq<Contact>, i: nat, j: nat)
    requires i < j <= |cs| && !Blank(cs[i])
    ensures |Written(kind, entity, cs[..i])| < |Written(kind, entity, cs[..j])|
  {
    assert cs[..j][..i] == cs[..i];
    WrittenAt(kind, entity, cs[..j], i);
  }

  // The c-th contact of a type.
  lemma {:induction false} Nth(cs: seq<Contact>, n: nat, t: string, c: nat) returns (i: nat)
    requires n <= |cs| && c < Count(cs[..n], t)
    ensures i < n && !Blank(cs[i]) && cs[i].ctype == t && Count(cs[..i], t) == c
    decreases n
  {
    assert cs[..n][..n - 1] == cs[..n - 1];
    if c < Count(cs[..n - 1], t) {
      i := Nth(cs, n - 1, t, c);
    } else {
      i := n - 1;
    }
  }

  /** A list is written with no two rows in one slot exactly when no type has more than three contacts. */
  lemma {:induction false} WrittenSlotsDistinct(kind: Kind, entity: string, cs: seq<Contact>)
    ensures OneHolderEach(Written(kind, entity, cs), kind, entity) <==> AtMostThreeEach(cs)
  {
    var rows := Written(kind, entity, cs);
    assert cs[..|cs|] == cs;
    if AtMostThreeEach(cs) {
      forall p, q | 0 <= p < q < |rows| ensures !SameSlot(rows[p], rows[q]) {
        FewContactsApart(kind, entity, cs, p, q);
      }
    } else {
      var t :| Count(cs, t) > |RANKS|;
      var i := Nth(cs, |cs|, t, 2);
      var j := Nth(cs, |cs|, t, 3);
      if j <= i {
        CountGrows(cs, j, i, t);
      }
      WrittenAt(kind, entity, cs, i);
      WrittenAt(kind, entity, cs, j);
      WrittenGrows(kind, entity, cs, i, j);
      var p, q := |Written(kind, entity, cs[..i])|, |Written(kind, entity, cs[..j])|;
      assert Of(rows[p], kind, entity) && Of(rows[q], kind, entity) && SameSlot(rows[p], rows[q]);
    }
  }

  lemma {:induction false} FewContactsApart(kind: Kind, entity: string, cs: seq<Contact>, p: nat, q: nat)
    requires AtMostThreeEach(cs)
    requires p < q < |Written(kind, entity, cs)|
    ensures !SameSlot(Written(kind, entity, cs)[p], Written(kind, entity, cs)[q])
  {
    var i := WrittenComesFrom(kind, entity, cs, p);
    var j := WrittenComesFrom(kind, entity, cs, q);
    if j < i {
      WrittenGrows(kind, entity, cs, j, i);
    } else if i < j && cs[i].ctype == cs[j].ctype {
      PositionsApart(cs, i, j);
      RanksDiffer(Count(cs[..i], cs[i].ctype), Count(cs[..j], cs[j].ctype));
    }
  }

  lemma {:induction false} PositionsApart(cs: seq<Contact>, i: nat, j: nat)
    requires AtMostThreeEach(cs) && i < j < |cs| && !Blank(cs[i]) && !Blank(cs[j]) && cs[i].ctype == cs[j].ctype
    ensures Count(cs[..i], cs[i].ctype) < Count(cs[..j], cs[i].ctype) < 3
  {
    var t := cs[i].ctype;
    assert cs[..i + 1][..i] == cs[..i] && cs[..j + 1][..j] == cs[..j];
    CountGrows(cs, i + 1, j, t);
    CountGrows(cs, j + 1, |cs|, t);
    assert cs[..|cs|] == cs;
  }

  lemma RanksDiffer(m: nat, n: nat)
    requires m < n < 3
    ensures RankForOrder(m) != RankForOrder(n)
  {
    assert RANKS[0][0] == 'P' && RANKS[1][0] == 'S' && RANKS[2][0] == 'T';
  }

  // ---- checked and written, by position ----

  // The contacts of a type among the first n.
  function OfTypeBefore(cs: seq<Contact>, n: nat, t: string): set<nat>
    requires n <= |cs|
  {
    set i: nat | i < n && !Blank(cs[i]) && cs[i].ctype == t
  }

  lemma {:induction false} CountIsSize(cs: seq<Contact>, n: nat, t: string)
    requires n <= |cs|
    ensures Count(cs[..n], t) == |OfTypeBefore(cs, n, t)|
  {
    if n > 0 {
      var m := n - 1;
      CountIsSize(cs, m, t);
      assert cs[..n][..m] == cs[..m];
      assert OfTypeBefore(cs, n, t) == OfTypeBefore(cs, m, t) + if !Blank(cs[m]) && cs[m].ctype == t then {m} else {};
    }
  }

  // The contact at i is the fourth of its type, or known to nobody.
  ghost predicate Offends(known: string -> bool, cs: seq<Contact>, i: nat, e: ContactError)
    requires i < |cs|
  {
    && !Blank(cs[i])
    && (if |OfTypeBefore(cs, i, cs[i].ctype)| >= 3 then e == TooMany(cs[i].ctype)
        else !known(cs[i].id) && e == UnknownPerson(cs[i].name))
  }

  /** A list is refused over the first contact on it that is the fourth of its type or unknown, the fourth of
      a type being refused as such; blank contacts are passed over. */
  lemma {:induction false} RefusedOverTheFirst(known: string -> bool, cs: seq<Contact>, e: ContactError)
    ensures Rejection(known, cs) == Some(e) <==>
      exists i: nat :: i < |cs| && Rejection(known, cs[..i]) == None && Offends(known, cs, i, e)
  {
    if cs != [] {
      var n := |cs| - 1;
      RefusedOverTheFirst(known, cs[..n], e);
      CountIsSize(cs, n, cs[n].ctype);
      forall i: nat | i < n
        ensures cs[..n][..i] == cs[..i]
        ensures Offends(known, cs, i, e) <==> Offends(known, cs[..n], i, e)
      {
        assert cs[..n][i] == cs[i];
        assert OfTypeBefore(cs[..n], i, cs[i].ctype) == OfTypeBefore(cs, i, cs[i].ctype);
      }
      if Rejection(known, cs[..n]).Some? {
        RejectionIsFinal(known, cs, n);
      }
    }
  }

  // The first of a type is primary, the second secondary, every other tertiary.
  function RankAt(cs: seq<Contact>, i: nat): string
    requires i < |cs|
  {
    var before := |OfTypeBefore(cs, i, cs[i].ctype)|;
    if before == 0 then "Primary" else if before == 1 then "Secondary" else "Tertiary"
  }

  function RowAt(kind: Kind, entity: string, cs: seq<Contact>, i: nat): ContactRow
    requires i < |cs|
  {
    ContactRow(kind, entity, cs[i].ctype, RankAt(cs, i), cs[i].name, cs[i].id, true)
  }

  // The rows written are those of the contacts at these places, in their order.
  ghost predicate WrittenFor(kind: Kind, entity: string, cs: seq<Contact>, rows: seq<ContactRow>, places: seq<nat>) {
    && |places| == |rows|
    && (forall p, q :: 0 <= p < q < |places| ==> places[p] < places[q])
    && (forall i: nat :: i in places <==> i < |cs| && !Blank(cs[i]))
    && (forall p :: 0 <= p < |places| ==> places[p] < |cs| && rows[p] == RowAt(kind, entity, cs, places[p]))
  }

  lemma {:induction false} RowAtIs(kind: Kind, entity: string, cs: seq<Contact>, n: nat)
    requires n < |cs|
    ensures RowAt(kind, entity, cs, n) == RowFor(kind, entity, cs[n], Count(cs[..n], cs[n].ctype))
    ensures forall i: nat :: i < n ==> RowAt(kind, entity, cs[..n], i) == RowAt(kind, entity, cs, i)
  {
    CountIsSize(cs, n, cs[n].ctype);
    forall i: nat | i < n ensures RowAt(kind, entity, cs[..n], i) == RowAt(kind, entity, cs, i) {
      assert OfTypeBefore(cs[..n], i, cs[i].ctype) == OfTypeBefore(cs, i, cs[i].ctype);
    }
  }

  lemma {:induction false} OneRowMore(kind: Kind, entity: string, cs: seq<Contact>, rows: seq<ContactRow>,
                                      places: seq<nat>)
    requires cs != [] && WrittenFor(kind, entity, cs[..|cs| - 1], rows, places)
    ensures var n := |cs| - 1;
      if Blank(cs[n]) then WrittenFor(kind, entity, cs, rows, places)
      else WrittenFor(kind, entity, cs, rows + [RowAt(kind, entity, cs, n)], places + [n])
  {
    hide RowAt;
    var n := |cs| - 1;
    RowAtIs(kind, entity, cs, n);
    forall p | 0 <= p < |places| ensures places[p] < n && rows[p] == RowAt(kind, entity, cs, places[p]) {
      assert places[p] < |cs[..n]|;
    }
    var more := places + [n];
    assert more[|places|] == n;
    forall i: nat ensures i in places <==> i < n && !Blank(cs[i]) {
      if i < n {
        assert cs[..n][i] == cs[i];
      }
    }
    forall i: nat ensures i in more <==> i in places || i == n {}
  }

  lemma NothingWritten(kind: Kind, entity: string)
    ensures WrittenFor(kind, entity, [], [], [])
  {}

  /** A list is written in its order, one row for each contact that is not blank, with the name and id it has
      there and the rank of its place among those of its type. */
  lemma {:induction false} WrittenByPosition(kind: Kind, entity: string, cs: seq<Contact>) returns (places: seq<nat>)
    ensures WrittenFor(kind, entity, cs, Written(kind, entity, cs), places)
  {
    hide WrittenFor, RowAt;
    if cs == [] {
      places := [];
      NothingWritten(kind, entity);
      assert Written(kind, entity, cs) == [];
    } else {
      var n := |cs| - 1;
      places := WrittenByPosition(kind, entity, cs[..n]);
      OneRowMore(kind, entity, cs, Written(kind, entity, cs[..n]), places);
      RowAtIs(kind, entity, cs, n);
      if Blank(cs[n]) {
        assert Written(kind, entity, cs) == Written(kind, entity, cs[..n]);
      } else {
        places := places + [n];
        assert Written(kind, entity, cs) == Written(kind, entity, cs[..n]) + [RowAt(kind, entity, cs, n)];
      }
    }
  }
}
