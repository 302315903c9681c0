/**
 The contacts that count for a resource (internal/handlers/detail.go): its own, and of each type it
 has none of itself those of the nearest ancestor that has some.
 */
module EffectiveContacts {
  import opened Grouping
  import opened Wrappers

  datatype Entry = Entry(ctype: string, rank: string, name: string, id: string)

  // A contact and where it is inherited from; "" for the resource's own.
  datatype Shown = Shown(entry: Entry, from: string)

  // The resource itself, or an ancestor; an ancestor without a name has no contacts.
  datatype Level = Level(name: string, origin: string, contacts: seq<Entry>)

  function OwnLevel(own: seq<Entry>): Level {
    Level("resource", "", own)
  }

  function ContactsAt(l: Level): seq<Entry> {
    if l.name == "" then [] else l.contacts
  }

  predicate Defines(l: Level, t: string) {
    t in Types(ContactsAt(l))
  }

  // The contacts of a list whose type is not covered, with their origin.
  function Introduced(es: seq<Entry>, covered: set<string>, origin: string): seq<Shown> {
    if es == [] then []
    else
      var e := es[|es| - 1];
      Introduced(es[..|es| - 1], covered, origin) + if e.ctype in covered then [] else [Shown(e, origin)]
  }

  function Types(es: seq<Entry>): set<string> {
    set i | 0 <= i < |es| :: es[i].ctype
  }

  function Covered(levels: seq<Level>): set<string> {
    if levels == [] then {} else Covered(levels[..|levels| - 1]) + Types(ContactsAt(levels[|levels| - 1]))
  }

  // Level by level, nearest first.
  function Effective(levels: seq<Level>): seq<Shown> {
    if levels == [] then []
    else
      var init, l := levels[..|levels| - 1], levels[|levels| - 1];
      Effective(init) + Introduced(ContactsAt(l), Covered(init), l.origin)
  }

  method EffectiveResourceContacts(own: seq<Entry>, ancestors: seq<Level>) returns (out: seq<Shown>)
    ensures out == Effective([OwnLevel(own)] + ancestors)
    ensures exists places :: ShowsAt(own, ancestors, out, places)
  {
    ghost var levels := [OwnLevel(own)] + ancestors;
    var covered: set<string>;
    out, covered := OwnContacts(own);
    assert levels[..1] == [OwnLevel(own)];
    OneLevel(OwnLevel(own));
    for k := 0 to |ancestors|
      invariant out == Effective(levels[..k + 1]) && covered == Covered(levels[..k + 1])
    {
      var a := ancestors[k];
      assert levels[k + 1] == a;
      NextLevel(levels, k + 1);
      if a.name == "" {
        continue;
      }
      var introduced: set<string>;
      out, introduced := Inherit(out, a, covered);
      covered := covered + introduced;
    }
    assert levels[..|ancestors| + 1] == levels;
    ghost var places := ShowsTheNearest(own, ancestors);
  }

  lemma NextLevel(levels: seq<Level>, k: nat)
    requires k < |levels|
    ensures Effective(levels[..k + 1])
      == Effective(levels[..k]) + Introduced(ContactsAt(levels[k]), Covered(levels[..k]), levels[k].origin)
    ensures Covered(levels[..k + 1]) == Covered(levels[..k]) + Types(ContactsAt(levels[k]))
  {
    assert levels[..k + 1][..k] == levels[..k];
  }

  method OwnContacts(own: seq<Entry>) returns (out: seq<Shown>, covered: set<string>)
    ensures out == Introduced(own, {}, "") && covered == Types(own)
  {
    out, covered := [], {};
    for i := 0 to |own|
      invariant out == Introduced(own[..i], {}, "") && covered == Types(own[..i])
    {
      IntroducedNext(own, i, {}, "");
      covered := covered + {own[i].ctype};
      out := out + [Shown(own[i], "")];
    }
    assert own[..|own|] == own;
  }

  // What one ancestor adds, and the types it adds.
  method Inherit(before: seq<Shown>, a: Level, covered: set<string>) returns (out: seq<Shown>, introduced: set<string>)
    ensures out == before + Introduced(a.contacts, covered, a.origin)
    ensures covered + introduced == covered + Types(a.contacts)
  {
    out, introduced := before, {};
    for i := 0 to |a.contacts|
      invariant out == before + Introduced(a.contacts[..i], covered, a.origin)
      invariant covered + introduced == covered + Types(a.contacts[..i])
    {
      var c := a.contacts[i];
      IntroducedNext(a.contacts, i, covered, a.origin);
      if c.ctype in covered {
        continue;
      }
      introduced := introduced + {c.ctype};
      Regroup(before, Introduced(a.contacts[..i], covered, a.origin), [Shown(c, a.origin)]);
      out := out + [Shown(c, a.origin)];
    }
    assert a.contacts[..|a.contacts|] == a.contacts;
  }

  lemma OneLevel(l: Level)
    ensures Effective([l]) == Introduced(ContactsAt(l), {}, l.origin) && Covered([l]) == Types(ContactsAt(l))
  {
    assert [l][..0] == [];
  }

  lemma IntroducedNext(es: seq<Entry>, i: nat, covered: set<string>, origin: string)
    requires i < |es|
    ensures Introduced(es[..i + 1], covered, origin)
      == Introduced(es[..i], covered, origin) + if es[i].ctype in covered then [] else [Shown(es[i], origin)]
    ensures Types(es[..i + 1]) == Types(es[..i]) + {es[i].ctype}
  {
    assert es[..i + 1][..i] == es[..i];
  }

  // ---- the nearest level wins ----

  function OfType(out: seq<Shown>, t: string): seq<Shown> {
    if out == [] then []
    else OfType(out[..|out| - 1], t) + if out[|out| - 1].entry.ctype == t then [out[|out| - 1]] else []
  }

  // All contacts of a type at one level, with their origin.
  function AllOfType(es: seq<Entry>, t: string, origin: string): seq<Shown> {
    if es == [] then []
    else AllOfType(es[..|es| - 1], t, origin) + if es[|es| - 1].ctype == t then [Shown(es[|es| - 1], origin)] else []
  }

  lemma {:induction false} OfTypeConcat(a: seq<Shown>, b: seq<Shown>, t: string)
    ensures OfType(a + b, t) == OfType(a, t) + OfType(b, t)
  {
    if b == [] {
      assert a + b == a;
    } else {
      var n := |b| - 1;
      assert (a + b)[..|a + b| - 1] == a + b[..n];
      OfTypeConcat(a, b[..n], t);
      Regroup(OfType(a, t), OfType(b[..n], t), if b[n].entry.ctype == t then [b[n]] else []);
    }
  }

  lemma OfTypeOne(s: Shown, t: string)
    ensures OfType([s], t) == if s.entry.ctype == t then [s] else []
  {
    assert [s][..0] == [];
  }

  lemma {:induction false} OfTypeIntroduced(es: seq<Entry>, covered: set<string>, origin: string, t: string)
    ensures OfType(Introduced(es, covered, origin), t) == if t in covered then [] else AllOfType(es, t, origin)
  {
    if es != [] {
      var init, e := es[..|es| - 1], es[|es| - 1];
      OfTypeIntroduced(init, covered, origin, t);
      if e.ctype in covered {
        assert Introduced(es, covered, origin) == Introduced(init, covered, origin);
      } else {
        OfTypeConcat(Introduced(init, covered, origin), [Shown(e, origin)], t);
        OfTypeOne(Shown(e, origin), t);
      }
    }
  }

  lemma {:induction false} DefinedIsCovered(levels: seq<Level>, t: string, i: nat)
    requires i < |levels| && Defines(levels[i], t)
    ensures t in Covered(levels)
  {
    if i < |levels| - 1 {
      DefinedIsCovered(levels[..|levels| - 1], t, i);
    }
  }

  lemma {:induction false} UndefinedIsNotCovered(levels: seq<Level>, t: string)
    requires forall i :: 0 <= i < |levels| ==> !Defines(levels[i], t)
    ensures t !in Covered(levels)
  {
    if levels != [] {
      var n := |levels| - 1;
      assert forall i :: 0 <= i < n ==> levels[..n][i] == levels[i];
      UndefinedIsNotCovered(levels[..n], t);
      assert !Defines(levels[n], t);
    }
  }

  lemma {:induction false} UndefinedHasNone(es: seq<Entry>, t: string, origin: string)
    requires t !in Types(es)
    ensures AllOfType(es, t, origin) == []
  {
    if es != [] {
      IntroducedNext(es, |es| - 1, {}, origin);
      assert es[..|es| - 1 + 1] == es;
      UndefinedHasNone(es[..|es| - 1], t, origin);
    }
  }

  // What one more level contributes of a type.
  lemma {:induction false} OneLevelMore(levels: seq<Level>, t: string)
    requires levels != []
    ensures var n := |levels| - 1;
      OfType(Effective(levels), t) ==
        if t in Covered(levels[..n]) then OfType(Effective(levels[..n]), t)
        else OfType(Effective(levels[..n]), t) + AllOfType(ContactsAt(levels[n]), t, levels[n].origin)
  {
    var init, l := levels[..|levels| - 1], levels[|levels| - 1];
    OfTypeConcat(Effective(init), Introduced(ContactsAt(l), Covered(init), l.origin), t);
    OfTypeIntroduced(ContactsAt(l), Covered(init), l.origin, t);
  }

  /** A type that no level has does not appear. */
  lemma {:induction false} NothingFromNowhere(levels: seq<Level>, t: string)
    requires forall i :: 0 <= i < |levels| ==> !Defines(levels[i], t)
    ensures OfType(Effective(levels), t) == []
  {
    if levels != [] {
      var n := |levels| - 1;
      assert forall i :: 0 <= i < n ==> levels[..n][i] == levels[i];
      NothingFromNowhere(levels[..n], t);
      OneLevelMore(levels, t);
      UndefinedHasNone(ContactsAt(levels[n]), t, levels[n].origin);
    }
  }

  lemma {:induction false} FartherLevelAddsNothing(levels: seq<Level>, t: string, i: nat)
    requires i < |levels| - 1 && Defines(levels[i], t)
    ensures OfType(Effective(levels), t) == OfType(Effective(levels[..|levels| - 1]), t)
  {
    DefinedIsCovered(levels[..|levels| - 1], t, i);
    OneLevelMore(levels, t);
  }

  lemma {:induction false} FirstLevelAddsAll(levels: seq<Level>, t: string)
    requires levels != [] && forall j :: 0 <= j < |levels| - 1 ==> !Defines(levels[j], t)
    ensures var l := levels[|levels| - 1]; OfType(Effective(levels), t) == AllOfType(ContactsAt(l), t, l.origin)
  {
    var init := levels[..|levels| - 1];
    assert forall j :: 0 <= j < |init| ==> init[j] == levels[j];
    UndefinedIsNotCovered(init, t);
    NothingFromNowhere(init, t);
    OneLevelMore(levels, t);
  }

  /** Of each type the contacts shown are exactly those of the nearest level that has any: all of them, in
      their order, and nothing from farther away. */
  lemma {:induction false} NearestLevelWins(levels: seq<Level>, t: string, i: nat)
    requires i < |levels| && Defines(levels[i], t) && forall j :: 0 <= j < i ==> !Defines(levels[j], t)
    ensures OfType(Effective(levels), t) == AllOfType(ContactsAt(levels[i]), t, levels[i].origin)
  {
    if i < |levels| - 1 {
      NearestLevelWins(levels[..|levels| - 1], t, i);
      FartherLevelAddsNothing(levels, t, i);
    } else {
      FirstLevelAddsAll(levels, t);
    }
  }

  // ---- the whole list, by the resource and its ancestors ----

  // A contact in the lists: level 0 is the resource's own, level a + 1 that of ancestor a.
  datatype Place = Place(level: nat, index: nat)

  function ListAt(own: seq<Entry>, ancestors: seq<Level>, level: nat): seq<Entry> {
    if level == 0 then own
    else if level <= |ancestors| && ancestors[level - 1].name != "" then ancestors[level - 1].contacts
    else []
  }

  predicate HasType(es: seq<Entry>, t: string) {
    exists i :: 0 <= i < |es| && es[i].ctype == t
  }

  // What is shown for a place: the contact there and the label of its ancestor.
  function ShownAt(own: seq<Entry>, ancestors: seq<Level>, p: Place): Option<Shown> {
    if p.level <= |ancestors| && p.index < |ListAt(own, ancestors, p.level)| then
      Some(Shown(ListAt(own, ancestors, p.level)[p.index], if p.level == 0 then "" else ancestors[p.level - 1].origin))
    else None
  }

  // No nearer list has a contact of the type.
  ghost predicate IsShown(own: seq<Entry>, ancestors: seq<Level>, p: Place) {
    match ShownAt(own, ancestors, p)
    case Some(s) => forall l: nat :: l < p.level ==> !HasType(ListAt(own, ancestors, l), s.entry.ctype)
    case None => false
  }

  predicate Before(p: Place, q: Place) {
    p.level < q.level || (p.level == q.level && p.index < q.index)
  }

  ghost predicate InOrder(places: seq<Place>) {
    forall i, j :: 0 <= i < j < |places| ==> Before(places[i], places[j])
  }

  // The list shows the contacts at these places: all that no nearer list hides, each once, those of nearer
  // lists first and those of one list in its order.
  ghost predicate ShowsAt(own: seq<Entry>, ancestors: seq<Level>, out: seq<Shown>, places: seq<Place>) {
    && |places| == |out| && InOrder(places)
    && (forall i :: 0 <= i < |out| ==> ShownAt(own, ancestors, places[i]) == Some(out[i]))
    && (forall p :: p in places <==> IsShown(own, ancestors, p))
  }

  // The same of any levels.
  function ShownIn(levels: seq<Level>, p: Place): Option<Shown> {
    if p.level < |levels| && p.index < |ContactsAt(levels[p.level])| then
      Some(Shown(ContactsAt(levels[p.level])[p.index], levels[p.level].origin))
    else None
  }

  ghost predicate IsShownIn(levels: seq<Level>, p: Place) {
    match ShownIn(levels, p)
    case Some(s) => s.entry.ctype !in Covered(levels[..p.level])
    case None => false
  }

  ghost predicate ShowsIn(levels: seq<Level>, out: seq<Shown>, places: seq<Place>) {
    && |places| == |out| && InOrder(places)
    && (forall i :: 0 <= i < |out| ==> ShownIn(levels, places[i]) == Some(out[i]))
    && (forall p :: p in places <==> IsShownIn(levels, p))
  }

  // The places within one level.
  ghost predicate Introduces(es: seq<Entry>, covered: set<string>, origin: string, level: nat, places: seq<Place>) {
    && |places| == |Introduced(es, covered, origin)| && InOrder(places)
    && (forall i :: 0 <= i < |places| ==>
          && places[i].level == level && places[i].index < |es| && es[places[i].index].ctype !in covered
          && Introduced(es, covered, origin)[i] == Shown(es[places[i].index], origin))
    && (forall k: nat :: k < |es| && es[k].ctype !in covered ==> Place(level, k) in places)
  }

  lemma {:induction false} OnePlaceMore(es: seq<Entry>, covered: set<string>, origin: string, level: nat,
                                        init: seq<Place>)
    requires es != [] && Introduces(es[..|es| - 1], covered, origin, level, init)
    ensures var n := |es| - 1;
      Introduces(es, covered, origin, level, if es[n].ctype in covered then init else init + [Place(level, n)])
  {
    var n := |es| - 1;
    var places := if es[n].ctype in covered then init else init + [Place(level, n)];
    forall k: nat | k < |es| && es[k].ctype !in covered ensures Place(level, k) in places {
      if k < n {
        assert es[..n][k] == es[k];
      } else {
        assert places[|init|] == Place(level, n);
      }
    }
  }

  lemma {:induction false} IntroducedPlaces(es: seq<Entry>, covered: set<string>, origin: string, level: nat)
    returns (places: seq<Place>)
    ensures Introduces(es, covered, origin, level, places)
  {
    places := [];
    if es != [] {
      var n := |es| - 1;
      var init := IntroducedPlaces(es[..n], covered, origin, level);
      places := if es[n].ctype in covered then init else init + [Place(level, n)];
      OnePlaceMore(es, covered, origin, level, init);
    }
  }

  lemma {:induction false} ShownInPrefix(levels: seq<Level>, p: Place)
    requires levels != []
    ensures var n := |levels| - 1;
      if p.level < n then
        ShownIn(levels, p) == ShownIn(levels[..n], p) && (IsShownIn(levels, p) <==> IsShownIn(levels[..n], p))
      else !IsShownIn(levels[..n], p)
  {
    var n := |levels| - 1;
    if p.level < n {
      assert levels[..n][..p.level] == levels[..p.level];
    }
  }

  lemma {:induction false} PlacesIn(levels: seq<Level>) returns (places: seq<Place>)
    ensures ShowsIn(levels, Effective(levels), places)
  {
    places := [];
    if levels != [] {
      var n := |levels| - 1;
      var init := PlacesIn(levels[..n]);
      var last := IntroducedPlaces(ContactsAt(levels[n]), Covered(levels[..n]), levels[n].origin, n);
      places := init + last;
      PlacesMore(levels, init, last);
    }
  }

  // What one more level adds to the places.
  ghost predicate AddsPlaces(levels: seq<Level>, init: seq<Place>, last: seq<Place>) {
    levels != []
    && var n := |levels| - 1;
       && ShowsIn(levels[..n], Effective(levels[..n]), init)
       && Introduces(ContactsAt(levels[n]), Covered(levels[..n]), levels[n].origin, n, last)
  }

  lemma PlacesAdded(levels: seq<Level>, init: seq<Place>, last: seq<Place>)
    requires AddsPlaces(levels, init, last)
    ensures |init| + |last| == |Effective(levels)| && InOrder(init) && InOrder(last)
  {}

  lemma {:induction false} PlacesBelow(levels: seq<Level>, init: seq<Place>, last: seq<Place>, i: nat)
    requires AddsPlaces(levels, init, last) && i < |init|
    ensures init[i].level < |levels| - 1 && i < |Effective(levels)|
    ensures ShownIn(levels, init[i]) == Some(Effective(levels)[i])
  {
    assert init[i] in init;
    ShownInPrefix(levels, init[i]);
  }

  lemma {:induction false} PlaceIn(levels: seq<Level>, init: seq<Place>, last: seq<Place>, p: Place)
    requires AddsPlaces(levels, init, last)
    ensures p in init + last <==> IsShownIn(levels, p)
  {
    var n := |levels| - 1;
    ShownInPrefix(levels, p);
    if p.level == n && IsShownIn(levels, p) {
      assert p == Place(n, p.index);
    }
    if p in last {
      var i :| 0 <= i < |last| && last[i] == p;
    }
  }

  lemma {:induction false} PlacesHere(levels: seq<Level>, init: seq<Place>, last: seq<Place>, j: nat)
    requires AddsPlaces(levels, init, last) && j < |last|
    ensures last[j].level == |levels| - 1 && |init| + j < |Effective(levels)|
    ensures ShownIn(levels, last[j]) == Some(Effective(levels)[|init| + j])
  {}

  lemma {:induction false} PlacesMore(levels: seq<Level>, init: seq<Place>, last: seq<Place>)
    requires AddsPlaces(levels, init, last)
    ensures ShowsIn(levels, Effective(levels), init + last)
  {
    hide ShownIn, IsShownIn, AddsPlaces, Effective;
    var places, out := init + last, Effective(levels);
    PlacesAdded(levels, init, last);
    forall i | 0 <= i < |places| ensures ShownIn(levels, places[i]) == Some(out[i]) {
      if i < |init| {
        PlacesBelow(levels, init, last, i);
      } else {
        PlacesHere(levels, init, last, i - |init|);
      }
    }
    forall p ensures p in places <==> IsShownIn(levels, p) {
      PlaceIn(levels, init, last, p);
    }
    forall i, j | 0 <= i < j < |places| ensures Before(places[i], places[j]) {
      if i < |init| <= j {
        PlacesBelow(levels, init, last, i);
        PlacesHere(levels, init, last, j - |init|);
      }
    }
  }

  lemma {:induction false} CoveredIff(levels: seq<Level>, t: string)
    ensures t in Covered(levels) <==> exists l :: 0 <= l < |levels| && Defines(levels[l], t)
  {
    if l :| 0 <= l < |levels| && Defines(levels[l], t) {
      DefinedIsCovered(levels, t, l);
    } else {
      UndefinedIsNotCovered(levels, t);
    }
  }

  lemma {:induction false} LevelsAre(own: seq<Entry>, ancestors: seq<Level>, l: nat, t: string)
    requires l <= |ancestors|
    ensures var level := ([OwnLevel(own)] + ancestors)[l];
      && ContactsAt(level) == ListAt(own, ancestors, l)
      && (Defines(level, t) <==> HasType(ListAt(own, ancestors, l), t))
  {}

  lemma {:induction false} SameShown(own: seq<Entry>, ancestors: seq<Level>, p: Place)
    ensures var levels := [OwnLevel(own)] + ancestors;
      ShownIn(levels, p) == ShownAt(own, ancestors, p) && (IsShownIn(levels, p) <==> IsShown(own, ancestors, p))
  {
    var levels := [OwnLevel(own)] + ancestors;
    if p.level <= |ancestors| {
      LevelsAre(own, ancestors, p.level, "");
      if ShownAt(own, ancestors, p).Some? {
        var t := ShownAt(own, ancestors, p).value.entry.ctype;
        CoveredIff(levels[..p.level], t);
        forall l: nat | l < p.level
          ensures Defines(levels[..p.level][l], t) <==> HasType(ListAt(own, ancestors, l), t)
        {
          LevelsAre(own, ancestors, l, t);
        }
      }
    }
  }

  /** What counts for a resource is exactly what no nearer list hides: its own contacts, all of them and
      first, under no origin; then of every ancestor with a name, nearest first, those of the types that
      neither the resource nor a nearer ancestor has, in their order and under the ancestor's label. */
  lemma {:induction false} ShowsTheNearest(own: seq<Entry>, ancestors: seq<Level>) returns (places: seq<Place>)
    ensures ShowsAt(own, ancestors, Effective([OwnLevel(own)] + ancestors), places)
  {
    hide ShownIn, ShownAt, IsShownIn, IsShown;
    places := PlacesIn([OwnLevel(own)] + ancestors);
    forall p ensures ShownIn([OwnLevel(own)] + ancestors, p) == ShownAt(own, ancestors, p)
                     && (IsShownIn([OwnLevel(own)] + ancestors, p) <==> IsShown(own, ancestors, p)) {
      SameShown(own, ancestors, p);
    }
  }

  lemma {:induction false} OwnPlace(own: seq<Entry>, ancestors: seq<Level>, out: seq<Shown>, places: seq<Place>, i: nat)
    requires ShowsAt(own, ancestors, out, places) && i < |own|
    ensures i < |places| && places[i] == Place(0, i)
  {
    assert IsShown(own, ancestors, Place(0, i));
    var j :| 0 <= j < |places| && places[j] == Place(0, i);
    if i > 0 {
      OwnPlace(own, ancestors, out, places, i - 1);
    }
  }

  /** The list begins with all the resource's own contacts, in order and with no origin, and shows nobody
      else of a type that the resource has itself. */
  lemma {:induction false} OwnContactsComeFirst(own: seq<Entry>, ancestors: seq<Level>)
    ensures var out := Effective([OwnLevel(own)] + ancestors);
      && |out| >= |own|
      && (forall i :: 0 <= i < |own| ==> out[i] == Shown(own[i], ""))
      && (forall i :: |own| <= i < |out| ==> !HasType(own, out[i].entry.ctype))
  {
    hide Effective;
    var out := Effective([OwnLevel(own)] + ancestors);
    var places := ShowsTheNearest(own, ancestors);
    forall i | 0 <= i < |own| ensures i < |places| && places[i] == Place(0, i) {
      OwnPlace(own, ancestors, out, places, i);
    }
    if own != [] {
      OwnPlace(own, ancestors, out, places, |own| - 1);
    }
    forall i | |own| <= i < |out| ensures !HasType(own, out[i].entry.ctype) {
      assert places[i] in places;
      assert IsShown(own, ancestors, places[i]);
      assert places[i].level > 0;
      assert !HasType(ListAt(own, ancestors, 0), out[i].entry.ctype);
    }
  }

  /** A type that the resource does not have itself comes, whole and in order, from the first ancestor with a
      name that has it, under that ancestor's label. */
  lemma {:induction false} InheritedFromTheNearest(own: seq<Entry>, ancestors: seq<Level>, t: string, a: nat)
    requires !HasType(own, t) && a < |ancestors| && ancestors[a].name != "" && HasType(ancestors[a].contacts, t)
    requires forall b :: 0 <= b < a ==> ancestors[b].name == "" || !HasType(ancestors[b].contacts, t)
    ensures OfType(Effective([OwnLevel(own)] + ancestors), t) ==
      AllOfType(ancestors[a].contacts, t, ancestors[a].origin)
  {
    var levels := [OwnLevel(own)] + ancestors;
    forall l: nat | l <= a + 1 ensures Defines(levels[l], t) <==> HasType(ListAt(own, ancestors, l), t) {
      LevelsAre(own, ancestors, l, t);
    }
    NearestLevelWins(levels, t, a + 1);
  }
}
