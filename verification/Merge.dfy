/**
 Merging a submitted payload onto what a proposal already holds
 (internal/handlers/proposal_snapshots.go).

 A key that is present wins, a key that is absent keeps what was there.  Two kinds have their
 fields one level down, and a resource's services are merged one level deeper still.
 */
module Merge {
  import opened Wrappers
  import opened Json
  import opened Kinds

  // ---- what the code computes ----

  function Shallow(current: Fields, incoming: Fields): Fields {
    current + incoming
  }

  // The value of a key that is itself an object, if it is one.
  function Inner(m: Fields, key: string): Option<Fields> {
    if key in m && m[key].Obj? then Some(m[key].fields) else None
  }

  // A shallow merge that merges the objects under `key` with `deeper` when both sides have one.
  function Under(key: string, deeper: (Fields, Fields) -> Fields, x: Fields, y: Fields): Fields {
    match (Inner(x, key), Inner(y, key))
    case (Some(u), Some(v)) => Shallow(x, y)[key := Obj(deeper(u, v))]
    case _ => Shallow(x, y)
  }

  // The names in the incoming services are the names of the result; a service both sides have is
  // merged.
  function ServiceEntries(base: Fields, incoming: Fields): Fields {
    map name | name in incoming :: ServiceEntry(base, incoming, name)
  }

  function ServiceEntry(base: Fields, incoming: Fields, name: string): Json
    requires name in incoming
  {
    match (Inner(base, name), Inner(incoming, name))
    case (Some(b), Some(i)) => Obj(Shallow(b, i))
    case _ => incoming[name]
  }

  function ResourceFields(x: Fields, y: Fields): Fields {
    Under("Services", ServiceEntries, x, y)
  }

  function MergeFields(kind: Kind, x: Fields, y: Fields): Fields {
    match kind
    case Resource => Under("resource", ResourceFields, x, y)
    case VO => Under("vo", Shallow, x, y)
    case _ => Shallow(x, y)
  }

  function MergeProposed(kind: Kind, base: Json, incoming: Json): Json {
    if base.Obj? && incoming.Obj? then Obj(MergeFields(kind, base.fields, incoming.fields)) else incoming
  }

  method MergeShallow(current: Fields, incoming: Fields) returns (merged: Fields)
    ensures merged == Shallow(current, incoming)
  {
    merged := map[];
    var todo := current.Keys;
    while todo != {}
      invariant todo <= current.Keys && merged.Keys == current.Keys - todo
      invariant forall k :: k in merged ==> merged[k] == current[k]
      decreases todo
    {
      var k :| k in todo;
      merged, todo := merged[k := current[k]], todo - {k};
    }
    todo := incoming.Keys;
    while todo != {}
      invariant todo <= incoming.Keys && merged.Keys == current.Keys + (incoming.Keys - todo)
      invariant forall k :: k in merged ==>
        merged[k] == if k in incoming && k !in todo then incoming[k] else current[k]
      decreases todo
    {
      var k :| k in todo;
      merged, todo := merged[k := incoming[k]], todo - {k};
    }
  }

  method MergeServiceEntries(base: Option<Json>, incoming: Json) returns (out: Json)
    ensures out ==
      if incoming.Obj? && base.Some? && base.value.Obj? then Obj(ServiceEntries(base.value.fields, incoming.fields))
        else incoming
  {
    if !incoming.Obj? {
      return incoming;
    }
    if base.None? || !base.value.Obj? {
      return incoming;
    }
    var merged: Fields := map[];
    var todo := incoming.fields.Keys;
    while todo != {}
      invariant todo <= incoming.fields.Keys && merged.Keys == incoming.fields.Keys - todo
      invariant forall k :: k in merged ==> merged[k] == ServiceEntry(base.value.fields, incoming.fields, k)
      decreases todo
    {
      var name :| name in todo;
      var service := incoming.fields[name];
      if service.Obj? && name in base.value.fields && base.value.fields[name].Obj? {
        var m := MergeShallow(base.value.fields[name].fields, service.fields);
        merged := merged[name := Obj(m)];
      } else {
        merged := merged[name := service];
      }
      todo := todo - {name};
    }
    out := Obj(merged);
  }

  method MergeProposedState(kind: Kind, base: Json, incoming: Json) returns (r: Json)
    ensures r == MergeProposed(kind, base, incoming)
  {
    if !base.Obj? || !incoming.Obj? {
      return incoming;
    }
    var b, i := base.fields, incoming.fields;
    var merged := MergeShallow(b, i);
    if kind == Resource {
      if "resource" in b && b["resource"].Obj? && "resource" in i && i["resource"].Obj? {
        var bi, ii := b["resource"].fields, i["resource"].fields;
        var inner := MergeShallow(bi, ii);
        if "Services" in ii {
          var services := MergeServiceEntries(if "Services" in bi then Some(bi["Services"]) else None, ii["Services"]);
          inner := inner["Services" := services];
        }
        assert inner == ResourceFields(bi, ii);
        merged := merged["resource" := Obj(inner)];
      }
    }
    if kind == VO {
      if "vo" in b && b["vo"].Obj? && "vo" in i && i["vo"].Obj? {
        var inner := MergeShallow(b["vo"].fields, i["vo"].fields);
        merged := merged["vo" := Obj(inner)];
      }
    }
    return Obj(merged);
  }

  // ---- folding a list of revisions ----

  // What a proposal holds after its creation and all its revisions.
  function Folded(kind: Kind, base: Json, revisions: seq<Json>): Json {
    if revisions == [] then base
    else
      var n := |revisions| - 1;
      MergeProposed(kind, Folded(kind, base, revisions[..n]), revisions[n])
  }

  // The base is entry 0, the revisions follow.
  function Entry(base: Json, revisions: seq<Json>, k: nat): Json
    requires k <= |revisions|
  {
    if k == 0 then base else revisions[k - 1]
  }

  // A part of a payload, and when a later submission leaves it alone.
  datatype Part<!V> = Part(read: Json -> Option<V>, leaves: Json -> bool)

  ghost predicate MergesAs<V(!new)>(kind: Kind, part: Part<V>) {
    && (forall j :: part.leaves(j) ==> part.read(j).None?)
    && (forall b, i :: part.read(MergeProposed(kind, b, i)) == part.read(if part.leaves(i) then b else i))
  }

  // Entry k is the last to write the part, and what it wrote is v.
  ghost predicate LastWriter<V>(part: Part<V>, base: Json, revisions: seq<Json>, v: V, k: nat) {
    && k <= |revisions|
    && part.read(Entry(base, revisions, k)) == Some(v)
    && forall m :: k < m <= |revisions| ==> part.leaves(Entry(base, revisions, m))
  }

  lemma {:induction false} FoldStep<V(!new)>(kind: Kind, part: Part<V>, base: Json, revisions: seq<Json>)
    requires MergesAs(kind, part) && revisions != []
    ensures var init, last := revisions[..|revisions| - 1], revisions[|revisions| - 1];
      part.read(Folded(kind, base, revisions)) ==
        part.read(if part.leaves(last) then Folded(kind, base, init) else last)
  {}

  lemma {:induction false} LastWriterStep<V(!new)>(part: Part<V>, base: Json, revisions: seq<Json>, v: V)
    requires revisions != []
    ensures var init, last := revisions[..|revisions| - 1], revisions[|revisions| - 1];
      (exists k: nat :: LastWriter(part, base, revisions, v, k)) <==>
        if part.leaves(last) then
          (exists k: nat :: LastWriter(part, base, init, v, k)) || part.read(last) == Some(v)
        else part.read(last) == Some(v)
  {
    var n := |revisions|;
    var init, last := revisions[..n - 1], revisions[n - 1];
    assert forall k :: 0 <= k < n ==> Entry(base, init, k) == Entry(base, revisions, k);
    assert Entry(base, revisions, n) == last;
    assert LastWriter(part, base, revisions, v, n) <==> part.read(last) == Some(v);
    if part.leaves(last) {
      forall k: nat | k < n ensures LastWriter(part, base, init, v, k) <==> LastWriter(part, base, revisions, v, k) {}
    } else {
      assert forall k: nat :: LastWriter(part, base, revisions, v, k) ==> k == n;
    }
  }

  lemma {:induction false} FoldIsLastWriter<V(!new)>(kind: Kind, part: Part<V>, base: Json, revisions: seq<Json>, v: V)
    requires MergesAs(kind, part)
    ensures part.read(Folded(kind, base, revisions)) == Some(v) <==> exists k: nat ::
      LastWriter(part, base, revisions, v, k)
    decreases |revisions|
  {
    if revisions == [] {
      assert LastWriter(part, base, revisions, v, 0) <==> part.read(base) == Some(v);
    } else {
      FoldIsLastWriter(kind, part, base, revisions[..|revisions| - 1], v);
      FoldStep(kind, part, base, revisions);
      LastWriterStep(part, base, revisions, v);
    }
  }

  function Get(j: Json, key: string): Option<Json> {
    if j.Obj? && key in j.fields then Some(j.fields[key]) else None
  }

  predicate Omits(j: Json, key: string) {
    j.Obj? && key !in j.fields
  }

  function GetIn(j: Option<Json>, key: string): Option<Json> {
    match j
    case Some(v) => Get(v, key)
    case None => None
  }

  // ---- the parts of a payload ----

  // A field of the envelope that is not itself merged deeper.
  function TopField(key: string): Part<Json> {
    Part(j => Get(j, key), j => Omits(j, key))
  }

  // A field of the document a kind wraps under `wrap`.
  function WrappedField(wrap: string, f: string): Part<Json> {
    Part(j => GetIn(Get(j, wrap), f),
         j => Omits(j, wrap) || (Get(j, wrap).Some? && Omits(Get(j, wrap).value, f)))
  }

  function Services(j: Json): Option<Json> {
    GetIn(Get(j, "resource"), "Services")
  }

  predicate OmitsServices(j: Json) {
    Omits(j, "resource") || (Get(j, "resource").Some? && Omits(Get(j, "resource").value, "Services"))
  }

  // The names of a resource's services.
  function ServiceNames(): Part<set<string>> {
    Part(j => NamesIn(Services(j)), j => OmitsServices(j))
  }

  function NamesIn(services: Option<Json>): Option<set<string>> {
    match services
    case Some(Obj(m)) => Some(m.Keys)
    case _ => None
  }

  // A field of one service: left alone by a submission that does not mention services at all, or
  // mentions this one without the field.  A submission that drops the service does not leave it alone.
  function ServiceField(s: string, f: string): Part<Json> {
    Part(j => GetIn(GetIn(Services(j), s), f),
         j => OmitsServices(j) || (GetIn(Services(j), s).Some? && Omits(GetIn(Services(j), s).value, f)))
  }

  lemma {:induction false} TopFieldMerges(kind: Kind, key: string)
    requires !(kind == Resource && key == "resource") && !(kind == VO && key == "vo")
    ensures MergesAs(kind, TopField(key))
  {
    var part := TopField(key);
    forall b, i ensures part.read(MergeProposed(kind, b, i)) == part.read(if part.leaves(i) then b else i) {
      if b.Obj? && i.Obj? {
        match kind
        case Resource => UnderAt("resource", ResourceFields, b.fields, i.fields, key);
        case VO => UnderAt("vo", Shallow, b.fields, i.fields, key);
        case _ =>
      }
    }
  }

  lemma {:induction false} VOFieldMerges(f: string)
    ensures MergesAs(VO, WrappedField("vo", f))
  {
    var part := WrappedField("vo", f);
    forall b, i ensures part.read(MergeProposed(VO, b, i)) == part.read(if part.leaves(i) then b else i) {
      MergedDocument(b, i);
      match (Get(b, "vo"), Get(i, "vo"))
      case (Some(Obj(x)), Some(Obj(y))) =>
      case _ =>
    }
  }

  // The document of a merged payload: merged when both sides have one, otherwise the one there is.
  lemma {:induction false} MergedDocument(b: Json, i: Json)
    ensures Get(MergeProposed(VO, b, i), "vo") ==
      match (Get(b, "vo"), Get(i, "vo"))
      case (Some(Obj(x)), Some(Obj(y))) => Some(Obj(Shallow(x, y)))
      case (r, None) => if i.Obj? then r else None
      case (_, r) => r
  {
    if b.Obj? && i.Obj? {
      UnderAt("vo", Shallow, b.fields, i.fields, "vo");
    }
  }

  // What a merge that goes one level deeper under `key` leaves under each key.
  lemma {:induction false} UnderAt(key: string, deeper: (Fields, Fields) -> Fields, x: Fields, y: Fields, k: string)
    ensures var m := Obj(Under(key, deeper, x, y));
      Get(m, k) ==
      if k == key && Inner(x, key).Some? && Inner(y, key).Some? then
        Some(Obj(deeper(Inner(x, key).value, Inner(y, key).value)))
      else if k in y then Some(y[k]) else Get(Obj(x), k)
  {}

  // The resource of a merged payload: merged when both sides have one, otherwise the one there is.
  lemma {:induction false} MergedResource(b: Json, i: Json)
    ensures Get(MergeProposed(Resource, b, i), "resource") ==
      match (Get(b, "resource"), Get(i, "resource"))
      case (Some(Obj(x)), Some(Obj(y))) => Some(Obj(ResourceFields(x, y)))
      case (r, None) => if i.Obj? then r else None
      case (_, r) => r
  {
    if b.Obj? && i.Obj? {
      UnderAt("resource", ResourceFields, b.fields, i.fields, "resource");
    }
  }

  predicate IsObject(j: Option<Json>) {
    j.Some? && j.value.Obj?
  }

  // What both sides say of a part, when they are not both objects: the incoming value wins, and without
  // one the part stays.
  ghost predicate TakesIncoming(merged: Option<Json>, base: Option<Json>, incoming: Option<Json>) {
    if incoming.None? then merged == base
    else (IsObject(base) && IsObject(incoming)) || merged == incoming
  }

  // The one key of the envelope that is merged one level deeper.
  predicate GoesDeeper(kind: Kind, key: string) {
    (kind == Resource && key == "resource") || (kind == VO && key == "vo")
  }

  /** Only objects are merged, at every level: where one side has something else, or nothing, the incoming
      value replaces what was there whole, and what the incoming payload does not mention stays. */
  lemma {:induction false} OnlyObjectsAreMerged(kind: Kind, base: Json, incoming: Json)
    ensures var m := MergeProposed(kind, base, incoming);
      && (!base.Obj? || !incoming.Obj? ==> m == incoming)
      && (base.Obj? && incoming.Obj? ==>
            && m.Obj?
            && (forall k :: TakesIncoming(Get(m, k), Get(base, k), Get(incoming, k)))
            && (forall k :: k in incoming.fields && !GoesDeeper(kind, k) ==> Get(m, k) == Get(incoming, k)))
  {
    var m := MergeProposed(kind, base, incoming);
    if base.Obj? && incoming.Obj? {
      forall k ensures TakesIncoming(Get(m, k), Get(base, k), Get(incoming, k)) {
        MergedAt(kind, base.fields, incoming.fields, k);
      }
    }
  }

  lemma {:induction false} MergedAt(kind: Kind, x: Fields, y: Fields, k: string)
    ensures TakesIncoming(Get(Obj(MergeFields(kind, x, y)), k), Get(Obj(x), k), Get(Obj(y), k))
  {
    match kind
    case Resource => UnderAt("resource", ResourceFields, x, y, k);
    case VO => UnderAt("vo", Shallow, x, y, k);
    case _ =>
  }

  /** Inside a resource the same holds of its services, and of each single service. */
  lemma {:induction false} OnlyObjectsAreMergedInside(base: Json, incoming: Json, s: string)
    requires IsObject(Get(base, "resource")) && IsObject(Get(incoming, "resource"))
    ensures var m := MergeProposed(Resource, base, incoming);
      && TakesIncoming(Services(m), Services(base), Services(incoming))
      && (IsObject(Services(base)) && IsObject(Services(incoming)) ==>
            && IsObject(Services(m))
            && (GetIn(Services(m), s).Some? <==> GetIn(Services(incoming), s).Some?)
            && (GetIn(Services(incoming), s).Some? ==>
                  TakesIncoming(GetIn(Services(m), s), GetIn(Services(base), s), GetIn(Services(incoming), s))))
  {
    MergedResource(base, incoming);
    var x, y := Get(base, "resource").value.fields, Get(incoming, "resource").value.fields;
    UnderAt("Services", ServiceEntries, x, y, "Services");
  }

  lemma {:induction false} ResourceFieldMerges(f: string)
    requires f != "Services"
    ensures MergesAs(Resource, WrappedField("resource", f))
  {
    var part := WrappedField("resource", f);
    forall b, i ensures part.read(MergeProposed(Resource, b, i)) == part.read(if part.leaves(i) then b else i) {
      MergedResource(b, i);
      match (Get(b, "resource"), Get(i, "resource"))
      case (Some(Obj(x)), Some(Obj(y))) => UnderAt("Services", ServiceEntries, x, y, f);
      case _ =>
    }
  }

  // The services of a merged payload: merged when both sides have an object there.
  lemma {:induction false} MergedServices(b: Json, i: Json)
    ensures Services(MergeProposed(Resource, b, i)) ==
      match (Services(b), Services(i))
      case (Some(Obj(x)), Some(Obj(y))) => Some(Obj(ServiceEntries(x, y)))
      case _ => if OmitsServices(i) then Services(b) else Services(i)
  {
    MergedResource(b, i);
    match (Get(b, "resource"), Get(i, "resource"))
    case (Some(Obj(x)), Some(Obj(y))) => UnderAt("Services", ServiceEntries, x, y, "Services");
    case _ =>
  }

  lemma {:induction false} ServiceNamesMerge()
    ensures MergesAs(Resource, ServiceNames())
  {
    forall b, i
      ensures NamesIn(Services(MergeProposed(Resource, b, i))) == NamesIn(Services(if OmitsServices(i) then b else i))
    {
      MergedServices(b, i);
      match (Services(b), Services(i))
      case (Some(Obj(x)), Some(Obj(y))) => assert ServiceEntries(x, y).Keys == y.Keys;
      case _ =>
    }
  }

  lemma {:induction false} ServiceFieldMerges(s: string, f: string)
    ensures MergesAs(Resource, ServiceField(s, f))
  {
    var part := ServiceField(s, f);
    forall b, i ensures part.read(MergeProposed(Resource, b, i)) == part.read(if part.leaves(i) then b else i) {
      MergedServices(b, i);
      match (Services(b), Services(i))
      case (Some(Obj(x)), Some(Obj(y))) => ServiceEntryAt(x, y, s, f);
      case _ =>
    }
  }

  lemma {:induction false} ServiceEntryAt(x: Fields, y: Fields, s: string, f: string)
    ensures GetIn(Get(Obj(ServiceEntries(x, y)), s), f) ==
      if Get(Obj(y), s).Some? && Omits(Get(Obj(y), s).value, f) then GetIn(Get(Obj(x), s), f)
        else GetIn(Get(Obj(y), s), f)
  {}

  /** Any revisions of any payload of a kind that is merged at the top level: every field has the
      value of the last submission that mentions it. */
  lemma {:induction false} TopFieldsAreLastWritten(kind: Kind, base: Json, revisions: seq<Json>, key: string, v: Json)
    requires !(kind == Resource && key == "resource") && !(kind == VO && key == "vo")
    ensures Get(Folded(kind, base, revisions), key) == Some(v) <==>
      exists k: nat :: LastWriter(TopField(key), base, revisions, v, k)
  {
    TopFieldMerges(kind, key);
    FoldIsLastWriter(kind, TopField(key), base, revisions, v);
  }

  /** The same for each field of a resource, and of a VO's document. */
  lemma {:induction false} WrappedFieldsAreLastWritten(base: Json, revisions: seq<Json>, f: string, v: Json)
    ensures f != "Services" ==>
      (GetIn(Get(Folded(Resource, base, revisions), "resource"), f) == Some(v) <==>
       exists k: nat :: LastWriter(WrappedField("resource", f), base, revisions, v, k))
    ensures GetIn(Get(Folded(VO, base, revisions), "vo"), f) == Some(v) <==>
      exists k: nat :: LastWriter(WrappedField("vo", f), base, revisions, v, k)
  {
    if f != "Services" {
      ResourceFieldMerges(f);
      FoldIsLastWriter(Resource, WrappedField("resource", f), base, revisions, v);
    }
    VOFieldMerges(f);
    FoldIsLastWriter(VO, WrappedField("vo", f), base, revisions, v);
  }

  /** A resource's services are those the last submission mentioning services names, and a service's
      field has the value of the last submission that wrote it, provided every later one that mentions
      services still names the service: the history of a service starts over each time it is dropped. */
  lemma {:induction false} ServicesSinceLastDropped(base: Json, revisions: seq<Json>, names: set<string>, s: string,
                                                    f: string, v: Json)
    ensures ServiceNames().read(Folded(Resource, base, revisions)) == Some(names) <==>
      exists k: nat :: LastWriter(ServiceNames(), base, revisions, names, k)
    ensures ServiceField(s, f).read(Folded(Resource, base, revisions)) == Some(v) <==>
      exists k: nat :: LastWriter(ServiceField(s, f), base, revisions, v, k)
  {
    ServiceNamesMerge();
    FoldIsLastWriter(Resource, ServiceNames(), base, revisions, names);
    ServiceFieldMerges(s, f);
    FoldIsLastWriter(Resource, ServiceField(s, f), base, revisions, v);
  }

  // ---- associativity ----

  ghost predicate Associates(f: (Fields, Fields) -> Fields, x: Fields, y: Fields, z: Fields) {
    f(f(x, y), z) == f(x, f(y, z))
  }

  ghost predicate InAll(key: string, x: Fields, y: Fields, z: Fields) {
    key in x && key in y && key in z
  }

  // Three values where objects are merged with `deeper` and anything else replaces what was there: the
  // second ends the first, and the third starts anew without something that the first has.
  ghost predicate Resets(deeper: (Fields, Fields) -> Fields, u: Json, v: Json, w: Json) {
    && u.Obj? && w.Obj?
    && if v.Obj? then !Associates(deeper, u.fields, v.fields, w.fields) else deeper(u.fields, w.fields) != w.fields
  }

  lemma {:induction false} UnderAssociates(key: string, deeper: (Fields, Fields) -> Fields, x: Fields, y: Fields,
                                           z: Fields)
    ensures var f := (u, v) => Under(key, deeper, u, v);
      Associates(f, x, y, z) <==> !(InAll(key, x, y, z) && Resets(deeper, x[key], y[key], z[key]))
  {
    var left := Under(key, deeper, Under(key, deeper, x, y), z);
    var right := Under(key, deeper, x, Under(key, deeper, y, z));
    forall k | k != key ensures Get(Obj(left), k) == Get(Obj(right), k) {
      UnderAt(key, deeper, x, y, k);
      UnderAt(key, deeper, y, z, k);
      UnderAt(key, deeper, Under(key, deeper, x, y), z, k);
      UnderAt(key, deeper, x, Under(key, deeper, y, z), k);
    }
    UnderAtKey(key, deeper, x, y, z);
    SameByKey(left, right);
  }

  lemma {:induction false} UnderAtKey(key: string, deeper: (Fields, Fields) -> Fields, x: Fields, y: Fields, z: Fields)
    ensures var left, right := Under(key, deeper, Under(key, deeper, x, y), z),
      Under(key, deeper, x, Under(key, deeper, y, z));
      Get(Obj(left), key) == Get(Obj(right), key) <==> !(InAll(key, x, y, z) && Resets(deeper, x[key], y[key], z[key]))
  {
    UnderAt(key, deeper, x, y, key);
    UnderAt(key, deeper, y, z, key);
    UnderAt(key, deeper, Under(key, deeper, x, y), z, key);
    UnderAt(key, deeper, x, Under(key, deeper, y, z), key);
  }

  lemma {:induction false} SameByKey(l: Fields, r: Fields)
    ensures l == r <==> forall k :: Get(Obj(l), k) == Get(Obj(r), k)
  {
    if forall k :: Get(Obj(l), k) == Get(Obj(r), k) {
      forall k ensures k in l <==> k in r {
        assert Get(Obj(l), k) == Get(Obj(r), k);
      }
      forall k | k in l ensures l[k] == r[k] {
        assert Get(Obj(l), k) == Get(Obj(r), k);
      }
    }
  }

  // Service s has a field f that y drops with the service and z, which has the service again, does
  // not give back.
  ghost predicate DroppedAndReadded(x: Fields, y: Fields, z: Fields, s: string, f: string) {
    && Inner(x, s).Some? && f in Inner(x, s).value
    && Inner(y, s).None?
    && Inner(z, s).Some? && f !in Inner(z, s).value
  }

  lemma {:induction false} ServiceEntriesAssociate(x: Fields, y: Fields, z: Fields)
    ensures Associates(ServiceEntries, x, y, z) <==> !exists s, f :: DroppedAndReadded(x, y, z, s, f)
  {
    var left, right := ServiceEntries(ServiceEntries(x, y), z), ServiceEntries(x, ServiceEntries(y, z));
    assert left.Keys == right.Keys == z.Keys;
    forall s | s in z ensures left[s] == right[s] <==> !exists f :: DroppedAndReadded(x, y, z, s, f) {
      OneServiceAssociates(x, y, z, s);
    }
    if exists s, f :: DroppedAndReadded(x, y, z, s, f) {
      var s, f :| DroppedAndReadded(x, y, z, s, f);
      assert s in z && left[s] != right[s];
    }
  }

  lemma {:induction false} OneServiceAssociates(x: Fields, y: Fields, z: Fields, s: string)
    requires s in z
    ensures ServiceEntries(ServiceEntries(x, y), z)[s] == ServiceEntries(x, ServiceEntries(y, z))[s] <==>
      !exists f :: DroppedAndReadded(x, y, z, s, f)
  {
    var left, right := ServiceEntries(ServiceEntries(x, y), z)[s], ServiceEntries(x, ServiceEntries(y, z))[s];
    match (Inner(x, s), Inner(y, s), Inner(z, s))
    case (Some(u), None, Some(w)) =>
      assert left == Obj(w) && right == Obj(Shallow(u, w));
      if f :| f in u && f !in w {
        assert DroppedAndReadded(x, y, z, s, f);
      } else {
        assert Shallow(u, w) == w;
      }
    case (Some(u), Some(v), Some(w)) =>
      assert Shallow(Shallow(u, v), w) == Shallow(u, Shallow(v, w));
    case _ =>
  }

  // The services of a payload's resource when they are an object, and none otherwise.
  function FieldsOf(j: Json): Fields {
    match j
    case Obj(m) => m
    case _ => map[]
  }

  lemma {:induction false} ServicesReset(u: Json, v: Json, w: Json)
    ensures Resets(ServiceEntries, u, v, w) <==>
      u.Obj? && w.Obj? && exists s, f :: DroppedAndReadded(u.fields, FieldsOf(v), w.fields, s, f)
  {
    if u.Obj? && w.Obj? {
      var x, y, z := u.fields, FieldsOf(v), w.fields;
      ServiceEntriesAssociate(x, y, z);
      if !v.Obj? {
        assert ServiceEntries(x, y) == map[] == ServiceEntries(y, map[]);
        assert ServiceEntries(map[], z) == z;
      }
    }
  }

  lemma ShallowChanges(u: Fields, w: Fields)
    ensures Shallow(u, w) != w <==> exists f :: f in u && f !in w
  {
    if forall f :: f in u ==> f in w {
      assert Shallow(u, w) == w;
    } else {
      var f :| f in u && f !in w;
      assert f in Shallow(u, w);
    }
  }

  lemma {:induction false} ShallowAssociates(x: Fields, y: Fields, z: Fields)
    ensures Associates(Shallow, x, y, z)
  {}

  // What makes a difference between revising with b and then c, and revising once with both merged.  In
  // each case something that a has is ended by b and begun again by c, without all that a had of it.
  ghost predicate Restarts(kind: Kind, a: Json, b: Json, c: Json) {
    && a.Obj? && c.Obj?
    && if !b.Obj? then MergeProposed(kind, a, c) != c
       else
         match kind
         case Resource =>
           InAll("resource", a.fields, b.fields, c.fields)
           && ResourceRestarts(a.fields["resource"], b.fields["resource"], c.fields["resource"])
         case VO =>
           InAll("vo", a.fields, b.fields, c.fields)
           && DocumentRestarts(a.fields["vo"], b.fields["vo"], c.fields["vo"])
         case _ => false
  }

  ghost predicate DocumentRestarts(u: Json, v: Json, w: Json) {
    u.Obj? && w.Obj? && !v.Obj? && exists f :: f in u.fields && f !in w.fields
  }

  ghost predicate ResourceRestarts(u: Json, v: Json, w: Json) {
    && u.Obj? && w.Obj?
    && if !v.Obj? then ResourceFields(u.fields, w.fields) != w.fields
       else
         InAll("Services", u.fields, v.fields, w.fields)
         && ServiceRestarts(u.fields["Services"], v.fields["Services"], w.fields["Services"])
  }

  ghost predicate ServiceRestarts(u: Json, v: Json, w: Json) {
    u.Obj? && w.Obj? && exists s, f :: DroppedAndReadded(u.fields, FieldsOf(v), w.fields, s, f)
  }

  lemma {:induction false} ResourceResets(u: Json, v: Json, w: Json)
    ensures Resets(ResourceFields, u, v, w) <==> ResourceRestarts(u, v, w)
  {
    if u.Obj? && v.Obj? && w.Obj? {
      UnderAssociates("Services", ServiceEntries, u.fields, v.fields, w.fields);
      if InAll("Services", u.fields, v.fields, w.fields) {
        ServicesReset(u.fields["Services"], v.fields["Services"], w.fields["Services"]);
      }
    }
  }

  lemma {:induction false} DocumentResets(u: Json, v: Json, w: Json)
    ensures Resets(Shallow, u, v, w) <==> DocumentRestarts(u, v, w)
  {
    if u.Obj? && w.Obj? {
      ShallowChanges(u.fields, w.fields);
      if v.Obj? {
        ShallowAssociates(u.fields, v.fields, w.fields);
      }
    }
  }

  lemma {:induction false} PayloadResets(kind: Kind, a: Json, b: Json, c: Json)
    requires a.Obj? && b.Obj? && c.Obj?
    ensures Associates((u, v) => MergeFields(kind, u, v), a.fields, b.fields, c.fields) <==> !Restarts(kind, a, b, c)
  {
    var x, y, z := a.fields, b.fields, c.fields;
    match kind
    case Resource =>
      UnderAssociates("resource", ResourceFields, x, y, z);
      if InAll("resource", x, y, z) {
        ResourceResets(x["resource"], y["resource"], z["resource"]);
      }
    case VO =>
      UnderAssociates("vo", Shallow, x, y, z);
      if InAll("vo", x, y, z) {
        DocumentResets(x["vo"], y["vo"], z["vo"]);
      }
    case _ => ShallowAssociates(x, y, z);
  }

  /** Revising any payload with b and then c is revising it once with b-merged-with-c, except exactly when c
      begins something again that b had ended, without all that was there before. */
  lemma {:induction false} MergeAssociatesUnlessRestarted(kind: Kind, a: Json, b: Json, c: Json)
    ensures MergeProposed(kind, MergeProposed(kind, a, b), c) == MergeProposed(kind, a, MergeProposed(kind, b, c)) <==>
      !Restarts(kind, a, b, c)
  {
    if a.Obj? && b.Obj? && c.Obj? {
      PayloadResets(kind, a, b, c);
    }
  }

  // What the schemas require of a payload's shape: objects where the merge looks for them.
  ghost predicate ShapedPayload(kind: Kind, j: Json) {
    && j.Obj?
    && (kind == VO ==> Shaped(j.fields, "vo"))
    && (kind == Resource ==> Shaped(j.fields, "resource"))
    && (kind == Resource && "resource" in j.fields ==> Shaped(j.fields["resource"].fields, "Services"))
  }

  ghost predicate Shaped(m: Fields, key: string) {
    key in m ==> m[key].Obj?
  }

  // All three submissions mention services, and some service is dropped by the second and back in
  // the third without a field it had.
  ghost predicate ServiceDroppedAndReadded(a: Json, b: Json, c: Json, s: string, f: string) {
    match (Services(a), Services(b), Services(c))
    case (Some(Obj(x)), Some(Obj(y)), Some(Obj(z))) => DroppedAndReadded(x, y, z, s, f)
    case _ => false
  }

  /** Between payloads that have the shape the schemas demand that can only be a resource's service, dropped
      by b and re-added by c without a field it had before. */
  lemma {:induction false} MergeAssociatesUnlessReadded(kind: Kind, a: Json, b: Json, c: Json)
    requires ShapedPayload(kind, a) && ShapedPayload(kind, b) && ShapedPayload(kind, c)
    ensures MergeProposed(kind, MergeProposed(kind, a, b), c) == MergeProposed(kind, a, MergeProposed(kind, b, c)) <==>
      !(kind == Resource && exists s, f :: ServiceDroppedAndReadded(a, b, c, s, f))
  {
    MergeAssociatesUnlessRestarted(kind, a, b, c);
    if kind == Resource {
      ShapedRestarts(a, b, c);
    }
  }

  lemma {:induction false} ShapedRestarts(a: Json, b: Json, c: Json)
    requires ShapedPayload(Resource, a) && ShapedPayload(Resource, b) && ShapedPayload(Resource, c)
    ensures Restarts(Resource, a, b, c) <==> exists s, f :: ServiceDroppedAndReadded(a, b, c, s, f)
  {
    if Services(a).Some? && Services(b).Some? && Services(c).Some? {
      var x, y, z := Services(a).value.fields, Services(b).value.fields, Services(c).value.fields;
      forall s, f ensures ServiceDroppedAndReadded(a, b, c, s, f) <==> DroppedAndReadded(x, y, z, s, f) {}
      assert Restarts(Resource, a, b, c) <==> ServiceRestarts(Services(a).value, Services(b).value, Services(c).value);
      assert FieldsOf(Services(b).value) == y;
    } else {
      forall s, f ensures !ServiceDroppedAndReadded(a, b, c, s, f) {}
    }
  }

  // A service of one field, dropped and then named again with none: in one step the field survives,
  // in two it is gone.
  lemma {:induction false} ReaddedServiceLosesItsField()
    ensures exists a, b, c ::
      && ShapedPayload(Resource, a) && ShapedPayload(Resource, b) && ShapedPayload(Resource, c)
      && MergeProposed(Resource, MergeProposed(Resource, a, b), c) != MergeProposed(Resource, a,
        MergeProposed(Resource, b, c))
  {
    var a, b, c := OneService(map["CE" := Obj(map["Details" := Null])]), OneService(map[]),
      OneService(map["CE" := Obj(map[])]);
    assert ServiceDroppedAndReadded(a, b, c, "CE", "Details");
    MergeAssociatesUnlessReadded(Resource, a, b, c);
  }

  function OneService(services: Fields): Json {
    Obj(map["resource" := Obj(map["Services" := Obj(services)])])
  }
}
