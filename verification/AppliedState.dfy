/**
 What is in the tables once a proposal has been applied: the row it names, the contacts it lists, and
 nothing that was not checked.
 */
module AppliedState {
  import opened Wrappers
  import opened Json
  import opened Kinds
  import opened Contacts
  import opened ContactSlots
  import opened Tables
  import opened Registry
  import opened RegistrySafety
  import opened Operations
  import opened References

  // ---- facilities, sites and groups ----

  /** An update keeps the row of its target, under the new name and the live parent that was named, and
      everything that was below the row is below it still. */
  lemma {:induction false} UpdateKeepsIdentity(env: Env, db: DB, kind: Kind, target: string, state: Json, now: nat,
                                               id: int)
    requires kind in {Facility, Site, ResourceGroup} && Sound(db.rows) && Named(db.rows, kind, target) == Some(id)
    requires ApplyEntity(env, db, kind, Update, target, state, now).Ok?
    ensures var p, after := env.decode(kind, state).value,
      ApplyEntity(env, db, kind, Update, target, state, now).value.rows;
      && Named(after, kind, p.name) == Some(id)
      && (kind != Facility ==>
            Named(db.rows, ParentKind(kind).value, p.parent) == Some(after[Key(kind, id)].content.parent))
      && (p.name != target ==> Named(after, kind, target) == None)
      && forall child :: IsChildOf(db.rows, child, kind, target) ==> IsChildOf(after, child, kind, p.name)
  {
    var p, after := env.decode(kind, state).value, ApplyEntity(env, db, kind, Update, target, state, now).value.rows;
    var key := Key(kind, id);
    EntityStep(env, db, kind, Update, target, state, now);
    assert after == db.rows[key := after[key]] && IsNamed(after, key, kind, p.name);
    NamedIs(after, key, kind, p.name);
    if p.name != target {
      forall other ensures !IsNamed(after, other, kind, target) {
        if IsNamed(db.rows, other, kind, target) {
          NamedIs(db.rows, other, kind, target);
        }
      }
    }
    forall child | IsChildOf(db.rows, child, kind, target) ensures IsChildOf(after, child, kind, p.name) {
      ParentIsTarget(db.rows, child, kind, target, id);
    }
  }

  // A live child's parent is the live row of that name, even when a deleted row has the name too.
  lemma {:induction false} ParentIsTarget(rows: Rows, child: Key, kind: Kind, target: string, id: int)
    requires Sound(rows) && IsChildOf(rows, child, kind, target) && Named(rows, kind, target) == Some(id)
    ensures rows[child].content.parent == id
  {
    var up := Key(kind, rows[child].content.parent);
    assert rows[up].live;
    NamedIs(rows, up, kind, target);
  }

  /** A create adds one row, under a free name and the live parent that was named; a new group is in
      production and enabled unless it says otherwise. */
  lemma {:induction false} CreateAddsOneRow(env: Env, db: DB, kind: Kind, target: string, state: Json, now: nat)
    requires kind in {Facility, Site, ResourceGroup} && Sound(db.rows)
    requires ApplyEntity(env, db, kind, Create, target, state, now).Ok?
    ensures var p, key := env.decode(kind, state).value, Key(kind, db.next);
      var after := ApplyEntity(env, db, kind, Create, target, state, now).value.rows;
      && Named(db.rows, kind, p.name) == None
      && Named(after, kind, p.name) == Some(db.next)
      && after - {key} == db.rows
      && (kind != Facility ==> Named(db.rows, ParentKind(kind).value, p.parent) == Some(after[key].content.parent))
      && (kind == ResourceGroup ==> Defaulted(p.data, after[key].content.data))
  {
    var p, key := env.decode(kind, state).value, Key(kind, db.next);
    var after := ApplyEntity(env, db, kind, Create, target, state, now).value.rows;
    CreatedRow(env, db, kind, target, state, now);
    EntityStep(env, db, kind, Create, target, state, now);
    NamedIs(after, key, kind, p.name);
    assert after - {key} == db.rows;
  }

  // What a group says of itself, production and enabled where it says nothing.
  ghost predicate Defaulted(data: Fields, filled: Fields) {
    forall k :: k in {"production", "disable"} ==>
      k in filled && filled[k] == if k in data && data[k] != Null then data[k] else Bool(k == "production")
  }

  lemma {:induction false} CreatedRow(env: Env, db: DB, kind: Kind, target: string, state: Json, now: nat)
    requires kind in {Facility, Site, ResourceGroup}
    requires ApplyEntity(env, db, kind, Create, target, state, now).Ok?
    ensures var p, key := env.decode(kind, state).value, Key(kind, db.next);
      var after := ApplyEntity(env, db, kind, Create, target, state, now).value.rows;
      && key !in db.rows && Named(db.rows, kind, p.name) == None
      && key in after && IsNamed(after, key, kind, p.name) && after == db.rows[key := after[key]]
      && (kind != Facility ==> Named(db.rows, ParentKind(kind).value, p.parent) == Some(after[key].content.parent))
      && (kind == ResourceGroup ==> Defaulted(p.data, after[key].content.data))
  {
    var p := env.decode(kind, state).value;
    DefaultsFilled(Content(p.name, ParentId(db, kind, p.parent).value, p.institution, p.center, {}, p.data));
  }

  lemma DefaultsFilled(c: Content)
    ensures Defaulted(c.data, WithDefaults(ResourceGroup, c).data)
  {}

  /** What is written as an entity's contacts was accepted: everyone is known and, unless contacts are
      filed already under a name the entity takes, no slot of it has two holders. */
  lemma {:induction false} WrittenContactsAreSound(env: Env, db: DB, kind: Kind, op: Operation, target: string,
                                                   state: Json, now: nat)
    requires kind in {Facility, Site, ResourceGroup} && op != Delete
    requires ApplyEntity(env, db, kind, op, target, state, now).Ok?
    ensures var p, after := env.decode(kind, state).value, ApplyEntity(env, db, kind, op, target, state, now).value;
      && AllKnown(env.contactKnown, p.contacts)
      && LiveOf(after.contacts, kind, p.name) ==
           (if target == p.name then [] else LiveOf(db.contacts, kind, p.name)) + Written(kind, p.name, p.contacts)
      && (target == p.name || LiveOf(db.contacts, kind, p.name) == [] ==> OneHolderEach(after.contacts, kind, p.name))
  {
    var p := env.decode(kind, state).value;
    AcceptedLists(env.contactKnown, p.contacts);
    LiveAfterWrite(db.contacts, kind, target, p.name, p.contacts);
    ReplaceKeepsOneHolder(db.contacts, kind, target, p.name, p.contacts);
    if LiveOf(db.contacts, kind, p.name) == [] {
      NoneLive(db.contacts, kind, p.name);
    }
  }

  /** What was filed under a deleted entity's name is in the way of the next one: created under the name,
      from another target, an entity has every slot held once exactly when the old contacts were sound and
      are in other slots than the new. */
  lemma {:induction false} RecreatedAmongOldContacts(env: Env, db: DB, kind: Kind, target: string, state: Json,
                                                     now: nat, later: nat)
    requires kind in {Facility, Site, ResourceGroup}
    requires env.decode(kind, state).Some? && env.decode(kind, state).value.EntityState?
    requires var name := env.decode(kind, state).value.name;
      var deleted := ApplyEntity(env, db, kind, Delete, name, state, now);
      target != name && deleted.Ok? && ApplyEntity(env, deleted.value, kind, Create, target, state, later).Ok?
    ensures var p := env.decode(kind, state).value;
      var deleted := ApplyEntity(env, db, kind, Delete, p.name, state, now).value;
      var after := ApplyEntity(env, deleted, kind, Create, target, state, later).value;
      OneHolderEach(after.contacts, kind, p.name) <==>
        OneHolderEach(db.contacts, kind, p.name)
        && NoClash(db.contacts, kind, p.name, Written(kind, p.name, p.contacts))
  {
    var p := env.decode(kind, state).value;
    AcceptedLists(env.contactKnown, p.contacts);
    ReplaceKeepsOneHolder(db.contacts, kind, target, p.name, p.contacts);
  }

  lemma {:induction false} LiveAfterWrite(rows: seq<ContactRow>, kind: Kind, target: string, name: string,
                                          cs: seq<Contact>)
    ensures LiveOf(Replaced(rows, kind, target, name, cs), kind, name) ==
      (if target == name then [] else LiveOf(rows, kind, name)) + Written(kind, name, cs)
  {
    var kept := Retired(rows, kind, target);
    LiveOfConcat(kept, Written(kind, name, cs), kind, name);
    WrittenBelongs(kind, name, cs);
    LiveOfAll(Written(kind, name, cs), kind, name);
    if target == name {
      LiveOfNone(kept, kind, name);
    } else {
      RetiredElsewhere(rows, kind, target, name);
    }
  }

  lemma {:induction false} RetiredElsewhere(rows: seq<ContactRow>, kind: Kind, target: string, name: string)
    requires target != name
    ensures LiveOf(Retired(rows, kind, target), kind, name) == LiveOf(rows, kind, name)
  {
    if rows != [] {
      RetiredElsewhere(rows[..|rows| - 1], kind, target, name);
      assert Retired(rows, kind, target)[..|rows| - 1] == Retired(rows[..|rows| - 1], kind, target);
    }
  }

  lemma {:induction false} NoneLive(rows: seq<ContactRow>, kind: Kind, name: string)
    requires LiveOf(rows, kind, name) == []
    ensures forall i :: 0 <= i < |rows| ==> !Of(rows[i], kind, name)
  {
    if rows != [] {
      var init := rows[..|rows| - 1];
      NoneLive(init, kind, name);
      assert forall i :: 0 <= i < |init| ==> init[i] == rows[i];
    }
  }

  // ---- institutions ----

  // A live facility has a registered institution, or is one of these that have none.
  ghost predicate InstitutionsSound(env: Env, rows: Rows, without: set<int>) {
    forall id: int :: Key(Facility, id) in rows && rows[Key(Facility, id)].live ==>
      var institution := rows[Key(Facility, id)].content.institution;
      if institution == "" then id in without else env.institutionExists(institution)
  }

  lemma {:induction false} SingleKeepsInstitutions(env: Env, db: DB, kind: Kind, op: Operation, target: string,
                                                   state: Json, now: nat, nth: nat, without: set<int>)
    requires InstitutionsSound(env, db.rows, without) && ApplySingle(env, db, kind, op, target, state, now, nth).Ok?
    ensures InstitutionsSound(env, ApplySingle(env, db, kind, op, target, state, now, nth).value.rows, without)
  {
    if kind == Facility {
      FacilityKeepsInstitutions(env, db, op, target, state, now, without);
    } else if kind == SupportCenter {
      CentersLeaveFacilities(env, db, op, target, state, now);
    } else {
      OtherKindsUntouched(env, db, kind, op, target, state, now, nth, Facility);
    }
  }

  lemma {:induction false} FacilityKeepsInstitutions(env: Env, db: DB, op: Operation, target: string, state: Json,
                                                     now: nat, without: set<int>)
    requires InstitutionsSound(env, db.rows, without) && ApplyEntity(env, db, Facility, op, target, state, now).Ok?
    ensures InstitutionsSound(env, ApplyEntity(env, db, Facility, op, target, state, now).value.rows, without)
  {}

  lemma {:induction false} CentersLeaveFacilities(env: Env, db: DB, op: Operation, target: string, state: Json,
                                                  now: nat)
    requires ApplyCenter(env, db, op, target, state, now).Ok?
    ensures SameOfKind(db.rows, ApplyCenter(env, db, op, target, state, now).value.rows, Facility)
  {}

  /** Through any run of proposals and bundles every facility has a registered institution, except those
      that had none from the start: none is created without one, and none loses it. */
  lemma {:induction false} InstitutionsAreKept(env: Env, db: DB, rs: seq<Request>, without: set<int>)
    requires InstitutionsSound(env, db.rows, without)
    ensures InstitutionsSound(env, RunAll(env, db, rs).rows, without)
  {
    var inv := (d: DB) => InstitutionsSound(env, d.rows, without);
    forall d, o, now, nth | inv(d) && ApplyOp(env, d, o, now, nth).Ok?
      ensures inv(ApplyOp(env, d, o, now, nth).value)
    {
      SingleKeepsInstitutions(env, d, o.kind, o.op, o.target, o.state, now, nth, without);
    }
    RunKeeps(env, inv, o => true, db, rs);
  }

  // ---- resources ----

  /** A resource keeps its id through an update, whatever its new name and group, and has exactly the
      services and contacts submitted, all of them checked; no other row changes. */
  lemma {:induction false} ResourceUpdate(env: Env, db: DB, target: string, state: Json, now: nat, nth: nat, id: int)
    requires Sound(db.rows) && env.parseId(target) == Some(id) && TargetOf(env, db, Resource, target).Some?
    requires ApplyResource(env, db, Update, target, state, now, nth).Ok?
    ensures var p, after := env.decode(Resource, state).value,
      ApplyResource(env, db, Update, target, state, now, nth).value;
      && p.name != "" && ResolvedLists(env, p.inner.lists)
      && Named(after.rows, Resource, p.name) == Some(id)
      && Named(db.rows, ResourceGroup, p.parent) == Some(after.rows[Key(Resource, id)].content.parent)
      && after.children == db.children[id := p.inner]
      && after.rows - {Key(Resource, id)} == db.rows - {Key(Resource, id)}
  {
    var p, after := env.decode(Resource, state).value, ApplyResource(env, db, Update, target, state, now, nth).value;
    ResourceStep(env, db, Update, target, state, now, nth);
    NamedIs(after.rows, Key(Resource, id), Resource, p.name);
  }
}
