/**
 References by name: a resource group names its support center, and a waiting hand-off names the
 entity whose contact it asks for.  Both survive renames.
 */
module References {
  import opened Wrappers
  import opened Json
  import opened Kinds
  import opened Contacts
  import opened Tables
  import opened Registry
  import opened RegistrySafety
  import opened Operations

  // ---- support centers ----

  // The id a live group's support center resolves to.
  ghost function CenterId(rows: Rows, group: int): Option<int> {
    var key := Key(ResourceGroup, group);
    if key in rows && rows[key].live && rows[key].content.center != ""
    then Named(rows, SupportCenter, rows[key].content.center) else None
  }

  // Rows of a kind are the same in both.
  ghost predicate SameOfKind(rows: Rows, after: Rows, kind: Kind) {
    forall key: Key :: key.kind == kind ==> (key in rows <==> key in after) && (key in rows ==> rows[key] == after[key])
  }

  lemma {:induction false} SameCenters(rows: Rows, after: Rows, group: int)
    requires UniqueNames(after) && SameOfKind(rows, after, SupportCenter) && CenterId(rows, group).Some?
    requires var key := Key(ResourceGroup, group); key in rows && key in after && after[key] == rows[key]
    ensures CenterId(after, group) == CenterId(rows, group)
  {
    var name := rows[Key(ResourceGroup, group)].content.center;
    NamedIs(after, Key(SupportCenter, CenterId(rows, group).value), SupportCenter, name);
  }

  lemma {:induction false} EntityTouchesItsKind(env: Env, db: DB, kind: Kind, op: Operation, target: string,
                                                state: Json, now: nat, other: Kind)
    requires other != kind && ApplyEntity(env, db, kind, op, target, state, now).Ok?
    ensures SameOfKind(db.rows, ApplyEntity(env, db, kind, op, target, state, now).value.rows, other)
  {}

  lemma {:induction false} ResourceTouchesItsKind(env: Env, db: DB, op: Operation, target: string, state: Json,
                                                  now: nat, nth: nat, other: Kind)
    requires other != Resource && ApplyResource(env, db, op, target, state, now, nth).Ok?
    ensures SameOfKind(db.rows, ApplyResource(env, db, op, target, state, now, nth).value.rows, other)
  {}

  lemma {:induction false} ProjectTouchesItsKind(env: Env, db: DB, op: Operation, target: string, state: Json,
                                                 now: nat, other: Kind)
    requires other != Project && ApplyProject(env, db, op, target, state, now).Ok?
    ensures SameOfKind(db.rows, ApplyProject(env, db, op, target, state, now).value.rows, other)
  {}

  lemma {:induction false} OtherKindsUntouched(env: Env, db: DB, kind: Kind, op: Operation, target: string,
                                               state: Json, now: nat, nth: nat, other: Kind)
    requires ApplySingle(env, db, kind, op, target, state, now, nth).Ok?
    requires kind != SupportCenter && other != kind
    ensures SameOfKind(db.rows, ApplySingle(env, db, kind, op, target, state, now, nth).value.rows, other)
  {
    match kind
    case Resource => ResourceTouchesItsKind(env, db, op, target, state, now, nth, other);
    case Project => ProjectTouchesItsKind(env, db, op, target, state, now, other);
    case VO =>
    case Bundle =>
    case _ => EntityTouchesItsKind(env, db, kind, op, target, state, now, other);
  }

  lemma {:induction false} CenterUpdateKeepsResolution(db: DB, target: string, content: Content, now: nat, group: int)
    requires Sound(db.rows) && CenterId(db.rows, group).Some? && content.name != ""
    requires UpdateCenter(db, target, content, now).Ok?
      && UniqueNames(UpdateCenter(db, target, content, now).value.rows)
    ensures CenterId(UpdateCenter(db, target, content, now).value.rows, group) == CenterId(db.rows, group)
  {
    var after := UpdateCenter(db, target, content, now).value.rows;
    var id := CenterId(db.rows, group).value;
    var name := db.rows[Key(ResourceGroup, group)].content.center;
    assert after[Key(ResourceGroup, group)].content.center == if name == target then content.name else name;
    assert IsNamed(after, Key(SupportCenter, id), SupportCenter, if name == target then content.name else name);
    NamedIs(after, Key(SupportCenter, id), SupportCenter, if name == target then content.name else name);
  }

  lemma {:induction false} CenterAddKeepsResolution(env: Env, db: DB, content: Content, now: nat, group: int)
    requires Sound(db.rows) && CenterId(db.rows, group).Some?
    requires AddCenter(env, db, content, now).Ok? && UniqueNames(AddCenter(env, db, content, now).value.rows)
    ensures CenterId(AddCenter(env, db, content, now).value.rows, group) == CenterId(db.rows, group)
  {
    var after := AddCenter(env, db, content, now).value.rows;
    var id := CenterId(db.rows, group).value;
    var name := db.rows[Key(ResourceGroup, group)].content.center;
    assert IsNamed(db.rows, Key(SupportCenter, id), SupportCenter, name);
    assert env.genId(content.name) != id;
    NamedIs(after, Key(SupportCenter, id), SupportCenter, name);
  }

  lemma {:induction false} CenterDeleteKeepsResolution(rows: Rows, target: string, group: int)
    requires Sound(rows) && CenterId(rows, group).Some?
    requires !exists key :: UsesCenter(rows, key, target)
    requires UniqueNames(BuriedByName(rows, SupportCenter, target))
    ensures CenterId(BuriedByName(rows, SupportCenter, target), group) == CenterId(rows, group)
  {
    var after := BuriedByName(rows, SupportCenter, target);
    var id := CenterId(rows, group).value;
    var name := rows[Key(ResourceGroup, group)].content.center;
    assert !UsesCenter(rows, Key(ResourceGroup, group), target);
    NamedIs(after, Key(SupportCenter, id), SupportCenter, name);
  }

  // An update or delete of what is called `name`.
  predicate Writes(o: BundleOp, kind: Kind, name: string) {
    o.kind == kind && o.op != Create && o.target == name
  }

  // A live row of a facility, site, group or support center is written only by an update or delete under
  // its name.
  lemma {:induction false} EntityLeavesOthers(env: Env, db: DB, o: BundleOp, now: nat, key: Key)
    requires o.kind in {Facility, Site, ResourceGroup} && Sound(db.rows)
    requires ApplyEntity(env, db, o.kind, o.op, o.target, o.state, now).Ok?
    requires key in db.rows && db.rows[key].live && !Writes(o, key.kind, db.rows[key].content.name)
    ensures var after := ApplyEntity(env, db, o.kind, o.op, o.target, o.state, now).value.rows;
      key in after && after[key] == db.rows[key]
  {}

  // A live group whose support center resolves to this id.
  ghost predicate Resolves(db: DB, group: int, name: string, id: Option<int>) {
    && Sound(db.rows) && id.Some? && CenterId(db.rows, group) == id
    && db.rows[Key(ResourceGroup, group)].content.name == name
  }

  lemma {:induction false} OpKeepsCenter(env: Env, db: DB, o: BundleOp, now: nat, nth: nat, group: int, name: string,
                                         id: Option<int>)
    requires Resolves(db, group, name, id) && !Writes(o, ResourceGroup, name) && ApplyOp(env, db, o, now, nth).Ok?
    ensures Resolves(ApplyOp(env, db, o, now, nth).value, group, name, id)
  {
    var after, key := ApplyOp(env, db, o, now, nth).value, Key(ResourceGroup, group);
    SingleRowStep(env, db, o.kind, o.op, o.target, o.state, now, nth);
    if o.kind == SupportCenter {
      CenterOpKeepsCenter(env, db, o, now, group);
    } else {
      if o.kind == ResourceGroup {
        EntityLeavesOthers(env, db, o, now, key);
      } else {
        OtherKindsUntouched(env, db, o.kind, o.op, o.target, o.state, now, nth, ResourceGroup);
      }
      OtherKindsUntouched(env, db, o.kind, o.op, o.target, o.state, now, nth, SupportCenter);
      SameCenters(db.rows, after.rows, group);
    }
  }

  lemma {:induction false} CenterOpKeepsCenter(env: Env, db: DB, o: BundleOp, now: nat, group: int)
    requires Sound(db.rows) && CenterId(db.rows, group).Some? && ApplyCenter(env, db, o.op, o.target, o.state, now).Ok?
    ensures var after, key := ApplyCenter(env, db, o.op, o.target, o.state, now).value.rows, Key(ResourceGroup, group);
      && CenterId(after, group) == CenterId(db.rows, group)
      && after[key].content.name == db.rows[key].content.name
  {
    CenterStep(env, db, o.op, o.target, o.state, now);
    if o.op == Delete {
      CenterDeleteKeepsResolution(db.rows, o.target, group);
    } else {
      var p := env.decode(SupportCenter, o.state).value;
      var content := Content(p.name, 0, "", "", {}, p.data);
      if o.op == Update {
        CenterUpdateKeepsResolution(db, o.target, content, now, group);
      } else {
        CenterAddKeepsResolution(env, db, content, now, group);
      }
    }
  }

  /** Through any run of proposals and bundles that neither update nor delete it, a live group whose
      support center resolved to an id keeps resolving to that id: renames carry the groups along, a center
      in use cannot be deleted, and a re-created name cannot take over a live center's id. */
  lemma {:induction false} CenterResolutionSurvives(env: Env, db: DB, rs: seq<Request>, group: int, name: string)
    requires Sound(db.rows) && CenterId(db.rows, group).Some?
    requires db.rows[Key(ResourceGroup, group)].content.name == name
    requires AllOps(env, rs, o => !Writes(o, ResourceGroup, name))
    ensures CenterId(RunAll(env, db, rs).rows, group) == CenterId(db.rows, group)
  {
    var id := CenterId(db.rows, group);
    var inv := (d: DB) => Resolves(d, group, name, id);
    var allowed := o => !Writes(o, ResourceGroup, name);
    forall d, o, now, nth | inv(d) && allowed(o) && ApplyOp(env, d, o, now, nth).Ok?
      ensures inv(ApplyOp(env, d, o, now, nth).value)
    {
      OpKeepsCenter(env, d, o, now, nth, group, name, id);
    }
    RunKeeps(env, inv, allowed, db, rs);
  }

  // ---- the ids of support centers ----

  ghost predicate CenterIs(db: DB, key: Key, row: Row) {
    && Sound(db.rows) && key in db.rows && db.rows[key] == row
    && key.kind == SupportCenter && row.live && row.content.name != ""
  }

  lemma {:induction false} OpKeepsRow(env: Env, db: DB, o: BundleOp, now: nat, nth: nat, key: Key, row: Row)
    requires CenterIs(db, key, row) && !Writes(o, SupportCenter, row.content.name) && ApplyOp(env, db, o, now, nth).Ok?
    ensures CenterIs(ApplyOp(env, db, o, now, nth).value, key, row)
  {
    SingleRowStep(env, db, o.kind, o.op, o.target, o.state, now, nth);
    if o.kind != SupportCenter {
      OtherKindsUntouched(env, db, o.kind, o.op, o.target, o.state, now, nth, SupportCenter);
    } else {
      CenterOpKeepsRow(env, db, o, now, key);
    }
  }

  lemma {:induction false} CenterOpKeepsRow(env: Env, db: DB, o: BundleOp, now: nat, key: Key)
    requires key in db.rows && key.kind == SupportCenter && db.rows[key].live && db.rows[key].content.name != ""
    requires !(o.op != Create && o.target == db.rows[key].content.name)
    requires ApplyCenter(env, db, o.op, o.target, o.state, now).Ok?
    ensures var after := ApplyCenter(env, db, o.op, o.target, o.state, now).value.rows;
      key in after && after[key] == db.rows[key]
  {
    if o.op == Create {
      assert IsNamed(db.rows, key, SupportCenter, db.rows[key].content.name);
    }
  }

  /** Nothing but an update or delete under its own name touches a live support center: through any other
      run, whatever is created in it and under whatever names, the center has the same id, name and
      content. */
  lemma {:induction false} LiveCenterStays(env: Env, db: DB, rs: seq<Request>, key: Key)
    requires Sound(db.rows) && key in db.rows && key.kind == SupportCenter && db.rows[key].live
    requires db.rows[key].content.name != ""
    requires AllOps(env, rs, o => !Writes(o, SupportCenter, db.rows[key].content.name))
    ensures key in RunAll(env, db, rs).rows && RunAll(env, db, rs).rows[key] == db.rows[key]
    ensures Sound(RunAll(env, db, rs).rows)
  {
    var row := db.rows[key];
    var inv := (d: DB) => CenterIs(d, key, row);
    var allowed := o => !Writes(o, SupportCenter, row.content.name);
    forall d, o, now, nth | inv(d) && allowed(o) && ApplyOp(env, d, o, now, nth).Ok?
      ensures inv(ApplyOp(env, d, o, now, nth).value)
    {
      OpKeepsRow(env, d, o, now, nth, key, row);
    }
    RunKeeps(env, inv, allowed, db, rs);
  }

  /** So a name that a center was renamed away from stays taken: as long as the center is not written
      again, every attempt to create a center under that name is refused. */
  lemma {:induction false} RenamedAwayNameStaysTaken(env: Env, db: DB, rs: seq<Request>, former: string, target: string,
                                                     state: Json, now: nat)
    requires var key := Key(SupportCenter, env.genId(former));
      && Sound(db.rows) && key in db.rows && db.rows[key].live && db.rows[key].content.name !in {"", former}
      && AllOps(env, rs, o => !Writes(o, SupportCenter, db.rows[key].content.name))
    requires former != "" && env.decode(SupportCenter, state).Some?
    requires env.decode(SupportCenter, state).value.CenterState?
      && env.decode(SupportCenter, state).value.name == former
    ensures ApplyCenter(env, RunAll(env, db, rs), Create, target, state, now) == Err(CenterIdTaken)
  {
    LiveCenterStays(env, db, rs, Key(SupportCenter, env.genId(former)));
  }

  // ---- hand-offs ----

  // The row a waiting hand-off speaks of.
  ghost function HandOffTarget(db: DB, i: nat): Option<Key> {
    if i < |db.handOffs| && db.handOffs[i].decision == Waiting then
      match Named(db.rows, db.handOffs[i].kind, db.handOffs[i].entity)
      case Some(id) => Some(Key(db.handOffs[i].kind, id))
      case None => None
    else None
  }

  // No row loses its name or comes back to life.
  ghost predicate NamesStay(rows: Rows, after: Rows, kind: Kind) {
    forall key: Key :: key.kind == kind && key in rows ==>
      key in after && after[key].content.name == rows[key].content.name && (after[key].live ==> rows[key].live)
  }

  lemma {:induction false} NamesStayKeepsHandOff(db: DB, after: DB, i: nat, key: Key)
    requires HandOffTarget(db, i) == Some(key) && UniqueNames(after.rows)
    requires i < |after.handOffs| && after.handOffs[i] == db.handOffs[i]
    requires NamesStay(db.rows, after.rows, key.kind) && after.rows[key].live
    ensures HandOffTarget(after, i) == Some(key)
  {
    NamedIs(after.rows, key, key.kind, db.handOffs[i].entity);
  }

  // A row written under a name keeps it; any other row keeps its own.
  lemma {:induction false} EntityNames(env: Env, db: DB, kind: Kind, op: Operation, target: string, state: Json,
                                       now: nat)
    requires kind in {Facility, Site, ResourceGroup} && ApplyEntity(env, db, kind, op, target, state, now).Ok?
    ensures var after := ApplyEntity(env, db, kind, op, target, state, now).value.rows;
      forall key :: key in db.rows ==>
        && key in after
        && (after[key].live ==> db.rows[key].live)
        && after[key].content.name ==
           if op == Update && Named(db.rows, kind, target) == Some(key.id) && key.kind == kind
           then env.decode(kind, state).value.name else db.rows[key].content.name
  {
    hide Rejection, InstitutionError, Repointed, Replaced;
  }

  lemma {:induction false} EntityHandOffs(env: Env, db: DB, kind: Kind, op: Operation, target: string, state: Json,
                                          now: nat)
    requires ApplyEntity(env, db, kind, op, target, state, now).Ok?
    ensures ApplyEntity(env, db, kind, op, target, state, now).value.handOffs ==
      if op == Update then Repointed(db.handOffs, kind, target, env.decode(kind, state).value.name) else db.handOffs
  {}

  lemma {:induction false} EntityKeepsHandOff(env: Env, db: DB, kind: Kind, op: Operation, target: string,
                                              state: Json, now: nat, i: nat, key: Key)
    requires kind in {Facility, Site, ResourceGroup} && Sound(db.rows)
    requires ApplyEntity(env, db, kind, op, target, state, now).Ok?
    requires HandOffTarget(db, i) == Some(key)
    requires var after := ApplyEntity(env, db, kind, op, target, state, now).value;
      key in after.rows && after.rows[key].live
    ensures HandOffTarget(ApplyEntity(env, db, kind, op, target, state, now).value, i) == Some(key)
  {
    EntityStep(env, db, kind, op, target, state, now);
    EntityNames(env, db, kind, op, target, state, now);
    EntityHandOffs(env, db, kind, op, target, state, now);
    RepointedKeepsTarget(db, ApplyEntity(env, db, kind, op, target, state, now).value, kind, op == Update, target,
                         if op == Update then env.decode(kind, state).value.name else target, i, key);
  }

  lemma {:induction false} RepointedKeepsTarget(db: DB, after: DB, kind: Kind, update: bool, target: string,
                                                name: string, i: nat, key: Key)
    requires Sound(db.rows) && Sound(after.rows) && HandOffTarget(db, i) == Some(key)
    requires after.handOffs == if update then Repointed(db.handOffs, kind, target, name) else db.handOffs
    requires key in after.rows && after.rows[key].live
    requires after.rows[key].content.name ==
      if update && Named(db.rows, kind, target) == Some(key.id) && key.kind == kind then name
        else db.rows[key].content.name
    ensures HandOffTarget(after, i) == Some(key)
  {
    var h := after.handOffs[i];
    assert h.decision == Waiting && h.kind == key.kind;
    assert IsNamed(db.rows, key, key.kind, db.handOffs[i].entity);
    assert h.entity == after.rows[key].content.name;
    NamedIs(after.rows, key, key.kind, h.entity);
  }

  lemma {:induction false} SingleKeepsHandOff(env: Env, db: DB, kind: Kind, op: Operation, target: string,
                                              state: Json, now: nat, nth: nat, i: nat, key: Key)
    requires Sound(db.rows) && ApplySingle(env, db, kind, op, target, state, now, nth).Ok?
    requires HandOffTarget(db, i) == Some(key) && key.kind in {Facility, Site, ResourceGroup}
    requires var after := ApplySingle(env, db, kind, op, target, state, now, nth).value;
      key in after.rows && after.rows[key].live
    ensures HandOffTarget(ApplySingle(env, db, kind, op, target, state, now, nth).value, i) == Some(key)
  {
    var after := ApplySingle(env, db, kind, op, target, state, now, nth).value;
    SingleRowStep(env, db, kind, op, target, state, now, nth);
    if kind in {Facility, Site, ResourceGroup} {
      EntityKeepsHandOff(env, db, kind, op, target, state, now, i, key);
    } else {
      OthersKeepNames(env, db, kind, op, target, state, now, nth, key.kind);
      NamesStayKeepsHandOff(db, after, i, key);
    }
  }

  lemma {:induction false} OthersKeepNames(env: Env, db: DB, kind: Kind, op: Operation, target: string, state: Json,
                                           now: nat, nth: nat, other: Kind)
    requires ApplySingle(env, db, kind, op, target, state, now, nth).Ok?
    requires kind !in {Facility, Site, ResourceGroup} && other in {Facility, Site, ResourceGroup}
    ensures NamesStay(db.rows, ApplySingle(env, db, kind, op, target, state, now, nth).value.rows, other)
    ensures ApplySingle(env, db, kind, op, target, state, now, nth).value.handOffs == db.handOffs
  {
    if kind != SupportCenter {
      OtherKindsUntouched(env, db, kind, op, target, state, now, nth, other);
    }
  }

  // A facility, site or group that is deleted stays deleted, and no row disappears.
  lemma {:induction false} DeadStaysDead(env: Env, db: DB, kind: Kind, op: Operation, target: string, state: Json,
                                         now: nat, nth: nat, key: Key)
    requires key.kind in {Facility, Site, ResourceGroup} && key in db.rows
    requires ApplySingle(env, db, kind, op, target, state, now, nth).Ok?
    ensures var after := ApplySingle(env, db, kind, op, target, state, now, nth).value.rows;
      key in after && (after[key].live ==> db.rows[key].live)
  {
    if kind in {Facility, Site, ResourceGroup} {
      EntityNames(env, db, kind, op, target, state, now);
    } else {
      OthersKeepNames(env, db, kind, op, target, state, now, nth, key.kind);
    }
  }

  // The row has its hand-off for as long as it is live.
  ghost predicate StillTarget(env: Env, db: DB, i: nat, key: Key) {
    Healthy(env, db) && key in db.rows && (db.rows[key].live ==> HandOffTarget(db, i) == Some(key))
  }

  lemma {:induction false} SingleKeepsTarget(env: Env, db: DB, kind: Kind, op: Operation, target: string, state: Json,
                                             now: nat, nth: nat, i: nat, key: Key)
    requires StillTarget(env, db, i, key) && key.kind in {Facility, Site, ResourceGroup}
    requires ApplySingle(env, db, kind, op, target, state, now, nth).Ok?
    ensures StillTarget(env, ApplySingle(env, db, kind, op, target, state, now, nth).value, i, key)
  {
    SingleSteps(env, db, kind, op, target, state, now, nth);
    DeadStaysDead(env, db, kind, op, target, state, now, nth, key);
    if ApplySingle(env, db, kind, op, target, state, now, nth).value.rows[key].live {
      SingleKeepsHandOff(env, db, kind, op, target, state, now, nth, i, key);
    }
  }

  /** Through any run of proposals and bundles, a waiting hand-off for a facility, site or group that is
      never deleted keeps speaking of that same row, whatever it and others are renamed to. */
  lemma {:induction false} HandOffsFollowRenames(env: Env, db: DB, rs: seq<Request>, i: nat, key: Key)
    requires Healthy(env, db) && HandOffTarget(db, i) == Some(key) && key.kind in {Facility, Site, ResourceGroup}
    ensures var after := RunAll(env, db, rs);
      && key in after.rows
      && (after.rows[key].live ==> HandOffTarget(after, i) == Some(key))
  {
    var inv := (d: DB) => StillTarget(env, d, i, key);
    forall d, o, now, nth | inv(d) && ApplyOp(env, d, o, now, nth).Ok?
      ensures inv(ApplyOp(env, d, o, now, nth).value)
    {
      SingleKeepsTarget(env, d, o.kind, o.op, o.target, o.state, now, nth, i, key);
    }
    RunKeeps(env, inv, o => true, db, rs);
  }

  /** A resource's hand-offs do not follow it: after an update of the resource its waiting hand-off speaks
      of it exactly when the update kept the name, and otherwise of nothing. */
  lemma {:induction false} ResourceHandOffsDoNotFollow(env: Env, db: DB, target: string, state: Json, now: nat,
                                                       nth: nat, i: nat, key: Key)
    requires Sound(db.rows) && ApplyResource(env, db, Update, target, state, now, nth).Ok?
    requires HandOffTarget(db, i) == Some(key) && key.kind == Resource && env.parseId(target) == Some(key.id)
    ensures var kept := env.decode(Resource, state).value.name == db.rows[key].content.name;
      HandOffTarget(ApplyResource(env, db, Update, target, state, now, nth).value, i) == if kept then Some(key)
        else None
  {
    var after := ApplyResource(env, db, Update, target, state, now, nth).value;
    ResourceStep(env, db, Update, target, state, now, nth);
    var name := db.handOffs[i].entity;
    if after.rows[key].content.name == name {
      NamedIs(after.rows, key, Resource, name);
    } else {
      forall other ensures !IsNamed(after.rows, other, Resource, name) {
        if IsNamed(after.rows, other, Resource, name) {
          NamedIs(db.rows, other, Resource, name);
        }
      }
    }
  }
}
