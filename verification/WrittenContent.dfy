/**
 What an operation leaves in the tables, by what is read back: the row under the payload's name says
 what the payload says, in every field, and no other row is touched.
 */
module WrittenContent {
  import opened Wrappers
  import opened Json
  import opened Kinds
  import opened Contacts
  import opened Tables
  import opened Registry
  import opened RegistrySafety

  // ---- what a row says ----

  // Stored data says what was given, and of a new group also that it is in production and enabled where
  // nothing was said.
  ghost predicate DataSaid(given: Fields, stored: Fields, defaulted: bool) {
    forall k ::
      if defaulted && k in {"production", "disable"} && (k !in given || given[k] == Null)
      then k in stored && stored[k] == Bool(k == "production")
      else (k in stored <==> k in given) && (k in given ==> stored[k] == given[k])
  }

  // The live row says what the payload says; its parent is live under the name the payload gives.
  ghost predicate Says(rows: Rows, key: Key, p: Payload, created: bool) {
    && key in rows && rows[key].live
    && var c := rows[key].content;
       match p
       case EntityState(name, parent, institution, center, data, _) =>
         && c.name == name && c.institution == institution && c.center == center && c.uses == {}
         && (match ParentKind(key.kind)
             case Some(up) => IsNamed(rows, Key(up, c.parent), up, parent)
             case None => c.parent == 0)
         && DataSaid(data, c.data, created && key.kind == ResourceGroup)
       case ResourceState(name, parent, _, uses, data, _) =>
         && c.name == name && IsNamed(rows, Key(ResourceGroup, c.parent), ResourceGroup, parent)
         && c.institution == "" && c.center == "" && c.uses == uses && DataSaid(data, c.data, false)
       case CenterState(name, data) =>
         && c.name == name && c.parent == 0 && c.institution == "" && c.center == "" && c.uses == {}
         && DataSaid(data, c.data, false)
       case ProjectState(name, uses, data) =>
         && c.name == name && c.parent == 0 && c.institution == "" && c.center == "" && c.uses == uses
         && DataSaid(data, c.data, false)
       case BundleState(_) => false
  }

  function NameIn(p: Payload): string {
    match p
    case EntityState(name, _, _, _, _, _) => name
    case ResourceState(name, _, _, _, _, _) => name
    case CenterState(name, _) => name
    case ProjectState(name, _, _) => name
    case BundleState(_) => ""
  }

  // The live row that an operation's target names: by id for a resource, by name for the rest.
  ghost predicate Targets(env: Env, rows: Rows, o: BundleOp, key: Key) {
    && key in rows && key.kind == o.kind && rows[key].live
    && if o.kind == Resource then env.parseId(o.target) == Some(key.id) else rows[key].content.name == o.target
  }

  // A group that used a center takes on the center's new name with it; every other row is unchanged.
  ghost predicate OnlyWrites(o: BundleOp, before: Rows, after: Rows, key: Key, name: string, now: nat) {
    forall other: Key :: other != key ==>
      && (other in after <==> other in before)
      && (other in before ==>
            if o.kind == SupportCenter && o.op == Update && name != o.target && UsesCenter(before, other, o.target)
            then after[other] == Row(before[other].content.(center := name), true, now)
            else after[other] == before[other])
  }

  // The row of `key` is what the operation writes, under the name it gives, and it is the only one.
  ghost predicate Wrote(o: BundleOp, p: Payload, before: Rows, after: Rows, key: Key, now: nat) {
    && key.kind == o.kind && Says(after, key, p, o.op == Create) && after[key].version == now
    && Named(after, o.kind, NameIn(p)) == Some(key.id)
    && OnlyWrites(o, before, after, key, NameIn(p), now)
  }

  // ---- updates ----

  // The rows after a creation or update of a facility, site or group, given the id of its parent's row.
  lemma {:induction false} EntityRows(env: Env, db: DB, o: BundleOp, now: nat) returns (parent: int)
    requires o.kind in {Facility, Site, ResourceGroup} && o.op != Delete
    requires ApplyEntity(env, db, o.kind, o.op, o.target, o.state, now).Ok?
    ensures env.decode(o.kind, o.state).Some? && env.decode(o.kind, o.state).value.EntityState?
    ensures var p := env.decode(o.kind, o.state).value;
      if ParentKind(o.kind).Some? then Named(db.rows, ParentKind(o.kind).value, p.parent) == Some(parent)
      else parent == 0
    ensures var p, after := env.decode(o.kind, o.state).value,
      ApplyEntity(env, db, o.kind, o.op, o.target, o.state, now).value.rows;
      var content := Content(p.name, parent, p.institution, p.center, {}, p.data);
      if o.op == Create then
        && Key(o.kind, db.next) !in db.rows && Named(db.rows, o.kind, p.name) == None
        && after == db.rows[Key(o.kind, db.next) := Row(WithDefaults(o.kind, content), true, now)]
      else
        match Named(db.rows, o.kind, o.target)
        case Some(id) => after == db.rows[Key(o.kind, id) := Row(content, true, now)]
        case None => after == db.rows
  {
    parent := ParentId(db, o.kind, env.decode(o.kind, o.state).value.parent).value;
  }

  lemma {:induction false} EntityUpdateWrites(env: Env, db: DB, o: BundleOp, now: nat, key: Key)
    requires o.kind in {Facility, Site, ResourceGroup} && o.op == Update && Sound(db.rows)
    requires Targets(env, db.rows, o, key) && ApplyEntity(env, db, o.kind, o.op, o.target, o.state, now).Ok?
    ensures Wrote(o, env.decode(o.kind, o.state).value, db.rows,
      ApplyEntity(env, db, o.kind, o.op, o.target, o.state, now).value.rows, key, now)
  {
    var after := ApplyEntity(env, db, o.kind, o.op, o.target, o.state, now).value.rows;
    NamedIs(db.rows, key, o.kind, o.target);
    EntityStep(env, db, o.kind, o.op, o.target, o.state, now);
    var parent := EntityRows(env, db, o, now);
    hide ApplyEntity;
    NamedIs(after, key, o.kind, after[key].content.name);
  }

  lemma {:induction false} ResourceUpdateWrites(env: Env, db: DB, o: BundleOp, now: nat, nth: nat, key: Key)
    requires o.kind == Resource && o.op == Update && Sound(db.rows)
    requires Targets(env, db.rows, o, key) && ApplyResource(env, db, o.op, o.target, o.state, now, nth).Ok?
    ensures Wrote(o, env.decode(o.kind, o.state).value, db.rows,
      ApplyResource(env, db, o.op, o.target, o.state, now, nth).value.rows, key, now)
  {
    var after := ApplyResource(env, db, o.op, o.target, o.state, now, nth).value.rows;
    ResourceStep(env, db, o.op, o.target, o.state, now, nth);
    NamedIs(after, key, o.kind, after[key].content.name);
  }

  lemma {:induction false} CenterUpdateWrites(env: Env, db: DB, o: BundleOp, now: nat, key: Key)
    requires o.kind == SupportCenter && o.op == Update && Sound(db.rows)
    requires Targets(env, db.rows, o, key) && ApplyCenter(env, db, o.op, o.target, o.state, now).Ok?
    ensures Wrote(o, env.decode(o.kind, o.state).value, db.rows,
      ApplyCenter(env, db, o.op, o.target, o.state, now).value.rows, key, now)
  {
    var after := ApplyCenter(env, db, o.op, o.target, o.state, now).value.rows;
    NamedIs(db.rows, key, o.kind, o.target);
    CenterStep(env, db, o.op, o.target, o.state, now);
    NamedIs(after, key, o.kind, after[key].content.name);
  }

  lemma {:induction false} ProjectUpdateWrites(env: Env, db: DB, o: BundleOp, now: nat, key: Key)
    requires o.kind == Project && o.op == Update && Sound(db.rows)
    requires Targets(env, db.rows, o, key) && ApplyProject(env, db, o.op, o.target, o.state, now).Ok?
    ensures Wrote(o, env.decode(o.kind, o.state).value, db.rows,
      ApplyProject(env, db, o.op, o.target, o.state, now).value.rows, key, now)
  {
    var after := ApplyProject(env, db, o.op, o.target, o.state, now).value.rows;
    NamedIs(db.rows, key, o.kind, o.target);
    ProjectStep(env, db, o.op, o.target, o.state, now);
    NamedIs(after, key, o.kind, after[key].content.name);
  }

  /** An update of something live leaves it, under its old key, saying what the payload says: its parent by
      name, its institution, its center, what it uses and its data.  No other row changes, except that
      groups follow the new name of their support center. */
  lemma {:induction false} UpdateIsReadBack(env: Env, db: DB, o: BundleOp, now: nat, nth: nat, key: Key)
    requires o.kind !in {VO, Bundle} && o.op == Update && Sound(db.rows)
    requires Targets(env, db.rows, o, key) && ApplyOp(env, db, o, now, nth).Ok?
    ensures Wrote(o, env.decode(o.kind, o.state).value, db.rows, ApplyOp(env, db, o, now, nth).value.rows, key, now)
  {
    hide Wrote, Targets;
    match o.kind
    case Resource => ResourceUpdateWrites(env, db, o, now, nth, key);
    case SupportCenter => CenterUpdateWrites(env, db, o, now, key);
    case Project => ProjectUpdateWrites(env, db, o, now, key);
    case VO =>
    case Bundle =>
    case _ => EntityUpdateWrites(env, db, o, now, key);
  }

  /** An update or deletion of what is not live leaves every row as it was. */
  lemma {:induction false} NothingFoundNothingWritten(env: Env, db: DB, o: BundleOp, now: nat, nth: nat)
    requires o.kind !in {VO, Bundle} && o.op != Create && Sound(db.rows)
    requires (forall key :: !Targets(env, db.rows, o, key)) && ApplyOp(env, db, o, now, nth).Ok?
    ensures ApplyOp(env, db, o, now, nth).value.rows == db.rows
  {
    if o.kind == Resource {
      var id := env.parseId(o.target);
      assert id.Some? ==> !Targets(env, db.rows, o, Key(Resource, id.value));
    } else {
      forall key ensures !IsNamed(db.rows, key, o.kind, o.target) {
        assert !Targets(env, db.rows, o, key);
      }
    }
  }

  // ---- creations ----

  // Where a creation puts its row: a project over the live one of its name, a support center at the id its
  // name has, a resource at the id it asks for; everything else where no row was.
  ghost predicate Places(env: Env, rows: Rows, o: BundleOp, p: Payload, key: Key) {
    match p
    case ProjectState(name, _, _) => key !in rows || IsNamed(rows, key, Project, name)
    case CenterState(name, _) => key.id == env.genId(name)
    case ResourceState(_, _, id, _, _, _) => key !in rows && (id.Some? ==> key.id == id.value)
    case _ => key !in rows
  }

  // No live row had the name, except that of a project, which is overwritten.
  ghost predicate NameWasFree(rows: Rows, o: BundleOp, p: Payload, key: Key) {
    forall other :: IsNamed(rows, other, o.kind, NameIn(p)) ==> o.kind == Project && other == key
  }

  lemma {:induction false} DefaultsAreSaid(kind: Kind, c: Content)
    ensures DataSaid(c.data, WithDefaults(kind, c).data, kind == ResourceGroup)
    ensures WithDefaults(kind, c).(data := c.data) == c
  {}

  lemma {:induction false} EntityCreationWrites(env: Env, db: DB, o: BundleOp, now: nat) returns (key: Key)
    requires o.kind in {Facility, Site, ResourceGroup} && o.op == Create && Sound(db.rows)
    requires ApplyEntity(env, db, o.kind, o.op, o.target, o.state, now).Ok?
    ensures var p, after := env.decode(o.kind, o.state).value,
      ApplyEntity(env, db, o.kind, o.op, o.target, o.state, now).value;
      && Places(env, db.rows, o, p, key) && NameWasFree(db.rows, o, p, key)
      && Wrote(o, p, db.rows, after.rows, key, now)
  {
    key := Key(o.kind, db.next);
    var after := ApplyEntity(env, db, o.kind, o.op, o.target, o.state, now).value.rows;
    EntityStep(env, db, o.kind, o.op, o.target, o.state, now);
    var parent := EntityRows(env, db, o, now);
    hide ApplyEntity, WithDefaults, DataSaid;
    var p := env.decode(o.kind, o.state).value;
    DefaultsAreSaid(o.kind, Content(p.name, parent, p.institution, p.center, {}, p.data));
    NamedIs(after, key, o.kind, after[key].content.name);
  }

  lemma {:induction false} ResourceCreationWrites(env: Env, db: DB, o: BundleOp, now: nat, nth: nat)
    returns (key: Key)
    requires o.kind == Resource && o.op == Create && Sound(db.rows)
    requires ApplyResource(env, db, o.op, o.target, o.state, now, nth).Ok?
    ensures var p, after := env.decode(o.kind, o.state).value,
      ApplyResource(env, db, o.op, o.target, o.state, now, nth).value;
      && Places(env, db.rows, o, p, key) && NameWasFree(db.rows, o, p, key)
      && Wrote(o, p, db.rows, after.rows, key, now)
  {
    var p := env.decode(o.kind, o.state).value;
    key := Key(Resource, if p.id.Some? then p.id.value else env.mint(now, nth));
    var after := ApplyResource(env, db, o.op, o.target, o.state, now, nth).value.rows;
    ResourceStep(env, db, o.op, o.target, o.state, now, nth);
    NamedIs(after, key, o.kind, p.name);
  }

  lemma {:induction false} CenterCreationWrites(env: Env, db: DB, o: BundleOp, now: nat) returns (key: Key)
    requires o.kind == SupportCenter && o.op == Create && Sound(db.rows)
    requires ApplyCenter(env, db, o.op, o.target, o.state, now).Ok?
    ensures var p, after := env.decode(o.kind, o.state).value,
      ApplyCenter(env, db, o.op, o.target, o.state, now).value;
      && Places(env, db.rows, o, p, key) && NameWasFree(db.rows, o, p, key)
      && Wrote(o, p, db.rows, after.rows, key, now)
  {
    var p := env.decode(o.kind, o.state).value;
    key := Key(SupportCenter, env.genId(p.name));
    var after := ApplyCenter(env, db, o.op, o.target, o.state, now).value.rows;
    CenterStep(env, db, o.op, o.target, o.state, now);
    NamedIs(after, key, o.kind, p.name);
  }

  lemma {:induction false} ProjectCreationWrites(env: Env, db: DB, o: BundleOp, now: nat) returns (key: Key)
    requires o.kind == Project && o.op == Create && Sound(db.rows)
    requires ApplyProject(env, db, o.op, o.target, o.state, now).Ok?
    ensures var p, after := env.decode(o.kind, o.state).value,
      ApplyProject(env, db, o.op, o.target, o.state, now).value;
      && Places(env, db.rows, o, p, key) && NameWasFree(db.rows, o, p, key)
      && Wrote(o, p, db.rows, after.rows, key, now)
  {
    var p := env.decode(o.kind, o.state).value;
    var live := Named(db.rows, Project, p.name);
    key := Key(Project, if live.Some? then live.value else db.next);
    var after := ApplyProject(env, db, o.op, o.target, o.state, now).value.rows;
    ProjectStep(env, db, o.op, o.target, o.state, now);
    NamedIs(after, key, o.kind, p.name);
    forall other | IsNamed(db.rows, other, Project, p.name) ensures other == key {
      NamedIs(db.rows, other, Project, p.name);
    }
  }

  /** A creation leaves one more live row, which says what the payload says; a group also that it is in
      production and enabled where the payload is silent.  Its name was free, and no other row changes. */
  lemma {:induction false} CreationIsReadBack(env: Env, db: DB, o: BundleOp, now: nat, nth: nat) returns (key: Key)
    requires o.kind !in {VO, Bundle} && o.op == Create && Sound(db.rows) && ApplyOp(env, db, o, now, nth).Ok?
    ensures var p, after := env.decode(o.kind, o.state).value, ApplyOp(env, db, o, now, nth).value;
      && Places(env, db.rows, o, p, key) && NameWasFree(db.rows, o, p, key)
      && Wrote(o, p, db.rows, after.rows, key, now)
  {
    hide Wrote, Places, NameWasFree;
    match o.kind
    case Resource => key := ResourceCreationWrites(env, db, o, now, nth);
    case SupportCenter => key := CenterCreationWrites(env, db, o, now);
    case Project => key := ProjectCreationWrites(env, db, o, now);
    case VO =>
    case Bundle =>
    case _ => key := EntityCreationWrites(env, db, o, now);
  }

  // ---- deletions ----

  /** A deletion takes away the live row that its target names, which keeps what it says, and no other; the
      contacts, services and hand-offs stay as they are. */
  lemma {:induction false} DeletionTakesOneRow(env: Env, db: DB, o: BundleOp, now: nat, nth: nat, key: Key)
    requires o.kind !in {VO, Bundle} && o.op == Delete && Sound(db.rows)
    requires Targets(env, db.rows, o, key) && ApplyOp(env, db, o, now, nth).Ok?
    ensures ApplyOp(env, db, o, now, nth).value == db.(rows := db.rows[key := db.rows[key].(live := false)])
    ensures forall other :: !Targets(env, ApplyOp(env, db, o, now, nth).value.rows, o, other)
  {
    if o.kind != Resource {
      NamedIs(db.rows, key, o.kind, o.target);
      var after := ApplyOp(env, db, o, now, nth).value.rows;
      assert after == db.rows[key := db.rows[key].(live := false)];
      forall other ensures !Targets(env, after, o, other) {
        if Targets(env, after, o, other) {
          NamedIs(db.rows, other, o.kind, o.target);
        }
      }
    }
  }

  // ---- what belongs to a row ----

  /** A resource that is created or updated has exactly the services and contact lists of the payload; those
      of other resources stay. */
  lemma {:induction false} ResourceChildrenAreReadBack(env: Env, db: DB, o: BundleOp, now: nat, nth: nat, id: int)
    requires o.kind == Resource && o.op != Delete && ApplyOp(env, db, o, now, nth).Ok?
    requires if o.op == Update then env.parseId(o.target) == Some(id)
      else Key(Resource, id) !in db.rows && Key(Resource, id) in ApplyOp(env, db, o, now, nth).value.rows
    ensures ApplyOp(env, db, o, now, nth).value.children ==
      db.children[id := env.decode(Resource, o.state).value.inner]
  {}

  /** No other operation touches the services and contact lists of a resource, and only creating and updating
      facilities, sites and groups touches their contacts and hand-offs. */
  lemma {:induction false} OnlyTheirOwnTables(env: Env, db: DB, o: BundleOp, now: nat, nth: nat)
    requires ApplyOp(env, db, o, now, nth).Ok?
    ensures var after := ApplyOp(env, db, o, now, nth).value;
      && (o.kind != Resource || o.op == Delete ==> after.children == db.children)
      && (o.kind !in {Facility, Site, ResourceGroup} || o.op == Delete ==> after.contacts == db.contacts)
      && (o.kind !in {Facility, Site, ResourceGroup} || o.op != Update ==> after.handOffs == db.handOffs)
      && (o.kind != VO ==> after.vos == db.vos)
      && (o.kind == VO ==> after.rows == db.rows)
      && (o.op != Create ==> after.next == db.next)
  {}

  /** An update of a facility, site or group takes the waiting hand-offs of its target along to the new name;
      those of other entities, and those that are decided, stay as they are. */
  lemma {:induction false} HandOffsFollowTheName(env: Env, db: DB, o: BundleOp, now: nat, i: nat)
    requires o.kind in {Facility, Site, ResourceGroup} && o.op == Update && i < |db.handOffs|
    requires ApplyEntity(env, db, o.kind, o.op, o.target, o.state, now).Ok?
    ensures var h, after := db.handOffs[i], ApplyEntity(env, db, o.kind, o.op, o.target, o.state, now).value.handOffs;
      && |after| == |db.handOffs|
      && after[i] == (if h.decision == Waiting && h.kind == o.kind && h.entity == o.target then
                        h.(entity := NameIn(env.decode(o.kind, o.state).value))
                      else h)
  {}
}
