/**
 The code that applies proposals, statement by statement (internal/handlers/proposals.go,
 internal/handlers/support_centers.go, internal/db/db.go).
 */
module Applier {
  import opened Wrappers
  import opened Json
  import opened Kinds
  import opened Contacts
  import opened ContactSlots
  import opened Tables
  import opened Registry
  import opened RegistrySafety
  import VOProposals

  // A call ended as r says: with r's tables, or with r's error.
  ghost predicate Ended(r: Result<DB, Error>, err: Option<Error>, db: DB) {
    match r
    case Ok(after) => err == None && db == after
    case Err(e) => err == Some(e)
  }

  class Applier {
    const env: Env
    var db: DB

    constructor (env: Env, db: DB)
      ensures this.env == env && this.db == db
    {
      this.env, this.db := env, db;
    }

    // ---- queries ----

    method Find(kind: Kind, name: string) returns (id: Option<int>)
      requires Sound(db.rows)
      ensures id == Named(db.rows, kind, name)
    {
      if key :| key in db.rows && IsNamed(db.rows, key, kind, name) {
        NamedIs(db.rows, key, kind, name);
        return Some(key.id);
      }
      return None;
    }

    method FindChildren(kind: Kind, name: string) returns (some: bool)
      ensures some <==> HasChildren(db.rows, kind, name)
    {
      some := exists key | key in db.rows :: IsChildOf(db.rows, key, kind, name);
      assert some <==> HasChildren(db.rows, kind, name) by {
        if HasChildren(db.rows, kind, name) {
          var key :| IsChildOf(db.rows, key, kind, name);
        }
      }
    }

    method FindUpdatedAt(kind: Kind, target: string) returns (version: Option<nat>)
      requires Sound(db.rows)
      ensures version == UpdatedAt(env, db, kind, target)
    {
      if target == "" {
        return None;
      }
      match kind
      case Bundle => return None;
      case VO => return if target in db.vos then Some(db.vos[target].version) else None;
      case Resource =>
        var id := env.parseId(target);
        return if id.Some? && Key(Resource, id.value) in db.rows && db.rows[Key(Resource, id.value)].live
          then Some(db.rows[Key(Resource, id.value)].version) else None;
      case _ =>
        var id := Find(kind, target);
        return if id.Some? then Some(db.rows[Key(kind, id.value)].version) else None;
    }

    // ---- statements ----

    method Insert(key: Key, content: Content, now: nat) returns (err: Option<Error>)
      requires Sound(db.rows)
      modifies this`db
      ensures match Added(old(db).rows, key, content, now)
              case Ok(rows) => err == None && db == old(db).(rows := rows)
              case Err(e) => err == Some(Table(e)) && db == old(db)
    {
      if key in db.rows {
        return Some(Table(DuplicateKey));
      }
      var taken := Find(key.kind, content.name);
      if taken.Some? {
        return Some(Table(DuplicateName));
      }
      db := db.(rows := db.rows[key := Row(content, true, now)]);
      return None;
    }

    method UpdateById(key: Key, content: Content, now: nat) returns (err: Option<Error>)
      requires Sound(db.rows) && key in db.rows && db.rows[key].live
      modifies this`db
      ensures match Changed(old(db).rows, key, content, now)
              case Ok(rows) => err == None && db == old(db).(rows := rows)
              case Err(e) => err == Some(Table(e)) && db == old(db)
    {
      var taken := Find(key.kind, content.name);
      if taken.Some? && content.name != db.rows[key].content.name {
        return Some(Table(DuplicateName));
      }
      db := db.(rows := db.rows[key := Row(content, true, now)]);
      return None;
    }

    method UpdateByName(kind: Kind, target: string, content: Content, now: nat) returns (err: Option<Error>)
      requires Sound(db.rows)
      modifies this`db
      ensures match ChangedByName(old(db).rows, kind, target, content, now)
              case Ok(rows) => err == None && db == old(db).(rows := rows)
              case Err(e) => err == Some(Table(e)) && db == old(db)
    {
      var id := Find(kind, target);
      if id.None? {
        return None;
      }
      err := UpdateById(Key(kind, id.value), content, now);
    }

    method SoftDelete(kind: Kind, name: string)
      requires Sound(db.rows)
      modifies this`db
      ensures db == old(db).(rows := BuriedByName(old(db).rows, kind, name))
    {
      var id := Find(kind, name);
      if id.Some? {
        db := db.(rows := Buried(db.rows, Key(kind, id.value)));
      }
    }

    method ReplaceContactSlot(h: HandOff) returns (given: bool)
      requires Sound(db.rows)
      modifies this`db
      ensures match SlotHandedOver(old(db), h)
              case Some(after) => given && db == after
              case None => !given && db == old(db)
    {
      if h.kind == Resource {
        var id := Find(Resource, h.entity);
        if id.None? {
          return false;
        }
        var c := if id.value in db.children then db.children[id.value] else Children(map[], map[]);
        db := db.(children := db.children[id.value := SlotTaken(c, h)]);
        return true;
      }
      db := db.(contacts := SlotGiven(db.contacts, h.kind, h.entity, h.ctype, h.rank, h.name, h.id));
      return true;
    }

    // ---- applying ----

    method ApplyEntityProposal(kind: Kind, op: Operation, target: string, state: Json, now: nat)
      returns (err: Option<Error>)
      requires Sound(db.rows)
      modifies this`db
      ensures Ended(ApplyEntity(env, old(db), kind, op, target, state, now), err, db)
    {
      if op == Delete {
        var children := FindChildren(kind, target);
        if children {
          return Some(StillHasChildren);
        }
        SoftDelete(kind, target);
        return None;
      }
      var decoded := env.decode(kind, state);
      if decoded.None? || !decoded.value.EntityState? {
        return Some(BadPayload);
      }
      var p := decoded.value;
      if kind == Facility {
        err := CheckInstitution(op, target, p.institution);
        if err.Some? {
          return;
        }
      }
      var rejected := RequireResolved(env.contactKnown, p.contacts);
      if rejected.Some? {
        return Some(BadContacts(rejected.value));
      }
      var parent := Some(0);
      if ParentKind(kind).Some? {
        parent := Find(ParentKind(kind).value, p.parent);
        if parent.None? {
          return Some(NoParent);
        }
      }
      var content := Content(p.name, parent.value, p.institution, p.center, {}, p.data);
      err := Write(kind, op, target, content, p.contacts, now);
    }

    method Write(kind: Kind, op: Operation, target: string, content: Content, contacts: seq<Contact>, now: nat)
      returns (err: Option<Error>)
      requires Sound(db.rows)
      modifies this`db
      ensures Ended(WriteEntity(old(db), kind, op, target, content, contacts, now), err, db)
    {
      if op == Update {
        err := UpdateByName(kind, target, content, now);
      } else {
        err := Insert(Key(kind, db.next), WithDefaults(kind, content), now);
        db := db.(next := if err.None? then db.next + 1 else db.next);
      }
      if err.Some? {
        return;
      }
      var rows := ReplaceEntityContacts(db.contacts, kind, target, content.name, contacts);
      db := db.(contacts := rows);
      if op == Update {
        db := db.(handOffs := Registry.Repointed(db.handOffs, kind, target, content.name));
      }
    }

    method CheckInstitution(op: Operation, target: string, institution: string) returns (err: Option<Error>)
      requires Sound(db.rows)
      ensures err == InstitutionError(env, db, op, target, institution)
    {
      if institution == "" {
        var keepsNone := false;
        if op == Update {
          var id := Find(Facility, target);
          if id.None? {
            return Some(NotFound);
          }
          keepsNone := db.rows[Key(Facility, id.value)].content.institution == "";
        }
        return if keepsNone then None else Some(NoInstitution);
      }
      return if env.institutionExists(institution) then None else Some(UnknownInstitution);
    }

    method ApplyResourceProposal(op: Operation, target: string, state: Json, now: nat, nth: nat)
      returns (err: Option<Error>)
      requires Sound(db.rows)
      modifies this`db
      ensures Ended(ApplyResource(env, old(db), op, target, state, now, nth), err, db)
    {
      if op == Delete {
        var id := env.parseId(target);
        if id.None? {
          return Some(BadId);
        }
        db := db.(rows := Buried(db.rows, Key(Resource, id.value)));
        return None;
      }
      var decoded := env.decode(Resource, state);
      if decoded.None? || !decoded.value.ResourceState? {
        return Some(BadPayload);
      }
      var p := decoded.value;
      if p.name == "" || p.parent == "" {
        return Some(Incomplete);
      }
      if !ResolvedLists(env, p.inner.lists) {
        return Some(BadResourceContacts);
      }
      var group := Find(ResourceGroup, p.parent);
      if group.None? {
        return Some(NoParent);
      }
      var content := Content(p.name, group.value, "", "", p.uses, p.data);
      if op == Update {
        var id := env.parseId(target);
        if id.None? {
          return Some(BadId);
        }
        err := UpdateResourceFromProposal(id.value, content, p.inner, now);
        return;
      }
      var id := if p.id.Some? then p.id.value else env.mint(now, nth);
      err := Insert(Key(Resource, id), content, now);
      if err.None? {
        db := db.(children := db.children[id := p.inner]);
      }
    }

    method UpdateResourceFromProposal(id: int, content: Content, inner: Children, now: nat) returns (err: Option<Error>)
      requires Sound(db.rows)
      modifies this`db
      ensures Ended(UpdateResource(old(db), id, content, inner, now), err, db)
    {
      var key := Key(Resource, id);
      if key in db.rows && db.rows[key].live {
        err := UpdateById(key, content, now);
        if err.Some? {
          return;
        }
      }
      if key !in db.rows && !NoChildren(inner) {
        return Some(NoSuchRow);
      }
      db := db.(children := db.children[id := inner]);
      return None;
    }

    method ApplySupportCenterProposal(op: Operation, target: string, state: Json, now: nat) returns (err: Option<Error>)
      requires Sound(db.rows)
      modifies this`db
      ensures Ended(ApplyCenter(env, old(db), op, target, state, now), err, db)
    {
      if op == Delete {
        if exists key | key in db.rows :: UsesCenter(db.rows, key, target) {
          return Some(CenterInUse);
        }
        SoftDelete(SupportCenter, target);
        return None;
      }
      var decoded := env.decode(SupportCenter, state);
      if decoded.None? || !decoded.value.CenterState? {
        return Some(BadPayload);
      }
      var p := decoded.value;
      if p.name == "" {
        return Some(Incomplete);
      }
      var content := Content(p.name, 0, "", "", {}, p.data);
      if op == Update {
        var id := Find(SupportCenter, target);
        if id.None? {
          return Some(NotFound);
        }
        err := UpdateById(Key(SupportCenter, id.value), content, now);
        if err.None? && p.name != target {
          db := db.(rows := CenterRenamed(db.rows, target, p.name, now));
        }
        return;
      }
      var key := Key(SupportCenter, env.genId(p.name));
      var other := if key in db.rows && db.rows[key].live then db.rows[key].content.name else "";
      if other != "" && other != p.name {
        return Some(CenterIdTaken);
      }
      var live := Find(SupportCenter, p.name);
      if live.Some? {
        return Some(Table(DuplicateName));
      }
      db := db.(rows := db.rows[key := Row(content, true, now)]);
      return None;
    }

    method ApplyProjectProposal(op: Operation, target: string, state: Json, now: nat) returns (err: Option<Error>)
      requires Sound(db.rows)
      modifies this`db
      ensures Ended(ApplyProject(env, old(db), op, target, state, now), err, db)
    {
      if op == Delete {
        SoftDelete(Project, target);
        return None;
      }
      var decoded := env.decode(Project, state);
      if decoded.None? || !decoded.value.ProjectState? {
        return Some(BadPayload);
      }
      var p := decoded.value;
      var content := Content(p.name, 0, "", "", p.uses, p.data);
      if op == Update {
        err := UpdateByName(Project, target, content, now);
        return;
      }
      var live := Find(Project, p.name);
      if live.Some? {
        err := UpdateByName(Project, p.name, content, now);
        return;
      }
      err := Insert(Key(Project, db.next), content, now);
      if err.None? {
        db := db.(next := db.next + 1);
      }
    }

    method ApplyVOProposal(op: Operation, target: string, state: Json, now: nat) returns (err: Option<Error>)
      modifies this`db
      ensures Ended(Registry.ApplyVO(env, old(db), op, target, state, now), err, db)
    {
      var table := new VOProposals.VOTable(VOEnvOf(env, db.rows), db.vos);
      var failed := table.Apply(op, target, state, now);
      if failed.Some? {
        return Some(VOFailed(failed.value));
      }
      db := db.(vos := table.vos);
      return None;
    }

    method ApplyOne(kind: Kind, op: Operation, target: string, state: Json, now: nat, nth: nat)
      returns (err: Option<Error>)
      requires Sound(db.rows)
      modifies this`db
      ensures Ended(ApplySingle(env, old(db), kind, op, target, state, now, nth), err, db)
    {
      match kind
      case Resource => err := ApplyResourceProposal(op, target, state, now, nth);
      case SupportCenter => err := ApplySupportCenterProposal(op, target, state, now);
      case Project => err := ApplyProjectProposal(op, target, state, now);
      case VO => err := ApplyVOProposal(op, target, state, now);
      case Bundle => err := Some(NestedBundle);
      case _ => err := ApplyEntityProposal(kind, op, target, state, now);
    }

    method ApplyBundleProposal(state: Json, now: nat) returns (err: Option<Error>)
      requires Healthy(env, db)
      modifies this`db
      ensures Ended(ApplyBundle(env, old(db), state, now), err, db)
    {
      var decoded := env.decode(Bundle, state);
      if decoded.None? || !decoded.value.BundleState? {
        return Some(BadPayload);
      }
      var ops := decoded.value.ops;
      if ops == [] {
        return Some(EmptyBundle);
      }
      ghost var start := db;
      for i := 0 to |ops|
        invariant ApplyOps(env, start, ops, i, now) == Ok(db)
        invariant Healthy(env, db)
      {
        ghost var before := db;
        err := ApplyOne(ops[i].kind, ops[i].op, ops[i].target, ops[i].state, now, i);
        if err.Some? {
          OpsFail(env, start, ops, i, now, before, err.value);
          return;
        }
        SingleSteps(env, before, ops[i].kind, ops[i].op, ops[i].target, ops[i].state, now, i);
      }
      return None;
    }

    method ApplyProposal(kind: Kind, op: Operation, target: string, state: Json, baseAt: Option<nat>, now: nat)
      returns (err: Option<Error>)
      requires Healthy(env, db)
      modifies this`db
      ensures Ended(Apply(env, old(db), kind, op, target, state, baseAt, now), err, db)
    {
      if op != Create && baseAt.Some? {
        var current := FindUpdatedAt(kind, target);
        if current != baseAt {
          return Some(StaleBase);
        }
      }
      if kind == Bundle {
        err := ApplyBundleProposal(state, now);
      } else {
        err := ApplyOne(kind, op, target, state, now, 0);
      }
    }

    /** The whole of a proposal or none of it: whatever failed and however far a bundle had got, a
        failed proposal leaves the tables as they were. */
    method ApplyInTx(kind: Kind, op: Operation, target: string, state: Json, baseAt: Option<nat>, now: nat)
      returns (err: Option<Error>)
      requires Healthy(env, db)
      modifies this`db
      ensures Ended(Apply(env, old(db), kind, op, target, state, baseAt, now), err, db)
      ensures err.Some? ==> db == old(db)
      ensures Healthy(env, db)
    {
      var before := db;
      err := ApplyProposal(kind, op, target, state, baseAt, now);
      if err.Some? {
        db := before;
      } else {
        ApplySteps(env, before, kind, op, target, state, baseAt, now);
      }
    }
  }

  // A bundle fails with the error of its first failing operation.
  lemma {:induction false} OpsFail(env: Env, db: DB, ops: seq<BundleOp>, i: nat, now: nat, before: DB, e: Error)
    requires i < |ops| && ApplyOps(env, db, ops, i, now) == Ok(before)
    requires ApplySingle(env, before, ops[i].kind, ops[i].op, ops[i].target, ops[i].state, now, i) == Err(e)
    ensures ApplyOps(env, db, ops, |ops|, now) == Err(e)
  {
    OpsStayFailed(env, db, ops, i + 1, |ops|, now, e);
  }

  lemma {:induction false} OpsStayFailed(env: Env, db: DB, ops: seq<BundleOp>, i: nat, n: nat, now: nat, e: Error)
    requires i <= n <= |ops| && ApplyOps(env, db, ops, i, now) == Err(e)
    ensures ApplyOps(env, db, ops, n, now) == Err(e)
  {
    hide ApplySingle;
    if i < n {
      OpsStayFailed(env, db, ops, i, n - 1, now, e);
    }
  }
}
