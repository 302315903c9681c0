/**
 What applying any proposal keeps: parents, names, versions, support centers and hand-offs.
 */
module RegistrySafety {
  import opened Wrappers
  import opened Json
  import opened Kinds
  import opened Contacts
  import opened Tables
  import opened Registry
  import VOParents
  import VOProposals
  import VOSafety

  // ---- soundness and versions, one statement at a time ----

  // A live row is as it was before, or its version is now.
  ghost predicate RowFrame(rows: Rows, after: Rows, now: nat) {
    forall key :: key in after && after[key].live && after[key].version != now ==>
      key in rows && rows[key] == after[key]
  }

  ghost predicate GoodStep(rows: Rows, after: Rows, now: nat) {
    Sound(after) && RowFrame(rows, after, now)
  }

  lemma {:induction false} AddedStep(rows: Rows, key: Key, content: Content, now: nat)
    requires Sound(rows) && Added(rows, key, content, now).Ok?
    requires ParentKind(key.kind).Some? ==>
      var up := Key(ParentKind(key.kind).value, content.parent); up in rows && rows[up].live
    ensures GoodStep(rows, Added(rows, key, content, now).value, now)
  {
    WriteKeepsSound(rows, key, content, now);
  }

  lemma {:induction false} ChangedStep(rows: Rows, key: Key, content: Content, now: nat)
    requires Sound(rows) && key in rows && rows[key].live && Changed(rows, key, content, now).Ok?
    requires ParentKind(key.kind).Some? ==>
      var up := Key(ParentKind(key.kind).value, content.parent); up in rows && rows[up].live
    ensures GoodStep(rows, Changed(rows, key, content, now).value, now)
  {
    forall other | IsNamed(rows, other, key.kind, content.name) ensures other == key {
      assert content.name == rows[key].content.name;
      assert SameName(rows, other, key);
    }
    WriteKeepsSound(rows, key, content, now);
  }

  lemma {:induction false} ChangedByNameStep(rows: Rows, kind: Kind, target: string, content: Content, now: nat)
    requires Sound(rows) && ChangedByName(rows, kind, target, content, now).Ok?
    requires ParentKind(kind).Some? ==>
      var up := Key(ParentKind(kind).value, content.parent); up in rows && rows[up].live
    ensures GoodStep(rows, ChangedByName(rows, kind, target, content, now).value, now)
  {
    match Named(rows, kind, target)
    case None =>
    case Some(id) => ChangedStep(rows, Key(kind, id), content, now);
  }

  lemma {:induction false} BuriedByNameStep(rows: Rows, kind: Kind, name: string, now: nat)
    requires Sound(rows) && (!HasChildren(rows, kind, name) || forall k :: ParentKind(k) != Some(kind))
    ensures GoodStep(rows, BuriedByName(rows, kind, name), now)
  {
    GuardedBuryKeepsSound(rows, kind, name);
  }

  lemma {:induction false} BuriedResourceStep(rows: Rows, id: int, now: nat)
    requires Sound(rows)
    ensures GoodStep(rows, Buried(rows, Key(Resource, id)), now)
  {
    BuryKeepsSound(rows, Key(Resource, id));
  }

  lemma {:induction false} CenterAddedStep(rows: Rows, id: int, content: Content, now: nat)
    requires Sound(rows) && CenterAdded(rows, id, content, now).Ok?
    ensures GoodStep(rows, CenterAdded(rows, id, content, now).value, now)
  {
    WriteKeepsSound(rows, Key(SupportCenter, id), content, now);
  }

  lemma {:induction false} CenterRenamedStep(rows: Rows, name: string, newName: string, now: nat)
    requires Sound(rows)
    ensures GoodStep(rows, CenterRenamed(rows, name, newName, now), now)
  {
    CenterRenameKeepsSound(rows, name, newName, now);
  }

  lemma {:induction false} GoodSteps(a: Rows, b: Rows, c: Rows, now: nat)
    requires GoodStep(a, b, now) && GoodStep(b, c, now)
    ensures GoodStep(a, c, now)
  {
    forall key | key in c && c[key].live && c[key].version != now ensures key in a && a[key] == c[key] {
      assert b[key] == c[key];
    }
  }

  // ---- one proposal ----

  lemma {:induction false} EntityStep(env: Env, db: DB, kind: Kind, op: Operation, target: string, state: Json,
                                      now: nat)
    requires kind in {Facility, Site, ResourceGroup}
    requires Sound(db.rows) && ApplyEntity(env, db, kind, op, target, state, now).Ok?
    ensures GoodStep(db.rows, ApplyEntity(env, db, kind, op, target, state, now).value.rows, now)
  {
    if op == Delete {
      BuriedByNameStep(db.rows, kind, target, now);
    } else {
      var p := env.decode(kind, state).value;
      var content := Content(p.name, ParentId(db, kind, p.parent).value, p.institution, p.center, {}, p.data);
      if op == Update {
        ChangedByNameStep(db.rows, kind, target, content, now);
      } else {
        AddedStep(db.rows, Key(kind, db.next), WithDefaults(kind, content), now);
      }
    }
  }

  lemma {:induction false} ResourceStep(env: Env, db: DB, op: Operation, target: string, state: Json, now: nat,
                                        nth: nat)
    requires Sound(db.rows) && ApplyResource(env, db, op, target, state, now, nth).Ok?
    ensures GoodStep(db.rows, ApplyResource(env, db, op, target, state, now, nth).value.rows, now)
  {
    if op == Delete {
      BuriedResourceStep(db.rows, env.parseId(target).value, now);
    } else {
      var p := env.decode(Resource, state).value;
      var content := Content(p.name, Named(db.rows, ResourceGroup, p.parent).value, "", "", p.uses, p.data);
      if op == Update {
        var key := Key(Resource, env.parseId(target).value);
        if key in db.rows && db.rows[key].live {
          ChangedStep(db.rows, key, content, now);
        }
      } else {
        AddedStep(db.rows, Key(Resource, if p.id.Some? then p.id.value else env.mint(now, nth)), content, now);
      }
    }
  }

  lemma {:induction false} CenterStep(env: Env, db: DB, op: Operation, target: string, state: Json, now: nat)
    requires Sound(db.rows) && ApplyCenter(env, db, op, target, state, now).Ok?
    ensures GoodStep(db.rows, ApplyCenter(env, db, op, target, state, now).value.rows, now)
  {
    if op == Delete {
      BuriedByNameStep(db.rows, SupportCenter, target, now);
    } else {
      var p := env.decode(SupportCenter, state).value;
      var content := Content(p.name, 0, "", "", {}, p.data);
      if op == Update {
        ChangedByNameStep(db.rows, SupportCenter, target, content, now);
        var rows := ChangedByName(db.rows, SupportCenter, target, content, now).value;
        CenterRenamedStep(rows, target, p.name, now);
        GoodSteps(db.rows, rows, CenterRenamed(rows, target, p.name, now), now);
      } else {
        CenterAddedStep(db.rows, env.genId(p.name), content, now);
      }
    }
  }

  lemma {:induction false} ProjectStep(env: Env, db: DB, op: Operation, target: string, state: Json, now: nat)
    requires Sound(db.rows) && ApplyProject(env, db, op, target, state, now).Ok?
    ensures GoodStep(db.rows, ApplyProject(env, db, op, target, state, now).value.rows, now)
  {
    if op == Delete {
      BuriedByNameStep(db.rows, Project, target, now);
    } else {
      var p := env.decode(Project, state).value;
      var content := Content(p.name, 0, "", "", p.uses, p.data);
      if op == Update {
        ChangedByNameStep(db.rows, Project, target, content, now);
      } else if Named(db.rows, Project, p.name).Some? {
        ChangedByNameStep(db.rows, Project, p.name, content, now);
      } else {
        AddedStep(db.rows, Key(Project, db.next), content, now);
      }
    }
  }

  lemma {:induction false} SingleRowStep(env: Env, db: DB, kind: Kind, op: Operation, target: string, state: Json,
                                         now: nat, nth: nat)
    requires Sound(db.rows) && ApplySingle(env, db, kind, op, target, state, now, nth).Ok?
    ensures GoodStep(db.rows, ApplySingle(env, db, kind, op, target, state, now, nth).value.rows, now)
  {
    match kind
    case Resource => ResourceStep(env, db, op, target, state, now, nth);
    case SupportCenter => CenterStep(env, db, op, target, state, now);
    case Project => ProjectStep(env, db, op, target, state, now);
    case VO =>
    case Bundle =>
    case _ => EntityStep(env, db, kind, op, target, state, now);
  }

  // The same for the VOs.
  ghost predicate VOFrame(vos: VOProposals.VOs, after: VOProposals.VOs, now: nat) {
    forall n :: n in after && after[n].version != now ==> n in vos && vos[n] == after[n]
  }

  ghost predicate VOsSound(env: Env, db: DB) {
    && VOParents.Acyclic(VOProposals.ParentMap(db.vos))
    && VOSafety.IDsAgree(VOEnvOf(env, db.rows), db.vos)
  }

  // What applying a VO proposal leaves of the VOs.
  ghost predicate VOStepsTo(env: Env, db: DB, after: DB, op: Operation, target: string, now: nat) {
    && VOFrame(db.vos, after.vos, now)
    && VOsSound(env, after)
    && (op != Create && target in after.vos ==> after.vos[target].version == now)
  }

  lemma {:induction false} VOStep(env: Env, db: DB, op: Operation, target: string, state: Json, now: nat)
    requires VOsSound(env, db) && Registry.ApplyVO(env, db, op, target, state, now).Ok?
    ensures VOStepsTo(env, db, Registry.ApplyVO(env, db, op, target, state, now).value, op, target, now)
  {
    VOSafety.ApplyKeepsAcyclic(VOEnvOf(env, db.rows), db.vos, op, target, state, now);
    VOSafety.ApplyKeepsIDs(VOEnvOf(env, db.rows), db.vos, op, target, state, now);
    VOSafety.ApplyWritesOneVO(VOEnvOf(env, db.rows), db.vos, op, target, state, now);
  }

  lemma {:induction false} SingleVOStep(env: Env, db: DB, kind: Kind, op: Operation, target: string, state: Json,
                                        now: nat, nth: nat)
    requires VOsSound(env, db) && ApplySingle(env, db, kind, op, target, state, now, nth).Ok?
    ensures VOFrame(db.vos, ApplySingle(env, db, kind, op, target, state, now, nth).value.vos, now)
    ensures VOsSound(env, ApplySingle(env, db, kind, op, target, state, now, nth).value)
  {
    if kind == VO {
      VOStep(env, db, op, target, state, now);
    } else {
      OnlyVOsChangeVOs(env, db, kind, op, target, state, now, nth);
    }
  }

  lemma {:induction false} OnlyVOsChangeVOs(env: Env, db: DB, kind: Kind, op: Operation, target: string, state: Json,
                                            now: nat, nth: nat)
    requires kind != VO && ApplySingle(env, db, kind, op, target, state, now, nth).Ok?
    ensures ApplySingle(env, db, kind, op, target, state, now, nth).value.vos == db.vos
  {}

  // What is true of the tables in every reachable state.
  ghost predicate Healthy(env: Env, db: DB) {
    Sound(db.rows) && VOsSound(env, db)
  }

  // The tables are healthy and every live target unchanged, unless its version is now.
  ghost predicate StepsTo(env: Env, db: DB, after: DB, now: nat) {
    Healthy(env, after) && RowFrame(db.rows, after.rows, now) && VOFrame(db.vos, after.vos, now)
  }

  lemma {:induction false} SingleSteps(env: Env, db: DB, kind: Kind, op: Operation, target: string, state: Json,
                                       now: nat, nth: nat)
    requires Healthy(env, db) && ApplySingle(env, db, kind, op, target, state, now, nth).Ok?
    ensures StepsTo(env, db, ApplySingle(env, db, kind, op, target, state, now, nth).value, now)
  {
    SingleRowStep(env, db, kind, op, target, state, now, nth);
    SingleVOStep(env, db, kind, op, target, state, now, nth);
  }

  lemma {:induction false} StepsCompose(env: Env, a: DB, b: DB, c: DB, now: nat)
    requires StepsTo(env, a, b, now) && StepsTo(env, b, c, now)
    ensures StepsTo(env, a, c, now)
  {
    forall key | key in c.rows && c.rows[key].live && c.rows[key].version != now
      ensures key in a.rows && a.rows[key] == c.rows[key]
    {
      assert b.rows[key] == c.rows[key];
    }
    forall n | n in c.vos && c.vos[n].version != now ensures n in a.vos && a.vos[n] == c.vos[n] {
      assert b.vos[n] == c.vos[n];
    }
  }

  lemma {:induction false} OpsStep(env: Env, db: DB, ops: seq<BundleOp>, n: nat, now: nat)
    requires n <= |ops| && Healthy(env, db) && ApplyOps(env, db, ops, n, now).Ok?
    ensures StepsTo(env, db, ApplyOps(env, db, ops, n, now).value, now)
  {
    if n > 0 {
      OpsStep(env, db, ops, n - 1, now);
      var before, o := ApplyOps(env, db, ops, n - 1, now).value, ops[n - 1];
      SingleSteps(env, before, o.kind, o.op, o.target, o.state, now, n - 1);
      StepsCompose(env, db, before, ApplyOps(env, db, ops, n, now).value, now);
    }
  }

  /** Any proposal that applies, a bundle of any length included, leaves every live site, group and
      resource with a live parent, live names unique, the VO parents acyclic and VO ids as they were;
      and every live row and VO that it does not write is unchanged. */
  lemma {:induction false} ApplySteps(env: Env, db: DB, kind: Kind, op: Operation, target: string, state: Json,
                                      baseAt: Option<nat>, now: nat)
    requires Healthy(env, db) && Apply(env, db, kind, op, target, state, baseAt, now).Ok?
    ensures StepsTo(env, db, Apply(env, db, kind, op, target, state, baseAt, now).value, now)
  {
    if kind == Bundle {
      var ops := env.decode(Bundle, state).value.ops;
      OpsStep(env, db, ops, |ops|, now);
    } else {
      SingleSteps(env, db, kind, op, target, state, now, 0);
    }
  }

  // ---- the guarded target ----

  lemma {:induction false} TargetFrame(env: Env, db: DB, after: DB, now: nat, kind: Kind, target: string)
    requires Healthy(env, db) && StepsTo(env, db, after, now)
    requires TargetOf(env, after, kind, target).Some? && Version(TargetOf(env, after, kind, target).value) != now
    ensures TargetOf(env, db, kind, target) == TargetOf(env, after, kind, target)
  {
    match TargetOf(env, after, kind, target).value
    case RowTarget(id, row) =>
      if kind != Resource {
        assert IsNamed(db.rows, Key(kind, id), kind, target);
        NamedIs(db.rows, Key(kind, id), kind, target);
      }
    case VOTarget(_) =>
  }

  // Whatever row of that name is there now was written now.
  ghost predicate Settled(rows: Rows, kind: Kind, target: string, now: nat) {
    forall key :: IsNamed(rows, key, kind, target) ==> rows[key].version == now
  }

  lemma {:induction false} ChangedByNameSettles(rows: Rows, kind: Kind, target: string, content: Content, now: nat)
    requires UniqueNames(rows) && ChangedByName(rows, kind, target, content, now).Ok?
    ensures Settled(ChangedByName(rows, kind, target, content, now).value, kind, target, now)
  {
    var after := ChangedByName(rows, kind, target, content, now).value;
    forall key | IsNamed(after, key, kind, target) ensures after[key].version == now {
      if IsNamed(rows, key, kind, target) {
        NamedIs(rows, key, kind, target);
      }
    }
  }

  lemma {:induction false} BuriedByNameSettles(rows: Rows, kind: Kind, target: string, now: nat)
    requires UniqueNames(rows)
    ensures Settled(BuriedByName(rows, kind, target), kind, target, now)
  {
    forall key | IsNamed(BuriedByName(rows, kind, target), key, kind, target) ensures false {
      NamedIs(rows, key, kind, target);
    }
  }

  lemma {:induction false} EntitySettles(env: Env, db: DB, kind: Kind, op: Operation, target: string, state: Json,
                                         now: nat)
    requires kind in {Facility, Site, ResourceGroup} && op != Create
    requires UniqueNames(db.rows) && ApplyEntity(env, db, kind, op, target, state, now).Ok?
    ensures Settled(ApplyEntity(env, db, kind, op, target, state, now).value.rows, kind, target, now)
  {
    if op == Delete {
      BuriedByNameSettles(db.rows, kind, target, now);
    } else {
      var p := env.decode(kind, state).value;
      var content := Content(p.name, ParentId(db, kind, p.parent).value, p.institution, p.center, {}, p.data);
      ChangedByNameSettles(db.rows, kind, target, content, now);
    }
  }

  lemma {:induction false} CenterSettles(env: Env, db: DB, op: Operation, target: string, state: Json, now: nat)
    requires op != Create && UniqueNames(db.rows) && ApplyCenter(env, db, op, target, state, now).Ok?
    ensures Settled(ApplyCenter(env, db, op, target, state, now).value.rows, SupportCenter, target, now)
  {
    if op == Delete {
      BuriedByNameSettles(db.rows, SupportCenter, target, now);
    } else {
      var p := env.decode(SupportCenter, state).value;
      var content := Content(p.name, 0, "", "", {}, p.data);
      ChangedByNameSettles(db.rows, SupportCenter, target, content, now);
      var rows := ChangedByName(db.rows, SupportCenter, target, content, now).value;
      forall key | IsNamed(CenterRenamed(rows, target, p.name, now), key, SupportCenter, target)
        ensures IsNamed(rows, key, SupportCenter, target)
      {}
    }
  }

  lemma {:induction false} ProjectSettles(env: Env, db: DB, op: Operation, target: string, state: Json, now: nat)
    requires op != Create && UniqueNames(db.rows) && ApplyProject(env, db, op, target, state, now).Ok?
    ensures Settled(ApplyProject(env, db, op, target, state, now).value.rows, Project, target, now)
  {
    if op == Delete {
      BuriedByNameSettles(db.rows, Project, target, now);
    } else {
      var p := env.decode(Project, state).value;
      ChangedByNameSettles(db.rows, Project, target, Content(p.name, 0, "", "", p.uses, p.data), now);
    }
  }

  // The target of an applied update or delete is gone, or has the version of this moment.
  ghost predicate TargetSettled(env: Env, db: DB, kind: Kind, target: string, now: nat) {
    match UpdatedAt(env, db, kind, target)
    case Some(version) => version == now
    case None => true
  }

  lemma {:induction false} SettledTarget(env: Env, db: DB, kind: Kind, target: string, now: nat)
    requires kind !in {Resource, VO} && Settled(db.rows, kind, target, now)
    ensures TargetSettled(env, db, kind, target, now)
  {}

  lemma {:induction false} ResourceSettles(env: Env, db: DB, op: Operation, target: string, state: Json, now: nat,
                                           nth: nat)
    requires op != Create && TargetOf(env, db, Resource, target).Some?
    requires ApplyResource(env, db, op, target, state, now, nth).Ok?
    ensures TargetSettled(env, ApplyResource(env, db, op, target, state, now, nth).value, Resource, target, now)
  {}

  lemma {:induction false} VOSettles(env: Env, after: DB, db: DB, op: Operation, target: string, now: nat)
    requires op != Create && VOStepsTo(env, db, after, op, target, now)
    ensures TargetSettled(env, after, VO, target, now)
  {}

  /** An update or delete that applies to a live target consumes the version it found: afterwards the
      target is gone, or has a version of its own. */
  lemma {:induction false} ApplyConsumesVersion(env: Env, db: DB, kind: Kind, op: Operation, target: string,
                                                state: Json, baseAt: Option<nat>, now: nat)
    requires Healthy(env, db) && Apply(env, db, kind, op, target, state, baseAt, now).Ok?
    requires op != Create && TargetOf(env, db, kind, target).Some?
    ensures TargetSettled(env, Apply(env, db, kind, op, target, state, baseAt, now).value, kind, target, now)
  {
    var after := Apply(env, db, kind, op, target, state, baseAt, now).value;
    match kind
    case Resource => ResourceSettles(env, db, op, target, state, now, 0);
    case VO =>
      VOStep(env, db, op, target, state, now);
      VOSettles(env, after, db, op, target, now);
    case SupportCenter =>
      CenterSettles(env, db, op, target, state, now);
      SettledTarget(env, after, kind, target, now);
    case Project =>
      ProjectSettles(env, db, op, target, state, now);
      SettledTarget(env, after, kind, target, now);
    case Bundle =>
    case _ =>
      EntitySettles(env, db, kind, op, target, state, now);
      SettledTarget(env, after, kind, target, now);
  }

  // ---- the row behind the guarded target ----

  // What a name refers to: a row, or a VO.
  datatype Subject = OfRow(key: Key) | OfVO(name: string)

  ghost function SubjectOf(env: Env, db: DB, kind: Kind, target: string): Option<Subject> {
    match TargetOf(env, db, kind, target)
    case Some(RowTarget(id, _)) => Some(OfRow(Key(kind, id)))
    case Some(VOTarget(_)) => Some(OfVO(target))
    case None => None
  }

  function VersionOf(db: DB, s: Subject): Option<nat> {
    match s
    case OfRow(key) => if key in db.rows && db.rows[key].live then Some(db.rows[key].version) else None
    case OfVO(name) => if name in db.vos then Some(db.vos[name].version) else None
  }

  lemma TargetVersion(env: Env, db: DB, kind: Kind, target: string)
    requires SubjectOf(env, db, kind, target).Some?
    ensures VersionOf(db, SubjectOf(env, db, kind, target).value) == UpdatedAt(env, db, kind, target)
  {}

  lemma {:induction false} SingleConsumesRow(env: Env, db: DB, kind: Kind, op: Operation, target: string, state: Json,
                                             now: nat, key: Key)
    requires op != Create && kind != VO && SubjectOf(env, db, kind, target) == Some(OfRow(key))
    requires ApplySingle(env, db, kind, op, target, state, now, 0).Ok?
    ensures VersionOf(ApplySingle(env, db, kind, op, target, state, now, 0).value, OfRow(key)) in {None, Some(now)}
  {
    match kind
    case Resource =>
    case SupportCenter => CenterConsumesRow(env, db, op, target, state, now, key);
    case Project =>
    case Bundle =>
    case _ => EntityConsumesRow(env, db, kind, op, target, state, now, key);
  }

  lemma {:induction false} EntityConsumesRow(env: Env, db: DB, kind: Kind, op: Operation, target: string, state: Json,
                                             now: nat, key: Key)
    requires kind in {Facility, Site, ResourceGroup} && op != Create
    requires Named(db.rows, kind, target).Some? && key == Key(kind, Named(db.rows, kind, target).value)
    requires ApplyEntity(env, db, kind, op, target, state, now).Ok?
    ensures VersionOf(ApplyEntity(env, db, kind, op, target, state, now).value, OfRow(key)) in {None, Some(now)}
  {}

  lemma {:induction false} CenterConsumesRow(env: Env, db: DB, op: Operation, target: string, state: Json, now: nat,
                                             key: Key)
    requires op != Create && ApplyCenter(env, db, op, target, state, now).Ok?
    requires Named(db.rows, SupportCenter, target).Some?
    requires key == Key(SupportCenter, Named(db.rows, SupportCenter, target).value)
    ensures VersionOf(ApplyCenter(env, db, op, target, state, now).value, OfRow(key)) in {None, Some(now)}
  {}

  /** Whatever an update or delete that applies found under its target is gone afterwards, or has a
      version of its own, under whatever name. */
  lemma {:induction false} ApplyConsumesRow(env: Env, db: DB, kind: Kind, op: Operation, target: string, state: Json,
                                            baseAt: Option<nat>, now: nat, s: Subject)
    requires Healthy(env, db) && Apply(env, db, kind, op, target, state, baseAt, now).Ok?
    requires op != Create && SubjectOf(env, db, kind, target) == Some(s)
    ensures VersionOf(Apply(env, db, kind, op, target, state, baseAt, now).value, s) in {None, Some(now)}
  {
    if kind == VO {
      VOStep(env, db, op, target, state, now);
    } else {
      SingleConsumesRow(env, db, kind, op, target, state, now, s.key);
    }
  }

  // ---- VOs, whatever the proposal ----

  lemma {:induction false} SingleKeepsVOParents(env: Env, db: DB, kind: Kind, op: Operation, target: string,
                                                state: Json,
                                                now: nat, nth: nat)
    requires VOSafety.AllParentsLive(db.vos) && ApplySingle(env, db, kind, op, target, state, now, nth).Ok?
    ensures VOSafety.AllParentsLive(ApplySingle(env, db, kind, op, target, state, now, nth).value.vos)
  {
    if kind == VO {
      VOSafety.ApplyKeepsParentsLive(VOEnvOf(env, db.rows), db.vos, op, target, state, now);
    } else {
      OnlyVOsChangeVOs(env, db, kind, op, target, state, now, nth);
    }
  }

  // The VO is there and has this id.
  ghost predicate HasID(env: Env, db: DB, name: string, id: int) {
    VOsSound(env, db) && name in db.vos && db.vos[name].id == id
  }

  lemma {:induction false} SingleKeepsVOID(env: Env, db: DB, kind: Kind, op: Operation, target: string, state: Json,
                                           now: nat, nth: nat, name: string, id: int)
    requires HasID(env, db, name, id) && !(kind == VO && op == Delete && target == name)
    requires ApplySingle(env, db, kind, op, target, state, now, nth).Ok?
    ensures HasID(env, ApplySingle(env, db, kind, op, target, state, now, nth).value, name, id)
  {
    SingleVOStep(env, db, kind, op, target, state, now, nth);
    if kind == VO {
      VOSafety.ApplyKeepsIDs(VOEnvOf(env, db.rows), db.vos, op, target, state, now);
    } else {
      OnlyVOsChangeVOs(env, db, kind, op, target, state, now, nth);
    }
  }
}
