/**
 When an operation is carried out and why it is refused, by the live rows alone.
 */
module Admission {
  import opened Wrappers
  import opened Json
  import opened Kinds
  import opened Contacts
  import opened Tables
  import opened Registry
  import opened RegistrySafety
  import opened Operations
  import opened Workflow
  import opened WorkflowSafety
  import opened WrittenContent

  // ---- what the live rows say ----

  ghost predicate Taken(rows: Rows, kind: Kind, name: string) {
    exists key :: IsNamed(rows, key, kind, name)
  }

  ghost predicate TargetIsLive(env: Env, rows: Rows, o: BundleOp) {
    exists key :: Targets(env, rows, o, key)
  }

  // Nothing but the target itself is live under the name.
  ghost predicate NameIsFree(env: Env, rows: Rows, o: BundleOp, name: string) {
    forall key :: IsNamed(rows, key, o.kind, name) ==> Targets(env, rows, o, key)
  }

  // A blank institution is for an update of a facility that has none.
  ghost predicate InstitutionAllowed(env: Env, rows: Rows, o: BundleOp, institution: string) {
    if institution != "" then env.institutionExists(institution)
    else o.op == Update && exists key :: Targets(env, rows, o, key) && rows[key].content.institution == ""
  }

  ghost predicate ContactsAllowed(env: Env, cs: seq<Contact>) {
    AtMostThreeEach(cs) && AllKnown(env.contactKnown, cs)
  }

  // ---- which operations are carried out ----

  ghost predicate EntityAdmitted(env: Env, db: DB, o: BundleOp) {
    if o.op == Delete then forall key :: !IsChildOf(db.rows, key, o.kind, o.target)
    else
      match env.decode(o.kind, o.state)
      case Some(EntityState(name, parent, institution, _, _, contacts)) =>
        && (o.kind == Facility ==> InstitutionAllowed(env, db.rows, o, institution))
        && ContactsAllowed(env, contacts)
        && (ParentKind(o.kind).Some? ==> Taken(db.rows, ParentKind(o.kind).value, parent))
        && (if o.op == Create then Key(o.kind, db.next) !in db.rows && !Taken(db.rows, o.kind, name)
            else TargetIsLive(env, db.rows, o) ==> NameIsFree(env, db.rows, o, name))
      case _ => false
  }

  ghost predicate ResourceAdmitted(env: Env, db: DB, o: BundleOp, now: nat, nth: nat) {
    if o.op == Delete then env.parseId(o.target).Some?
    else
      match env.decode(Resource, o.state)
      case Some(ResourceState(name, parent, id, _, _, inner)) =>
        && name != "" && parent != "" && ResolvedLists(env, inner.lists) && Taken(db.rows, ResourceGroup, parent)
        && (if o.op == Create then
              && Key(Resource, if id.Some? then id.value else env.mint(now, nth)) !in db.rows
              && !Taken(db.rows, Resource, name)
            else
              && env.parseId(o.target).Some?
              && (TargetIsLive(env, db.rows, o) ==> NameIsFree(env, db.rows, o, name))
              && (NoChildren(inner) || Key(Resource, env.parseId(o.target).value) in db.rows))
      case _ => false
  }

  ghost predicate CenterAdmitted(env: Env, db: DB, o: BundleOp) {
    if o.op == Delete then forall key :: !UsesCenter(db.rows, key, o.target)
    else
      match env.decode(SupportCenter, o.state)
      case Some(CenterState(name, _)) =>
        && name != ""
        && (if o.op == Update then TargetIsLive(env, db.rows, o) && NameIsFree(env, db.rows, o, name)
            else
              var key := Key(SupportCenter, env.genId(name));
              !Taken(db.rows, SupportCenter, name)
              && (key in db.rows && db.rows[key].live ==> db.rows[key].content.name == ""))
      case _ => false
  }

  ghost predicate ProjectAdmitted(env: Env, db: DB, o: BundleOp) {
    if o.op == Delete then true
    else
      match env.decode(Project, o.state)
      case Some(ProjectState(name, _, _)) =>
        if o.op == Update then TargetIsLive(env, db.rows, o) ==> NameIsFree(env, db.rows, o, name)
        else Taken(db.rows, Project, name) || Key(Project, db.next) !in db.rows
      case _ => false
  }

  ghost predicate Admitted(env: Env, db: DB, o: BundleOp, now: nat, nth: nat)
    requires o.kind != VO
  {
    match o.kind
    case Resource => ResourceAdmitted(env, db, o, now, nth)
    case SupportCenter => CenterAdmitted(env, db, o)
    case Project => ProjectAdmitted(env, db, o)
    case Bundle => false
    case _ => EntityAdmitted(env, db, o)
  }

  lemma {:induction false} TargetNamed(env: Env, rows: Rows, o: BundleOp)
    requires Sound(rows) && o.kind != Resource
    ensures TargetIsLive(env, rows, o) <==> Named(rows, o.kind, o.target).Some?
    ensures forall key :: Targets(env, rows, o, key) <==>
      key.kind == o.kind && Named(rows, o.kind, o.target) == Some(key.id)
  {
    forall key
      ensures Targets(env, rows, o, key) <==> key.kind == o.kind && Named(rows, o.kind, o.target) == Some(key.id)
    {
      if Targets(env, rows, o, key) {
        NamedIs(rows, key, o.kind, o.target);
      }
    }
    if id :| Named(rows, o.kind, o.target) == Some(id) {
      assert Targets(env, rows, o, Key(o.kind, id));
    }
  }

  // A live row can be written under a name exactly when it has the name or nobody has.
  lemma {:induction false} RenameAllowed(env: Env, rows: Rows, o: BundleOp, key: Key, name: string)
    requires Sound(rows) && Targets(env, rows, o, key)
    ensures NameIsFree(env, rows, o, name) <==> rows[key].content.name == name || !Taken(rows, o.kind, name)
  {
    if NameIsFree(env, rows, o, name) && Taken(rows, o.kind, name) {
      var other :| IsNamed(rows, other, o.kind, name);
      assert Targets(env, rows, o, other);
      assert o.kind != Resource ==> SameName(rows, other, key);
    }
    if rows[key].content.name == name {
      forall other | IsNamed(rows, other, o.kind, name) ensures Targets(env, rows, o, other) {
        assert SameName(rows, other, key);
      }
    }
  }

  lemma TakenIsNamed(rows: Rows, kind: Kind, name: string)
    ensures Taken(rows, kind, name) <==> Named(rows, kind, name).Some?
  {}

  lemma {:induction false} EntityAdmittedIff(env: Env, db: DB, o: BundleOp, now: nat)
    requires o.kind in {Facility, Site, ResourceGroup} && Sound(db.rows)
    ensures ApplyEntity(env, db, o.kind, o.op, o.target, o.state, now).Ok? <==> EntityAdmitted(env, db, o)
  {
    TargetNamed(env, db.rows, o);
    match env.decode(o.kind, o.state)
    case Some(EntityState(name, parent, institution, _, _, contacts)) =>
      AcceptedLists(env.contactKnown, contacts);
      TakenIsNamed(db.rows, o.kind, name);
      if ParentKind(o.kind).Some? {
        TakenIsNamed(db.rows, ParentKind(o.kind).value, parent);
      }
      if Named(db.rows, o.kind, o.target).Some? {
        RenameAllowed(env, db.rows, o, Key(o.kind, Named(db.rows, o.kind, o.target).value), name);
      }
    case _ =>
  }

  lemma {:induction false} ResourceAdmittedIff(env: Env, db: DB, o: BundleOp, now: nat, nth: nat)
    requires o.kind == Resource && Sound(db.rows)
    ensures ApplyResource(env, db, o.op, o.target, o.state, now, nth).Ok? <==> ResourceAdmitted(env, db, o, now, nth)
  {
    match env.decode(Resource, o.state)
    case Some(ResourceState(name, parent, id, _, _, inner)) =>
      TakenIsNamed(db.rows, Resource, name);
      TakenIsNamed(db.rows, ResourceGroup, parent);
      if env.parseId(o.target).Some? {
        var key := Key(Resource, env.parseId(o.target).value);
        if key in db.rows && db.rows[key].live {
          assert Targets(env, db.rows, o, key);
          RenameAllowed(env, db.rows, o, key, name);
        }
      }
    case _ =>
  }

  lemma {:induction false} CenterAdmittedIff(env: Env, db: DB, o: BundleOp, now: nat)
    requires o.kind == SupportCenter && Sound(db.rows)
    ensures ApplyCenter(env, db, o.op, o.target, o.state, now).Ok? <==> CenterAdmitted(env, db, o)
  {
    TargetNamed(env, db.rows, o);
    match env.decode(SupportCenter, o.state)
    case Some(CenterState(name, _)) =>
      TakenIsNamed(db.rows, SupportCenter, name);
      var key := Key(SupportCenter, env.genId(name));
      assert key in db.rows && db.rows[key].live && db.rows[key].content.name == name ==>
        IsNamed(db.rows, key, SupportCenter, name);
      if Named(db.rows, SupportCenter, o.target).Some? {
        RenameAllowed(env, db.rows, o, Key(SupportCenter, Named(db.rows, SupportCenter, o.target).value), name);
      }
    case _ =>
  }

  lemma {:induction false} ProjectAdmittedIff(env: Env, db: DB, o: BundleOp, now: nat)
    requires o.kind == Project && Sound(db.rows)
    ensures ApplyProject(env, db, o.op, o.target, o.state, now).Ok? <==> ProjectAdmitted(env, db, o)
  {
    TargetNamed(env, db.rows, o);
    match env.decode(Project, o.state)
    case Some(ProjectState(name, _, _)) =>
      TakenIsNamed(db.rows, Project, name);
      if Named(db.rows, Project, o.target).Some? {
        RenameAllowed(env, db.rows, o, Key(Project, Named(db.rows, Project, o.target).value), name);
      }
    case _ =>
  }

  /** An operation is carried out exactly when its payload can be read and is complete, what it refers to is
      there - its parent live, its institution registered, the people on its lists known - its name is free,
      and, for a deletion, nothing live depends on the target. */
  lemma {:induction false} AdmittedExactlyWhen(env: Env, db: DB, o: BundleOp, now: nat, nth: nat)
    requires o.kind != VO && Sound(db.rows)
    ensures ApplyOp(env, db, o, now, nth).Ok? <==> Admitted(env, db, o, now, nth)
  {
    hide EntityAdmitted, ResourceAdmitted, CenterAdmitted, ProjectAdmitted;
    match o.kind
    case Resource => ResourceAdmittedIff(env, db, o, now, nth);
    case SupportCenter => CenterAdmittedIff(env, db, o, now);
    case Project => ProjectAdmittedIff(env, db, o, now);
    case Bundle =>
    case _ => EntityAdmittedIff(env, db, o, now);
  }

  // ---- which error is given ----

  predicate Readable(kind: Kind, p: Option<Payload>) {
    match kind
    case Resource => p.Some? && p.value.ResourceState?
    case SupportCenter => p.Some? && p.value.CenterState?
    case Project => p.Some? && p.value.ProjectState?
    case VO => false
    case Bundle => false
    case _ => p.Some? && p.value.EntityState?
  }

  // The key that a creation asks for.
  function NewKey(env: Env, db: DB, kind: Kind, p: Payload, now: nat, nth: nat): Key {
    match p
    case ResourceState(_, _, id, _, _, _) => Key(kind, if id.Some? then id.value else env.mint(now, nth))
    case CenterState(name, _) => Key(kind, env.genId(name))
    case _ => Key(kind, db.next)
  }

  // What is wrong with a deletion that is refused with this error.
  ghost predicate DeletionFault(env: Env, db: DB, o: BundleOp, e: Error) {
    match e
    case StillHasChildren => exists key :: IsChildOf(db.rows, key, o.kind, o.target)
    case CenterInUse => exists key :: UsesCenter(db.rows, key, o.target)
    case BadId => o.kind == Resource && env.parseId(o.target) == None
    case _ => false
  }

  // The same for a creation or update whose payload can be read.
  ghost predicate WriteFault(env: Env, db: DB, o: BundleOp, p: Payload, now: nat, nth: nat, e: Error) {
    match e
    case Incomplete => NameIn(p) == "" || (p.ResourceState? && p.parent == "")
    case NoInstitution => p.EntityState? && p.institution == "" && !InstitutionAllowed(env, db.rows, o, "")
    case UnknownInstitution => p.EntityState? && p.institution != "" && !env.institutionExists(p.institution)
    case BadContacts(c) => p.EntityState? && Rejection(env.contactKnown, p.contacts) == Some(c)
    case BadResourceContacts => p.ResourceState? && !ResolvedLists(env, p.inner.lists)
    case NoParent =>
      if p.ResourceState? then !Taken(db.rows, ResourceGroup, p.parent)
      else p.EntityState? && ParentKind(o.kind).Some? && !Taken(db.rows, ParentKind(o.kind).value, p.parent)
    case NotFound => o.op == Update && !TargetIsLive(env, db.rows, o)
    case BadId => o.op == Update && o.kind == Resource && env.parseId(o.target) == None
    case NoSuchRow => p.ResourceState? && !NoChildren(p.inner) && !TargetIsLive(env, db.rows, o)
    case CenterIdTaken =>
      var key := NewKey(env, db, o.kind, p, now, nth);
      key in db.rows && db.rows[key].live && db.rows[key].content.name !in {"", NameIn(p)}
    case Table(DuplicateName) =>
      if o.op == Update then !NameIsFree(env, db.rows, o, NameIn(p)) else Taken(db.rows, o.kind, NameIn(p))
    case Table(DuplicateKey) => o.op == Create && NewKey(env, db, o.kind, p, now, nth) in db.rows
    case _ => false
  }

  // What is wrong with an operation that is refused with this error.
  ghost predicate Fault(env: Env, db: DB, o: BundleOp, now: nat, nth: nat, e: Error) {
    if o.kind == Bundle then e == NestedBundle
    else if o.op == Delete then DeletionFault(env, db, o, e)
    else if !Readable(o.kind, env.decode(o.kind, o.state)) then e == BadPayload
    else WriteFault(env, db, o, env.decode(o.kind, o.state).value, now, nth, e)
  }

  lemma {:induction false} EntityFaults(env: Env, db: DB, o: BundleOp, now: nat, nth: nat)
    requires o.kind in {Facility, Site, ResourceGroup} && Sound(db.rows)
    requires ApplyEntity(env, db, o.kind, o.op, o.target, o.state, now).Err?
    ensures Fault(env, db, o, now, nth, ApplyEntity(env, db, o.kind, o.op, o.target, o.state, now).error)
  {
    TargetNamed(env, db.rows, o);
    match env.decode(o.kind, o.state)
    case Some(EntityState(name, _, _, _, _, _)) =>
      if Named(db.rows, o.kind, o.target).Some? {
        RenameAllowed(env, db.rows, o, Key(o.kind, Named(db.rows, o.kind, o.target).value), name);
      }
    case _ =>
  }

  lemma {:induction false} ResourceFaults(env: Env, db: DB, o: BundleOp, now: nat, nth: nat)
    requires o.kind == Resource && Sound(db.rows)
    requires ApplyResource(env, db, o.op, o.target, o.state, now, nth).Err?
    ensures Fault(env, db, o, now, nth, ApplyResource(env, db, o.op, o.target, o.state, now, nth).error)
  {
    match env.decode(Resource, o.state)
    case Some(ResourceState(name, _, _, _, _, _)) =>
      if env.parseId(o.target).Some? {
        var key := Key(Resource, env.parseId(o.target).value);
        if key in db.rows && db.rows[key].live {
          assert Targets(env, db.rows, o, key);
          RenameAllowed(env, db.rows, o, key, name);
        }
      }
    case _ =>
  }

  lemma {:induction false} CenterFaults(env: Env, db: DB, o: BundleOp, now: nat, nth: nat)
    requires o.kind == SupportCenter && Sound(db.rows)
    requires ApplyCenter(env, db, o.op, o.target, o.state, now).Err?
    ensures Fault(env, db, o, now, nth, ApplyCenter(env, db, o.op, o.target, o.state, now).error)
  {
    TargetNamed(env, db.rows, o);
    match env.decode(SupportCenter, o.state)
    case Some(CenterState(name, _)) =>
      if Named(db.rows, SupportCenter, o.target).Some? {
        RenameAllowed(env, db.rows, o, Key(SupportCenter, Named(db.rows, SupportCenter, o.target).value), name);
      }
    case _ =>
  }

  lemma {:induction false} ProjectFaults(env: Env, db: DB, o: BundleOp, now: nat, nth: nat)
    requires o.kind == Project && Sound(db.rows)
    requires ApplyProject(env, db, o.op, o.target, o.state, now).Err?
    ensures Fault(env, db, o, now, nth, ApplyProject(env, db, o.op, o.target, o.state, now).error)
  {
    TargetNamed(env, db.rows, o);
    match env.decode(Project, o.state)
    case Some(ProjectState(name, _, _)) =>
      if Named(db.rows, Project, o.target).Some? {
        RenameAllowed(env, db.rows, o, Key(Project, Named(db.rows, Project, o.target).value), name);
      }
    case _ =>
  }

  /** The error with which an operation is refused is true of it. */
  lemma {:induction false} ErrorsAreTrue(env: Env, db: DB, o: BundleOp, now: nat, nth: nat)
    requires o.kind != VO && Sound(db.rows) && ApplyOp(env, db, o, now, nth).Err?
    ensures Fault(env, db, o, now, nth, ApplyOp(env, db, o, now, nth).error)
  {
    match o.kind
    case Resource => ResourceFaults(env, db, o, now, nth);
    case SupportCenter => CenterFaults(env, db, o, now, nth);
    case Project => ProjectFaults(env, db, o, now, nth);
    case Bundle =>
    case _ => EntityFaults(env, db, o, now, nth);
  }

  // ---- the version guard and bundles ----

  /** What the guard of an update or deletion compares with: the version of the live row the target names,
      or of the live VO. */
  lemma {:induction false} VersionSeen(env: Env, db: DB, kind: Kind, target: string, version: nat)
    requires Sound(db.rows)
    ensures UpdatedAt(env, db, kind, target) == Some(version) <==>
      && target != "" && kind != Bundle
      && if kind == VO then target in db.vos && db.vos[target].version == version
         else
           exists key ::
             Targets(env, db.rows, BundleOp(kind, Update, target, Null), key) && db.rows[key].version == version
  {
    var o := BundleOp(kind, Update, target, Null);
    if kind !in {VO, Bundle, Resource} {
      TargetNamed(env, db.rows, o);
      if Named(db.rows, kind, target).Some? {
        assert Targets(env, db.rows, o, Key(kind, Named(db.rows, kind, target).value));
      }
    } else if kind == Resource && env.parseId(target).Some? {
      var key := Key(Resource, env.parseId(target).value);
      assert key in db.rows && db.rows[key].live ==> Targets(env, db.rows, o, key);
    }
  }

  // Every operation can be carried out on what the ones before it leave.
  ghost predicate AllAdmitted(env: Env, db: DB, ops: seq<BundleOp>, now: nat) {
    forall n :: 0 <= n < |ops| ==>
      ApplyOps(env, db, ops, n, now).Ok? && ApplyOp(env, ApplyOps(env, db, ops, n, now).value, ops[n], now, n).Ok?
  }

  lemma {:induction false} AllAdmittedIff(env: Env, db: DB, ops: seq<BundleOp>, now: nat)
    ensures ApplyOps(env, db, ops, |ops|, now).Ok? <==> AllAdmitted(env, db, ops, now)
  {
    hide ApplySingle;
    if ApplyOps(env, db, ops, |ops|, now).Ok? {
      forall n | 0 <= n < |ops|
        ensures ApplyOps(env, db, ops, n, now).Ok?
        ensures ApplyOp(env, ApplyOps(env, db, ops, n, now).value, ops[n], now, n).Ok?
      {
        PrefixApplies(env, db, ops, n + 1, |ops|, now);
      }
    }
    if AllAdmitted(env, db, ops, now) && ops != [] {
      var n := |ops| - 1;
      assert ApplyOps(env, db, ops, n, now).Ok?;
    }
  }

  lemma {:induction false} PrefixApplies(env: Env, db: DB, ops: seq<BundleOp>, m: nat, n: nat, now: nat)
    requires m <= n <= |ops| && ApplyOps(env, db, ops, n, now).Ok?
    ensures ApplyOps(env, db, ops, m, now).Ok?
  {
    hide ApplySingle;
    if m < n {
      PrefixApplies(env, db, ops, m, n - 1, now);
    }
  }

  /** The operations of a bundle are carried out one after the other, the first on the tables as they are and
      each next one on what the one before left; what the last leaves is what the bundle leaves. */
  lemma {:induction false} CarriedOutInOrder(env: Env, db: DB, ops: seq<BundleOp>, now: nat) returns (states: seq<DB>)
    requires ApplyOps(env, db, ops, |ops|, now).Ok?
    ensures |states| == |ops| + 1 && states[0] == db
    ensures ApplyOps(env, db, ops, |ops|, now) == Ok(states[|ops|])
    ensures forall n :: 0 <= n < |ops| ==> ApplyOp(env, states[n], ops[n], now, n) == Ok(states[n + 1])
  {
    hide ApplySingle;
    states := StatesUpTo(env, db, ops, |ops|, now);
  }

  lemma {:induction false} StatesUpTo(env: Env, db: DB, ops: seq<BundleOp>, m: nat, now: nat) returns (states: seq<DB>)
    requires m <= |ops| && ApplyOps(env, db, ops, m, now).Ok?
    ensures |states| == m + 1 && states[0] == db && ApplyOps(env, db, ops, m, now) == Ok(states[m])
    ensures forall n :: 0 <= n < m ==> ApplyOp(env, states[n], ops[n], now, n) == Ok(states[n + 1])
  {
    hide ApplySingle;
    if m == 0 {
      states := [db];
    } else {
      states := StatesUpTo(env, db, ops, m - 1, now);
      states := states + [ApplyOps(env, db, ops, m, now).value];
    }
  }

  /** A proposal is applied exactly when its target still has the version it branched from, if it is guarded,
      it has an operation, and each of its operations can be carried out on what the ones before leave. */
  lemma {:induction false} AppliedExactlyWhen(env: Env, db: DB, kind: Kind, op: Operation, target: string, state: Json,
                                              baseAt: Option<nat>, now: nat)
    ensures var ops := OpsOf(env, kind, op, target, state);
      Apply(env, db, kind, op, target, state, baseAt, now).Ok? <==>
        && (op != Create && baseAt.Some? ==> UpdatedAt(env, db, kind, target) == baseAt)
        && ops != [] && AllAdmitted(env, db, ops, now)
    ensures op != Create && baseAt.Some? && UpdatedAt(env, db, kind, target) != baseAt ==>
      Apply(env, db, kind, op, target, state, baseAt, now) == Err(StaleBase)
  {
    var ops := OpsOf(env, kind, op, target, state);
    AllAdmittedIff(env, db, ops, now);
    if kind != Bundle {
      OneOp(env, db, BundleOp(kind, op, target, state), now);
    }
  }

  // ---- ids the tables draw ----

  // No row of a table that numbers its own rows has an id that is still to come.
  ghost predicate Numbered(db: DB) {
    forall key :: key in db.rows && key.kind in {Facility, Site, ResourceGroup, Project} ==> key.id < db.next
  }

  lemma {:induction false} OpKeepsNumbered(env: Env, db: DB, o: BundleOp, now: nat, nth: nat)
    requires Numbered(db) && ApplyOp(env, db, o, now, nth).Ok?
    ensures Numbered(ApplyOp(env, db, o, now, nth).value)
  {
    match o.kind
    case SupportCenter => CenterKeepsNumbered(env, db, o, now);
    case Project => ProjectKeepsNumbered(env, db, o, now);
    case Resource =>
    case VO =>
    case Bundle =>
    case _ => EntityKeepsNumbered(env, db, o, now);
  }

  lemma {:induction false} EntityKeepsNumbered(env: Env, db: DB, o: BundleOp, now: nat)
    requires o.kind in {Facility, Site, ResourceGroup} && Numbered(db)
    requires ApplyEntity(env, db, o.kind, o.op, o.target, o.state, now).Ok?
    ensures Numbered(ApplyEntity(env, db, o.kind, o.op, o.target, o.state, now).value)
  {}

  lemma {:induction false} CenterKeepsNumbered(env: Env, db: DB, o: BundleOp, now: nat)
    requires Numbered(db) && ApplyCenter(env, db, o.op, o.target, o.state, now).Ok?
    ensures Numbered(ApplyCenter(env, db, o.op, o.target, o.state, now).value)
  {}

  lemma {:induction false} ProjectKeepsNumbered(env: Env, db: DB, o: BundleOp, now: nat)
    requires Numbered(db) && ApplyProject(env, db, o.op, o.target, o.state, now).Ok?
    ensures Numbered(ApplyProject(env, db, o.op, o.target, o.state, now).value)
  {}

  /** In every run the rows of facilities, sites, groups and projects get ids that were never used, deleted
      rows included; so no creation of one is refused over its id. */
  lemma {:induction false} IdsAreNeverReused(env: Env, w: World, events: seq<Event>, i: nat, o: BundleOp, now: nat,
                                             nth: nat)
    requires Numbered(w.db) && i <= |events| && o.kind in {Facility, Site, ResourceGroup, Project}
    ensures Numbered(At(env, w, events, i).db)
    ensures ApplyOp(env, At(env, w, events, i).db, o, now, nth) != Err(Table(DuplicateKey))
  {
    var inv := (d: DB) => Numbered(d);
    forall d, o, now, nth | inv(d) && ApplyOp(env, d, o, now, nth).Ok?
      ensures inv(ApplyOp(env, d, o, now, nth).value)
    {
      OpKeepsNumbered(env, d, o, now, nth);
    }
    forall t: World, e | inv(t.db) ensures inv(Step(env, t, e).db) {
      StepKeeps(env, inv, o => true, t, e);
    }
    KeptFrom(env, (t: World) => inv(t.db), w, events, 0, i);
  }
}
