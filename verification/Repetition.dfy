/**
 What an operation does that is carried out a second time on the tables it left: which operations can be
 repeated, and what that means for a bundle.
 */
module Repetition {
  import opened Wrappers
  import opened Json
  import opened Kinds
  import opened Contacts
  import opened Tables
  import opened Registry
  import opened RegistrySafety
  import opened Operations
  import opened References
  import VODocument
  import VOProposals
  import VOSafety

  // ---- creating again ----

  // The name an operation would give to what it creates or updates.
  function NameGiven(env: Env, o: BundleOp): string {
    if o.kind == VO then
      match VOProposals.ProposedName(o.state)
      case Some(name) => name
      case None => ""
    else
      match env.decode(o.kind, o.state)
      case Some(EntityState(name, _, _, _, _, _)) => name
      case Some(ResourceState(name, _, _, _, _, _)) => name
      case Some(CenterState(name, _)) => name
      case Some(ProjectState(name, _, _)) => name
      case _ => ""
  }

  // Something live has the name.
  ghost predicate IsTaken(db: DB, kind: Kind, name: string) {
    if kind == VO then name in db.vos else Named(db.rows, kind, name).Some?
  }

  // What was created or updated now has the name it was given.
  lemma {:induction false} CreatedIsTaken(env: Env, db: DB, o: BundleOp, now: nat, nth: nat)
    requires o.op == Create && ApplyOp(env, db, o, now, nth).Ok?
    ensures IsTaken(ApplyOp(env, db, o, now, nth).value, o.kind, NameGiven(env, o))
  {
    var after, name := ApplyOp(env, db, o, now, nth).value, NameGiven(env, o);
    match o.kind
    case VO =>
    case Bundle =>
    case Resource =>
      var id := env.decode(Resource, o.state).value.id;
      assert IsNamed(after.rows, Key(Resource, if id.Some? then id.value else env.mint(now, nth)), Resource, name);
    case SupportCenter => assert IsNamed(after.rows, Key(SupportCenter, env.genId(name)), SupportCenter, name);
    case Project =>
      match Named(db.rows, Project, name) {
        case Some(id) => assert IsNamed(after.rows, Key(Project, id), Project, name);
        case None => assert IsNamed(after.rows, Key(Project, db.next), Project, name);
      }
    case _ => assert IsNamed(after.rows, Key(o.kind, db.next), o.kind, name);
  }

  // Nothing but a project can be created under a name that is taken.
  lemma {:induction false} TakenNameIsRefused(env: Env, db: DB, o: BundleOp, now: nat, nth: nat)
    requires o.op == Create && o.kind != Project && IsTaken(db, o.kind, NameGiven(env, o))
    ensures ApplyOp(env, db, o, now, nth).Err?
  {}

  // ---- deleting again ----

  lemma {:induction false} BuriedIsGone(rows: Rows, kind: Kind, name: string)
    requires UniqueNames(rows)
    ensures BuriedByName(BuriedByName(rows, kind, name), kind, name) == BuriedByName(rows, kind, name)
  {
    var after := BuriedByName(rows, kind, name);
    forall key ensures !IsNamed(after, key, kind, name) {
      if IsNamed(rows, key, kind, name) {
        NamedIs(rows, key, kind, name);
      }
    }
  }

  lemma {:induction false} StillNoChildren(rows: Rows, kind: Kind, name: string)
    requires !HasChildren(rows, kind, name)
    ensures !HasChildren(BuriedByName(rows, kind, name), kind, name)
  {
    var after := BuriedByName(rows, kind, name);
    forall key ensures !IsChildOf(after, key, kind, name) {
      assert !IsChildOf(rows, key, kind, name);
    }
  }

  /** A deletion can always be repeated, and then changes nothing. */
  lemma {:induction false} DeletedTwice(env: Env, db: DB, o: BundleOp, now: nat, nth: nat, later: nat, again: nat)
    requires o.op == Delete && UniqueNames(db.rows) && ApplyOp(env, db, o, now, nth).Ok?
    ensures var after := ApplyOp(env, db, o, now, nth).value; ApplyOp(env, after, o, later, again) == Ok(after)
  {
    var after := ApplyOp(env, db, o, now, nth).value;
    match o.kind
    case VO => VODeletedTwice(env, db, o.target);
    case Bundle =>
    case Resource =>
    case SupportCenter =>
      BuriedIsGone(db.rows, SupportCenter, o.target);
      forall key ensures !UsesCenter(after.rows, key, o.target) {
        assert !UsesCenter(db.rows, key, o.target);
      }
    case Project => BuriedIsGone(db.rows, Project, o.target);
    case _ =>
      BuriedIsGone(db.rows, o.kind, o.target);
      StillNoChildren(db.rows, o.kind, o.target);
  }

  lemma {:induction false} VODeletedTwice(env: Env, db: DB, target: string)
    requires VOProposals.DeleteVO(VOEnvOf(env, db.rows), db.vos, target).Ok?
    ensures VOProposals.DeleteVO(VOEnvOf(env, db.rows), db.vos - {target}, target) == Ok(db.vos - {target})
  {
    assert (db.vos - {target}) - {target} == db.vos - {target};
  }

  // ---- updating again ----

  lemma {:induction false} SameNamed(rows: Rows, after: Rows, kind: Kind, name: string)
    requires UniqueNames(rows) && SameOfKind(rows, after, kind)
    ensures Named(after, kind, name) == Named(rows, kind, name)
  {
    match Named(rows, kind, name)
    case Some(id) =>
      assert IsNamed(after, Key(kind, id), kind, name);
      assert IsNamed(rows, Key(kind, Named(after, kind, name).value), kind, name);
      NamedIs(rows, Key(kind, Named(after, kind, name).value), kind, name);
    case None =>
      forall key ensures !IsNamed(after, key, kind, name) {
        assert !IsNamed(rows, key, kind, name);
      }
  }

  // The target keeps its name, or is not there any more.
  lemma {:induction false} ChangedAgain(rows: Rows, kind: Kind, target: string, content: Content, now: nat, later: nat)
    requires UniqueNames(rows) && ChangedByName(rows, kind, target, content, now).Ok?
    ensures var after := ChangedByName(rows, kind, target, content, now).value;
      && ChangedByName(after, kind, target, content, later).Ok?
      && (Named(after, kind, target).Some? <==> Named(rows, kind, target).Some? && content.name == target)
      && (Named(after, kind, target).Some? ==>
            Named(after, kind, target) == Named(rows, kind, target)
            && after[Key(kind, Named(after, kind, target).value)].content == content)
  {
    var after := ChangedByName(rows, kind, target, content, now).value;
    if Named(rows, kind, target).Some? {
      var key := Key(kind, Named(rows, kind, target).value);
      forall other | IsNamed(after, other, kind, target) ensures other == key {
        if other != key {
          NamedIs(rows, other, kind, target);
        }
      }
      if content.name == target {
        assert IsNamed(after, key, kind, target);
      }
    }
  }

  // Which updates can be repeated.
  ghost predicate UpdateRepeats(env: Env, o: BundleOp) {
    match env.decode(o.kind, o.state)
    case Some(EntityState(name, _, institution, _, _, _)) =>
      o.kind == Facility && institution == "" ==> name == o.target
    case Some(CenterState(name, _)) => name == o.target
    case _ => true
  }

  lemma {:induction false} EntityUpdatedTwice(env: Env, db: DB, o: BundleOp, now: nat, later: nat)
    requires o.op == Update && o.kind in {Facility, Site, ResourceGroup} && Sound(db.rows)
    requires ApplyEntity(env, db, o.kind, Update, o.target, o.state, now).Ok?
    ensures var after := ApplyEntity(env, db, o.kind, Update, o.target, o.state, now).value;
      ApplyEntity(env, after, o.kind, Update, o.target, o.state, later).Ok? <==> UpdateRepeats(env, o)
  {
    var after := ApplyEntity(env, db, o.kind, Update, o.target, o.state, now).value;
    var p := env.decode(o.kind, o.state).value;
    var content := Content(p.name, ParentId(db, o.kind, p.parent).value, p.institution, p.center, {}, p.data);
    if ParentKind(o.kind).Some? {
      EntityTouchesItsKind(env, db, o.kind, Update, o.target, o.state, now, ParentKind(o.kind).value);
      SameNamed(db.rows, after.rows, ParentKind(o.kind).value, p.parent);
    }
    ChangedAgain(db.rows, o.kind, o.target, content, now, later);
  }

  lemma {:induction false} ResourceUpdatedTwice(env: Env, db: DB, o: BundleOp, now: nat, nth: nat, later: nat,
                                                again: nat)
    requires o.op == Update && Sound(db.rows) && ApplyResource(env, db, Update, o.target, o.state, now, nth).Ok?
    ensures var after := ApplyResource(env, db, Update, o.target, o.state, now, nth).value;
      ApplyResource(env, after, Update, o.target, o.state, later, again).Ok?
  {
    var after := ApplyResource(env, db, Update, o.target, o.state, now, nth).value;
    ResourceTouchesItsKind(env, db, Update, o.target, o.state, now, nth, ResourceGroup);
    SameNamed(db.rows, after.rows, ResourceGroup, env.decode(Resource, o.state).value.parent);
  }

  lemma {:induction false} CenterUpdatedTwice(env: Env, db: DB, o: BundleOp, now: nat, later: nat)
    requires o.op == Update && o.kind == SupportCenter && Sound(db.rows)
    requires ApplyCenter(env, db, Update, o.target, o.state, now).Ok?
    ensures var after := ApplyCenter(env, db, Update, o.target, o.state, now).value;
      ApplyCenter(env, after, Update, o.target, o.state, later).Ok? <==> NameGiven(env, o) == o.target
  {
    var after := ApplyCenter(env, db, Update, o.target, o.state, now).value;
    var name := env.decode(SupportCenter, o.state).value.name;
    var content := Content(name, 0, "", "", {}, env.decode(SupportCenter, o.state).value.data);
    var rows := ChangedByName(db.rows, SupportCenter, o.target, content, now).value;
    ChangedAgain(db.rows, SupportCenter, o.target, content, now, later);
    if name != o.target {
      forall key ensures !IsNamed(after.rows, key, SupportCenter, o.target) {
        assert !IsNamed(rows, key, SupportCenter, o.target);
      }
    }
  }

  lemma {:induction false} ProjectUpdatedTwice(env: Env, db: DB, o: BundleOp, now: nat, later: nat)
    requires o.op == Update && Sound(db.rows) && ApplyProject(env, db, Update, o.target, o.state, now).Ok?
    ensures var after := ApplyProject(env, db, Update, o.target, o.state, now).value;
      ApplyProject(env, after, Update, o.target, o.state, later).Ok?
  {
    var p := env.decode(Project, o.state).value;
    ChangedAgain(db.rows, Project, o.target, Content(p.name, 0, "", "", p.uses, p.data), now, later);
  }

  lemma {:induction false} ProjectCreatedTwice(env: Env, db: DB, o: BundleOp, now: nat, later: nat)
    requires o.op == Create && Sound(db.rows) && ApplyProject(env, db, Create, o.target, o.state, now).Ok?
    ensures var after := ApplyProject(env, db, Create, o.target, o.state, now).value;
      ApplyProject(env, after, Create, o.target, o.state, later).Ok?
  {
    CreatedIsTaken(env, db, BundleOp(Project, Create, o.target, o.state), now, 0);
  }

  // ---- updating a VO again ----

  // The document as it is checked.
  function ToCheck(doc: Fields, cur: Fields): Fields {
    VOProposals.WithID(VOProposals.WithoutNulls(doc, cur), cur)
  }

  // `read` is what the file says once `doc` was checked against `cur` and written.
  ghost predicate WasWritten(env: VOProposals.VOEnv, vos: VOProposals.VOs, name: string, doc: Fields, cur: Fields,
                             read: Fields)
  {
    var checked := VOProposals.CheckDoc(env, vos, name, ToCheck(doc, cur), cur);
    && checked.Ok? && read.Keys == checked.value.Keys
    && forall k :: k in read ==> JsonEqual(read[k], checked.value[k])
  }

  // A null is stored after the update exactly when it was before.
  lemma {:induction false} SameNulls(env: VOProposals.VOEnv, vos: VOProposals.VOs, name: string,
                                     doc: Fields, cur: Fields, read: Fields, k: string)
    requires WasWritten(env, vos, name, doc, cur, read) && k != "ID" && k in doc && doc[k] == Null
    ensures VOProposals.Removes(doc, read, k) <==> VOProposals.Removes(doc, cur, k)
  {
    var final := VOProposals.CheckDoc(env, vos, name, ToCheck(doc, cur), cur).value;
    VOSafety.CheckKeepsOtherKeys(env, vos, name, ToCheck(doc, cur), cur, k);
    if !VOProposals.Removes(doc, cur, k) {
      assert ToCheck(doc, cur)[k] == Null;
      assert k != "ParentVO";
      assert Canon(read[k]) == Canon(Null);
    }
  }

  lemma {:induction false} SameToCheck(env: VOProposals.VOEnv, vos: VOProposals.VOs, name: string,
                                       doc: Fields, cur: Fields, read: Fields)
    requires WasWritten(env, vos, name, doc, cur, read)
    ensures var d, d' := ToCheck(doc, cur), ToCheck(doc, read);
      d'.Keys == d.Keys && forall k :: k in d && k != "ID" ==> d'[k] == d[k]
  {
    var d, d' := ToCheck(doc, cur), ToCheck(doc, read);
    forall k ensures k in d' <==> k in d {
      if k == "ID" {
        VOSafety.CheckKeepsOtherKeys(env, vos, name, d, cur, "ID");
      } else if k in doc && doc[k] == Null {
        SameNulls(env, vos, name, doc, cur, read, k);
      }
    }
  }

  lemma {:induction false} SameParent(env: VOProposals.VOEnv, vos: VOProposals.VOs, name: string,
                                      doc: Fields, cur: Fields, read: Fields)
    requires WasWritten(env, vos, name, doc, cur, read)
    ensures "ParentVO" in ToCheck(doc, cur) ==>
      var parent := VOProposals.ParentName(ToCheck(doc, cur)); parent != "" && VOProposals.ParentName(read) == parent
  {
    VOSafety.ParentNameUpToCanon(read, VOProposals.CheckDoc(env, vos, name, ToCheck(doc, cur), cur).value);
  }

  lemma {:induction false} CheckOfStoredParent(env: VOProposals.VOEnv, vos: VOProposals.VOs, name: string,
                                               doc: Fields, prev: Fields)
    requires "ParentVO" in doc ==>
      VOProposals.ParentName(doc) != "" && VOProposals.ParentName(prev) == VOProposals.ParentName(doc)
    ensures VOProposals.CheckDoc(env, vos, name, doc, prev).Ok? <==>
      env.contactsOK(VOProposals.At(doc, "Contacts"), VOProposals.At(prev, "Contacts"))
  {}

  // A second look at the same document, now that the file says what it asked for.
  lemma {:induction false} CheckedAgain(env: VOProposals.VOEnv, vos: VOProposals.VOs, after: VOProposals.VOs,
                                        name: string,
                                        doc: Fields, cur: Fields, read: Fields)
    requires WasWritten(env, vos, name, doc, cur, read)
    ensures VOProposals.CheckDoc(env, after, name, ToCheck(doc, read), read).Ok? <==>
      env.contactsOK(VOProposals.At(doc, "Contacts"), VOProposals.At(read, "Contacts"))
  {
    SameToCheck(env, vos, name, doc, cur, read);
    SameParent(env, vos, name, doc, cur, read);
    CheckOfStoredParent(env, after, name, ToCheck(doc, read), read);
    assert VOProposals.At(ToCheck(doc, read), "Contacts") == VOProposals.At(doc, "Contacts");
  }

  lemma {:induction false} VOUpdatedTwice(env: VOProposals.VOEnv, vos: VOProposals.VOs, target: string, doc: Fields,
                                          now: nat, later: nat)
    requires VOProposals.UpdateVO(env, vos, target, target, doc, now).Ok?
    ensures var after := VOProposals.UpdateVO(env, vos, target, target, doc, now).value;
      && target in after
      && (VOProposals.UpdateVO(env, after, target, target, doc, later).Ok? <==>
            env.contactsOK(VOProposals.At(doc, "Contacts"), VOSafety.ContactsIn(after[target])))
  {
    var cur := VODocument.DocFromRaw(vos[target].raw).value;
    var final := VOProposals.CheckDoc(env, vos, target, ToCheck(doc, cur), cur).value;
    var after := VOProposals.UpdateVO(env, vos, target, target, doc, now).value;
    VOSafety.WrittenDoc(vos[target].raw, final);
    CheckedAgain(env, vos, after, target, doc, cur, VODocument.DocFromRaw(after[target].raw).value);
  }

  // ---- any operation ----

  // Whether an operation that was carried out can be carried out again on the tables it left.
  ghost predicate Repeats(env: Env, after: DB, o: BundleOp) {
    match o.op
    case Create => o.kind == Project
    case Delete => true
    case Update => if o.kind == VO then VOUpdateRepeats(env, after, o) else UpdateRepeats(env, o)
  }

  // The contacts it asks for pass the check against those it wrote.
  ghost predicate VOUpdateRepeats(env: Env, after: DB, o: BundleOp) {
    && VOProposals.ProposedDoc(o.state).Some? && o.target in after.vos
    && env.voContactsOK(VOProposals.At(VOProposals.ProposedDoc(o.state).value, "Contacts"),
                        VOSafety.ContactsIn(after.vos[o.target]))
  }

  lemma {:induction false} UpdatedTwice(env: Env, db: DB, o: BundleOp, now: nat, nth: nat, later: nat, again: nat)
    requires Sound(db.rows) && o.op == Update && ApplyOp(env, db, o, now, nth).Ok?
    ensures var after := ApplyOp(env, db, o, now, nth).value;
      ApplyOp(env, after, o, later, again).Ok? <==> Repeats(env, after, o)
  {
    match o.kind
    case Resource => ResourceUpdatedTwice(env, db, o, now, nth, later, again);
    case SupportCenter => CenterUpdatedTwice(env, db, o, now, later);
    case Project => ProjectUpdatedTwice(env, db, o, now, later);
    case VO =>
      VOUpdatedTwice(VOEnvOf(env, db.rows), db.vos, o.target, VOProposals.ProposedDoc(o.state).value, now, later);
    case Bundle =>
    case _ => EntityUpdatedTwice(env, db, o, now, later);
  }

  /** An operation that was carried out can be carried out again on the tables it left exactly when it is
      a deletion, which then changes nothing; the creation of a project, which overwrites; or an update
      that does not need the name it took away: any but the renaming of a support center, or of a facility
      without an institution.  A second update of a VO has its contacts checked against its own. */
  lemma {:induction false} CarriedOutTwice(env: Env, db: DB, o: BundleOp, now: nat, nth: nat, later: nat, again: nat)
    requires Sound(db.rows) && ApplyOp(env, db, o, now, nth).Ok?
    ensures var after := ApplyOp(env, db, o, now, nth).value;
      && (ApplyOp(env, after, o, later, again).Ok? <==> Repeats(env, after, o))
      && (o.op == Delete ==> ApplyOp(env, after, o, later, again) == Ok(after))
  {
    var after := ApplyOp(env, db, o, now, nth).value;
    match o.op
    case Update => UpdatedTwice(env, db, o, now, nth, later, again);
    case Delete => DeletedTwice(env, db, o, now, nth, later, again);
    case Create =>
      CreatedIsTaken(env, db, o, now, nth);
      if o.kind == Project {
        ProjectCreatedTwice(env, db, o, now, later);
      } else {
        TakenNameIsRefused(env, after, o, later, again);
      }
  }

  // ---- bundles ----

  // The operation may take the name away from what is live under it.
  predicate Frees(o: BundleOp, kind: Kind, name: string) {
    o.kind == kind && o.op != Create && (kind == Resource || o.target == name)
  }

  ghost predicate StaysTaken(db: DB, kind: Kind, name: string) {
    Sound(db.rows) && IsTaken(db, kind, name)
  }

  // A row is written only by an operation that may take its name away.
  lemma {:induction false} RowIsLeft(env: Env, db: DB, o: BundleOp, now: nat, nth: nat, kind: Kind, name: string)
    requires StaysTaken(db, kind, name) && kind !in {VO, Project, Bundle} && name != "" && !Frees(o, kind, name)
    requires ApplyOp(env, db, o, now, nth).Ok?
    ensures var key, after := Key(kind, Named(db.rows, kind, name).value), ApplyOp(env, db, o, now, nth).value.rows;
      key in after && after[key].live && after[key].content.name == name
  {
    var key := Key(kind, Named(db.rows, kind, name).value);
    if o.kind == SupportCenter {
      CenterOpLeavesName(env, db, o, now, key);
    } else if o.kind != kind {
      OtherKindsUntouched(env, db, o.kind, o.op, o.target, o.state, now, nth, kind);
    } else if kind == Resource {
      ResourceCreateLeavesOthers(env, db, o, now, nth, key);
    } else {
      EntityLeavesOthers(env, db, o, now, key);
    }
  }

  lemma {:induction false} CenterOpLeavesName(env: Env, db: DB, o: BundleOp, now: nat, key: Key)
    requires key in db.rows && db.rows[key].live && db.rows[key].content.name != ""
    requires !Frees(o, key.kind, db.rows[key].content.name)
    requires o.kind == SupportCenter && ApplyCenter(env, db, o.op, o.target, o.state, now).Ok?
    ensures var after := ApplyCenter(env, db, o.op, o.target, o.state, now).value.rows;
      key in after && after[key].live && after[key].content.name == db.rows[key].content.name
  {
    if key.kind == SupportCenter {
      CenterOpKeepsRow(env, db, o, now, key);
    }
  }

  lemma {:induction false} ResourceCreateLeavesOthers(env: Env, db: DB, o: BundleOp, now: nat, nth: nat, key: Key)
    requires o.op == Create && key in db.rows && db.rows[key].live
    requires ApplyResource(env, db, Create, o.target, o.state, now, nth).Ok?
    ensures var after := ApplyResource(env, db, Create, o.target, o.state, now, nth).value.rows;
      key in after && after[key] == db.rows[key]
  {}

  lemma {:induction false} OpLeavesTaken(env: Env, db: DB, o: BundleOp, now: nat, nth: nat, kind: Kind, name: string)
    requires StaysTaken(db, kind, name) && kind !in {Project, Bundle} && name != "" && !Frees(o, kind, name)
    requires ApplyOp(env, db, o, now, nth).Ok?
    ensures StaysTaken(ApplyOp(env, db, o, now, nth).value, kind, name)
  {
    var after := ApplyOp(env, db, o, now, nth).value;
    SingleRowStep(env, db, o.kind, o.op, o.target, o.state, now, nth);
    if kind == VO {
      VOIsLeft(env, db, o, now, nth, name);
    } else {
      RowIsLeft(env, db, o, now, nth, kind, name);
      assert IsNamed(after.rows, Key(kind, Named(db.rows, kind, name).value), kind, name);
    }
  }

  lemma {:induction false} VOIsLeft(env: Env, db: DB, o: BundleOp, now: nat, nth: nat, name: string)
    requires name in db.vos && !(o.kind == VO && o.op == Delete && o.target == name)
      && ApplyOp(env, db, o, now, nth).Ok?
    ensures name in ApplyOp(env, db, o, now, nth).value.vos
  {
    if o.kind != VO {
      OnlyVOsChangeVOs(env, db, o.kind, o.op, o.target, o.state, now, nth);
    }
  }

  // Operation i creates something other than a project, and no operation may take its name away.
  ghost predicate CreatesForGood(env: Env, ops: seq<BundleOp>, i: nat) {
    && i < |ops| && ops[i].op == Create && ops[i].kind != Project && NameGiven(env, ops[i]) != ""
    && forall k :: 0 <= k < |ops| ==> !Frees(ops[k], ops[i].kind, NameGiven(env, ops[i]))
  }

  // From when the name is taken it stays so.
  lemma {:induction false} TakenSince(env: Env, db: DB, ops: seq<BundleOp>, m: nat, n: nat, now: nat, kind: Kind,
                                      name: string)
    requires m <= n <= |ops| && kind !in {Project, Bundle} && name != "" && ApplyOps(env, db, ops, n, now).Ok?
    requires forall k :: 0 <= k < |ops| ==> !Frees(ops[k], kind, name)
    requires ApplyOps(env, db, ops, m, now).Ok? && StaysTaken(ApplyOps(env, db, ops, m, now).value, kind, name)
    ensures StaysTaken(ApplyOps(env, db, ops, n, now).value, kind, name)
  {
    var inv := d => StaysTaken(d, kind, name);
    var allowed := o => !Frees(o, kind, name);
    forall d, o, t, nth | inv(d) && allowed(o)
      && ApplyOp(env, d, o, t, nth).Ok? ensures inv(ApplyOp(env, d, o, t, nth).value) {
      OpLeavesTaken(env, d, o, t, nth, kind, name);
    }
    OpsKeep(env, inv, allowed, db, ops, m, n, now);
  }

  lemma {:induction false} PrefixApplies(env: Env, db: DB, ops: seq<BundleOp>, m: nat, n: nat, now: nat)
    requires m <= n <= |ops| && ApplyOps(env, db, ops, n, now).Ok?
    ensures ApplyOps(env, db, ops, m, now).Ok?
    decreases n
  {
    hide ApplySingle;
    if m < n {
      PrefixApplies(env, db, ops, m, n - 1, now);
    }
  }

  lemma NoBundleInside(env: Env, db: DB, o: BundleOp, now: nat, nth: nat)
    requires ApplyOp(env, db, o, now, nth).Ok?
    ensures o.kind != Bundle
  {}

  lemma {:induction false} TakenAtTheEnd(env: Env, db: DB, ops: seq<BundleOp>, i: nat, now: nat)
    requires Healthy(env, db) && CreatesForGood(env, ops, i) && ApplyOps(env, db, ops, |ops|, now).Ok?
    ensures ops[i].kind != Bundle
    ensures StaysTaken(ApplyOps(env, db, ops, |ops|, now).value, ops[i].kind, NameGiven(env, ops[i]))
  {
    hide ApplySingle;
    PrefixApplies(env, db, ops, i + 1, |ops|, now);
    PrefixApplies(env, db, ops, i, i + 1, now);
    OpsStep(env, db, ops, i + 1, now);
    NoBundleInside(env, ApplyOps(env, db, ops, i, now).value, ops[i], now, i);
    CreatedIsTaken(env, ApplyOps(env, db, ops, i, now).value, ops[i], now, i);
    TakenSince(env, db, ops, i + 1, |ops|, now, ops[i].kind, NameGiven(env, ops[i]));
  }

  /** A bundle that creates something other than a project, and that does not itself update or delete what
      has that name, cannot be carried out twice: the second time the name is taken. */
  lemma {:induction false} CreatingBundleRunsOnce(env: Env, db: DB, ops: seq<BundleOp>, i: nat, now: nat, later: nat)
    requires Healthy(env, db) && CreatesForGood(env, ops, i) && ApplyOps(env, db, ops, |ops|, now).Ok?
    ensures ApplyOps(env, ApplyOps(env, db, ops, |ops|, now).value, ops, |ops|, later).Err?
  {
    TakenAtTheEnd(env, db, ops, i, now);
    TakenFromTheStart(env, ApplyOps(env, db, ops, |ops|, now).value, ops, i, later);
  }

  lemma {:induction false} TakenFromTheStart(env: Env, db: DB, ops: seq<BundleOp>, i: nat, now: nat)
    requires CreatesForGood(env, ops, i) && ops[i].kind != Bundle
    requires StaysTaken(db, ops[i].kind, NameGiven(env, ops[i]))
    ensures ApplyOps(env, db, ops, |ops|, now).Err?
  {
    hide ApplySingle;
    if ApplyOps(env, db, ops, |ops|, now).Ok? {
      PrefixApplies(env, db, ops, i + 1, |ops|, now);
      PrefixApplies(env, db, ops, i, i + 1, now);
      TakenSince(env, db, ops, 0, i, now, ops[i].kind, NameGiven(env, ops[i]));
      TakenNameIsRefused(env, ApplyOps(env, db, ops, i, now).value, ops[i], now, i);
    }
  }

  // Rows have only been deleted since.
  ghost predicate Shrunk(db: DB, after: DB) {
    && after.rows.Keys == db.rows.Keys
    && (forall key :: key in db.rows ==> after.rows[key] in {db.rows[key], db.rows[key].(live := false)})
    && (forall n :: n in after.vos ==> n in db.vos && after.vos[n] == db.vos[n])
  }

  // The deletion is done: there is nothing left for it to delete, and nothing to keep it from doing so.
  ghost predicate Done(env: Env, db: DB, o: BundleOp) {
    && o.op == Delete && UniqueNames(db.rows)
    && forall now, nth :: ApplyOp(env, db, o, now, nth) == Ok(db)
  }

  lemma {:induction false} DeletionShrinks(env: Env, db: DB, o: BundleOp, now: nat, nth: nat)
    requires o.op == Delete && ApplyOp(env, db, o, now, nth).Ok?
    ensures Shrunk(db, ApplyOp(env, db, o, now, nth).value)
  {}

  lemma {:induction false} NothingReturns(db: DB, after: DB, kind: Kind, name: string)
    requires Shrunk(db, after) && UniqueNames(after.rows) && BuriedByName(db.rows, kind, name) == db.rows
    ensures BuriedByName(after.rows, kind, name) == after.rows
  {
    forall key ensures !IsNamed(after.rows, key, kind, name) {
      if IsNamed(after.rows, key, kind, name) {
        assert IsNamed(db.rows, key, kind, name);
        assert false;
      }
    }
  }

  lemma {:induction false} DoneStaysDone(env: Env, db: DB, after: DB, o: BundleOp, now: nat, nth: nat)
    requires Done(env, db, o) && Shrunk(db, after) && UniqueNames(after.rows)
    ensures ApplyOp(env, after, o, now, nth) == Ok(after)
  {
    assert ApplyOp(env, db, o, now, nth) == Ok(db);
    match o.kind
    case VO =>
      VODeletionStays(env, db, after, o.target);
    case Bundle =>
    case Resource =>
    case SupportCenter =>
      NothingReturns(db, after, SupportCenter, o.target);
      forall key ensures !UsesCenter(after.rows, key, o.target) {
        assert !UsesCenter(db.rows, key, o.target);
      }
    case Project => NothingReturns(db, after, Project, o.target);
    case _ =>
      NothingReturns(db, after, o.kind, o.target);
      forall key ensures !IsChildOf(after.rows, key, o.kind, o.target) {
        assert !IsChildOf(db.rows, key, o.kind, o.target);
      }
  }

  lemma {:induction false} VODeletionStays(env: Env, db: DB, after: DB, target: string)
    requires Shrunk(db, after)
    requires VOProposals.DeleteVO(VOEnvOf(env, db.rows), db.vos, target) == Ok(db.vos)
    ensures VOProposals.DeleteVO(VOEnvOf(env, after.rows), after.vos, target) == Ok(after.vos)
  {
    assert !VOInUse(db.rows, target);
    assert !VOInUse(after.rows, target);
    assert target !in db.vos - {target};
    assert after.vos - {target} == after.vos;
  }

  lemma {:induction false} DeletionsAreDone(env: Env, db: DB, ops: seq<BundleOp>, n: nat, now: nat)
    requires n <= |ops| && Healthy(env, db) && ApplyOps(env, db, ops, n, now).Ok?
    requires forall k :: 0 <= k < |ops| ==> ops[k].op == Delete
    ensures forall k :: 0 <= k < n ==> Done(env, ApplyOps(env, db, ops, n, now).value, ops[k])
  {
    if n > 0 {
      var before, after := ApplyOps(env, db, ops, n - 1, now).value, ApplyOps(env, db, ops, n, now).value;
      DeletionsAreDone(env, db, ops, n - 1, now);
      OpsStep(env, db, ops, n - 1, now);
      OpsStep(env, db, ops, n, now);
      DeletionShrinks(env, before, ops[n - 1], now, n - 1);
      forall k, t, nth | 0 <= k < n ensures ApplyOp(env, after, ops[k], t, nth) == Ok(after) {
        if k < n - 1 {
          DoneStaysDone(env, before, after, ops[k], t, nth);
        } else {
          DeletedTwice(env, before, ops[k], now, k, t, nth);
        }
      }
    }
  }

  lemma {:induction false} DoneOpsChangeNothing(env: Env, db: DB, ops: seq<BundleOp>, n: nat, now: nat)
    requires n <= |ops| && forall k :: 0 <= k < |ops| ==> Done(env, db, ops[k])
    ensures ApplyOps(env, db, ops, n, now) == Ok(db)
  {
    if n > 0 {
      DoneOpsChangeNothing(env, db, ops, n - 1, now);
      assert Done(env, db, ops[n - 1]);
    }
  }

  /** A bundle of deletions can be carried out twice; the second time changes nothing. */
  lemma {:induction false} DeletingBundleRunsTwice(env: Env, db: DB, ops: seq<BundleOp>, now: nat, later: nat)
    requires Healthy(env, db) && ApplyOps(env, db, ops, |ops|, now).Ok?
    requires forall k :: 0 <= k < |ops| ==> ops[k].op == Delete
    ensures var after := ApplyOps(env, db, ops, |ops|, now).value; ApplyOps(env, after, ops, |ops|, later) == Ok(after)
  {
    DeletionsAreDone(env, db, ops, |ops|, now);
    DoneOpsChangeNothing(env, ApplyOps(env, db, ops, |ops|, now).value, ops, |ops|, later);
  }
}
