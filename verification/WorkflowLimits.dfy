/**
 Where the stale-base guard does not reach: contacts handed over while a proposal is pending, and
 proposals without a base.
 */
module WorkflowLimits {
  import opened Wrappers
  import opened Json
  import opened Kinds
  import opened Contacts
  import opened ContactSlots
  import opened Tables
  import opened Registry
  import opened RegistrySafety
  import opened Operations
  import opened References
  import opened Repetition
  import opened Workflow
  import opened WorkflowSafety
  import VOParents
  import VOProposals

  // ---- contacts are not part of the version ----

  // An operation that replaces the contacts filed under its target, whether or not it writes that row: a
  // create does it too, to whatever entity it gives as its target.
  predicate Displaces(o: BundleOp, r: ContactRow) {
    o.kind in {Facility, Site, ResourceGroup} && o.op != Delete && o.kind == r.kind && o.target == r.entity
  }

  lemma {:induction false} EntityOnContact(env: Env, db: DB, o: BundleOp, now: nat, n: nat)
    requires o.kind in {Facility, Site, ResourceGroup} && n < |db.contacts|
    requires ApplyEntity(env, db, o.kind, o.op, o.target, o.state, now).Ok?
    ensures var r, after := db.contacts[n], ApplyEntity(env, db, o.kind, o.op, o.target, o.state, now).value.contacts;
      n < |after| && after[n] == if Displaces(o, r) then r.(live := false) else r
  {}

  lemma {:induction false} OthersLeaveContacts(env: Env, db: DB, o: BundleOp, now: nat, nth: nat)
    requires o.kind !in {Facility, Site, ResourceGroup} && ApplyOp(env, db, o, now, nth).Ok?
    ensures ApplyOp(env, db, o, now, nth).value.contacts == db.contacts
  {}

  // One of the first m operations does.
  ghost predicate OneDisplaces(ops: seq<BundleOp>, m: nat, r: ContactRow)
    requires m <= |ops|
  {
    exists k :: 0 <= k < m && Displaces(ops[k], r)
  }

  lemma {:induction false} OneMoreDisplaces(ops: seq<BundleOp>, m: nat, r: ContactRow)
    requires 0 < m <= |ops|
    ensures OneDisplaces(ops, m, r) <==> OneDisplaces(ops, m - 1, r) || Displaces(ops[m - 1], r)
  {}

  // The contact is as the first m operations leave it.
  ghost predicate ContactAfter(ops: seq<BundleOp>, m: nat, n: nat, r: ContactRow, db: DB) {
    m <= |ops| && n < |db.contacts| && db.contacts[n] == if OneDisplaces(ops, m, r) then r.(live := false) else r
  }

  lemma {:induction false} NextOpOnContact(env: Env, db: DB, ops: seq<BundleOp>, m: nat, now: nat, n: nat,
                                           r: ContactRow)
    requires m < |ops| && ContactAfter(ops, m, n, r, db) && ApplyOp(env, db, ops[m], now, m).Ok?
    ensures ContactAfter(ops, m + 1, n, r, ApplyOp(env, db, ops[m], now, m).value)
  {
    OneMoreDisplaces(ops, m + 1, r);
    if ops[m].kind in {Facility, Site, ResourceGroup} {
      EntityOnContact(env, db, ops[m], now, n);
    } else {
      OthersLeaveContacts(env, db, ops[m], now, m);
    }
  }

  lemma {:induction false} OpsOnContact(env: Env, db: DB, ops: seq<BundleOp>, now: nat, n: nat)
    requires n < |db.contacts| && ApplyOps(env, db, ops, |ops|, now).Ok?
    ensures ContactAfter(ops, |ops|, n, db.contacts[n], ApplyOps(env, db, ops, |ops|, now).value)
  {
    var r := db.contacts[n];
    var inv := (m: nat, d: DB) => ContactAfter(ops, m, n, r, d);
    forall m: nat, d | m < |ops| && inv(m, d) && ApplyOp(env, d, ops[m], now, m).Ok?
      ensures inv(m + 1, ApplyOp(env, d, ops[m], now, m).value)
    {
      NextOpOnContact(env, d, ops, m, now, n, r);
    }
    OpsLead(env, inv, db, ops, |ops|, now);
  }

  /** A contact is lost by applying a proposal, a bundle or not, exactly when one of its operations creates
      or updates a facility, site or group with the contact's entity as the target. */
  lemma {:induction false} ContactIsLost(env: Env, db: DB, kind: Kind, op: Operation, target: string, state: Json,
                                         baseAt: Option<nat>, now: nat, n: nat)
    requires n < |db.contacts| && db.contacts[n].live && Apply(env, db, kind, op, target, state, baseAt, now).Ok?
    ensures var after := Apply(env, db, kind, op, target, state, baseAt, now).value.contacts;
      var ops := OpsOf(env, kind, op, target, state);
      && n < |after|
      && (!after[n].live <==> OneDisplaces(ops, |ops|, db.contacts[n]))
      && after[n] == db.contacts[n].(live := after[n].live)
  {
    var ops := OpsOf(env, kind, op, target, state);
    ApplyIsOps(env, db, kind, op, target, state, baseAt, now);
    OpsOnContact(env, db, ops, now, n);
  }

  /** A create whose target names a live entity strips that entity of all its contacts, and leaves its row
      and its version as they were. */
  lemma {:induction false} CreateStripsItsTarget(env: Env, db: DB, kind: Kind, target: string, state: Json, now: nat,
                                                 id: int)
    requires kind in {Facility, Site, ResourceGroup} && Sound(db.rows) && Named(db.rows, kind, target) == Some(id)
    requires ApplyEntity(env, db, kind, Create, target, state, now).Ok?
    ensures var after := ApplyEntity(env, db, kind, Create, target, state, now).value;
      && Named(after.rows, kind, target) == Some(id) && after.rows[Key(kind, id)] == db.rows[Key(kind, id)]
      && forall i :: 0 <= i < |after.contacts| ==> !Of(after.contacts[i], kind, target)
  {
    var after, p := ApplyEntity(env, db, kind, Create, target, state, now).value, env.decode(kind, state).value;
    EntityStep(env, db, kind, Create, target, state, now);
    NamedIs(after.rows, Key(kind, id), kind, target);
    assert p.name != target;
    WrittenBelongs(kind, p.name, p.contacts);
  }

  // ---- hand-offs accepted while a proposal is pending ----

  // Request i was accepted.
  ghost function HandedOver(env: Env, w: World, i: nat): World {
    Step(env, w, Decide(i, true))
  }

  // A waiting request for a contact of an entity that keeps a list.
  predicate WaitsForContact(w: World, i: nat) {
    i < |w.db.handOffs| && w.db.handOffs[i].decision == Waiting && w.db.handOffs[i].kind != Resource
  }

  lemma {:induction false} HandOverAddsHolder(env: Env, w: World, i: nat)
    requires WaitsForContact(w, i)
    ensures var n, h, handed := |w.db.contacts|, w.db.handOffs[i], HandedOver(env, w, i).db;
      && |handed.contacts| == n + 1 && handed.contacts[n].id == h.id
      && Holds(handed.contacts[n], h.kind, h.entity, h.ctype, h.rank)
  {
    var h := w.db.handOffs[i];
    SlotHasOneHolder(w.db.contacts, h.kind, h.entity, h.ctype, h.rank, h.name, h.id);
  }

  lemma {:induction false} HandOverLeavesTables(env: Env, w: World, i: nat)
    ensures var handed := HandedOver(env, w, i);
      && handed.db.rows == w.db.rows && handed.db.vos == w.db.vos && handed.db.next == w.db.next
      && handed.proposals == w.proposals
  {}

  /** Accepting a hand-off changes no row and moves no version, so no pending proposal becomes stale by it. */
  lemma {:induction false} HandOffMovesNoVersion(env: Env, w: World, i: nat, kind: Kind, target: string)
    ensures UpdatedAt(env, HandedOver(env, w, i).db, kind, target) == UpdatedAt(env, w.db, kind, target)
  {
    HandOverLeavesTables(env, w, i);
    SameUpdatedAt(env, w.db, HandedOver(env, w, i).db, kind, target);
  }

  lemma SameUpdatedAt(env: Env, a: DB, b: DB, kind: Kind, target: string)
    requires a.rows == b.rows && a.vos == b.vos
    ensures UpdatedAt(env, a, kind, target) == UpdatedAt(env, b, kind, target)
  {}

  /** A proposal can be applied before a hand-off is accepted exactly when it can be applied after, unless
      it is a bundle or waits for a resource id. */
  lemma {:induction false} HandOffIsNotSeen(env: Env, w: World, id: nat, i: nat)
    requires id < |w.proposals| && w.proposals[id].kind != Bundle
    requires !(w.proposals[id].kind == Resource && w.proposals[id].op == Create)
    ensures Commits(env, HandedOver(env, w, i), Approve(id, 0, false)) <==> Commits(env, w, Approve(id, 0, false))
  {
    var p, handed := w.proposals[id], HandedOver(env, w, i);
    HandOverLeavesTables(env, w, i);
    SameUpdatedAt(env, w.db, handed.db, p.kind, p.target);
    SameVerdict(env, w.db, handed.db, p.kind, p.op, p.target, p.state, w.clock, handed.clock);
  }

  // Whether a proposal applies is decided by the rows and the VOs.
  lemma {:induction false} SameVerdict(env: Env, a: DB, b: DB, kind: Kind, op: Operation, target: string, state: Json,
                                       now: nat, later: nat)
    requires a.rows == b.rows && a.vos == b.vos && a.next == b.next && !(kind == Resource && op == Create)
    ensures ApplySingle(env, a, kind, op, target, state, now, 0).Ok? <==>
      ApplySingle(env, b, kind, op, target, state, later, 0).Ok?
  {
    match kind
    case Resource =>
    case SupportCenter => SameCenterVerdict(env, a, b, op, target, state, now, later);
    case Project =>
    case VO => SameVOVerdict(VOEnvOf(env, a.rows), a.vos, op, target, state, now, later);
    case Bundle =>
    case _ => SameEntityVerdict(env, a, b, kind, op, target, state, now, later);
  }

  lemma {:induction false} SameEntityVerdict(env: Env, a: DB, b: DB, kind: Kind, op: Operation, target: string,
                                             state: Json, now: nat, later: nat)
    requires a.rows == b.rows && a.next == b.next
    ensures ApplyEntity(env, a, kind, op, target, state, now).Ok? <==>
      ApplyEntity(env, b, kind, op, target, state, later).Ok?
  {
    if op != Delete {
      match env.decode(kind, state)
      case Some(EntityState(name, parent, institution, center, data, contacts)) =>
        if ParentId(a, kind, parent).Some? {
          SameWriteVerdict(a, b, kind, op, target,
            Content(name, ParentId(a, kind, parent).value, institution, center, {}, data),
                           contacts, now, later);
        }
      case _ =>
    }
  }

  lemma {:induction false} SameWriteVerdict(a: DB, b: DB, kind: Kind, op: Operation, target: string, content: Content,
                                            contacts: seq<Contact>, now: nat, later: nat)
    requires a.rows == b.rows && a.next == b.next
    ensures WriteEntity(a, kind, op, target, content, contacts, now).Ok? <==>
      WriteEntity(b, kind, op, target, content, contacts, later).Ok?
  {}

  lemma {:induction false} SameCenterVerdict(env: Env, a: DB, b: DB, op: Operation, target: string, state: Json,
                                             now: nat, later: nat)
    requires a.rows == b.rows
    ensures ApplyCenter(env, a, op, target, state, now).Ok? <==> ApplyCenter(env, b, op, target, state, later).Ok?
  {}

  lemma {:induction false} SameVOVerdict(env: VOProposals.VOEnv, vos: VOProposals.VOs, op: Operation, target: string,
                                         proposed: Json, now: nat, later: nat)
    ensures VOProposals.ApplyVO(env, vos, op, target, proposed, now).Ok? <==>
      VOProposals.ApplyVO(env, vos, op, target, proposed, later).Ok?
  {}

  // What a committing approval does.
  lemma {:induction false} CommitIs(env: Env, w: World, id: nat, crash: bool)
    requires Commits(env, w, Approve(id, 0, crash))
    ensures var p := w.proposals[id];
      var r := Apply(env, w.db, p.kind, p.op, p.target, p.state, p.baseAt, w.clock);
      && r == Ok(Step(env, w, Approve(id, 0, crash)).db)
      && CommittedOps(env, w, Approve(id, 0, crash)) == OpsOf(env, p.kind, p.op, p.target, p.state)
  {}

  /** The approval of a proposal that was pending while a hand-off was accepted takes the slot from the new
      holder exactly when the proposal, or an operation of it if it is a bundle, creates or updates a
      facility, site or group with the entity of the hand-off as its target. */
  lemma {:induction false} AcceptedHandOffIsLost(env: Env, w: World, id: nat, i: nat, crash: bool)
    requires WaitsForContact(w, i) && Commits(env, HandedOver(env, w, i), Approve(id, 0, crash))
    ensures var n, handed := |w.db.contacts|, HandedOver(env, w, i);
      var after := Step(env, handed, Approve(id, 0, crash));
      var ops := CommittedOps(env, handed, Approve(id, 0, crash));
      && n < |handed.db.contacts| && n < |after.db.contacts|
      && (!after.db.contacts[n].live <==> OneDisplaces(ops, |ops|, handed.db.contacts[n]))
  {
    var handed := HandedOver(env, w, i);
    var p := handed.proposals[id];
    HandOverAddsHolder(env, w, i);
    CommitIs(env, handed, id, crash);
    ContactIsLost(env, handed.db, p.kind, p.op, p.target, p.state, p.baseAt, handed.clock, |w.db.contacts|);
  }

  /** In particular an update of the entity that was pending meanwhile still applies, and displaces the new
      holder. */
  lemma {:induction false} PendingUpdateDisplacesHandOff(env: Env, w: World, id: nat, i: nat)
    requires Commits(env, w, Approve(id, 0, false))
    requires w.proposals[id].kind in {Facility, Site, ResourceGroup} && w.proposals[id].op == Update
    requires i < |w.db.handOffs| && w.db.handOffs[i].decision == Waiting
    requires w.db.handOffs[i].kind == w.proposals[id].kind && w.db.handOffs[i].entity == w.proposals[id].target
    ensures var p, n := w.proposals[id], |w.db.contacts|;
      var handed := HandedOver(env, w, i);
      var after := Step(env, handed, Approve(id, 0, false));
      && UpdatedAt(env, handed.db, p.kind, p.target) == UpdatedAt(env, w.db, p.kind, p.target)
      && |handed.db.contacts| == n + 1
      && Of(handed.db.contacts[n], p.kind, p.target) && handed.db.contacts[n].id == w.db.handOffs[i].id
      && Commits(env, handed, Approve(id, 0, false))
      && |after.db.contacts| > n && after.db.contacts[n] == handed.db.contacts[n].(live := false)
  {
    var p, handed := w.proposals[id], HandedOver(env, w, i);
    HandOffMovesNoVersion(env, w, i, p.kind, p.target);
    HandOffIsNotSeen(env, w, id, i);
    HandOverAddsHolder(env, w, i);
    ContactIsLost(env, handed.db, p.kind, p.op, p.target, p.state, p.baseAt, handed.clock, |w.db.contacts|);
    var ops := CommittedOps(env, handed, Approve(id, 0, false));
    assert Displaces(ops[0], handed.db.contacts[|w.db.contacts|]);
  }

  // ---- the contacts of resources ----

  function ListsOf(db: DB, id: int): Children {
    if id in db.children then db.children[id] else Children(map[], map[])
  }

  predicate HasHolder(c: Children, h: HandOff) {
    h.ctype in c.lists && h.rank in c.lists[h.ctype] && c.lists[h.ctype][h.rank] == Contact(h.ctype, h.name, h.id)
  }

  // An update of the resource, which replaces its lists.
  predicate Relists(env: Env, o: BundleOp, id: int) {
    o.kind == Resource && o.op == Update && env.parseId(o.target) == Some(id)
  }

  function Submitted(env: Env, o: BundleOp): Children {
    match env.decode(Resource, o.state)
    case Some(ResourceState(_, _, _, _, _, inner)) => inner
    case _ => Children(map[], map[])
  }

  lemma {:induction false} OpOnLists(env: Env, db: DB, o: BundleOp, now: nat, nth: nat, id: int)
    requires Key(Resource, id) in db.rows && ApplyOp(env, db, o, now, nth).Ok?
    ensures var after := ApplyOp(env, db, o, now, nth).value;
      && Key(Resource, id) in after.rows
      && ListsOf(after, id) == if Relists(env, o, id) then Submitted(env, o) else ListsOf(db, id)
  {
    if o.kind == Resource {
      ResourceOnLists(env, db, o, now, nth, id);
    } else {
      OthersLeaveLists(env, db, o, now, nth, id);
    }
  }

  lemma {:induction false} ResourceOnLists(env: Env, db: DB, o: BundleOp, now: nat, nth: nat, id: int)
    requires o.kind == Resource && Key(Resource, id) in db.rows
    requires ApplyResource(env, db, o.op, o.target, o.state, now, nth).Ok?
    ensures var after := ApplyResource(env, db, o.op, o.target, o.state, now, nth).value;
      && Key(Resource, id) in after.rows
      && ListsOf(after, id) == if Relists(env, o, id) then Submitted(env, o) else ListsOf(db, id)
  {}

  lemma {:induction false} OthersLeaveLists(env: Env, db: DB, o: BundleOp, now: nat, nth: nat, id: int)
    requires o.kind != Resource && Key(Resource, id) in db.rows && ApplyOp(env, db, o, now, nth).Ok?
    ensures Key(Resource, id) in ApplyOp(env, db, o, now, nth).value.rows
    ensures ApplyOp(env, db, o, now, nth).value.children == db.children
  {
    if o.kind != SupportCenter {
      OtherKindsUntouched(env, db, o.kind, o.op, o.target, o.state, now, nth, Resource);
    }
  }

  // The last of the first m operations to replace the lists.
  function LastRelisting(env: Env, ops: seq<BundleOp>, m: nat, id: int): (k: Option<nat>)
    requires m <= |ops|
    ensures k.Some? ==> k.value < m && Relists(env, ops[k.value], id)
    ensures forall l :: (if k.Some? then k.value + 1 else 0) <= l < m ==> !Relists(env, ops[l], id)
  {
    if m == 0 then None
    else if Relists(env, ops[m - 1], id) then Some(m - 1)
    else LastRelisting(env, ops, m - 1, id)
  }

  // The lists are as the first m operations leave them.
  ghost predicate ListsAfter(env: Env, ops: seq<BundleOp>, m: nat, id: int, lists: Children, db: DB) {
    && m <= |ops| && Key(Resource, id) in db.rows
    && ListsOf(db, id) == match LastRelisting(env, ops, m, id) case Some(k) => Submitted(env, ops[k]) case None => lists
  }

  lemma {:induction false} OpsOnLists(env: Env, db: DB, ops: seq<BundleOp>, now: nat, id: int)
    requires Key(Resource, id) in db.rows && ApplyOps(env, db, ops, |ops|, now).Ok?
    ensures ListsAfter(env, ops, |ops|, id, ListsOf(db, id), ApplyOps(env, db, ops, |ops|, now).value)
  {
    var lists := ListsOf(db, id);
    var inv := (m: nat, d: DB) => ListsAfter(env, ops, m, id, lists, d);
    forall m: nat, d | m < |ops| && inv(m, d) && ApplyOp(env, d, ops[m], now, m).Ok?
      ensures inv(m + 1, ApplyOp(env, d, ops[m], now, m).value)
    {
      OpOnLists(env, d, ops[m], now, m, id);
    }
    OpsLead(env, inv, db, ops, |ops|, now);
  }

  /** The approval of a proposal that was pending while a hand-off of a resource's contact was accepted takes
      the slot from the new holder exactly when the last of its operations to update that resource, by its
      id, has somebody else in the slot, or nobody. */
  lemma {:induction false} AcceptedResourceHandOffIsLost(env: Env, w: World, id: nat, i: nat, crash: bool,
                                                         resource: int)
    requires i < |w.db.handOffs| && w.db.handOffs[i].decision == Waiting && w.db.handOffs[i].kind == Resource
    requires Named(w.db.rows, Resource, w.db.handOffs[i].entity) == Some(resource)
    requires Commits(env, HandedOver(env, w, i), Approve(id, 0, crash))
    ensures var h, handed := w.db.handOffs[i], HandedOver(env, w, i);
      var after := Step(env, handed, Approve(id, 0, crash));
      var ops := CommittedOps(env, handed, Approve(id, 0, crash));
      && HasHolder(ListsOf(handed.db, resource), h)
      && (!HasHolder(ListsOf(after.db, resource), h) <==>
            LastRelisting(env, ops, |ops|, resource).Some?
            && !HasHolder(Submitted(env, ops[LastRelisting(env, ops, |ops|, resource).value]), h))
  {
    var handed := HandedOver(env, w, i);
    var p := handed.proposals[id];
    var ops := CommittedOps(env, handed, Approve(id, 0, crash));
    assert Key(Resource, resource) in handed.db.rows;
    CommitIs(env, handed, id, crash);
    ApplyIsOps(env, handed.db, p.kind, p.op, p.target, p.state, p.baseAt, handed.clock);
    OpsOnLists(env, handed.db, ops, handed.clock, resource);
  }

  // ---- approving again ----

  // The proposal, applied and then moved back to pending.
  ghost function Resubmitted(env: Env, w: World, id: nat, crash: bool): World {
    Step(env, Step(env, w, Approve(id, 0, crash)), Move(id, Pending))
  }

  lemma {:induction false} ResubmittedIs(env: Env, w: World, id: nat, crash: bool)
    requires Commits(env, w, Approve(id, 0, crash))
    ensures var p, again := w.proposals[id], Resubmitted(env, w, id, crash);
      && id < |again.proposals| && again.db == Outcome(env, w, p).value
      && again.proposals[id] == Backfilled(env, p, w.clock).(status := Pending)
  {}

  /** A proposal that was applied, moved back to pending and approved again changes the tables again exactly
      when it has no version to be checked and all its operations can be carried out on the tables they
      left.  What was backfilled makes no difference. */
  lemma {:induction false} CommitsAgainIff(env: Env, w: World, id: nat, crash: bool)
    requires Good(env, w) && Commits(env, w, Approve(id, 0, crash))
    ensures var p, again := w.proposals[id], Resubmitted(env, w, id, crash);
      var ops := CommittedOps(env, w, Approve(id, 0, crash));
      var r := ApplyOps(env, again.db, ops, |ops|, again.clock);
      && (Commits(env, again, Approve(id, 0, false)) <==> !Guarded(p) && r.Ok?)
      && (Commits(env, again, Approve(id, 0, false)) ==> Step(env, again, Approve(id, 0, false)).db == r.value)
  {
    var p, again := w.proposals[id], Resubmitted(env, w, id, crash);
    var q := again.proposals[id];
    ResubmittedIs(env, w, id, crash);
    if Guarded(p) {
      ApplyConsumesVersion(env, w.db, p.kind, p.op, p.target, p.state, p.baseAt, w.clock);
    } else {
      UnguardedOutcome(env, again.db, p.kind, p.op, p.target, p.state, p.baseAt, again.clock);
      if p.op == Create && p.kind == Resource {
        CreateIgnoresTarget(env, again.db, p, q.target, again.clock);
      }
    }
  }

  lemma {:induction false} UnguardedOutcome(env: Env, db: DB, kind: Kind, op: Operation, target: string, state: Json,
                                            baseAt: Option<nat>, now: nat)
    requires (op == Create || baseAt == None) && OpsOf(env, kind, op, target, state) != []
    ensures var ops := OpsOf(env, kind, op, target, state);
      Apply(env, db, kind, op, target, state, baseAt, now) == ApplyOps(env, db, ops, |ops|, now)
  {
    if kind != Bundle {
      OneOp(env, db, BundleOp(kind, op, target, state), now);
    }
  }

  lemma {:induction false} CreateIgnoresTarget(env: Env, db: DB, p: Proposal, target: string, now: nat)
    requires p.op == Create && p.kind == Resource
    ensures Apply(env, db, p.kind, p.op, target, p.state, p.baseAt, now)
      == Apply(env, db, p.kind, p.op, p.target, p.state, p.baseAt, now)
  {}

  /** For a proposal of one operation, in a bundle or not: it changes the tables again exactly when it has no
      version to be checked and is a deletion, the creation of a project, or an update that does not need
      the name it took away. */
  lemma {:induction false} OneOperationAgain(env: Env, w: World, id: nat, crash: bool)
    requires Good(env, w) && Commits(env, w, Approve(id, 0, crash))
    requires |CommittedOps(env, w, Approve(id, 0, crash))| == 1
    ensures var p, again := w.proposals[id], Resubmitted(env, w, id, crash);
      var o := CommittedOps(env, w, Approve(id, 0, crash))[0];
      Commits(env, again, Approve(id, 0, false)) <==> !Guarded(p) && Repeats(env, again.db, o)
  {
    var p, again := w.proposals[id], Resubmitted(env, w, id, crash);
    var ops := CommittedOps(env, w, Approve(id, 0, crash));
    assert ops == [ops[0]];
    CommitIs(env, w, id, crash);
    ResubmittedIs(env, w, id, crash);
    ApplyIsOps(env, w.db, p.kind, p.op, p.target, p.state, p.baseAt, w.clock);
    CommitsAgainIff(env, w, id, crash);
    OneOp(env, w.db, ops[0], w.clock);
    OneOp(env, again.db, ops[0], again.clock);
    CarriedOutTwice(env, w.db, ops[0], w.clock, 0, again.clock, 0);
  }

  /** A bundle that creates something other than a project, and does not free its name itself, changes the
      tables once; a bundle of deletions can be applied again, and then changes nothing. */
  lemma {:induction false} BundleAgain(env: Env, w: World, id: nat, crash: bool)
    requires Good(env, w) && Commits(env, w, Approve(id, 0, crash))
    ensures var again, ops := Resubmitted(env, w, id, crash), CommittedOps(env, w, Approve(id, 0, crash));
      && ((exists i :: CreatesForGood(env, ops, i)) ==> !Commits(env, again, Approve(id, 0, false)))
      && ((forall k :: 0 <= k < |ops| ==> ops[k].op == Delete) && !Guarded(w.proposals[id]) ==>
            && Commits(env, again, Approve(id, 0, false))
            && Step(env, again, Approve(id, 0, false)).db == again.db)
  {
    var p, again := w.proposals[id], Resubmitted(env, w, id, crash);
    var ops := CommittedOps(env, w, Approve(id, 0, crash));
    CommitIs(env, w, id, crash);
    ResubmittedIs(env, w, id, crash);
    ApplyIsOps(env, w.db, p.kind, p.op, p.target, p.state, p.baseAt, w.clock);
    CommitsAgainIff(env, w, id, crash);
    if i :| CreatesForGood(env, ops, i) {
      CreatingBundleRunsOnce(env, w.db, ops, i, w.clock, again.clock);
    }
    if forall k :: 0 <= k < |ops| ==> ops[k].op == Delete {
      DeletingBundleRunsTwice(env, w.db, ops, w.clock, again.clock);
    }
  }

  // ---- the start of a run ----

  function EmptyDB(): DB {
    DB(map[], map[], [], [], map[], 0)
  }

  /** Empty tables are a good place to start a run. */
  lemma {:induction false} EmptyIsGood(env: Env)
    ensures Good(env, World(EmptyDB(), [], 0))
  {
    var vos: VOProposals.VOs := map[];
    var parents := VOProposals.ParentMap(vos);
    assert parents == map[];
    forall a, k: nat | k > 0 ensures !VOParents.Above(parents, a, k, a) {
      assert a !in parents;
    }
  }
}
