/**
 The guard of VO deletions: by the rows, and over every run of proposals and requests, a VO that
 something live refers to stays.
 */
module VOReferences {
  import opened Wrappers
  import opened Json
  import opened Kinds
  import opened Contacts
  import opened Tables
  import opened Registry
  import opened RegistrySafety
  import opened Operations
  import opened Workflow
  import opened WorkflowSafety
  import opened WrittenContent
  import VODocument
  import VOProposals

  // A live resource that allows the VO, or a live project that it sponsors.
  ghost predicate RefersTo(rows: Rows, key: Key, kind: Kind, vo: string) {
    key in rows && key.kind == kind && rows[key].live && vo in rows[key].content.uses
  }

  // A live VO whose file gives `parent` as the name of its parent.
  ghost predicate NamesParent(vos: VOProposals.VOs, n: string, parent: string) {
    && n in vos && VODocument.DocFromRaw(vos[n].raw).Ok?
    && var doc := VODocument.DocFromRaw(vos[n].raw).value;
       && "ParentVO" in doc && doc["ParentVO"].Obj?
       && "Name" in doc["ParentVO"].fields && doc["ParentVO"].fields["Name"] == Str(parent)
  }

  /** A VO is deleted exactly when no live resource allows it, no live project is sponsored by it and no
      live VO gives it as its parent; a deletion removes that VO and changes nothing else. */
  lemma {:induction false} DeletedExactlyWhenUnused(env: Env, db: DB, vo: string, state: Json, now: nat, nth: nat)
    ensures var r := ApplyOp(env, db, BundleOp(VO, Delete, vo, state), now, nth);
      && (r.Ok? <==>
            && (forall key :: !RefersTo(db.rows, key, Resource, vo))
            && (forall key :: !RefersTo(db.rows, key, Project, vo))
            && (forall n :: !NamesParent(db.vos, n, vo)))
      && (r.Ok? ==> r.value == db.(vos := db.vos - {vo}))
      && (r.Err? ==> r.error == VOFailed(VOProposals.InUse))
  {
    InUseIff(db.rows, vo);
    forall n ensures NamesParent(db.vos, n, vo) <==> n in db.vos && VOProposals.IsChild(db.vos[n], vo) {}
  }

  lemma InUseIff(rows: Rows, vo: string)
    ensures VOInUse(rows, vo) <==>
      (exists key :: RefersTo(rows, key, Resource, vo)) || (exists key :: RefersTo(rows, key, Project, vo))
  {
    if VOInUse(rows, vo) {
      var key :| key in rows && rows[key].live && key.kind in {Resource, Project} && vo in rows[key].content.uses;
      assert RefersTo(rows, key, key.kind, vo);
    }
  }

  // ---- runs ----

  // Some other operation than a deletion of the VO, or one that changes nothing.
  lemma {:induction false} UsedVOStays(env: Env, db: DB, o: BundleOp, now: nat, nth: nat, key: Key, vo: string)
    requires key.kind in {Resource, Project} && RefersTo(db.rows, key, key.kind, vo) && vo in db.vos
    requires ApplyOp(env, db, o, now, nth).Ok?
    ensures vo in ApplyOp(env, db, o, now, nth).value.vos
  {
    if o.kind != VO {
      OnlyVOsChangeVOs(env, db, o.kind, o.op, o.target, o.state, now, nth);
    } else if o.op == Delete {
      DeletedExactlyWhenUnused(env, db, o.target, o.state, now, nth);
    }
  }

  // Updates or deletes the row, or creates a project over it.
  ghost predicate Rewrites(env: Env, rows: Rows, o: BundleOp, key: Key) {
    && key in rows && o.kind == key.kind
    && (if o.op == Create then
          && o.kind == Project && env.decode(Project, o.state).Some?
          && env.decode(Project, o.state).value.ProjectState?
          && env.decode(Project, o.state).value.name == rows[key].content.name
        else Targets(env, rows, o, key))
  }

  lemma {:induction false} ReferringRowStays(env: Env, db: DB, o: BundleOp, now: nat, nth: nat, key: Key)
    requires key.kind in {Resource, Project} && key in db.rows && db.rows[key].live
    requires !Rewrites(env, db.rows, o, key) && ApplyOp(env, db, o, now, nth).Ok?
    ensures key in ApplyOp(env, db, o, now, nth).value.rows
    ensures ApplyOp(env, db, o, now, nth).value.rows[key] == db.rows[key]
  {
    match o.kind
    case Resource => ResourceOpLeavesRow(env, db, o, now, nth, key);
    case Project => ProjectOpLeavesRow(env, db, o, now, key);
    case SupportCenter => CenterOpLeavesRow(env, db, o, now, key);
    case VO =>
    case Bundle =>
    case _ => EntityOpLeavesRow(env, db, o, now, key);
  }

  lemma {:induction false} ResourceOpLeavesRow(env: Env, db: DB, o: BundleOp, now: nat, nth: nat, key: Key)
    requires o.kind == Resource && key in db.rows && db.rows[key].live && !Rewrites(env, db.rows, o, key)
    requires ApplyResource(env, db, o.op, o.target, o.state, now, nth).Ok?
    ensures var after := ApplyResource(env, db, o.op, o.target, o.state, now, nth).value.rows;
      key in after && after[key] == db.rows[key]
  {}

  lemma {:induction false} ProjectOpLeavesRow(env: Env, db: DB, o: BundleOp, now: nat, key: Key)
    requires o.kind == Project && key in db.rows && db.rows[key].live && !Rewrites(env, db.rows, o, key)
    requires ApplyProject(env, db, o.op, o.target, o.state, now).Ok?
    ensures var after := ApplyProject(env, db, o.op, o.target, o.state, now).value.rows;
      key in after && after[key] == db.rows[key]
  {}

  lemma {:induction false} CenterOpLeavesRow(env: Env, db: DB, o: BundleOp, now: nat, key: Key)
    requires o.kind == SupportCenter && key in db.rows && key.kind in {Resource, Project}
    requires ApplyCenter(env, db, o.op, o.target, o.state, now).Ok?
    ensures var after := ApplyCenter(env, db, o.op, o.target, o.state, now).value.rows;
      key in after && after[key] == db.rows[key]
  {}

  lemma {:induction false} EntityOpLeavesRow(env: Env, db: DB, o: BundleOp, now: nat, key: Key)
    requires o.kind in {Facility, Site, ResourceGroup} && key in db.rows && key.kind in {Resource, Project}
    requires ApplyEntity(env, db, o.kind, o.op, o.target, o.state, now).Ok?
    ensures var after := ApplyEntity(env, db, o.kind, o.op, o.target, o.state, now).value.rows;
      key in after && after[key] == db.rows[key]
  {}

  // The row is as it was, and the VO it refers to is there.
  ghost predicate Kept(db: DB, key: Key, row: Row, vo: string) {
    key in db.rows && db.rows[key] == row && vo in db.vos
  }

  lemma {:induction false} OpKeepsReference(env: Env, db: DB, o: BundleOp, now: nat, nth: nat, key: Key, row: Row,
                                            vo: string)
    requires key.kind in {Resource, Project} && Kept(db, key, row, vo) && row.live && vo in row.content.uses
    requires !Rewrites(env, db.rows, o, key) && ApplyOp(env, db, o, now, nth).Ok?
    ensures Kept(ApplyOp(env, db, o, now, nth).value, key, row, vo)
  {
    UsedVOStays(env, db, o, now, nth, key, vo);
    ReferringRowStays(env, db, o, now, nth, key);
  }

  // What an operation may do while the row stays as it is.
  ghost predicate Spares(env: Env, o: BundleOp, key: Key, row: Row) {
    !Rewrites(env, map[key := row], o, key)
  }

  lemma SparedIsNotRewritten(env: Env, rows: Rows, o: BundleOp, key: Key)
    requires key in rows && Spares(env, o, key, rows[key])
    ensures !Rewrites(env, rows, o, key)
  {}

  /** No run of proposals and bundles takes away a VO that a live resource allows or a live project is
      sponsored by, as long as none of their operations rewrites that resource or project: whatever deletes
      it asks for. */
  lemma {:induction false} ReferredVOStays(env: Env, db: DB, rs: seq<Request>, key: Key, vo: string)
    requires key.kind in {Resource, Project} && RefersTo(db.rows, key, key.kind, vo) && vo in db.vos
    requires AllOps(env, rs, o => Spares(env, o, key, db.rows[key]))
    ensures RefersTo(RunAll(env, db, rs).rows, key, key.kind, vo) && vo in RunAll(env, db, rs).vos
  {
    var row := db.rows[key];
    var inv, allowed := (d: DB) => Kept(d, key, row, vo), (o: BundleOp) => Spares(env, o, key, row);
    forall d, o, now, nth | inv(d) && allowed(o) && ApplyOp(env, d, o, now, nth).Ok?
      ensures inv(ApplyOp(env, d, o, now, nth).value)
    {
      SparedIsNotRewritten(env, d.rows, o, key);
      OpKeepsReference(env, d, o, now, nth, key, row, vo);
    }
    assert AllOps(env, rs, allowed) by {
      forall i | 0 <= i < |rs| ensures OnlyOps(env, rs[i], allowed) {
        assert OnlyOps(env, rs[i], o => Spares(env, o, key, db.rows[key]));
      }
    }
    RunKeeps(env, inv, allowed, db, rs);
  }

  predicate ForVOs(o: BundleOp) {
    o.kind == VO
  }

  /** A run of VO proposals, deletes among them in any number and order, changes no row, and every live
      resource and project still has each VO it refers to that was there. */
  lemma {:induction false} VORunsLoseNoReference(env: Env, db: DB, rs: seq<Request>)
    requires AllOps(env, rs, ForVOs)
    ensures RunAll(env, db, rs).rows == db.rows
    ensures forall key, vo ::
      RefersTo(db.rows, key, Resource, vo) || RefersTo(db.rows, key, Project, vo) ==>
        (vo in db.vos ==> vo in RunAll(env, db, rs).vos)
  {
    var rows := db.rows;
    var inv := (d: DB) => d.rows == rows
      && forall key, vo :: (RefersTo(rows, key, Resource, vo) || RefersTo(rows, key, Project, vo)) && vo in db.vos ==>
        vo in d.vos;
    forall d, o, now, nth | inv(d) && ForVOs(o) && ApplyOp(env, d, o, now, nth).Ok?
      ensures inv(ApplyOp(env, d, o, now, nth).value)
    {
      forall key, vo | (RefersTo(rows, key, Resource, vo) || RefersTo(rows, key, Project, vo)) && vo in db.vos
        ensures vo in ApplyOp(env, d, o, now, nth).value.vos
      {
        UsedVOStays(env, d, o, now, nth, key, vo);
      }
    }
    RunKeeps(env, inv, ForVOs, db, rs);
  }

  ghost predicate SparesAll(env: Env, ops: seq<BundleOp>, key: Key, row: Row) {
    forall n :: 0 <= n < |ops| ==> Spares(env, ops[n], key, row)
  }

  lemma {:induction false} StepKeepsReference(env: Env, w: World, e: Event, key: Key, row: Row, vo: string)
    requires key.kind in {Resource, Project} && Kept(w.db, key, row, vo) && row.live && vo in row.content.uses
    requires SparesAll(env, CommittedOps(env, w, e), key, row)
    ensures Kept(Step(env, w, e).db, key, row, vo)
  {
    var inv, allowed := (d: DB) => Kept(d, key, row, vo), (o: BundleOp) => Spares(env, o, key, row);
    forall d, o, now, nth | inv(d) && allowed(o) && ApplyOp(env, d, o, now, nth).Ok?
      ensures inv(ApplyOp(env, d, o, now, nth).value)
    {
      SparedIsNotRewritten(env, d.rows, o, key);
      OpKeepsReference(env, d, o, now, nth, key, row, vo);
    }
    hide Apply;
    StepKeeps(env, inv, allowed, w, e);
  }

  /** The same in every run of requests: a VO that a live resource allows or a live project is sponsored by is
      there in every state until an approval rewrites that resource or project. */
  lemma {:induction false} ReferredVOStaysInRuns(env: Env, w: World, events: seq<Event>, i: nat, key: Key, vo: string)
    requires key.kind in {Resource, Project} && RefersTo(w.db.rows, key, key.kind, vo) && vo in w.db.vos
    requires i <= |events| && forall k :: 0 <= k < i ==>
      SparesAll(env, CommittedOps(env, At(env, w, events, k), events[k]), key, w.db.rows[key])
    ensures Kept(At(env, w, events, i).db, key, w.db.rows[key], vo)
  {
    hide Step, CommittedOps;
    if i > 0 {
      ReferredVOStaysInRuns(env, w, events, i - 1, key, vo);
      StepKeepsReference(env, At(env, w, events, i - 1), events[i - 1], key, w.db.rows[key], vo);
      AtNext(env, w, events, i - 1);
    }
  }
}
