/**
 What holds in every run of requests: the tables stay healthy, an update or delete that knows the
 version it branched from takes effect at most once and only on that version, and a proposal always
 holds the fold of what was submitted.
 */
module WorkflowSafety {
  import opened Wrappers
  import opened Json
  import opened Kinds
  import opened Contacts
  import opened Tables
  import opened Registry
  import opened RegistrySafety
  import opened Operations
  import opened Workflow
  import Merge
  import Runs
  import VODocument
  import VOEditing
  import VOProposals
  import VOSafety

  // ---- one request ----

  // Every version is from before now.
  ghost predicate VersionsBefore(db: DB, now: nat) {
    && (forall key :: key in db.rows && db.rows[key].live ==> db.rows[key].version < now)
    && (forall n :: n in db.vos ==> db.vos[n].version < now)
  }

  ghost predicate BasesBefore(ps: seq<Proposal>, now: nat) {
    forall id :: 0 <= id < |ps| && ps[id].baseAt.Some? ==> ps[id].baseAt.value < now
  }

  ghost predicate Good(env: Env, w: World) {
    Healthy(env, w.db) && VersionsBefore(w.db, w.clock) && BasesBefore(w.proposals, w.clock)
  }

  lemma {:induction false} UpdatedBefore(env: Env, db: DB, now: nat, kind: Kind, target: string)
    requires VersionsBefore(db, now) && UpdatedAt(env, db, kind, target).Some?
    ensures UpdatedAt(env, db, kind, target).value < now
  {}

  lemma {:induction false} DecidedKeepsTables(env: Env, db: DB, i: nat, accept: bool)
    requires Healthy(env, db)
    ensures Decided(db, i, accept).rows == db.rows && Decided(db, i, accept).vos == db.vos
  {}

  lemma {:induction false} StepTables(env: Env, w: World, e: Event)
    requires Good(env, w)
    ensures StepsTo(env, w.db, Step(env, w, e).db, w.clock)
    ensures Step(env, w, e).clock == w.clock + 1
  {
    match e
    case Approve(id, _, _) =>
      if Commits(env, w, e) {
        var p := w.proposals[id];
        ApplySteps(env, w.db, p.kind, p.op, p.target, p.state, p.baseAt, w.clock);
      }
    case Decide(i, accept) => DecidedKeepsTables(env, w.db, i, accept);
    case _ =>
  }

  lemma {:induction false} StepVersions(env: Env, db: DB, after: DB, now: nat)
    requires VersionsBefore(db, now) && StepsTo(env, db, after, now)
    ensures VersionsBefore(after, now + 1)
  {}

  lemma {:induction false} StepBases(env: Env, w: World, e: Event)
    requires Good(env, w)
    ensures BasesBefore(Step(env, w, e).proposals, w.clock + 1)
  {
    match e
    case Submit(kind, op, target, submitted, pending) =>
      if UpdatedAt(env, w.db, kind, target).Some? {
        UpdatedBefore(env, w.db, w.clock, kind, target);
      }
    case _ =>
  }

  lemma {:induction false} StepGood(env: Env, w: World, e: Event)
    requires Good(env, w)
    ensures Good(env, Step(env, w, e))
  {
    StepTables(env, w, e);
    StepVersions(env, w.db, Step(env, w, e).db, w.clock);
    StepBases(env, w, e);
  }

  // ---- runs ----

  // Before event i of a run from w.
  ghost function At(env: Env, w: World, events: seq<Event>, i: nat): World
    requires i <= |events|
  {
    Runs.At((t, e) => Step(env, t, e), w, events, i)
  }

  lemma AtNext(env: Env, w: World, events: seq<Event>, i: nat)
    requires i < |events|
    ensures At(env, w, events, i + 1) == Step(env, At(env, w, events, i), events[i])
  {}

  // What every request keeps of a good state, later states of a run have if an earlier one has it.
  lemma {:induction false} KeptFrom(env: Env, inv: World -> bool, w: World, events: seq<Event>, i: nat, j: nat)
    requires i <= j <= |events| && inv(At(env, w, events, i))
    requires forall t, e :: inv(t) ==> inv(Step(env, t, e))
    ensures inv(At(env, w, events, j))
  {
    Runs.KeptFrom((t, e) => Step(env, t, e), e => true, inv, w, events, i, j);
  }

  /** In every state that requests can reach from healthy tables, every live site has a live facility,
      every live group a live site and every live resource a live group; live names are unique; the VO
      parents are acyclic; and no version is from the future. */
  lemma {:induction false} EveryStateIsGood(env: Env, w: World, events: seq<Event>, i: nat)
    requires Good(env, w) && i <= |events|
    ensures Good(env, At(env, w, events, i))
  {
    forall t, e | Good(env, t) ensures Good(env, Step(env, t, e)) {
      StepGood(env, t, e);
    }
    KeptFrom(env, t => Good(env, t), w, events, 0, i);
  }

  /** Nothing but the approval of a pending proposal without open invites changes a row or a VO. */
  lemma {:induction false} OnlyApprovalsChangeRows(env: Env, w: World, e: Event)
    ensures var after := Step(env, w, e).db;
      after.rows != w.db.rows || after.vos != w.db.vos ==>
        e.Approve? && e.id < |w.proposals| && w.proposals[e.id].status == Pending && e.unaccepted == 0
  {
    match e
    case Decide(i, accept) => assert Decided(w.db, i, accept).rows == w.db.rows;
    case _ =>
  }

  /** While a proposal is applied or rejected no request changes what it holds. */
  lemma {:induction false} ClosedIsFrozen(env: Env, w: World, e: Event, id: nat)
    requires id < |w.proposals| && w.proposals[id].status in {Applied, Rejected}
    ensures var p, q := w.proposals[id], Step(env, w, e).proposals[id];
      q.state == p.state && q.revisions == p.revisions && SameOrigin(p, q)
  {
    StepKeepsOrigin(env, w, e, id);
  }

  // ---- the version a proposal branched from ----

  // An update or delete whose target was live when it was created.
  ghost predicate Guarded(p: Proposal) {
    p.op != Create && p.baseAt.Some?
  }

  /** A new proposal is guarded exactly when it updates or deletes something that is live then; what is
      not live, and what a bundle contains, is not guarded. */
  lemma {:induction false} GuardedIffTargetLive(env: Env, w: World, kind: Kind, op: Operation, target: string,
                                                submitted: Json, pending: bool)
    requires |Submitted(env, w, kind, op, target, submitted, pending)| > |w.proposals|
    ensures var p := Submitted(env, w, kind, op, target, submitted, pending)[|w.proposals|];
      Guarded(p) <==> op != Create && TargetOf(env, w.db, kind, target).Some?
  {}

  // The version has been left behind: whatever is live under the name is newer.
  ghost predicate Past(env: Env, db: DB, kind: Kind, target: string, version: nat) {
    match UpdatedAt(env, db, kind, target)
    case Some(v) => v > version
    case None => true
  }

  lemma {:induction false} StaysPast(env: Env, w: World, e: Event, kind: Kind, target: string, version: nat)
    requires Good(env, w) && version < w.clock && Past(env, w.db, kind, target, version)
    ensures Past(env, Step(env, w, e).db, kind, target, version)
  {
    StepTables(env, w, e);
    TargetStays(env, w.db, Step(env, w, e).db, w.clock, kind, target);
  }

  lemma {:induction false} TargetStays(env: Env, db: DB, after: DB, now: nat, kind: Kind, target: string)
    requires Healthy(env, db) && StepsTo(env, db, after, now)
    ensures var v := UpdatedAt(env, after, kind, target);
      v == None || v == Some(now) || TargetOf(env, db, kind, target) == TargetOf(env, after, kind, target)
  {
    if TargetOf(env, after, kind, target).Some? && Version(TargetOf(env, after, kind, target).value) != now {
      TargetFrame(env, db, after, now, kind, target);
    }
  }

  lemma {:induction false} CommitLeavesVersionBehind(env: Env, w: World, e: Event)
    requires Good(env, w) && Commits(env, w, e) && Guarded(w.proposals[e.id])
    ensures var p := w.proposals[e.id]; Past(env, Step(env, w, e).db, p.kind, p.target, p.baseAt.value)
  {
    var p := w.proposals[e.id];
    assert UpdatedAt(env, w.db, p.kind, p.target) == p.baseAt;
    ApplyConsumesVersion(env, w.db, p.kind, p.op, p.target, p.state, p.baseAt, w.clock);
  }

  // What a guarded proposal branched from.
  datatype Branch = Branch(kind: Kind, target: string, version: Option<nat>)

  function BranchOf(p: Proposal): Branch {
    Branch(p.kind, p.target, p.baseAt)
  }

  // The row or VO that an approval finds under the target of its proposal, and the version the proposal
  // branched from.
  datatype Overwritten = Overwritten(subject: Option<Subject>, version: Option<nat>)

  ghost function OverwrittenBy(env: Env, w: World, e: Event): Overwritten
    requires e.Approve? && e.id < |w.proposals|
  {
    var p := w.proposals[e.id];
    Overwritten(SubjectOf(env, w.db, p.kind, p.target), p.baseAt)
  }

  /** In every run, with every revision, re-submission of an applied proposal and crash before the status
      is written: at most one guarded update or delete that branched from a given version of a row ever
      changes the tables, and it does so at most once - whatever the row was called by each, by a name it
      has lost since or by another spelling of its id. */
  lemma {:induction false} OneCommitPerVersion(env: Env, w: World, events: seq<Event>, i: nat, j: nat)
    requires Good(env, w) && i < j < |events|
    requires Commits(env, At(env, w, events, i), events[i]) && Commits(env, At(env, w, events, j), events[j])
    requires Guarded(At(env, w, events, i).proposals[events[i].id])
      && Guarded(At(env, w, events, j).proposals[events[j].id])
    ensures var one, other := OverwrittenBy(env, At(env, w, events, i), events[i]),
                              OverwrittenBy(env, At(env, w, events, j), events[j]);
      one.subject.Some? && other.subject.Some? && one != other
    ensures BranchOf(At(env, w, events, i).proposals[events[i].id]) != BranchOf(At(env, w, events,
      j).proposals[events[j].id])
  {
    var p := At(env, w, events, i).proposals[events[i].id];
    var s := OverwrittenBy(env, At(env, w, events, i), events[i]).subject;
    CommitFindsItsVersion(env, At(env, w, events, i), events[i]);
    CommitFindsItsVersion(env, At(env, w, events, j), events[j]);
    CommitIsBehindLater(env, w, events, i, j, s.value);
    assert UpdatedAt(env, At(env, w, events, j).db, p.kind, p.target) != p.baseAt;
  }

  // The version is not the subject's any more.
  ghost predicate Spent(db: DB, s: Subject, version: nat) {
    match VersionOf(db, s)
    case Some(v) => v > version
    case None => true
  }

  // Neither what was found under the target nor what is there now has the version.
  ghost predicate LeftBehind(env: Env, w: World, p: Proposal, s: Subject) {
    && Good(env, w) && p.baseAt.Some? && p.baseAt.value < w.clock
    && Past(env, w.db, p.kind, p.target, p.baseAt.value) && Spent(w.db, s, p.baseAt.value)
  }

  lemma {:induction false} StaysBehind(env: Env, w: World, e: Event, p: Proposal, s: Subject)
    requires LeftBehind(env, w, p, s)
    ensures LeftBehind(env, Step(env, w, e), p, s)
  {
    StepGood(env, w, e);
    StepTables(env, w, e);
    StaysPast(env, w, e, p.kind, p.target, p.baseAt.value);
  }

  lemma {:induction false} CommitLeavesBehind(env: Env, w: World, e: Event, s: Subject)
    requires Good(env, w) && Commits(env, w, e) && Guarded(w.proposals[e.id])
    requires OverwrittenBy(env, w, e).subject == Some(s)
    ensures LeftBehind(env, Step(env, w, e), w.proposals[e.id], s)
  {
    var p := w.proposals[e.id];
    CommitLeavesVersionBehind(env, w, e);
    StepGood(env, w, e);
    StepTables(env, w, e);
    ApplyConsumesRow(env, w.db, p.kind, p.op, p.target, p.state, p.baseAt, w.clock, s);
  }

  lemma {:induction false} CommitIsBehindLater(env: Env, w: World, events: seq<Event>, i: nat, j: nat, s: Subject)
    requires Good(env, w) && i < j <= |events|
    requires Commits(env, At(env, w, events, i), events[i]) && Guarded(At(env, w, events, i).proposals[events[i].id])
    requires OverwrittenBy(env, At(env, w, events, i), events[i]).subject == Some(s)
    ensures LeftBehind(env, At(env, w, events, j), At(env, w, events, i).proposals[events[i].id], s)
  {
    hide Apply, Step, LeftBehind;
    var p := At(env, w, events, i).proposals[events[i].id];
    EveryStateIsGood(env, w, events, i);
    CommitLeavesBehind(env, At(env, w, events, i), events[i], s);
    AtNext(env, w, events, i);
    forall t, e | LeftBehind(env, t, p, s) ensures LeftBehind(env, Step(env, t, e), p, s) {
      StaysBehind(env, t, e, p, s);
    }
    KeptFrom(env, t => LeftBehind(env, t, p, s), w, events, i + 1, j);
  }

  lemma {:induction false} CommitFindsItsVersion(env: Env, w: World, e: Event)
    requires Commits(env, w, e) && Guarded(w.proposals[e.id])
    ensures var p := w.proposals[e.id]; UpdatedAt(env, w.db, p.kind, p.target) == p.baseAt
    ensures var o := OverwrittenBy(env, w, e); o.subject.Some? && VersionOf(w.db, o.subject.value) == o.version
  {
    TargetVersion(env, w.db, w.proposals[e.id].kind, w.proposals[e.id].target);
  }

  // ---- what a commit overwrites ----

  // What no later request changes of a proposal.
  ghost predicate SameOrigin(p: Proposal, q: Proposal) {
    p.kind == q.kind && p.op == q.op && p.base == q.base && p.baseAt == q.baseAt
      && (p.op != Create ==> p.target == q.target)
  }

  lemma {:induction false} OriginStays(env: Env, w: World, events: seq<Event>, c: nat, i: nat, id: nat)
    requires c <= i <= |events| && id < |At(env, w, events, c).proposals|
    ensures id < |At(env, w, events, i).proposals|
    ensures SameOrigin(At(env, w, events, c).proposals[id], At(env, w, events, i).proposals[id])
  {
    var p := At(env, w, events, c).proposals[id];
    forall t: World, e | id < |t.proposals| && SameOrigin(p, t.proposals[id])
      ensures id < |Step(env, t, e).proposals| && SameOrigin(p, Step(env, t, e).proposals[id])
    {
      StepKeepsOrigin(env, t, e, id);
    }
    KeptFrom(env, (t: World) => id < |t.proposals| && SameOrigin(p, t.proposals[id]), w, events, c, i);
  }

  lemma {:induction false} StepKeepsOrigin(env: Env, w: World, e: Event, id: nat)
    requires id < |w.proposals|
    ensures id < |Step(env, w, e).proposals| && SameOrigin(w.proposals[id], Step(env, w, e).proposals[id])
  {}

  // The target is as it was, or gone, or was written since `since`.
  ghost predicate SameOrNewer(env: Env, db: DB, kind: Kind, target: string, was: Option<Target>, since: nat) {
    match UpdatedAt(env, db, kind, target)
    case Some(v) => v >= since || TargetOf(env, db, kind, target) == was
    case None => true
  }

  lemma {:induction false} StepSameOrNewer(env: Env, w: World, e: Event, kind: Kind, target: string,
                                           was: Option<Target>, since: nat)
    requires Good(env, w) && since <= w.clock && SameOrNewer(env, w.db, kind, target, was, since)
    ensures SameOrNewer(env, Step(env, w, e).db, kind, target, was, since)
  {
    StepTables(env, w, e);
    TargetStays(env, w.db, Step(env, w, e).db, w.clock, kind, target);
  }

  lemma {:induction false} TargetBack(env: Env, w: World, events: seq<Event>, c: nat, i: nat, kind: Kind,
                                      target: string)
    requires Good(env, w) && c <= i <= |events|
    requires var v := UpdatedAt(env, At(env, w, events, i).db, kind, target);
      v.Some? && v.value < At(env, w, events, c).clock
    ensures TargetOf(env, At(env, w, events, c).db, kind, target) ==
      TargetOf(env, At(env, w, events, i).db, kind, target)
  {
    var before := At(env, w, events, c);
    var was, since := TargetOf(env, before.db, kind, target), before.clock;
    EveryStateIsGood(env, w, events, c);
    var inv := t => Good(env, t) && since <= t.clock && SameOrNewer(env, t.db, kind, target, was, since);
    forall t, e | inv(t) ensures inv(Step(env, t, e)) {
      StepGood(env, t, e);
      StepTables(env, t, e);
      StepSameOrNewer(env, t, e, kind, target, was, since);
    }
    KeptFrom(env, inv, w, events, c, i);
  }

  // Event c submits a proposal, and gets it accepted.
  ghost predicate Submits(env: Env, w: World, events: seq<Event>, c: nat) {
    && c < |events| && events[c].Submit?
    && |Step(env, At(env, w, events, c), events[c]).proposals| > |At(env, w, events, c).proposals|
  }

  // What the proposal of event c says of itself ever after.
  lemma {:induction false} OriginOf(env: Env, w: World, events: seq<Event>, c: nat, i: nat)
    requires Good(env, w) && Submits(env, w, events, c) && c < i <= |events|
    ensures var before, id := At(env, w, events, c), |At(env, w, events, c).proposals|;
      && id < |At(env, w, events, i).proposals|
      && SameOrigin(Step(env, before, events[c]).proposals[id], At(env, w, events, i).proposals[id])
  {
    AtNext(env, w, events, c);
    OriginStays(env, w, events, c + 1, i, |At(env, w, events, c).proposals|);
  }

  /** A guarded update or delete that commits overwrites exactly the row its snapshot was taken of: the
      row is the same at the commit as it was when the proposal was created. */
  lemma {:induction false} CommitOverwritesItsBase(env: Env, w: World, events: seq<Event>, c: nat, i: nat)
    requires Good(env, w) && Submits(env, w, events, c) && c < i < |events|
    requires Commits(env, At(env, w, events, i), events[i]) && events[i].id == |At(env, w, events, c).proposals|
    requires Guarded(At(env, w, events, i).proposals[events[i].id])
    ensures var p := At(env, w, events, i).proposals[events[i].id];
      && TargetOf(env, At(env, w, events, c).db, p.kind, p.target).Some?
      && TargetOf(env, At(env, w, events, c).db, p.kind, p.target) ==
        TargetOf(env, At(env, w, events, i).db, p.kind, p.target)
  {
    var p := At(env, w, events, i).proposals[events[i].id];
    OriginOf(env, w, events, c, i);
    EveryStateIsGood(env, w, events, c);
    SubmittedBase(env, At(env, w, events, c), events[c]);
    CommitFindsItsVersion(env, At(env, w, events, i), events[i]);
    TargetBack(env, w, events, c, i, p.kind, p.target);
  }

  lemma {:induction false} SubmittedBase(env: Env, w: World, e: Event)
    requires Good(env, w) && e.Submit? && |Step(env, w, e).proposals| > |w.proposals|
    ensures var p := Step(env, w, e).proposals[|w.proposals|];
      && p.kind == e.kind && p.op == e.op && p.target == e.target
      && (p.baseAt.Some? ==> p.baseAt.value < w.clock)
      && (p.op != Create && p.target != "" ==> p.base == SnapshotOf(env, w.db, p.kind, p.target))
  {
    if UpdatedAt(env, w.db, e.kind, e.target).Some? {
      UpdatedBefore(env, w.db, w.clock, e.kind, e.target);
    }
  }

  // ---- what a proposal holds ----

  // What revision n is made of: for an update the snapshot, or the first submission if there was none,
  // with the submissions up to it merged on in turn; otherwise what was submitted then.
  function FoldedUpTo(p: Proposal, n: nat): Json
    requires n < |p.submissions|
  {
    if p.op != Update then p.submissions[n]
    else if p.base.Some? then Merge.Folded(p.kind, p.base.value, p.submissions[..n + 1])
    else Merge.Folded(p.kind, p.submissions[0], p.submissions[1..n + 1])
  }

  // Every saved revision is the fold of what was submitted up to it, and the last is the head.
  ghost predicate Chronicled(p: Proposal) {
    && |p.revisions| == |p.submissions| > 0
    && p.state == p.revisions[|p.revisions| - 1]
    && forall n :: 0 <= n < |p.revisions| ==> p.revisions[n] == FoldedUpTo(p, n)
  }

  // One submission more.
  lemma {:induction false} FoldGrows(p: Proposal, submitted: Json)
    requires p.submissions != []
    ensures var k, q := |p.submissions|, p.(submissions := p.submissions + [submitted]);
      && (forall n :: 0 <= n < k ==> FoldedUpTo(q, n) == FoldedUpTo(p, n))
      && FoldedUpTo(q, k) == if p.op == Update then Merge.MergeProposed(p.kind, FoldedUpTo(p, k - 1), submitted)
                             else submitted
  {
    var k, q := |p.submissions|, p.(submissions := p.submissions + [submitted]);
    forall n | 0 <= n < k ensures FoldedUpTo(q, n) == FoldedUpTo(p, n) {
      assert q.submissions[..n + 1] == p.submissions[..n + 1] && q.submissions[1..n + 1] == p.submissions[1..n + 1];
    }
    assert q.submissions[..k + 1] == p.submissions[..k] + [submitted];
    assert q.submissions[1..k + 1] == p.submissions[1..k] + [submitted];
    if p.base.Some? {
      FoldMore(p.kind, p.base.value, p.submissions[..k], submitted);
    }
    FoldMore(p.kind, p.submissions[0], p.submissions[1..k], submitted);
  }

  lemma FoldMore(kind: Kind, base: Json, submissions: seq<Json>, submitted: Json)
    ensures Merge.Folded(kind, base, submissions + [submitted]) ==
      Merge.MergeProposed(kind, Merge.Folded(kind, base, submissions), submitted)
  {
    assert (submissions + [submitted])[..|submissions|] == submissions;
  }

  lemma {:induction false} RevisionIsFold(env: Env, p: Proposal, submitted: Json)
    requires Chronicled(p)
    ensures Chronicled(Revised(env, p, submitted))
  {
    FoldGrows(p, submitted);
    var q := Revised(env, p, submitted);
    if q != p {
      forall n | 0 <= n < |q.revisions| ensures q.revisions[n] == FoldedUpTo(q, n) {
        assert FoldedUpTo(q, n) == FoldedUpTo(p.(submissions := p.submissions + [submitted]), n);
      }
    }
  }

  lemma {:induction false} SubmissionIsFold(env: Env, w: World, kind: Kind, op: Operation, target: string,
                                            submitted: Json, pending: bool)
    requires |Submitted(env, w, kind, op, target, submitted, pending)| > |w.proposals|
    ensures Chronicled(Submitted(env, w, kind, op, target, submitted, pending)[|w.proposals|])
  {
    var p := Submitted(env, w, kind, op, target, submitted, pending)[|w.proposals|];
    assert [submitted][..1] == [submitted] && [submitted][..0] == [] && [submitted][1..1] == [];
    if p.op == Update && p.base.Some? {
      assert Merge.Folded(kind, p.base.value, [submitted]) ==
        Merge.MergeProposed(kind, Merge.Folded(kind, p.base.value, [submitted][..0]), submitted);
    }
  }

  // Neither a status nor a target is part of it.
  lemma {:induction false} ChronicleStays(p: Proposal, target: string, status: Status)
    requires Chronicled(p)
    ensures Chronicled(p.(target := target, status := status))
  {
    assert forall n :: 0 <= n < |p.revisions| ==>
      FoldedUpTo(p.(target := target, status := status), n) == FoldedUpTo(p, n);
  }

  ghost predicate AllChronicled(w: World) {
    forall id :: 0 <= id < |w.proposals| ==> Chronicled(w.proposals[id])
  }

  lemma {:induction false} StepKeepsChronicles(env: Env, w: World, e: Event)
    requires AllChronicled(w)
    ensures AllChronicled(Step(env, w, e))
  {
    hide Chronicled, Apply, Revised;
    match e
    case Submit(kind, op, target, submitted, pending) =>
      if |Submitted(env, w, kind, op, target, submitted, pending)| > |w.proposals| {
        SubmissionIsFold(env, w, kind, op, target, submitted, pending);
      }
    case Revise(id, submitted) =>
      if id < |w.proposals| {
        RevisionIsFold(env, w.proposals[id], submitted);
      }
    case Move(id, status) =>
      if id < |w.proposals| {
        ChronicleStays(w.proposals[id], w.proposals[id].target, status);
      }
    case Approve(id, _, _) =>
      if id < |w.proposals| {
        var p := Backfilled(env, w.proposals[id], w.clock);
        ChronicleStays(w.proposals[id], p.target, p.status);
        ChronicleStays(w.proposals[id], p.target, Applied);
      }
    case _ =>
  }

  /** In every reachable state, revision n of an update is the snapshot it branched from with the first n
      submissions merged onto it in turn, or the first submission with the others if there was nothing to
      take a snapshot of; revision n of a creation or deletion is the n-th submission; and the proposal
      holds the last revision. */
  lemma {:induction false} RevisionsAreFolds(env: Env, w: World, events: seq<Event>, i: nat, id: nat)
    requires w.proposals == [] && i <= |events| && id < |At(env, w, events, i).proposals|
    ensures Chronicled(At(env, w, events, i).proposals[id])
  {
    forall t, e | AllChronicled(t) ensures AllChronicled(Step(env, t, e)) {
      StepKeepsChronicles(env, t, e);
    }
    KeptFrom(env, t => AllChronicled(t), w, events, 0, i);
  }

  // ---- VOs ----

  // The operations that an approval carries out.
  ghost function CommittedOps(env: Env, w: World, e: Event): seq<BundleOp> {
    if Commits(env, w, e) then
      var p := w.proposals[e.id];
      OpsOf(env, p.kind, p.op, p.target, p.state)
    else []
  }

  // What every allowed operation keeps of the rows, VOs and next id, a request keeps that carries out no
  // other.
  lemma {:induction false} StepKeeps(env: Env, inv: DB -> bool, allowed: BundleOp -> bool, w: World, e: Event)
    requires OpKeeps(env, inv, allowed) && inv(w.db)
    requires forall d: DB, d': DB ::
      inv(d) && d.rows == d'.rows && d.vos == d'.vos && d.next == d'.next ==> inv(d')
    requires forall k :: 0 <= k < |CommittedOps(env, w, e)| ==> allowed(CommittedOps(env, w, e)[k])
    ensures inv(Step(env, w, e).db)
  {
    match e
    case Approve(id, _, _) =>
      if Commits(env, w, e) {
        var p := w.proposals[id];
        ApplyIsOps(env, w.db, p.kind, p.op, p.target, p.state, p.baseAt, w.clock);
        var ops := CommittedOps(env, w, e);
        OpsKeep(env, inv, allowed, w.db, ops, 0, |ops|, w.clock);
      }
    case Decide(i, accept) => assert Decided(w.db, i, accept).rows == w.db.rows;
    case _ =>
  }

  /** If every VO's parent is live at the start of a run it is live in every state of the run, whatever is
      proposed, alone or in bundles. */
  lemma {:induction false} VOParentsStayLive(env: Env, w: World, events: seq<Event>, i: nat)
    requires VOSafety.AllParentsLive(w.db.vos) && i <= |events|
    ensures VOSafety.AllParentsLive(At(env, w, events, i).db.vos)
  {
    var inv := (d: DB) => VOSafety.AllParentsLive(d.vos);
    forall d, o, now, nth | inv(d) && ApplyOp(env, d, o, now, nth).Ok?
      ensures inv(ApplyOp(env, d, o, now, nth).value)
    {
      SingleKeepsVOParents(env, d, o.kind, o.op, o.target, o.state, now, nth);
    }
    forall t: World, e | inv(t.db) ensures inv(Step(env, t, e).db) {
      StepKeeps(env, inv, o => true, t, e);
    }
    KeptFrom(env, (t: World) => inv(t.db), w, events, 0, i);
  }

  predicate DeletesVO(o: BundleOp, name: string) {
    o.kind == VO && o.op == Delete && o.target == name
  }

  // No approval before event i deletes the VO.
  ghost predicate NeverDeleted(env: Env, w: World, events: seq<Event>, i: nat, name: string)
    requires i <= |events|
  {
    forall k :: 0 <= k < i ==> KeepsVO(env, At(env, w, events, k), events[k], name)
  }

  ghost predicate KeepsVO(env: Env, w: World, e: Event, name: string) {
    forall k :: 0 <= k < |CommittedOps(env, w, e)| ==> !DeletesVO(CommittedOps(env, w, e)[k], name)
  }

  lemma {:induction false} StepKeepsVOID(env: Env, w: World, e: Event, name: string, id: int)
    requires HasID(env, w.db, name, id) && KeepsVO(env, w, e, name)
    ensures HasID(env, Step(env, w, e).db, name, id)
  {
    var inv := (d: DB) => HasID(env, d, name, id);
    var allowed := o => !DeletesVO(o, name);
    forall d, o, now, nth | inv(d) && allowed(o) && ApplyOp(env, d, o, now, nth).Ok?
      ensures inv(ApplyOp(env, d, o, now, nth).value)
    {
      SingleKeepsVOID(env, d, o.kind, o.op, o.target, o.state, now, nth, name, id);
    }
    StepKeeps(env, inv, allowed, w, e);
  }

  lemma {:induction false} VOKeepsID(env: Env, w: World, events: seq<Event>, i: nat, name: string, id: int)
    requires HasID(env, w.db, name, id) && i <= |events| && NeverDeleted(env, w, events, i, name)
    ensures HasID(env, At(env, w, events, i).db, name, id)
  {
    hide HasID, KeepsVO, Step;
    if i > 0 {
      VOKeepsID(env, w, events, i - 1, name, id);
      assert KeepsVO(env, At(env, w, events, i - 1), events[i - 1], name);
      AtNext(env, w, events, i - 1);
      StepKeepsVOID(env, At(env, w, events, i - 1), events[i - 1], name, id);
    }
  }

  /** A VO that no approval deletes, alone or in a bundle, is there in every state of a run, and always with
      the id it had. */
  lemma {:induction false} VOIDNeverChanges(env: Env, w: World, events: seq<Event>, i: nat, name: string)
    requires Good(env, w) && name in w.db.vos && i <= |events| && NeverDeleted(env, w, events, i, name)
    ensures name in At(env, w, events, i).db.vos && At(env, w, events, i).db.vos[name].id == w.db.vos[name].id
    ensures HasID(env, At(env, w, events, i).db, name, w.db.vos[name].id)
  {
    hide NeverDeleted;
    VOKeepsID(env, w, events, i, name, w.db.vos[name].id);
  }

  // ---- a VO edit, from submission to commit ----

  // What event i commits of a VO.
  ghost predicate CommitsVOEdit(env: Env, w: World, events: seq<Event>, c: nat, i: nat, es: seq<VODocument.Entry>) {
    && Submits(env, w, events, c) && c < i < |events| && events[c].kind == VO && events[c].op == Update
    && events[c].target != "" && events[c].target in At(env, w, events, c).db.vos
    && At(env, w, events, c).db.vos[events[c].target].raw == VODocument.Mapping(es) && VODocument.NoRepeats(es)
    && Commits(env, At(env, w, events, i), events[i]) && events[i].id == |At(env, w, events, c).proposals|
  }

  lemma {:induction false} VOSubmission(env: Env, w: World, e: Event, es: seq<VODocument.Entry>)
    requires e.Submit? && e.kind == VO && e.op == Update && e.target != "" && e.target in w.db.vos
    requires w.db.vos[e.target].raw == VODocument.Mapping(es) && VODocument.NoRepeats(es)
    requires |Step(env, w, e).proposals| > |w.proposals|
    ensures var p := Step(env, w, e).proposals[|w.proposals|];
      && p.kind == VO && p.op == Update && p.target == e.target && Guarded(p)
      && p.base == Some(VOEditing.Snapshot(e.target, VODocument.Decode(es)))
  {}

  lemma {:induction false} VOCommit(env: Env, w: World, e: Event, p: Proposal)
    requires Commits(env, w, e) && p == w.proposals[e.id] && p.kind == VO
    ensures var vos := VOProposals.ApplyVO(VOEnvOf(env, w.db.rows), w.db.vos, p.op, p.target, p.state, w.clock);
      vos.Ok? && Step(env, w, e).db.vos == vos.value
  {}

  /** From submission to commit, across every revision and whatever else happened in between: a VO update
      that changes the tables leaves in the live file, as they are, all the entries whose keys none of its
      submissions mentioned, in their order. */
  lemma {:induction false} UnmentionedEntriesReachTheCommit(env: Env, w: World, events: seq<Event>, c: nat, i: nat,
                                                            es: seq<VODocument.Entry>)
    requires Good(env, w) && w.proposals == [] && CommitsVOEdit(env, w, events, c, i, es)
    ensures var name, submissions := events[c].target, At(env, w, events, i).proposals[events[i].id].submissions;
      var vos := Step(env, At(env, w, events, i), events[i]).db.vos;
      && name in vos && vos[name].raw.Mapping?
      && (forall k :: 0 <= k < |es| && VOEditing.Untouched(es[k].name, submissions) ==> es[k] in vos[name].raw.entries)
      && (forall k, l ::
            && 0 <= k < l < |es|
            && VOEditing.Untouched(es[k].name, submissions) && VOEditing.Untouched(es[l].name, submissions)
            ==> VOEditing.InOrder(vos[name].raw.entries, es[k], es[l]))
  {
    var before := At(env, w, events, i);
    var p := before.proposals[events[i].id];
    VOEditAtCommit(env, w, events, c, i, es);
    VOCommit(env, before, events[i], p);
    VOCommitKeepsUntouched(env, before, events[c].target, es, p.submissions);
  }

  // At its commit the edit holds the fold of its submissions, and the file is still the one it was
  // taken from.
  lemma {:induction false} VOEditAtCommit(env: Env, w: World, events: seq<Event>, c: nat, i: nat,
                                          es: seq<VODocument.Entry>)
    requires Good(env, w) && w.proposals == [] && CommitsVOEdit(env, w, events, c, i, es)
    ensures var before, name := At(env, w, events, i), events[c].target;
      var p := before.proposals[events[i].id];
      && p.kind == VO && p.op == Update && p.target == name
      && p.state == VOEditing.Edited(name, es, p.submissions)
      && name in before.db.vos && before.db.vos[name].raw == VODocument.Mapping(es)
  {
    var before, id, name := At(env, w, events, i), events[i].id, events[c].target;
    VOEditOrigin(env, w, events, c, i, es);
    CommitOverwritesItsBase(env, w, events, c, i);
    VOTargetIs(env, At(env, w, events, c).db, before.db, name);
    RevisionsAreFolds(env, w, events, i, id);
    HeadIsFold(before.proposals[id]);
  }

  lemma {:induction false} VOEditOrigin(env: Env, w: World, events: seq<Event>, c: nat, i: nat,
                                        es: seq<VODocument.Entry>)
    requires Good(env, w) && w.proposals == [] && CommitsVOEdit(env, w, events, c, i, es)
    ensures var p, name := At(env, w, events, i).proposals[events[i].id], events[c].target;
      && p.kind == VO && p.op == Update && p.target == name && Guarded(p)
      && p.base == Some(VOEditing.Snapshot(name, VODocument.Decode(es)))
  {
    VOSubmission(env, At(env, w, events, c), events[c], es);
    OriginOf(env, w, events, c, i);
  }

  lemma VOTargetIs(env: Env, db: DB, after: DB, name: string)
    requires name != "" && name in db.vos
    requires TargetOf(env, db, VO, name) == TargetOf(env, after, VO, name)
    ensures name in after.vos && after.vos[name] == db.vos[name]
  {}

  lemma {:induction false} HeadIsFold(p: Proposal)
    requires Chronicled(p) && p.op == Update && p.base.Some?
    ensures p.state == Merge.Folded(p.kind, p.base.value, p.submissions)
  {
    var n := |p.revisions| - 1;
    assert p.submissions[..n + 1] == p.submissions;
  }

  lemma {:induction false} VOCommitKeepsUntouched(env: Env, w: World, name: string, es: seq<VODocument.Entry>,
                                                  submissions: seq<Json>)
    requires name in w.db.vos && w.db.vos[name].raw == VODocument.Mapping(es) && VODocument.NoRepeats(es)
    requires VOProposals.ApplyVO(VOEnvOf(env, w.db.rows), w.db.vos, Update, name,
      VOEditing.Edited(name, es, submissions), w.clock).Ok?
    ensures var vos := VOProposals.ApplyVO(VOEnvOf(env, w.db.rows), w.db.vos, Update, name,
      VOEditing.Edited(name, es, submissions), w.clock).value;
      && name in vos && vos[name].raw.Mapping?
      && (forall k :: 0 <= k < |es| && VOEditing.Untouched(es[k].name, submissions) ==> es[k] in vos[name].raw.entries)
      && (forall k, l ::
            && 0 <= k < l < |es|
            && VOEditing.Untouched(es[k].name, submissions) && VOEditing.Untouched(es[l].name, submissions)
            ==> VOEditing.InOrder(vos[name].raw.entries, es[k], es[l]))
  {
    VOEditing.UntouchedEntriesSurvive(VOEnvOf(env, w.db.rows), w.db.vos, name, es, submissions, w.clock);
  }
}
