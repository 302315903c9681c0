/**
 What a proposal holds, by the requests of a run: what it was created from, which submissions were
 saved and that each of them was valid.
 */
module ProposalContent {
  import opened Wrappers
  import opened Json
  import opened Kinds
  import opened Tables
  import opened Registry
  import opened Operations
  import opened Workflow
  import opened WorkflowSafety
  import opened WorkflowStatus
  import Merge
  import VODocument
  import VOEditing

  // ---- creation ----

  // The document that a snapshot of the target shows: its own name for a VO's file.
  ghost predicate IsSnapshot(env: Env, db: DB, kind: Kind, target: string, base: Option<Json>) {
    match kind
    case Bundle => base == None
    case VO =>
      if target in db.vos && VODocument.DocFromRaw(db.vos[target].raw).Ok?
      then base == Some(VOEditing.Snapshot(target, VODocument.DocFromRaw(db.vos[target].raw).value))
      else base == None
    case _ => base == env.snapshot(kind, db, target)
  }

  // What the first revision holds when the target's snapshot is `base`.
  ghost function FirstState(kind: Kind, op: Operation, base: Option<Json>, submitted: Json): Json {
    if op == Update && base.Some? then Merge.MergeProposed(kind, base.value, submitted) else submitted
  }

  /** A submission becomes a proposal exactly when it is a deletion or what it leads to is valid.  The
      proposal is what was asked for, with a snapshot of its target as it is then and the version of that,
      unless it is a creation or names no target; no other proposal and no table changes. */
  lemma {:induction false} SubmissionOutcome(env: Env, w: World, kind: Kind, op: Operation, target: string,
                                             submitted: Json, pending: bool)
    returns (base: Option<Json>)
    ensures if op == Create || target == "" then base == None else IsSnapshot(env, w.db, kind, target, base)
    ensures var after, n := Step(env, w, Submit(kind, op, target, submitted, pending)), |w.proposals|;
      && after.db == w.db && n <= |after.proposals| <= n + 1 && after.proposals[..n] == w.proposals
      && (|after.proposals| == n + 1 <==> op == Delete || env.valid(kind, FirstState(kind, op, base, submitted)))
      && (|after.proposals| == n + 1 ==>
            var p := after.proposals[n];
            && p.kind == kind && p.op == op && p.target == target && p.base == base
            && p.state == FirstState(kind, op, base, submitted) && p.submissions == [submitted]
            && p.baseAt == (if op == Create then None else UpdatedAt(env, w.db, kind, target))
            && p.status == (if pending then Pending else Draft))
  {
    hide Apply;
    base := if op == Create || target == "" then None else SnapshotOf(env, w.db, kind, target);
  }

  // ---- revisions ----

  // The submission that request k adds to the proposal, if it adds one: a revision is saved when the
  // proposal is neither applied nor rejected and stays valid with it.
  ghost function Saved(env: Env, w: World, events: seq<Event>, k: nat, id: nat): seq<Json>
    requires k < |events|
  {
    var before := At(env, w, events, k);
    if Creates(env, w, events, k, id) then [events[k].submitted]
    else if events[k].Revise? && events[k].id == id && id < |before.proposals| then
      var p := before.proposals[id];
      var state := if p.op == Update then Merge.MergeProposed(p.kind, p.state, events[k].submitted)
        else events[k].submitted;
      if p.status in {Applied, Rejected} || (p.op != Delete && !env.valid(p.kind, state)) then []
      else [events[k].submitted]
    else []
  }

  // All that the requests before i add, in their order.
  ghost function AllSaved(env: Env, w: World, events: seq<Event>, i: nat, id: nat): seq<Json>
    requires i <= |events|
  {
    if i == 0 then [] else AllSaved(env, w, events, i - 1, id) + Saved(env, w, events, i - 1, id)
  }

  lemma {:induction false} SavedStep(env: Env, w: World, events: seq<Event>, i: nat, id: nat)
    requires i < |events| && id < |At(env, w, events, i + 1).proposals|
    ensures At(env, w, events, i + 1).proposals[id].submissions ==
      (if id < |At(env, w, events, i).proposals| then At(env, w, events, i).proposals[id].submissions else [])
      + Saved(env, w, events, i, id)
  {
    hide Apply;
    AtNext(env, w, events, i);
  }

  lemma {:induction false} NothingSaved(env: Env, w: World, events: seq<Event>, i: nat, id: nat)
    requires i <= |events| && id >= |At(env, w, events, i).proposals|
    ensures AllSaved(env, w, events, i, id) == []
  {
    if i > 0 {
      NothingSaved(env, w, events, i - 1, id);
    }
  }

  /** The submissions of a proposal are those of its creation and of every revision that found it neither
      applied nor rejected and left it valid, in the order of the requests. */
  lemma {:induction false} SubmissionsAreThoseSaved(env: Env, w: World, events: seq<Event>, i: nat, id: nat)
    requires w.proposals == [] && i <= |events| && id < |At(env, w, events, i).proposals|
    ensures At(env, w, events, i).proposals[id].submissions == AllSaved(env, w, events, i, id)
  {
    hide Saved, Step;
    if i > 0 {
      SavedStep(env, w, events, i - 1, id);
      if id < |At(env, w, events, i - 1).proposals| {
        SubmissionsAreThoseSaved(env, w, events, i - 1, id);
      } else {
        NothingSaved(env, w, events, i - 1, id);
      }
    }
  }

  // ---- validity ----

  ghost predicate AllValid(env: Env, p: Proposal) {
    p.op != Delete ==>
      && env.valid(p.kind, p.state)
      && forall n :: 0 <= n < |p.revisions| ==> env.valid(p.kind, p.revisions[n])
  }

  lemma {:induction false} StepKeepsValid(env: Env, w: World, e: Event)
    requires forall id :: 0 <= id < |w.proposals| ==> AllValid(env, w.proposals[id])
    ensures forall id :: 0 <= id < |Step(env, w, e).proposals| ==> AllValid(env, Step(env, w, e).proposals[id])
  {
    hide Apply;
  }

  /** No proposal of a creation or update ever holds a state, or has saved one, that is not valid. */
  lemma {:induction false} HeldStatesAreValid(env: Env, w: World, events: seq<Event>, i: nat, id: nat)
    requires w.proposals == [] && i <= |events| && id < |At(env, w, events, i).proposals|
    ensures AllValid(env, At(env, w, events, i).proposals[id])
  {
    var inv := (t: World) => forall id :: 0 <= id < |t.proposals| ==> AllValid(env, t.proposals[id]);
    forall t, e | inv(t) ensures inv(Step(env, t, e)) {
      StepKeepsValid(env, t, e);
    }
    KeptFrom(env, inv, w, events, 0, i);
  }
}
