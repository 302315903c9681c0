/**
 The life of change proposals (internal/handlers/proposals.go, internal/db/queries_proposals.go,
 internal/handlers/proposal_stale.go): created, revised, moved between statuses, approved.

 `Step` says what each request does to the proposals and the tables; class Workflow does it.
 */
module Workflow {
  import opened Wrappers
  import opened Json
  import opened Kinds
  import opened Registry
  import opened RegistrySafety
  import Applier
  import Merge
  import VODocument
  import VOEditing

  datatype Status = Draft | Pending | Rejected | Applied | Withdrawn

  // `revisions` holds the states saved so far, the first at creation; revision n has index n - 1.
  // `submissions` records what was submitted each time, before merging.
  datatype Proposal = Proposal(
    kind: Kind,
    op: Operation,
    target: string,
    state: Json,
    base: Option<Json>,
    baseAt: Option<nat>,
    status: Status,
    revisions: seq<Json>,
    submissions: seq<Json>
  )

  // The next change of a table gets version `clock`.
  datatype World = World(db: DB, proposals: seq<Proposal>, clock: nat)

  datatype Event =
    | Submit(kind: Kind, op: Operation, target: string, submitted: Json, pending: bool)
    | Revise(id: nat, submitted: Json)
    | Move(id: nat, status: Status)
      // `unaccepted` invites of new contacts block the approval; `crash` says that the process dies
      // after the tables are committed and before the status is written.
    | Approve(id: nat, unaccepted: nat, crash: bool)
    | Decide(handOff: nat, accept: bool)

  // ---- what each request does ----

  function SnapshotOf(env: Env, db: DB, kind: Kind, target: string): Option<Json> {
    match kind
    case Bundle => None
    case VO =>
      if target !in db.vos then None
      else
        (match VODocument.DocFromRaw(db.vos[target].raw)
         case Ok(doc) => Some(VOEditing.Snapshot(target, doc))
         case Err(_) => None)
    case _ => env.snapshot(kind, db, target)
  }

  predicate Acceptable(env: Env, kind: Kind, op: Operation, state: Json) {
    op == Delete || env.valid(kind, state)
  }

  ghost function Submitted(env: Env, w: World, kind: Kind, op: Operation, target: string, submitted: Json,
                           pending: bool): seq<Proposal>
  {
    var branches := op != Create && target != "";
    var base := if branches then SnapshotOf(env, w.db, kind, target) else None;
    var baseAt := if branches then UpdatedAt(env, w.db, kind, target) else None;
    var state := if op == Update && base.Some? then Merge.MergeProposed(kind, base.value, submitted) else submitted;
    if !Acceptable(env, kind, op, state) then w.proposals
    else w.proposals + [Proposal(kind, op, target, state, base, baseAt, if pending then Pending
      else Draft, [state], [submitted])]
  }

  function Revised(env: Env, p: Proposal, submitted: Json): Proposal {
    var state := if p.op == Update then Merge.MergeProposed(p.kind, p.state, submitted) else submitted;
    if p.status in {Applied, Rejected} || !Acceptable(env, p.kind, p.op, state) then p
    else p.(state := state, revisions := p.revisions + [state], submissions := p.submissions + [submitted])
  }

  // A resource's own creation learns the id it was given.
  function Backfilled(env: Env, p: Proposal, now: nat): Proposal {
    if p.kind == Resource && p.op == Create then
      match env.decode(Resource, p.state)
      case Some(ResourceState(_, _, id, _, _, _)) => p.(target := env.formatId(if id.Some? then id.value
        else env.mint(now, 0)))
      case _ => p
    else p
  }

  ghost function Outcome(env: Env, w: World, p: Proposal): Result<DB, Error> {
    Apply(env, w.db, p.kind, p.op, p.target, p.state, p.baseAt, w.clock)
  }

  // The approval changes the tables.
  ghost predicate Commits(env: Env, w: World, e: Event) {
    && e.Approve? && e.id < |w.proposals| && w.proposals[e.id].status == Pending && e.unaccepted == 0
    && Outcome(env, w, w.proposals[e.id]).Ok?
  }

  ghost function Step(env: Env, w: World, e: Event): World {
    match e
    case Submit(kind, op, target, submitted, pending) =>
      World(w.db, Submitted(env, w, kind, op, target, submitted, pending), w.clock + 1)
    case Revise(id, submitted) =>
      if id < |w.proposals| then w.(proposals := w.proposals[id := Revised(env, w.proposals[id], submitted)],
        clock := w.clock + 1)
      else w.(clock := w.clock + 1)
    case Move(id, status) =>
      // No check of the status it had.
      if id < |w.proposals| && status in {Pending, Withdrawn, Rejected}
      then w.(proposals := w.proposals[id := w.proposals[id].(status := status)], clock := w.clock + 1)
      else w.(clock := w.clock + 1)
    case Approve(id, _, crash) =>
      if Commits(env, w, e) then
        var p := Backfilled(env, w.proposals[id], w.clock);
        World(Outcome(env, w, w.proposals[id]).value,
              w.proposals[id := if crash then p else p.(status := Applied)], w.clock + 1)
      else w.(clock := w.clock + 1)
    case Decide(i, accept) => w.(db := Decided(w.db, i, accept), clock := w.clock + 1)
  }

  // ---- the code ----

  class Workflow {
    const env: Env
    const live: Applier.Applier
    var proposals: seq<Proposal>
    var clock: nat

    constructor (env: Env, db: DB)
      ensures this.env == env && fresh(live) && live.env == env && View() == World(db, [], 0)
    {
      this.env, proposals, clock := env, [], 0;
      live := new Applier.Applier(env, db);
    }

    function View(): World
      reads this, live
    {
      World(live.db, proposals, clock)
    }

    ghost predicate Valid()
      reads this, live
    {
      live.env == env && Healthy(env, live.db)
    }

    method CreateProposal(kind: Kind, op: Operation, target: string, submitted: Json, pending: bool)
      requires Valid()
      modifies this
      ensures Valid()
      ensures View() == Step(env, old(View()), Submit(kind, op, target, submitted, pending))
    {
      var base: Option<Json> := None;
      var baseAt: Option<nat> := None;
      if op != Create && target != "" {
        base := SnapshotOf(env, live.db, kind, target);
        baseAt := live.FindUpdatedAt(kind, target);
      }
      var state := submitted;
      if op == Update && base.Some? {
        state := Merge.MergeProposedState(kind, base.value, submitted);
      }
      if Acceptable(env, kind, op, state) {
        var status := if pending then Pending else Draft;
        proposals := proposals + [Proposal(kind, op, target, state, base, baseAt, status, [state], [submitted])];
      }
      clock := clock + 1;
    }

    method ReviseProposal(id: nat, submitted: Json)
      requires Valid()
      modifies this
      ensures Valid()
      ensures View() == Step(env, old(View()), Revise(id, submitted))
    {
      clock := clock + 1;
      if id >= |proposals| {
        return;
      }
      var p := proposals[id];
      if p.status == Applied || p.status == Rejected {
        assert proposals == proposals[id := p];
        return;
      }
      var state := submitted;
      if p.op == Update {
        state := Merge.MergeProposedState(p.kind, p.state, submitted);
      }
      if Acceptable(env, p.kind, p.op, state) {
        p := p.(state := state, revisions := p.revisions + [state], submissions := p.submissions + [submitted]);
      }
      proposals := proposals[id := p];
    }

    method Transition(id: nat, status: Status)
      requires Valid() && status in {Pending, Withdrawn, Rejected}
      modifies this
      ensures Valid()
      ensures View() == Step(env, old(View()), Move(id, status))
    {
      clock := clock + 1;
      if id < |proposals| {
        proposals := proposals[id := proposals[id].(status := status)];
      }
    }

    method ApproveProposal(id: nat, unaccepted: nat, crash: bool)
      requires Valid()
      modifies this, live
      ensures Valid()
      ensures View() == Step(env, old(View()), Approve(id, unaccepted, crash))
      ensures id < |old(proposals)| ==>
        var p := old(proposals)[id];
        var change := Apply(env, old(live.db), p.kind, p.op, p.target, p.state, p.baseAt, old(clock));
        && |proposals| == |old(proposals)|
        && (if p.status == Pending && unaccepted == 0 && change.Ok?
            then live.db == change.value && proposals[id].status == (if crash then Pending else Applied)
            else live.db == old(live.db) && proposals == old(proposals))
    {
      var now := clock;
      clock := clock + 1;
      if id >= |proposals| || proposals[id].status != Pending || unaccepted > 0 {
        return;
      }
      var p := proposals[id];
      var err := live.ApplyInTx(p.kind, p.op, p.target, p.state, p.baseAt, now);
      if err.Some? {
        return;
      }
      p := Backfilled(env, p, now);
      proposals := proposals[id := p];
      if crash {
        return;
      }
      proposals := proposals[id := p.(status := Applied)];
    }

    method DecideReplacement(handOff: nat, accept: bool)
      requires Valid()
      modifies this, live
      ensures Valid()
      ensures View() == Step(env, old(View()), Decide(handOff, accept))
    {
      clock := clock + 1;
      if handOff >= |live.db.handOffs| || live.db.handOffs[handOff].decision != Waiting {
        return;
      }
      if accept {
        var given := live.ReplaceContactSlot(live.db.handOffs[handOff]);
        if !given {
          return;
        }
      }
      var h := live.db.handOffs[handOff];
      live.db := live.db.(handOffs := live.db.handOffs[handOff := h.(decision := if accept then Accepted
        else Refused)]);
    }
  }
}
