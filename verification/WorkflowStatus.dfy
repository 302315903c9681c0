/**
 Which status a proposal or a hand-off has: over every run of requests, the one that the last request
 to write it wrote.
 */
module WorkflowStatus {
  import opened Wrappers
  import opened Json
  import opened Kinds
  import opened Contacts
  import opened ContactSlots
  import opened Tables
  import opened Registry
  import opened Operations
  import opened Workflow
  import opened WorkflowSafety

  // ---- what the requests of a run do to one proposal ----

  // Request k brings the proposal into being.
  ghost predicate Creates(env: Env, w: World, events: seq<Event>, k: nat, id: nat)
    requires k < |events|
  {
    events[k].Submit? && |At(env, w, events, k).proposals| == id && |At(env, w, events, k + 1).proposals| == id + 1
  }

  // Request k moves the proposal to a status a user can give it.
  ghost predicate Moves(env: Env, w: World, events: seq<Event>, k: nat, id: nat)
    requires k < |events|
  {
    && events[k].Move? && events[k].id == id && events[k].status in {Pending, Withdrawn, Rejected}
    && id < |At(env, w, events, k).proposals|
  }

  // Request k approves the proposal while it is pending and its contacts have accepted, and what it
  // proposes can be done.
  ghost predicate Applies(env: Env, w: World, events: seq<Event>, k: nat, id: nat)
    requires k < |events|
  {
    var before := At(env, w, events, k);
    && events[k].Approve? && events[k].id == id && events[k].unaccepted == 0 && id < |before.proposals|
    && var p := before.proposals[id];
       p.status == Pending && Apply(env, before.db, p.kind, p.op, p.target, p.state, p.baseAt, before.clock).Ok?
  }

  // The status that request k writes, if it writes one.
  ghost function StatusWritten(env: Env, w: World, events: seq<Event>, k: nat, id: nat): Option<Status>
    requires k < |events|
  {
    if Creates(env, w, events, k, id) then Some(if events[k].pending then Pending else Draft)
    else if Moves(env, w, events, k, id) then Some(events[k].status)
    else if Applies(env, w, events, k, id) && !events[k].crash then Some(Applied)
    else None
  }

  // Of the requests before i, k is the last to write the status, and writes s.
  ghost predicate LastWrites(env: Env, w: World, events: seq<Event>, k: nat, i: nat, id: nat, s: Status)
    requires k < i <= |events|
  {
    && StatusWritten(env, w, events, k, id) == Some(s)
    && forall l :: k < l < i ==> StatusWritten(env, w, events, l, id) == None
  }

  lemma {:induction false} StatusStep(env: Env, w: World, events: seq<Event>, i: nat, id: nat)
    requires i < |events| && id < |At(env, w, events, i + 1).proposals|
    ensures match StatusWritten(env, w, events, i, id)
            case Some(s) => At(env, w, events, i + 1).proposals[id].status == s
            case None =>
              && id < |At(env, w, events, i).proposals|
              && At(env, w, events, i + 1).proposals[id].status == At(env, w, events, i).proposals[id].status
  {
    hide Apply;
    AtNext(env, w, events, i);
  }

  // s is the last status that one of the requests before i wrote.
  ghost predicate WrittenLast(env: Env, w: World, events: seq<Event>, i: nat, id: nat, s: Status)
    requires i <= |events|
  {
    exists k :: 0 <= k < i && LastWrites(env, w, events, k, i, id, s)
  }

  lemma {:induction false} WrittenNext(env: Env, w: World, events: seq<Event>, i: nat, id: nat, s: Status)
    requires i < |events|
    ensures WrittenLast(env, w, events, i + 1, id, s) <==>
      match StatusWritten(env, w, events, i, id)
      case Some(t) => s == t
      case None => WrittenLast(env, w, events, i, id, s)
  {
    hide StatusWritten;
    var j := i + 1;
    if StatusWritten(env, w, events, i, id) == Some(s) {
      assert LastWrites(env, w, events, i, j, id, s);
    } else if StatusWritten(env, w, events, i, id) == None && WrittenLast(env, w, events, i, id, s) {
      var k :| 0 <= k < i && LastWrites(env, w, events, k, i, id, s);
      assert LastWrites(env, w, events, k, j, id, s);
    }
    if WrittenLast(env, w, events, j, id, s) {
      var k :| 0 <= k < j && LastWrites(env, w, events, k, j, id, s);
      assert k < i ==> LastWrites(env, w, events, k, i, id, s);
    }
  }

  /** A proposal always has the status that the last request to write it wrote: the one it was submitted
      with, the one a user moved it to, or applied if it was approved, could be applied and nothing broke
      down before the status was written. */
  lemma {:induction false} StatusIsLastWritten(env: Env, w: World, events: seq<Event>, i: nat, id: nat, s: Status)
    requires w.proposals == [] && i <= |events| && id < |At(env, w, events, i).proposals|
    ensures At(env, w, events, i).proposals[id].status == s <==> WrittenLast(env, w, events, i, id, s)
  {
    hide StatusWritten;
    if i > 0 {
      StatusStep(env, w, events, i - 1, id);
      WrittenNext(env, w, events, i - 1, id, s);
      if StatusWritten(env, w, events, i - 1, id) == None {
        StatusIsLastWritten(env, w, events, i - 1, id, s);
      }
    }
  }

  // ---- each status by the requests that lead to it ----

  ghost predicate CreatesAs(env: Env, w: World, events: seq<Event>, k: nat, id: nat, s: Status)
    requires k < |events|
  {
    Creates(env, w, events, k, id) && s == if events[k].pending then Pending else Draft
  }

  ghost predicate MovesTo(env: Env, w: World, events: seq<Event>, k: nat, id: nat, s: Status)
    requires k < |events|
  {
    Moves(env, w, events, k, id) && s == events[k].status
  }

  // Nothing breaks down before the status is written.
  ghost predicate AppliesFully(env: Env, w: World, events: seq<Event>, k: nat, id: nat)
    requires k < |events|
  {
    Applies(env, w, events, k, id) && !events[k].crash
  }

  // No user moves the proposal between requests k and i.
  ghost predicate Unmoved(env: Env, w: World, events: seq<Event>, k: nat, i: nat, id: nat)
    requires k <= i <= |events|
  {
    forall l :: k <= l < i ==> !Moves(env, w, events, l, id)
  }

  // No approval of it gets as far as writing the status.
  ghost predicate Unapplied(env: Env, w: World, events: seq<Event>, k: nat, i: nat, id: nat)
    requires k <= i <= |events|
  {
    forall l :: k <= l < i ==> !AppliesFully(env, w, events, l, id)
  }

  lemma {:induction false} StatusHolds(env: Env, w: World, events: seq<Event>, i: nat, j: nat, id: nat)
    requires i <= j <= |events| && id < |At(env, w, events, i).proposals| && Unmoved(env, w, events, i, j, id)
    requires At(env, w, events, i).proposals[id].status == Pending ==> Unapplied(env, w, events, i, j, id)
    ensures id < |At(env, w, events, j).proposals|
    ensures At(env, w, events, j).proposals[id].status == At(env, w, events, i).proposals[id].status
    decreases j
  {
    hide Apply, Step;
    if i < j {
      var l := j - 1;
      StatusHolds(env, w, events, i, l, id);
      OriginStays(env, w, events, l, j, id);
      StatusStep(env, w, events, l, id);
      assert !Creates(env, w, events, l, id) && !Moves(env, w, events, l, id) && !AppliesFully(env, w, events, l, id);
    }
  }

  // Request k is of a kind that writes status s.
  ghost predicate WritesStatus(env: Env, w: World, events: seq<Event>, k: nat, id: nat, s: Status)
    requires k < |events|
  {
    || CreatesAs(env, w, events, k, id, s)
    || MovesTo(env, w, events, k, id, s)
    || (s == Applied && AppliesFully(env, w, events, k, id))
  }

  lemma {:induction false} WriterIsKnown(env: Env, w: World, events: seq<Event>, i: nat, id: nat) returns (k: nat)
    requires w.proposals == [] && i <= |events| && id < |At(env, w, events, i).proposals|
    ensures k < i && WritesStatus(env, w, events, k, id, At(env, w, events, i).proposals[id].status)
    ensures Unmoved(env, w, events, k + 1, i, id) && Unapplied(env, w, events, k + 1, i, id)
  {
    hide Apply, Step, At;
    var s := At(env, w, events, i).proposals[id].status;
    StatusIsLastWritten(env, w, events, i, id, s);
    k :| 0 <= k < i && LastWrites(env, w, events, k, i, id, s);
    forall l | k + 1 <= l < i ensures !Moves(env, w, events, l, id) && !AppliesFully(env, w, events, l, id) {
      assert StatusWritten(env, w, events, l, id) == None;
    }
  }

  lemma {:induction false} WrittenHolds(env: Env, w: World, events: seq<Event>, k: nat, i: nat, id: nat, s: Status)
    requires k < i <= |events| && WritesStatus(env, w, events, k, id, s)
    requires Unmoved(env, w, events, k + 1, i, id) && (s == Pending ==> Unapplied(env, w, events, k + 1, i, id))
    ensures id < |At(env, w, events, i).proposals| && At(env, w, events, i).proposals[id].status == s
  {
    hide Apply, Step;
    if !Creates(env, w, events, k, id) {
      OriginStays(env, w, events, k, k + 1, id);
    }
    StatusStep(env, w, events, k, id);
    StatusHolds(env, w, events, k + 1, i, id);
  }

  /** A proposal is applied exactly when it was approved while pending, could be applied, nothing broke down
      before its status was written, and no user has moved it since. */
  lemma {:induction false} AppliedExactlyWhen(env: Env, w: World, events: seq<Event>, i: nat, id: nat)
    requires w.proposals == [] && i <= |events| && id < |At(env, w, events, i).proposals|
    ensures At(env, w, events, i).proposals[id].status == Applied <==>
      exists k :: 0 <= k < i && AppliesFully(env, w, events, k, id) && Unmoved(env, w, events, k + 1, i, id)
  {
    hide Step, At, Creates, Applies;
    if At(env, w, events, i).proposals[id].status == Applied {
      var k := WriterIsKnown(env, w, events, i, id);
    }
    if k :| 0 <= k < i && AppliesFully(env, w, events, k, id) && Unmoved(env, w, events, k + 1, i, id) {
      WrittenHolds(env, w, events, k, i, id, Applied);
    }
  }

  /** A proposal is a draft exactly when it was submitted as one and no user has moved it since. */
  lemma {:induction false} DraftExactlyWhen(env: Env, w: World, events: seq<Event>, i: nat, id: nat)
    requires w.proposals == [] && i <= |events| && id < |At(env, w, events, i).proposals|
    ensures At(env, w, events, i).proposals[id].status == Draft <==>
      exists k :: 0 <= k < i && CreatesAs(env, w, events, k, id, Draft) && Unmoved(env, w, events, k + 1, i, id)
  {
    hide Step, At, Creates, Applies;
    if At(env, w, events, i).proposals[id].status == Draft {
      var k := WriterIsKnown(env, w, events, i, id);
    }
    if k :| 0 <= k < i && CreatesAs(env, w, events, k, id, Draft) && Unmoved(env, w, events, k + 1, i, id) {
      WrittenHolds(env, w, events, k, i, id, Draft);
    }
  }

  /** A proposal is withdrawn, or rejected, exactly when that is where a user moved it last. */
  lemma {:induction false} WithdrawnOrRejectedExactlyWhen(env: Env, w: World, events: seq<Event>, i: nat, id: nat,
                                                          s: Status)
    requires w.proposals == [] && i <= |events| && id < |At(env, w, events, i).proposals|
    requires s in {Withdrawn, Rejected}
    ensures At(env, w, events, i).proposals[id].status == s <==>
      exists k :: 0 <= k < i && MovesTo(env, w, events, k, id, s) && Unmoved(env, w, events, k + 1, i, id)
  {
    hide Step, At, Creates, Applies;
    if At(env, w, events, i).proposals[id].status == s {
      var k := WriterIsKnown(env, w, events, i, id);
    }
    if k :| 0 <= k < i && MovesTo(env, w, events, k, id, s) && Unmoved(env, w, events, k + 1, i, id) {
      WrittenHolds(env, w, events, k, i, id, s);
    }
  }

  /** A proposal is pending exactly when it was submitted or moved to pending and since then no user has
      moved it and no approval has got as far as writing its status: an approval that broke down in
      between leaves it pending. */
  lemma {:induction false} PendingExactlyWhen(env: Env, w: World, events: seq<Event>, i: nat, id: nat)
    requires w.proposals == [] && i <= |events| && id < |At(env, w, events, i).proposals|
    ensures At(env, w, events, i).proposals[id].status == Pending <==>
      exists k ::
        && 0 <= k < i
        && (CreatesAs(env, w, events, k, id, Pending) || MovesTo(env, w, events, k, id, Pending))
        && Unmoved(env, w, events, k + 1, i, id) && Unapplied(env, w, events, k + 1, i, id)
  {
    hide Step, At, Creates, Applies;
    if At(env, w, events, i).proposals[id].status == Pending {
      var k := WriterIsKnown(env, w, events, i, id);
    }
    if k :|
      && 0 <= k < i
      && (CreatesAs(env, w, events, k, id, Pending) || MovesTo(env, w, events, k, id, Pending))
      && Unmoved(env, w, events, k + 1, i, id) && Unapplied(env, w, events, k + 1, i, id)
    {
      WrittenHolds(env, w, events, k, i, id, Pending);
    }
  }

  // ---- what an approval leaves ----

  /** An approval puts the proposed change into the tables, all of it, exactly when the proposal is pending,
      its contacts have accepted and the change can be made; otherwise it changes nothing.  It writes the
      status unless it breaks down before, and touches no other proposal and nothing else of this one but
      the target of a creation of a resource. */
  lemma {:induction false} ApprovalOutcome(env: Env, w: World, id: nat, unaccepted: nat, crash: bool)
    requires id < |w.proposals|
    ensures var p, after := w.proposals[id], Step(env, w, Approve(id, unaccepted, crash));
      var change := Apply(env, w.db, p.kind, p.op, p.target, p.state, p.baseAt, w.clock);
      && (forall other :: 0 <= other < |w.proposals| && other != id ==> after.proposals[other] == w.proposals[other])
      && |after.proposals| == |w.proposals|
      && (if p.status == Pending && unaccepted == 0 && change.Ok? then
            && after.db == change.value
            && after.proposals[id].status == (if crash then Pending else Applied)
            && after.proposals[id].(status := p.status, target := p.target) == p
            && (p.kind != Resource || p.op != Create ==> after.proposals[id].target == p.target)
          else
            after.db == w.db && after.proposals == w.proposals)
  {
    hide Apply;
  }

  /** The creation of a resource, once approved, points at the resource that it created. */
  lemma {:induction false} CreationPointsAtItsResource(env: Env, w: World, id: nat, unaccepted: nat, crash: bool)
    requires id < |w.proposals| && w.proposals[id].kind == Resource && w.proposals[id].op == Create
    requires Commits(env, w, Approve(id, unaccepted, crash))
    requires forall n :: env.formatId(n) != "" && env.parseId(env.formatId(n)) == Some(n)
    ensures var q, after := Step(env, w, Approve(id, unaccepted, crash)).proposals[id],
                            Step(env, w, Approve(id, unaccepted, crash)).db;
      var created := env.decode(Resource, q.state).value;
      && TargetOf(env, w.db, Resource, q.target) == None
      && (created.id.Some? ==> q.target == env.formatId(created.id.value))
      && TargetOf(env, after, Resource, q.target).Some?
      && TargetOf(env, after, Resource, q.target).value.row.content.name == created.name
      && UpdatedAt(env, after, Resource, q.target) == Some(w.clock)
  {}

  // ---- hand-offs ----

  lemma {:induction false} OpKeepsDecisions(env: Env, db: DB, o: BundleOp, now: nat, nth: nat, h: nat)
    requires h < |db.handOffs| && ApplyOp(env, db, o, now, nth).Ok?
    ensures SameDecision(db.handOffs[h], ApplyOp(env, db, o, now, nth).value, h)
  {}

  // The request is there, with the decision it had; one that was decided is as it was.
  ghost predicate SameDecision(was: HandOff, db: DB, h: nat) {
    && h < |db.handOffs| && db.handOffs[h].decision == was.decision
    && (was.decision != Waiting ==> db.handOffs[h] == was)
  }

  lemma {:induction false} ApprovalKeepsDecisions(env: Env, w: World, e: Event, h: nat)
    requires h < |w.db.handOffs| && e.Approve?
    ensures SameDecision(w.db.handOffs[h], Step(env, w, e).db, h)
  {
    if Commits(env, w, e) {
      var p, was := w.proposals[e.id], w.db.handOffs[h];
      var inv := (d: DB) => SameDecision(was, d, h);
      forall d, o, now, nth | inv(d) && ApplyOp(env, d, o, now, nth).Ok?
        ensures inv(ApplyOp(env, d, o, now, nth).value)
      {
        OpKeepsDecisions(env, d, o, now, nth, h);
      }
      ApplyIsOps(env, w.db, p.kind, p.op, p.target, p.state, p.baseAt, w.clock);
      var ops := CommittedOps(env, w, e);
      OpsKeep(env, inv, o => true, w.db, ops, 0, |ops|, w.clock);
    }
  }

  // A request can be granted: a resource is found by its name, every other entity keeps a list under its own.
  ghost predicate CanBeGranted(db: DB, h: nat)
    requires h < |db.handOffs|
  {
    db.handOffs[h].kind == Resource ==> exists key :: IsNamed(db.rows, key, Resource, db.handOffs[h].entity)
  }

  // The decision that request e makes on hand-off h, if it makes one.
  ghost function DecisionMade(w: World, e: Event, h: nat): Option<Decision> {
    if !e.Decide? || e.handOff != h || h >= |w.db.handOffs| || w.db.handOffs[h].decision != Waiting then None
    else if !e.accept then Some(Refused)
    else if CanBeGranted(w.db, h) then Some(Accepted)
    else None
  }

  lemma {:induction false} DecisionStep(env: Env, w: World, e: Event, h: nat)
    requires h < |w.db.handOffs|
    ensures match DecisionMade(w, e, h)
            case Some(d) =>
              h < |Step(env, w, e).db.handOffs|
              && Step(env, w, e).db.handOffs[h] == w.db.handOffs[h].(decision := d)
            case None => SameDecision(w.db.handOffs[h], Step(env, w, e).db, h)
  {
    match e
    case Approve(_, _, _) => ApprovalKeepsDecisions(env, w, e, h);
    case _ =>
  }

  /** A hand-off that has been decided never changes again: an accepted one does not wait a second time, a
      refused one is not accepted later. */
  lemma {:induction false} DecisionsAreFinal(env: Env, w: World, events: seq<Event>, i: nat, j: nat, h: nat)
    requires i <= j <= |events|
    requires h < |At(env, w, events, i).db.handOffs| && At(env, w, events, i).db.handOffs[h].decision != Waiting
    ensures h < |At(env, w, events, j).db.handOffs|
    ensures At(env, w, events, j).db.handOffs[h] == At(env, w, events, i).db.handOffs[h]
  {
    var was := At(env, w, events, i).db.handOffs[h];
    forall t: World, e | SameDecision(was, t.db, h) ensures SameDecision(was, Step(env, t, e).db, h) {
      DecisionStep(env, t, e, h);
    }
    KeptFrom(env, (t: World) => SameDecision(was, t.db, h), w, events, i, j);
  }

  // One of the requests before i makes the decision.
  ghost predicate WasDecided(env: Env, w: World, events: seq<Event>, i: nat, h: nat, d: Decision)
    requires i <= |events|
  {
    exists k :: 0 <= k < i && DecisionMade(At(env, w, events, k), events[k], h) == Some(d)
  }

  lemma {:induction false} WasDecidedNext(env: Env, w: World, events: seq<Event>, i: nat, h: nat, d: Decision)
    requires i < |events|
    ensures WasDecided(env, w, events, i + 1, h, d) <==>
      WasDecided(env, w, events, i, h, d) || DecisionMade(At(env, w, events, i), events[i], h) == Some(d)
  {
    hide At, DecisionMade;
    var j := i + 1;
    if WasDecided(env, w, events, i, h, d) {
      var k :| 0 <= k < i && DecisionMade(At(env, w, events, k), events[k], h) == Some(d);
      assert k < j;
    }
    if WasDecided(env, w, events, j, h, d) {
      var k :| 0 <= k < j && DecisionMade(At(env, w, events, k), events[k], h) == Some(d);
    }
  }

  /** A hand-off is accepted, or refused, exactly when a request that found it waiting decided it so; it is
      waiting as long as there was none. */
  lemma {:induction false} DecidedExactlyWhen(env: Env, w: World, events: seq<Event>, i: nat, h: nat, d: Decision)
    requires h < |w.db.handOffs| && w.db.handOffs[h].decision == Waiting && i <= |events| && d != Waiting
    ensures h < |At(env, w, events, i).db.handOffs|
    ensures At(env, w, events, i).db.handOffs[h].decision == d <==> WasDecided(env, w, events, i, h, d)
  {
    hide Step, WasDecided;
    if i == 0 {
      NothingDecided(env, w, events, h, d);
    } else {
      DecidedExactlyWhen(env, w, events, i - 1, h, d);
      AtNext(env, w, events, i - 1);
      DecisionStep(env, At(env, w, events, i - 1), events[i - 1], h);
      WasDecidedNext(env, w, events, i - 1, h, d);
    }
  }

  lemma NothingDecided(env: Env, w: World, events: seq<Event>, h: nat, d: Decision)
    ensures !WasDecided(env, w, events, 0, h, d)
  {}

  // Everything but the contact lists and the hand-offs.
  ghost predicate OnlyContactsDiffer(a: DB, b: DB) {
    a.rows == b.rows && a.vos == b.vos && a.next == b.next
  }

  /** Deciding a hand-off changes the slot it is about, when it is accepted, and nothing else: no row, no
      other slot and no other hand-off.  The slot of a facility, site or group has the new holder alone. */
  lemma {:induction false} DecisionChangesOneSlot(env: Env, w: World, h: nat, accept: bool)
    requires h < |w.db.handOffs| && w.db.handOffs[h].kind != Resource
    ensures var after, ho := Step(env, w, Decide(h, accept)).db, w.db.handOffs[h];
      && OnlyContactsDiffer(w.db, after) && after.children == w.db.children
      && |after.handOffs| == |w.db.handOffs|
      && (forall i :: 0 <= i < |after.handOffs| && i != h ==> after.handOffs[i] == w.db.handOffs[i])
      && (if DecisionMade(w, Decide(h, accept), h) != Some(Accepted) then after.contacts == w.db.contacts
          else
            var n := |w.db.contacts|;
            && |after.contacts| == n + 1 && after.contacts[n].name == ho.name && after.contacts[n].id == ho.id
            && (forall i :: 0 <= i <= n ==>
                  (Holds(after.contacts[i], ho.kind, ho.entity, ho.ctype, ho.rank) <==> i == n))
            && (forall i :: 0 <= i < n ==>
                  || after.contacts[i] == w.db.contacts[i]
                  || (Holds(w.db.contacts[i], ho.kind, ho.entity, ho.ctype, ho.rank)
                      && after.contacts[i] == w.db.contacts[i].(live := false))))
  {
    var ho := w.db.handOffs[h];
    SlotHasOneHolder(w.db.contacts, ho.kind, ho.entity, ho.ctype, ho.rank, ho.name, ho.id);
  }

  // Who holds a slot of a resource.
  function HolderOf(db: DB, id: int, ctype: string, rank: string): Option<Contact> {
    if id in db.children && ctype in db.children[id].lists && rank in db.children[id].lists[ctype]
    then Some(db.children[id].lists[ctype][rank]) else None
  }

  /** Accepting the hand-off of a resource's slot puts the new holder there; every other slot of the
      resource, its services and all other resources are as they were. */
  lemma {:induction false} ResourceDecisionChangesOneSlot(env: Env, w: World, h: nat, accept: bool, id: int)
    requires h < |w.db.handOffs| && w.db.handOffs[h].kind == Resource && w.db.handOffs[h].decision == Waiting
    requires Named(w.db.rows, Resource, w.db.handOffs[h].entity) == Some(id)
    ensures var after, ho := Step(env, w, Decide(h, accept)).db, w.db.handOffs[h];
      && OnlyContactsDiffer(w.db, after) && after.contacts == w.db.contacts
      && after.handOffs == w.db.handOffs[h := ho.(decision := if accept then Accepted else Refused)]
      && (!accept ==> after.children == w.db.children)
      && (accept ==>
            && after.children - {id} == w.db.children - {id}
            && id in after.children
            && after.children[id].services == (if id in w.db.children then w.db.children[id].services else map[])
            && HolderOf(after, id, ho.ctype, ho.rank) == Some(Contact(ho.ctype, ho.name, ho.id))
            && forall t, r :: t != ho.ctype || r != ho.rank ==> HolderOf(after, id, t, r) == HolderOf(w.db, id, t, r))
  {
    hide Apply;
  }
}
