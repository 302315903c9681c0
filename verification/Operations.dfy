/**
 A proposal as a list of operations - those of a bundle, or its own - and what an operation that keeps
 something keeps over whole proposals and over runs of proposals.
 */
module Operations {
  import opened Wrappers
  import opened Json
  import opened Kinds
  import opened Registry
  import Runs

  function OpsOf(env: Env, kind: Kind, op: Operation, target: string, state: Json): seq<BundleOp> {
    if kind != Bundle then [BundleOp(kind, op, target, state)]
    else
      match env.decode(Bundle, state)
      case Some(BundleState(ops)) => ops
      case _ => []
  }

  /** A proposal that applies does what its operations do one after the other. */
  lemma {:induction false} ApplyIsOps(env: Env, db: DB, kind: Kind, op: Operation, target: string, state: Json,
                                      baseAt: Option<nat>, now: nat)
    requires Apply(env, db, kind, op, target, state, baseAt, now).Ok?
    ensures var ops := OpsOf(env, kind, op, target, state);
      ops != [] && Apply(env, db, kind, op, target, state, baseAt, now) == ApplyOps(env, db, ops, |ops|, now)
  {
    if kind != Bundle {
      OneOp(env, db, BundleOp(kind, op, target, state), now);
    }
  }

  lemma {:induction false} OneOp(env: Env, db: DB, o: BundleOp, now: nat)
    ensures ApplyOps(env, db, [o], 1, now) == ApplyOp(env, db, o, now, 0)
  {
    assert ApplyOps(env, db, [o], 0, now) == Ok(db);
  }

  // Every allowed operation keeps the invariant.
  ghost predicate OpKeeps(env: Env, inv: DB -> bool, allowed: BundleOp -> bool) {
    forall d, o, now, nth :: inv(d) && allowed(o) && ApplyOp(env, d, o, now, nth).Ok? ==>
      inv(ApplyOp(env, d, o, now, nth).value)
  }

  lemma {:induction false} OpsKeep(env: Env, inv: DB -> bool, allowed: BundleOp -> bool,
                                   db: DB, ops: seq<BundleOp>, m: nat, n: nat, now: nat)
    requires OpKeeps(env, inv, allowed)
    requires m <= n <= |ops| && forall i :: m <= i < n ==> allowed(ops[i])
    requires ApplyOps(env, db, ops, n, now).Ok?
    requires ApplyOps(env, db, ops, m, now).Ok? && inv(ApplyOps(env, db, ops, m, now).value)
    ensures inv(ApplyOps(env, db, ops, n, now).value)
    decreases n
  {
    hide ApplySingle;
    if m < n {
      OpsKeep(env, inv, allowed, db, ops, m, n - 1, now);
    }
  }

  // The same for what depends on how many operations have been carried out.
  lemma {:induction false} OpsLead(env: Env, inv: (nat, DB) -> bool, db: DB, ops: seq<BundleOp>, n: nat, now: nat)
    requires n <= |ops| && inv(0, db) && ApplyOps(env, db, ops, n, now).Ok?
    requires forall k: nat, d :: k < n && inv(k, d) && ApplyOp(env, d, ops[k], now, k).Ok? ==>
      inv(k + 1, ApplyOp(env, d, ops[k], now, k).value)
    ensures inv(n, ApplyOps(env, db, ops, n, now).value)
  {
    hide ApplySingle;
    if n > 0 {
      OpsLead(env, inv, db, ops, n - 1, now);
    }
  }

  // ---- runs of proposals ----

  // A proposal, with the version it branched from and the time at which it is applied.
  datatype Request = Request(kind: Kind, op: Operation, target: string, state: Json, baseAt: Option<nat>, now: nat)

  function RequestOps(env: Env, r: Request): seq<BundleOp> {
    OpsOf(env, r.kind, r.op, r.target, r.state)
  }

  // One that fails changes nothing.
  ghost function RunOne(env: Env, db: DB, r: Request): DB {
    match Apply(env, db, r.kind, r.op, r.target, r.state, r.baseAt, r.now)
    case Ok(after) => after
    case Err(_) => db
  }

  // Proposals applied one after the other.
  ghost function RunAll(env: Env, db: DB, rs: seq<Request>): DB {
    Runs.At((d, r) => RunOne(env, d, r), db, rs, |rs|)
  }

  // No operation of any of the proposals is one that is not allowed.
  ghost predicate AllOps(env: Env, rs: seq<Request>, allowed: BundleOp -> bool) {
    forall i :: 0 <= i < |rs| ==> OnlyOps(env, rs[i], allowed)
  }

  ghost predicate OnlyOps(env: Env, r: Request, allowed: BundleOp -> bool) {
    forall k :: 0 <= k < |RequestOps(env, r)| ==> allowed(RequestOps(env, r)[k])
  }

  lemma {:induction false} RunOneKeeps(env: Env, inv: DB -> bool, allowed: BundleOp -> bool, db: DB, r: Request)
    requires OpKeeps(env, inv, allowed) && inv(db) && OnlyOps(env, r, allowed)
    ensures inv(RunOne(env, db, r))
  {
    if Apply(env, db, r.kind, r.op, r.target, r.state, r.baseAt, r.now).Ok? {
      ApplyIsOps(env, db, r.kind, r.op, r.target, r.state, r.baseAt, r.now);
      OpsKeep(env, inv, allowed, db, RequestOps(env, r), 0, |RequestOps(env, r)|, r.now);
    }
  }

  /** What every allowed operation keeps, every run of proposals and bundles of allowed operations keeps. */
  lemma {:induction false} RunKeeps(env: Env, inv: DB -> bool, allowed: BundleOp -> bool, db: DB, rs: seq<Request>)
    requires OpKeeps(env, inv, allowed) && inv(db) && AllOps(env, rs, allowed)
    ensures inv(RunAll(env, db, rs))
  {
    var step := (d, r) => RunOne(env, d, r);
    var fine := (r: Request) => OnlyOps(env, r, allowed);
    forall d, r | inv(d) && fine(r) ensures inv(step(d, r)) {
      RunOneKeeps(env, inv, allowed, d, r);
    }
    Runs.KeptFrom(step, fine, inv, db, rs, 0, |rs|);
  }
}
