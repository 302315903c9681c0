/**
 Replaying a commit history into proposals (internal/githistory/importer.go).

 A run walks twice.  The first pass gives every changed entity file an identity, the second writes
 one row a commit under the final name of each entity.  A later run skips the commits whose rows
 are there already.
 */
module HistoryImport {
  import opened Kinds
  import opened Wrappers
  import opened Classify
  import opened RawDiff
  import opened Identity
  import opened Grouping

  datatype Commit = Commit(sha: string, paths: seq<ChangedPath>)

  // A changed entity file and the name its path spells.
  datatype PathEvent = PathEvent(commitIdx: nat, path: ChangedPath, name: string)

  datatype Target = ById(id: int) | ByName(name: string)

  // One change found in one changed file.  `resource` is the immutable id of a resource and None
  // for the four kinds that are identified by name.
  datatype Change = Change(kind: Kind, operation: Operation, oldName: string, before: string, after: string,
                           resource: Option<int>)

  datatype Op = Op(kind: Kind, operation: Operation, target: Target, proposed: string)

  datatype Row =
    | Single(sha: string, op: Op, base: Option<string>)
    | Bundle(sha: string, ops: seq<Op>)

  // ---- pass 1 ----

  // How changed files are read: the changes found between a changed file's two versions.
  datatype Reading = Reading(changes: ChangedPath -> seq<Change>)

  function TagOne(c: nat, p: ChangedPath): seq<PathEvent> {
    match Spelled(p.newPath)
    case Some(name) => [PathEvent(c, p, name)]
    case None =>
      match Spelled(p.oldPath)
      case Some(name) => [PathEvent(c, p, name)]
      case None => []
  }

  function Tagged(c: nat, paths: seq<ChangedPath>): (evs: seq<PathEvent>)
    ensures forall i :: 0 <= i < |evs| ==> evs[i].commitIdx == c && evs[i].path in paths
  {
    if paths == [] then []
    else Tagged(c, paths[..|paths| - 1]) + TagOne(c, paths[|paths| - 1])
  }

  // The events of each commit that is not imported yet.
  function CommitEvents(commits: seq<Commit>, already: set<string>): int -> seq<PathEvent> {
    c => if 0 <= c < |commits| && commits[c].sha !in already then Tagged(c, commits[c].paths) else []
  }

  function Events(commits: seq<Commit>, already: set<string>, lo: nat, hi: nat): seq<PathEvent> {
    Concat(CommitEvents(commits, already), lo, hi)
  }

  function Touch(e: PathEvent): Event {
    Event(e.path.status, e.path.oldPath, e.path.newPath, e.name)
  }

  function Touches(evs: seq<PathEvent>): (es: seq<Event>)
    ensures |es| == |evs| && forall i :: 0 <= i < |evs| ==> es[i] == Touch(evs[i])
  {
    seq(|evs|, i requires 0 <= i < |evs| => Touch(evs[i]))
  }

  // An event together with the final name of its entity.
  datatype NamedEvent = NamedEvent(commitIdx: nat, path: ChangedPath, finalName: string)

  function Named(evs: seq<PathEvent>): (named: seq<NamedEvent>)
    ensures |named| == |evs|
    ensures forall i :: 0 <= i < |evs| ==>
      named[i] == NamedEvent(evs[i].commitIdx, evs[i].path, FinalNameAt(Touches(evs), i))
  {
    seq(|evs|, i requires 0 <= i < |evs| => NamedEvent(evs[i].commitIdx, evs[i].path, FinalNameAt(Touches(evs), i)))
  }

  // ---- pass 2 ----

  // What a deletion proposes is no more than the entity's name.
  function NameOnly(name: string): string {
    "{\"name\":" + name + "}"
  }

  function ProposedAndBase(ch: Change): (string, Option<string>) {
    match ch.operation
    case Create => (ch.after, None)
    case Update => (ch.after, Some(ch.before))
    case Delete => (NameOnly(ch.oldName), Some(ch.before))
  }

  function Resolve(ch: Change, name: string): Op {
    Op(ch.kind, ch.operation, if ch.resource.Some? then ById(ch.resource.value) else ByName(name),
       ProposedAndBase(ch).0)
  }

  function ResolveAll(chs: seq<Change>, name: string): (ops: seq<Op>)
    ensures |ops| == |chs|
  {
    seq(|chs|, i requires 0 <= i < |chs| => Resolve(chs[i], name))
  }

  // A commit that changed one entity is that entity's own row; a commit that changed several is a
  // bundle, which keeps no base.
  function RowOf(sha: string, chs: seq<Change>, ops: seq<Op>): (r: Row)
    requires |chs| == |ops|
    ensures r.sha == sha
  {
    if |ops| == 1 then Single(sha, ops[0], ProposedAndBase(chs[0]).1) else Row.Bundle(sha, ops)
  }

  // The changes found in some files, and the operations these make.
  function Found(rd: Reading, group: seq<NamedEvent>): seq<Change> {
    if group == [] then [] else Found(rd, group[..|group| - 1]) + rd.changes(group[|group| - 1].path)
  }

  function FoundOps(rd: Reading, group: seq<NamedEvent>): (ops: seq<Op>)
    ensures |ops| == |Found(rd, group)|
  {
    if group == [] then []
    else
      var last := group[|group| - 1];
      FoundOps(rd, group[..|group| - 1]) + ResolveAll(rd.changes(last.path), last.finalName)
  }

  function CommitOf(e: NamedEvent): int {
    e.commitIdx
  }

  // The row of one commit, unless its files changed nothing.
  function CommitRow(commits: seq<Commit>, rd: Reading, group: seq<NamedEvent>): (rows: seq<Row>)
    ensures |rows| <= 1
  {
    var changes := Found(rd, group);
    if changes == [] || group == [] || group[0].commitIdx >= |commits| then []
    else [RowOf(commits[group[0].commitIdx].sha, changes, FoundOps(rd, group))]
  }

  function RowMaker(commits: seq<Commit>, rd: Reading): seq<NamedEvent> -> seq<Row> {
    group => CommitRow(commits, rd, group)
  }

  function Rows(commits: seq<Commit>, rd: Reading, named: seq<NamedEvent>): seq<Row> {
    Grouped(named, CommitOf, RowMaker(commits, rd))
  }

  function Imported(rows: seq<Row>): set<string> {
    set i | 0 <= i < |rows| :: rows[i].sha
  }

  // All the rows a run without a limit adds.
  function AllRows(commits: seq<Commit>, already: set<string>, rd: Reading): seq<Row> {
    Rows(commits, rd, Named(Events(commits, already, 0, |commits|)))
  }

  function Limited(rows: seq<Row>, limit: nat): seq<Row> {
    if 0 < limit < |rows| then rows[..limit] else rows
  }

  class History {
    // The rows that carry a source commit, in the order they were written.
    var rows: seq<Row>

    constructor ()
      ensures rows == []
    {
      rows := [];
    }

    method Run(commits: seq<Commit>, limit: nat, rd: Reading) returns (written: nat)
      modifies this
      ensures rows == old(rows) + Limited(AllRows(commits, Imported(old(rows)), rd), limit)
      ensures written == |rows| - |old(rows)|
    {
      var identity, events, ids := WalkHistory(commits, Imported(rows));
      written := WriteRows(identity, commits, events, ids, Named(events), limit, rd);
    }

    method WriteRows(identity: PathIdentity, commits: seq<Commit>, events: seq<PathEvent>, ids: seq<int>,
                     ghost named: seq<NamedEvent>, limit: nat, rd: Reading)
      returns (written: nat)
      requires Resolves(identity.View(), events, ids, named)
      requires forall e :: e in events ==> e.commitIdx < |commits|
      modifies this
      ensures rows == old(rows) + Limited(Rows(commits, rd, named), limit)
      ensures written == |rows| - |old(rows)|
    {
      ghost var all := Rows(commits, rd, named);
      written := 0;
      var i := 0;
      while i < |events|
        invariant 0 <= i <= |events|
        invariant written <= |all| && rows == old(rows) + all[..written]
        invariant limit > 0 ==> written < limit
        invariant all[written..] == Rows(commits, rd, named[i..])
      {
        var start := i;
        var changes, ops;
        i, changes, ops := CollectCommit(identity, events, ids, named, start, rd);
        var sha := commits[events[start].commitIdx].sha;
        NextCommit(all, written, commits, rd, named, start, i);
        if changes != [] {
          Regroup(old(rows), all[..written], [RowOf(sha, changes, ops)]);
          rows := rows + [RowOf(sha, changes, ops)];
          written := written + 1;
          if limit > 0 && written >= limit {
            break;
          }
        }
      }
      Stopped(all, written, limit);
    }
  }

  // ids and events, looked up in the registry, are `named`.
  ghost predicate Resolves(r: Registry, events: seq<PathEvent>, ids: seq<int>, named: seq<NamedEvent>) {
    && |events| == |ids| == |named|
    && forall k :: 0 <= k < |named| ==>
      named[k] == NamedEvent(events[k].commitIdx, events[k].path, NameIn(r, ids[k]))
  }

  lemma {:induction false} NextCommit(all: seq<Row>, n: nat, commits: seq<Commit>, rd: Reading,
                                      named: seq<NamedEvent>, lo: nat, hi: nat)
    requires lo < hi <= |named| && RunLength(named[lo..], CommitOf) == hi - lo && named[lo].commitIdx < |commits|
    requires n <= |all| && all[n..] == Rows(commits, rd, named[lo..])
    ensures var changes, ops := Found(rd, named[lo..hi]), FoundOps(rd, named[lo..hi]);
      if changes == [] then all[n..] == Rows(commits, rd, named[hi..])
      else
        && n < |all| && all[n + 1..] == Rows(commits, rd, named[hi..])
        && all[..n + 1] == all[..n] + [RowOf(commits[named[lo].commitIdx].sha, changes, ops)]
  {
    var group := named[lo..hi];
    assert named[lo..][..hi - lo] == group && named[lo..][hi - lo..] == named[hi..];
    assert group[0] == named[lo];
    TakeGroup(all, n, CommitRow(commits, rd, group), Rows(commits, rd, named[hi..]));
    assert all[n..] == CommitRow(commits, rd, group) + Rows(commits, rd, named[hi..]);
  }

  lemma TakeGroup(all: seq<Row>, n: nat, group: seq<Row>, rest: seq<Row>)
    requires n <= |all| && all[n..] == group + rest
    ensures n + |group| <= |all| && all[n + |group|..] == rest && all[..n + |group|] == all[..n] + group
  {
    assert all[n + |group|..] == all[n..][|group|..];
    assert all[..n + |group|] == all[..n] + all[n..][..|group|];
  }

  lemma Stopped(all: seq<Row>, n: nat, limit: nat)
    requires n <= |all| && (0 < n == limit || (n == |all| && (limit > 0 ==> n < limit)))
    ensures all[..n] == Limited(all, limit)
  {}

  // An identity registry, the events it was shown and the ids it answered.
  ghost predicate Walked(events: seq<PathEvent>, ids: seq<int>, r: Registry) {
    && |ids| == |events|
    && r == RegAt(Touches(events), |events|)
    && (forall i :: 0 <= i < |events| ==> ids[i] == IdAt(Touches(events), i))
  }

  method WalkHistory(commits: seq<Commit>, already: set<string>)
    returns (identity: PathIdentity, events: seq<PathEvent>, ids: seq<int>)
    ensures fresh(identity)
    ensures events == Events(commits, already, 0, |commits|)
    ensures forall e :: e in events ==> e.commitIdx < |commits|
    ensures Walked(events, ids, identity.View())
  {
    identity := new PathIdentity();
    events, ids := [], [];
    for c := 0 to |commits|
      invariant events == Events(commits, already, 0, c)
      invariant fresh(identity) && Walked(events, ids, identity.View())
    {
      if commits[c].sha !in already {
        events, ids := WalkCommit(identity, c, commits[c].paths, events, ids);
      }
    }
    forall e | e in events ensures e.commitIdx < |commits| {
      EventOrigin(commits, already, 0, |commits|, e);
    }
  }

  // An event comes from a path of its commit, and the commit was not skipped.
  lemma EventOrigin(commits: seq<Commit>, already: set<string>, lo: nat, hi: nat, e: PathEvent)
    requires lo <= hi <= |commits| && e in Events(commits, already, lo, hi)
    ensures lo <= e.commitIdx < hi && e in CommitEvents(commits, already)(e.commitIdx)
    ensures commits[e.commitIdx].sha !in already && e.path in commits[e.commitIdx].paths
  {
    InConcat(CommitEvents(commits, already), lo, hi, e);
  }

  method WalkCommit(identity: PathIdentity, c: nat, paths: seq<ChangedPath>, before: seq<PathEvent>,
                    idsBefore: seq<int>)
    returns (events: seq<PathEvent>, ids: seq<int>)
    requires Walked(before, idsBefore, identity.View())
    modifies identity
    ensures events == before + Tagged(c, paths)
    ensures Walked(events, ids, identity.View())
  {
    events, ids := before, idsBefore;
    for k := 0 to |paths|
      invariant events == before + Tagged(c, paths[..k])
      invariant Walked(events, ids, identity.View())
    {
      TaggedStep(c, paths, k);
      var cp := paths[k];
      var oldName, newName := Spelled(cp.oldPath), Spelled(cp.newPath);
      if oldName.Some? || newName.Some? {
        var ev := PathEvent(c, cp, if newName.Some? then newName.value else oldName.value);
        ids := TouchNext(identity, ev, events, ids);
        Regroup(before, Tagged(c, paths[..k]), [ev]);
        events := events + [ev];
      }
    }
    assert paths[..|paths|] == paths;
  }

  method TouchNext(identity: PathIdentity, ev: PathEvent, ghost events: seq<PathEvent>, idsBefore: seq<int>)
    returns (ids: seq<int>)
    requires Walked(events, idsBefore, identity.View())
    modifies identity
    ensures Walked(events + [ev], ids, identity.View())
  {
    var id := identity.Touch(ev.path.status, ev.path.oldPath, ev.path.newPath, ev.name);
    OneMoreTouch(events, ev);
    ids := idsBefore + [id];
  }

  lemma TaggedStep(c: nat, paths: seq<ChangedPath>, k: nat)
    requires k < |paths|
    ensures Tagged(c, paths[..k + 1]) == Tagged(c, paths[..k]) + TagOne(c, paths[k])
  {
    assert paths[..k + 1][..k] == paths[..k];
  }

  // The changes of the commit whose first event is `start`, and the operations they make.
  method CollectCommit(identity: PathIdentity, events: seq<PathEvent>, ids: seq<int>, ghost named: seq<NamedEvent>,
                       start: nat, rd: Reading)
    returns (i: nat, changes: seq<Change>, ops: seq<Op>)
    requires Resolves(identity.View(), events, ids, named) && start < |events|
    ensures start < i <= |events| && RunLength(named[start..], CommitOf) == i - start
    ensures changes == Found(rd, named[start..i]) && ops == FoundOps(rd, named[start..i])
  {
    i, changes, ops := start, [], [];
    while i < |events| && events[i].commitIdx == events[start].commitIdx
      invariant start <= i <= |events|
      invariant forall k :: start <= k < i ==> named[k].commitIdx == events[start].commitIdx
      invariant changes == Found(rd, named[start..i]) && ops == FoundOps(rd, named[start..i])
    {
      FoundStep(rd, named, start, i);
      var some := rd.changes(events[i].path);
      changes := changes + some;
      ops := ops + ResolveAll(some, identity.FinalName(ids[i]));
      i := i + 1;
    }
    RunIs(named, start, i);
  }

  lemma {:induction false} FoundStep(rd: Reading, named: seq<NamedEvent>, start: nat, i: nat)
    requires start <= i < |named|
    ensures Found(rd, named[start..i + 1]) == Found(rd, named[start..i]) + rd.changes(named[i].path)
    ensures FoundOps(rd, named[start..i + 1]) ==
      FoundOps(rd, named[start..i]) + ResolveAll(rd.changes(named[i].path), named[i].finalName)
  {
    var group := named[start..i + 1];
    assert group[..|group| - 1] == named[start..i] && group[|group| - 1] == named[i];
  }

  lemma RunIs(named: seq<NamedEvent>, lo: nat, hi: nat)
    requires lo < hi <= |named| && (hi < |named| ==> named[hi].commitIdx != named[lo].commitIdx)
    requires forall k :: lo <= k < hi ==> named[k].commitIdx == named[lo].commitIdx
    ensures RunLength(named[lo..], CommitOf) == hi - lo
  {
    var rest := named[lo..];
    assert forall k :: 0 <= k < |rest| ==> rest[k] == named[lo + k];
    RunLengthIs(rest, CommitOf, hi - lo);
  }

  lemma {:induction false} OneMoreTouch(evs: seq<PathEvent>, ev: PathEvent)
    ensures Touches(evs + [ev]) == Touches(evs) + [Touch(ev)]
    ensures RegAt(Touches(evs + [ev]), |evs|) == RegAt(Touches(evs), |evs|)
    ensures forall i :: 0 <= i < |evs| ==> IdAt(Touches(evs + [ev]), i) == IdAt(Touches(evs), i)
  {
    var es, more := Touches(evs), [Touch(ev)];
    assert Touches(evs + [ev]) == es + more;
    WalkPrefix(es, more, |evs|);
    forall i | 0 <= i < |evs| ensures IdAt(Touches(evs + [ev]), i) == IdAt(Touches(evs), i) {
      WalkPrefix(es, more, i);
    }
  }

}
