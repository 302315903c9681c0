/**
 What the rows of a history import say: replayed they lead through the states that the files of the
 history went through, every operation meets what it needs, and a base is the state it starts from.
 */
module HistoryReplay {
  import opened Kinds
  import opened Wrappers
  import opened Classify
  import opened RawDiff
  import opened Identity
  import opened Grouping
  import opened HistoryImport
  import opened Resume

  // An entity by the name, or a resource by the id, under which its rows are filed.
  datatype Subject = Subject(kind: Kind, target: Target)

  // What every entity holds.
  type Store = map<Subject, string>

  // ---- replaying rows ----

  function About(o: Op): Subject {
    Subject(o.kind, o.target)
  }

  function OpsOf(r: Row): seq<Op> {
    match r
    case Single(_, op, _) => [op]
    case Bundle(_, ops) => ops
  }

  function CarryOut(s: Store, o: Op): Store {
    if o.operation == Delete then s - {About(o)} else s[About(o) := o.proposed]
  }

  function CarryOutAll(s: Store, ops: seq<Op>): Store {
    if ops == [] then s else CarryOut(CarryOutAll(s, ops[..|ops| - 1]), ops[|ops| - 1])
  }

  function ReplayRows(s: Store, rows: seq<Row>): Store {
    if rows == [] then s else CarryOutAll(ReplayRows(s, rows[..|rows| - 1]), OpsOf(rows[|rows| - 1]))
  }

  // ---- following the files ----

  // The entity that a change found in a file is about; a file's own entity goes by its final name.
  function Changed(ch: Change, finalName: string): Subject {
    Subject(ch.kind, match ch.resource case Some(id) => ById(id) case None => ByName(finalName))
  }

  // What the entity holds before and after the commit, by the two versions of the file.
  function Earlier(ch: Change): Option<string> {
    if ch.operation == Create then None else Some(ch.before)
  }

  function Later(ch: Change): Option<string> {
    if ch.operation == Delete then None else Some(ch.after)
  }

  function Held(s: Store, x: Subject): Option<string> {
    if x in s then Some(s[x]) else None
  }

  function Set(s: Store, x: Subject, held: Option<string>): Store {
    match held
    case Some(v) => s[x := v]
    case None => s - {x}
  }

  function FollowChanges(s: Store, chs: seq<Change>, finalName: string): Store {
    if chs == [] then s
    else
      var ch := chs[|chs| - 1];
      Set(FollowChanges(s, chs[..|chs| - 1], finalName), Changed(ch, finalName), Later(ch))
  }

  // From changed file to changed file, through the whole history.
  function Follow(s: Store, rd: Reading, named: seq<NamedEvent>): Store {
    if named == [] then s
    else
      var e := named[|named| - 1];
      FollowChanges(Follow(s, rd, named[..|named| - 1]), rd.changes(e.path), e.finalName)
  }

  // ---- the replay law ----

  lemma {:induction false} CarryOutParts(s: Store, a: seq<Op>, b: seq<Op>)
    ensures CarryOutAll(s, a + b) == CarryOutAll(CarryOutAll(s, a), b)
  {
    if b == [] {
      assert a + b == a;
    } else {
      assert (a + b)[..|a + b| - 1] == a + b[..|b| - 1];
      CarryOutParts(s, a, b[..|b| - 1]);
    }
  }

  lemma {:induction false} ReplayParts(s: Store, a: seq<Row>, b: seq<Row>)
    ensures ReplayRows(s, a + b) == ReplayRows(ReplayRows(s, a), b)
  {
    if b == [] {
      assert a + b == a;
    } else {
      assert (a + b)[..|a + b| - 1] == a + b[..|b| - 1];
      ReplayParts(s, a, b[..|b| - 1]);
    }
  }

  lemma {:induction false} FollowParts(s: Store, rd: Reading, a: seq<NamedEvent>, b: seq<NamedEvent>)
    ensures Follow(s, rd, a + b) == Follow(Follow(s, rd, a), rd, b)
  {
    if b == [] {
      assert a + b == a;
    } else {
      assert (a + b)[..|a + b| - 1] == a + b[..|b| - 1];
      FollowParts(s, rd, a, b[..|b| - 1]);
    }
  }

  lemma {:induction false} OneChange(s: Store, ch: Change, finalName: string)
    ensures CarryOut(s, Resolve(ch, finalName)) == Set(s, Changed(ch, finalName), Later(ch))
  {}

  lemma {:induction false} ChangesCarriedOut(s: Store, chs: seq<Change>, finalName: string)
    ensures CarryOutAll(s, ResolveAll(chs, finalName)) == FollowChanges(s, chs, finalName)
  {
    if chs != [] {
      var n := |chs| - 1;
      assert ResolveAll(chs, finalName)[..n] == ResolveAll(chs[..n], finalName);
      ChangesCarriedOut(s, chs[..n], finalName);
      OneChange(FollowChanges(s, chs[..n], finalName), chs[n], finalName);
    }
  }

  lemma {:induction false} GroupCarriedOut(s: Store, rd: Reading, group: seq<NamedEvent>)
    ensures CarryOutAll(s, FoundOps(rd, group)) == Follow(s, rd, group)
  {
    if group != [] {
      var init, last := group[..|group| - 1], group[|group| - 1];
      GroupCarriedOut(s, rd, init);
      CarryOutParts(s, FoundOps(rd, init), ResolveAll(rd.changes(last.path), last.finalName));
      ChangesCarriedOut(Follow(s, rd, init), rd.changes(last.path), last.finalName);
    }
  }

  // Every event is of one of the commits.
  ghost predicate OfCommits(commits: seq<Commit>, named: seq<NamedEvent>) {
    forall k :: 0 <= k < |named| ==> named[k].commitIdx < |commits|
  }

  lemma {:induction false} CommitCarriedOut(s: Store, commits: seq<Commit>, rd: Reading, group: seq<NamedEvent>)
    requires group != [] && group[0].commitIdx < |commits|
    ensures ReplayRows(s, CommitRow(commits, rd, group)) == Follow(s, rd, group)
  {
    GroupCarriedOut(s, rd, group);
    var rows, ops := CommitRow(commits, rd, group), FoundOps(rd, group);
    if rows == [] {
      assert ops == [];
    } else {
      assert rows[..0] == [];
      assert OpsOf(rows[0]) == ops;
    }
  }

  /** Replaying the rows leads where the files lead: a creation shows the later state, an update leads to it,
      a deletion removes the entity, commit by commit and in the order of the changed files. */
  lemma {:induction false} RowsLeadAlong(s: Store, commits: seq<Commit>, rd: Reading, named: seq<NamedEvent>)
    requires OfCommits(commits, named)
    ensures ReplayRows(s, Rows(commits, rd, named)) == Follow(s, rd, named)
    decreases |named|
  {
    if named != [] {
      var n := RunLength(named, CommitOf);
      var group, rest := named[..n], named[n..];
      CommitCarriedOut(s, commits, rd, group);
      RowsLeadAlong(Follow(s, rd, group), commits, rd, rest);
      ReplayParts(s, CommitRow(commits, rd, group), Rows(commits, rd, rest));
      FollowParts(s, rd, group, rest);
      Halves(named, n);
    }
  }

  // The changed entity files of the commits that are not imported yet, under their final names.
  function NamedHistory(commits: seq<Commit>, already: set<string>): seq<NamedEvent> {
    Named(Events(commits, already, 0, |commits|))
  }

  lemma {:induction false} HistoryIsOfCommits(commits: seq<Commit>, already: set<string>)
    ensures OfCommits(commits, NamedHistory(commits, already))
  {
    EventsOrdered(commits, already, 0);
    var evs := Events(commits, already, 0, |commits|);
    forall k | 0 <= k < |evs| ensures evs[k].commitIdx < |commits| {
      assert evs[k] in evs;
    }
  }

  lemma LimitedIsPrefix(rows: seq<Row>, limit: nat)
    ensures Limited(rows, limit) <= rows
    ensures |Limited(rows, limit)| == if limit == 0 || limit > |rows| then |rows| else limit
  {}

  // The first k rows lead through all events up to some commit.
  lemma {:induction false} FirstRowsLead(s: Store, commits: seq<Commit>, already: set<string>, rd: Reading, k: nat)
    returns (n: nat)
    requires k <= |AllRows(commits, already, rd)|
    ensures var named := NamedHistory(commits, already);
      && n <= |named|
      && (0 < n < |named| ==> named[n - 1].commitIdx < named[n].commitIdx)
      && ReplayRows(s, AllRows(commits, already, rd)[..k]) == Follow(s, rd, named[..n])
  {
    hide Follow, ReplayRows, Rows, Events;
    var named, all := NamedHistory(commits, already), AllRows(commits, already, rd);
    HistoryIsOfCommits(commits, already);
    var c := StopsAtCommit(rd, commits, already, k);
    var front, back := Events(commits, already, 0, c), Events(commits, already, c, |commits|);
    SplitEvents(commits, already, 0, c, |commits|);
    CutRows(rd, commits, already, c);
    n := |front|;
    assert all[..k] == RowsBefore(rd, commits, already, c);
    assert named[..n] == NamedFront(front, back);
    RowsLeadAlong(s, commits, rd, named[..n]);
    if 0 < n < |named| {
      EventsOrdered(commits, already, c);
      assert front[n - 1] in front && back[0] in back;
      assert (front + back)[n - 1] == front[n - 1] && (front + back)[n] == back[0];
    }
  }

  /** The rows of a run without a limit, replayed, lead through the whole history.  A run with a limit writes
      the first rows of these, as many as the limit says; they lead as far as a commit, and through all of
      the history up to it. */
  lemma {:induction false} RunLeadsAlongTheHistory(s: Store, commits: seq<Commit>, already: set<string>, rd: Reading,
                                                   limit: nat)
    returns (n: nat)
    ensures var named := NamedHistory(commits, already);
      && n <= |named| && (limit == 0 || limit >= |AllRows(commits, already, rd)| ==> n == |named|)
      && (0 < n < |named| ==> named[n - 1].commitIdx < named[n].commitIdx)
      && ReplayRows(s, Limited(AllRows(commits, already, rd), limit)) == Follow(s, rd, named[..n])
    ensures var all, written := AllRows(commits, already, rd), Limited(AllRows(commits, already, rd), limit);
      written <= all && |written| == if limit == 0 || limit > |all| then |all| else limit
  {
    hide Follow, ReplayRows, Rows, Events;
    var named, all := NamedHistory(commits, already), AllRows(commits, already, rd);
    LimitedIsPrefix(all, limit);
    if 0 < limit < |all| {
      n := FirstRowsLead(s, commits, already, rd, limit);
    } else {
      n := |named|;
      assert named[..n] == named;
      HistoryIsOfCommits(commits, already);
      RowsLeadAlong(s, commits, rd, named);
    }
  }

  // ---- what each operation starts from ----

  // The files tell the truth: each change starts from what its entity holds at that point.
  ghost predicate TrueChanges(s: Store, chs: seq<Change>, finalName: string) {
    forall i :: 0 <= i < |chs| ==>
      Held(FollowChanges(s, chs[..i], finalName), Changed(chs[i], finalName)) == Earlier(chs[i])
  }

  ghost predicate TrueEvent(s: Store, rd: Reading, e: NamedEvent) {
    TrueChanges(s, rd.changes(e.path), e.finalName)
  }

  ghost predicate Truthful(s: Store, rd: Reading, named: seq<NamedEvent>) {
    forall k :: 0 <= k < |named| ==> TrueEvent(Follow(s, rd, named[..k]), rd, named[k])
  }

  // Creates what is not there, updates or deletes what is.
  ghost predicate Meets(s: Store, o: Op) {
    o.operation == Create <==> About(o) !in s
  }

  ghost predicate AllMeet(s: Store, ops: seq<Op>) {
    forall j :: 0 <= j < |ops| ==> Meets(CarryOutAll(s, ops[..j]), ops[j])
  }

  // A row of one operation keeps, as its base, what the entity holds; a row of several is a bundle.
  ghost predicate WellFounded(s: Store, r: Row) {
    && AllMeet(s, OpsOf(r))
    && (r.Single? <==> |OpsOf(r)| == 1)
    && (r.Single? ==> r.base == Held(s, About(r.op)))
  }

  ghost predicate AllWellFounded(s: Store, rows: seq<Row>) {
    forall n :: 0 <= n < |rows| ==> WellFounded(ReplayRows(s, rows[..n]), rows[n])
  }

  lemma {:induction false} AllMeetParts(s: Store, a: seq<Op>, b: seq<Op>)
    requires AllMeet(s, a) && AllMeet(CarryOutAll(s, a), b)
    ensures AllMeet(s, a + b)
  {
    hide Meets, CarryOutAll;
    forall j | 0 <= j < |a + b| ensures Meets(CarryOutAll(s, (a + b)[..j]), (a + b)[j]) {
      if j < |a| {
        assert (a + b)[..j] == a[..j];
      } else {
        assert (a + b)[..j] == a + b[..j - |a|];
        CarryOutParts(s, a, b[..j - |a|]);
      }
    }
  }

  lemma {:induction false} ChangesMeet(s: Store, chs: seq<Change>, finalName: string)
    requires TrueChanges(s, chs, finalName)
    ensures AllMeet(s, ResolveAll(chs, finalName))
  {
    var ops := ResolveAll(chs, finalName);
    forall j | 0 <= j < |ops| ensures Meets(CarryOutAll(s, ops[..j]), ops[j]) {
      assert ops[..j] == ResolveAll(chs[..j], finalName);
      ChangesCarriedOut(s, chs[..j], finalName);
    }
  }

  lemma {:induction false} TruthfulParts(s: Store, rd: Reading, named: seq<NamedEvent>, n: nat)
    requires n <= |named| && Truthful(s, rd, named)
    ensures Truthful(s, rd, named[..n]) && Truthful(Follow(s, rd, named[..n]), rd, named[n..])
  {
    hide Follow, TrueEvent;
    var front, back := named[..n], named[n..];
    forall k | 0 <= k < n ensures TrueEvent(Follow(s, rd, front[..k]), rd, front[k]) {
      assert front[..k] == named[..k];
    }
    forall k | 0 <= k < |back| ensures TrueEvent(Follow(Follow(s, rd, front), rd, back[..k]), rd, back[k]) {
      assert named[..n + k] == front + back[..k];
      FollowParts(s, rd, front, back[..k]);
      assert back[k] == named[n + k];
    }
  }

  lemma {:induction false} GroupMeets(s: Store, rd: Reading, group: seq<NamedEvent>)
    requires Truthful(s, rd, group)
    ensures AllMeet(s, FoundOps(rd, group))
  {
    if group != [] {
      var n := |group| - 1;
      var chs := rd.changes(group[n].path);
      TruthfulParts(s, rd, group, n);
      GroupMeets(s, rd, group[..n]);
      GroupCarriedOut(s, rd, group[..n]);
      ChangesMeet(Follow(s, rd, group[..n]), chs, group[n].finalName);
      AllMeetParts(s, FoundOps(rd, group[..n]), ResolveAll(chs, group[n].finalName));
    }
  }

  // The only change of a group starts from what was there before it.
  lemma {:induction false} OnlyChangeStartsHere(s: Store, rd: Reading, group: seq<NamedEvent>)
    requires Truthful(s, rd, group) && |Found(rd, group)| == 1
    ensures Earlier(Found(rd, group)[0]) == Held(s, About(FoundOps(rd, group)[0]))
  {
    var n := |group| - 1;
    var chs := rd.changes(group[n].path);
    TruthfulParts(s, rd, group, n);
    if chs == [] {
      OnlyChangeStartsHere(s, rd, group[..n]);
    } else {
      assert Found(rd, group[..n]) == [] && FoundOps(rd, group[..n]) == [];
      GroupCarriedOut(s, rd, group[..n]);
      assert chs[..0] == [];
    }
  }

  lemma {:induction false} CommitWellFounded(s: Store, commits: seq<Commit>, rd: Reading, group: seq<NamedEvent>)
    requires group != [] && group[0].commitIdx < |commits| && Truthful(s, rd, group)
    ensures AllWellFounded(s, CommitRow(commits, rd, group))
  {
    hide Truthful, AllMeet;
    var rows, ops := CommitRow(commits, rd, group), FoundOps(rd, group);
    GroupMeets(s, rd, group);
    if rows != [] {
      assert rows[..0] == [];
      RowOfGroup(s, commits[group[0].commitIdx].sha, rd, group);
    }
  }

  lemma {:induction false} RowOfGroup(s: Store, sha: string, rd: Reading, group: seq<NamedEvent>)
    requires Truthful(s, rd, group) && Found(rd, group) != [] && AllMeet(s, FoundOps(rd, group))
    ensures WellFounded(s, RowOf(sha, Found(rd, group), FoundOps(rd, group)))
  {
    hide Truthful, AllMeet, Found, FoundOps;
    var ops := FoundOps(rd, group);
    assert OpsOf(RowOf(sha, Found(rd, group), ops)) == ops;
    if |ops| == 1 {
      OnlyChangeStartsHere(s, rd, group);
    }
  }

  lemma {:induction false} AllWellFoundedParts(s: Store, a: seq<Row>, b: seq<Row>)
    requires AllWellFounded(s, a) && AllWellFounded(ReplayRows(s, a), b)
    ensures AllWellFounded(s, a + b)
  {
    hide WellFounded, ReplayRows;
    forall n | 0 <= n < |a + b| ensures WellFounded(ReplayRows(s, (a + b)[..n]), (a + b)[n]) {
      if n < |a| {
        assert (a + b)[..n] == a[..n];
      } else {
        assert (a + b)[..n] == a + b[..n - |a|];
        ReplayParts(s, a, b[..n - |a|]);
      }
    }
  }

  /** If the changes found in the files start from what is there, so do the rows: at each of them every
      operation creates what is not there or updates or deletes what is, one operation makes a row of its
      own, and the base of such a row is the state it starts from, none for a creation. */
  lemma {:induction false} RowsAreWellFounded(s: Store, commits: seq<Commit>, rd: Reading, named: seq<NamedEvent>)
    requires OfCommits(commits, named) && Truthful(s, rd, named)
    ensures AllWellFounded(s, Rows(commits, rd, named))
    decreases |named|
  {
    if named != [] {
      var n := RunLength(named, CommitOf);
      var group, rest := named[..n], named[n..];
      TruthfulParts(s, rd, named, n);
      CommitWellFounded(s, commits, rd, group);
      CommitCarriedOut(s, commits, rd, group);
      RowsAreWellFounded(Follow(s, rd, group), commits, rd, rest);
      AllWellFoundedParts(s, CommitRow(commits, rd, group), Rows(commits, rd, rest));
    }
  }

  /** So it is of the rows that a run writes, with or without a limit. */
  lemma {:induction false} RunIsWellFounded(s: Store, commits: seq<Commit>, already: set<string>, rd: Reading,
                                            limit: nat)
    requires Truthful(s, rd, NamedHistory(commits, already))
    ensures AllWellFounded(s, Limited(AllRows(commits, already, rd), limit))
  {
    var all, written := AllRows(commits, already, rd), Limited(AllRows(commits, already, rd), limit);
    HistoryIsOfCommits(commits, already);
    RowsAreWellFounded(s, commits, rd, NamedHistory(commits, already));
    forall n | 0 <= n < |written| ensures WellFounded(ReplayRows(s, written[..n]), written[n]) {
      assert written[..n] == all[..n];
    }
  }

  // ---- what a deletion names ----

  // The name in the payload of a deletion, read back.
  function NameProposed(proposed: string): string {
    if |proposed| < 9 then "" else proposed[8..|proposed| - 1]
  }

  // The operation is of the change's kind and, for a deletion, says no more than the name the entity had.
  ghost predicate Tells(o: Op, ch: Change) {
    && o.kind == ch.kind && o.operation == ch.operation
    && (ch.resource.Some? ==> o.target == ById(ch.resource.value))
    && (ch.operation == Delete ==> NameProposed(o.proposed) == ch.oldName)
  }

  /** The operations of a commit are those of the changes in its files, one for each and in their order. */
  lemma {:induction false} OperationsTellTheChanges(rd: Reading, group: seq<NamedEvent>, j: nat)
    requires j < |Found(rd, group)|
    ensures Tells(FoundOps(rd, group)[j], Found(rd, group)[j])
  {
    var init, last := group[..|group| - 1], group[|group| - 1];
    if j < |Found(rd, init)| {
      OperationsTellTheChanges(rd, init, j);
    } else {
      var ch := rd.changes(last.path)[j - |Found(rd, init)|];
      assert FoundOps(rd, group)[j] == Resolve(ch, last.finalName);
      assert NameOnly(ch.oldName)[8..8 + |ch.oldName|] == ch.oldName;
    }
  }

  // ---- which files are walked ----

  // The paths of which one side is an entity's file.
  function EntityPaths(paths: seq<ChangedPath>): seq<ChangedPath> {
    if paths == [] then []
    else
      (if Spelled(paths[0].oldPath).Some? || Spelled(paths[0].newPath).Some? then [paths[0]] else [])
      + EntityPaths(paths[1..])
  }

  function PathsOf(evs: seq<PathEvent>): (paths: seq<ChangedPath>)
    ensures |paths| == |evs| && forall i :: 0 <= i < |evs| ==> paths[i] == evs[i].path
  {
    seq(|evs|, i requires 0 <= i < |evs| => evs[i].path)
  }

  lemma {:induction false} EntityPathsMore(paths: seq<ChangedPath>, p: ChangedPath)
    ensures EntityPaths(paths + [p]) == EntityPaths(paths) + EntityPaths([p])
  {
    if paths == [] {
      assert paths + [p] == [p];
    } else {
      assert (paths + [p])[1..] == paths[1..] + [p];
      EntityPathsMore(paths[1..], p);
    }
  }

  /** A commit's events are its changed entity files, in the order git lists them, each under the name its new
      path spells, or its old path if the new one is no entity's. */
  lemma {:induction false} EventsAreEntityFiles(c: nat, paths: seq<ChangedPath>)
    ensures PathsOf(Tagged(c, paths)) == EntityPaths(paths)
    ensures forall i :: 0 <= i < |Tagged(c, paths)| ==>
      var e := Tagged(c, paths)[i];
      && e.commitIdx == c
      && Some(e.name) == (if Spelled(e.path.newPath).Some? then Spelled(e.path.newPath) else Spelled(e.path.oldPath))
  {
    if paths != [] {
      var init, p := paths[..|paths| - 1], paths[|paths| - 1];
      EventsAreEntityFiles(c, init);
      EntityPathsMore(init, p);
      assert init + [p] == paths;
      OneMorePath(c, init, p);
    }
  }

  lemma {:induction false} OneMorePath(c: nat, init: seq<ChangedPath>, p: ChangedPath)
    ensures Tagged(c, init + [p]) == Tagged(c, init) + TagOne(c, p)
    ensures PathsOf(Tagged(c, init + [p])) == PathsOf(Tagged(c, init)) + PathsOf(TagOne(c, p))
    ensures PathsOf(TagOne(c, p)) == EntityPaths([p])
  {
    hide Spelled;
    assert (init + [p])[..|init|] == init;
    assert EntityPaths([p][1..]) == [];
  }

  /** The history that a run walks is that of the commits that have no row yet, in their order. */
  lemma {:induction false} EventsAreOfNewCommits(commits: seq<Commit>, already: set<string>, c: nat)
    requires c < |commits|
    ensures Events(commits, already, 0, |commits|) ==
      Events(commits, already, 0, c)
      + (if commits[c].sha in already then [] else Tagged(c, commits[c].paths))
      + Events(commits, already, c + 1, |commits|)
  {
    hide Events, Tagged;
    SplitEvents(commits, already, 0, c, |commits|);
    SplitEvents(commits, already, c, c + 1, |commits|);
    NewCommit(commits, already, c);
    Regroup(Events(commits, already, 0, c), Events(commits, already, c, c + 1),
            Events(commits, already, c + 1, |commits|));
  }

  lemma NewCommit(commits: seq<Commit>, already: set<string>, c: nat)
    requires c < |commits|
    ensures Events(commits, already, c, c + 1) == if commits[c].sha in already then [] else Tagged(c, commits[c].paths)
  {
    assert Concat(CommitEvents(commits, already), c, c) == [];
  }
}
