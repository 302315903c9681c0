/**
 Stopping a history import and resuming it later.

 The first run may stop after any number of rows.  The second skips every commit that has a row,
 and therefore walks a different list of events: what is left of the history, preceded by those
 earlier commits that changed nothing and so left no row.
 */
module Resume {
  import opened Wrappers
  import opened Identity
  import opened Classify
  import opened RawDiff
  import opened Grouping
  import opened HistoryImport

  // What git guarantees of commits; their changed paths are what the parser made of git's output.
  ghost predicate ValidHistory(commits: seq<Commit>) {
    && (forall i, j :: 0 <= i < j < |commits| ==> commits[i].sha != commits[j].sha)
    && (forall i :: 0 <= i < |commits| ==> Parsed(commits[i].paths))
  }

  lemma {:induction false} PathsAreShaped(commits: seq<Commit>, i: nat)
    requires ValidHistory(commits) && i < |commits|
    ensures forall p :: p in commits[i].paths ==> Shaped(p)
  {
    var fields :| ParseFrom(fields, 0) == Ok(commits[i].paths);
    ParsedAreShaped(fields, 0);
  }

  // ---- which commits have a row ----

  lemma {:induction false} RowsNameTheirCommits(commits: seq<Commit>, rd: Reading, named: seq<NamedEvent>, r: Row)
    returns (k: nat)
    requires r in Rows(commits, rd, named)
    ensures k < |named| && named[k].commitIdx < |commits| && commits[named[k].commitIdx].sha == r.sha
    decreases |named|
  {
    var n := RunLength(named, CommitOf);
    if r in CommitRow(commits, rd, named[..n]) {
      k := 0;
    } else {
      k := RowsNameTheirCommits(commits, rd, named[n..], r);
      k := k + n;
    }
  }

  lemma {:induction false} FoundKeeps(rd: Reading, group: seq<NamedEvent>, k: nat)
    requires k < |group| && rd.changes(group[k].path) != []
    ensures Found(rd, group) != []
    decreases |group|
  {
    if k < |group| - 1 {
      FoundKeeps(rd, group[..|group| - 1], k);
    }
  }

  lemma {:induction false} ChangingCommitHasRow(commits: seq<Commit>, rd: Reading, named: seq<NamedEvent>, k: nat)
    requires k < |named| && named[k].commitIdx < |commits| && rd.changes(named[k].path) != []
    ensures commits[named[k].commitIdx].sha in Imported(Rows(commits, rd, named))
    decreases |named|
  {
    var n := RunLength(named, CommitOf);
    var group, rest := CommitRow(commits, rd, named[..n]), Rows(commits, rd, named[n..]);
    var rows := Rows(commits, rd, named);
    assert rows == group + rest;
    if k < n {
      FoundKeeps(rd, named[..n], k);
      assert CommitOf(named[k]) == CommitOf(named[0]);
      assert rows[0] == group[0];
    } else {
      ChangingCommitHasRow(commits, rd, named[n..], k - n);
      var j :| 0 <= j < |rest| && rest[j].sha == commits[named[k].commitIdx].sha;
      assert rows[|group| + j] == rest[j];
    }
  }

  lemma {:induction false} NothingFound(rd: Reading, group: seq<NamedEvent>)
    requires forall k :: 0 <= k < |group| ==> rd.changes(group[k].path) == []
    ensures Found(rd, group) == []
    decreases |group|
  {
    if group != [] {
      NothingFound(rd, group[..|group| - 1]);
    }
  }

  lemma {:induction false} NothingFoundNoRows(commits: seq<Commit>, rd: Reading, named: seq<NamedEvent>)
    requires forall k :: 0 <= k < |named| ==> rd.changes(named[k].path) == []
    ensures Rows(commits, rd, named) == []
  {
    forall lo, hi | 0 <= lo <= hi <= |named| ensures RowMaker(commits, rd)(named[lo..hi]) == [] {
      NothingFound(rd, named[lo..hi]);
    }
    GroupedNothing(named, CommitOf, RowMaker(commits, rd));
  }

  // ---- the events of a part of the history ----

  lemma {:induction false} SplitEvents(commits: seq<Commit>, already: set<string>, lo: nat, c: nat, hi: nat)
    requires lo <= c <= hi <= |commits|
    ensures Events(commits, already, lo, hi) == Events(commits, already, lo, c) + Events(commits, already, c, hi)
  {
    ConcatParts(CommitEvents(commits, already), lo, c, hi);
  }

  lemma {:induction false} SameEvents(commits: seq<Commit>, already: set<string>, already': set<string>, lo: nat,
                                      hi: nat)
    requires lo <= hi <= |commits|
    requires forall d :: lo <= d < hi ==> (commits[d].sha in already <==> commits[d].sha in already')
    ensures Events(commits, already, lo, hi) == Events(commits, already', lo, hi)
  {
    SameConcat(CommitEvents(commits, already), CommitEvents(commits, already'), lo, hi);
  }

  // Walking with fewer commits skipped shows no fewer events.
  lemma {:induction false} EventIncluded(commits: seq<Commit>, already: set<string>, already': set<string>, lo: nat,
                                         hi: nat, e: PathEvent)
    requires lo <= hi <= |commits| && already <= already' && e in Events(commits, already', lo, hi)
    ensures e in Events(commits, already, lo, hi)
  {
    EventOrigin(commits, already', lo, hi, e);
    assert CommitEvents(commits, already)(e.commitIdx) == CommitEvents(commits, already')(e.commitIdx);
    InConcat(CommitEvents(commits, already), lo, hi, e);
  }

  lemma {:induction false} EventsKnown(commits: seq<Commit>, already: set<string>, lo: nat, hi: nat)
    requires ValidHistory(commits) && lo <= hi <= |commits|
    ensures AllKnown(Touches(Events(commits, already, lo, hi)))
  {
    var evs := Events(commits, already, lo, hi);
    forall k | 0 <= k < |evs| ensures Known(Touches(evs)[k]) {
      EventOrigin(commits, already, lo, hi, evs[k]);
      PathsAreShaped(commits, evs[k].commitIdx);
    }
  }

  // ---- a history in two parts ----

  // The events of `front`, and those of `back`, named by a walk over both.
  function NamedFront(front: seq<PathEvent>, back: seq<PathEvent>): (named: seq<NamedEvent>)
    ensures |named| == |front|
    ensures forall k :: 0 <= k < |front| ==> named[k].commitIdx == front[k].commitIdx && named[k].path == front[k].path
  {
    Named(front + back)[..|front|]
  }

  function NamedBack(front: seq<PathEvent>, back: seq<PathEvent>): (named: seq<NamedEvent>)
    ensures |named| == |back|
    ensures forall k :: 0 <= k < |back| ==> named[k].commitIdx == back[k].commitIdx && named[k].path == back[k].path
  {
    Named(front + back)[|front|..]
  }

  lemma {:induction false} RowsOfParts(commits: seq<Commit>, rd: Reading, front: seq<PathEvent>, back: seq<PathEvent>,
                                       c: int)
    requires forall e :: e in front ==> e.commitIdx < c
    requires forall e :: e in back ==> c <= e.commitIdx
    ensures Rows(commits, rd, Named(front + back)) ==
      Rows(commits, rd, NamedFront(front, back)) + Rows(commits, rd, NamedBack(front, back))
  {
    var f, b := NamedFront(front, back), NamedBack(front, back);
    assert Apart(f, b, CommitOf) by {
      if f != [] && b != [] {
        assert front[|front| - 1] in front && back[0] in back;
      }
    }
    GroupedParts(f, b, CommitOf, RowMaker(commits, rd));
    Halves(Named(front + back), |front|);
  }

  lemma {:induction false} EventsOrdered(commits: seq<Commit>, already: set<string>, c: nat)
    requires c <= |commits|
    ensures forall e :: e in Events(commits, already, 0, c) ==> e.commitIdx < c
    ensures forall e :: e in Events(commits, already, c, |commits|) ==> c <= e.commitIdx < |commits|
  {
    forall e | e in Events(commits, already, 0, c) ensures e.commitIdx < c {
      EventOrigin(commits, already, 0, c, e);
    }
    forall e | e in Events(commits, already, c, |commits|) ensures c <= e.commitIdx < |commits| {
      EventOrigin(commits, already, c, |commits|, e);
    }
  }

  // The rows one run writes for the commits before c, and for those from c on.
  function RowsBefore(rd: Reading, commits: seq<Commit>, already: set<string>, c: nat): seq<Row>
    requires c <= |commits|
  {
    Rows(commits, rd, NamedFront(Events(commits, already, 0, c), Events(commits, already, c, |commits|)))
  }

  function RowsFrom(rd: Reading, commits: seq<Commit>, already: set<string>, c: nat): seq<Row>
    requires c <= |commits|
  {
    Rows(commits, rd, NamedBack(Events(commits, already, 0, c), Events(commits, already, c, |commits|)))
  }

  lemma {:induction false} CutRows(rd: Reading, commits: seq<Commit>, already: set<string>, c: nat)
    requires c <= |commits|
    ensures AllRows(commits, already, rd) == RowsBefore(rd, commits, already, c) + RowsFrom(rd, commits, already, c)
  {
    SplitEvents(commits, already, 0, c, |commits|);
    EventsOrdered(commits, already, c);
    RowsOfParts(commits, rd, Events(commits, already, 0, c), Events(commits, already, c, |commits|), c);
  }

  // ---- every row boundary is a commit boundary ----

  lemma {:induction false} OneGroupOneRow(commits: seq<Commit>, rd: Reading, named: seq<NamedEvent>, c: int)
    requires forall e :: e in named ==> e.commitIdx == c
    ensures |Rows(commits, rd, named)| <= 1
  {
    if named != [] {
      assert forall k :: 0 <= k < |named| ==> named[k] in named;
      RunLengthIs(named, CommitOf, |named|);
      var make := RowMaker(commits, rd);
      assert Grouped(named, CommitOf, make) == make(named[..|named|]) + Grouped(named[|named|..], CommitOf, make);
    }
  }

  lemma {:induction false} OneMorePart(commits: seq<Commit>, rd: Reading, front: seq<PathEvent>, own: seq<PathEvent>,
                                       back: seq<PathEvent>, c: int)
    requires forall e :: e in front ==> e.commitIdx < c
    requires forall e :: e in own ==> e.commitIdx == c
    ensures |Rows(commits, rd, NamedFront(front + own, back))| <= |Rows(commits, rd, NamedFront(front, own + back))| + 1
  {
    Regroup(front, own, back);
    var fo := NamedFront(front + own, back);
    var f, o := fo[..|front|], fo[|front|..];
    Halves(fo, |front|);
    assert f == NamedFront(front, own + back);
    forall k | 0 <= k < |o| ensures o[k].commitIdx == c {
      assert o[k].commitIdx == (front + own)[|front| + k].commitIdx && own[k] in own;
    }
    if f != [] && o != [] {
      assert front[|front| - 1] in front && f[|front| - 1].commitIdx == front[|front| - 1].commitIdx;
    }
    GroupedParts(f, o, CommitOf, RowMaker(commits, rd));
    OneGroupOneRow(commits, rd, o, c);
  }

  lemma {:induction false} OneRowACommit(rd: Reading, commits: seq<Commit>, already: set<string>, c: nat)
    requires c < |commits|
    ensures |RowsBefore(rd, commits, already, c + 1)| <= |RowsBefore(rd, commits, already, c)| + 1
  {
    var front, own := Events(commits, already, 0, c), Events(commits, already, c, c + 1);
    var back := Events(commits, already, c + 1, |commits|);
    SplitEvents(commits, already, 0, c, c + 1);
    SplitEvents(commits, already, c, c + 1, |commits|);
    EventsOrdered(commits, already, c);
    EventsOfOne(commits, already, c);
    OneMorePart(commits, rd, front, own, back, c);
  }

  lemma {:induction false} EventsOfOne(commits: seq<Commit>, already: set<string>, c: nat)
    requires c < |commits|
    ensures forall e :: e in Events(commits, already, c, c + 1) ==> e.commitIdx == c
  {
    forall e | e in Events(commits, already, c, c + 1) ensures e.commitIdx == c {
      EventOrigin(commits, already, c, c + 1, e);
    }
  }

  // A count that starts at 0 and grows by at most 1 meets every value up to its last.
  lemma {:induction false} Climb(count: int -> int, k: nat, hi: nat) returns (c: nat)
    requires count(0) == 0 && k <= count(hi)
    requires forall i :: 0 <= i < hi ==> count(i + 1) <= count(i) + 1
    ensures c <= hi && count(c) == k
  {
    c := hi;
    while count(c) != k
      invariant c <= hi && k <= count(c)
      decreases c
    {
      assert count((c - 1) + 1) <= count(c - 1) + 1;
      c := c - 1;
    }
  }

  lemma {:induction false} FindCut(rd: Reading, commits: seq<Commit>, already: set<string>, k: nat) returns (c: nat)
    requires k <= |RowsBefore(rd, commits, already, |commits|)|
    ensures c <= |commits| && k == |RowsBefore(rd, commits, already, c)|
  {
    var count := i => if 0 <= i <= |commits| then |RowsBefore(rd, commits, already, i)| else 0;
    forall i | 0 <= i < |commits| ensures count(i + 1) <= count(i) + 1 {
      OneRowACommit(rd, commits, already, i);
    }
    c := Climb(count, k, |commits|);
  }

  // The first k rows are those of the commits before c.
  predicate IsCut(rd: Reading, commits: seq<Commit>, already: set<string>, k: nat, c: nat) {
    c <= |commits| && |RowsBefore(rd, commits, already, c)| == k
  }

  /** Wherever a run stops, it stops between two commits. */
  lemma {:induction false} StopsAtCommit(rd: Reading, commits: seq<Commit>, already: set<string>, k: nat)
    returns (c: nat)
    requires k <= |AllRows(commits, already, rd)|
    ensures IsCut(rd, commits, already, k, c)
  {
    CutRows(rd, commits, already, |commits|);
    assert RowsFrom(rd, commits, already, |commits|) == [];
    c := FindCut(rd, commits, already, k);
  }

  // ---- resuming ----

  // The earlier commits that are walked again found nothing, so they add no row.
  lemma {:induction false} WalkedAgainFoundNothing(rd: Reading, commits: seq<Commit>, already: set<string>, c: nat)
    requires c <= |commits|
    ensures RowsBefore(rd, commits, already + Imported(RowsBefore(rd, commits, already, c)), c) == []
  {
    var already' := already + Imported(RowsBefore(rd, commits, already, c));
    var evs, evs' := Events(commits, already, 0, c), Events(commits, already', 0, c);
    var front := NamedFront(evs, Events(commits, already, c, |commits|));
    var again := NamedFront(evs', Events(commits, already', c, |commits|));
    forall k | 0 <= k < |again| ensures rd.changes(again[k].path) == [] {
      var e := evs'[k];
      EventOrigin(commits, already', 0, c, e);
      EventIncluded(commits, already, already', 0, c, e);
      var j :| 0 <= j < |evs| && evs[j] == e;
      if rd.changes(e.path) != [] {
        ChangingCommitHasRow(commits, rd, front, j);
      }
    }
    NothingFoundNoRows(commits, rd, again);
  }

  lemma {:induction false} RestIsTheSame(rd: Reading, commits: seq<Commit>, already: set<string>, c: nat)
    requires ValidHistory(commits) && c <= |commits|
    ensures Events(commits, already + Imported(RowsBefore(rd, commits, already, c)), c, |commits|) ==
      Events(commits, already, c, |commits|)
  {
    var first, evs := RowsBefore(rd, commits, already, c), Events(commits, already, 0, c);
    var front := NamedFront(evs, Events(commits, already, c, |commits|));
    EventsOrdered(commits, already, c);
    forall d | c <= d < |commits| ensures commits[d].sha !in Imported(first) {
      if i :| 0 <= i < |first| && first[i].sha == commits[d].sha {
        var k := RowsNameTheirCommits(commits, rd, front, first[i]);
        assert false;
      }
    }
    SameEvents(commits, already, already + Imported(first), c, |commits|);
  }

  lemma {:induction false} BackName(front: seq<PathEvent>, rest: seq<PathEvent>, pre: seq<Event>, suf: seq<Event>,
                                    j: nat)
    requires j < |rest| && pre == Touches(front) && suf == Touches(rest)
    ensures NamedBack(front, rest)[j].finalName == FinalNameAt(pre + suf, |pre| + j)
  {
    var all := front + rest;
    TouchesParts(front, rest);
    assert NamedBack(front, rest)[j] == Named(all)[|front| + j];
  }

  lemma {:induction false} TouchesParts(front: seq<PathEvent>, rest: seq<PathEvent>)
    ensures Touches(front + rest) == Touches(front) + Touches(rest)
  {}

  // ---- names ----

  lemma {:induction false} TaggedByName(c: nat, paths: seq<ChangedPath>, e: PathEvent)
    requires e in Tagged(c, paths)
    ensures Spelled(e.path.newPath).Some? ==> e.name == Spelled(e.path.newPath).value
    ensures Spelled(e.path.newPath).Some? || Spelled(e.path.oldPath).Some?
  {
    if paths != [] && e !in TagOne(c, paths[|paths| - 1]) {
      TaggedByName(c, paths[..|paths| - 1], e);
    }
  }

  lemma {:induction false} EventsNamed(commits: seq<Commit>, already: set<string>, lo: nat, hi: nat)
    requires lo <= hi <= |commits|
    ensures NamedBy(Touches(Events(commits, already, lo, hi)), Spelled)
  {
    var evs := Events(commits, already, lo, hi);
    forall j | 0 <= j < |evs| && Spelled(evs[j].path.newPath).Some?
      ensures evs[j].name == Spelled(evs[j].path.newPath).value
    {
      EventOrigin(commits, already, lo, hi, evs[j]);
      TaggedByName(evs[j].commitIdx, commits[evs[j].commitIdx].paths, evs[j]);
    }
  }

  // A deletion is an event only when the path it deletes is that of an entity.
  lemma {:induction false} DeletedPathSpells(commits: seq<Commit>, already: set<string>, lo: nat, hi: nat, e: PathEvent)
    requires ValidHistory(commits) && lo <= hi <= |commits|
    requires e in Events(commits, already, lo, hi) && e.path.status == 'D'
    ensures Spelled(e.path.oldPath).Some?
  {
    EventOrigin(commits, already, lo, hi, e);
    PathsAreShaped(commits, e.commitIdx);
    TaggedByName(e.commitIdx, commits[e.commitIdx].paths, e);
    EmptyPathIsNoEntity();
  }

  // What is left of the history has, of the entity of its event j, only the deletion; and just one of
  // two walks up to there was still tracking the path.
  ghost predicate NameLost(front: seq<PathEvent>, front': seq<PathEvent>, rest: seq<PathEvent>, j: nat) {
    && j < |rest| && !NamedWithin(Touches(rest), j)
    && StillTracked(Touches(front), Touches(rest), j) != StillTracked(Touches(front'), Touches(rest), j)
    && Spelled(rest[j].path.oldPath) != Some("")
  }

  // Two beginnings and an ending of histories, as the import sees them.
  ghost predicate Walkable(front: seq<PathEvent>, rest: seq<PathEvent>) {
    && AllKnown(Touches(front)) && NamedBy(Touches(front), Spelled)
    && AllKnown(Touches(rest)) && NamedBy(Touches(rest), Spelled)
    && forall j :: 0 <= j < |rest| && rest[j].path.status == 'D' ==> Spelled(rest[j].path.oldPath).Some?
  }

  lemma {:induction false} PartsAreWalkable(commits: seq<Commit>, already: set<string>, already': set<string>, c: nat)
    requires ValidHistory(commits) && c <= |commits|
    ensures Walkable(Events(commits, already', 0, c), Events(commits, already, c, |commits|))
  {
    var rest := Events(commits, already, c, |commits|);
    EventsKnown(commits, already', 0, c);
    EventsKnown(commits, already, c, |commits|);
    EventsNamed(commits, already', 0, c);
    EventsNamed(commits, already, c, |commits|);
    forall j | 0 <= j < |rest| && rest[j].path.status == 'D' ensures Spelled(rest[j].path.oldPath).Some? {
      DeletedPathSpells(commits, already, c, |commits|, rest[j]);
    }
  }

  // The name of an entity of which only the deletion is left.
  lemma {:induction false} NameOfLost(front: seq<PathEvent>, rest: seq<PathEvent>, j: nat)
    requires Walkable(front, rest) && j < |rest| && !NamedWithin(Touches(rest), j)
    ensures Spelled(rest[j].path.oldPath).Some?
    ensures NamedBack(front, rest)[j].finalName ==
      if StillTracked(Touches(front), Touches(rest), j) then Spelled(rest[j].path.oldPath).value else ""
  {
    LostIsSpelled(front, rest, j);
    var pre, suf := Touches(front), Touches(rest);
    assert suf[j].oldPath == rest[j].path.oldPath;
    LostName(pre, suf, j);
    BackName(front, rest, pre, suf, j);
  }

  lemma {:induction false} LostIsSpelled(front: seq<PathEvent>, rest: seq<PathEvent>, j: nat)
    requires Walkable(front, rest) && j < |rest| && !NamedWithin(Touches(rest), j)
    ensures Spelled(rest[j].path.oldPath).Some?
  {
    UnnamedIsDeletion(Touches(rest), j);
  }

  lemma {:induction false} LostName(pre: seq<Event>, suf: seq<Event>, j: nat)
    requires AllKnown(pre) && AllKnown(suf) && NamedBy(pre, Spelled) && NamedBy(suf, Spelled)
    requires j < |suf| && !NamedWithin(suf, j) && Spelled(suf[j].oldPath).Some?
    ensures FinalNameAt(pre + suf, |pre| + j) ==
      if StillTracked(pre, suf, j) then Spelled(suf[j].oldPath).value else ""
  {
    NameOfDeleted(pre, suf, j, Spelled);
  }

  /** Two walks with a common ending differ in the final name of an event of the ending exactly when that
      event's lineage shows nothing but its deletion there and one of the walks had lost track of the
      path; that walk has no name for it. */
  lemma {:induction false} NamesDiffer(front: seq<PathEvent>, front': seq<PathEvent>, rest: seq<PathEvent>, j: nat)
    requires Walkable(front, rest) && Walkable(front', rest) && j < |rest|
    ensures var a, b := NamedBack(front, rest)[j], NamedBack(front', rest)[j];
      && (a != b <==> NameLost(front, front', rest, j))
      && (a != b ==> a.finalName == "" || b.finalName == "")
  {
    if NamedWithin(Touches(rest), j) {
      NamedAgain(front, front', rest, j);
    } else {
      NameOfLost(front, rest, j);
      NameOfLost(front', rest, j);
    }
  }

  lemma {:induction false} NamedAgain(front: seq<PathEvent>, front': seq<PathEvent>, rest: seq<PathEvent>, j: nat)
    requires Walkable(front, rest) && Walkable(front', rest) && j < |rest| && NamedWithin(Touches(rest), j)
    ensures NamedBack(front, rest)[j].finalName == NamedBack(front', rest)[j].finalName
  {
    var pre, pre', suf := Touches(front), Touches(front'), Touches(rest);
    EndingDecidesNames(pre, pre', suf, j);
    BackName(front, rest, pre, suf, j);
    BackName(front', rest, pre', suf, j);
  }

  // ---- rows and names ----

  // Every change found in the file is of a resource, which is known by its id.
  predicate OnlyResources(rd: Reading, path: ChangedPath) {
    forall i | 0 <= i < |rd.changes(path)| :: rd.changes(path)[i].resource.Some?
  }

  // The same events, under other names.
  ghost predicate SameButNames(a: seq<NamedEvent>, b: seq<NamedEvent>) {
    |a| == |b| && forall k :: 0 <= k < |a| ==> a[k].commitIdx == b[k].commitIdx && a[k].path == b[k].path
  }

  // The names that differ are of no consequence.
  ghost predicate NamesAgree(rd: Reading, a: seq<NamedEvent>, b: seq<NamedEvent>)
    requires SameButNames(a, b)
  {
    forall k :: 0 <= k < |a| ==> a[k].finalName == b[k].finalName || OnlyResources(rd, a[k].path)
  }

  lemma {:induction false} ResolvedAlike(chs: seq<Change>, a: string, b: string)
    ensures ResolveAll(chs, a) == ResolveAll(chs, b) <==> a == b || forall i :: 0 <= i < |chs| ==> chs[i].resource.Some?
  {
    if ResolveAll(chs, a) == ResolveAll(chs, b) {
      forall i | 0 <= i < |chs| && a != b ensures chs[i].resource.Some? {
        assert ResolveAll(chs, a)[i] == ResolveAll(chs, b)[i];
      }
    }
  }

  lemma {:induction false} FoundAlike(rd: Reading, a: seq<NamedEvent>, b: seq<NamedEvent>)
    requires SameButNames(a, b)
    ensures Found(rd, a) == Found(rd, b)
    ensures FoundOps(rd, a) == FoundOps(rd, b) <==> NamesAgree(rd, a, b)
    decreases |a|
  {
    if a != [] {
      var n := |a| - 1;
      FoundAlike(rd, a[..n], b[..n]);
      ResolvedAlike(rd.changes(a[n].path), a[n].finalName, b[n].finalName);
      TailsMatch(FoundOps(rd, a[..n]), ResolveAll(rd.changes(a[n].path), a[n].finalName),
                 FoundOps(rd, b[..n]), ResolveAll(rd.changes(b[n].path), b[n].finalName));
      assert NamesAgree(rd, a, b) <==>
        NamesAgree(rd, a[..n], b[..n]) && (a[n].finalName == b[n].finalName || OnlyResources(rd, a[n].path));
    }
  }

  lemma TailsMatch<T>(a: seq<T>, x: seq<T>, b: seq<T>, y: seq<T>)
    requires |a| == |b| && |x| == |y|
    ensures a + x == b + y <==> a == b && x == y
  {
    if a + x == b + y {
      assert a == (a + x)[..|a|] && x == (a + x)[|a|..];
      assert b == (b + y)[..|b|] && y == (b + y)[|b|..];
    }
  }

  lemma {:induction false} RowAlike(commits: seq<Commit>, rd: Reading, a: seq<NamedEvent>, b: seq<NamedEvent>)
    requires SameButNames(a, b) && a != [] && a[0].commitIdx < |commits|
    ensures |CommitRow(commits, rd, a)| == |CommitRow(commits, rd, b)|
    ensures CommitRow(commits, rd, a) == CommitRow(commits, rd, b) <==> NamesAgree(rd, a, b)
  {
    FoundAlike(rd, a, b);
    if Found(rd, a) == [] {
      NothingToResolve(rd, a, b);
    } else {
      var sha, chs := commits[a[0].commitIdx].sha, Found(rd, a);
      assert CommitRow(commits, rd, a)[0] == RowOf(sha, chs, FoundOps(rd, a));
      assert CommitRow(commits, rd, b)[0] == RowOf(sha, chs, FoundOps(rd, b));
      RowOfOps(sha, chs, FoundOps(rd, a), FoundOps(rd, b));
    }
  }

  lemma RowOfOps(sha: string, chs: seq<Change>, a: seq<Op>, b: seq<Op>)
    requires |a| == |b| == |chs|
    ensures RowOf(sha, chs, a) == RowOf(sha, chs, b) <==> a == b
  {}

  lemma {:induction false} NothingToResolve(rd: Reading, a: seq<NamedEvent>, b: seq<NamedEvent>)
    requires SameButNames(a, b) && Found(rd, a) == []
    ensures NamesAgree(rd, a, b)
  {
    forall k | 0 <= k < |a| ensures OnlyResources(rd, a[k].path) {
      if rd.changes(a[k].path) != [] {
        FoundKeeps(rd, a, k);
      }
    }
  }

  /** The rows of the same events under other names are the same exactly when every name that differs is
      of a file in which only resources changed. */
  lemma {:induction false} RowsAlike(commits: seq<Commit>, rd: Reading, a: seq<NamedEvent>, b: seq<NamedEvent>)
    requires SameButNames(a, b) && forall k :: 0 <= k < |a| ==> a[k].commitIdx < |commits|
    ensures |Rows(commits, rd, a)| == |Rows(commits, rd, b)|
    ensures Rows(commits, rd, a) == Rows(commits, rd, b) <==> NamesAgree(rd, a, b)
    decreases |a|
  {
    hide CommitRow, NamesAgree;
    if a == [] {
      NothingDisagrees(rd, a, b);
    } else {
      var n := RunLength(a, CommitOf);
      RunLengthIs(b, CommitOf, n);
      RowAlike(commits, rd, a[..n], b[..n]);
      RowsAlike(commits, rd, a[n..], b[n..]);
      TailsMatch(CommitRow(commits, rd, a[..n]), Rows(commits, rd, a[n..]),
                 CommitRow(commits, rd, b[..n]), Rows(commits, rd, b[n..]));
      AgreeInParts(rd, a, b, n);
    }
  }

  lemma NothingDisagrees(rd: Reading, a: seq<NamedEvent>, b: seq<NamedEvent>)
    requires a == [] && b == []
    ensures NamesAgree(rd, a, b)
  {}

  lemma {:induction false} AgreeInParts(rd: Reading, a: seq<NamedEvent>, b: seq<NamedEvent>, n: nat)
    requires SameButNames(a, b) && n <= |a|
    ensures NamesAgree(rd, a, b) <==> NamesAgree(rd, a[..n], b[..n]) && NamesAgree(rd, a[n..], b[n..])
  {
    if NamesAgree(rd, a[..n], b[..n]) && NamesAgree(rd, a[n..], b[n..]) {
      forall k | 0 <= k < |a| ensures a[k].finalName == b[k].finalName || OnlyResources(rd, a[k].path) {
        if k >= n {
          assert a[n..][k - n] == a[k] && b[n..][k - n] == b[k];
        } else {
          assert a[..n][k] == a[k] && b[..n][k] == b[k];
        }
      }
    }
  }

  // ---- a run that stopped, resumed ----

  /** A run that stopped after k rows, resumed.  One run would have written its remaining rows from the
      events of the commits from c on, and the resumed run writes its rows from those same events.  The
      names it gives them differ exactly where a name is lost, and there one of the two is empty. */
  lemma {:induction false} ResumedRun(rd: Reading, commits: seq<Commit>, already: set<string>, k: nat, c: nat)
    requires ValidHistory(commits) && k <= |AllRows(commits, already, rd)| && IsCut(rd, commits, already, k, c)
    ensures var full := AllRows(commits, already, rd);
      var already' := already + Imported(full[..k]);
      var front, front' := Events(commits, already, 0, c), Events(commits, already', 0, c);
      var rest := Events(commits, already, c, |commits|);
      && full[k..] == Rows(commits, rd, NamedBack(front, rest))
      && AllRows(commits, already', rd) == Rows(commits, rd, NamedBack(front', rest))
      && forall j :: 0 <= j < |rest| ==>
           var a, b := NamedBack(front, rest)[j], NamedBack(front', rest)[j];
           (a != b <==> NameLost(front, front', rest, j)) && (a != b ==> a.finalName == "" || b.finalName == "")
  {
    var full := AllRows(commits, already, rd);
    CutRows(rd, commits, already, c);
    assert full[..k] == RowsBefore(rd, commits, already, c);
    var already' := already + Imported(full[..k]);
    RestIsTheSame(rd, commits, already, c);
    WalkedAgainFoundNothing(rd, commits, already, c);
    CutRows(rd, commits, already', c);
    NamesAtCut(commits, already, already', c);
  }

  lemma {:induction false} NamesAtCut(commits: seq<Commit>, already: set<string>, already': set<string>, c: nat)
    requires ValidHistory(commits) && c <= |commits|
    ensures var front, front' := Events(commits, already, 0, c), Events(commits, already', 0, c);
      var rest := Events(commits, already, c, |commits|);
      forall j :: 0 <= j < |rest| ==>
        var a, b := NamedBack(front, rest)[j], NamedBack(front', rest)[j];
        (a != b <==> NameLost(front, front', rest, j)) && (a != b ==> a.finalName == "" || b.finalName == "")
  {
    var front, front' := Events(commits, already, 0, c), Events(commits, already', 0, c);
    var rest := Events(commits, already, c, |commits|);
    PartsAreWalkable(commits, already, already, c);
    PartsAreWalkable(commits, already, already', c);
    forall j | 0 <= j < |rest|
      ensures var a, b := NamedBack(front, rest)[j], NamedBack(front', rest)[j];
        (a != b <==> NameLost(front, front', rest, j)) && (a != b ==> a.finalName == "" || b.finalName == "")
    {
      NamesDiffer(front, front', rest, j);
    }
  }

  // Two walks agree wherever it matters exactly when every name that is lost is of a file in which only
  // resources changed.
  lemma {:induction false} AgreeUnlessLost(rd: Reading, front: seq<PathEvent>, front': seq<PathEvent>,
                                           rest: seq<PathEvent>)
    requires forall j :: 0 <= j < |rest| ==>
      (NamedBack(front, rest)[j] != NamedBack(front', rest)[j] <==> NameLost(front, front', rest, j))
    ensures SameButNames(NamedBack(front, rest), NamedBack(front', rest))
    ensures NamesAgree(rd, NamedBack(front, rest), NamedBack(front', rest)) <==>
      forall j :: 0 <= j < |rest| && NameLost(front, front', rest, j) ==> OnlyResources(rd, rest[j].path)
  {
    hide NameLost, OnlyResources;
    var a, b := NamedBack(front, rest), NamedBack(front', rest);
    forall j | 0 <= j < |rest|
      ensures a[j].path == rest[j].path && (a[j] == b[j] <==> a[j].finalName == b[j].finalName)
    {}
  }

  lemma {:induction false} BackIsOfCommits(commits: seq<Commit>, already: set<string>, front: seq<PathEvent>, c: nat)
    requires c <= |commits|
    ensures var back := NamedBack(front, Events(commits, already, c, |commits|));
      forall k :: 0 <= k < |back| ==> back[k].commitIdx < |commits|
  {
    EventsOrdered(commits, already, c);
    var rest := Events(commits, already, c, |commits|);
    forall k | 0 <= k < |rest| ensures rest[k].commitIdx < |commits| {
      assert rest[k] in rest;
    }
  }

  /** Stopping after k rows and resuming writes exactly the rows of one run, in the same order, if and
      only if every event whose name is lost changed nothing but resources. */
  lemma {:induction false} ResumingIsOneRun(rd: Reading, commits: seq<Commit>, already: set<string>, k: nat, c: nat)
    requires ValidHistory(commits) && k <= |AllRows(commits, already, rd)| && IsCut(rd, commits, already, k, c)
    ensures var full := AllRows(commits, already, rd);
      var already' := already + Imported(full[..k]);
      var front, front' := Events(commits, already, 0, c), Events(commits, already', 0, c);
      var rest := Events(commits, already, c, |commits|);
      AllRows(commits, already', rd) == full[k..] <==>
        forall j :: 0 <= j < |rest| && NameLost(front, front', rest, j) ==> OnlyResources(rd, rest[j].path)
  {
    var already' := already + Imported(AllRows(commits, already, rd)[..k]);
    var front, front' := Events(commits, already, 0, c), Events(commits, already', 0, c);
    var rest := Events(commits, already, c, |commits|);
    hide Rows, NameLost, OnlyResources, Events, NamesAgree, SameButNames, AllRows, IsCut, NamedBack, ValidHistory;
    ResumedRun(rd, commits, already, k, c);
    BackIsOfCommits(commits, already, front, c);
    AgreeUnlessLost(rd, front, front', rest);
    RowsAlike(commits, rd, NamedBack(front, rest), NamedBack(front', rest));
  }

  // ---- names at the end of history ----

  /** Every event whose entity is still there when history ends is filed under the name that the
      entity's path spells then, however often it was renamed in between. */
  lemma {:induction false} FiledUnderTodaysName(commits: seq<Commit>, already: set<string>, i: nat, p: string)
    requires ValidHistory(commits)
    requires var es := Touches(Events(commits, already, 0, |commits|));
      i < |es| && p in RegAt(es, |es|).current && RegAt(es, |es|).current[p] == IdAt(es, i)
    requires Spelled(p).Some?
    ensures Named(Events(commits, already, 0, |commits|))[i].finalName == Spelled(p).value
  {
    var evs := Events(commits, already, 0, |commits|);
    var es := Touches(evs);
    EventsKnown(commits, already, 0, |commits|);
    EventsNamed(commits, already, 0, |commits|);
    TrackedPathKeepsItsName(es, |es|, p, Spelled);
  }
}
