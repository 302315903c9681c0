/**
 Splitting one commit of a resource-group file into changes of single entities
 (internal/githistory/decompose.go).
 */
module Decompose {
  import opened Wrappers
  import opened Json
  import opened Kinds

  // A resource as a file has it; a collection the file does not mention is None, not empty.
  datatype ResourceDoc = ResourceDoc(
    id: Option<int>,
    aliases: Option<seq<string>>,
    tags: Option<seq<string>>,
    allowedVOs: Option<seq<string>>,
    services: Option<Fields>,
    contactLists: Option<Fields>,
    rest: Fields
  )

  type Resources = map<string, ResourceDoc>

  datatype GroupDoc = GroupDoc(
    production: Option<bool>,
    disable: Option<bool>,
    groupId: Option<int>,
    supportCenter: string,
    description: string,
    extra: Fields,
    resources: Resources
  )

  datatype Payload =
    | ResourcePayload(group: string, name: string, resource: ResourceDoc)
    | GroupPayload(name: string, site: string, production: Option<bool>, supportCenter: string, description: string)

  datatype Change = Change(
    kind: Kind, op: Operation, oldName: string, newName: string,
    before: Option<Payload>, after: Option<Payload>, topologyId: int
  )

  // What a payload shows: a collection is empty rather than missing.
  function Normalized(r: ResourceDoc): ResourceDoc {
    r.(aliases := OrEmpty(r.aliases, []), tags := OrEmpty(r.tags, []), allowedVOs := OrEmpty(r.allowedVOs, []),
       services := OrEmpty(r.services, map[]), contactLists := OrEmpty(r.contactLists, map[]))
  }

  function OrEmpty<T>(x: Option<T>, empty: T): Option<T> {
    if x.None? then Some(empty) else x
  }

  function IDOrGen(genId: string -> int, id: Option<int>, name: string): int {
    match id
    case Some(n) => n
    case None => genId(name)
  }

  // ---- resources ----

  function Show(group: string, name: string, r: ResourceDoc): Option<Payload> {
    Some(ResourcePayload(group, name, Normalized(r)))
  }

  // The change of one resource, matched by its key in the two files.
  function ChangeOf(genId: string -> int, oldGroup: string, newGroup: string, prior: Resources, next: Resources,
                    name: string): Option<Change>
  {
    if name in prior && name !in next then
      Some(Change(Resource, Delete, name, "", Show(oldGroup, name, prior[name]), None,
        IDOrGen(genId, prior[name].id, name)))
    else if name in prior && (prior[name] != next[name] || oldGroup != newGroup) then
      Some(Change(Resource, Update, name, name, Show(oldGroup, name, prior[name]), Show(newGroup, name, next[name]),
                  IDOrGen(genId, next[name].id, name)))
    else if name !in prior && name in next then
      Some(Change(Resource, Create, "", name, None, Show(newGroup, name, next[name]),
        IDOrGen(genId, next[name].id, name)))
    else None
  }

  function NameOf(c: Change): string {
    if c.op == Create then c.newName else c.oldName
  }

  ghost predicate OnePerName(cs: seq<Change>) {
    forall i, j :: 0 <= i < j < |cs| ==> NameOf(cs[i]) != NameOf(cs[j])
  }

  // The changes, in any order, from the old resources to the new.
  ghost predicate IsDecomposition(genId: string -> int, oldGroup: string, newGroup: string, prior: Resources,
                                  next: Resources, cs: seq<Change>)
  {
    && OnePerName(cs)
    && forall c :: c in cs <==> ChangeOf(genId, oldGroup, newGroup, prior, next, NameOf(c)) == Some(c)
  }

  method DecomposeResources(genId: string -> int, oldGroup: string, newGroup: string, prior: Resources, next: Resources)
    returns (changes: seq<Change>)
    ensures IsDecomposition(genId, oldGroup, newGroup, prior, next, changes)
  {
    changes := [];
    var seen: set<string> := {};
    var todo := prior.Keys;
    while todo != {}
      invariant todo <= prior.Keys && seen == prior.Keys - todo
      invariant OnePerName(changes)
      invariant forall c :: c in changes <==>
        NameOf(c) in seen && ChangeOf(genId, oldGroup, newGroup, prior, next, NameOf(c)) == Some(c)
      decreases todo
    {
      var name :| name in todo;
      todo, seen := todo - {name}, seen + {name};
      if name !in next {
        changes := changes + [Change(Resource, Delete, name, "", Show(oldGroup, name, prior[name]), None,
          IDOrGen(genId, prior[name].id, name))];
        continue;
      }
      if prior[name] == next[name] && oldGroup == newGroup {
        continue;
      }
      changes := changes + [Change(Resource, Update, name, name, Show(oldGroup, name, prior[name]),
        Show(newGroup, name, next[name]),
                                   IDOrGen(genId, next[name].id, name))];
    }
    todo := next.Keys;
    while todo != {}
      invariant todo <= next.Keys
      invariant OnePerName(changes)
      invariant forall c :: c in changes <==>
        && NameOf(c) in seen + (next.Keys - todo)
        && ChangeOf(genId, oldGroup, newGroup, prior, next, NameOf(c)) == Some(c)
      decreases todo
    {
      var name :| name in todo;
      todo := todo - {name};
      if name in seen {
        continue;
      }
      changes := changes + [Change(Resource, Create, "", name, None, Show(newGroup, name, next[name]),
        IDOrGen(genId, next[name].id, name))];
    }
    forall c ensures c in changes <==> ChangeOf(genId, oldGroup, newGroup, prior, next, NameOf(c)) == Some(c) {}
  }

  // ---- replaying the changes ----

  // Payloads by name.
  type Payloads = map<string, Payload>

  function Replay(m: Payloads, c: Change): Payloads {
    var others := if c.op == Create then m else m - {c.oldName};
    match c.after
    case Some(p) => if c.op == Delete then others else others[c.newName := p]
    case None => others
  }

  function ReplayAll(m: Payloads, cs: seq<Change>): Payloads {
    if cs == [] then m else Replay(ReplayAll(m, cs[..|cs| - 1]), cs[|cs| - 1])
  }

  // What the resources of a group show.
  function Shown(group: string, m: Resources): (s: Payloads)
    ensures s.Keys == m.Keys
    ensures forall k :: k in m ==> s[k] == ResourcePayload(group, k, Normalized(m[k]))
  {
    map k | k in m :: ResourcePayload(group, k, Normalized(m[k]))
  }

  // A change writes or removes what it is named for.
  ghost predicate Names(c: Change) {
    (c.op == Update ==> c.oldName == c.newName) && (c.op != Delete ==> c.after.Some?)
  }

  lemma {:induction false} ReplayedElsewhere(m: Payloads, cs: seq<Change>, k: string)
    requires forall i :: 0 <= i < |cs| ==> Names(cs[i]) && NameOf(cs[i]) != k
    ensures k in ReplayAll(m, cs) <==> k in m
    ensures k in m ==> ReplayAll(m, cs)[k] == m[k]
  {
    if cs != [] {
      assert forall i :: 0 <= i < |cs| - 1 ==> cs[..|cs| - 1][i] == cs[i];
      ReplayedElsewhere(m, cs[..|cs| - 1], k);
    }
  }

  lemma {:induction false} ReplayedAt(m: Payloads, cs: seq<Change>, i: nat)
    requires OnePerName(cs) && (forall j :: 0 <= j < |cs| ==> Names(cs[j])) && i < |cs|
    ensures var k := NameOf(cs[i]);
      && Names(cs[i])
      && (k in ReplayAll(m, cs) <==> cs[i].op != Delete)
      && (cs[i].op != Delete ==> ReplayAll(m, cs)[k] == cs[i].after.value)
  {
    var init := cs[..|cs| - 1];
    assert forall j :: 0 <= j < |init| ==> init[j] == cs[j];
    if i < |cs| - 1 {
      ReplayedAt(m, init, i);
      assert NameOf(cs[i]) != NameOf(cs[|cs| - 1]);
    }
  }

  /** Replaying the changes on the old resources gives the new ones, each in its group, whatever order the
      changes come in. */
  lemma {:induction false} ChangesLeadToNew(genId: string -> int, oldGroup: string, newGroup: string,
                                            prior: Resources, next: Resources, cs: seq<Change>)
    requires IsDecomposition(genId, oldGroup, newGroup, prior, next, cs)
    ensures ReplayAll(Shown(oldGroup, prior), cs) == Shown(newGroup, next)
  {
    var r := ReplayAll(Shown(oldGroup, prior), cs);
    forall k
      ensures (k in r <==> k in next) && (k in next ==> r[k] == ResourcePayload(newGroup, k, Normalized(next[k])))
    {
      ChangesLeadAt(genId, oldGroup, newGroup, prior, next, cs, k);
    }
  }

  lemma {:induction false} ChangesLeadAt(genId: string -> int, oldGroup: string, newGroup: string,
                                         prior: Resources, next: Resources, cs: seq<Change>, k: string)
    requires IsDecomposition(genId, oldGroup, newGroup, prior, next, cs)
    ensures var r := ReplayAll(Shown(oldGroup, prior), cs);
      (k in r <==> k in next) && (k in next ==> r[k] == ResourcePayload(newGroup, k, Normalized(next[k])))
  {
    forall i | 0 <= i < |cs| ensures Names(cs[i]) {
      assert cs[i] in cs;
    }
    match ChangeOf(genId, oldGroup, newGroup, prior, next, k)
    case Some(c) =>
      assert NameOf(c) == k && c in cs;
      var i :| 0 <= i < |cs| && cs[i] == c;
      ReplayedAt(Shown(oldGroup, prior), cs, i);
    case None =>
      forall i | 0 <= i < |cs| ensures NameOf(cs[i]) != k {
        assert cs[i] in cs;
      }
      ReplayedElsewhere(Shown(oldGroup, prior), cs, k);
  }

  /** The order in which Go visits the two maps changes neither which changes there are nor where they lead. */
  lemma {:induction false} OrderDoesNotMatter(genId: string -> int, oldGroup: string, newGroup: string,
                                              prior: Resources, next: Resources, a: seq<Change>, b: seq<Change>)
    requires IsDecomposition(genId, oldGroup, newGroup, prior, next, a)
      && IsDecomposition(genId, oldGroup, newGroup, prior, next, b)
    ensures forall c :: c in a <==> c in b
    ensures ReplayAll(Shown(oldGroup, prior), a) == ReplayAll(Shown(oldGroup, prior), b)
  {
    ChangesLeadToNew(genId, oldGroup, newGroup, prior, next, a);
    ChangesLeadToNew(genId, oldGroup, newGroup, prior, next, b);
  }

  // The change the other way round.
  function Undo(c: Change): Change {
    Change(c.kind, match c.op case Create => Delete case Update => Update case Delete => Create, c.newName, c.oldName,
           c.after, c.before, c.topologyId)
  }

  function UndoEach(cs: seq<Change>): (undone: seq<Change>)
    ensures |undone| == |cs| && forall i :: 0 <= i < |cs| ==> undone[i] == Undo(cs[i])
  {
    seq(|cs|, i requires 0 <= i < |cs| => Undo(cs[i]))
  }

  lemma {:induction false} ChangesLeadBackAt(genId: string -> int, oldGroup: string, newGroup: string,
                                             prior: Resources, next: Resources, cs: seq<Change>, k: string)
    requires IsDecomposition(genId, oldGroup, newGroup, prior, next, cs)
    ensures var r := ReplayAll(Shown(newGroup, next), UndoEach(cs));
      (k in r <==> k in prior) && (k in prior ==> r[k] == ResourcePayload(oldGroup, k, Normalized(prior[k])))
  {
    var undone := UndoEach(cs);
    forall i | 0 <= i < |cs| ensures Names(undone[i]) && NameOf(undone[i]) == NameOf(cs[i]) {
      assert cs[i] in cs;
    }
    match ChangeOf(genId, oldGroup, newGroup, prior, next, k)
    case Some(c) =>
      assert NameOf(c) == k && c in cs;
      var i :| 0 <= i < |cs| && cs[i] == c;
      ReplayedAt(Shown(newGroup, next), undone, i);
    case None =>
      forall i | 0 <= i < |undone| ensures NameOf(undone[i]) != k {
        assert cs[i] in cs;
      }
      ReplayedElsewhere(Shown(newGroup, next), undone, k);
  }

  /** What the changes say was there before is true: undone on the new resources they give the old ones. */
  lemma {:induction false} ChangesLeadBack(genId: string -> int, oldGroup: string, newGroup: string,
                                           prior: Resources, next: Resources, cs: seq<Change>)
    requires IsDecomposition(genId, oldGroup, newGroup, prior, next, cs)
    ensures ReplayAll(Shown(newGroup, next), UndoEach(cs)) == Shown(oldGroup, prior)
  {
    var r := ReplayAll(Shown(newGroup, next), UndoEach(cs));
    forall k
      ensures (k in r <==> k in prior) && (k in prior ==> r[k] == ResourcePayload(oldGroup, k, Normalized(prior[k])))
    {
      ChangesLeadBackAt(genId, oldGroup, newGroup, prior, next, cs, k);
    }
  }

  /** Each change is about a resource and carries the id of that resource: the one written in the later file,
      or in the earlier one if it is deleted, or else the hash of its name. */
  lemma {:induction false} ChangesCarryIds(genId: string -> int, oldGroup: string, newGroup: string,
                                           prior: Resources, next: Resources, cs: seq<Change>, i: nat)
    requires IsDecomposition(genId, oldGroup, newGroup, prior, next, cs) && i < |cs|
    ensures var name := NameOf(cs[i]);
      && cs[i].kind == Resource && (name in prior || name in next)
      && (var written := if name in next then next[name].id else prior[name].id;
          cs[i].topologyId == if written.Some? then written.value else genId(name))
      && (cs[i].op == (if name !in prior then Create else if name in next then Update else Delete))
  {
    assert cs[i] in cs;
  }

  /** A resource has no change exactly when it is the same in both files and its group kept its name, or
      is in neither. */
  lemma {:induction false} UnchangedResources(genId: string -> int, oldGroup: string, newGroup: string,
                                              prior: Resources, next: Resources, cs: seq<Change>, name: string)
    requires IsDecomposition(genId, oldGroup, newGroup, prior, next, cs)
    ensures (forall i :: 0 <= i < |cs| ==> NameOf(cs[i]) != name) <==>
      (name !in prior && name !in next)
        || (name in prior && name in next && prior[name] == next[name] && oldGroup == newGroup)
  {
    match ChangeOf(genId, oldGroup, newGroup, prior, next, name)
    case Some(c) =>
      assert NameOf(c) == name && c in cs;
    case None =>
      forall i | 0 <= i < |cs| ensures NameOf(cs[i]) != name {
        assert cs[i] in cs;
      }
  }

  // An update that shows the same before and after: the files differ in whether an empty collection is
  // mentioned.
  predicate Silent(c: Change) {
    c.op == Update && c.before == c.after
  }

  function Telling(cs: seq<Change>): seq<Change> {
    if cs == [] then []
    else Telling(cs[..|cs| - 1]) + if Silent(cs[|cs| - 1]) then [] else [cs[|cs| - 1]]
  }

  lemma {:induction false} TellingMembers(cs: seq<Change>)
    requires OnePerName(cs)
    ensures OnePerName(Telling(cs)) && forall c :: c in Telling(cs) <==> c in cs && !Silent(c)
  {
    if cs != [] {
      var init, last := cs[..|cs| - 1], cs[|cs| - 1];
      TellingMembers(init);
      assert cs == init + [last];
      forall i | 0 <= i < |Telling(init)| ensures NameOf(Telling(init)[i]) != NameOf(last) {
        assert Telling(init)[i] in init;
      }
    }
  }

  lemma {:induction false} NotAmong(genId: string -> int, oldGroup: string, newGroup: string,
                                    prior: Resources, next: Resources, cs: seq<Change>, k: string)
    requires IsDecomposition(genId, oldGroup, newGroup, prior, next, cs)
    requires var change := ChangeOf(genId, oldGroup, newGroup, prior, next, k); change == None || Silent(change.value)
    ensures forall i :: 0 <= i < |Telling(cs)| ==> NameOf(Telling(cs)[i]) != k
  {
    TellingMembers(cs);
    forall i | 0 <= i < |Telling(cs)| ensures NameOf(Telling(cs)[i]) != k {
      assert Telling(cs)[i] in Telling(cs);
    }
  }

  lemma {:induction false} TellingLeadsAt(genId: string -> int, oldGroup: string, newGroup: string,
                                          prior: Resources, next: Resources, cs: seq<Change>, k: string)
    requires IsDecomposition(genId, oldGroup, newGroup, prior, next, cs)
    ensures var r := ReplayAll(Shown(oldGroup, prior), Telling(cs));
      (k in r <==> k in next) && (k in next ==> r[k] == ResourcePayload(newGroup, k, Normalized(next[k])))
  {
    var some, change := Telling(cs), ChangeOf(genId, oldGroup, newGroup, prior, next, k);
    if change == None || Silent(change.value) {
      NotAmong(genId, oldGroup, newGroup, prior, next, cs, k);
      TellingNames(genId, oldGroup, newGroup, prior, next, cs);
      ReplayedElsewhere(Shown(oldGroup, prior), some, k);
    } else {
      TellingMembers(cs);
      TellingNames(genId, oldGroup, newGroup, prior, next, cs);
      assert NameOf(change.value) == k && change.value in cs;
      var i :| 0 <= i < |some| && some[i] == change.value;
      ReplayedAt(Shown(oldGroup, prior), some, i);
    }
  }

  lemma {:induction false} TellingNames(genId: string -> int, oldGroup: string, newGroup: string,
                                        prior: Resources, next: Resources, cs: seq<Change>)
    requires IsDecomposition(genId, oldGroup, newGroup, prior, next, cs)
    ensures forall i :: 0 <= i < |Telling(cs)| ==> Names(Telling(cs)[i])
  {
    TellingMembers(cs);
    forall i | 0 <= i < |Telling(cs)| ensures Names(Telling(cs)[i]) {
      assert Telling(cs)[i] in cs;
    }
  }

  /** Silent updates may be left out: the changes that show something already lead to the new resources. */
  lemma {:induction false} TellingChangesLeadToNew(genId: string -> int, oldGroup: string, newGroup: string,
                                                   prior: Resources, next: Resources, cs: seq<Change>)
    requires IsDecomposition(genId, oldGroup, newGroup, prior, next, cs)
    ensures ReplayAll(Shown(oldGroup, prior), Telling(cs)) == Shown(newGroup, next)
  {
    var r := ReplayAll(Shown(oldGroup, prior), Telling(cs));
    forall k
      ensures (k in r <==> k in next) && (k in next ==> r[k] == ResourcePayload(newGroup, k, Normalized(next[k])))
    {
      TellingLeadsAt(genId, oldGroup, newGroup, prior, next, cs, k);
    }
  }

  // ---- the group itself ----

  function ShowGroup(name: string, site: string, g: GroupDoc): Option<Payload> {
    Some(GroupPayload(name, site, g.production, g.supportCenter, g.description))
  }

  predicate SameCore(a: GroupDoc, b: GroupDoc) {
    a.production == b.production && a.groupId == b.groupId && a.supportCenter == b.supportCenter
    && a.description == b.description && a.extra == b.extra
  }

  function GroupChange(oldName: string, newName: string, oldSite: string, newSite: string, prior: Option<GroupDoc>,
                       next: Option<GroupDoc>): seq<Change>
  {
    match (prior, next)
    case (None, None) => []
    case (None, Some(g)) => [Change(ResourceGroup, Create, "", newName, None, ShowGroup(newName, newSite, g), 0)]
    case (Some(g), None) => [Change(ResourceGroup, Delete, oldName, "", ShowGroup(oldName, oldSite, g), None, 0)]
    case (Some(g), Some(h)) =>
      if oldName == newName && oldSite == newSite && SameCore(g, h) then []
      else [Change(ResourceGroup, Update, oldName, newName, ShowGroup(oldName, oldSite, g),
        ShowGroup(newName, newSite, h), 0)]
  }

  // What the group's file shows of the group itself; nothing when there is no file.
  function GroupShown(name: string, site: string, g: Option<GroupDoc>): Payloads {
    match g
    case Some(d) => map[name := GroupPayload(name, site, d.production, d.supportCenter, d.description)]
    case None => map[]
  }

  /** The group's own change leads from what its file showed before to what it shows after, under its new
      name and in its new site, and undone it leads back. */
  lemma {:induction false} GroupChangeLeadsToNew(oldName: string, newName: string, oldSite: string, newSite: string,
                                                 prior: Option<GroupDoc>, next: Option<GroupDoc>)
    ensures var own := GroupChange(oldName, newName, oldSite, newSite, prior, next);
      && ReplayAll(GroupShown(oldName, oldSite, prior), own) == GroupShown(newName, newSite, next)
      && ReplayAll(GroupShown(newName, newSite, next), UndoEach(own)) == GroupShown(oldName, oldSite, prior)
      && forall c :: c in own ==> c.kind == ResourceGroup
  {
    var own := GroupChange(oldName, newName, oldSite, newSite, prior, next);
    var before, after := GroupShown(oldName, oldSite, prior), GroupShown(newName, newSite, next);
    if own != [] {
      assert own[..0] == [] && UndoEach(own)[..0] == [];
      assert ReplayAll(before, own) == Replay(before, own[0]);
      assert ReplayAll(after, UndoEach(own)) == Replay(after, Undo(own[0]));
    }
  }

  function ResourcesOf(g: Option<GroupDoc>): Resources {
    match g
    case Some(d) => d.resources
    case None => map[]
  }

  method DecomposeResourceGroup(genId: string -> int, oldName: string, newName: string, oldSite: string,
                                newSite: string,
                                prior: Option<GroupDoc>, next: Option<GroupDoc>)
    returns (changes: seq<Change>)
    ensures var own := GroupChange(oldName, newName, oldSite, newSite, prior, next);
      && own <= changes
      && IsDecomposition(genId, oldName, newName, ResourcesOf(prior), ResourcesOf(next), changes[|own|..])
  {
    changes := [];
    if prior.None? && next.None? {
      assert changes[0..] == [];
      return;
    }
    if prior.None? {
      changes := [Change(ResourceGroup, Create, "", newName, None, ShowGroup(newName, newSite, next.value), 0)];
    } else if next.None? {
      changes := [Change(ResourceGroup, Delete, oldName, "", ShowGroup(oldName, oldSite, prior.value), None, 0)];
    } else if !(oldName == newName && oldSite == newSite && SameCore(prior.value, next.value)) {
      changes := [Change(ResourceGroup, Update, oldName, newName, ShowGroup(oldName, oldSite, prior.value),
                         ShowGroup(newName, newSite, next.value), 0)];
    }
    var inner := DecomposeResources(genId, oldName, newName, ResourcesOf(prior), ResourcesOf(next));
    ghost var own := changes;
    changes := changes + inner;
    assert changes[|own|..] == inner;
  }

  lemma {:induction false} NoResourceChanges(genId: string -> int, oldGroup: string, newGroup: string,
                                             prior: Resources, next: Resources, cs: seq<Change>)
    requires IsDecomposition(genId, oldGroup, newGroup, prior, next, cs)
    ensures cs == [] <==> prior == next && (oldGroup == newGroup || prior == map[])
  {
    forall name
      ensures ChangeOf(genId, oldGroup, newGroup, prior, next, name) == None <==>
        (forall i :: 0 <= i < |cs| ==> NameOf(cs[i]) != name)
    {
      UnchangedResources(genId, oldGroup, newGroup, prior, next, cs, name);
    }
    if cs == [] {
      forall name ensures name in prior <==> name in next {
        assert ChangeOf(genId, oldGroup, newGroup, prior, next, name) == None;
      }
      forall name | name in prior ensures prior[name] == next[name] && oldGroup == newGroup {
        assert ChangeOf(genId, oldGroup, newGroup, prior, next, name) == None;
      }
    } else {
      assert ChangeOf(genId, oldGroup, newGroup, prior, next, NameOf(cs[0])).Some?;
    }
  }

  /** An edit of a group's file leaves no trace exactly when the group stays where it is under its name
      and the two versions differ in nothing, or in Disable alone: enabling or disabling a group is the
      one edit that is lost. */
  lemma {:induction false} OnlyDisableGoesUnseen(genId: string -> int, oldName: string, newName: string,
                                                 oldSite: string, newSite: string, g: GroupDoc, h: GroupDoc,
                                                 cs: seq<Change>)
    requires IsDecomposition(genId, oldName, newName, g.resources, h.resources, cs)
    ensures GroupChange(oldName, newName, oldSite, newSite, Some(g), Some(h)) + cs == [] <==>
      oldName == newName && oldSite == newSite && h == g.(disable := h.disable)
  {
    NoResourceChanges(genId, oldName, newName, g.resources, h.resources, cs);
  }
}
