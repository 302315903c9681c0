/**
 What an import and an export mean, said without the rows and the normal form: nothing is lost, ids and
 places are those of the files, and which topologies can be imported.
 */
module Preservation {
  import opened Wrappers
  import opened Json
  import opened Persist

  // The same keys with the same values; an absent map says what an empty one says.
  ghost predicate SameMap(a: Option<Fields>, b: Option<Fields>) {
    var x := match a case Some(m) => m case None => map[];
    var y := match b case Some(m) => m case None => map[];
    x.Keys == y.Keys && forall k :: k in x ==> JsonEqual(x[k], y[k])
  }

  ghost predicate SameService(a: Service, b: Service) {
    a.description == b.description && JsonEqual(a.details, b.details) && SameMap(a.extra, b.extra)
  }

  // Who holds a slot of a resource.
  function HolderOf(r: Resource, t: string, rank: string): Option<Person> {
    if t in ContactsOf(r) && rank in ContactsOf(r)[t] then Some(ContactsOf(r)[t][rank]) else None
  }

  ghost predicate SameResource(a: Resource, b: Resource) {
    && a.id == b.id && a.columns == b.columns && SameMap(a.extra, b.extra)
    && JsonEqual(a.voOwnership, b.voOwnership) && JsonEqual(a.wlcg, b.wlcg)
    && ServicesOf(a).Keys == ServicesOf(b).Keys
    && (forall s :: s in ServicesOf(a) ==> SameService(ServicesOf(a)[s], ServicesOf(b)[s]))
    && (forall t, rank :: HolderOf(a, t, rank) == HolderOf(b, t, rank))
  }

  ghost predicate SameGroup(a: Group, b: Group) {
    && a.id == b.id && a.columns == b.columns && SameMap(a.extra, b.extra)
    && ResourcesOf(a).Keys == ResourcesOf(b).Keys
    && (forall n :: n in ResourcesOf(a) ==> SameResource(ResourcesOf(a)[n], ResourcesOf(b)[n]))
  }

  function DowntimesOf(t: Topology, g: string): seq<Downtime> {
    if g in t.downtimes then t.downtimes[g] else []
  }

  ghost predicate SamePlaces(a: Topology, b: Topology) {
    && a.facilities.Keys == b.facilities.Keys && a.sites.Keys == b.sites.Keys && a.groups.Keys == b.groups.Keys
    && (forall n :: n in a.sites ==> ParentIn(a.siteFacility, n) == ParentIn(b.siteFacility, n))
    && (forall n :: n in a.groups ==> ParentIn(a.groupSite, n) == ParentIn(b.groupSite, n))
  }

  ghost predicate SameContents(a: Topology, b: Topology)
    requires SamePlaces(a, b)
  {
    && (forall n :: n in a.facilities ==>
          && a.facilities[n].id == b.facilities[n].id && a.facilities[n].columns == b.facilities[n].columns
          && SameMap(a.facilities[n].extra, b.facilities[n].extra))
    && (forall n :: n in a.sites ==>
          && a.sites[n].id == b.sites[n].id && a.sites[n].columns == b.sites[n].columns
          && SameMap(a.sites[n].extra, b.sites[n].extra))
    && (forall n :: n in a.groups ==> SameGroup(a.groups[n], b.groups[n]))
  }

  // A downtime's other keys have no column.
  ghost predicate SameDowntimes(a: seq<Downtime>, b: seq<Downtime>) {
    && |a| == |b|
    && forall i :: 0 <= i < |a| ==> a[i].resource == b[i].resource && a[i].columns == b[i].columns
  }

  lemma {:induction false} StoredIsSame(extra: Option<Fields>)
    ensures SameMap(extra, Stored(extra))
  {
    if extra.Some? {
      forall k | k in extra.value ensures JsonEqual(extra.value[k], Canon(extra.value[k])) {
        CanonTwice(extra.value[k]);
      }
    }
  }

  lemma {:induction false} NormalServiceIsSame(s: Service)
    ensures SameService(s, NormalService(s))
  {
    StoredIsSame(s.extra);
    CanonTwice(s.details);
  }

  lemma {:induction false} NormalResourceIsSame(r: Resource)
    ensures SameResource(r, NormalResource(r))
  {
    StoredIsSame(r.extra);
    CanonTwice(r.voOwnership);
    CanonTwice(r.wlcg);
    forall s | s in ServicesOf(r) ensures SameService(ServicesOf(r)[s], ServicesOf(NormalResource(r))[s]) {
      NormalServiceIsSame(ServicesOf(r)[s]);
    }
    forall t, rank ensures HolderOf(r, t, rank) == HolderOf(NormalResource(r), t, rank) {
      if t in ContactsOf(r) && rank in ContactsOf(r)[t] {
        assert (t, rank) in Slots(ContactsOf(r));
      }
    }
  }

  lemma {:induction false} NormalGroupIsSame(g: Group)
    ensures SameGroup(g, NormalGroup(g))
  {
    StoredIsSame(g.extra);
    forall n | n in ResourcesOf(g) ensures SameResource(ResourcesOf(g)[n], ResourcesOf(NormalGroup(g))[n]) {
      NormalResourceIsSame(ResourcesOf(g)[n]);
    }
  }

  lemma {:induction false} NormalIsSame(t: Topology)
    ensures SamePlaces(t, Normal(t)) && SameContents(t, Normal(t))
  {
    hide SameGroup, NormalGroup, SameMap, Stored;
    forall n | n in t.facilities ensures SameMap(t.facilities[n].extra, Stored(t.facilities[n].extra)) {
      StoredIsSame(t.facilities[n].extra);
    }
    forall n | n in t.sites ensures SameMap(t.sites[n].extra, Stored(t.sites[n].extra)) {
      StoredIsSame(t.sites[n].extra);
    }
    forall n | n in t.groups ensures SameGroup(t.groups[n], NormalGroup(t.groups[n])) {
      NormalGroupIsSame(t.groups[n]);
    }
  }

  lemma {:induction false} NormalDowntimesAreSame(t: Topology, g: string)
    ensures SameDowntimes(DowntimesOf(t, g), DowntimesOf(Normal(t), g))
  {}

  /** Nothing of an imported topology is lost by exporting it: the same facilities, sites, groups and resources
      in the same places, with the same ids, columns, services, contacts and other keys; the same downtimes
      in the same order, without the keys that have no column. */
  lemma {:induction false} ExportLosesNothing(genId: string -> int, t: Topology, listing: seq<(string, nat)>, g: string)
    requires Importable(genId, t) && IsListing(Imported(genId, t).downtimes, listing)
    ensures var after := Exported(Imported(genId, t), listing);
      && SamePlaces(t, after) && SameContents(t, after) && SameDowntimes(DowntimesOf(t, g), DowntimesOf(after, g))
  {
    ExportInvertsImport(genId, t, listing);
    hide SamePlaces, SameContents, SameDowntimes, Exported, Imported, Normal, DowntimesOf;
    NormalIsSame(t);
    NormalDowntimesAreSame(t, g);
  }

  // An explicit id is kept and marked as such; without one the id is the hash of the name.
  predicate HasId(genId: string -> int, name: string, id: Option<int>, rowId: int, explicit: bool) {
    (explicit <==> id.Some?) && rowId == match id case Some(n) => n case None => genId(name)
  }

  ghost predicate EntitiesIdentified(genId: string -> int, t: Topology, rows: Tables) {
    && (forall n :: n in t.facilities ==>
          n in rows.facilities
          && HasId(genId, n, t.facilities[n].id, rows.facilities[n].id, rows.facilities[n].explicit))
    && (forall n :: n in t.sites ==>
          n in rows.sites && rows.sites[n].parent == ParentIn(t.siteFacility, n)
          && HasId(genId, n, t.sites[n].id, rows.sites[n].id, rows.sites[n].explicit))
    && (forall n :: n in t.groups ==>
          n in rows.groups && rows.groups[n].parent == ParentIn(t.groupSite, n)
          && HasId(genId, n, t.groups[n].id, rows.groups[n].id, rows.groups[n].explicit))
  }

  ghost predicate ResourceIdentified(genId: string -> int, t: Topology, rows: Tables, g: string, n: string) {
    g in t.groups && n in ResourcesOf(t.groups[g]) ==>
      && (g, n) in rows.resources
      && HasId(genId, n, ResourcesOf(t.groups[g])[n].id, rows.resources[(g, n)].id, rows.resources[(g, n)].explicit)
  }

  /** Every row of an import has the id its file gives or the hash of its name, and the parent the directories
      give. */
  lemma {:induction false} ImportedRowsAreIdentified(genId: string -> int, t: Topology, g: string, n: string)
    ensures EntitiesIdentified(genId, t, Imported(genId, t)) && ResourceIdentified(genId, t, Imported(genId, t), g, n)
  {
    if g in t.groups && n in ResourcesOf(t.groups[g]) {
      assert (g, n) in Pairs(t);
    }
  }

  // Two resources have one id, written in their file or drawn from their names.
  predicate SameId(genId: string -> int, t: Topology, p: (string, string), q: (string, string))
    requires p in Pairs(t) && q in Pairs(t)
  {
    var a, b := ResourcesOf(t.groups[p.0])[p.1].id, ResourcesOf(t.groups[q.0])[q.1].id;
    (if a.Some? then a.value else genId(p.1)) == if b.Some? then b.value else genId(q.1)
  }

  // No two resources, of whatever groups, have one name or one id.
  ghost predicate ResourcesDiffer(genId: string -> int, t: Topology) {
    forall p, q :: p in Pairs(t) && q in Pairs(t) && p != q ==> p.1 != q.1 && !SameId(genId, t, p, q)
  }

  lemma IdsAre(genId: string -> int, t: Topology, p: (string, string), q: (string, string))
    requires p in Pairs(t) && q in Pairs(t)
    ensures var rows := ResourceRows(genId, t);
      p in rows && q in rows && (SameId(genId, t, p, q) <==> rows[p].id == rows[q].id)
  {}

  lemma RowKeys(genId: string -> int, t: Topology)
    ensures ResourceRows(genId, t).Keys == Pairs(t)
  {}

  lemma {:induction false} DifferingAreApart(genId: string -> int, t: Topology)
    ensures Apart(ResourceRows(genId, t)) <==> ResourcesDiffer(genId, t)
  {
    hide SameId, Pairs, ResourceRows;
    RowKeys(genId, t);
    if Apart(ResourceRows(genId, t)) {
      forall p, q | p in Pairs(t) && q in Pairs(t) && p != q ensures p.1 != q.1 && !SameId(genId, t, p, q) {
        IdsAre(genId, t, p, q);
      }
    } else {
      var rows := ResourceRows(genId, t);
      var p, q :| p in rows && q in rows && p != q && !(p.1 != q.1 && rows[p].id != rows[q].id);
      IdsAre(genId, t, p, q);
    }
  }

  /** A topology is imported exactly when every site lies in a facility of it and every group in a site of it,
      groups that list downtimes are groups of it, and its resources differ in their names and ids. */
  lemma {:induction false} ImportableExactlyWhen(genId: string -> int, t: Topology)
    ensures Importable(genId, t) <==>
      && (forall n :: n in t.sites ==> (if n in t.siteFacility then t.siteFacility[n] else "") in t.facilities)
      && (forall n :: n in t.groups ==> (if n in t.groupSite then t.groupSite[n] else "") in t.sites)
      && (forall n :: n in t.downtimes && |t.downtimes[n]| > 0 ==> n in t.groups)
      && ResourcesDiffer(genId, t)
  {
    DifferingAreApart(genId, t);
    hide ResourcesDiffer, Apart, ResourceRows;
  }
}
