/**
 Importing a topology into the tables and exporting it again (internal/topology/persist.go).

 The rows of the child tables of a resource, which refer to it by its id, are kept with its own row.
 */
module Persist {
  import opened Wrappers
  import opened Json

  // ---- the topology as files have it; None is a field that is absent ----

  datatype Person = Person(name: string, id: string)

  datatype Service = Service(description: string, details: Json, extra: Option<Fields>)

  // `columns` are the fields that a table stores as they are.
  datatype Facility = Facility(id: Option<int>, columns: Fields, extra: Option<Fields>)

  datatype Site = Site(id: Option<int>, columns: Fields, extra: Option<Fields>)

  datatype Resource = Resource(
    id: Option<int>,
    columns: Fields,
    services: Option<map<string, Service>>,
    contacts: Option<map<string, map<string, Person>>>,
    voOwnership: Json,
    wlcg: Json,
    extra: Option<Fields>
  )

  datatype Group = Group(id: Option<int>, columns: Fields, resources: Option<map<string, Resource>>,
    extra: Option<Fields>)

  datatype Downtime = Downtime(resource: string, columns: Fields, extra: Option<Fields>)

  datatype Topology = Topology(
    facilities: map<string, Facility>,
    sites: map<string, Site>,
    groups: map<string, Group>,
    downtimes: map<string, seq<Downtime>>,
    siteFacility: map<string, string>,
    groupSite: map<string, string>
  )

  // ---- the tables ----

  datatype EntityRow = EntityRow(id: int, explicit: bool, parent: string, columns: Fields, extra: Option<Fields>)

  datatype ServiceRow = ServiceRow(description: string, blob: Fields)

  datatype ResourceRow = ResourceRow(
    id: int, explicit: bool, columns: Fields, voOwnership: Option<Json>, wlcg: Option<Json>, extra: Option<Fields>,
    services: map<string, ServiceRow>,
    contacts: map<(string, string), Person>       // by type and rank
  )

  // `resourceId` links a downtime to the resource of its name, if there is one.
  datatype DowntimeRow = DowntimeRow(resource: string, resourceId: Option<int>, columns: Fields)

  // Resources by group and name, downtimes by group and ordinal.
  datatype Tables = Tables(
    facilities: map<string, EntityRow>,
    sites: map<string, EntityRow>,
    groups: map<string, EntityRow>,
    resources: map<(string, string), ResourceRow>,
    downtimes: map<(string, nat), DowntimeRow>
  )

  // ---- storing values ----

  // A map is stored as JSON text, an empty one as no value.
  function Stored(extra: Option<Fields>): Option<Fields> {
    match extra
    case Some(m) => if m == map[] then None else Some(CanonFields(m))
    case None => None
  }

  function StoredAny(j: Json): Option<Json> {
    if j == Null then None else Some(Canon(j))
  }

  function Loaded(j: Option<Json>): Json {
    match j
    case Some(v) => v
    case None => Null
  }

  // The JSON form of what a service has beside its description; empty parts are left out.
  function Blob(s: Service): Fields {
    var details: Fields := if s.details == Null then map[] else map["details" := Canon(s.details)];
    match Stored(s.extra)
    case Some(m) => details["extra" := Obj(m)]
    case None => details
  }

  function FromBlob(description: string, blob: Fields): Service {
    Service(description, if "details" in blob then blob["details"] else Null,
            if "extra" in blob && blob["extra"].Obj? then Some(blob["extra"].fields) else None)
  }

  function ResolvedId(genId: string -> int, id: Option<int>, name: string): int {
    match id
    case Some(n) => n
    case None => genId(name)
  }

  function IdPtr(id: int, explicit: bool): Option<int> {
    if explicit then Some(id) else None
  }

  // The parent a map of names gives, or "".
  function ParentIn(m: map<string, string>, name: string): string {
    if name in m then m[name] else ""
  }

  function ResourcesOf(g: Group): map<string, Resource> {
    match g.resources
    case Some(m) => m
    case None => map[]
  }

  function ServicesOf(r: Resource): map<string, Service> {
    match r.services
    case Some(m) => m
    case None => map[]
  }

  function ContactsOf(r: Resource): map<string, map<string, Person>> {
    match r.contacts
    case Some(m) => m
    case None => map[]
  }

  function Slots(lists: map<string, map<string, Person>>): set<(string, string)> {
    set t, rank | t in lists && rank in lists[t] :: (t, rank)
  }

  function Pairs(t: Topology): set<(string, string)> {
    set g, n | g in t.groups && n in ResourcesOf(t.groups[g]) :: (g, n)
  }

  function DowntimeKeys(t: Topology): set<(string, nat)> {
    set g, i: nat | g in t.downtimes && 0 <= i < |t.downtimes[g]| :: (g, i)
  }

  function ServiceRows(services: map<string, Service>): map<string, ServiceRow> {
    map s | s in services :: ServiceRow(services[s].description, Blob(services[s]))
  }

  function ContactRows(lists: map<string, map<string, Person>>): map<(string, string), Person> {
    map k | k in Slots(lists) :: lists[k.0][k.1]
  }

  function RowOf(genId: string -> int, name: string, r: Resource): ResourceRow {
    ResourceRow(ResolvedId(genId, r.id, name), r.id.Some?, r.columns, StoredAny(r.voOwnership), StoredAny(r.wlcg),
      Stored(r.extra),
                ServiceRows(ServicesOf(r)), ContactRows(ContactsOf(r)))
  }

  function FacilityRow(genId: string -> int, name: string, f: Facility): EntityRow {
    EntityRow(ResolvedId(genId, f.id, name), f.id.Some?, "", f.columns, Stored(f.extra))
  }

  function SiteRow(genId: string -> int, name: string, s: Site, facility: string): EntityRow {
    EntityRow(ResolvedId(genId, s.id, name), s.id.Some?, facility, s.columns, Stored(s.extra))
  }

  function GroupRow(genId: string -> int, name: string, g: Group, site: string): EntityRow {
    EntityRow(ResolvedId(genId, g.id, name), g.id.Some?, site, g.columns, Stored(g.extra))
  }

  function FacilityRows(genId: string -> int, t: Topology): map<string, EntityRow> {
    map n | n in t.facilities :: FacilityRow(genId, n, t.facilities[n])
  }

  function SiteRows(genId: string -> int, t: Topology): map<string, EntityRow> {
    map n | n in t.sites :: SiteRow(genId, n, t.sites[n], ParentIn(t.siteFacility, n))
  }

  function GroupRows(genId: string -> int, t: Topology): map<string, EntityRow> {
    map n | n in t.groups :: GroupRow(genId, n, t.groups[n], ParentIn(t.groupSite, n))
  }

  function ResourceRows(genId: string -> int, t: Topology): map<(string, string), ResourceRow> {
    map p | p in Pairs(t) :: RowOf(genId, p.1, ResourcesOf(t.groups[p.0])[p.1])
  }

  ghost predicate IsCalled(resources: map<(string, string), ResourceRow>, p: (string, string), name: string) {
    p in resources && p.1 == name
  }

  // The id of the resource of that name.
  ghost function IdOf(resources: map<(string, string), ResourceRow>, name: string): (id: Option<int>)
    ensures id.Some? <==> exists p :: IsCalled(resources, p, name)
    ensures id.Some? ==> exists p :: IsCalled(resources, p, name) && resources[p].id == id.value
  {
    if exists p :: IsCalled(resources, p, name) then
      var p :| IsCalled(resources, p, name);
      Some(resources[p].id)
    else None
  }

  ghost function DowntimeRowOf(resources: map<(string, string), ResourceRow>, d: Downtime): DowntimeRow {
    DowntimeRow(d.resource, IdOf(resources, d.resource), d.columns)
  }

  ghost function DowntimeRows(genId: string -> int, t: Topology): map<(string, nat), DowntimeRow> {
    map k | k in DowntimeKeys(t) :: DowntimeRowOf(ResourceRows(genId, t), t.downtimes[k.0][k.1])
  }

  // The tables an import fills.
  ghost function Imported(genId: string -> int, t: Topology): Tables {
    Tables(FacilityRows(genId, t), SiteRows(genId, t), GroupRows(genId, t), ResourceRows(genId, t),
      DowntimeRows(genId, t))
  }

  // No two resources share a name or an id.
  predicate Apart(rows: map<(string, string), ResourceRow>) {
    forall p, q | p in rows && q in rows && p != q :: p.1 != q.1 && rows[p].id != rows[q].id
  }

  predicate SitesPlaced(t: Topology) {
    forall n | n in t.sites :: ParentIn(t.siteFacility, n) in t.facilities
  }

  predicate GroupsPlaced(t: Topology) {
    forall n | n in t.groups :: ParentIn(t.groupSite, n) in t.sites
  }

  predicate DowntimesPlaced(t: Topology) {
    forall g | g in t.downtimes && t.downtimes[g] != [] :: g in t.groups
  }

  // What the foreign keys and unique indexes accept.
  predicate Importable(genId: string -> int, t: Topology) {
    SitesPlaced(t) && GroupsPlaced(t) && Apart(ResourceRows(genId, t)) && DowntimesPlaced(t)
  }

  // ---- import ----

  method Import(genId: string -> int, t: Topology) returns (ok: bool, tables: Tables)
    ensures ok <==> Importable(genId, t)
    ensures ok ==> tables == Imported(genId, t)
  {
    var facilities := ImportFacilities(genId, t);
    tables := Tables(facilities, map[], map[], map[], map[]);
    var sites;
    ok, sites := ImportSites(genId, t, facilities);
    if !ok {
      return;
    }
    var groups;
    ok, groups := ImportGroups(genId, t, sites);
    if !ok {
      return;
    }
    var resources, ids;
    ok, resources, ids := ImportResources(genId, t);
    if !ok {
      return;
    }
    var downtimes;
    ok, downtimes := ImportDowntimes(t, groups, ids);
    if !ok {
      return;
    }
    RowsByIndex(genId, t, ids);
    tables := Tables(facilities, sites, groups, resources, downtimes);
  }

  method ImportFacilities(genId: string -> int, t: Topology) returns (rows: map<string, EntityRow>)
    ensures rows == FacilityRows(genId, t)
  {
    rows := map[];
    var todo := t.facilities.Keys;
    while todo != {}
      invariant todo <= t.facilities.Keys && rows.Keys == t.facilities.Keys - todo
      invariant forall n :: n in rows ==> rows[n] == FacilityRow(genId, n, t.facilities[n])
      decreases todo
    {
      var n :| n in todo;
      rows, todo := rows[n := FacilityRow(genId, n, t.facilities[n])], todo - {n};
    }
  }

  method ImportSites(genId: string -> int, t: Topology, facilities: map<string, EntityRow>)
    returns (ok: bool, rows: map<string, EntityRow>)
    requires facilities.Keys == t.facilities.Keys
    ensures ok <==> SitesPlaced(t)
    ensures ok ==> rows == SiteRows(genId, t)
  {
    rows := map[];
    var todo := t.sites.Keys;
    while todo != {}
      invariant todo <= t.sites.Keys && rows.Keys == t.sites.Keys - todo
      invariant forall n :: n in rows ==> ParentIn(t.siteFacility, n) in t.facilities
      invariant forall n :: n in rows ==> rows[n] == SiteRow(genId, n, t.sites[n], ParentIn(t.siteFacility, n))
      decreases todo
    {
      var n :| n in todo;
      var up := ParentIn(t.siteFacility, n);
      if up !in facilities {
        return false, rows;
      }
      rows, todo := rows[n := SiteRow(genId, n, t.sites[n], up)], todo - {n};
    }
    ok := true;
  }

  method ImportGroups(genId: string -> int, t: Topology, sites: map<string, EntityRow>)
    returns (ok: bool, rows: map<string, EntityRow>)
    requires sites.Keys == t.sites.Keys
    ensures ok <==> GroupsPlaced(t)
    ensures ok ==> rows == GroupRows(genId, t)
  {
    rows := map[];
    var todo := t.groups.Keys;
    while todo != {}
      invariant todo <= t.groups.Keys && rows.Keys == t.groups.Keys - todo
      invariant forall n :: n in rows ==> ParentIn(t.groupSite, n) in t.sites
      invariant forall n :: n in rows ==> rows[n] == GroupRow(genId, n, t.groups[n], ParentIn(t.groupSite, n))
      decreases todo
    {
      var n :| n in todo;
      var up := ParentIn(t.groupSite, n);
      if up !in sites {
        return false, rows;
      }
      rows, todo := rows[n := GroupRow(genId, n, t.groups[n], up)], todo - {n};
    }
    ok := true;
  }

  // The unique index on names, or the primary key, refuses the row.
  predicate Clashes(rows: map<(string, string), ResourceRow>, p: (string, string), id: int) {
    exists q | q in rows :: q.1 == p.1 || rows[q].id == id
  }

  lemma StaysApart(rows: map<(string, string), ResourceRow>, p: (string, string), row: ResourceRow)
    requires Apart(rows) && p !in rows && !Clashes(rows, p, row.id)
    ensures Apart(rows[p := row])
  {}

  lemma NotApart(rows: map<(string, string), ResourceRow>, all: map<(string, string), ResourceRow>, p: (string, string))
    requires p in all && p !in rows && Clashes(rows, p, all[p].id)
    requires forall q :: q in rows ==> q in all && all[q] == rows[q]
    ensures !Apart(all)
  {
    var q :| q in rows && (q.1 == p.1 || rows[q].id == all[p].id);
    assert q in all && q != p;
  }

  // The ids of the resources, by their names.
  ghost predicate IsIndex(rows: map<(string, string), ResourceRow>, ids: map<string, int>) {
    && (forall p, n :: IsCalled(rows, p, n) ==> n in ids && ids[n] == rows[p].id)
    && (forall n :: n in ids ==> exists p :: IsCalled(rows, p, n))
  }

  lemma OneMoreInIndex(rows: map<(string, string), ResourceRow>, ids: map<string, int>, p: (string, string),
                       row: ResourceRow)
    requires IsIndex(rows, ids) && p !in rows && !Clashes(rows, p, row.id)
    ensures IsIndex(rows[p := row], ids[p.1 := row.id])
  {
    var after, more := rows[p := row], ids[p.1 := row.id];
    forall n | n in more ensures exists q :: IsCalled(after, q, n) {
      if n == p.1 {
        assert IsCalled(after, p, n);
      } else {
        var q :| IsCalled(rows, q, n);
        assert IsCalled(after, q, n);
      }
    }
    forall q, n | IsCalled(after, q, n) ensures n in more && more[n] == after[q].id {
      if q != p {
        assert IsCalled(rows, q, n);
      }
    }
  }

  method ImportResources(genId: string -> int, t: Topology)
    returns (ok: bool, rows: map<(string, string), ResourceRow>, ids: map<string, int>)
    ensures ok <==> Apart(ResourceRows(genId, t))
    ensures ok ==> rows == ResourceRows(genId, t) && IsIndex(rows, ids)
  {
    rows, ids := map[], map[];
    ghost var all := ResourceRows(genId, t);
    var todo := Pairs(t);
    while todo != {}
      invariant todo <= Pairs(t) && rows.Keys == Pairs(t) - todo
      invariant forall p :: p in rows ==> rows[p] == all[p]
      invariant Apart(rows) && IsIndex(rows, ids)
      decreases todo
    {
      var p :| p in todo;
      var r := ResourcesOf(t.groups[p.0])[p.1];
      if Clashes(rows, p, ResolvedId(genId, r.id, p.1)) {
        NotApart(rows, all, p);
        return false, rows, ids;
      }
      var row := InsertResource(genId, p.1, r);
      StaysApart(rows, p, row);
      OneMoreInIndex(rows, ids, p, row);
      rows, ids, todo := rows[p := row], ids[p.1 := row.id], todo - {p};
    }
    assert rows == all;
    ok := true;
  }

  method InsertResource(genId: string -> int, name: string, r: Resource) returns (row: ResourceRow)
    ensures row == RowOf(genId, name, r)
  {
    var services := InsertServices(ServicesOf(r));
    var contacts := InsertContacts(ContactsOf(r));
    row := ResourceRow(ResolvedId(genId, r.id, name), r.id.Some?, r.columns, StoredAny(r.voOwnership),
      StoredAny(r.wlcg),
                       Stored(r.extra), services, contacts);
  }

  method InsertServices(services: map<string, Service>) returns (rows: map<string, ServiceRow>)
    ensures rows == ServiceRows(services)
  {
    rows := map[];
    var todo := services.Keys;
    while todo != {}
      invariant todo <= services.Keys && rows.Keys == services.Keys - todo
      invariant forall s :: s in rows ==> rows[s] == ServiceRow(services[s].description, Blob(services[s]))
      decreases todo
    {
      var s :| s in todo;
      rows, todo := rows[s := ServiceRow(services[s].description, Blob(services[s]))], todo - {s};
    }
  }

  method InsertContacts(lists: map<string, map<string, Person>>) returns (rows: map<(string, string), Person>)
    ensures rows == ContactRows(lists)
  {
    rows := map[];
    var types := lists.Keys;
    while types != {}
      invariant types <= lists.Keys
      invariant rows == map k | k in Slots(lists) && k.0 !in types :: lists[k.0][k.1]
      decreases types
    {
      var t :| t in types;
      var ranks := lists[t].Keys;
      while ranks != {}
        invariant ranks <= lists[t].Keys
        invariant rows == map k | k in Slots(lists) && (k.0 !in types || (k.0 == t && k.1 !in ranks)) :: lists[k.0][k.1]
        decreases ranks
      {
        var rank :| rank in ranks;
        rows, ranks := rows[(t, rank) := lists[t][rank]], ranks - {rank};
      }
      types := types - {t};
    }
  }

  lemma IndexFinds(rows: map<(string, string), ResourceRow>, ids: map<string, int>, name: string)
    requires IsIndex(rows, ids)
    ensures IdOf(rows, name) == if name in ids then Some(ids[name]) else None
  {
  }

  function DowntimeRowBy(ids: map<string, int>, d: Downtime): DowntimeRow {
    DowntimeRow(d.resource, if d.resource in ids then Some(ids[d.resource]) else None, d.columns)
  }

  function RowsBy(ids: map<string, int>, t: Topology): map<(string, nat), DowntimeRow> {
    map k | k in DowntimeKeys(t) :: DowntimeRowBy(ids, t.downtimes[k.0][k.1])
  }

  lemma RowsByIndex(genId: string -> int, t: Topology, ids: map<string, int>)
    requires IsIndex(ResourceRows(genId, t), ids)
    ensures DowntimeRows(genId, t) == RowsBy(ids, t)
  {
    forall k | k in DowntimeKeys(t)
      ensures DowntimeRows(genId, t)[k] == DowntimeRowBy(ids, t.downtimes[k.0][k.1])
    {
      IndexFinds(ResourceRows(genId, t), ids, t.downtimes[k.0][k.1].resource);
    }
  }

  // The rows of the groups in `done`, and the first n of group g.
  ghost predicate PartlyIn(t: Topology, ids: map<string, int>, done: set<string>, g: string, n: nat,
                           rows: map<(string, nat), DowntimeRow>)
  {
    && (forall k :: k in rows <==> k in DowntimeKeys(t) && (k.0 in done || (k.0 == g && k.1 < n)))
    && (forall k :: k in rows ==> rows[k] == RowsBy(ids, t)[k])
  }

  method ImportDowntimes(t: Topology, groups: map<string, EntityRow>, ids: map<string, int>)
    returns (ok: bool, rows: map<(string, nat), DowntimeRow>)
    requires groups.Keys == t.groups.Keys
    ensures ok <==> DowntimesPlaced(t)
    ensures ok ==> rows == RowsBy(ids, t)
  {
    rows := map[];
    var todo := t.downtimes.Keys;
    while todo != {}
      invariant todo <= t.downtimes.Keys
      invariant forall g :: g in t.downtimes && g !in todo && t.downtimes[g] != [] ==> g in t.groups
      invariant PartlyIn(t, ids, t.downtimes.Keys - todo, "", 0, rows)
      decreases todo
    {
      var g :| g in todo;
      ok, rows := ImportDowntimesOf(t, groups, ids, g, t.downtimes.Keys - todo, rows);
      if !ok {
        return;
      }
      todo := todo - {g};
    }
    ok := true;
  }

  method ImportDowntimesOf(t: Topology, groups: map<string, EntityRow>, ids: map<string, int>, g: string,
                           ghost done: set<string>, before: map<(string, nat), DowntimeRow>)
    returns (ok: bool, rows: map<(string, nat), DowntimeRow>)
    requires groups.Keys == t.groups.Keys && g in t.downtimes && g !in done
    requires PartlyIn(t, ids, done, "", 0, before)
    ensures ok <==> t.downtimes[g] == [] || g in t.groups
    ensures ok ==> PartlyIn(t, ids, done + {g}, "", 0, rows)
  {
    var dts := t.downtimes[g];
    rows := before;
    for i := 0 to |dts|
      invariant i > 0 ==> g in t.groups
      invariant PartlyIn(t, ids, done, g, i, rows)
    {
      if g !in groups {
        return false, rows;
      }
      var name := dts[i].resource;
      var link := if name in ids then Some(ids[name]) else None;
      assert (g, i as nat) in DowntimeKeys(t);
      rows := rows[(g, i) := DowntimeRow(name, link, dts[i].columns)];
    }
    ok := true;
  }

  // ---- export ----

  function ServicesFrom(rows: map<string, ServiceRow>): map<string, Service> {
    map s | s in rows :: FromBlob(rows[s].description, rows[s].blob)
  }

  function RanksIn(rows: map<(string, string), Person>, t: string): set<string> {
    set k | k in rows && k.0 == t :: k.1
  }

  function ListsFrom(rows: map<(string, string), Person>): map<string, map<string, Person>> {
    map t | t in (set k | k in rows :: k.0) :: map rank | rank in RanksIn(rows, t) :: rows[(t, rank)]
  }

  function ResourceFrom(row: ResourceRow): Resource {
    Resource(IdPtr(row.id, row.explicit), row.columns,
             if row.services == map[] then None else Some(ServicesFrom(row.services)),
             if row.contacts == map[] then None else Some(ListsFrom(row.contacts)),
             Loaded(row.voOwnership), Loaded(row.wlcg), row.extra)
  }

  function NamesIn(rows: map<(string, string), ResourceRow>, group: string): set<string> {
    set p | p in rows && p.0 == group :: p.1
  }

  // The resources of a group whose rows are not among those left to visit.
  function ResourcesBut(rows: map<(string, string), ResourceRow>, group: string,
                        left: set<(string, string)>): map<string, Resource>
  {
    map n | n in NamesIn(rows, group) && (group, n) !in left :: ResourceFrom(rows[(group, n)])
  }

  function GroupWith(row: EntityRow, resources: map<string, Resource>): Group {
    Group(IdPtr(row.id, row.explicit), row.columns, Some(resources), row.extra)
  }

  // Each group with those of its resources whose rows have been visited.
  function GroupsFrom(groups: map<string, EntityRow>, resources: map<(string, string), ResourceRow>,
                      left: set<(string, string)>): map<string, Group>
  {
    map g | g in groups :: GroupWith(groups[g], ResourcesBut(resources, g, left))
  }

  function DowntimeFrom(row: DowntimeRow): Downtime {
    Downtime(row.resource, row.columns, None)
  }

  // The downtimes of each group, in the order listed.
  function Collected(rows: map<(string, nat), DowntimeRow>, listing: seq<(string, nat)>): map<string, seq<Downtime>>
    requires forall k :: k in listing ==> k in rows
  {
    if listing == [] then map[]
    else
      var n := |listing| - 1;
      Appended(Collected(rows, listing[..n]), listing[n].0, DowntimeFrom(rows[listing[n]]))
  }

  function Appended(m: map<string, seq<Downtime>>, g: string, d: Downtime): map<string, seq<Downtime>> {
    m[g := (if g in m then m[g] else []) + [d]]
  }

  // How the downtimes are listed: all of them, a group's by their ordinals.
  ghost predicate IsListing(rows: map<(string, nat), DowntimeRow>, listing: seq<(string, nat)>) {
    && (forall k :: k in listing <==> k in rows)
    && (forall i, j :: 0 <= i < j < |listing| ==> listing[i].0 != listing[j].0 || listing[i].1 < listing[j].1)
  }

  function Exported(tables: Tables, listing: seq<(string, nat)>): Topology
    requires forall k :: k in listing ==> k in tables.downtimes
  {
    Topology(
      map n | n in tables.facilities ::
        Facility(IdPtr(tables.facilities[n].id, tables.facilities[n].explicit), tables.facilities[n].columns,
          tables.facilities[n].extra),
      map n | n in tables.sites ::
        Site(IdPtr(tables.sites[n].id, tables.sites[n].explicit), tables.sites[n].columns, tables.sites[n].extra),
      GroupsFrom(tables.groups, tables.resources, {}),
      Collected(tables.downtimes, listing),
      map n | n in tables.sites :: tables.sites[n].parent,
      map g | g in tables.groups :: tables.groups[g].parent
    )
  }

  method ExportContacts(rows: map<(string, string), Person>) returns (lists: map<string, map<string, Person>>)
    ensures lists == ListsFrom(rows)
  {
    lists := map[];
    var todo := rows.Keys;
    while todo != {}
      invariant todo <= rows.Keys
      invariant forall t, rank :: t in lists && rank in lists[t] <==> (t, rank) in rows.Keys - todo
      invariant forall t :: t in lists ==> lists[t] != map[]
      invariant forall t, rank :: t in lists && rank in lists[t] ==> lists[t][rank] == rows[(t, rank)]
      decreases todo
    {
      var k :| k in todo;
      var ranks := if k.0 in lists then lists[k.0] else map[];
      lists, todo := lists[k.0 := ranks[k.1 := rows[k]]], todo - {k};
    }
    assert lists == ListsFrom(rows) by {
      forall t | t in lists ensures t in (set k | k in rows :: k.0) && lists[t] == ListsFrom(rows)[t] {
        SomeKey(lists[t]);
        var rank :| rank in lists[t];
        assert (t, rank) in rows;
      }
    }
  }

  lemma SomeKey<V>(m: map<string, V>)
    requires m != map[]
    ensures exists k :: k in m
  {
    assert m == map[] <==> m.Keys == {};
    var k :| k in m.Keys;
  }

  method ExportServices(rows: map<string, ServiceRow>) returns (services: map<string, Service>)
    ensures services == ServicesFrom(rows)
  {
    services := map[];
    var todo := rows.Keys;
    while todo != {}
      invariant todo <= rows.Keys && services.Keys == rows.Keys - todo
      invariant forall s :: s in services ==> services[s] == FromBlob(rows[s].description, rows[s].blob)
      decreases todo
    {
      var s :| s in todo;
      services, todo := services[s := FromBlob(rows[s].description, rows[s].blob)], todo - {s};
    }
  }

  method ExportResource(row: ResourceRow) returns (r: Resource)
    ensures r == ResourceFrom(row)
  {
    var services: Option<map<string, Service>> := None;
    if row.services != map[] {
      var m := ExportServices(row.services);
      services := Some(m);
    }
    var contacts: Option<map<string, map<string, Person>>> := None;
    if row.contacts != map[] {
      var m := ExportContacts(row.contacts);
      contacts := Some(m);
    }
    r := Resource(IdPtr(row.id, row.explicit), row.columns, services, contacts, Loaded(row.voOwnership),
      Loaded(row.wlcg), row.extra);
  }

  // Each group starts without resources; each resource is then put into its group.
  method ExportGroups(groupRows: map<string, EntityRow>, rows: map<(string, string), ResourceRow>)
    returns (groups: map<string, Group>)
    ensures groups == GroupsFrom(groupRows, rows, {})
  {
    groups := map[];
    var todo := groupRows.Keys;
    while todo != {}
      invariant todo <= groupRows.Keys && groups.Keys == groupRows.Keys - todo
      invariant forall g :: g in groups ==> groups[g] == GroupWith(groupRows[g], map[])
      decreases todo
    {
      var g :| g in todo;
      groups, todo := groups[g := GroupWith(groupRows[g], map[])], todo - {g};
    }
    NoResourcesYet(groupRows, rows, groups);
    var left := rows.Keys;
    while left != {}
      invariant left <= rows.Keys && groups == GroupsFrom(groupRows, rows, left)
      decreases left
    {
      var p :| p in left;
      var r := ExportResource(rows[p]);
      OneResourceMore(groupRows, rows, left, p);
      if p.0 in groups {
        groups := groups[p.0 := groups[p.0].(resources := Some(groups[p.0].resources.value[p.1 := r]))];
      }
      left := left - {p};
    }
  }

  lemma {:induction false} NoResourcesYet(groupRows: map<string, EntityRow>, rows: map<(string, string), ResourceRow>,
                                          groups: map<string, Group>)
    requires groups.Keys == groupRows.Keys && forall g :: g in groups ==> groups[g] == GroupWith(groupRows[g], map[])
    ensures groups == GroupsFrom(groupRows, rows, rows.Keys)
  {
    forall g | g in groups ensures ResourcesBut(rows, g, rows.Keys) == map[] {
      assert forall n :: n in NamesIn(rows, g) ==> (g, n) in rows;
    }
  }

  lemma {:induction false} OneResourceMore(groupRows: map<string, EntityRow>, rows: map<(string, string),
                                           ResourceRow>, left: set<(string, string)>, p: (string, string))
    requires p in rows && p in left
    ensures var before, after := GroupsFrom(groupRows, rows, left), GroupsFrom(groupRows, rows, left - {p});
      after == if p.0 in before
        then before[p.0 := before[p.0].(resources := Some(before[p.0].resources.value[p.1 := ResourceFrom(rows[p])]))]
        else before
  {
    forall g | g in groupRows ensures ResourcesBut(rows, g, left - {p}) ==
      if g == p.0 then ResourcesBut(rows, g, left)[p.1 := ResourceFrom(rows[p])] else ResourcesBut(rows, g, left)
    {
      ResourceInItsGroup(rows, g, left, p);
    }
  }

  lemma {:induction false} ResourceInItsGroup(rows: map<(string, string), ResourceRow>, g: string,
                                              left: set<(string, string)>, p: (string, string))
    requires p in rows && p in left
    ensures ResourcesBut(rows, g, left - {p}) ==
      if g == p.0 then ResourcesBut(rows, g, left)[p.1 := ResourceFrom(rows[p])] else ResourcesBut(rows, g, left)
  {
    assert g == p.0 ==> p == (g, p.1);
  }

  method ExportDowntimes(rows: map<(string, nat), DowntimeRow>, listing: seq<(string, nat)>)
    returns (m: map<string, seq<Downtime>>)
    requires forall k :: k in listing ==> k in rows
    ensures m == Collected(rows, listing)
  {
    m := map[];
    for i := 0 to |listing|
      invariant m == Collected(rows, listing[..i])
    {
      var g := listing[i].0;
      assert listing[..i + 1][..i] == listing[..i];
      m := m[g := (if g in m then m[g] else []) + [DowntimeFrom(rows[listing[i]])]];
    }
    assert listing[..|listing|] == listing;
  }

  method Export(tables: Tables, listing: seq<(string, nat)>) returns (t: Topology)
    requires IsListing(tables.downtimes, listing)
    ensures t == Exported(tables, listing)
  {
    var facilities := map n | n in tables.facilities ::
      Facility(IdPtr(tables.facilities[n].id, tables.facilities[n].explicit), tables.facilities[n].columns,
        tables.facilities[n].extra);
    var sites := map n | n in tables.sites ::
      Site(IdPtr(tables.sites[n].id, tables.sites[n].explicit), tables.sites[n].columns, tables.sites[n].extra);
    var siteFacility := map n | n in tables.sites :: tables.sites[n].parent;
    var groups := ExportGroups(tables.groups, tables.resources);
    var groupSite := map g | g in tables.groups :: tables.groups[g].parent;
    var downtimes := ExportDowntimes(tables.downtimes, listing);
    t := Topology(facilities, sites, groups, downtimes, siteFacility, groupSite);
  }

  // ---- the round trip ----

  // What survives: an empty map is absent, numbers are canonical, a group's resources are a map even
  // when the file has none, and a downtime's other keys are gone.
  function NormalService(s: Service): Service {
    s.(details := Canon(s.details), extra := Stored(s.extra))
  }

  function NormalServices(m: map<string, Service>): Option<map<string, Service>> {
    if m == map[] then None else Some(map s | s in m :: NormalService(m[s]))
  }

  function NormalContacts(m: map<string, map<string, Person>>): Option<map<string, map<string, Person>>> {
    if Slots(m) == {} then None else Some(map t | t in m && m[t] != map[] :: m[t])
  }

  function NormalResource(r: Resource): Resource {
    r.(services := NormalServices(ServicesOf(r)), contacts := NormalContacts(ContactsOf(r)),
       voOwnership := Canon(r.voOwnership), wlcg := Canon(r.wlcg), extra := Stored(r.extra))
  }

  function NormalResources(rs: map<string, Resource>): map<string, Resource> {
    map n | n in rs :: NormalResource(rs[n])
  }

  function NormalGroup(g: Group): Group {
    g.(resources := Some(NormalResources(ResourcesOf(g))), extra := Stored(g.extra))
  }

  function NormalGroups(t: Topology): map<string, Group> {
    map g | g in t.groups :: NormalGroup(t.groups[g])
  }

  function WithoutExtra(dts: seq<Downtime>): (r: seq<Downtime>)
    ensures |r| == |dts| && forall i :: 0 <= i < |dts| ==> r[i] == dts[i].(extra := None)
  {
    seq(|dts|, i requires 0 <= i < |dts| => dts[i].(extra := None))
  }

  function NormalFacilities(t: Topology): map<string, Facility> {
    map n | n in t.facilities :: t.facilities[n].(extra := Stored(t.facilities[n].extra))
  }

  function NormalSites(t: Topology): map<string, Site> {
    map n | n in t.sites :: t.sites[n].(extra := Stored(t.sites[n].extra))
  }

  function NormalDowntimes(t: Topology): map<string, seq<Downtime>> {
    map g | g in t.downtimes && t.downtimes[g] != [] :: WithoutExtra(t.downtimes[g])
  }

  function SiteParents(t: Topology): map<string, string> {
    map n | n in t.sites :: ParentIn(t.siteFacility, n)
  }

  function GroupParents(t: Topology): map<string, string> {
    map g | g in t.groups :: ParentIn(t.groupSite, g)
  }

  function Normal(t: Topology): Topology {
    Topology(NormalFacilities(t), NormalSites(t), NormalGroups(t), NormalDowntimes(t), SiteParents(t), GroupParents(t))
  }

  lemma ServiceRoundTrip(s: Service)
    ensures FromBlob(s.description, Blob(s)) == NormalService(s)
  {}

  lemma {:induction false} ServicesRoundTrip(m: map<string, Service>)
    ensures ServicesFrom(ServiceRows(m)) == map s | s in m :: NormalService(m[s])
    ensures ServiceRows(m) == map[] <==> m == map[]
  {
    forall s | s in m ensures ServicesFrom(ServiceRows(m))[s] == NormalService(m[s]) {
      ServiceRoundTrip(m[s]);
    }
    assert ServiceRows(m).Keys == m.Keys;
    assert m == map[] <==> m.Keys == {};
  }

  lemma {:induction false} ContactsRoundTrip(m: map<string, map<string, Person>>)
    ensures ListsFrom(ContactRows(m)) == map t | t in m && m[t] != map[] :: m[t]
    ensures ContactRows(m) == map[] <==> Slots(m) == {}
  {
    var rows := ContactRows(m);
    assert rows.Keys == Slots(m);
    assert rows == map[] <==> rows.Keys == {};
    forall t ensures t in ListsFrom(rows) <==> t in m && m[t] != map[] {
      if t in m && m[t] != map[] {
        SomeKey(m[t]);
        var rank :| rank in m[t];
        assert (t, rank) in rows;
      }
    }
    forall t | t in ListsFrom(rows) ensures ListsFrom(rows)[t] == m[t] {
      ListRoundTrip(m, t);
    }
  }

  lemma {:induction false} ListRoundTrip(m: map<string, map<string, Person>>, t: string)
    requires t in m
    ensures (map rank | rank in RanksIn(ContactRows(m), t) :: ContactRows(m)[(t, rank)]) == m[t]
  {
    forall rank ensures rank in RanksIn(ContactRows(m), t) <==> rank in m[t] {
      assert (t, rank) in ContactRows(m) <==> rank in m[t];
    }
  }

  lemma {:induction false} ResourceRoundTrip(genId: string -> int, name: string, r: Resource)
    ensures ResourceFrom(RowOf(genId, name, r)) == NormalResource(r)
  {
    ServicesRoundTrip(ServicesOf(r));
    ContactsRoundTrip(ContactsOf(r));
    assert Loaded(StoredAny(r.voOwnership)) == Canon(r.voOwnership) && Loaded(StoredAny(r.wlcg)) == Canon(r.wlcg);
  }

  lemma {:induction false} ResourcesRoundTrip(genId: string -> int, t: Topology, g: string)
    requires g in t.groups
    ensures ResourcesBut(ResourceRows(genId, t), g, {}) == NormalResources(ResourcesOf(t.groups[g]))
  {
    var rows, rs := ResourceRows(genId, t), ResourcesOf(t.groups[g]);
    forall n ensures n in NamesIn(rows, g) <==> n in rs {
      assert (g, n) in rows <==> n in rs;
    }
    forall n | n in rs ensures ResourceFrom(rows[(g, n)]) == NormalResource(rs[n]) {
      ResourceRoundTrip(genId, n, rs[n]);
    }
  }

  // Whatever they are linked to, these are the rows of the downtimes.
  ghost predicate ShowDowntimes(t: Topology, rows: map<(string, nat), DowntimeRow>) {
    && rows.Keys == DowntimeKeys(t)
    && forall k :: k in rows ==> DowntimeFrom(rows[k]) == t.downtimes[k.0][k.1].(extra := None)
  }

  // Having gone through the first m listed downtimes, each group has its first ones.
  ghost predicate FirstOnes(t: Topology, listing: seq<(string, nat)>, m: map<string, seq<Downtime>>) {
    && (forall g :: g in m ==> m[g] != [] && g in t.downtimes && m[g] <= WithoutExtra(t.downtimes[g]))
    && (forall g, i: nat :: (g, i) in listing <==> g in m && i < |m[g]|)
  }

  lemma {:induction false} CollectedFirstOnes(t: Topology, rows: map<(string, nat), DowntimeRow>,
                                              listing: seq<(string, nat)>, n: nat)
    requires ShowDowntimes(t, rows) && IsListing(rows, listing) && n <= |listing|
    ensures FirstOnes(t, listing[..n], Collected(rows, listing[..n]))
  {
    if n > 0 {
      var init, k := listing[..n - 1], listing[n - 1];
      assert listing[..n][..n - 1] == init;
      CollectedFirstOnes(t, rows, listing, n - 1);
      var m := Collected(rows, init);
      var c := if k.0 in m then |m[k.0]| else 0;
      assert k in listing && k in rows;
      NextOrdinal(t, rows, listing, n - 1, m, c);
      assert listing[..n] == init + [k];
      FirstOnesNext(t, rows, init, m, k);
    }
  }

  lemma {:induction false} NextOrdinal(t: Topology, rows: map<(string, nat), DowntimeRow>,
                                       listing: seq<(string, nat)>, n: nat, m: map<string, seq<Downtime>>, c: nat)
    requires ShowDowntimes(t, rows) && IsListing(rows, listing) && n < |listing| && FirstOnes(t, listing[..n], m)
    requires var g := listing[n].0; c == if g in m then |m[g]| else 0
    ensures listing[n].1 == c
  {
    var g, o := listing[n].0, listing[n].1;
    assert listing[n] in listing;
    if c < o {
      assert (g, c) in rows && (g, c) in listing;
    }
  }

  lemma {:induction false} FirstOnesNext(t: Topology, rows: map<(string, nat), DowntimeRow>, init: seq<(string, nat)>,
                                         m: map<string, seq<Downtime>>, k: (string, nat))
    requires ShowDowntimes(t, rows) && FirstOnes(t, init, m) && k in rows
    requires k.1 == if k.0 in m then |m[k.0]| else 0
    ensures FirstOnes(t, init + [k], Appended(m, k.0, DowntimeFrom(rows[k])))
  {
    var after := Appended(m, k.0, DowntimeFrom(rows[k]));
    var dts := WithoutExtra(t.downtimes[k.0]);
    assert after[k.0][k.1] == dts[k.1];
    forall g, i: nat ensures (g, i) in init + [k] <==> g in after && i < |after[g]| {
      assert (g, i) in init + [k] <==> (g, i) in init || (g, i) == k;
    }
  }

  lemma {:induction false} CollectedIsNormal(t: Topology, rows: map<(string, nat), DowntimeRow>,
                                             listing: seq<(string, nat)>)
    requires ShowDowntimes(t, rows) && IsListing(rows, listing)
    ensures Collected(rows, listing) == NormalDowntimes(t)
  {
    var m := Collected(rows, listing);
    assert listing[..|listing|] == listing;
    CollectedFirstOnes(t, rows, listing, |listing|);
    forall g ensures g in m <==> g in t.downtimes && t.downtimes[g] != [] {
      if g in t.downtimes && t.downtimes[g] != [] {
        assert (g, 0) in rows;
      }
    }
    forall g | g in m ensures m[g] == WithoutExtra(t.downtimes[g]) {
      var n := |t.downtimes[g]| - 1;
      assert (g, n) in rows;
    }
  }

  lemma {:induction false} DowntimesRoundTrip(genId: string -> int, t: Topology, listing: seq<(string, nat)>)
    requires IsListing(DowntimeRows(genId, t), listing)
    ensures Collected(DowntimeRows(genId, t), listing) == NormalDowntimes(t)
  {
    CollectedIsNormal(t, DowntimeRows(genId, t), listing);
  }

  /** An imported downtime is linked to the resource of the name it gives, wherever that is, and to none
      exactly when there is no such resource. */
  lemma {:induction false} DowntimesAreLinked(genId: string -> int, t: Topology, k: (string, nat))
    requires Importable(genId, t) && k in Imported(genId, t).downtimes
    ensures var tables := Imported(genId, t);
      var row := tables.downtimes[k];
      && row.resource == t.downtimes[k.0][k.1].resource
      && (row.resourceId == None <==> forall p :: p in tables.resources ==> p.1 != row.resource)
      && (forall p :: p in tables.resources && p.1 == row.resource ==> row.resourceId == Some(tables.resources[p].id))
  {
    var rows, d := ResourceRows(genId, t), t.downtimes[k.0][k.1];
    forall p | p in rows && p.1 == d.resource ensures IdOf(rows, d.resource) == Some(rows[p].id) {
      assert IsCalled(rows, p, d.resource);
      var q :| IsCalled(rows, q, d.resource) && rows[q].id == IdOf(rows, d.resource).value;
      assert p == q;
    }
  }

  /** What was imported is exported again in normal form: explicit ids stay explicit and absent ones
      absent, every parent is kept, downtimes keep their order. */
  lemma {:induction false} ExportInvertsImport(genId: string -> int, t: Topology, listing: seq<(string, nat)>)
    requires Importable(genId, t) && IsListing(Imported(genId, t).downtimes, listing)
    ensures Exported(Imported(genId, t), listing) == Normal(t)
  {
    DowntimesRoundTrip(genId, t, listing);
    GroupsRoundTrip(genId, t);
    GroupParentsRoundTrip(genId, t);
    FacilitiesRoundTrip(genId, t);
    SitesRoundTrip(genId, t);
  }

  lemma GroupRoundTrip(genId: string -> int, name: string, g: Group, site: string)
    ensures GroupWith(GroupRow(genId, name, g, site), NormalResources(ResourcesOf(g))) == NormalGroup(g)
  {}

  lemma {:induction false} GroupsRoundTrip(genId: string -> int, t: Topology)
    ensures GroupsFrom(GroupRows(genId, t), ResourceRows(genId, t), {}) == NormalGroups(t)
  {
    var rows := GroupRows(genId, t);
    forall g | g in t.groups ensures GroupWith(rows[g], ResourcesBut(ResourceRows(genId, t), g, {})) ==
      NormalGroup(t.groups[g]) {
      ResourcesRoundTrip(genId, t, g);
      GroupRoundTrip(genId, g, t.groups[g], ParentIn(t.groupSite, g));
    }
  }

  lemma {:induction false} GroupParentsRoundTrip(genId: string -> int, t: Topology)
    ensures (map g | g in GroupRows(genId, t) :: GroupRows(genId, t)[g].parent) == GroupParents(t)
  {}

  lemma {:induction false} FacilitiesRoundTrip(genId: string -> int, t: Topology)
    ensures var rows := FacilityRows(genId, t);
      (map n | n in rows :: Facility(IdPtr(rows[n].id, rows[n].explicit), rows[n].columns, rows[n].extra)) ==
        NormalFacilities(t)
  {}

  lemma {:induction false} SitesRoundTrip(genId: string -> int, t: Topology)
    ensures var rows := SiteRows(genId, t);
      && (map n | n in rows :: Site(IdPtr(rows[n].id, rows[n].explicit), rows[n].columns, rows[n].extra)) ==
        NormalSites(t)
      && (map n | n in rows :: rows[n].parent) == SiteParents(t)
  {}

  // ---- once more ----

  lemma {:induction false} StoredTwice(extra: Option<Fields>)
    ensures Stored(Stored(extra)) == Stored(extra)
  {
    match extra
    case None =>
    case Some(m) =>
      forall k | k in m ensures Canon(Canon(m[k])) == Canon(m[k]) {
        CanonTwice(m[k]);
      }
      assert CanonFields(CanonFields(m)) == CanonFields(m);
      assert m == map[] <==> m.Keys == {};
      assert CanonFields(m) == map[] <==> CanonFields(m).Keys == {};
  }

  lemma {:induction false} NormalServicesTwice(m: map<string, Service>)
    ensures var n := NormalServices(m); NormalServices(match n case Some(x) => x case None => map[]) == n
  {
    if m != map[] {
      var n := map s | s in m :: NormalService(m[s]);
      forall s | s in m ensures NormalService(n[s]) == n[s] {
        CanonTwice(m[s].details);
        StoredTwice(m[s].extra);
      }
      assert (map s | s in n :: NormalService(n[s])) == n;
      SomeKey(m);
      var k :| k in m;
      assert k in n;
    }
  }

  lemma {:induction false} NormalContactsTwice(m: map<string, map<string, Person>>)
    ensures var n := NormalContacts(m); NormalContacts(match n case Some(x) => x case None => map[]) == n
  {
    var kept := map t | t in m && m[t] != map[] :: m[t];
    assert Slots(kept) == Slots(m);
    assert (map t | t in kept && kept[t] != map[] :: kept[t]) == kept;
    var none: map<string, map<string, Person>> := map[];
    assert Slots(none) == {};
  }

  lemma {:induction false} NormalResourceTwice(r: Resource)
    ensures NormalResource(NormalResource(r)) == NormalResource(r)
  {
    NormalServicesTwice(ServicesOf(r));
    NormalContactsTwice(ContactsOf(r));
    CanonTwice(r.voOwnership);
    CanonTwice(r.wlcg);
    StoredTwice(r.extra);
  }

  lemma {:induction false} NormalResourcesTwice(rs: map<string, Resource>)
    ensures NormalResources(NormalResources(rs)) == NormalResources(rs)
  {
    forall n | n in rs ensures NormalResource(NormalResource(rs[n])) == NormalResource(rs[n]) {
      NormalResourceTwice(rs[n]);
    }
  }

  lemma {:induction false} NormalGroupTwice(g: Group)
    ensures NormalGroup(NormalGroup(g)) == NormalGroup(g)
  {
    NormalResourcesTwice(ResourcesOf(g));
    StoredTwice(g.extra);
  }

  lemma {:induction false} NormalGroupsTwice(t: Topology)
    ensures NormalGroups(Normal(t)) == NormalGroups(t)
  {
    forall g | g in t.groups ensures NormalGroup(NormalGroup(t.groups[g])) == NormalGroup(t.groups[g]) {
      NormalGroupTwice(t.groups[g]);
    }
  }

  lemma {:induction false} NormalEntitiesTwice(t: Topology)
    ensures NormalFacilities(Normal(t)) == NormalFacilities(t) && NormalSites(Normal(t)) == NormalSites(t)
  {
    forall n | n in t.facilities ensures Stored(Stored(t.facilities[n].extra)) == Stored(t.facilities[n].extra) {
      StoredTwice(t.facilities[n].extra);
    }
    forall n | n in t.sites ensures Stored(Stored(t.sites[n].extra)) == Stored(t.sites[n].extra) {
      StoredTwice(t.sites[n].extra);
    }
  }

  lemma {:induction false} NormalDowntimesTwice(t: Topology)
    ensures NormalDowntimes(Normal(t)) == NormalDowntimes(t)
  {
    forall g | g in t.downtimes ensures WithoutExtra(WithoutExtra(t.downtimes[g])) == WithoutExtra(t.downtimes[g]) {}
  }

  lemma {:induction false} NormalTwice(t: Topology)
    ensures Normal(Normal(t)) == Normal(t)
  {
    NormalEntitiesTwice(t);
    NormalGroupsTwice(t);
    NormalDowntimesTwice(t);
    assert SiteParents(Normal(t)) == SiteParents(t) && GroupParents(Normal(t)) == GroupParents(t);
  }

  lemma {:induction false} NormalKeepsPairs(t: Topology)
    ensures Pairs(Normal(t)) == Pairs(t)
    ensures forall p :: p in Pairs(t) ==>
      ResourcesOf(Normal(t).groups[p.0])[p.1].id == ResourcesOf(t.groups[p.0])[p.1].id
  {
    forall g | g in t.groups ensures ResourcesOf(NormalGroup(t.groups[g])) ==
      NormalResources(ResourcesOf(t.groups[g])) {}
  }

  lemma {:induction false} NormalStaysApart(genId: string -> int, t: Topology)
    requires Apart(ResourceRows(genId, t))
    ensures Apart(ResourceRows(genId, Normal(t)))
  {
    var rows, again := ResourceRows(genId, t), ResourceRows(genId, Normal(t));
    NormalKeepsPairs(t);
    forall p, q | p in again && q in again && p != q ensures p.1 != q.1 && again[p].id != again[q].id {
      assert again[p].id == rows[p].id && again[q].id == rows[q].id;
    }
  }

  lemma {:induction false} NormalStaysPlaced(t: Topology)
    requires SitesPlaced(t) && GroupsPlaced(t) && DowntimesPlaced(t)
    ensures SitesPlaced(Normal(t)) && GroupsPlaced(Normal(t)) && DowntimesPlaced(Normal(t))
  {}

  /** What an export wrote can be imported again, and comes out unchanged. */
  lemma {:induction false} SecondRoundTripIsExact(genId: string -> int, t: Topology, listing: seq<(string, nat)>)
    requires Importable(genId, t) && IsListing(Imported(genId, Normal(t)).downtimes, listing)
    ensures Importable(genId, Normal(t))
    ensures Exported(Imported(genId, Normal(t)), listing) == Normal(t)
  {
    NormalStaysApart(genId, t);
    NormalStaysPlaced(t);
    NormalTwice(t);
    ExportInvertsImport(genId, Normal(t), listing);
  }
}
