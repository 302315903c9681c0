/**
 Applying proposals to the live tables (internal/handlers/proposals.go,
 internal/handlers/support_centers.go, internal/handlers/proposal_stale.go).

 `Apply` says what one proposal does to the tables; class Registry does it statement by statement
 inside a transaction.
 */
module Registry {
  import opened Wrappers
  import opened Json
  import opened Kinds
  import opened Contacts
  import opened ContactSlots
  import opened Tables
  import VOProposals

  // A resource's services and contact lists, replaced together.
  datatype Children = Children(services: Fields, lists: map<string, map<string, Contact>>)

  datatype Decision = Waiting | Accepted | Refused

  // A request to take over a contact slot.
  datatype HandOff = HandOff(kind: Kind, entity: string, ctype: string, rank: string, name: string, id: string,
    decision: Decision)

  datatype DB = DB(
    rows: Rows,
    children: map<int, Children>,
    contacts: seq<ContactRow>,
    handOffs: seq<HandOff>,
    vos: VOProposals.VOs,
    next: int                     // the next row id of the tables that number their own rows
  )

  datatype BundleOp = BundleOp(kind: Kind, op: Operation, target: string, state: Json)

  // A decoded payload.
  datatype Payload =
    | EntityState(name: string, parent: string, institution: string, center: string, data: Fields,
      contacts: seq<Contact>)
    | ResourceState(name: string, parent: string, id: Option<int>, uses: set<string>, data: Fields, inner: Children)
    | CenterState(name: string, data: Fields)
    | ProjectState(name: string, uses: set<string>, data: Fields)
    | BundleState(ops: seq<BundleOp>)

  // What lies outside the tables: the name hash, the decimal form of ids, the registries of
  // institutions and people, decoding, and the ids the sequence of resources hands out.
  datatype Env = Env(
    genId: string -> int,
    parseId: string -> Option<int>,
    formatId: int -> string,
    institutionExists: string -> bool,
    contactKnown: string -> bool,
    voContactsOK: (Json, Json) -> bool,
    decode: (Kind, Json) -> Option<Payload>,
    valid: (Kind, Json) -> bool,
    snapshot: (Kind, DB, string) -> Option<Json>,
    mint: (nat, nat) -> int
  )

  datatype Error =
    | BadPayload | StaleBase | StillHasChildren | NoInstitution | UnknownInstitution | NotFound
    | BadContacts(contact: ContactError) | BadResourceContacts | NoParent | BadId | Incomplete
    | CenterInUse | CenterIdTaken | Table(table: TableError) | NoSuchRow | VOFailed(vo: VOProposals.VOError)
    | EmptyBundle | NestedBundle

  // ---- lookups ----

  // A live target as the stale-base guard sees it.
  datatype Target = RowTarget(id: int, row: Row) | VOTarget(vo: VOProposals.VORow)

  function Version(t: Target): nat {
    match t
    case RowTarget(_, row) => row.version
    case VOTarget(vo) => vo.version
  }

  ghost function TargetOf(env: Env, db: DB, kind: Kind, target: string): Option<Target> {
    if target == "" then None
    else
      match kind
      case Bundle => None
      case VO => if target in db.vos then Some(VOTarget(db.vos[target])) else None
      case Resource =>
        (match env.parseId(target)
         case Some(id) =>
           if Key(Resource, id) in db.rows && db.rows[Key(Resource, id)].live
           then Some(RowTarget(id, db.rows[Key(Resource, id)])) else None
         case None => None)
      case _ =>
        (match Named(db.rows, kind, target)
         case Some(id) => Some(RowTarget(id, db.rows[Key(kind, id)]))
         case None => None)
  }

  ghost function UpdatedAt(env: Env, db: DB, kind: Kind, target: string): Option<nat> {
    match TargetOf(env, db, kind, target)
    case Some(t) => Some(Version(t))
    case None => None
  }

  // ---- facilities, sites and resource groups ----

  // A facility needs a registered institution, unless it has none on record and stays so.
  ghost function InstitutionError(env: Env, db: DB, op: Operation, target: string, institution: string): Option<Error> {
    if institution == "" then
      if op != Update then Some(NoInstitution)
      else
        match Named(db.rows, Facility, target)
        case None => Some(NotFound)
        case Some(id) => if db.rows[Key(Facility, id)].content.institution == "" then None else Some(NoInstitution)
    else if env.institutionExists(institution) then None else Some(UnknownInstitution)
  }

  // The id of the parent row, which a facility does not have.
  ghost function ParentId(db: DB, kind: Kind, parent: string): Option<int> {
    match ParentKind(kind)
    case None => Some(0)
    case Some(up) => Named(db.rows, up, parent)
  }

  function Or(data: Fields, key: string, default: bool): Fields {
    if key in data && data[key] != Null then data else data[key := Bool(default)]
  }

  // A new resource group is in production and enabled unless it says otherwise.
  function WithDefaults(kind: Kind, c: Content): Content {
    if kind == ResourceGroup then c.(data := Or(Or(c.data, "production", true), "disable", false)) else c
  }

  function Repoint(h: HandOff, kind: Kind, target: string, name: string): HandOff {
    if h.decision == Waiting && h.kind == kind && h.entity == target then h.(entity := name) else h
  }

  function Repointed(hs: seq<HandOff>, kind: Kind, target: string, name: string): (out: seq<HandOff>)
    ensures |out| == |hs| && forall i :: 0 <= i < |hs| ==> out[i] == Repoint(hs[i], kind, target, name)
  {
    seq(|hs|, i requires 0 <= i < |hs| => Repoint(hs[i], kind, target, name))
  }

  function FromTable<T>(r: Result<T, TableError>): Result<T, Error> {
    match r
    case Ok(v) => Ok(v)
    case Err(e) => Err(Table(e))
  }

  ghost function ApplyEntity(env: Env, db: DB, kind: Kind, op: Operation, target: string, state: Json,
                             now: nat): (r: Result<DB, Error>)
    ensures r.Ok? ==> r.value.vos == db.vos
  {
    if op == Delete then
      if HasChildren(db.rows, kind, target) then Err(StillHasChildren)
      else Ok(db.(rows := BuriedByName(db.rows, kind, target)))
    else
      match env.decode(kind, state)
      case Some(EntityState(name, parent, institution, center, data, contacts)) =>
        var bad := if kind == Facility then InstitutionError(env, db, op, target, institution) else None;
        if bad.Some? then Err(bad.value)
        else if Rejection(env.contactKnown, contacts).Some? then
          Err(BadContacts(Rejection(env.contactKnown, contacts).value))
        else
          (match ParentId(db, kind, parent)
           case None => Err(NoParent)
           case Some(id) => WriteEntity(db, kind, op, target, Content(name, id, institution, center, {}, data),
             contacts, now))
      case _ => Err(BadPayload)
  }

  // Write the row, replace the contacts, and let waiting hand-offs follow an update's name.
  ghost function WriteEntity(db: DB, kind: Kind, op: Operation, target: string, content: Content,
                             contacts: seq<Contact>, now: nat): (r: Result<DB, Error>)
    ensures r.Ok? ==> r.value.vos == db.vos
  {
    if op == Update then
      var rows :- FromTable(ChangedByName(db.rows, kind, target, content, now));
      Ok(db.(rows := rows,
             contacts := Replaced(db.contacts, kind, target, content.name, contacts),
             handOffs := Repointed(db.handOffs, kind, target, content.name)))
    else
      var rows :- FromTable(Added(db.rows, Key(kind, db.next), WithDefaults(kind, content), now));
      Ok(db.(rows := rows, contacts := Replaced(db.contacts, kind, target, content.name, contacts),
        next := db.next + 1))
  }

  // ---- resources ----

  predicate ResolvedLists(env: Env, lists: map<string, map<string, Contact>>) {
    forall t | t in lists :: forall rank | rank in lists[t] ::
      rank in RANKS && (Blank(lists[t][rank]) || env.contactKnown(lists[t][rank].id))
  }

  predicate NoChildren(c: Children) {
    c.services == map[] && forall t | t in c.lists :: c.lists[t] == map[]
  }

  ghost function ApplyResource(env: Env, db: DB, op: Operation, target: string, state: Json, now: nat,
                               nth: nat): (r: Result<DB, Error>)
    ensures r.Ok? ==> r.value.vos == db.vos && r.value.handOffs == db.handOffs
  {
    if op == Delete then
      match env.parseId(target)
      case None => Err(BadId)
      case Some(id) => Ok(db.(rows := Buried(db.rows, Key(Resource, id))))
    else
      match env.decode(Resource, state)
      case Some(ResourceState(name, parent, id, uses, data, inner)) =>
        if name == "" || parent == "" then Err(Incomplete)
        else if !ResolvedLists(env, inner.lists) then Err(BadResourceContacts)
        else
          (match Named(db.rows, ResourceGroup, parent)
           case None => Err(NoParent)
           case Some(group) =>
             var content := Content(name, group, "", "", uses, data);
             if op == Update then
               (match env.parseId(target)
                case None => Err(BadId)
                case Some(at) => UpdateResource(db, at, content, inner, now))
             else
               AddResource(db, if id.Some? then id.value else env.mint(now, nth), content, inner, now))
      case _ => Err(BadPayload)
  }

  // An id without a live row changes no row; its children need a row of that id, live or not.
  ghost function UpdateResource(db: DB, id: int, content: Content, inner: Children, now: nat): (r: Result<DB, Error>)
    ensures r.Ok? ==> r.value.vos == db.vos && r.value.handOffs == db.handOffs
  {
    var key := Key(Resource, id);
    var rows :- FromTable(if key in db.rows && db.rows[key].live then Changed(db.rows, key, content, now)
      else Ok(db.rows));
    if key !in rows && !NoChildren(inner) then Err(NoSuchRow)
    else Ok(db.(rows := rows, children := db.children[id := inner]))
  }

  ghost function AddResource(db: DB, id: int, content: Content, inner: Children, now: nat): (r: Result<DB, Error>)
    ensures r.Ok? ==> r.value.vos == db.vos && r.value.handOffs == db.handOffs
  {
    var rows :- FromTable(Added(db.rows, Key(Resource, id), content, now));
    Ok(db.(rows := rows, children := db.children[id := inner]))
  }

  // ---- support centers and projects ----

  ghost function ApplyCenter(env: Env, db: DB, op: Operation, target: string, state: Json, now: nat): (r: Result<DB,
                             Error>)
    ensures r.Ok? ==> r.value.vos == db.vos && r.value.handOffs == db.handOffs
  {
    if op == Delete then
      if exists key :: UsesCenter(db.rows, key, target) then Err(CenterInUse)
      else Ok(db.(rows := BuriedByName(db.rows, SupportCenter, target)))
    else
      match env.decode(SupportCenter, state)
      case Some(CenterState(name, data)) =>
        var content := Content(name, 0, "", "", {}, data);
        if name == "" then Err(Incomplete)
        else if op == Update then UpdateCenter(db, target, content, now)
        else AddCenter(env, db, content, now)
      case _ => Err(BadPayload)
  }

  // The id stays; groups follow a new name.
  ghost function UpdateCenter(db: DB, target: string, content: Content, now: nat): (r: Result<DB, Error>)
    ensures r.Ok? ==> r.value.vos == db.vos && r.value.handOffs == db.handOffs
  {
    if Named(db.rows, SupportCenter, target) == None then Err(NotFound)
    else
      var rows :- FromTable(ChangedByName(db.rows, SupportCenter, target, content, now));
      Ok(db.(rows := if content.name != target then CenterRenamed(rows, target, content.name, now) else rows))
  }

  ghost function AddCenter(env: Env, db: DB, content: Content, now: nat): (r: Result<DB, Error>)
    ensures r.Ok? ==> r.value.vos == db.vos && r.value.handOffs == db.handOffs
  {
    var key := Key(SupportCenter, env.genId(content.name));
    if key in db.rows && db.rows[key].live && db.rows[key].content.name != ""
      && db.rows[key].content.name != content.name
    then Err(CenterIdTaken)
    else
      var rows :- FromTable(CenterAdded(db.rows, key.id, content, now));
      Ok(db.(rows := rows))
  }

  // A project that exists under the name is overwritten by a create.
  ghost function ApplyProject(env: Env, db: DB, op: Operation, target: string, state: Json, now: nat): (r: Result<DB,
                              Error>)
    ensures r.Ok? ==> r.value.vos == db.vos && r.value.handOffs == db.handOffs
  {
    if op == Delete then Ok(db.(rows := BuriedByName(db.rows, Project, target)))
    else
      match env.decode(Project, state)
      case Some(ProjectState(name, uses, data)) =>
        var content := Content(name, 0, "", "", uses, data);
        if op == Update then
          var rows :- FromTable(ChangedByName(db.rows, Project, target, content, now));
          Ok(db.(rows := rows))
        else if Named(db.rows, Project, name).Some? then
          var rows :- FromTable(ChangedByName(db.rows, Project, name, content, now));
          Ok(db.(rows := rows))
        else
          var rows :- FromTable(Added(db.rows, Key(Project, db.next), content, now));
          Ok(db.(rows := rows, next := db.next + 1))
      case _ => Err(BadPayload)
  }

  // ---- VOs ----

  function VOEnvOf(env: Env, rows: Rows): VOProposals.VOEnv {
    VOProposals.VOEnv(env.genId, env.voContactsOK, name => VOInUse(rows, name))
  }

  ghost function ApplyVO(env: Env, db: DB, op: Operation, target: string, state: Json, now: nat): Result<DB, Error> {
    match VOProposals.ApplyVO(VOEnvOf(env, db.rows), db.vos, op, target, state, now)
    case Ok(vos) => Ok(db.(vos := vos))
    case Err(e) => Err(VOFailed(e))
  }

  // ---- any proposal ----

  ghost function ApplySingle(env: Env, db: DB, kind: Kind, op: Operation, target: string, state: Json, now: nat,
                             nth: nat): Result<DB, Error>
  {
    match kind
    case Resource => ApplyResource(env, db, op, target, state, now, nth)
    case SupportCenter => ApplyCenter(env, db, op, target, state, now)
    case Project => ApplyProject(env, db, op, target, state, now)
    case VO => ApplyVO(env, db, op, target, state, now)
    case Bundle => Err(NestedBundle)
    case _ => ApplyEntity(env, db, kind, op, target, state, now)
  }

  ghost function ApplyOp(env: Env, db: DB, o: BundleOp, now: nat, nth: nat): Result<DB, Error> {
    ApplySingle(env, db, o.kind, o.op, o.target, o.state, now, nth)
  }

  // The first n operations of a bundle, in order, each on what the ones before it left.
  ghost function ApplyOps(env: Env, db: DB, ops: seq<BundleOp>, n: nat, now: nat): Result<DB, Error>
    requires n <= |ops|
  {
    if n == 0 then Ok(db)
    else
      var before :- ApplyOps(env, db, ops, n - 1, now);
      ApplyOp(env, before, ops[n - 1], now, n - 1)
  }

  ghost function ApplyBundle(env: Env, db: DB, state: Json, now: nat): Result<DB, Error> {
    match env.decode(Bundle, state)
    case Some(BundleState(ops)) => if ops == [] then Err(EmptyBundle) else ApplyOps(env, db, ops, |ops|, now)
    case _ => Err(BadPayload)
  }

  // The target is no longer as it was when the proposal branched off.
  ghost predicate IsStale(env: Env, db: DB, kind: Kind, op: Operation, target: string, baseAt: Option<nat>) {
    op != Create && baseAt.Some? && UpdatedAt(env, db, kind, target) != baseAt
  }

  ghost function Apply(env: Env, db: DB, kind: Kind, op: Operation, target: string, state: Json, baseAt: Option<nat>,
                       now: nat): Result<DB, Error>
  {
    if IsStale(env, db, kind, op, target, baseAt) then Err(StaleBase)
    else if kind == Bundle then ApplyBundle(env, db, state, now)
    else ApplySingle(env, db, kind, op, target, state, now, 0)
  }

  // ---- hand-offs ----

  function SlotTaken(c: Children, h: HandOff): Children {
    var ranks := if h.ctype in c.lists then c.lists[h.ctype] else map[];
    c.(lists := c.lists[h.ctype := ranks[h.rank := Contact(h.ctype, h.name, h.id)]])
  }

  // Giving the slot; a resource is found by its name.
  ghost function SlotHandedOver(db: DB, h: HandOff): Option<DB> {
    if h.kind == Resource then
      match Named(db.rows, Resource, h.entity)
      case None => None
      case Some(id) =>
        var c := if id in db.children then db.children[id] else Children(map[], map[]);
        Some(db.(children := db.children[id := SlotTaken(c, h)]))
    else Some(db.(contacts := SlotGiven(db.contacts, h.kind, h.entity, h.ctype, h.rank, h.name, h.id)))
  }

  ghost function Decided(db: DB, i: nat, accept: bool): DB {
    if i >= |db.handOffs| || db.handOffs[i].decision != Waiting then db
    else if !accept then db.(handOffs := db.handOffs[i := db.handOffs[i].(decision := Refused)])
    else
      match SlotHandedOver(db, db.handOffs[i])
      case None => db
      case Some(after) => after.(handOffs := db.handOffs[i := db.handOffs[i].(decision := Accepted)])
  }
}
