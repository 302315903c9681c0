/**
 The topology tables and the statements that change them (internal/db).  A row is live until it is
 soft-deleted; `version` stands for its updated_at.
 */
module Tables {
  import opened Wrappers
  import opened Json
  import opened Kinds

  datatype Key = Key(kind: Kind, id: int)

  // What an update overwrites.  `parent` is the id of the row one level up, `center` a resource
  // group's support center, `institution` a facility's, and `uses` the VOs a resource allows or a
  // project is sponsored by.
  datatype Content = Content(name: string, parent: int, institution: string, center: string, uses: set<string>,
    data: Fields)

  datatype Row = Row(content: Content, live: bool, version: nat)

  type Rows = map<Key, Row>

  datatype TableError = DuplicateName | DuplicateKey

  // ---- reading ----

  predicate IsNamed(rows: Rows, key: Key, kind: Kind, name: string) {
    key in rows && key.kind == kind && rows[key].live && rows[key].content.name == name
  }

  // The id of the live row of that name.
  ghost function Named(rows: Rows, kind: Kind, name: string): (id: Option<int>)
    ensures id.Some? ==> IsNamed(rows, Key(kind, id.value), kind, name)
    ensures id == None ==> forall key :: !IsNamed(rows, key, kind, name)
  {
    if exists key :: IsNamed(rows, key, kind, name) then
      var key :| IsNamed(rows, key, kind, name);
      Some(key.id)
    else None
  }

  // The unique indexes on the names of live rows.
  ghost predicate UniqueNames(rows: Rows) {
    forall a, b {:trigger SameName(rows, a, b)} :: a in rows && b in rows && SameName(rows, a, b) ==> a == b
  }

  predicate SameName(rows: Rows, a: Key, b: Key)
    requires a in rows && b in rows
  {
    a.kind == b.kind && rows[a].live && rows[b].live && rows[a].content.name == rows[b].content.name
  }

  lemma NamedIs(rows: Rows, key: Key, kind: Kind, name: string)
    requires UniqueNames(rows) && IsNamed(rows, key, kind, name)
    ensures Named(rows, kind, name) == Some(key.id)
  {
    assert SameName(rows, key, Key(kind, Named(rows, kind, name).value));
  }

  function ParentKind(kind: Kind): Option<Kind> {
    match kind
    case Site => Some(Facility)
    case ResourceGroup => Some(Site)
    case Resource => Some(ResourceGroup)
    case _ => None
  }

  // A live row whose parent row, live or not, has this kind and name.
  predicate IsChildOf(rows: Rows, key: Key, kind: Kind, name: string) {
    && key in rows && rows[key].live && ParentKind(key.kind) == Some(kind)
    && Key(kind, rows[key].content.parent) in rows
    && rows[Key(kind, rows[key].content.parent)].content.name == name
  }

  ghost predicate HasChildren(rows: Rows, kind: Kind, name: string) {
    exists key :: IsChildOf(rows, key, kind, name)
  }

  predicate UsesCenter(rows: Rows, key: Key, name: string) {
    key in rows && key.kind == ResourceGroup && rows[key].live && name != "" && rows[key].content.center == name
  }

  predicate VOInUse(rows: Rows, vo: string) {
    exists key :: key in rows && rows[key].live && key.kind in {Resource, Project} && vo in rows[key].content.uses
  }

  // ---- writing ----

  // INSERT: the key must be new and the name free.
  ghost function Added(rows: Rows, key: Key, content: Content, now: nat): Result<Rows, TableError> {
    if key in rows then Err(DuplicateKey)
    else if Named(rows, key.kind, content.name).Some? then Err(DuplicateName)
    else Ok(rows[key := Row(content, true, now)])
  }

  // UPDATE of one live row.
  ghost function Changed(rows: Rows, key: Key, content: Content, now: nat): Result<Rows, TableError>
    requires key in rows && rows[key].live
  {
    if content.name != rows[key].content.name && Named(rows, key.kind, content.name).Some? then Err(DuplicateName)
    else Ok(rows[key := Row(content, true, now)])
  }

  // UPDATE ... WHERE name = target: no such row is no error.
  ghost function ChangedByName(rows: Rows, kind: Kind, target: string, content: Content,
                               now: nat): Result<Rows, TableError>
  {
    match Named(rows, kind, target)
    case None => Ok(rows)
    case Some(id) => Changed(rows, Key(kind, id), content, now)
  }

  function Buried(rows: Rows, key: Key): Rows {
    if key in rows && rows[key].live then rows[key := rows[key].(live := false)] else rows
  }

  ghost function BuriedByName(rows: Rows, kind: Kind, name: string): Rows {
    match Named(rows, kind, name)
    case None => rows
    case Some(id) => Buried(rows, Key(kind, id))
  }

  // A support center's row goes to its id, reviving a deleted one that has it.
  ghost function CenterAdded(rows: Rows, id: int, content: Content, now: nat): Result<Rows, TableError> {
    if Named(rows, SupportCenter, content.name).Some? then Err(DuplicateName)
    else Ok(rows[Key(SupportCenter, id) := Row(content, true, now)])
  }

  function InCenter(row: Row, name: string, now: nat): Row {
    Row(row.content.(center := name), row.live, now)
  }

  // Every live group that used a center now uses it under its new name.
  function CenterRenamed(rows: Rows, name: string, newName: string, now: nat): Rows {
    map key | key in rows :: if UsesCenter(rows, key, name) then InCenter(rows[key], newName, now) else rows[key]
  }

  // ---- what every statement keeps ----

  // Every row has its parent's row, and a live row a live parent.
  ghost predicate ParentsExist(rows: Rows) {
    forall key {:trigger rows[key].content.parent} :: key in rows && ParentKind(key.kind).Some? ==>
      var up := Key(ParentKind(key.kind).value, rows[key].content.parent);
      up in rows && (rows[key].live ==> rows[up].live)
  }

  ghost predicate Sound(rows: Rows) {
    UniqueNames(rows) && ParentsExist(rows)
  }

  // A row may be written over `key` with `content`: its name is free and its parent live.
  ghost predicate Fits(rows: Rows, key: Key, content: Content) {
    && (forall other :: IsNamed(rows, other, key.kind, content.name) ==> other == key)
    && (ParentKind(key.kind).Some? ==>
          var up := Key(ParentKind(key.kind).value, content.parent); up in rows && rows[up].live)
  }

  lemma {:induction false} WriteKeepsSound(rows: Rows, key: Key, content: Content, now: nat)
    requires Sound(rows) && Fits(rows, key, content)
    ensures Sound(rows[key := Row(content, true, now)])
  {
    var after := rows[key := Row(content, true, now)];
    forall a, b | a in after && b in after && SameName(after, a, b) ensures a == b {
      if a == key && b != key {
        assert IsNamed(rows, b, key.kind, content.name);
      } else if b == key && a != key {
        assert IsNamed(rows, a, key.kind, content.name);
      } else if a != key {
        assert SameName(rows, a, b);
      }
    }
  }

  lemma {:induction false} BuryKeepsSound(rows: Rows, key: Key)
    requires Sound(rows)
    requires forall child :: child in rows && rows[child].live && ParentKind(child.kind) == Some(key.kind)
               ==> rows[child].content.parent != key.id
    ensures Sound(Buried(rows, key))
  {
    var after := Buried(rows, key);
    forall a, b | a in after && b in after && SameName(after, a, b) ensures a == b {
      assert SameName(rows, a, b);
    }
  }

  // The delete guard: without a live child under the name, nothing is orphaned.
  lemma {:induction false} GuardedBuryKeepsSound(rows: Rows, kind: Kind, name: string)
    requires Sound(rows) && (!HasChildren(rows, kind, name) || forall k :: ParentKind(k) != Some(kind))
    ensures Sound(BuriedByName(rows, kind, name))
  {
    match Named(rows, kind, name)
    case None =>
    case Some(id) =>
      forall child | child in rows && rows[child].live && ParentKind(child.kind) == Some(kind)
        ensures rows[child].content.parent != id
      {
        assert !IsChildOf(rows, child, kind, name);
      }
      BuryKeepsSound(rows, Key(kind, id));
  }

  lemma {:induction false} CenterRenameKeepsSound(rows: Rows, name: string, newName: string, now: nat)
    requires Sound(rows)
    ensures Sound(CenterRenamed(rows, name, newName, now))
  {
    var after := CenterRenamed(rows, name, newName, now);
    forall a, b | a in after && b in after && SameName(after, a, b) ensures a == b {
      assert SameName(rows, a, b);
    }
  }
}
