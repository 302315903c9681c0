/**
 Applying VO proposals (internal/handlers/vos.go): the checks on a VO document, the walk up the
 parents, the write-back, and the guarded delete.
 */
module VOProposals {
  import opened Wrappers
  import opened Json
  import opened Kinds
  import opened VODocument
  import opened VOParents

  // One live row of the vos table.
  datatype VORow = VORow(raw: Raw, id: int, disable: bool, version: nat)

  type VOs = map<string, VORow>

  datatype VOError =
    | BadPayload | NoName | BadDocument | Unreadable | NameFixed | NotFound | BadName
    | NoParentNamed | OwnParent | ParentMissing | ParentCycle | UnknownContact | Unwritable | Exists | InUse

  // What lies outside the vos table: the hash that gives a VO without an ID its id, the check of
  // contacts against the known people, and whether resources or projects refer to a VO.
  datatype VOEnv = VOEnv(genId: string -> int, contactsOK: (Json, Json) -> bool, inUse: string -> bool)

  // ---- reading documents ----

  function At(doc: Fields, key: string): Json {
    if key in doc then doc[key] else Null
  }

  // The name of the VO a document gives as its parent, or "".
  function ParentName(doc: Fields): string {
    match At(doc, "ParentVO")
    case Obj(p) => (match At(p, "Name") case Str(s) => s case _ => "")
    case _ => ""
  }

  function ParentOf(row: VORow): string {
    match DocFromRaw(row.raw)
    case Ok(doc) => ParentName(doc)
    case Err(_) => ""
  }

  function ParentMap(vos: VOs): Parents {
    map n | n in vos && ParentOf(vos[n]) != "" :: ParentOf(vos[n])
  }

  // An explicit ID, read into an integer: a fractional one is cut towards zero.
  function IDOf(j: Json): Option<int> {
    match j
    case Int(n) => Some(n)
    case Float(r) => Some(if r < 0.0 then -(-r).Floor else r.Floor)
    case _ => None
  }

  function HeadID(raw: Raw): Option<int> {
    match DocFromRaw(raw)
    case Ok(doc) => IDOf(At(doc, "ID"))
    case Err(_) => None
  }

  function HeadDisable(raw: Raw): bool {
    match DocFromRaw(raw)
    case Ok(doc) => At(doc, "Disable") == Bool(true)
    case Err(_) => false
  }

  function RowID(env: VOEnv, name: string, raw: Raw): int {
    match HeadID(raw)
    case Some(id) => id
    case None => env.genId(name)
  }

  function RowOf(env: VOEnv, name: string, raw: Raw, now: nat): VORow {
    VORow(raw, RowID(env, name, raw), HeadDisable(raw), now)
  }

  // ---- the payload ----

  function ProposedName(p: Json): Option<string> {
    match p
    case Null => Some("")
    case Obj(f) => (match At(f, "name") case Null => Some("") case Str(s) => Some(s) case _ => None)
    case _ => None
  }

  function ProposedDoc(p: Json): Option<Fields> {
    match p
    case Obj(f) => (match At(f, "vo") case Obj(doc) => Some(CanonFields(doc)) case _ => None)
    case _ => None
  }

  // A null asks for the key to be removed, unless the stored document has that same null.
  predicate Removes(doc: Fields, cur: Fields, k: string) {
    k in doc && doc[k] == Null && !(k in cur && cur[k] == Null)
  }

  function WithoutNulls(doc: Fields, cur: Fields): Fields {
    map k | k in doc && !Removes(doc, cur, k) :: doc[k]
  }

  // A VO's ID is never edited.
  function WithID(doc: Fields, cur: Fields): Fields {
    if "ID" in cur then doc["ID" := cur["ID"]] else doc - {"ID"}
  }

  // ---- checking a document ----

  function CheckContacts(env: VOEnv, doc: Fields, prev: Fields): Result<Fields, VOError> {
    if env.contactsOK(At(doc, "Contacts"), At(prev, "Contacts")) then Ok(doc) else Err(UnknownContact)
  }

  // The block a new parent is written as.
  function ParentBlock(vos: VOs, parent: string): Json
    requires parent in vos
  {
    Obj(map["ID" := Int(vos[parent].id), "Name" := Str(parent)])
  }

  // The document as it will be written, or what is wrong with it.
  function CheckDoc(env: VOEnv, vos: VOs, name: string, doc: Fields, prev: Fields): Result<Fields, VOError> {
    if "ParentVO" !in doc then CheckContacts(env, doc, prev)
    else
      var parent := ParentName(doc);
      if parent == "" then Err(NoParentNamed)
      else if parent == ParentName(prev) then CheckContacts(env, doc["ParentVO" := At(prev, "ParentVO")], prev)
      else if parent == name then Err(OwnParent)
      else if parent !in vos then Err(ParentMissing)
      else if !Walk(ParentMap(vos), parent, {name, parent}) then Err(ParentCycle)
      else CheckContacts(env, doc["ParentVO" := ParentBlock(vos, parent)], prev)
  }

  predicate NameChar(c: char) {
    'a' <= c <= 'z' || 'A' <= c <= 'Z' || '0' <= c <= '9'
  }

  // What a VO's file name may be.
  predicate ValidName(name: string) {
    name != "" && NameChar(name[0]) && forall i :: 0 < i < |name| ==> NameChar(name[i]) || name[i] in "_.-"
  }

  // ---- what applying a proposal does to the table ----

  ghost function ApplyVO(env: VOEnv, vos: VOs, op: Operation, target: string, proposed: Json,
                         now: nat): Result<VOs, VOError>
  {
    if op == Delete then DeleteVO(env, vos, target)
    else
      match ProposedName(proposed)
      case None => Err(BadPayload)
      case Some(name) =>
        if name == "" then Err(NoName)
        else
          match ProposedDoc(proposed)
          case None => Err(BadDocument)
          case Some(doc) =>
            if op == Update then UpdateVO(env, vos, target, name, doc, now) else CreateVO(env, vos, name, doc, now)
  }

  ghost function UpdateVO(env: VOEnv, vos: VOs, target: string, name: string, doc: Fields,
                          now: nat): Result<VOs, VOError>
  {
    if target in vos && DocFromRaw(vos[target].raw).Err? then Err(Unreadable)
    else if name != target then Err(NameFixed)
    else if target !in vos then Err(NotFound)
    else
      var cur := DocFromRaw(vos[target].raw).value;
      match CheckDoc(env, vos, name, WithID(WithoutNulls(doc, cur), cur), cur)
      case Err(e) => Err(e)
      case Ok(final) =>
        match PatchRaw(vos[target].raw, final)
        case Err(_) => Err(Unwritable)
        case Ok(raw) => Ok(vos[target := RowOf(env, name, raw, now)])
  }

  ghost function CreateVO(env: VOEnv, vos: VOs, name: string, doc: Fields, now: nat): Result<VOs, VOError> {
    if !ValidName(name) then Err(BadName)
    else
      match CheckDoc(env, vos, name, WithoutNulls(doc, map[]), map[])
      case Err(e) => Err(e)
      case Ok(final) =>
        if name in vos then Err(Exists)
        else Ok(vos[name := RowOf(env, name, Mapping(Patch([], final)), now)])
  }

  predicate IsChild(row: VORow, parent: string) {
    match DocFromRaw(row.raw)
    case Ok(doc) => (match At(doc, "ParentVO") case Obj(p) => At(p, "Name") == Str(parent) case _ => false)
    case Err(_) => false
  }

  ghost function DeleteVO(env: VOEnv, vos: VOs, target: string): Result<VOs, VOError> {
    if env.inUse(target) || (exists n :: n in vos && IsChild(vos[n], target)) then Err(InUse)
    else Ok(vos - {target})
  }

  // ---- the code ----

  class VOTable {
    const env: VOEnv
    var vos: VOs

    constructor (env: VOEnv, vos: VOs)
      ensures this.env == env && this.vos == vos
    {
      this.env, this.vos := env, vos;
    }

    method Apply(op: Operation, target: string, proposed: Json, now: nat) returns (err: Option<VOError>)
      modifies this`vos
      ensures match ApplyVO(env, old(vos), op, target, proposed, now)
              case Ok(after) => err == None && vos == after
              case Err(e) => err == Some(e) && vos == old(vos)
    {
      if op == Delete {
        err := Remove(target);
        return;
      }
      var pname := ProposedName(proposed);
      if pname.None? {
        return Some(BadPayload);
      }
      var name := pname.value;
      if name == "" {
        return Some(NoName);
      }
      var pdoc := ProposedDoc(proposed);
      if pdoc.None? {
        return Some(BadDocument);
      }
      var curDoc: Fields := map[];
      if op == Update && target in vos {
        var read := DocFromRaw(vos[target].raw);
        if read.Err? {
          return Some(Unreadable);
        }
        curDoc := read.value;
      }
      var doc := DropNulls(pdoc.value, curDoc);
      if op == Update {
        if name != target {
          return Some(NameFixed);
        }
        if target !in vos {
          return Some(NotFound);
        }
        if "ID" in curDoc {
          doc := doc["ID" := curDoc["ID"]];
        } else {
          doc := doc - {"ID"};
        }
        var checked := CheckVODoc(name, doc, curDoc);
        if checked.Err? {
          return Some(checked.error);
        }
        var patched := PatchVOYAML(vos[target].raw, checked.value);
        if patched.Err? {
          return Some(Unwritable);
        }
        vos := vos[target := RowOf(env, name, patched.value, now)];
        return None;
      }
      if !ValidName(name) {
        return Some(BadName);
      }
      var checked := CheckVODoc(name, doc, map[]);
      if checked.Err? {
        return Some(checked.error);
      }
      var entries := NewVOYAML(checked.value);
      if name in vos {
        return Some(Exists);
      }
      vos := vos[name := RowOf(env, name, Mapping(entries), now)];
      return None;
    }

    method DropNulls(proposed: Fields, cur: Fields) returns (doc: Fields)
      ensures doc == WithoutNulls(proposed, cur)
    {
      doc := proposed;
      var todo := proposed.Keys;
      while todo != {}
        invariant todo <= proposed.Keys
        invariant doc == map k | k in proposed && (k in todo || !Removes(proposed, cur, k)) :: proposed[k]
        decreases todo
      {
        var k :| k in todo;
        todo := todo - {k};
        if proposed[k] != Null {
          continue;
        }
        if k in cur && cur[k] == Null {
          continue;
        }
        doc := doc - {k};
      }
    }

    method CheckVODoc(name: string, doc: Fields, prev: Fields) returns (r: Result<Fields, VOError>)
      ensures r == CheckDoc(env, vos, name, doc, prev)
    {
      var checked := doc;
      if "ParentVO" in doc {
        var parent := ParentName(doc);
        if parent == "" {
          return Err(NoParentNamed);
        }
        if parent == ParentName(prev) {
          return CheckContacts(env, doc["ParentVO" := At(prev, "ParentVO")], prev);
        }
        if parent == name {
          return Err(OwnParent);
        }
        if parent !in vos {
          return Err(ParentMissing);
        }
        var seen := {name, parent};
        var cur := parent;
        ghost var parents := ParentMap(vos);
        while true
          invariant cur in vos
          invariant Walk(parents, cur, seen) == Walk(parents, parent, {name, parent})
          decreases vos.Keys - seen
        {
          var up := ParentOf(vos[cur]);
          if up == "" {
            break;
          }
          if up in seen {
            return Err(ParentCycle);
          }
          seen := seen + {up};
          if up !in vos {
            break;
          }
          cur := up;
        }
        checked := doc["ParentVO" := ParentBlock(vos, parent)];
      }
      return CheckContacts(env, checked, prev);
    }

    method Remove(target: string) returns (err: Option<VOError>)
      modifies this`vos
      ensures match DeleteVO(env, old(vos), target)
              case Ok(after) => err == None && vos == after
              case Err(e) => err == Some(e) && vos == old(vos)
      ensures err == None <==> !env.inUse(target) && forall n :: n in old(vos) ==> !IsChild(old(vos)[n], target)
    {
      var kids: set<string> := {};
      var todo := vos.Keys;
      while todo != {}
        invariant todo <= vos.Keys
        invariant kids == set n | n in vos && n !in todo && IsChild(vos[n], target)
        decreases todo
      {
        var n :| n in todo;
        todo := todo - {n};
        if IsChild(vos[n], target) {
          kids := kids + {n};
        }
      }
      assert kids == {} <==> !exists n :: n in vos && IsChild(vos[n], target) by {
        if n :| n in vos && IsChild(vos[n], target) {
          assert n in kids;
        }
      }
      if env.inUse(target) || kids != {} {
        return Some(InUse);
      }
      vos := vos - {target};
      return None;
    }
  }
}
