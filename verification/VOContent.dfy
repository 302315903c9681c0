/**
 What a VO proposal leaves to be read back from the file and the row it writes, and when it is accepted.
 */
module VOContent {
  import opened Wrappers
  import opened Json
  import opened Kinds
  import opened VODocument
  import opened VOParents
  import opened VOProposals
  import opened VOSafety

  // The document of a VO's file; none for a VO that is not there or cannot be read.
  function DocOf(vos: VOs, name: string): Option<Fields> {
    if name in vos && DocFromRaw(vos[name].raw).Ok? then Some(DocFromRaw(vos[name].raw).value) else None
  }

  function StoredDoc(vos: VOs, name: string): Fields {
    match DocOf(vos, name)
    case Some(doc) => doc
    case None => map[]
  }

  // Both documents have the key with the same value, or neither has it.
  ghost predicate Agree(a: Fields, b: Fields, k: string) {
    (k in a <==> k in b) && (k in a ==> JsonEqual(a[k], b[k]))
  }

  // The payload has the key, and not with a null that asks for its removal.
  predicate IsMeant(doc: Fields, was: Fields, k: string) {
    k in doc && (doc[k] == Null ==> k in was && was[k] == Null)
  }

  // What is written under a key of which the payload says nothing special: what was submitted, no nulls
  // but those that were stored.
  ghost predicate Submitted(read: Fields, doc: Fields, was: Fields, k: string) {
    && (k in read <==> IsMeant(doc, was, k))
    && (k in read ==> JsonEqual(read[k], doc[k]))
  }

  // Under ParentVO: the stored block if it names the same VO, otherwise id and name of the live VO named.
  ghost predicate ParentWritten(vos: VOs, read: Fields, doc: Fields, was: Fields) {
    && ("ParentVO" in read <==> IsMeant(doc, was, "ParentVO"))
    && ("ParentVO" in read ==>
          var p := ParentName(doc);
          if p == ParentName(was) then "ParentVO" in was && JsonEqual(read["ParentVO"], was["ParentVO"])
          else p in vos && JsonEqual(read["ParentVO"], Obj(map["ID" := Int(vos[p].id), "Name" := Str(p)])))
  }

  // The file of the VO says what was submitted; its ID is the stored one.
  ghost predicate SaysWhatWasSubmitted(vos: VOs, read: Fields, doc: Fields, was: Fields, op: Operation) {
    && ParentWritten(vos, read, doc, was)
    && (op == Update ==> Agree(read, was, "ID"))
    && forall k :: k != "ParentVO" && !(op == Update && k == "ID") ==> Submitted(read, doc, was, k)
  }

  // The columns of a row repeat what its file says: the ID, cut to an integer, or the hash of the name if
  // there is none; and whether the VO is disabled.
  ghost predicate ColumnsFollowFile(env: VOEnv, name: string, row: VORow, read: Fields) {
    && row.id == (if "ID" !in read then env.genId(name)
                  else match read["ID"]
                       case Int(n) => n
                       case Float(r) => if r < 0.0 then -((-r).Floor) else r.Floor
                       case _ => env.genId(name))
    && (row.disable <==> "Disable" in read && read["Disable"] == Bool(true))
  }

  // What a check makes of a document: only an unchanged parent block, or a new one, is replaced.
  ghost predicate IsChecked(vos: VOs, final: Fields, d: Fields, was: Fields) {
    && final.Keys == d.Keys && (forall k :: k in d && k != "ParentVO" ==> final[k] == d[k])
    && ("ParentVO" in d ==>
          var p := ParentName(d);
          if p == ParentName(was) then "ParentVO" in was && final["ParentVO"] == was["ParentVO"]
          else p in vos && final["ParentVO"] == Obj(map["ID" := Int(vos[p].id), "Name" := Str(p)]))
  }

  ghost predicate SameReading(read: Fields, final: Fields) {
    read.Keys == final.Keys && forall k :: k in final ==> JsonEqual(read[k], final[k])
  }

  // The document to be checked is the submitted one without nulls; for an update, with the stored ID.
  ghost predicate IsFiltered(d: Fields, doc: Fields, was: Fields, op: Operation) {
    && (forall k :: !(op == Update && k == "ID") ==>
          && (k in d <==> IsMeant(doc, was, k))
          && (k in d ==> d[k] == doc[k]))
    && (op == Update ==> ("ID" in d <==> "ID" in was) && ("ID" in d ==> d["ID"] == was["ID"]))
  }

  lemma {:induction false} CheckedDoc(env: VOEnv, vos: VOs, name: string, d: Fields, prev: Fields)
    requires CheckDoc(env, vos, name, d, prev).Ok?
    ensures IsChecked(vos, CheckDoc(env, vos, name, d, prev).value, d, prev)
  {}

  lemma {:induction false} WrittenRow(env: VOEnv, name: string, raw: Raw, final: Fields, now: nat)
    requires PatchRaw(raw, final).Ok?
    ensures var row := RowOf(env, name, PatchRaw(raw, final).value, now);
      && row.version == now && DocFromRaw(row.raw).Ok?
      && var read := DocFromRaw(row.raw).value;
         SameReading(read, final) && ColumnsFollowFile(env, name, row, read)
  {
    WrittenDoc(raw, final);
  }

  lemma {:induction false} ReadSaysSubmitted(vos: VOs, read: Fields, final: Fields, d: Fields, doc: Fields, was: Fields,
                                             op: Operation)
    requires SameReading(read, final) && IsChecked(vos, final, d, was) && IsFiltered(d, doc, was, op)
    ensures SaysWhatWasSubmitted(vos, read, doc, was, op)
  {
    hide ParentName, ParentWritten;
    ParentReadsBack(vos, read, final, d, doc, was, op);
    assert op == Update && "ID" in final ==> JsonEqual(read["ID"], final["ID"]);
  }

  lemma {:induction false} ParentReadsBack(vos: VOs, read: Fields, final: Fields, d: Fields, doc: Fields, was: Fields,
                                           op: Operation)
    requires SameReading(read, final) && IsChecked(vos, final, d, was) && IsFiltered(d, doc, was, op)
    ensures ParentWritten(vos, read, doc, was)
  {
    hide JsonEqual;
    if "ParentVO" in d {
      assert d["ParentVO"] == doc["ParentVO"];
      SameParentName(d, doc);
      assert JsonEqual(read["ParentVO"], final["ParentVO"]);
    }
  }

  lemma SameParentName(a: Fields, b: Fields)
    requires "ParentVO" in a && "ParentVO" in b && a["ParentVO"] == b["ParentVO"]
    ensures ParentName(a) == ParentName(b)
  {}

  lemma {:induction false} Filtered(doc: Fields, was: Fields)
    ensures IsFiltered(WithoutNulls(doc, was), doc, was, Create)
    ensures IsFiltered(WithID(WithoutNulls(doc, was), was), doc, was, Update)
  {}

  // The table once the document has been checked and written.
  ghost predicate ReadsBack(env: VOEnv, vos: VOs, after: VOs, name: string, doc: Fields, op: Operation, now: nat) {
    && DocOf(after, name).Some? && after - {name} == vos - {name}
    && SaysWhatWasSubmitted(vos, DocOf(after, name).value, doc, StoredDoc(vos, name), op)
    && ColumnsFollowFile(env, name, after[name], DocOf(after, name).value) && after[name].version == now
  }

  lemma {:induction false} RowReadsBack(env: VOEnv, vos: VOs, name: string, raw: Raw, d: Fields, doc: Fields,
                                        op: Operation, now: nat)
    requires var was := StoredDoc(vos, name); CheckDoc(env, vos, name, d, was).Ok? && IsFiltered(d, doc, was, op)
    requires PatchRaw(raw, CheckDoc(env, vos, name, d, StoredDoc(vos, name)).value).Ok?
    ensures var final := CheckDoc(env, vos, name, d, StoredDoc(vos, name)).value;
      ReadsBack(env, vos, vos[name := RowOf(env, name, PatchRaw(raw, final).value, now)], name, doc, op, now)
  {
    hide SaysWhatWasSubmitted, ColumnsFollowFile, IsFiltered, IsChecked, SameReading, CheckDoc, PatchRaw;
    var was := StoredDoc(vos, name);
    var final := CheckDoc(env, vos, name, d, was).value;
    CheckedDoc(env, vos, name, d, was);
    WrittenRow(env, name, raw, final, now);
    ReadSaysSubmitted(vos, DocFromRaw(PatchRaw(raw, final).value).value, final, d, doc, was, op);
  }

  lemma {:induction false} UpdateReadsBack(env: VOEnv, vos: VOs, target: string, name: string, doc: Fields, now: nat)
    requires UpdateVO(env, vos, target, name, doc, now).Ok?
    ensures name == target && DocOf(vos, name).Some?
    ensures ReadsBack(env, vos, UpdateVO(env, vos, target, name, doc, now).value, name, doc, Update, now)
  {
    hide ReadsBack, CheckDoc, PatchRaw;
    var cur := StoredDoc(vos, name);
    Filtered(doc, cur);
    RowReadsBack(env, vos, name, vos[name].raw, WithID(WithoutNulls(doc, cur), cur), doc, Update, now);
  }

  lemma {:induction false} CreateReadsBack(env: VOEnv, vos: VOs, name: string, doc: Fields, now: nat)
    requires CreateVO(env, vos, name, doc, now).Ok?
    ensures name !in vos
    ensures ReadsBack(env, vos, CreateVO(env, vos, name, doc, now).value, name, doc, Create, now)
  {
    hide ReadsBack, CheckDoc, Patch;
    Filtered(doc, map[]);
    RowReadsBack(env, vos, name, Empty, WithoutNulls(doc, map[]), doc, Create, now);
  }

  /** A VO that is created or updated reads back as it was submitted: every key of the payload's document
      that is not null, and no other, with the submitted value; the ID of an existing VO and an unchanged
      parent as they were stored, a new parent with the id it has in its own row.  The row's columns repeat
      its file, and no other VO changes. */
  lemma {:induction false} VOIsReadBack(env: VOEnv, vos: VOs, op: Operation, target: string, proposed: Json, now: nat)
    requires op != Delete && ApplyVO(env, vos, op, target, proposed, now).Ok?
    ensures var after, name := ApplyVO(env, vos, op, target, proposed, now).value, ProposedName(proposed).value;
      && (op == Update <==> name in vos) && (op == Update ==> name == target && DocOf(vos, name).Some?)
      && ReadsBack(env, vos, after, name, ProposedDoc(proposed).value, op, now)
  {
    var name, doc := ProposedName(proposed).value, ProposedDoc(proposed).value;
    if op == Update {
      UpdateReadsBack(env, vos, target, name, doc, now);
    } else {
      CreateReadsBack(env, vos, name, doc, now);
    }
  }

  // ---- acceptance ----

  // The parent that a document asks for is the one it had, or another live VO that closes no cycle.
  ghost predicate ParentAllowed(vos: VOs, name: string, doc: Fields, was: Fields) {
    IsMeant(doc, was, "ParentVO") ==>
      var p := ParentName(doc);
      p != "" && (p == ParentName(was) || (p in vos && p != name && Acyclic(ParentMap(vos)[name := p])))
  }

  ghost predicate ContactsAllowed(env: VOEnv, doc: Fields, was: Fields) {
    env.contactsOK(if "Contacts" in doc then doc["Contacts"] else Null, if "Contacts" in was then was["Contacts"]
      else Null)
  }

  lemma {:induction false} CheckedIff(env: VOEnv, vos: VOs, name: string, doc: Fields, d: Fields, was: Fields)
    requires Acyclic(ParentMap(vos)) && At(d, "Contacts") == At(doc, "Contacts")
    requires "ParentVO" in d <==> IsMeant(doc, was, "ParentVO")
    requires "ParentVO" in d ==> d["ParentVO"] == doc["ParentVO"]
    ensures CheckDoc(env, vos, name, d, was).Ok? <==>
      ParentAllowed(vos, name, doc, was) && ContactsAllowed(env, doc, was)
  {
    var p := ParentName(d);
    if "ParentVO" in d && p in vos && p != name {
      WalkFindsCycles(ParentMap(vos), name, p);
    }
  }

  /** A VO is created exactly when the payload is a name that can be a file name and is not taken, and a
      document whose parent, if it has one, is a live VO that closes no cycle and whose contacts pass the
      check.  It is updated exactly when the payload keeps its name, its file can be read and is a mapping,
      its parent is the old one or such a VO, and its contacts pass. */
  lemma {:induction false} VOAcceptedExactlyWhen(env: VOEnv, vos: VOs, op: Operation, target: string, proposed: Json,
                                                 now: nat)
    requires op != Delete && Acyclic(ParentMap(vos))
    ensures ApplyVO(env, vos, op, target, proposed, now).Ok? <==>
      && ProposedName(proposed).Some? && ProposedDoc(proposed).Some?
      && var name, doc := ProposedName(proposed).value, ProposedDoc(proposed).value;
         name != ""
         && ParentAllowed(vos, name, doc, StoredDoc(vos, name)) && ContactsAllowed(env, doc, StoredDoc(vos, name))
         && (if op == Update then name == target && DocOf(vos, name).Some? && !vos[name].raw.NotMapping?
             else ValidName(name) && name !in vos)
  {
    if ProposedName(proposed).Some? && ProposedDoc(proposed).Some? {
      var name, doc := ProposedName(proposed).value, ProposedDoc(proposed).value;
      var was := StoredDoc(vos, name);
      CheckedIff(env, vos, name, doc, WithoutNulls(doc, was), was);
      CheckedIff(env, vos, name, doc, WithID(WithoutNulls(doc, was), was), was);
    }
  }

  // What is wrong with a creation or update that is refused with this error.
  ghost predicate Fault(env: VOEnv, vos: VOs, op: Operation, target: string, proposed: Json, e: VOError) {
    if ProposedName(proposed) == None then e == BadPayload
    else if ProposedName(proposed) == Some("") then e == NoName
    else if ProposedDoc(proposed) == None then e == BadDocument
    else
      var name, doc := ProposedName(proposed).value, ProposedDoc(proposed).value;
      if op == Update then UpdateFault(env, vos, target, name, doc, e) else CreateFault(env, vos, name, doc, e)
  }

  ghost predicate UpdateFault(env: VOEnv, vos: VOs, target: string, name: string, doc: Fields, e: VOError) {
    match e
    case Unreadable => target in vos && DocOf(vos, target) == None
    case NameFixed => name != target
    case NotFound => target !in vos
    case Unwritable => target in vos && vos[target].raw.NotMapping?
    case _ => DocFault(env, vos, name, doc, StoredDoc(vos, name), e)
  }

  ghost predicate CreateFault(env: VOEnv, vos: VOs, name: string, doc: Fields, e: VOError) {
    match e
    case BadName => !ValidName(name)
    case Exists => name in vos
    case _ => DocFault(env, vos, name, doc, map[], e)
  }

  ghost predicate DocFault(env: VOEnv, vos: VOs, name: string, doc: Fields, was: Fields, e: VOError) {
    match e
    case NoParentNamed => "ParentVO" in doc && ParentName(doc) == ""
    case OwnParent => "ParentVO" in doc && ParentName(doc) == name
    case ParentMissing => "ParentVO" in doc && ParentName(doc) !in vos
    case ParentCycle => ParentName(doc) in vos && !Acyclic(ParentMap(vos)[name := ParentName(doc)])
    case UnknownContact => !ContactsAllowed(env, doc, was)
    case _ => false
  }

  lemma {:induction false} CheckFaults(env: VOEnv, vos: VOs, name: string, doc: Fields, d: Fields, was: Fields)
    requires Acyclic(ParentMap(vos)) && CheckDoc(env, vos, name, d, was).Err?
    requires "ParentVO" in d ==> "ParentVO" in doc && d["ParentVO"] == doc["ParentVO"]
    requires At(d, "Contacts") == At(doc, "Contacts")
    ensures DocFault(env, vos, name, doc, was, CheckDoc(env, vos, name, d, was).error)
  {
    if "ParentVO" in d {
      var p := ParentName(d);
      SameParentName(d, doc);
      if p in vos && p != name {
        WalkFindsCycles(ParentMap(vos), name, p);
      }
    }
  }

  lemma {:induction false} UpdateFaults(env: VOEnv, vos: VOs, target: string, name: string, doc: Fields, now: nat)
    requires Acyclic(ParentMap(vos)) && UpdateVO(env, vos, target, name, doc, now).Err?
    ensures UpdateFault(env, vos, target, name, doc, UpdateVO(env, vos, target, name, doc, now).error)
  {
    hide CheckDoc, PatchRaw, Acyclic;
    var was := StoredDoc(vos, name);
    var d := WithID(WithoutNulls(doc, was), was);
    if name == target && DocOf(vos, name).Some? {
      if CheckDoc(env, vos, name, d, was).Err? {
        CheckFaults(env, vos, name, doc, d, was);
      } else {
        PatchableExactlyWhen(vos[target].raw, CheckDoc(env, vos, name, d, was).value);
      }
    }
  }

  lemma {:induction false} CreateFaults(env: VOEnv, vos: VOs, name: string, doc: Fields, now: nat)
    requires Acyclic(ParentMap(vos)) && CreateVO(env, vos, name, doc, now).Err?
    ensures CreateFault(env, vos, name, doc, CreateVO(env, vos, name, doc, now).error)
  {
    hide CheckDoc, Patch, Acyclic;
    if CheckDoc(env, vos, name, WithoutNulls(doc, map[]), map[]).Err? {
      CheckFaults(env, vos, name, doc, WithoutNulls(doc, map[]), map[]);
    }
  }

  /** The error with which a creation or update of a VO is refused is true of it. */
  lemma {:induction false} VOErrorsAreTrue(env: VOEnv, vos: VOs, op: Operation, target: string, proposed: Json,
                                           now: nat)
    requires op != Delete && Acyclic(ParentMap(vos)) && ApplyVO(env, vos, op, target, proposed, now).Err?
    ensures Fault(env, vos, op, target, proposed, ApplyVO(env, vos, op, target, proposed, now).error)
  {
    hide UpdateVO, CreateVO, UpdateFault, CreateFault;
    if ProposedName(proposed).Some? && ProposedName(proposed) != Some("") && ProposedDoc(proposed).Some? {
      var name, doc := ProposedName(proposed).value, ProposedDoc(proposed).value;
      if op == Update {
        UpdateFaults(env, vos, target, name, doc, now);
      } else {
        CreateFaults(env, vos, name, doc, now);
      }
    }
  }
}
