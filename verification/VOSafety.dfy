/**
 What holds of the VO table in every run of proposals: the parent relation stays acyclic, parents
 stay live, and a VO's stored id never changes.
 */
module VOSafety {
  import opened Wrappers
  import opened Json
  import opened Kinds
  import opened VODocument
  import opened VOParents
  import opened VOProposals

  // ---- what a write leaves to be read ----

  lemma {:induction false} WrittenDoc(raw: Raw, doc: Fields)
    requires PatchRaw(raw, doc).Ok?
    ensures var read := DocFromRaw(PatchRaw(raw, doc).value);
      read.Ok? && read.value.Keys == doc.Keys && forall k :: k in doc ==> JsonEqual(read.value[k], doc[k])
  {
    var es := match raw case Mapping(es) => es case _ => [];
    PatchedSaysDoc(es, doc, Patch(es, doc));
  }

  lemma {:induction false} ParentNameUpToCanon(a: Fields, b: Fields)
    requires a.Keys == b.Keys && forall k :: k in a ==> JsonEqual(a[k], b[k])
    ensures ParentName(a) == ParentName(b)
  {
    if "ParentVO" in a {
      SameParentBlock(a["ParentVO"], b["ParentVO"]);
    }
  }

  lemma {:induction false} SameParentBlock(a: Json, b: Json)
    requires JsonEqual(a, b)
    ensures a.Obj? <==> b.Obj?
    ensures a.Obj? ==> forall s :: At(a.fields, "Name") == Str(s) <==> At(b.fields, "Name") == Str(s)
  {
    if a.Obj? && b.Obj? {
      assert Canon(a).fields.Keys == a.fields.Keys && Canon(b).fields.Keys == b.fields.Keys;
      if "Name" in a.fields {
        assert Canon(a).fields["Name"] == Canon(b).fields["Name"];
      }
    }
  }

  // The parents once `name` is written to say `doc`.
  function WithParent(m: Parents, name: string, parent: string): Parents {
    if parent == "" then m - {name} else m[name := parent]
  }

  lemma {:induction false} ParentsAfterWrite(vos: VOs, name: string, row: VORow, doc: Fields)
    requires DocFromRaw(row.raw).Ok?
    requires var read := DocFromRaw(row.raw).value;
      read.Keys == doc.Keys && forall k :: k in doc ==> JsonEqual(read[k], doc[k])
    ensures ParentMap(vos[name := row]) == WithParent(ParentMap(vos), name, ParentName(doc))
  {
    ParentNameUpToCanon(DocFromRaw(row.raw).value, doc);
    assert ParentOf(row) == ParentName(doc);
    ParentsAfterRow(vos, name, row);
  }

  lemma ParentsAfterRow(vos: VOs, name: string, row: VORow)
    ensures ParentMap(vos[name := row]) == WithParent(ParentMap(vos), name, ParentOf(row))
  {
    hide ParentOf;
  }

  // ---- a checked document ----

  // The stored document of a VO, none for one that is about to be created.
  ghost predicate Stored(vos: VOs, name: string, prev: Fields) {
    if name in vos then DocFromRaw(vos[name].raw) == Ok(prev) else prev == map[]
  }

  // What passes the check names no parent, the parent it had, or a live one reached by no cycle.
  lemma {:induction false} CheckedParent(env: VOEnv, vos: VOs, name: string, doc: Fields, prev: Fields)
    requires CheckDoc(env, vos, name, doc, prev).Ok?
    ensures var final := CheckDoc(env, vos, name, doc, prev).value;
      var p := ParentName(final);
      || p == ""
      || p == ParentName(prev)
      || (p in vos && p != name && Walk(ParentMap(vos), p, {name, p}))
  {
    hide Walk, ParentMap;
  }

  lemma {:induction false} CheckedKeepsAcyclic(env: VOEnv, vos: VOs, name: string, doc: Fields, prev: Fields)
    requires CheckDoc(env, vos, name, doc, prev).Ok?
    requires Acyclic(ParentMap(vos)) && Stored(vos, name, prev)
    ensures Acyclic(WithParent(ParentMap(vos), name, ParentName(CheckDoc(env, vos, name, doc, prev).value)))
  {
    var m := ParentMap(vos);
    var p := ParentName(CheckDoc(env, vos, name, doc, prev).value);
    CheckedParent(env, vos, name, doc, prev);
    if p == "" {
      FewerParentsAcyclic(m, m - {name});
    } else if p == ParentName(prev) {
      assert m[name := p] == m;
    } else {
      WalkFindsCycles(m, name, p);
    }
  }

  /** When no cycle exists yet, a new, live, different parent is refused as a cycle exactly when
      writing it would close one; this covers creating a VO under a name others already give as their
      parent. */
  lemma {:induction false} RefusesExactlyCycles(env: VOEnv, vos: VOs, name: string, doc: Fields, prev: Fields)
    requires Acyclic(ParentMap(vos)) && "ParentVO" in doc
    requires var p := ParentName(doc); p in vos && p != "" && p != name && p != ParentName(prev)
    ensures CheckDoc(env, vos, name, doc, prev) == Err(ParentCycle) <==>
      !Acyclic(ParentMap(vos)[name := ParentName(doc)])
  {
    WalkFindsCycles(ParentMap(vos), name, ParentName(doc));
  }

  // ---- one proposal ----

  // The parents after an update are those of the checked document.
  lemma {:induction false} UpdatedParents(env: VOEnv, vos: VOs, target: string, name: string, doc: Fields, now: nat)
    requires UpdateVO(env, vos, target, name, doc, now).Ok?
    ensures var cur := DocFromRaw(vos[target].raw).value;
      var checked := CheckDoc(env, vos, target, WithID(WithoutNulls(doc, cur), cur), cur);
      && checked.Ok?
      && ParentMap(UpdateVO(env, vos, target, name, doc, now).value)
         == WithParent(ParentMap(vos), target, ParentName(checked.value))
  {
    var cur := DocFromRaw(vos[target].raw).value;
    var final := CheckDoc(env, vos, target, WithID(WithoutNulls(doc, cur), cur), cur).value;
    WrittenDoc(vos[target].raw, final);
    ParentsAfterWrite(vos, target, RowOf(env, name, PatchRaw(vos[target].raw, final).value, now), final);
  }

  lemma {:induction false} CreatedParents(env: VOEnv, vos: VOs, name: string, doc: Fields, now: nat)
    requires CreateVO(env, vos, name, doc, now).Ok?
    ensures var checked := CheckDoc(env, vos, name, WithoutNulls(doc, map[]), map[]);
      && checked.Ok?
      && ParentMap(CreateVO(env, vos, name, doc, now).value)
         == WithParent(ParentMap(vos), name, ParentName(checked.value))
  {
    var final := CheckDoc(env, vos, name, WithoutNulls(doc, map[]), map[]).value;
    WrittenDoc(Empty, final);
    ParentsAfterWrite(vos, name, RowOf(env, name, Mapping(Patch([], final)), now), final);
  }

  lemma {:induction false} UpdateKeepsAcyclic(env: VOEnv, vos: VOs, target: string, name: string, doc: Fields, now: nat)
    requires UpdateVO(env, vos, target, name, doc, now).Ok? && Acyclic(ParentMap(vos))
    ensures Acyclic(ParentMap(UpdateVO(env, vos, target, name, doc, now).value))
  {
    var cur := DocFromRaw(vos[target].raw).value;
    UpdatedParents(env, vos, target, name, doc, now);
    CheckedKeepsAcyclic(env, vos, target, WithID(WithoutNulls(doc, cur), cur), cur);
  }

  lemma {:induction false} CreateKeepsAcyclic(env: VOEnv, vos: VOs, name: string, doc: Fields, now: nat)
    requires CreateVO(env, vos, name, doc, now).Ok? && Acyclic(ParentMap(vos))
    ensures Acyclic(ParentMap(CreateVO(env, vos, name, doc, now).value))
  {
    CreatedParents(env, vos, name, doc, now);
    CheckedKeepsAcyclic(env, vos, name, WithoutNulls(doc, map[]), map[]);
  }

  lemma {:induction false} ApplyKeepsAcyclic(env: VOEnv, vos: VOs, op: Operation, target: string, proposed: Json,
                                             now: nat)
    requires ApplyVO(env, vos, op, target, proposed, now).Ok? && Acyclic(ParentMap(vos))
    ensures Acyclic(ParentMap(ApplyVO(env, vos, op, target, proposed, now).value))
  {
    if op == Delete {
      FewerParentsAcyclic(ParentMap(vos), ParentMap(vos - {target}));
    } else {
      var name, doc := ProposedName(proposed).value, ProposedDoc(proposed).value;
      if op == Update {
        UpdateKeepsAcyclic(env, vos, target, name, doc, now);
      } else {
        CreateKeepsAcyclic(env, vos, name, doc, now);
      }
    }
  }

  ghost predicate AllParentsLive(vos: VOs) {
    ParentsLive(ParentMap(vos), vos.Keys)
  }

  lemma WithParentStaysLive(m: Parents, name: string, parent: string, names: set<string>)
    requires ParentsLive(m, names) && (parent == "" || parent in names)
    ensures ParentsLive(WithParent(m, name, parent), names + {name})
  {}

  lemma {:induction false} UpdateKeepsParentsLive(env: VOEnv, vos: VOs, target: string, name: string, doc: Fields,
                                                  now: nat)
    requires UpdateVO(env, vos, target, name, doc, now).Ok? && AllParentsLive(vos)
    ensures AllParentsLive(UpdateVO(env, vos, target, name, doc, now).value)
  {
    var cur := DocFromRaw(vos[target].raw).value;
    var d := WithID(WithoutNulls(doc, cur), cur);
    UpdatedParents(env, vos, target, name, doc, now);
    CheckedParent(env, vos, target, d, cur);
    var p := ParentName(CheckDoc(env, vos, target, d, cur).value);
    assert p == ParentName(cur) && p != "" ==> ParentMap(vos)[target] == p;
    WithParentStaysLive(ParentMap(vos), target, p, vos.Keys);
    assert vos.Keys + {target} == vos.Keys;
  }

  lemma {:induction false} CreateKeepsParentsLive(env: VOEnv, vos: VOs, name: string, doc: Fields, now: nat)
    requires CreateVO(env, vos, name, doc, now).Ok? && AllParentsLive(vos)
    ensures AllParentsLive(CreateVO(env, vos, name, doc, now).value)
  {
    CreatedParents(env, vos, name, doc, now);
    CheckedParent(env, vos, name, WithoutNulls(doc, map[]), map[]);
    WithParentStaysLive(ParentMap(vos), name,
                        ParentName(CheckDoc(env, vos, name, WithoutNulls(doc, map[]), map[]).value), vos.Keys);
  }

  lemma {:induction false} DeleteKeepsParentsLive(env: VOEnv, vos: VOs, target: string)
    requires DeleteVO(env, vos, target).Ok? && AllParentsLive(vos)
    ensures AllParentsLive(vos - {target})
  {
    forall n | n in ParentMap(vos - {target}) ensures ParentMap(vos - {target})[n] in vos - {target} {
      assert n in ParentMap(vos);
      assert !IsChild(vos[n], target);
    }
  }

  lemma {:induction false} ApplyKeepsParentsLive(env: VOEnv, vos: VOs, op: Operation, target: string, proposed: Json,
                                                 now: nat)
    requires ApplyVO(env, vos, op, target, proposed, now).Ok? && AllParentsLive(vos)
    ensures AllParentsLive(ApplyVO(env, vos, op, target, proposed, now).value)
  {
    if op == Delete {
      DeleteKeepsParentsLive(env, vos, target);
    } else {
      var name, doc := ProposedName(proposed).value, ProposedDoc(proposed).value;
      if op == Update {
        UpdateKeepsParentsLive(env, vos, target, name, doc, now);
      } else {
        CreateKeepsParentsLive(env, vos, name, doc, now);
      }
    }
  }

  // ---- the id ----

  // A row's id is what its document says, or the hash of its name.
  ghost predicate IDsAgree(env: VOEnv, vos: VOs) {
    forall n :: n in vos ==> vos[n].id == RowID(env, n, vos[n].raw)
  }

  lemma ReadableWithoutRepeats(es: seq<Entry>)
    requires NoRepeats(es)
    ensures DocFromRaw(Mapping(es)) == Ok(Decode(es))
  {}

  // The ID survives: an update writes back the very node.
  lemma {:induction false} PatchKeepsID(es: seq<Entry>, doc: Fields)
    requires NoRepeats(es)
    requires "ID" in doc <==> "ID" in Decode(es)
    requires "ID" in doc ==> doc["ID"] == Decode(es)["ID"]
    ensures At(Decode(Patch(es, doc)), "ID") == At(Decode(es), "ID")
  {
    var out := Patch(es, doc);
    PatchedSaysDoc(es, doc, out);
    if "ID" in doc {
      var i :| 0 <= i < |es| && Names(es)[i] == "ID";
      DecodeAt(es, i);
      PatchedKeepsUntouched(es, doc, out, i);
      DecodeAt(out, KeptIndex(es, doc, i));
    }
  }

  lemma {:induction false} UpdateKeepsHeadID(es: seq<Entry>, doc: Fields)
    requires NoRepeats(es)
    requires "ID" in doc <==> "ID" in Decode(es)
    requires "ID" in doc ==> doc["ID"] == Decode(es)["ID"]
    ensures HeadID(Mapping(Patch(es, doc))) == HeadID(Mapping(es))
  {
    PatchKeepsID(es, doc);
    PatchedSaysDoc(es, doc, Patch(es, doc));
    ReadableWithoutRepeats(es);
    ReadableWithoutRepeats(Patch(es, doc));
  }

  lemma {:induction false} CheckKeepsOtherKeys(env: VOEnv, vos: VOs, name: string, doc: Fields, prev: Fields, k: string)
    requires CheckDoc(env, vos, name, doc, prev).Ok?
    ensures var final := CheckDoc(env, vos, name, doc, prev).value;
      final.Keys == doc.Keys && (k in doc && k != "ParentVO" ==> final[k] == doc[k])
  {}

  lemma {:induction false} UpdateKeepsID(env: VOEnv, vos: VOs, target: string, name: string, doc: Fields, now: nat)
    requires UpdateVO(env, vos, target, name, doc, now).Ok? && IDsAgree(env, vos)
    ensures var after := UpdateVO(env, vos, target, name, doc, now).value;
      after[target].id == vos[target].id && IDsAgree(env, after)
  {
    var cur := DocFromRaw(vos[target].raw).value;
    var d := WithID(WithoutNulls(doc, cur), cur);
    CheckKeepsOtherKeys(env, vos, name, d, cur, "ID");
    var final := CheckDoc(env, vos, name, d, cur).value;
    match vos[target].raw
    case Mapping(es) => UpdateKeepsHeadID(es, final);
    case Empty =>
      UpdateKeepsHeadID([], final);
    case _ =>
  }

  lemma {:induction false} ApplyKeepsIDs(env: VOEnv, vos: VOs, op: Operation, target: string, proposed: Json, now: nat)
    requires ApplyVO(env, vos, op, target, proposed, now).Ok? && IDsAgree(env, vos)
    ensures var after := ApplyVO(env, vos, op, target, proposed, now).value;
      && IDsAgree(env, after)
      && (forall n :: n in vos && n in after ==> after[n].id == vos[n].id)
      && (if op == Delete then after == vos - {target} else vos.Keys <= after.Keys)
  {
    if op == Update {
      UpdateKeepsID(env, vos, target, ProposedName(proposed).value, ProposedDoc(proposed).value, now);
    }
  }

  // An applied proposal writes or removes one row and leaves the others; what it writes has the
  // version of that moment.
  lemma {:induction false} ApplyWritesOneVO(env: VOEnv, vos: VOs, op: Operation, target: string, proposed: Json,
                                            now: nat)
    requires ApplyVO(env, vos, op, target, proposed, now).Ok?
    ensures var after := ApplyVO(env, vos, op, target, proposed, now).value;
      && (forall n :: n in after && after[n].version != now ==> n in vos && vos[n] == after[n])
      && (op != Create && target in after ==> after[target].version == now)
  {}

  // ---- every run ----

  datatype Step = Step(op: Operation, target: string, proposed: Json)

  // The table after applying proposals in order; one that fails changes nothing.
  ghost function After(env: VOEnv, vos: VOs, steps: seq<Step>): VOs {
    if steps == [] then vos
    else
      var n := |steps| - 1;
      StepVO(env, After(env, vos, steps[..n]), steps[n], n)
  }

  ghost function StepVO(env: VOEnv, vos: VOs, s: Step, now: nat): VOs {
    match ApplyVO(env, vos, s.op, s.target, s.proposed, now)
    case Ok(after) => after
    case Err(_) => vos
  }

  lemma {:induction false} StepKeepsSound(env: VOEnv, vos: VOs, s: Step, now: nat)
    requires Acyclic(ParentMap(vos))
    ensures Acyclic(ParentMap(StepVO(env, vos, s, now)))
    ensures AllParentsLive(vos) ==> AllParentsLive(StepVO(env, vos, s, now))
  {
    if ApplyVO(env, vos, s.op, s.target, s.proposed, now).Ok? {
      ApplyKeepsAcyclic(env, vos, s.op, s.target, s.proposed, now);
      if AllParentsLive(vos) {
        ApplyKeepsParentsLive(env, vos, s.op, s.target, s.proposed, now);
      }
    }
  }

  lemma {:induction false} StepKeepsID(env: VOEnv, vos: VOs, s: Step, now: nat, name: string)
    requires IDsAgree(env, vos) && name in vos && !(s.op == Delete && s.target == name)
    ensures var after := StepVO(env, vos, s, now);
      IDsAgree(env, after) && name in after && after[name].id == vos[name].id
  {
    if ApplyVO(env, vos, s.op, s.target, s.proposed, now).Ok? {
      ApplyKeepsIDs(env, vos, s.op, s.target, s.proposed, now);
    }
  }

  /** Every sequence of VO creates, updates and deletes keeps the parents acyclic; and if every parent
      was live at the start, every parent is live at the end. */
  lemma {:induction false} ParentsStaySound(env: VOEnv, vos: VOs, steps: seq<Step>)
    requires Acyclic(ParentMap(vos))
    ensures Acyclic(ParentMap(After(env, vos, steps)))
    ensures AllParentsLive(vos) ==> AllParentsLive(After(env, vos, steps))
  {
    if steps != [] {
      var n := |steps| - 1;
      ParentsStaySound(env, vos, steps[..n]);
      StepKeepsSound(env, After(env, vos, steps[..n]), steps[n], n);
    }
  }

  /** A VO that no step deletes keeps its id through every sequence of proposals, whatever ID they
      submit. */
  lemma {:induction false} StoredIDNeverChanges(env: VOEnv, vos: VOs, steps: seq<Step>, name: string)
    requires IDsAgree(env, vos) && name in vos
    requires forall i :: 0 <= i < |steps| ==> !(steps[i].op == Delete && steps[i].target == name)
    ensures IDsAgree(env, After(env, vos, steps))
    ensures name in After(env, vos, steps) && After(env, vos, steps)[name].id == vos[name].id
  {
    if steps != [] {
      var n := |steps| - 1;
      StoredIDNeverChanges(env, vos, steps[..n], name);
      StepKeepsID(env, After(env, vos, steps[..n]), steps[n], n, name);
    }
  }

  lemma {:induction false} StepAddsValidName(env: VOEnv, vos: VOs, s: Step, now: nat)
    ensures forall n :: n in StepVO(env, vos, s, now) ==> n in vos || ValidName(n)
  {
    if ApplyVO(env, vos, s.op, s.target, s.proposed, now).Ok? && s.op != Delete {
      var name := ProposedName(s.proposed).value;
      assert s.op == Update ==> s.target in vos;
      assert s.op == Create ==> ValidName(name);
    }
  }

  /** Every VO that was not there from the start has a name that can be a file name. */
  lemma {:induction false} NewNamesAreValid(env: VOEnv, vos: VOs, steps: seq<Step>)
    ensures forall n :: n in After(env, vos, steps) ==> n in vos || ValidName(n)
  {
    if steps != [] {
      var n := |steps| - 1;
      NewNamesAreValid(env, vos, steps[..n]);
      StepAddsValidName(env, After(env, vos, steps[..n]), steps[n], n);
    }
  }

  lemma {:induction false} CheckedContacts(env: VOEnv, vos: VOs, name: string, doc: Fields, prev: Fields)
    requires CheckDoc(env, vos, name, doc, prev).Ok?
    ensures var final := CheckDoc(env, vos, name, doc, prev).value;
      At(final, "Contacts") == At(doc, "Contacts") && env.contactsOK(At(final, "Contacts"), At(prev, "Contacts"))
  {}

  // A proposed document is in canonical form.
  lemma {:induction false} ProposedIsCanon(proposed: Json, k: string)
    requires ProposedDoc(proposed).Some?
    ensures Canon(At(ProposedDoc(proposed).value, k)) == At(ProposedDoc(proposed).value, k)
  {
    match proposed
    case Obj(f) =>
      var doc := At(f, "vo").fields;
      if k in doc {
        CanonTwice(doc[k]);
      }
  }

  // The contacts that a document's file is read to have.
  function ContactsIn(row: VORow): Json {
    match DocFromRaw(row.raw)
    case Ok(doc) => At(doc, "Contacts")
    case Err(_) => Null
  }

  lemma {:induction false} WrittenContacts(raw: Raw, final: Fields)
    requires PatchRaw(raw, final).Ok?
    ensures forall row: VORow :: row.raw == PatchRaw(raw, final).value ==>
      Canon(ContactsIn(row)) == Canon(At(final, "Contacts"))
  {
    WrittenDoc(raw, final);
  }

  lemma {:induction false} UpdateChecksContacts(env: VOEnv, vos: VOs, target: string, name: string, doc: Fields,
                                                now: nat)
    requires UpdateVO(env, vos, target, name, doc, now).Ok?
    requires Canon(At(doc, "Contacts")) == At(doc, "Contacts")
    ensures var after := UpdateVO(env, vos, target, name, doc, now).value;
      name in after && name in vos && env.contactsOK(Canon(ContactsIn(after[name])), ContactsIn(vos[name]))
  {
    var cur := DocFromRaw(vos[target].raw).value;
    var d := WithID(WithoutNulls(doc, cur), cur);
    CheckedContacts(env, vos, name, d, cur);
    WrittenContacts(vos[target].raw, CheckDoc(env, vos, name, d, cur).value);
    assert At(d, "Contacts") == At(doc, "Contacts");
  }

  lemma {:induction false} CreateChecksContacts(env: VOEnv, vos: VOs, name: string, doc: Fields, now: nat)
    requires CreateVO(env, vos, name, doc, now).Ok?
    requires Canon(At(doc, "Contacts")) == At(doc, "Contacts")
    ensures var after := CreateVO(env, vos, name, doc, now).value;
      name in after && env.contactsOK(Canon(ContactsIn(after[name])), Null)
  {
    var d := WithoutNulls(doc, map[]);
    CheckedContacts(env, vos, name, d, map[]);
    WrittenContacts(Empty, CheckDoc(env, vos, name, d, map[]).value);
    assert At(d, "Contacts") == At(doc, "Contacts");
  }

  /** The contacts that a create or update leaves in a VO's file, as they are read back from it, passed the
      check against those the file had before. */
  lemma {:induction false} WrittenContactsWereChecked(env: VOEnv, vos: VOs, op: Operation, target: string,
                                                      proposed: Json, now: nat)
    requires op != Delete && ApplyVO(env, vos, op, target, proposed, now).Ok?
    ensures var after, name := ApplyVO(env, vos, op, target, proposed, now).value, ProposedName(proposed).value;
      && name in after && (op == Update <==> name in vos)
      && env.contactsOK(Canon(ContactsIn(after[name])), if name in vos then ContactsIn(vos[name]) else Null)
  {
    var name, doc := ProposedName(proposed).value, ProposedDoc(proposed).value;
    ProposedIsCanon(proposed, "Contacts");
    if op == Update {
      UpdateChecksContacts(env, vos, target, name, doc, now);
    } else {
      CreateChecksContacts(env, vos, name, doc, now);
    }
  }
}
