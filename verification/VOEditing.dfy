/**
 A VO edit from end to end: the snapshot taken when the proposal is created, the merges of its
 submissions, the filtering of nulls, the checks, and the patch of the stored file.
 */
module VOEditing {
  import opened Wrappers
  import opened Json
  import opened Kinds
  import opened Merge
  import opened VODocument
  import opened VOProposals
  import opened VOSafety

  // The payload that shows a VO as it stands.
  function Snapshot(name: string, doc: Fields): Json {
    Obj(map["name" := Str(name), "vo" := Obj(CanonFields(doc))])
  }

  // What the proposal holds after its creation and revisions.
  function Edited(name: string, es: seq<Entry>, submissions: seq<Json>): Json {
    Folded(VO, Snapshot(name, Decode(es)), submissions)
  }

  // None of the submissions mentions key k of the document.
  ghost predicate Untouched(k: string, submissions: seq<Json>) {
    forall n :: 0 <= n < |submissions| ==> WrappedField("vo", k).leaves(submissions[n])
  }

  // The document that is written.
  ghost predicate Writes(env: VOEnv, vos: VOs, name: string, es: seq<Entry>, submissions: seq<Json>, now: nat,
                         final: Fields)
  {
    && name in vos && vos[name].raw == Mapping(es) && NoRepeats(es)
    && ApplyVO(env, vos, Update, name, Edited(name, es, submissions), now)
       == Ok(vos[name := RowOf(env, name, Mapping(Patch(es, final)), now)])
    && ProposedDoc(Edited(name, es, submissions)).Some?
    && var doc := ProposedDoc(Edited(name, es, submissions)).value;
       var cur := Decode(es);
       CheckDoc(env, vos, name, WithID(WithoutNulls(doc, cur), cur), cur) == Ok(final)
  }

  lemma {:induction false} ApplyWrites(env: VOEnv, vos: VOs, name: string, es: seq<Entry>, submissions: seq<Json>,
                                       now: nat)
    returns (final: Fields)
    requires name in vos && vos[name].raw == Mapping(es) && NoRepeats(es)
    requires ApplyVO(env, vos, Update, name, Edited(name, es, submissions), now).Ok?
    ensures Writes(env, vos, name, es, submissions, now, final)
  {
    ReadableWithoutRepeats(es);
    var doc := ProposedDoc(Edited(name, es, submissions)).value;
    var cur := Decode(es);
    final := CheckDoc(env, vos, name, WithID(WithoutNulls(doc, cur), cur), cur).value;
  }

  // The last submission to mention key k of the document gave it v; the base is submission 0.
  ghost predicate LastSaid(base: Json, submissions: seq<Json>, k: string, v: Json) {
    exists n: nat :: LastWriter(WrappedField("vo", k), base, submissions, v, n)
  }

  lemma {:induction false} FoldedKey(base: Json, submissions: seq<Json>, k: string, v: Json)
    ensures GetIn(Get(Folded(VO, base, submissions), "vo"), k) == Some(v) <==> LastSaid(base, submissions, k, v)
  {
    WrappedFieldsAreLastWritten(base, submissions, k, v);
  }

  lemma {:induction false} ProposedKey(p: Json, k: string)
    requires ProposedDoc(p).Some?
    ensures var inner := GetIn(Get(p, "vo"), k);
      && (k in ProposedDoc(p).value <==> inner.Some?)
      && (inner.Some? ==> ProposedDoc(p).value[k] == Canon(inner.value))
  {}

  // An untouched key of the stored document reaches the check with its stored value.
  lemma {:induction false} UntouchedKeyIsProposed(name: string, es: seq<Entry>, submissions: seq<Json>, k: string)
    requires ProposedDoc(Edited(name, es, submissions)).Some?
    requires Untouched(k, submissions) && k in Decode(es)
    ensures var doc := ProposedDoc(Edited(name, es, submissions)).value;
      k in doc && doc[k] == Canon(Decode(es)[k])
  {
    var v, base := Canon(Decode(es)[k]), Snapshot(name, Decode(es));
    var part := WrappedField("vo", k);
    assert part.read(base) == Some(v);
    assert LastWriter(part, base, submissions, v, 0);
    FoldedKey(base, submissions, k, v);
    ProposedKey(Edited(name, es, submissions), k);
    CanonTwice(Decode(es)[k]);
  }

  lemma {:induction false} UntouchedKeyIsWritten(env: VOEnv, vos: VOs, name: string, es: seq<Entry>,
                                                 submissions: seq<Json>, now: nat, final: Fields, k: string)
    requires Writes(env, vos, name, es, submissions, now, final)
    requires Untouched(k, submissions) && k in Decode(es)
    ensures k in final && JsonEqual(Decode(es)[k], final[k])
  {
    var cur, doc := Decode(es), ProposedDoc(Edited(name, es, submissions)).value;
    UntouchedKeyIsProposed(name, es, submissions, k);
    CanonTwice(cur[k]);
    assert doc[k] == Null <==> cur[k] == Null;
    var d := WithID(WithoutNulls(doc, cur), cur);
    assert k in d && JsonEqual(d[k], cur[k]);
    if k == "ParentVO" {
      UnchangedParentIsRestored(env, vos, name, d, cur);
    } else {
      CheckKeepsOtherKeys(env, vos, name, d, cur, k);
    }
  }

  // A parent submitted unchanged is written as it is stored.
  lemma UnchangedParentIsRestored(env: VOEnv, vos: VOs, name: string, doc: Fields, cur: Fields)
    requires CheckDoc(env, vos, name, doc, cur).Ok?
    requires "ParentVO" in doc && "ParentVO" in cur && JsonEqual(doc["ParentVO"], cur["ParentVO"])
    ensures var final := CheckDoc(env, vos, name, doc, cur).value;
      "ParentVO" in final && final["ParentVO"] == cur["ParentVO"]
  {
    SameParentBlock(doc["ParentVO"], cur["ParentVO"]);
    assert ParentName(doc) == ParentName(cur);
  }

  ghost predicate InOrder(out: seq<Entry>, a: Entry, b: Entry) {
    exists p, q :: 0 <= p < q < |out| && out[p] == a && out[q] == b
  }

  /** A VO update that succeeds leaves every entry of the file whose key no submission mentions as it
      was, node, comments and all, and leaves such entries in their order. */
  lemma {:induction false} UntouchedEntriesSurvive(env: VOEnv, vos: VOs, name: string, es: seq<Entry>,
                                                   submissions: seq<Json>, now: nat)
    requires name in vos && vos[name].raw == Mapping(es) && NoRepeats(es)
    requires ApplyVO(env, vos, Update, name, Edited(name, es, submissions), now).Ok?
    ensures var raw := ApplyVO(env, vos, Update, name, Edited(name, es, submissions), now).value[name].raw;
      && raw.Mapping? && NoRepeats(raw.entries)
      && (forall i :: 0 <= i < |es| && Untouched(es[i].name, submissions) ==> es[i] in raw.entries)
      && (forall i, j :: 0 <= i < j < |es| && Untouched(es[i].name, submissions) && Untouched(es[j].name, submissions)
            ==> InOrder(raw.entries, es[i], es[j]))
  {
    var final := ApplyWrites(env, vos, name, es, submissions, now);
    var out := Patch(es, final);
    PatchedSaysDoc(es, final, out);
    forall i | 0 <= i < |es| && Untouched(es[i].name, submissions)
      ensures es[i] in out
      ensures forall j :: i < j < |es| && Untouched(es[j].name, submissions) ==> InOrder(out, es[i], es[j])
    {
      UntouchedEntry(env, vos, name, es, submissions, now, final, i);
      forall j | i < j < |es| && Untouched(es[j].name, submissions) ensures InOrder(out, es[i], es[j]) {
        UntouchedEntry(env, vos, name, es, submissions, now, final, j);
        assert out[KeptIndex(es, final, i)] == es[i] && out[KeptIndex(es, final, j)] == es[j];
      }
    }
  }

  lemma {:induction false} UntouchedEntry(env: VOEnv, vos: VOs, name: string, es: seq<Entry>, submissions: seq<Json>,
                                          now: nat, final: Fields, i: nat)
    requires Writes(env, vos, name, es, submissions, now, final)
    requires i < |es| && Untouched(es[i].name, submissions)
    ensures var out := Patch(es, final);
      && KeptIndex(es, final, i) < |out| && out[KeptIndex(es, final, i)] == es[i]
      && forall j :: i < j < |es| ==> KeptIndex(es, final, i) < KeptIndex(es, final, j)
  {
    DecodeAt(es, i);
    UntouchedKeyIsWritten(env, vos, name, es, submissions, now, final, es[i].name);
    PatchedKeepsUntouched(es, final, Patch(es, final), i);
  }

  // Any key but ID and ParentVO is written as proposed.
  lemma {:induction false} KeyIsWritten(env: VOEnv, vos: VOs, name: string, es: seq<Entry>, submissions: seq<Json>,
                                        now: nat, final: Fields, k: string)
    requires Writes(env, vos, name, es, submissions, now, final) && k != "ID" && k != "ParentVO"
    ensures var cur, doc := Decode(es), ProposedDoc(Edited(name, es, submissions)).value;
      && (k in final <==> k in doc && !Removes(doc, cur, k))
      && (k in final ==> final[k] == doc[k])
  {
    var cur, doc := Decode(es), ProposedDoc(Edited(name, es, submissions)).value;
    CheckKeepsOtherKeys(env, vos, name, WithID(WithoutNulls(doc, cur), cur), cur, k);
  }

  lemma {:induction false} KeyIsProposed(base: Json, submissions: seq<Json>, k: string, v: Json)
    requires ProposedDoc(Folded(VO, base, submissions)).Some?
    ensures var doc := ProposedDoc(Folded(VO, base, submissions)).value;
      && (LastSaid(base, submissions, k, v) ==> k in doc && doc[k] == Canon(v))
      && ((forall w :: !LastSaid(base, submissions, k, w)) ==> k !in doc)
  {
    var p := Folded(VO, base, submissions);
    FoldedKey(base, submissions, k, v);
    ProposedKey(p, k);
    var inner := GetIn(Get(p, "vo"), k);
    if inner.Some? {
      FoldedKey(base, submissions, k, inner.value);
      assert LastSaid(base, submissions, k, inner.value);
    }
  }

  /** What the new file says under a key, apart from ID and ParentVO: what the last mention of the key
      says, a null being a request to remove it unless the file has that null already.  A key that is
      neither in the file nor in a submission does not appear. */
  lemma {:induction false} EditSaysWhatWasAsked(env: VOEnv, vos: VOs, name: string, es: seq<Entry>,
                                                submissions: seq<Json>, now: nat, k: string, v: Json)
    requires name in vos && vos[name].raw == Mapping(es) && NoRepeats(es)
    requires ApplyVO(env, vos, Update, name, Edited(name, es, submissions), now).Ok?
    requires k != "ID" && k != "ParentVO"
    ensures var raw := ApplyVO(env, vos, Update, name, Edited(name, es, submissions), now).value[name].raw;
      && raw.Mapping?
      && (LastSaid(Snapshot(name, Decode(es)), submissions, k, v) ==>
          if v == Null && !(k in Decode(es) && Decode(es)[k] == Null)
          then k !in Decode(raw.entries)
          else k in Decode(raw.entries) && JsonEqual(Decode(raw.entries)[k], v))
      && ((forall w :: !LastSaid(Snapshot(name, Decode(es)), submissions, k, w)) ==> k !in Decode(raw.entries))
  {
    var final := ApplyWrites(env, vos, name, es, submissions, now);
    PatchedSaysDoc(es, final, Patch(es, final));
    KeyIsWritten(env, vos, name, es, submissions, now, final, k);
    KeyIsProposed(Snapshot(name, Decode(es)), submissions, k, v);
    CanonTwice(v);
  }

  // A stored parent block that names nobody: a null, a string, an object without a Name.
  ghost predicate NamesNobody(cur: Fields) {
    "ParentVO" in cur && ParentName(cur) == ""
  }

  // A verdict on the parent of a document.
  predicate OverParent(e: VOError) {
    e in {NoParentNamed, OwnParent, ParentMissing, ParentCycle}
  }

  // An untouched parent is neither dropped as a null nor replaced before the check sees it.
  lemma {:induction false} UntouchedParentIsChecked(name: string, es: seq<Entry>, submissions: seq<Json>)
    requires ProposedDoc(Edited(name, es, submissions)).Some? && Untouched("ParentVO", submissions)
    ensures var doc, cur := ProposedDoc(Edited(name, es, submissions)).value, Decode(es);
      var d := WithID(WithoutNulls(doc, cur), cur);
      ("ParentVO" in d <==> "ParentVO" in cur) && ParentName(d) == ParentName(cur)
  {
    var doc, cur := ProposedDoc(Edited(name, es, submissions)).value, Decode(es);
    if "ParentVO" in cur {
      UntouchedKeyIsProposed(name, es, submissions, "ParentVO");
    } else {
      UnmentionedIsAbsent(name, es, submissions, "ParentVO");
    }
    SameParentIsChecked(doc, cur);
  }

  lemma {:induction false} SameParentIsChecked(doc: Fields, cur: Fields)
    requires "ParentVO" in doc <==> "ParentVO" in cur
    requires "ParentVO" in doc ==> doc["ParentVO"] == Canon(cur["ParentVO"])
    ensures var d := WithID(WithoutNulls(doc, cur), cur);
      ("ParentVO" in d <==> "ParentVO" in cur) && ParentName(d) == ParentName(cur)
  {
    if "ParentVO" in cur {
      CanonTwice(cur["ParentVO"]);
      SameParentBlock(doc["ParentVO"], cur["ParentVO"]);
    }
  }

  // A key that is neither stored nor mentioned is not proposed.
  lemma {:induction false} UnmentionedIsAbsent(name: string, es: seq<Entry>, submissions: seq<Json>, k: string)
    requires ProposedDoc(Edited(name, es, submissions)).Some?
    requires Untouched(k, submissions) && k !in Decode(es)
    ensures k !in ProposedDoc(Edited(name, es, submissions)).value
  {
    var base := Snapshot(name, Decode(es));
    forall w ensures !LastSaid(base, submissions, k, w) {
      NobodySaid(base, submissions, k, w);
    }
    KeyIsProposed(base, submissions, k, Null);
  }

  lemma {:induction false} NobodySaid(base: Json, submissions: seq<Json>, k: string, w: Json)
    requires Untouched(k, submissions) && WrappedField("vo", k).read(base) == None
    ensures !LastSaid(base, submissions, k, w)
  {}

  lemma CheckOfSameParent(env: VOEnv, vos: VOs, name: string, doc: Fields, prev: Fields)
    requires ("ParentVO" in doc <==> "ParentVO" in prev) && ParentName(doc) == ParentName(prev)
    ensures var r := CheckDoc(env, vos, name, doc, prev);
      if NamesNobody(prev) then r == Err(NoParentNamed) else r.Ok? || r == Err(UnknownContact)
  {}

  // The verdict of an update on a file that can be read.
  lemma {:induction false} UpdateVerdict(env: VOEnv, vos: VOs, name: string, es: seq<Entry>, proposed: Json, now: nat)
    requires name in vos && vos[name].raw == Mapping(es) && NoRepeats(es) && name != ""
    ensures var r, cur := ApplyVO(env, vos, Update, name, proposed, now), Decode(es);
      if ProposedName(proposed) == Some(name) && ProposedDoc(proposed).Some? then
        var checked := CheckDoc(env, vos, name, WithID(WithoutNulls(ProposedDoc(proposed).value, cur), cur), cur);
        if checked.Ok? then r.Ok? else r == Err(checked.error)
      else
        r.Err? && r.error in {BadPayload, NoName, BadDocument, NameFixed}
  {
    ReadableWithoutRepeats(es);
  }

  /** An update that does not mention ParentVO is refused over its parent exactly when the payload is
      well formed and the stored block names nobody; a parent that is stored with a name, even one that
      is gone or part of a cycle, never stands in the way. */
  lemma {:induction false} UnmentionedParentIsRefused(env: VOEnv, vos: VOs, name: string, es: seq<Entry>,
                                                      submissions: seq<Json>, now: nat)
    requires name in vos && vos[name].raw == Mapping(es) && NoRepeats(es) && name != ""
    requires Untouched("ParentVO", submissions)
    ensures var proposed := Edited(name, es, submissions);
      var r := ApplyVO(env, vos, Update, name, proposed, now);
      && (r.Err? && OverParent(r.error) <==> r == Err(NoParentNamed))
      && (r == Err(NoParentNamed) <==>
            ProposedName(proposed) == Some(name) && ProposedDoc(proposed).Some? && NamesNobody(Decode(es)))
      && (NamesNobody(Decode(es)) ==> r.Err?)
  {
    var proposed, cur := Edited(name, es, submissions), Decode(es);
    UpdateVerdict(env, vos, name, es, proposed, now);
    if ProposedName(proposed) == Some(name) && ProposedDoc(proposed).Some? {
      UntouchedParentIsChecked(name, es, submissions);
      CheckOfSameParent(env, vos, name, WithID(WithoutNulls(ProposedDoc(proposed).value, cur), cur), cur);
    }
  }

  /** So a VO whose file names nobody as its parent - a null, a string, a block without a name - cannot
      be edited until a submission mentions ParentVO: every other update of it fails. */
  lemma {:induction false} NamelessParentBlocks(env: VOEnv, vos: VOs, name: string, es: seq<Entry>,
                                                submissions: seq<Json>, now: nat)
    requires name in vos && vos[name].raw == Mapping(es) && NoRepeats(es)
    requires NamesNobody(Decode(es)) && Untouched("ParentVO", submissions)
    ensures ApplyVO(env, vos, Update, name, Edited(name, es, submissions), now).Err?
  {
    if name != "" {
      UnmentionedParentIsRefused(env, vos, name, es, submissions, now);
    }
  }

  lemma {:induction false} StoredNullParentBlocks(env: VOEnv, vos: VOs, name: string, es: seq<Entry>,
                                                  submissions: seq<Json>, now: nat)
    requires name in vos && vos[name].raw == Mapping(es) && NoRepeats(es)
    requires "ParentVO" in Decode(es) && Decode(es)["ParentVO"] == Null && Untouched("ParentVO", submissions)
    ensures ApplyVO(env, vos, Update, name, Edited(name, es, submissions), now).Err?
  {
    NamelessParentBlocks(env, vos, name, es, submissions, now);
  }
}
