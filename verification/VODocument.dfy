/**
 Editing a VO's YAML file without disturbing what an edit leaves alone
 (internal/topology/vo_edit.go).

 A file is the ordered list of its top-level entries.  Each entry carries, besides its decoded
 value, everything else that is written there: comments and layout.
 */
module VODocument {
  import opened Wrappers
  import opened Json
  import opened SortedStrings

  // `layout` stands for how the value is written: style, indentation, inner comments.
  datatype Node = Node(value: Json, head: string, line: string, foot: string, layout: string)

  // `keyText` is how the key is written, with its own comments.
  datatype Entry = Entry(name: string, keyText: string, val: Node)

  datatype Raw =
    | Empty                        // a file without a document
    | Mapping(entries: seq<Entry>)
    | NotMapping(isNull: bool)     // a scalar or a list
    | Unparseable

  datatype DocError = NotParseable | NotAMapping

  const VO_KEY_ORDER: seq<string> := [
    "ID", "Name", "LongName", "AppDescription", "Community", "CertificateOnly",
    "Active", "Disable", "Contacts", "Credentials", "FieldsOfScience",
    "PrimaryURL", "PurposeURL", "SupportURL", "MembershipServicesURL",
    "ParentVO", "ReportingGroups", "OASIS", "DataFederations"
  ]

  // ---- decoding ----

  ghost predicate NoRepeats(es: seq<Entry>) {
    forall i, j :: 0 <= i < j < |es| ==> es[i].name != es[j].name
  }

  function Names(es: seq<Entry>): (names: seq<string>)
    ensures |names| == |es| && forall i :: 0 <= i < |es| ==> names[i] == es[i].name
  {
    seq(|es|, i requires 0 <= i < |es| => es[i].name)
  }

  predicate HasRepeat(es: seq<Entry>) {
    exists i, j :: 0 <= i < j < |es| && es[i].name == es[j].name
  }

  function Decode(es: seq<Entry>): (doc: Fields)
    ensures forall k :: k in doc <==> k in Names(es)
  {
    if es == [] then map[]
    else
      var init := es[..|es| - 1];
      assert forall k :: k in Names(es) <==> k in Names(init) || k == es[|es| - 1].name by {
        assert Names(es) == Names(init) + [es[|es| - 1].name];
      }
      Decode(init)[es[|es| - 1].name := es[|es| - 1].val.value]
  }

  // A repeated key is an error of the decoder.
  function DocFromRaw(raw: Raw): Result<Fields, DocError> {
    match raw
    case Empty => Ok(map[])
    case Mapping(es) => if HasRepeat(es) then Err(NotParseable) else Ok(Decode(es))
    case NotMapping(isNull) => if isNull then Ok(map[]) else Err(NotParseable)
    case Unparseable => Err(NotParseable)
  }

  lemma {:induction false} DecodeAt(es: seq<Entry>, i: nat)
    requires NoRepeats(es) && i < |es|
    ensures es[i].name in Decode(es) && Decode(es)[es[i].name] == es[i].val.value
  {
    assert Names(es)[i] == es[i].name;
    if i < |es| - 1 {
      DecodeAt(es[..|es| - 1], i);
    }
  }

  // ---- patching ----

  function Encode(v: Json): Node {
    Node(v, "", "", "", "")
  }

  // An entry whose key the document keeps: the same node when the value is unchanged, otherwise a
  // fresh one under the old comments.
  function Revalued(e: Entry, v: Json): Entry {
    if JsonEqual(e.val.value, v) then e
    else e.(val := Encode(v).(head := e.val.head, line := e.val.line, foot := e.val.foot))
  }

  function Kept(es: seq<Entry>, doc: Fields): seq<Entry> {
    if es == [] then []
    else
      var e := es[|es| - 1];
      Kept(es[..|es| - 1], doc) + if e.name in doc then [Revalued(e, doc[e.name])] else []
  }

  function ListedKeys(order: seq<string>, doc: Fields, have: set<string>): seq<string> {
    if order == [] then []
    else
      var k := order[|order| - 1];
      ListedKeys(order[..|order| - 1], doc, have) + if k in doc && k !in have then [k] else []
  }

  // The new keys: first those the template lists, in its order, then the others, sorted.
  ghost predicate IsNewKeys(keys: seq<string>, doc: Fields, have: set<string>) {
    var listed := ListedKeys(VO_KEY_ORDER, doc, have);
    && listed <= keys
    && Sorted(keys[|listed|..])
    && forall k :: k in keys[|listed|..] <==> k in doc && k !in have && k !in VO_KEY_ORDER
  }

  function NewEntries(keys: seq<string>, doc: Fields): (es: seq<Entry>)
    requires forall k :: k in keys ==> k in doc
    ensures |es| == |keys| && forall i :: 0 <= i < |keys| ==> es[i] == Entry(keys[i], keys[i], Encode(doc[keys[i]]))
  {
    seq(|keys|, i requires 0 <= i < |keys| => Entry(keys[i], keys[i], Encode(doc[keys[i]])))
  }

  // `out` is the file whose entries were `es`, edited to say `doc`.
  ghost predicate IsPatched(es: seq<Entry>, doc: Fields, out: seq<Entry>) {
    exists keys ::
      && IsNewKeys(keys, doc, KeptNames(es, doc))
      && (forall k :: k in keys ==> k in doc)
      && out == Kept(es, doc) + NewEntries(keys, doc)
  }

  ghost function Patch(es: seq<Entry>, doc: Fields): (out: seq<Entry>)
    ensures IsPatched(es, doc, out)
  {
    PatchExists(es, doc);
    var out :| IsPatched(es, doc, out);
    out
  }

  // The stored file edited to say `doc`.
  ghost function PatchRaw(raw: Raw, doc: Fields): Result<Raw, DocError> {
    match raw
    case Empty => Ok(Mapping(Patch([], doc)))
    case Mapping(es) => if HasRepeat(es) then Err(NotParseable) else Ok(Mapping(Patch(es, doc)))
    case NotMapping(_) => Err(NotAMapping)
    case Unparseable => Err(NotParseable)
  }

  function KeptNames(es: seq<Entry>, doc: Fields): set<string> {
    set n | n in Names(es) && n in doc
  }

  method OrderedNewKeys(doc: Fields, have: set<string>) returns (keys: seq<string>)
    ensures IsNewKeys(keys, doc, have)
  {
    var listed: seq<string> := [];
    for i := 0 to |VO_KEY_ORDER|
      invariant listed == ListedKeys(VO_KEY_ORDER[..i], doc, have)
    {
      var k := VO_KEY_ORDER[i];
      assert VO_KEY_ORDER[..i + 1][..i] == VO_KEY_ORDER[..i];
      if k in doc && k !in have {
        listed := listed + [k];
      }
    }
    assert VO_KEY_ORDER[..|VO_KEY_ORDER|] == VO_KEY_ORDER;
    var rest: seq<string> := [];
    var todo := doc.Keys;
    while todo != {}
      invariant todo <= doc.Keys
      invariant Distinct(rest)
      invariant forall k :: k in rest <==> k in doc && k !in todo && k !in have && k !in VO_KEY_ORDER
      decreases todo
    {
      var k :| k in todo;
      if k !in have && k !in VO_KEY_ORDER {
        rest := rest + [k];
      }
      todo := todo - {k};
    }
    SortSorts(rest);
    keys := listed + Sort(rest);
    assert keys[|listed|..] == Sort(rest);
  }

  method PatchEntries(es: seq<Entry>, doc: Fields) returns (out: seq<Entry>)
    requires NoRepeats(es)
    ensures out == Patch(es, doc)
  {
    var existing := Decode(es);
    var have: set<string> := {};
    var kept: seq<Entry> := [];
    for i := 0 to |es|
      invariant kept == Kept(es[..i], doc)
      invariant have == KeptNames(es[..i], doc)
    {
      var e := es[i];
      DecodeAt(es, i);
      KeptStep(es, doc, i);
      if e.name !in doc {
        continue;
      }
      have := have + {e.name};
      if !JsonEqual(existing[e.name], doc[e.name]) {
        var node := Encode(doc[e.name]);
        e := e.(val := node.(head := e.val.head, line := e.val.line, foot := e.val.foot));
      }
      kept := kept + [e];
    }
    assert es[..|es|] == es;
    var keys := OrderedNewKeys(doc, have);
    NewKeysAreInDoc(keys, doc, have);
    out := kept + NewEntries(keys, doc);
    PatchIsDetermined(es, doc, out, Patch(es, doc));
  }

  method PatchVOYAML(raw: Raw, doc: Fields) returns (r: Result<Raw, DocError>)
    ensures r == PatchRaw(raw, doc)
  {
    match raw
    case Unparseable => r := Err(NotParseable);
    case NotMapping(_) => r := Err(NotAMapping);
    case Empty =>
      var out := NewVOYAML(doc);
      r := Ok(Mapping(out));
    case Mapping(es) =>
      if DocFromRaw(raw).Err? {
        return Err(NotParseable);
      }
      var out := PatchEntries(es, doc);
      r := Ok(Mapping(out));
  }

  method NewVOYAML(doc: Fields) returns (out: seq<Entry>)
    ensures out == Patch([], doc)
  {
    var keys := OrderedNewKeys(doc, {});
    NewKeysAreInDoc(keys, doc, {});
    out := NewEntries(keys, doc);
    assert KeptNames([], doc) == {};
    assert out == Kept([], doc) + NewEntries(keys, doc);
    PatchIsDetermined([], doc, out, Patch([], doc));
  }

  // ---- what patching means ----

  lemma {:induction false} ListedMembers(order: seq<string>, doc: Fields, have: set<string>, k: string)
    ensures k in ListedKeys(order, doc, have) <==> k in order && k in doc && k !in have
  {
    if order != [] {
      ListedMembers(order[..|order| - 1], doc, have, k);
      assert order == order[..|order| - 1] + [order[|order| - 1]];
    }
  }

  lemma {:induction false} NewKeysAreInDoc(keys: seq<string>, doc: Fields, have: set<string>)
    requires IsNewKeys(keys, doc, have)
    ensures forall k :: k in keys <==> k in doc && k !in have
  {
    var listed := ListedKeys(VO_KEY_ORDER, doc, have);
    assert keys == listed + keys[|listed|..];
    forall k ensures k in keys <==> k in doc && k !in have {
      ListedMembers(VO_KEY_ORDER, doc, have, k);
    }
  }

  // Some arrangement of a set.
  ghost function Arrange(keys: set<string>): (s: seq<string>)
    ensures Distinct(s) && forall k :: k in s <==> k in keys
  {
    if keys == {} then []
    else
      var k :| k in keys;
      [k] + Arrange(keys - {k})
  }

  lemma {:induction false} PatchExists(es: seq<Entry>, doc: Fields)
    ensures exists out :: IsPatched(es, doc, out)
  {
    var have := KeptNames(es, doc);
    var listed := ListedKeys(VO_KEY_ORDER, doc, have);
    var rest := Arrange(set k | k in doc && k !in have && k !in VO_KEY_ORDER);
    SortSorts(rest);
    var keys := listed + Sort(rest);
    assert keys[|listed|..] == Sort(rest);
    NewKeysAreInDoc(keys, doc, have);
    assert IsPatched(es, doc, Kept(es, doc) + NewEntries(keys, doc));
  }

  lemma {:induction false} KeptStep(es: seq<Entry>, doc: Fields, i: nat)
    requires i < |es|
    ensures Kept(es[..i + 1], doc) == Kept(es[..i], doc) + if es[i].name in doc then
      [Revalued(es[i], doc[es[i].name])] else []
    ensures KeptNames(es[..i + 1], doc) == KeptNames(es[..i], doc) + if es[i].name in doc then {es[i].name} else {}
  {
    assert es[..i + 1][..i] == es[..i];
    assert Names(es[..i + 1]) == Names(es[..i]) + [es[i].name];
  }

  // Where entry i of the old file ends up.
  function KeptIndex(es: seq<Entry>, doc: Fields, i: nat): nat
    requires i <= |es|
  {
    |Kept(es[..i], doc)|
  }

  lemma {:induction false} KeptAt(es: seq<Entry>, doc: Fields, i: nat)
    requires i < |es| && es[i].name in doc
    ensures KeptIndex(es, doc, i) < |Kept(es, doc)|
    ensures Kept(es, doc)[KeptIndex(es, doc, i)] == Revalued(es[i], doc[es[i].name])
    decreases |es|
  {
    var init := es[..|es| - 1];
    if i < |es| - 1 {
      assert init[..i] == es[..i];
      KeptAt(init, doc, i);
    }
  }

  lemma {:induction false} KeptComesFrom(es: seq<Entry>, doc: Fields, p: nat) returns (i: nat)
    requires p < |Kept(es, doc)|
    ensures i < |es| && es[i].name in doc && KeptIndex(es, doc, i) == p
    decreases |es|
  {
    var init := es[..|es| - 1];
    if p < |Kept(init, doc)| {
      i := KeptComesFrom(init, doc, p);
      assert init[..i] == es[..i];
    } else {
      i := |es| - 1;
    }
  }

  lemma {:induction false} KeptOrder(es: seq<Entry>, doc: Fields, i: nat, j: nat)
    requires i < j < |es| && es[i].name in doc
    ensures KeptIndex(es, doc, i) < KeptIndex(es, doc, j)
  {
    assert es[..j][..i] == es[..i];
    KeptAt(es[..j], doc, i);
  }

  lemma {:induction false} KeptNoRepeats(es: seq<Entry>, doc: Fields)
    requires NoRepeats(es)
    ensures NoRepeats(Kept(es, doc))
    ensures forall p :: 0 <= p < |Kept(es, doc)| ==> Kept(es, doc)[p].name in KeptNames(es, doc)
  {
    var kept := Kept(es, doc);
    forall p | 0 <= p < |kept| ensures kept[p].name in KeptNames(es, doc) {
      var i := KeptComesFrom(es, doc, p);
      KeptAt(es, doc, i);
      assert Names(es)[i] == es[i].name;
    }
    forall p, q | 0 <= p < q < |kept| ensures kept[p].name != kept[q].name {
      var i := KeptComesFrom(es, doc, p);
      var j := KeptComesFrom(es, doc, q);
      KeptAt(es, doc, i);
      KeptAt(es, doc, j);
    }
  }

  lemma {:induction false} NewKeysDistinct(keys: seq<string>, doc: Fields, have: set<string>)
    requires IsNewKeys(keys, doc, have)
    ensures Distinct(keys)
  {
    var listed := ListedKeys(VO_KEY_ORDER, doc, have);
    ListedDistinct(VO_KEY_ORDER, doc, have);
    assert keys == listed + keys[|listed|..];
    forall k | k in listed ensures k !in keys[|listed|..] {
      ListedMembers(VO_KEY_ORDER, doc, have, k);
    }
    DistinctConcat(listed, keys[|listed|..]);
  }

  lemma {:induction false} ListedDistinct(order: seq<string>, doc: Fields, have: set<string>)
    requires Distinct(order)
    ensures Distinct(ListedKeys(order, doc, have))
  {
    if order != [] {
      var init := order[..|order| - 1];
      ListedDistinct(init, doc, have);
      ListedMembers(init, doc, have, order[|order| - 1]);
    }
  }

  // Every key of the document has its entry in the result.
  lemma {:induction false} PatchedEntry(es: seq<Entry>, doc: Fields, keys: seq<string>, k: string) returns (p: nat)
    requires NoRepeats(es) && IsNewKeys(keys, doc, KeptNames(es, doc)) && (forall k :: k in keys ==> k in doc)
    requires k in doc
    ensures var out := Kept(es, doc) + NewEntries(keys, doc);
      p < |out| && out[p].name == k && JsonEqual(out[p].val.value, doc[k])
  {
    NewKeysAreInDoc(keys, doc, KeptNames(es, doc));
    if k in KeptNames(es, doc) {
      var i :| 0 <= i < |es| && Names(es)[i] == k;
      KeptAt(es, doc, i);
      p := KeptIndex(es, doc, i);
    } else {
      var i :| 0 <= i < |keys| && keys[i] == k;
      p := |Kept(es, doc)| + i;
    }
  }

  lemma {:induction false} PatchedNames(es: seq<Entry>, doc: Fields, keys: seq<string>)
    requires NoRepeats(es) && IsNewKeys(keys, doc, KeptNames(es, doc)) && (forall k :: k in keys ==> k in doc)
    ensures var out := Kept(es, doc) + NewEntries(keys, doc);
      NoRepeats(out) && forall p :: 0 <= p < |out| ==> out[p].name in doc
  {
    NewKeysAreInDoc(keys, doc, KeptNames(es, doc));
    NewKeysDistinct(keys, doc, KeptNames(es, doc));
    KeptNoRepeats(es, doc);
    assert forall i :: 0 <= i < |keys| ==> keys[i] in keys;
  }

  /** A patched file has no repeated key, has exactly the keys of the document, and says under each
      what the document says. */
  lemma {:induction false} PatchedSaysDoc(es: seq<Entry>, doc: Fields, out: seq<Entry>)
    requires NoRepeats(es) && IsPatched(es, doc, out)
    ensures NoRepeats(out)
    ensures Decode(out).Keys == doc.Keys
    ensures forall k :: k in doc ==> JsonEqual(Decode(out)[k], doc[k])
  {
    var keys :| IsNewKeys(keys, doc, KeptNames(es, doc)) && (forall k :: k in keys ==> k in doc)
                && out == Kept(es, doc) + NewEntries(keys, doc);
    PatchedNames(es, doc, keys);
    forall k | k in doc ensures k in Decode(out) && JsonEqual(Decode(out)[k], doc[k]) {
      var p := PatchedEntry(es, doc, keys, k);
      DecodeAt(out, p);
    }
    forall k | k in Decode(out) ensures k in doc {
      var p :| 0 <= p < |out| && Names(out)[p] == k;
    }
  }

  /** An entry whose value the document leaves as it is keeps its whole node, comments and layout
      included; the entries kept stay in their old order, in front of every new one. */
  lemma {:induction false} PatchedKeepsUntouched(es: seq<Entry>, doc: Fields, out: seq<Entry>, i: nat)
    requires NoRepeats(es) && IsPatched(es, doc, out)
    requires i < |es| && es[i].name in doc && JsonEqual(es[i].val.value, doc[es[i].name])
    ensures KeptIndex(es, doc, i) < |out| && out[KeptIndex(es, doc, i)] == es[i]
    ensures forall j :: i < j < |es| ==> KeptIndex(es, doc, i) < KeptIndex(es, doc, j)
    ensures forall p :: 0 <= p < |out| && out[p].name !in Names(es) ==> KeptIndex(es, doc, i) < p
  {
    KeptAt(es, doc, i);
    forall j | i < j < |es| ensures KeptIndex(es, doc, i) < KeptIndex(es, doc, j) {
      KeptOrder(es, doc, i, j);
    }
    KeptNoRepeats(es, doc);
    assert forall p :: 0 <= p < |Kept(es, doc)| ==> out[p] == Kept(es, doc)[p];
  }

  lemma {:induction false} KeptWhole(es: seq<Entry>, doc: Fields)
    requires forall i :: 0 <= i < |es| ==> es[i].name in doc && JsonEqual(es[i].val.value, doc[es[i].name])
    ensures Kept(es, doc) == es
  {
    if es != [] {
      KeptWhole(es[..|es| - 1], doc);
      assert es == es[..|es| - 1] + [es[|es| - 1]];
    }
  }

  /** Editing a file to say what it already says changes nothing. */
  lemma {:induction false} PatchIsIdempotent(es: seq<Entry>, doc: Fields, out: seq<Entry>, again: seq<Entry>)
    requires NoRepeats(es) && IsPatched(es, doc, out) && IsPatched(out, doc, again)
    ensures again == out
  {
    PatchedSaysDoc(es, doc, out);
    forall i | 0 <= i < |out| ensures out[i].name in doc && JsonEqual(out[i].val.value, doc[out[i].name]) {
      DecodeAt(out, i);
    }
    KeptWhole(out, doc);
    var have := KeptNames(out, doc);
    var keys :| IsNewKeys(keys, doc, have) && (forall k :: k in keys ==> k in doc)
      && again == Kept(out, doc) + NewEntries(keys, doc);
    NewKeysAreInDoc(keys, doc, have);
    HasMember(keys);
  }

  /** The order in which Go happens to visit the document's keys makes no difference. */
  lemma {:induction false} PatchIsDetermined(es: seq<Entry>, doc: Fields, a: seq<Entry>, b: seq<Entry>)
    requires IsPatched(es, doc, a) && IsPatched(es, doc, b)
    ensures a == b
  {
    var have := KeptNames(es, doc);
    var ka :| IsNewKeys(ka, doc, have) && (forall k :: k in ka ==> k in doc)
      && a == Kept(es, doc) + NewEntries(ka, doc);
    var kb :| IsNewKeys(kb, doc, have) && (forall k :: k in kb ==> k in doc)
      && b == Kept(es, doc) + NewEntries(kb, doc);
    var n := |ListedKeys(VO_KEY_ORDER, doc, have)|;
    SortedIsUnique(ka[n..], kb[n..]);
    assert ka == ka[..n] + ka[n..] && kb == kb[..n] + kb[n..];
  }

  /** An entry whose value the document changes stays in its place among those kept, under its key as it was
      written and with the comments of its old value; only the value and its layout are new. */
  lemma {:induction false} ChangedEntryKeepsItsComments(es: seq<Entry>, doc: Fields, out: seq<Entry>, i: nat)
    requires NoRepeats(es) && IsPatched(es, doc, out)
    requires i < |es| && es[i].name in doc && !JsonEqual(es[i].val.value, doc[es[i].name])
    ensures var p := KeptIndex(es, doc, i);
      && p < |out| && out[p].name == es[i].name && out[p].keyText == es[i].keyText
      && out[p].val == Node(doc[es[i].name], es[i].val.head, es[i].val.line, es[i].val.foot, "")
    ensures forall j :: 0 <= j < i && es[j].name in doc ==> KeptIndex(es, doc, j) < KeptIndex(es, doc, i)
    ensures forall j :: i < j < |es| ==> KeptIndex(es, doc, i) < KeptIndex(es, doc, j)
  {
    KeptAt(es, doc, i);
    forall j | 0 <= j < i && es[j].name in doc ensures KeptIndex(es, doc, j) < KeptIndex(es, doc, i) {
      KeptOrder(es, doc, j, i);
    }
    forall j | i < j < |es| ensures KeptIndex(es, doc, i) < KeptIndex(es, doc, j) {
      KeptOrder(es, doc, i, j);
    }
  }

  // Key a comes before key b: both are in the template, in this order, or only a is, or neither is and a
  // sorts first.
  ghost predicate ComesFirst(a: string, b: string) {
    || (exists i, j :: 0 <= i < j < |VO_KEY_ORDER| && VO_KEY_ORDER[i] == a && VO_KEY_ORDER[j] == b)
    || (a in VO_KEY_ORDER && b !in VO_KEY_ORDER)
    || (a !in VO_KEY_ORDER && b !in VO_KEY_ORDER && a != b && Leq(a, b))
  }

  lemma {:induction false} ListedInOrder(order: seq<string>, doc: Fields, have: set<string>, p: nat, q: nat)
    returns (i: nat, j: nat)
    requires p < q < |ListedKeys(order, doc, have)|
    ensures i < j < |order|
    ensures order[i] == ListedKeys(order, doc, have)[p] && order[j] == ListedKeys(order, doc, have)[q]
  {
    var n := |order| - 1;
    if q < |ListedKeys(order[..n], doc, have)| {
      i, j := ListedInOrder(order[..n], doc, have, p, q);
    } else {
      j := n;
      ListedMembers(order[..n], doc, have, ListedKeys(order[..n], doc, have)[p]);
      i :| 0 <= i < n && order[..n][i] == ListedKeys(order[..n], doc, have)[p];
    }
  }

  lemma {:induction false} NewKeysOrdered(keys: seq<string>, doc: Fields, have: set<string>, p: nat, q: nat)
    requires IsNewKeys(keys, doc, have) && p < q < |keys|
    ensures ComesFirst(keys[p], keys[q])
  {
    var listed := ListedKeys(VO_KEY_ORDER, doc, have);
    var m, rest := |listed|, keys[|listed|..];
    if q < m {
      var i, j := ListedInOrder(VO_KEY_ORDER, doc, have, p, q);
    } else {
      assert keys[q] == rest[q - m] && rest[q - m] in rest;
      if p < m {
        ListedMembers(VO_KEY_ORDER, doc, have, listed[p]);
      } else {
        assert keys[p] == rest[p - m] && rest[p - m] in rest;
      }
    }
  }

  lemma {:induction false} PatchedAt(es: seq<Entry>, doc: Fields, keys: seq<string>, p: nat)
    requires NoRepeats(es) && IsNewKeys(keys, doc, KeptNames(es, doc)) && (forall k :: k in keys ==> k in doc)
    requires p < |Kept(es, doc) + NewEntries(keys, doc)|
    ensures var m, e := |Kept(es, doc)|, (Kept(es, doc) + NewEntries(keys, doc))[p];
      if p < m then e.name in Names(es)
      else
        && p - m < |keys| && e.name == keys[p - m] && e.name in doc && e.name !in Names(es)
        && e == Entry(e.name, e.name, Node(doc[e.name], "", "", "", ""))
  {
    var m := |Kept(es, doc)|;
    if p < m {
      KeptNoRepeats(es, doc);
    } else {
      NewKeysAreInDoc(keys, doc, KeptNames(es, doc));
      assert keys[p - m] in keys;
    }
  }

  lemma {:induction false} NewKeysFollow(es: seq<Entry>, doc: Fields, keys: seq<string>, p: nat, q: nat)
    requires NoRepeats(es) && IsNewKeys(keys, doc, KeptNames(es, doc)) && (forall k :: k in keys ==> k in doc)
    requires p <= q < |Kept(es, doc) + NewEntries(keys, doc)|
    requires (Kept(es, doc) + NewEntries(keys, doc))[p].name !in Names(es)
    ensures var out := Kept(es, doc) + NewEntries(keys, doc);
      && out[q].name !in Names(es) && out[q].name in doc
      && out[q] == Entry(out[q].name, out[q].name, Node(doc[out[q].name], "", "", "", ""))
      && (p < q ==> ComesFirst(out[p].name, out[q].name))
  {
    hide ComesFirst, IsNewKeys;
    PatchedAt(es, doc, keys, p);
    PatchedAt(es, doc, keys, q);
    if p < q {
      NewKeysOrdered(keys, doc, KeptNames(es, doc), p - |Kept(es, doc)|, q - |Kept(es, doc)|);
    }
  }

  /** Entries that the file did not have come after all it had, without comments, each under the document's
      value; those of the template come first and in its order, the others sorted. */
  lemma {:induction false} NewEntriesFollowTheTemplate(es: seq<Entry>, doc: Fields, out: seq<Entry>, p: nat, q: nat)
    requires NoRepeats(es) && IsPatched(es, doc, out) && p <= q < |out| && out[p].name !in Names(es)
    ensures out[q].name !in Names(es) && out[q].name in doc
    ensures out[q] == Entry(out[q].name, out[q].name, Node(doc[out[q].name], "", "", "", ""))
    ensures p < q ==> ComesFirst(out[p].name, out[q].name)
  {
    hide ComesFirst, IsNewKeys, Kept;
    var keys :| IsNewKeys(keys, doc, KeptNames(es, doc)) && (forall k :: k in keys ==> k in doc)
      && out == Kept(es, doc) + NewEntries(keys, doc);
    NewKeysFollow(es, doc, keys, p, q);
  }

  /** A file can be patched exactly when it has no document at all, or one that is a mapping without repeated
      keys. */
  lemma PatchableExactlyWhen(raw: Raw, doc: Fields)
    ensures PatchRaw(raw, doc).Ok? <==> raw == Empty || (raw.Mapping? && NoRepeats(raw.entries))
    ensures PatchRaw(raw, doc).Ok? ==>
      && PatchRaw(raw, doc).value.Mapping?
      && IsPatched(if raw == Empty then [] else raw.entries, doc, PatchRaw(raw, doc).value.entries)
  {}
}
