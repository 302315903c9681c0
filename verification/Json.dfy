/** JSON values as the proposal workflow carries them (internal/conv/conv.go). */
module Json {
  datatype Json =
    | Null
    | Bool(b: bool)
    | Int(n: int)
    | Float(r: real)
    | Str(s: string)
    | Arr(elems: seq<Json>)
    | Obj(fields: map<string, Json>)

  type Fields = map<string, Json>

  // What a value becomes when it is written as JSON and read again: a float without a fractional
  // part is printed without one, and read back as an integer.
  function Canon(j: Json): Json {
    match j
    case Float(r) => if r.Floor as real == r then Int(r.Floor) else j
    case Arr(elems) => Arr(seq(|elems|, i requires 0 <= i < |elems| => Canon(elems[i])))
    case Obj(fields) => Obj(map k | k in fields :: Canon(fields[k]))
    case _ => j
  }

  function CanonFields(m: Fields): (c: Fields)
    ensures c.Keys == m.Keys && forall k :: k in m ==> c[k] == Canon(m[k])
  {
    map k | k in m :: Canon(m[k])
  }

  // Equality of the canonical forms: 9 and 9.0 are the same number, and key order does not matter.
  predicate JsonEqual(a: Json, b: Json) {
    Canon(a) == Canon(b)
  }

  lemma {:induction false} CanonTwice(j: Json)
    ensures Canon(Canon(j)) == Canon(j)
  {
    match j
    case Arr(elems) =>
      forall i | 0 <= i < |elems| ensures Canon(Canon(elems[i])) == Canon(elems[i]) {
        CanonTwice(elems[i]);
      }
      assert Canon(Canon(j)).elems == Canon(j).elems;
    case Obj(fields) =>
      forall k | k in fields ensures Canon(Canon(fields[k])) == Canon(fields[k]) {
        CanonTwice(fields[k]);
      }
      assert Canon(Canon(j)).fields == Canon(j).fields;
    case _ =>
  }
}
