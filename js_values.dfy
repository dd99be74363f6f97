/** JavaScript values as the application's data holds them (parsed JSON plus
    `undefined`), with the operators the code applies to them: truthiness,
    `??`, `||`, `String(v)` and property access `v[key]`. Numbers are
    integers here; `NaN`, fractions and functions are not modelled. */
module JsValues {
  import JsStrings
  import opened Wrappers

  datatype JsValue =
    | Undefined
    | Null
    | Bool(b: bool)
    | Num(n: int)
    | Str(s: string)
    | Arr(elems: seq<JsValue>)
    | Obj(props: map<string, JsValue>)

  /** `v == null`, which holds for both `null` and `undefined`. */
  predicate IsNullish(v: JsValue)
  {
    v.Undefined? || v.Null?
  }

  /** JavaScript truthiness: `undefined`, `null`, `false`, `0` and `""` are
      falsy; every array and object is truthy. */
  predicate Truthy(v: JsValue)
  {
    match v
    case Undefined => false
    case Null => false
    case Bool(b) => b
    case Num(n) => n != 0
    case Str(s) => s != ""
    case Arr(_) => true
    case Obj(_) => true
  }

  /** `a ?? b`. */
  function Coalesce(a: JsValue, b: JsValue): (r: JsValue)
    ensures !IsNullish(a) ==> r == a
    ensures IsNullish(a) ==> r == b
  {
    if IsNullish(a) then b else a
  }

  /** `store[key] ?? null` on a storage object read as a map: the stored
      value when it is present, else `null`. */
  function StoredOrNull(store: map<string, JsValue>, key: string): (r: JsValue)
    ensures key !in store ==> r == Null
    ensures key in store && !IsNullish(store[key]) ==> r == store[key]
    ensures key in store && IsNullish(store[key]) ==> r == Null
  {
    if key in store then Coalesce(store[key], Null) else Null
  }

  /** `a || b`. */
  function Or(a: JsValue, b: JsValue): (r: JsValue)
    ensures Truthy(a) ==> r == a
    ensures !Truthy(a) ==> r == b
  {
    if Truthy(a) then a else b
  }

  /** The first of `vs` that is neither `null` nor `undefined`: what a chain
      `vs[0] ?? vs[1] ?? ...` picks when one of them is present. */
  function FirstPresent(vs: seq<JsValue>): (r: Option<JsValue>)
    ensures r.None? <==> forall i :: 0 <= i < |vs| ==> IsNullish(vs[i])
    ensures r.Some? ==> !IsNullish(r.value)
                        && exists i :: 0 <= i < |vs| && vs[i] == r.value && forall j :: 0 <= j < i ==> IsNullish(vs[j])
  {
    if vs == [] then None
    else if !IsNullish(vs[0]) then Some(vs[0])
    else
      var r := FirstPresent(vs[1..]);
      assert r.Some? ==> exists i :: 0 <= i < |vs| && vs[i] == r.value && forall j :: 0 <= j < i ==> IsNullish(vs[j]) by {
        if r.Some? {
          var i :| 0 <= i < |vs[1..]| && vs[1..][i] == r.value && forall j :: 0 <= j < i ==> IsNullish(vs[1..][j]);
          assert vs[i + 1] == r.value && forall j :: 0 <= j < i + 1 ==> IsNullish(vs[j]);
        }
      }
      r
  }

  /** `a ?? b ?? c` picks what `FirstPresent` picks. */
  lemma FirstPresentOfThree(a: JsValue, b: JsValue, c: JsValue)
    ensures FirstPresent([a, b, c]) == (if !IsNullish(a) then Some(a) else if !IsNullish(b) then Some(b)
                                        else if !IsNullish(c) then Some(c) else None)
  {
    assert [a, b, c][1..] == [b, c] && [b, c][1..] == [c] && [c][1..] == [];
    assert FirstPresent([c]) == (if !IsNullish(c) then Some(c) else None);
    assert FirstPresent([b, c]) == (if !IsNullish(b) then Some(b) else FirstPresent([c]));
  }

  /** Values compared by `===` on their contents: everything but arrays and
      objects, which `===` compares by reference. */
  predicate IsPrimitive(v: JsValue)
  {
    !v.Arr? && !v.Obj?
  }

  /** `String(v)`: arrays join their elements with "," (a `null` or
      `undefined` element contributing ""), plain objects give
      "[object Object]". */
  function ToJsString(v: JsValue): string
    decreases v
  {
    match v
    case Undefined => "undefined"
    case Null => "null"
    case Bool(b) => if b then "true" else "false"
    case Num(n) => JsStrings.IntToString(n)
    case Str(s) => s
    case Arr(es) =>
      JsStrings.Join(seq(|es|, i requires 0 <= i < |es| =>
                           if IsNullish(es[i]) then "" else ToJsString(es[i])), ",")
    case Obj(_) => "[object Object]"
  }

  /** `es.join(sep)`: each element as `String(e)`, `null` and `undefined`
      as "". */
  function ArrayJoin(es: seq<JsValue>, sep: string): string
  {
    JsStrings.Join(seq(|es|, i requires 0 <= i < |es| => if IsNullish(es[i]) then "" else ToJsString(es[i])), sep)
  }

  /** The array index a property key denotes, if it is the canonical decimal
      form of a natural number ("0", "17"; not "01" or "-0"). */
  function ArrayIndex(key: string): (r: Option<nat>)
    ensures r.Some? ==> JsStrings.IntToString(r.value) == key
  {
    if key == [] || !JsStrings.IsDigit(key[0]) then None
    else
      var p := JsStrings.ParseDecimalInt(key);
      if p.Some? && p.value >= 0 && JsStrings.IntToString(p.value) == key then Some(p.value)
      else None
  }

  /** `v[key]` for a value that is not `null` or `undefined` (and
      `v?.[key]` for one that is): an object's own property; an array's or a
      string's element or `length`; `undefined` otherwise. Properties
      inherited from prototypes are not modelled. */
  function GetProp(v: JsValue, key: string): (r: JsValue)
    ensures v.Obj? ==> r == (if key in v.props then v.props[key] else Undefined)
    ensures !v.Obj? && !v.Arr? && !v.Str? ==> r == Undefined
  {
    match v
    case Obj(props) => if key in props then props[key] else Undefined
    case Arr(es) =>
      if key == "length" then Num(|es|)
      else
        var i := ArrayIndex(key);
        if i.Some? && i.value < |es| then es[i.value] else Undefined
    case Str(s) =>
      if key == "length" then Num(|s|)
      else
        var i := ArrayIndex(key);
        if i.Some? && i.value < |s| then Str([s[i.value]]) else Undefined
    case _ => Undefined
  }

  /** `Array.isArray(v) ? v : []` as a sequence. */
  function ElemsOr(v: JsValue): seq<JsValue>
  {
    if v.Arr? then v.elems else []
  }
}

/** `Math.round` on exact reals. */
module JsMath {

  /** `Math.round(x)`: the nearest integer, halves rounded up, which is
      `floor(x + 0.5)` for every finite `x`. */
  function Round(x: real): (r: int)
    ensures x - 0.5 < r as real <= x + 0.5
  {
    (x + 0.5).Floor
  }

  lemma RoundOfInteger(n: int)
    ensures Round(n as real) == n
  {
  }

  /** Rounding never reverses an order. */
  lemma RoundMonotone(x: real, y: real)
    requires x <= y
    ensures Round(x) <= Round(y)
  {
  }
}
