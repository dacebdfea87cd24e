/** The JavaScript values the source handles: parsed JSON, the object
    literals it builds, and the host functions it calls but whose behaviour
    is not part of this model. */
module Js {
  import opened Wrappers

  /** What `Number(...)` can produce. */
  datatype JsNumber = NaN | Finite(value: real) | Infinite(negative: bool)

  /** A JavaScript value. An object keeps its own enumerable properties in
      the order `Object.entries` reports them. */
  datatype Value =
    | Undefined
    | Null
    | Bool(b: bool)
    | Num(n: JsNumber)
    | Str(s: string)
    | Array(items: seq<Value>)
    | Object(fields: Fields)

  type Fields = seq<(string, Value)>

  /** Host functions taken as parameters: `JSON.parse` (an `Err` carries the
      text of the exception it throws), `Number(...)`, `String(n)` for a
      number, and `keccak256` of web3-utils. */
  datatype Host = Host(
    parseJson: string -> Result<Value, string>,
    toNumber: string -> JsNumber,
    numberText: JsNumber -> string,
    keccak256: string -> string)

  /** The `typeof` operator (note `typeof null === "object"`). */
  function TypeOf(v: Value): string {
    match v
    case Undefined => "undefined"
    case Null => "object"
    case Bool(_) => "boolean"
    case Num(_) => "number"
    case Str(_) => "string"
    case Array(_) => "object"
    case Object(_) => "object"
  }

  /** `Object.keys` of an object's fields. */
  function Keys(fields: Fields): (ks: seq<string>)
    ensures |ks| == |fields|
    ensures forall i :: 0 <= i < |fields| ==> ks[i] == fields[i].0
  {
    seq(|fields|, i requires 0 <= i < |fields| => fields[i].0)
  }

  /** `hasOwnProperty`. */
  predicate HasOwn(fields: Fields, key: string) {
    key in Keys(fields)
  }

  /** The own property `key`, if there is one. */
  function Lookup(fields: Fields, key: string): (r: Option<Value>)
    ensures r.Some? <==> HasOwn(fields, key)
  {
    if fields == [] then None
    else if fields[0].0 == key then Some(fields[0].1)
    else
      assert Keys(fields) == [fields[0].0] + Keys(fields[1..]);
      Lookup(fields[1..], key)
  }

  /** The value of the first field named `key`. */
  lemma {:induction false} LookupAt(fields: Fields, i: nat, key: string)
    requires i < |fields| && fields[i].0 == key
    requires forall j :: 0 <= j < i ==> fields[j].0 != key
    ensures Lookup(fields, key) == Some(fields[i].1)
    decreases i
  {
    if i > 0 {
      LookupAt(fields[1..], i - 1, key);
    }
  }

  /** The rest object of the destructuring `{key, ...rest} = object`. */
  function Without(fields: Fields, key: string): (r: Fields)
    ensures !HasOwn(r, key)
    ensures forall k :: k != key ==> Lookup(r, k) == Lookup(fields, k)
  {
    if fields == [] then []
    else
      var rest := Without(fields[1..], key);
      if fields[0].0 == key then rest
      else
        assert Keys([fields[0]] + rest) == [fields[0].0] + Keys(rest);
        [fields[0]] + rest
  }

  /** The property read `v.key`; `None` is the TypeError JavaScript throws
      when `v` is null or undefined. Only names that no prototype defines are
      read by the source, so every other value yields undefined for them. */
  function Prop(v: Value, key: string): Option<Value> {
    match v
    case Undefined => None
    case Null => None
    case Object(fields) =>
      Some(match Lookup(fields, key) case Some(x) => x case None => Undefined)
    case _ => Some(Undefined)
  }

  function Width(v: Value): nat {
    if v.Array? then |v.items| + 1 else 0
  }

  /** `String(v)`. */
  function ToText(v: Value, numberText: JsNumber -> string): string
    decreases v, Width(v)
  {
    match v
    case Undefined => "undefined"
    case Null => "null"
    case Bool(b) => if b then "true" else "false"
    case Num(n) => numberText(n)
    case Str(s) => s
    case Array(items) => JoinFrom(v, 0, ",", numberText)
    case Object(_) => "[object Object]"
  }

  /** The text `Array.prototype.join` writes for one element: nothing for
      null and undefined. */
  function ElementText(v: Value, numberText: JsNumber -> string): string
    decreases v, Width(v) + 1
  {
    if v.Null? || v.Undefined? then "" else ToText(v, numberText)
  }

  /** `arr.slice(i).join(sep)`. */
  function JoinFrom(arr: Value, i: nat, sep: string, numberText: JsNumber -> string): string
    requires arr.Array? && i <= |arr.items|
    decreases arr, |arr.items| - i
  {
    if i == |arr.items| then ""
    else
      ElementText(arr.items[i], numberText)
      + (if i + 1 == |arr.items| then "" else sep + JoinFrom(arr, i + 1, sep, numberText))
  }
}
