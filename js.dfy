/** Decoded JSON values and the JavaScript evaluation rules the prompt
    library applies to them: property access, truthiness, array spread and
    template-literal rendering, together with the failures those can raise. */
module Js {
  import opened JsString

  datatype Option<+T> = None | Some(value: T)

  /** A value as JSON.parse produces it.  Numbers are exact reals; objects are
      maps from property names, so key order is not recorded. */
  datatype Json =
    | JNull
    | JBool(b: bool)
    | JNumber(n: real)
    | JString(s: string)
    | JArray(elems: seq<Json>)
    | JObject(fields: map<string, Json>)

  /** The outcome of JSON.parse on a stored or uploaded text: a value, or the
      SyntaxError that parse throws. */
  datatype Decoded = Malformed | Wellformed(value: Json)

  /** What a JavaScript operation can throw.  Engine messages are not part of
      the model: TypeError and QuotaExceeded stand for the error objects the
      engine or the browser raise; Error carries the message of an Error that
      the prompt library throws itself. */
  datatype Fault = TypeError | QuotaExceeded | Error(message: string)

  /** Completion of an operation that may throw. */
  datatype Outcome<+T> = Returned(value: T) | Threw(fault: Fault)

  /** `v.key`: null throws a TypeError; an object yields its own property or
      undefined (None); every other JSON value has none of the property names
      the library reads, so yields undefined. */
  function Get(v: Json, key: string): (r: Outcome<Option<Json>>)
    ensures r.Threw? <==> v.JNull?
    ensures r.Threw? ==> r.fault == TypeError
  {
    match v
    case JNull => Threw(TypeError)
    case JObject(f) => Returned(if key in f then Some(f[key]) else None)
    case _ => Returned(None)
  }

  /** `v.key` where `v` is known not to be null. */
  function Field(v: Json, key: string): Option<Json>
  {
    if v.JObject? && key in v.fields then Some(v.fields[key]) else None
  }

  /** `p.id === id` for a record that is not null. */
  predicate IdIs(p: Json, id: string)
  {
    Field(p, "id") == Some(JString(id))
  }

  /** JavaScript truthiness of a JSON value. */
  predicate Truthy(v: Json)
  {
    match v
    case JNull => false
    case JBool(b) => b
    case JNumber(n) => n != 0.0
    case JString(s) => s != []
    case _ => true
  }

  /** `typeof v === "object"` together with `v` being truthy: objects and
      arrays, but not null. */
  predicate IsObjectLike(v: Json)
  {
    v.JObject? || v.JArray?
  }

  /** The elements `[...v]` spreads: an array gives its elements, a string its
      characters as one-character strings; anything else is not iterable. */
  function Spread(v: Json): (r: Outcome<seq<Json>>)
    ensures r.Threw? <==> !(v.JArray? || v.JString?)
    ensures v.JArray? ==> r == Returned(v.elems)
    ensures v.JString? ==> r.Returned? && |r.value| == |v.s|
                           && forall i :: 0 <= i < |v.s| ==> r.value[i] == JString([v.s[i]])
  {
    match v
    case JArray(a) => Returned(a)
    case JString(s) => Returned(seq(|s|, i requires 0 <= i < |s| => JString([s[i]])))
    case _ => Threw(TypeError)
  }

  /** Largest integer that JavaScript numbers represent exactly (2^53). */
  const SafeLimit: int := 0x20_0000_0000_0000

  /** The text a template literal `${v}` produces, where None stands for
      undefined.  Integral numbers beyond 2^53 and numbers with a fractional
      part are printed by JavaScript's double-to-string algorithm, which is
      not modelled: for those the result is None. */
  function TemplateText(v: Option<Json>): Option<string>
  {
    match v
    case None => Some("undefined")
    case Some(j) => ValueText(j)
  }

  function ValueText(v: Json): Option<string>
  {
    match v
    case JNull => Some("null")
    case JBool(b) => Some(if b then "true" else "false")
    case JString(s) => Some(s)
    case JNumber(n) =>
      if n == n.Floor as real && -SafeLimit < n.Floor < SafeLimit then Some(IntText(n.Floor)) else None
    case JObject(_) => Some("[object Object]")
    case JArray(a) => JoinText(a)
  }

  /** Array.prototype.join(","), as used by an array's toString: null
      elements render as the empty string. */
  function JoinText(a: seq<Json>): Option<string>
  {
    if a == [] then Some("")
    else
      var head := if a[0].JNull? then Some("") else ValueText(a[0]);
      var rest := JoinText(a[1..]);
      if head.None? || rest.None? then None
      else if |a| == 1 then head
      else Some(head.value + "," + rest.value)
  }
}
