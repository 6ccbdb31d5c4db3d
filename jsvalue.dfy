/** The JavaScript values the API layer handles: what `response.json()`
    yields, how a property is read from it, when it counts as true, and
    how `String(...)` or a template literal renders it. */
module JsValue {
  import opened Wrappers
  import opened Text
  import Browser

  /** A value JSON text can denote. Numbers are integers in this model. */
  datatype Json =
    | JNull
    | JBool(b: bool)
    | JNum(n: int)
    | JStr(s: string)
    | JArr(items: seq<Json>)
    | JObj(members: seq<(string, Json)>)

  /** A thrown error: its `name` (`Error`, `TypeError`, ...) and `message`. */
  datatype JsError = JsError(name: string, message: string)

  /** `new Error(message)`. */
  function MakeError(message: string): JsError {
    JsError("Error", message)
  }

  /** The value of property `key` among an object's members, or `None`
      (`undefined`) when it has none. */
  function Lookup(members: seq<(string, Json)>, key: string): (r: Option<Json>)
    ensures r.None? <==> forall i :: 0 <= i < |members| ==> members[i].0 != key
    ensures r.Some? ==> exists i :: 0 <= i < |members| && members[i] == (key, r.value)
  {
    if |members| == 0 then None
    else if members[0].0 == key then Some(members[0].1)
    else
      var r := Lookup(members[1..], key);
      assert forall i :: 1 <= i < |members| ==> members[i] == members[1..][i - 1];
      r
  }

  /** `v.key`: reading a property of `null` throws a `TypeError` (with the
      wording of the V8 engine); other non-objects have no such property. */
  function Member(v: Json, key: string): (r: Result<Option<Json>, JsError>)
    ensures r.Err? <==> v.JNull?
    ensures r.Err? ==> r.error.name == "TypeError"
    ensures v.JObj? ==> r == Ok(Lookup(v.members, key))
    ensures !v.JObj? && !v.JNull? ==> r == Ok(None)
  {
    match v
    case JNull => Err(JsError("TypeError", "Cannot read properties of null (reading '" + key + "')"))
    case JObj(members) => Ok(Lookup(members, key))
    case _ => Ok(None)
  }

  /** Truthiness of a property value; `None` is `undefined`. */
  predicate Truthy(v: Option<Json>) {
    match v
    case None => false
    case Some(JNull) => false
    case Some(JBool(b)) => b
    case Some(JNum(n)) => n != 0
    case Some(JStr(s)) => s != ""
    case Some(JArr(_)) => true
    case Some(JObj(_)) => true
  }

  /** A stored item read as a JSON value: `null` or a string. Its
      truthiness is the same under either predicate. */
  lemma TruthyItem(value: Option<string>)
    ensures Browser.Truthy(value) <==> Truthy(if value.Some? then Some(JStr(value.value)) else Some(JNull))
  {
  }

  /** What converting an object with its own `toString` property to text
      throws: a property read from JSON is never a function, so the
      conversion skips it, and the inherited `valueOf` gives back the
      object itself, which is not a primitive. */
  const NoPrimitive := JsError("TypeError", "Cannot convert object to primitive value")

  /** `String(v)` succeeds: no object inside `v` that gets converted has
      its own `toString`. */
  predicate Printable(v: Json)
    decreases v
  {
    match v
    case JObj(members) => Lookup(members, "toString").None?
    case JArr(items) => forall i :: 0 <= i < |items| ==> Printable(items[i])
    case _ => true
  }

  /** `undefined` always prints. */
  predicate PrintableOpt(v: Option<Json>) {
    v.None? || Printable(v.value)
  }

  /** `String(v)`: arrays join their elements with `,` (with `null` as the
      empty text), objects print as `[object Object]` unless they have
      their own `toString`, which makes the conversion throw. */
  function Show(v: Json): (r: Result<string, JsError>)
    ensures r.Ok? <==> Printable(v)
    ensures r.Err? ==> r.error == NoPrimitive
    ensures v.JStr? ==> r == Ok(v.s)
    ensures v.JObj? && Printable(v) ==> r == Ok("[object Object]")
    decreases v
  {
    match v
    case JNull => Ok("null")
    case JBool(b) => Ok(if b then "true" else "false")
    case JNum(n) => Ok(IntToString(n))
    case JStr(s) => Ok(s)
    case JArr(items) =>
      (match ShowElements(items, v)
       case Err(e) => Err(e)
       case Ok(texts) => Ok(Join(texts, ",")))
    case JObj(members) =>
      if Lookup(members, "toString").Some? then Err(NoPrimitive) else Ok("[object Object]")
  }

  /** The texts `Array.prototype.join` uses for the elements of `parent`;
      the first element that does not convert stops the join. */
  function ShowElements(items: seq<Json>, ghost parent: Json): (r: Result<seq<string>, JsError>)
    requires forall i :: 0 <= i < |items| ==> items[i] < parent
    ensures r.Ok? <==> forall i :: 0 <= i < |items| ==> Printable(items[i])
    ensures r.Ok? ==> |r.value| == |items|
    ensures r.Err? ==> r.error == NoPrimitive
    decreases parent, |items|
  {
    if |items| == 0 then Ok([])
    else
      var first := if items[0].JNull? then Ok("") else Show(items[0]);
      match first
      case Err(e) => Err(e)
      case Ok(t) =>
        match ShowElements(items[1..], parent)
        case Err(e) =>
          assert forall i :: 1 <= i < |items| ==> items[i] == items[1..][i - 1];
          Err(e)
        case Ok(ts) =>
          assert forall i :: 1 <= i < |items| ==> items[i] == items[1..][i - 1];
          Ok([t] + ts)
  }

  /** A template literal `${v}`: `undefined` prints as `undefined`. */
  function ShowOpt(v: Option<Json>): (r: Result<string, JsError>)
    ensures r.Ok? <==> PrintableOpt(v)
    ensures r.Err? ==> r.error == NoPrimitive
    ensures v.None? ==> r == Ok("undefined")
  {
    match v
    case None => Ok("undefined")
    case Some(x) => Show(x)
  }

  /** The message text has no `f` at all. */
  lemma NoPrimitiveMessage()
    ensures forall i :: 0 <= i < |NoPrimitive.message| ==> NoPrimitive.message[i] != 'f'
  {
  }
}
