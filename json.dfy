/** Decoded JSON values and the conversions the PHP and JavaScript code
    apply to them: PHP's isset/?? lookups and (int)/(string) casts, and
    JavaScript's truthiness, property access and String(). Decoding and
    encoding themselves are not modelled: where the code calls
    json_decode/JSON.parse the model receives the decoded value (or None
    for a body that does not parse). Numbers are integers only. */
module JsonValue {
  import Text

  datatype Option<T> = None | Some(value: T)

  datatype Json =
    | JNull
    | JBool(b: bool)
    | JNum(n: int)
    | JStr(s: string)
    | JArr(items: seq<Json>)
    | JObj(fields: map<string, Json>)

  // ---------------------------------------------------------------------
  // PHP
  // ---------------------------------------------------------------------

  /** is_array() of what json_decode($s, true) returns: JSON arrays and
      objects both decode to PHP arrays. */
  predicate IsPhpArray(j: Json)
  {
    j.JArr? || j.JObj?
  }

  /** `$data[$key] ?? null` and `isset($data[$key])` on a decoded body, for
      the non-numeric keys the code uses: present only on an object whose
      member is there and not null. */
  function PhpLookup(data: Json, key: string): (r: Option<Json>)
    ensures r.Some? <==> data.JObj? && key in data.fields && data.fields[key] != JNull
    ensures r.Some? ==> r.value == data.fields[key] && r.value != JNull
  {
    if data.JObj? && key in data.fields && data.fields[key] != JNull
    then Some(data.fields[key]) else None
  }

  /** PHP 8's (int) cast. */
  function PhpIntCast(j: Json): int
  {
    match j
    case JNull => 0
    case JBool(b) => if b then 1 else 0
    case JNum(n) => n
    case JStr(s) => Text.PhpStringToInt(s)
    case JArr(items) => if |items| == 0 then 0 else 1
    case JObj(fields) => if |fields| == 0 then 0 else 1
  }

  /** PHP 8's (string) cast ("Array", with a warning, for arrays). */
  function PhpStringCast(j: Json): string
  {
    match j
    case JNull => ""
    case JBool(b) => if b then "1" else ""
    case JNum(n) => Text.IntToString(n)
    case JStr(s) => s
    case JArr(_) => "Array"
    case JObj(_) => "Array"
  }

  /** The (int) cast reads back every decimal string PHP itself would print. */
  lemma PhpIntCastOfPrintedInt(n: int)
    requires Text.PhpIntMin <= n <= Text.PhpIntMax
    ensures PhpIntCast(JStr(PhpStringCast(JNum(n)))) == n
  {
    Text.PhpStringToIntOfIntToString(n);
  }

  // ---------------------------------------------------------------------
  // JavaScript (None stands for `undefined`)
  // ---------------------------------------------------------------------

  /** Boolean(v) for a value that came from JSON.parse, or undefined. */
  predicate Truthy(v: Option<Json>)
  {
    match v
    case None => false
    case Some(j) =>
      match j
      case JNull => false
      case JBool(b) => b
      case JNum(n) => n != 0
      case JStr(s) => s != ""
      case JArr(_) => true
      case JObj(_) => true
  }

  /** `a || b`. */
  function Or(a: Option<Json>, b: Option<Json>): (r: Option<Json>)
    ensures Truthy(a) ==> r == a
    ensures !Truthy(a) ==> r == b
    ensures Truthy(r) <==> Truthy(a) || Truthy(b)
  {
    if Truthy(a) then a else b
  }

  /** `v.key` for a value that is not null: an object's own member, and
      undefined for every other kind of value (the code only reads
      `ts`, `ip` and friends, which no array, string or number carries). */
  function JsProp(v: Json, key: string): (r: Option<Json>)
    ensures r.Some? <==> v.JObj? && key in v.fields
  {
    if v.JObj? && key in v.fields then Some(v.fields[key]) else None
  }

  /** String(v), as `+` applies it when building a key. */
  function JsToString(v: Json): string
    decreases v, 1
  {
    match v
    case JNull => "null"
    case JBool(b) => if b then "true" else "false"
    case JNum(n) => Text.IntToString(n)
    case JStr(s) => s
    case JArr(items) => JsJoin(items, v)
    case JObj(_) => "[object Object]"
  }

  /** Array.prototype.join(',') as String() applies it: null elements
      print as the empty string. */
  function JsJoin(items: seq<Json>, ghost parent: Json): string
    requires forall i :: 0 <= i < |items| ==> items[i] < parent
    decreases parent, 0, |items|
  {
    if items == [] then ""
    else
      var first := if items[0].JNull? then "" else JsToString(items[0]);
      if |items| == 1 then first else first + "," + JsJoin(items[1..], parent)
  }

  /** A JavaScript object as the dashboards keep it: its own properties
      (an absent key is `undefined`). */
  type JsObject = map<string, Json>

  /** `o.key` on an object. */
  function Get(o: JsObject, key: string): (r: Option<Json>)
    ensures r.Some? <==> key in o
    ensures r.Some? ==> r.value == o[key]
  {
    if key in o then Some(o[key]) else None
  }

  /** The own properties `{ ...v }` copies: an object's members; the
      model keeps nothing of other values (a string's or array's index
      keys are never read back). */
  function Spread(v: Json): (r: JsObject)
    ensures v.JObj? ==> r == v.fields
    ensures !v.JObj? ==> r == map[]
  {
    if v.JObj? then v.fields else map[]
  }

  /** `a || b` where b is a plain value. */
  function OrElse(a: Option<Json>, b: Json): (r: Json)
    ensures Truthy(a) ==> r == a.value
    ensures !Truthy(a) ==> r == b
  {
    if Truthy(a) then a.value else b
  }

  /** `(v || '')` turned into text, as in the dashboard's merge key. */
  function TextOrEmpty(v: Option<Json>): string
  {
    if Truthy(v) then JsToString(v.value) else ""
  }
}
