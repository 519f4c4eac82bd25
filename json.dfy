/** JSON values as the server reads request bodies and writes replies. */
module Json {
  import opened Wrappers
  import opened Strings

  datatype Json =
    | JNull
    | JBool(b: bool)
    | JNum(n: int)
    | JStr(s: string)
    | JArr(items: seq<Json>)
    | JObj(fields: map<string, Json>)

  /** `o.k`: `None` when `o` is not an object or has no member `k` (JavaScript's `undefined`). */
  function Member(o: Json, k: string): (v: Option<Json>)
    ensures v.Some? <==> o.JObj? && k in o.fields
  {
    if o.JObj? && k in o.fields then Some(o.fields[k]) else None
  }

  /** JavaScript truthiness of a value that may be `undefined`. */
  predicate Truthy(v: Option<Json>) {
    match v
    case None => false
    case Some(JNull) => false
    case Some(JBool(b)) => b
    case Some(JNum(n)) => n != 0
    case Some(JStr(s)) => s != ""
    case Some(_) => true
  }

  /** The one-member object `{k: v}` with a string value. */
  function Obj1(k: string, v: string): Json {
    JObj(map[k := JStr(v)])
  }

  /** An object literal whose members may be `undefined`; `JSON.stringify` drops those. */
  function ObjOf(members: seq<(string, Option<Json>)>): (o: Json)
    ensures o.JObj?
    ensures forall k :: k in o.fields ==> exists i :: 0 <= i < |members| && members[i].0 == k && members[i].1.Some?
  {
    if |members| == 0 then JObj(map[])
    else
      var rest := ObjOf(members[1..]).fields;
      var (k, v) := members[0];
      JObj(if v.Some? && k !in rest then rest[k := v.value] else rest)
  }

  /** The string `${v}` gives in a template literal. */
  function JsString(v: Option<Json>): string {
    match v
    case None => "undefined"
    case Some(j) => JsonString(j)
  }

  function JsonString(j: Json): string
    decreases j, 1
  {
    match j
    case JNull => "null"
    case JBool(b) => if b then "true" else "false"
    case JNum(n) => IntToString(n)
    case JStr(s) => s
    case JArr(items) => JoinItems(items, j)
    case JObj(_) => "[object Object]"
  }

  /** `Array.prototype.join(',')`, which writes `null` elements as empty strings. */
  function JoinItems(items: seq<Json>, ghost whole: Json): string
    requires forall i :: 0 <= i < |items| ==> items[i] < whole
    decreases whole, 0, |items|
  {
    if |items| == 0 then ""
    else
      var first := if items[0].JNull? then "" else JsonString(items[0]);
      if |items| == 1 then first else first + "," + JoinItems(items[1..], whole)
  }
}
