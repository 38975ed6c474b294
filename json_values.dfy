// JavaScript values as the tuning tool meets them: parsed JSON objects and arrays, plus
// `undefined` for a property that is not there. Property reads, truthiness, string
// conversion, object spread and `parseInt` of any value.

module JsonValues {
  import opened Wrappers
  import opened JsStrings

  datatype Json =
    | JNull
    | JBool(b: bool)
    | JNum(n: int)
    | JStr(s: string)
    | JArr(items: seq<Json>)
    | JObj(fields: map<string, Json>)
    | JUndefined

  /** JavaScript truthiness. */
  predicate Truthy(v: Json) {
    match v
    case JNull => false
    case JUndefined => false
    case JBool(b) => b
    case JNum(n) => n != 0
    case JStr(s) => s != ""
    case _ => true
  }

  /** `null` or `undefined`: reading a property of these throws. */
  predicate Nullish(v: Json) {
    v.JNull? || v.JUndefined?
  }

  /** `k` is the canonical decimal text of an index below `n`. */
  predicate IndexKey(k: string, n: nat) {
    AllDigits(k) && NatToString(DigitsValue(k)) == k && DigitsValue(k) < n
  }

  /** `v[k]`: an object's own field; an array's or a string's length and its entries;
      `undefined` for everything else. */
  function Get(v: Json, k: string): Json {
    match v
    case JObj(m) => if k in m then m[k] else JUndefined
    case JArr(items) =>
      if k == "length" then JNum(|items|)
      else if IndexKey(k, |items|) then items[DigitsValue(k)]
      else JUndefined
    case JStr(s) =>
      if k == "length" then JNum(|s|)
      else if IndexKey(k, |s|) then JStr([s[DigitsValue(k)]])
      else JUndefined
    case _ => JUndefined
  }

  /** A key with a character that is not a digit names no array or string entry. */
  lemma NamedKey(v: Json, k: string)
    requires !v.JObj? && k != "length" && !AllDigits(k)
    ensures Get(v, k) == JUndefined
  {
  }

  /** `String(v)`, as a template literal converts it. */
  function Text(v: Json): string
    decreases v, 1
  {
    match v
    case JNull => "null"
    case JUndefined => "undefined"
    case JBool(b) => if b then "true" else "false"
    case JNum(n) => IntToString(n)
    case JStr(s) => s
    case JObj(_) => "[object Object]"
    case JArr(items) => JoinTexts(items)
  }

  /** `items.join(",")`, where `null` and `undefined` become empty. */
  function JoinTexts(items: seq<Json>): string
    decreases items, 0
  {
    if items == [] then ""
    else
      var first := if Nullish(items[0]) then "" else Text(items[0]);
      if |items| == 1 then first else first + "," + JoinTexts(items[1..])
  }

  /** The own fields `{...v}` copies: those of an object, none of `null`, `undefined`, a
      boolean or a number. */
  function Spread(v: Json): map<string, Json> {
    if v.JObj? then v.fields else map[]
  }

  /** `parseInt(v)`: the argument is converted to a string first; `None` is NaN. */
  function ParseIntOf(v: Json): Option<int> {
    ParseIntJs(Some(Text(v)))
  }

  /** A number survives `parseInt` unchanged. */
  lemma ParseIntOfNumber(n: int)
    ensures ParseIntOf(JNum(n)) == Some(n)
  {
    IntToStringRoundTrip(n);
  }

  /** `{...v, [k]: x}` keeps every other field and sets only `k`. */
  lemma SpreadSet(v: Json, k: string, x: Json)
    requires v.JObj?
    ensures Get(JObj(Spread(v)[k := x]), k) == x
    ensures forall j :: j != k ==> Get(JObj(Spread(v)[k := x]), j) == Get(v, j)
  {
  }
}
