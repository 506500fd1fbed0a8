/** Values shared by every route: optional request fields, results, JSON values and
    JavaScript truthiness as the handlers test it with `!field`. */
module Common {

  datatype Option<T> = None | Some(value: T) {
    function GetOr(default: T): T {
      if Some? then value else default
    }
  }

  datatype Result<T, E> = Ok(value: T) | Err(error: E)

  /** A value as JSON.parse produces it. Numbers are integers here; an object is its list of
      entries, the form Object.entries hands to a caller. */
  datatype Json =
    | JNull
    | JBool(b: bool)
    | JNum(n: int)
    | JStr(s: string)
    | JArr(items: seq<Json>)
    | JObj(fields: seq<(string, Json)>)

  /** JavaScript truthiness of a JSON value. */
  predicate Truthy(j: Json) {
    match j
    case JNull => false
    case JBool(b) => b
    case JNum(n) => n != 0
    case JStr(s) => s != ""
    case JArr(_) => true
    case JObj(_) => true
  }

  /** `!!field` for a request field that is absent (None) or a string. */
  predicate Present(o: Option<string>) {
    o.Some? && o.value != ""
  }

  /** `!!field` for a request field that is absent (None) or a number. */
  predicate PresentId(o: Option<int>) {
    o.Some? && o.value != 0
  }

  /** `!!field` for a request field that is absent (None) or any JSON value. */
  predicate PresentJson(o: Option<Json>) {
    o.Some? && Truthy(o.value)
  }

  function DigitChar(d: nat): char
    requires d < 10
  {
    ('0' as int + d) as char
  }

  /** The decimal numeral JavaScript uses for an array index as a property key. */
  function DecimalString(n: nat): string
    decreases n
  {
    if n < 10 then [DigitChar(n)] else DecimalString(n / 10) + [DigitChar(n % 10)]
  }

  /** `Object.entries(v || {})`: the entries of an object, the indexed elements of an array,
      the indexed characters of a string, and nothing for any other value. */
  function Entries(v: Json): (r: seq<(string, Json)>)
    ensures !Truthy(v) ==> r == []
    ensures v.JObj? ==> r == v.fields
    ensures v.JNull? || v.JBool? || v.JNum? ==> r == []
    ensures v.JArr? ==> |r| == |v.items| && forall i :: 0 <= i < |r| ==> r[i] == (DecimalString(i), v.items[i])
    ensures v.JStr? ==> |r| == |v.s| && forall i :: 0 <= i < |r| ==> r[i] == (DecimalString(i), JStr([v.s[i]]))
  {
    match v
    case JObj(fields) => fields
    case JArr(items) => seq(|items|, i requires 0 <= i < |items| => (DecimalString(i), items[i]))
    case JStr(s) => seq(|s|, i requires 0 <= i < |s| => (DecimalString(i), JStr([s[i]])))
    case _ => []
  }
}
