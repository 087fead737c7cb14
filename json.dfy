/** Values as Python's json.loads returns them, with the two Python
    conversions the ledger applies to them: float(v) and str(v). The text
    form of JSON (RFC 8259) is not modelled: a row carries the value that
    json.loads made of its text. Numbers are held in cents, like every
    amount of the ledger. */
module JsonValues {
  import opened Text
  import opened Options
  import opened Decimal

  datatype Json =
    | JNull
    | JBool(b: bool)
    | JNumber(cents: int)
    | JString(s: string)
    | JArray(items: seq<Json>)
    | JObject(members: map<string, Json>)

  /** float(v), in cents. None where Python raises: TypeError for None,
      lists and dicts, ValueError for text that is not a number. */
  function ToFloat(v: Json): (r: Option<int>)
    ensures v.JNumber? ==> r == Some(v.cents)
    ensures v.JNull? || v.JArray? || v.JObject? ==> r == None
  {
    match v
    case JNumber(c) => Some(c)
    case JBool(b) => Some(if b then 100 else 0)
    case JString(s) => ParseDecimal(s)
    case _ => None
  }

  /** str(v) for the values whose text the model carries: strings, None
      and booleans. None for numbers, lists and dicts. */
  function ToStr(v: Json): Option<string> {
    match v
    case JString(s) => Some(s)
    case JNull => Some("None")
    case JBool(b) => Some(if b then "True" else "False")
    case _ => None
  }

  /** Python's truth value of v. */
  predicate Truthy(v: Json) {
    match v
    case JNull => false
    case JBool(b) => b
    case JNumber(c) => c != 0
    case JString(s) => s != ""
    case JArray(items) => items != []
    case JObject(members) => members != map[]
  }
}
