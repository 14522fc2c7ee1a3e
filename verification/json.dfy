/**
  The Python values that `json.loads` and `requests.Response.json()` produce,
  and the few Python operations the application applies to them: dictionary
  lookup with `.get`, truthiness, iteration, `in` and string joining.
  Floating-point numbers are not modelled; numbers are integers.
 */
module Json {
  import opened Optional

  /** A decoded JSON value. A dictionary is kept as its insertion-ordered
      items; a real Python dict has distinct keys, so the first item with a
      given key is the only one. */
  datatype Json =
    | JNull
    | JBool(b: bool)
    | JNumber(n: int)
    | JString(s: string)
    | JArray(items: seq<Json>)
    | JObject(members: seq<(string, Json)>)

  /** `d.get(key)` on a dictionary's items: the value, or None when the key is absent. */
  function Lookup(members: seq<(string, Json)>, key: string): Option<Json>
  {
    if |members| == 0 then None
    else if members[0].0 == key then Some(members[0].1)
    else Lookup(members[1..], key)
  }

  /** The lookup finds the first item carrying the key. */
  lemma {:induction false} LookupFirst(members: seq<(string, Json)>, i: nat)
    requires i < |members|
    requires forall j :: 0 <= j < i ==> members[j].0 != members[i].0
    ensures Lookup(members, members[i].0) == Some(members[i].1)
  {
    if i > 0 {
      assert members[1..][i - 1] == members[i];
      LookupFirst(members[1..], i - 1);
    }
  }

  /** `d.get(key, default)`: the default applies only when the key is absent,
      never when it is present with a null value. */
  function GetOr(members: seq<(string, Json)>, key: string, default: Json): Json
  {
    Lookup(members, key).GetOr(default)
  }

  /** Python truthiness of a decoded value. */
  predicate Truthy(j: Json)
  {
    match j
    case JNull => false
    case JBool(b) => b
    case JNumber(n) => n != 0
    case JString(s) => s != ""
    case JArray(items) => items != []
    case JObject(members) => members != []
  }

  /** The values `for x in j` visits, or None when iterating `j` raises
      TypeError (None, booleans and numbers are not iterable). */
  function Items(j: Json): (r: Option<seq<Json>>)
    ensures r.Some? <==> (j.JArray? || j.JString? || j.JObject?)
    ensures j.JArray? ==> r == Some(j.items)
    ensures j.JString? ==> r.Some? && |r.value| == |j.s|
                           && forall i :: 0 <= i < |j.s| ==> r.value[i] == JString([j.s[i]])
    ensures j.JObject? ==> r.Some? && |r.value| == |j.members|
                           && forall i :: 0 <= i < |j.members| ==> r.value[i] == JString(j.members[i].0)
  {
    match j
    case JArray(items) => Some(items)
    case JString(s) => Some(seq(|s|, i requires 0 <= i < |s| => JString([s[i]])))
    case JObject(members) => Some(seq(|members|, i requires 0 <= i < |members| => JString(members[i].0)))
    case _ => None
  }

  /** The strings in `items`, or None when one of them is not a string
      (`str.join` raises TypeError on a non-string element). */
  function Strings(items: seq<Json>): (r: Option<seq<string>>)
    ensures r.Some? <==> forall i :: 0 <= i < |items| ==> items[i].JString?
    ensures r.Some? ==> |r.value| == |items| && forall i :: 0 <= i < |items| ==> items[i] == JString(r.value[i])
  {
    if |items| == 0 then Some([])
    else if !items[0].JString? then None
    else
      match Strings(items[1..])
      case None => None
      case Some(rest) => Some([items[0].s] + rest)
  }

  /** The decimal digit for `d`. */
  function Digit(d: nat): char
    requires d < 10
  {
    "0123456789"[d]
  }

  /** Python's `str()` of a natural number: its decimal digits, without
      leading zeros. */
  function NatText(n: nat): (r: string)
    ensures |r| >= 1 && (|r| > 1 ==> r[0] != '0')
    ensures forall i :: 0 <= i < |r| ==> '0' <= r[i] <= '9'
    ensures r[|r| - 1] == Digit(n % 10)
  {
    if n < 10 then [Digit(n)] else NatText(n / 10) + [Digit(n % 10)]
  }

  /** Python's `str()` of an integer. */
  function IntText(n: int): (r: string)
    ensures n >= 0 ==> r == NatText(n)
    ensures n < 0 ==> r == "-" + NatText(-n)
  {
    if n < 0 then "-" + NatText(-n) else NatText(n)
  }

  /** The text an f-string interpolates for `j`: a string is inserted as is,
      and a null, boolean or number as Python's `str()` writes it. The `str()`
      of a list or a dictionary is the parameter `repr`, which the model
      leaves abstract. */
  function Format(j: Json, repr: Json -> string): (r: string)
    ensures j.JString? ==> r == j.s
    ensures j.JNull? ==> r == "None"
    ensures j.JBool? ==> r == (if j.b then "True" else "False")
    ensures j.JNumber? ==> r == IntText(j.n)
    ensures j.JArray? || j.JObject? ==> r == repr(j)
  {
    match j
    case JString(s) => s
    case JNull => "None"
    case JBool(b) => if b then "True" else "False"
    case JNumber(n) => IntText(n)
    case _ => repr(j)
  }
}
