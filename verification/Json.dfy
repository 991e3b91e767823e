/** JSON values and the parts of the jsoncpp value interface the services use. */
module Json {
  import opened Outcomes

  /** Objects are maps, as in section 4 of RFC 8259; numbers are integers. */
  datatype Json =
    | JNull
    | JBool(flag: bool)
    | JInt(number: int)
    | JString(text: string)
    | JArray(items: seq<Json>)
    | JObject(members: map<string, Json>)

  function Digits(n: nat): string {
    if n < 10 then [('0' as int + n) as char] else Digits(n / 10) + Digits(n % 10)
  }

  function DigitValue(c: char): int {
    c as int - '0' as int
  }

  /** The decimal notation of a number, without a leading zero. */
  predicate Denotes(text: string, n: nat) {
    if n < 10 then text == [('0' as int + n) as char]
    else |text| > 1 && DigitValue(text[|text| - 1]) == n % 10 && Denotes(text[..|text| - 1], n / 10)
  }

  lemma {:induction false} DigitsDenote(n: nat)
    ensures Denotes(Digits(n), n)
  {
    if n >= 10 {
      DigitsDenote(n / 10);
      var tail := Digits(n % 10);
      assert |Digits(n / 10)| > 0;
      assert Digits(n)[..|Digits(n)| - 1] == Digits(n / 10);
      assert Digits(n)[|Digits(n)| - 1] == tail[0];
    }
  }

  /** `Json::Value::asString`. */
  function AsString(j: Json): Result<string> {
    match j
    case JNull => Ok("")
    case JBool(b) => Ok(if b then "true" else "false")
    case JInt(n) => Ok(if n < 0 then "-" + Digits(-n) else Digits(n))
    case JString(s) => Ok(s)
    case JArray(_) => Err("array is not convertible to string")
    case JObject(_) => Err("object is not convertible to string")
  }

  /** `Json::Value::asBool`. */
  function AsBool(j: Json): Result<bool> {
    match j
    case JNull => Ok(false)
    case JBool(b) => Ok(b)
    case JInt(n) => Ok(n != 0)
    case _ => Err("value is not convertible to bool")
  }

  /** `Json::Value::asUInt` and `asUInt64`, for the type's number of values. */
  function AsUInt(j: Json, range: nat): (r: Result<int>)
    requires range > 1
    ensures r.Ok? ==> 0 <= r.value < range
  {
    match j
    case JNull => Ok(0)
    case JBool(b) => Ok(if b then 1 else 0)
    case JInt(n) => if 0 <= n < range then Ok(n) else Err("number out of range")
    case _ => Err("value is not convertible to an unsigned number")
  }

  /** `Json::Value::getMemberNames`, as a set; jsoncpp lists it in key order. */
  function MemberNames(j: Json): Result<set<string>> {
    match j
    case JNull => Ok({})
    case JObject(m) => Ok(m.Keys)
    case _ => Err("value has no member names")
  }

  /** `j[key]`: null for a missing member. */
  function At(members: map<string, Json>, key: string): Json {
    if key in members then members[key] else JNull
  }

  /** `j[key] = v`, where `j` is null or an object: null becomes an object. */
  function Put(j: Json, key: string, v: Json): Json
    requires j.JNull? || j.JObject?
  {
    if j.JNull? then JObject(map[key := v]) else JObject(j.members[key := v])
  }

  /** `j[key].append(v)`: a missing or null member becomes an array. */
  function AppendAt(j: Json, key: string, v: Json): Json
    requires j.JNull? || j.JObject?
    requires j.JObject? && key in j.members ==> j.members[key].JArray?
  {
    Put(j, key, JArray((if j.JObject? && key in j.members then j.members[key].items else []) + [v]))
  }

  function Strings(s: seq<string>): Json {
    JArray(seq(|s|, i requires 0 <= i < |s| => JString(s[i])))
  }

  /** Every element converted by `asString`, or the first failure. */
  function AllAsStrings(items: seq<Json>): (r: Result<seq<string>>)
    ensures r.Ok? ==> |r.value| == |items|
    ensures r.Ok? <==> forall j :: j in items ==> AsString(j).Ok?
    ensures r.Ok? ==> forall i :: 0 <= i < |items| ==> AsString(items[i]) == Ok(r.value[i])
  {
    if items == [] then Ok([])
    else
      match AllAsStrings(items[..|items| - 1])
      case Err(e) => Err(e)
      case Ok(init) =>
        match AsString(items[|items| - 1])
        case Err(e) => Err(e)
        case Ok(s) => Ok(init + [s])
  }

  lemma StringsRoundTrip(s: seq<string>)
    ensures AllAsStrings(Strings(s).items) == Ok(s)
  {
    var items := Strings(s).items;
    assert AllAsStrings(items).Ok? by {
      assert forall j :: j in items ==> j.JString?;
    }
    assert forall i :: 0 <= i < |s| ==> AsString(items[i]) == Ok(s[i]);
    assert AllAsStrings(items).value == s;
  }
}
