/** Decoded JSON as the Python code sees it: `json.loads` values, indexing them with
    `value[key]`, and `str` of them. */
module JsonData {
  import opened Wrappers
  import opened Strings

  /** A decoded JSON document. An object keeps its members in document order, as the dict
      `json.loads` returns keeps its keys; numbers are the integral ones. */
  datatype Json =
    | JNull
    | JBool(b: bool)
    | JNumber(n: int)
    | JString(s: string)
    | JArray(items: seq<Json>)
    | JObject(members: seq<(string, Json)>)

  /** What indexing decoded JSON raises: a missing key, `[key]` on something that is not a
      dict, `.keys()` on something that is not a dict, and `[0]` of an empty list. */
  datatype JsonError = KeyError(key: string) | TypeError | AttributeError | IndexError

  function Keys(members: seq<(string, Json)>): seq<string>
  {
    seq(|members|, i requires 0 <= i < |members| => members[i].0)
  }

  function Find(members: seq<(string, Json)>, key: string): Result<Json, JsonError>
  {
    if |members| == 0 then Failure(KeyError(key))
    else if members[0].0 == key then Success(members[0].1)
    else Find(members[1..], key)
  }

  /** A member is found exactly when the key is there, and it is the value of its first
      occurrence; a missing key raises KeyError naming it. */
  lemma {:induction false} FindFirst(members: seq<(string, Json)>, key: string)
    ensures Find(members, key).Success? <==> key in Keys(members)
    ensures Find(members, key).Failure? ==> Find(members, key).error == KeyError(key)
    ensures Find(members, key).Success? ==>
      exists i :: 0 <= i < |members| && members[i] == (key, Find(members, key).value)
                  && forall j :: 0 <= j < i ==> members[j].0 != key
  {
    if |members| > 0 && members[0].0 != key {
      FindFirst(members[1..], key);
      assert Keys(members) == [members[0].0] + Keys(members[1..]);
      if Find(members, key).Success? {
        var i :| 0 <= i < |members[1..]| && members[1..][i] == (key, Find(members, key).value)
          && forall j :: 0 <= j < i ==> members[1..][j].0 != key;
        assert members[i + 1] == (key, Find(members, key).value);
      }
    } else if |members| > 0 {
      assert Keys(members)[0] == key;
    }
  }

  /** The first member whose key is `key`, when the members before it all have other keys. */
  lemma {:induction false} FindAt(members: seq<(string, Json)>, key: string, i: nat)
    requires i < |members| && members[i].0 == key
    requires forall j :: 0 <= j < i ==> members[j].0 != key
    ensures Find(members, key) == Success(members[i].1)
  {
    if i > 0 {
      FindAt(members[1..], key, i - 1);
    }
  }

  /** `value[key]`. */
  function Member(value: Json, key: string): Result<Json, JsonError>
  {
    match value
    case JObject(members) => Find(members, key)
    case _ => Failure(TypeError)
  }

  /** `value[keys[0]][keys[1]]...`: the first failing step raises. */
  function Path(value: Json, keys: seq<string>): Result<Json, JsonError>
    decreases |keys|
  {
    if |keys| == 0 then Success(value)
    else
      var next :- Member(value, keys[0]);
      Path(next, keys[1..])
  }

  /** `str` and `repr` of None, a bool or a number. */
  function ScalarText(value: Json): string
  {
    match value
    case JNull => "None"
    case JBool(b) => if b then "True" else "False"
    case JNumber(n) => IntToString(n)
    case _ => ""
  }

  /** `repr` of a decoded value, as it appears inside the `str` of a list or a dict. */
  function Repr(value: Json): string
  {
    match value
    case JString(s) => "'" + s + "'"
    case JArray(items) =>
      "[" + Join(seq(|items|, i requires 0 <= i < |items| => Repr(items[i])), ", ") + "]"
    case JObject(members) =>
      "{" + Join(seq(|members|, i requires 0 <= i < |members| => "'" + members[i].0 + "': " + Repr(members[i].1)), ", ") + "}"
    case _ => ScalarText(value)
  }

  /** `str` of a decoded value: a string is itself, a list or a dict its repr. */
  function Str(value: Json): string
  {
    match value
    case JString(s) => s
    case JArray(_) => Repr(value)
    case JObject(_) => Repr(value)
    case _ => ScalarText(value)
  }
}
