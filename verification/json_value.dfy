/**
 * Parsed JSON values and the few JavaScript operations the client code applies
 * to them: property access, truthiness and the `??` operator.
 */
module JsonValue {
  import opened Js

  /** A parsed JSON value; an object keeps its members in source order. */
  datatype Json =
    | JNull
    | JBool(b: bool)
    | JNum(n: real)
    | JStr(s: string)
    | JArr(items: seq<Json>)
    | JObj(members: seq<(string, Json)>)

  /** The value of the last member named `key` (`JSON.parse` keeps the last duplicate). */
  function Member(members: seq<(string, Json)>, key: string): (v: Option<Json>)
    ensures v.Some? <==> exists i :: 0 <= i < |members| && members[i].0 == key
    ensures v.Some? ==> exists i :: 0 <= i < |members| && members[i] == (key, v.value)
  {
    if |members| == 0 then None
    else if members[|members| - 1].0 == key then Some(members[|members| - 1].1)
    else
      var v := Member(members[..|members| - 1], key);
      assert forall i :: 0 <= i < |members| - 1 ==> members[..|members| - 1][i] == members[i];
      v
  }

  /** `v.key`: a member of an object, `undefined` (`None`) on anything else. */
  function Get(v: Json, key: string): Option<Json> {
    if v.JObj? then Member(v.members, key) else None
  }

  /** `undefined` or `null`: what `??` replaces. */
  predicate Nullish(v: Option<Json>) {
    v.None? || v.value.JNull?
  }

  /** `a ?? b`. */
  function Coalesce(a: Option<Json>, b: Option<Json>): (r: Option<Json>)
    ensures !Nullish(a) ==> r == a
    ensures Nullish(a) ==> r == b
  {
    if Nullish(a) then b else a
  }

  /** JavaScript truthiness of a JSON value. */
  predicate TruthyJson(v: Json) {
    match v
    case JNull => false
    case JBool(b) => b
    case JNum(n) => n != 0.0
    case JStr(s) => s != ""
    case JArr(_) => true
    case JObj(_) => true
  }

  /** Truthiness of a possibly `undefined` value. */
  predicate TruthyMember(v: Option<Json>) {
    v.Some? && TruthyJson(v.value)
  }

  /** A later member hides an earlier one of the same name. */
  lemma LastMemberWins(members: seq<(string, Json)>, key: string, v: Json)
    ensures Member(members + [(key, v)], key) == Some(v)
  {
  }

  /** A member of another name does not affect the lookup. */
  lemma OtherMemberIgnored(members: seq<(string, Json)>, key: string, other: string, v: Json)
    requires other != key
    ensures Member(members + [(other, v)], key) == Member(members, key)
  {
    assert (members + [(other, v)])[..|members|] == members;
  }
}
