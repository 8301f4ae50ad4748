/**
 * The JSON values and HTTP responses the route handlers build.
 * `JSON.stringify` leaves out members whose value is `undefined`; `Members`
 * models that, and `Lookup` is property access on an object `JSON.parse`
 * produced (a later duplicate key overrides an earlier one).
 */
module Json {
  import opened Optional

  datatype Json =
    | JNull
    | JBool(b: bool)
    | JNum(n: real)
    | JStr(s: string)
    | JArr(items: seq<Json>)
    | JObj(members: seq<(string, Json)>)

  /** A response body: a serialised object, or plain text. */
  datatype Body = JsonBody(fields: seq<(string, Json)>) | TextBody(text: string)

  datatype Response = Response(status: int, body: Body)

  function Keys(fields: seq<(string, Json)>): (ks: seq<string>)
    ensures |ks| == |fields|
    ensures forall i :: 0 <= i < |fields| ==> ks[i] == fields[i].0
  {
    if fields == [] then [] else [fields[0].0] + Keys(fields[1..])
  }

  /** The keys a JSON response body carries (none for a plain-text body). */
  function BodyKeys(b: Body): seq<string> {
    match b
    case JsonBody(fields) => Keys(fields)
    case TextBody(_) => []
  }

  /**
   * The members `JSON.stringify` writes for an object literal whose members may be
   * `undefined` (`None`): the defined ones, in order.
   */
  function Members(pairs: seq<(string, Option<Json>)>): (r: seq<(string, Json)>)
    ensures |r| <= |pairs|
    ensures forall k :: k in Keys(r) <==> exists i :: 0 <= i < |pairs| && pairs[i].0 == k && pairs[i].1.Some?
    ensures (forall i :: 0 <= i < |pairs| ==> pairs[i].1.Some?) ==> |r| == |pairs|
  {
    if pairs == [] then []
    else
      var rest := Members(pairs[1..]);
      assert forall i :: 1 <= i < |pairs| ==> pairs[i] == pairs[1..][i - 1];
      match pairs[0].1
      case Some(v) => [(pairs[0].0, v)] + rest
      case None => rest
  }

  /** Every member comes, key and value, from a defined pair. */
  lemma {:induction false} MembersFromPairs(pairs: seq<(string, Option<Json>)>)
    ensures forall j :: 0 <= j < |Members(pairs)| ==>
              exists i :: 0 <= i < |pairs| && pairs[i] == (Members(pairs)[j].0, Some(Members(pairs)[j].1))
  {
    if pairs != [] {
      MembersFromPairs(pairs[1..]);
      var rest := Members(pairs[1..]);
      assert Members(pairs) == if pairs[0].1.Some? then [(pairs[0].0, pairs[0].1.value)] + rest else rest;
      forall j | 0 <= j < |Members(pairs)|
        ensures exists i :: 0 <= i < |pairs| && pairs[i] == (Members(pairs)[j].0, Some(Members(pairs)[j].1))
      {
        if pairs[0].1.Some? && j == 0 {
          assert pairs[0] == (Members(pairs)[0].0, Some(Members(pairs)[0].1));
        } else {
          var jj := if pairs[0].1.Some? then j - 1 else j;
          assert Members(pairs)[j] == rest[jj];
          var i :| 0 <= i < |pairs[1..]| && pairs[1..][i] == (rest[jj].0, Some(rest[jj].1));
          assert pairs[i + 1] == pairs[1..][i];
        }
      }
    } else {
      assert Members(pairs) == [];
    }
  }

  /** When every value is defined, the members are the pairs themselves, in the same order. */
  lemma {:induction false} MembersAllDefined(pairs: seq<(string, Option<Json>)>)
    requires forall i :: 0 <= i < |pairs| ==> pairs[i].1.Some?
    ensures |Members(pairs)| == |pairs|
    ensures forall i :: 0 <= i < |pairs| ==> Members(pairs)[i] == (pairs[i].0, pairs[i].1.value)
  {
    if pairs != [] {
      assert forall i :: 0 <= i < |pairs[1..]| ==> pairs[1..][i] == pairs[i + 1];
      MembersAllDefined(pairs[1..]);
    }
  }

  /** Members keeps the order of its pairs: the members of a concatenation are the members of each part, in turn. */
  lemma {:induction false} MembersAppend(a: seq<(string, Option<Json>)>, b: seq<(string, Option<Json>)>)
    ensures Members(a + b) == Members(a) + Members(b)
  {
    if a != [] {
      assert (a + b)[0] == a[0];
      assert (a + b)[1..] == a[1..] + b;
      MembersAppend(a[1..], b);
      if a[0].1.Some? {
        assert Members(a + b) == [(a[0].0, a[0].1.value)] + Members(a[1..] + b);
        assert Members(a) == [(a[0].0, a[0].1.value)] + Members(a[1..]);
      } else {
        assert Members(a + b) == Members(a[1..] + b);
        assert Members(a) == Members(a[1..]);
      }
    } else {
      assert a + b == b;
    }
  }

  /** Property access `obj[key]` on a parsed object: the value of the last member named `key`. */
  function Lookup(members: seq<(string, Json)>, key: string): (r: Option<Json>)
    ensures r.Some? <==> exists i :: 0 <= i < |members| && members[i].0 == key
    ensures r.Some? ==> exists i :: (0 <= i < |members| && members[i] == (key, r.value)
                                     && forall j :: i < j < |members| ==> members[j].0 != key)
  {
    if members == [] then None
    else if members[|members| - 1].0 == key then Some(members[|members| - 1].1)
    else
      var r := Lookup(members[..|members| - 1], key);
      assert forall i :: 0 <= i < |members| - 1 ==> members[..|members| - 1][i] == members[i];
      r
  }
}
