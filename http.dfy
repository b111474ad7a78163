/** The part of Node's `http.ServerResponse` the shared server utilities
    use: a header list kept by `setHeader`/`writeHead`, the status code, and
    the body handed to `end`. */
module Http {
  import opened Wrappers
  import opened Strings

  /** Header name and value pairs, in the order they were first set. */
  type Headers = seq<(string, string)>

  /** Header names are compared without regard to ASCII case. */
  predicate SameName(a: string, b: string) {
    |a| == |b| && forall i :: 0 <= i < |a| ==> LowerChar(a[i]) == LowerChar(b[i])
  }

  /** Position of the header called `name`, if it is set. */
  function HeaderIndex(hs: Headers, name: string): (r: Option<nat>)
    ensures r.Some? ==> r.value < |hs| && SameName(hs[r.value].0, name)
    ensures r.Some? ==> forall k :: 0 <= k < r.value ==> !SameName(hs[k].0, name)
    ensures r.None? ==> forall k :: 0 <= k < |hs| ==> !SameName(hs[k].0, name)
  {
    if hs == [] then None
    else if SameName(hs[0].0, name) then Some(0)
    else match HeaderIndex(hs[1..], name)
      case Some(k) => Some(k + 1)
      case None => None
  }

  /** `getHeader(name)`. */
  function GetHeader(hs: Headers, name: string): (r: Option<string>) {
    match HeaderIndex(hs, name)
    case Some(k) => Some(hs[k].1)
    case None => None
  }

  /** `setHeader(name, value)`: a header already set is replaced where it
      stands, a new one is added at the end. */
  function WithHeader(hs: Headers, name: string, value: string): (r: Headers)
    ensures HeaderIndex(hs, name).Some? ==> |r| == |hs|
    ensures HeaderIndex(hs, name).None? ==> r == hs + [(name, value)]
  {
    match HeaderIndex(hs, name)
    case Some(k) => hs[k := (name, value)]
    case None => hs + [(name, value)]
  }

  /** The headers after setting each pair in order. */
  function WithHeaders(hs: Headers, pairs: Headers): (r: Headers)
    decreases |pairs|
  {
    if pairs == [] then hs else WithHeaders(WithHeader(hs, pairs[0].0, pairs[0].1), pairs[1..])
  }

  /** The value the last pair for `name` carries. */
  function LastValue(pairs: Headers, name: string): (r: Option<string>)
    ensures r.Some? <==> exists k :: 0 <= k < |pairs| && SameName(pairs[k].0, name)
  {
    if pairs == [] then None
    else if SameName(pairs[|pairs| - 1].0, name) then Some(pairs[|pairs| - 1].1)
    else LastValue(pairs[..|pairs| - 1], name)
  }

  lemma IndexAfterWith(hs: Headers, name: string, value: string, other: string)
    ensures HeaderIndex(WithHeader(hs, name, value), name).Some?
    ensures GetHeader(WithHeader(hs, name, value), name) == Some(value)
    ensures !SameName(other, name) ==> GetHeader(WithHeader(hs, name, value), other) == GetHeader(hs, other)
  {
    var r := WithHeader(hs, name, value);
    var k := HeaderIndex(hs, name);
    if k.Some? {
      SameIndex(hs, r, name, k.value);
      if !SameName(other, name) {
        KeptIndex(hs, r, other, k.value);
      }
    } else {
      assert r[|hs|].0 == name;
      NewIndex(hs, name, value, name);
      if !SameName(other, name) {
        NewIndex(hs, name, value, other);
      }
    }
  }

  /** The first header matching `name` sits at `k`. */
  lemma {:induction false} IndexIs(hs: Headers, name: string, k: nat)
    requires k < |hs| && SameName(hs[k].0, name)
    requires forall j :: 0 <= j < k ==> !SameName(hs[j].0, name)
    ensures HeaderIndex(hs, name) == Some(k)
    decreases k
  {
    if k > 0 {
      IndexIs(hs[1..], name, k - 1);
    }
  }

  lemma {:induction false} IndexNone(hs: Headers, name: string)
    requires forall j :: 0 <= j < |hs| ==> !SameName(hs[j].0, name)
    ensures HeaderIndex(hs, name) == None
    decreases |hs|
  {
    if hs != [] {
      IndexNone(hs[1..], name);
    }
  }

  lemma SameIndex(hs: Headers, r: Headers, name: string, k: nat)
    requires HeaderIndex(hs, name) == Some(k) && |r| == |hs|
    requires r[k].0 == name && forall j :: 0 <= j < |hs| && j != k ==> r[j] == hs[j]
    ensures HeaderIndex(r, name) == Some(k) && GetHeader(r, name) == Some(r[k].1)
  {
    forall j | 0 <= j < k
      ensures !SameName(r[j].0, name)
    {
      assert r[j] == hs[j];
    }
    IndexIs(r, name, k);
  }

  lemma KeptIndex(hs: Headers, r: Headers, other: string, k: nat)
    requires k < |hs| && |r| == |hs| && SameName(hs[k].0, r[k].0)
    requires forall j :: 0 <= j < |hs| && j != k ==> r[j] == hs[j]
    requires !SameName(hs[k].0, other)
    ensures HeaderIndex(r, other) == HeaderIndex(hs, other)
    ensures GetHeader(r, other) == GetHeader(hs, other)
  {
    assert !SameName(r[k].0, other);
    match HeaderIndex(hs, other)
    case Some(m) =>
      forall j | 0 <= j < m
        ensures !SameName(r[j].0, other)
      {
        if j != k {
          assert r[j] == hs[j];
        }
      }
      assert r[m] == hs[m];
      IndexIs(r, other, m);
    case None =>
      forall j | 0 <= j < |r|
        ensures !SameName(r[j].0, other)
      {
        if j != k {
          assert r[j] == hs[j];
        }
      }
      IndexNone(r, other);
  }

  lemma NewIndex(hs: Headers, name: string, value: string, other: string)
    requires HeaderIndex(hs, name).None?
    ensures GetHeader(hs + [(name, value)], other)
         == if HeaderIndex(hs, other).Some? then GetHeader(hs, other)
            else if SameName(name, other) then Some(value) else None
  {
    var r := hs + [(name, value)];
    match HeaderIndex(hs, other)
    case Some(m) =>
      assert r[m] == hs[m];
      IndexIs(r, other, m);
    case None =>
      if SameName(name, other) {
        IndexIs(r, other, |hs|);
      } else {
        IndexNone(r, other);
      }
  }

  /** After setting a list of headers, each name reads as the last value
      given for it, and every other header is as it was. */
  lemma {:induction false} GetAfterWithHeaders(hs: Headers, pairs: Headers, name: string)
    ensures GetHeader(WithHeaders(hs, pairs), name)
         == if LastValue(pairs, name).Some? then LastValue(pairs, name) else GetHeader(hs, name)
    decreases |pairs|
  {
    if pairs != [] {
      var next := WithHeader(hs, pairs[0].0, pairs[0].1);
      GetAfterWithHeaders(next, pairs[1..], name);
      IndexAfterWith(hs, pairs[0].0, pairs[0].1, name);
      LastValueCons(pairs, name);
      if SameName(pairs[0].0, name) {
        SameNameGet(next, pairs[0].0, name);
      }
    }
  }

  lemma SameNameGet(hs: Headers, a: string, b: string)
    requires SameName(a, b)
    ensures GetHeader(hs, a) == GetHeader(hs, b)
    decreases |hs|
  {
    if hs != [] {
      SameNameGet(hs[1..], a, b);
    }
  }

  lemma {:induction false} LastValueCons(pairs: Headers, name: string)
    requires pairs != []
    ensures LastValue(pairs, name)
         == if LastValue(pairs[1..], name).Some? then LastValue(pairs[1..], name)
            else if SameName(pairs[0].0, name) then Some(pairs[0].1) else None
    decreases |pairs|
  {
    if |pairs| > 1 {
      var last := |pairs| - 1;
      assert pairs[1..][..|pairs[1..]| - 1] == pairs[..last][1..];
      if !SameName(pairs[last].0, name) {
        LastValueCons(pairs[..last], name);
      }
    }
  }

  /** No two pairs name the same header. */
  predicate DistinctNames(pairs: Headers) {
    forall i, j :: 0 <= i < j < |pairs| ==> !SameName(pairs[i].0, pairs[j].0)
  }

  /** When no two pairs name the same header, each name's last value is the
      one its pair gives. */
  lemma {:induction false} LastOfDistinct(pairs: Headers, k: nat)
    requires DistinctNames(pairs) && k < |pairs|
    ensures LastValue(pairs, pairs[k].0) == Some(pairs[k].1)
    decreases |pairs|
  {
    var last := |pairs| - 1;
    if k < last {
      assert !SameName(pairs[k].0, pairs[last].0);
      var front := pairs[..last];
      assert front[k] == pairs[k];
      LastOfDistinct(front, k);
    }
  }

  /** Setting pairs with distinct names leaves each name reading as its pair
      gives, and any header none of them names as it was. */
  lemma SetDistinct(hs: Headers, pairs: Headers, name: string)
    requires DistinctNames(pairs)
    ensures forall k :: 0 <= k < |pairs| ==> GetHeader(WithHeaders(hs, pairs), pairs[k].0) == Some(pairs[k].1)
    ensures (forall k :: 0 <= k < |pairs| ==> !SameName(pairs[k].0, name))
            ==> GetHeader(WithHeaders(hs, pairs), name) == GetHeader(hs, name)
  {
    forall k | 0 <= k < |pairs|
      ensures GetHeader(WithHeaders(hs, pairs), pairs[k].0) == Some(pairs[k].1)
    {
      LastOfDistinct(pairs, k);
      GetAfterWithHeaders(hs, pairs, pairs[k].0);
    }
    GetAfterWithHeaders(hs, pairs, name);
  }

  /** Names of different lengths differ. */
  lemma NamesDiffer(a: string, b: string)
    requires |a| != |b|
    ensures !SameName(a, b)
  {
  }

  /** Names whose characters at `i` differ, letter case aside, differ. */
  lemma NamesDifferAt(a: string, b: string, i: nat)
    requires i < |a| && i < |b| && LowerChar(a[i]) != LowerChar(b[i])
    ensures !SameName(a, b)
  {
  }

  /** Setting one more header after a prefix of a list. */
  lemma SetNext(hs: Headers, pairs: Headers, i: nat)
    requires i < |pairs|
    ensures WithHeaders(hs, pairs[..i + 1]) == WithHeader(WithHeaders(hs, pairs[..i]), pairs[i].0, pairs[i].1)
  {
    assert pairs[..i + 1] == pairs[..i] + [pairs[i]];
    WithHeadersSnoc(hs, pairs[..i], pairs[i]);
  }

  lemma {:induction false} WithHeadersSnoc(hs: Headers, pairs: Headers, p: (string, string))
    ensures WithHeaders(hs, pairs + [p]) == WithHeader(WithHeaders(hs, pairs), p.0, p.1)
    decreases |pairs|
  {
    if pairs == [] {
      assert ([] + [p])[1..] == [];
    } else {
      assert (pairs + [p])[1..] == pairs[1..] + [p];
      WithHeadersSnoc(WithHeader(hs, pairs[0].0, pairs[0].1), pairs[1..], p);
    }
  }

  /** A JSON value, as handed to `JSON.stringify`. */
  datatype Json =
    | JNull
    | JBool(b: bool)
    | JNumber(n: int)
    | JString(s: string)
    | JObject(fields: seq<(string, Json)>)

  /** The value of the first field called `key` of an object. */
  function Field(j: Json, key: string): Option<Json> {
    if j.JObject? then FieldIn(j.fields, key) else None
  }

  function FieldIn(fields: seq<(string, Json)>, key: string): Option<Json> {
    if fields == [] then None
    else if fields[0].0 == key then Some(fields[0].1)
    else FieldIn(fields[1..], key)
  }

  /** The field at `k` is the first one called `key`. */
  lemma {:induction false} FieldInAt(fields: seq<(string, Json)>, key: string, k: nat)
    requires k < |fields| && fields[k].0 == key
    requires forall j :: 0 <= j < k ==> fields[j].0 != key
    ensures FieldIn(fields, key) == Some(fields[k].1)
    decreases k
  {
    if k > 0 {
      FieldInAt(fields[1..], key, k - 1);
    }
  }

  class Response {
    var headers: Headers
    var statusCode: nat
    var ended: bool
    /** The JSON value whose serialisation `end` sent, if any. */
    var payload: Option<Json>

    /** A fresh response: no headers, status 200, not ended. */
    constructor()
      ensures headers == [] && statusCode == 200 && !ended && payload == None
    {
      headers := [];
      statusCode := 200;
      ended := false;
      payload := None;
    }

    /** `res.setHeader(name, value)`. */
    method SetHeader(name: string, value: string)
      modifies this
      ensures headers == WithHeader(old(headers), name, value)
      ensures statusCode == old(statusCode) && ended == old(ended) && payload == old(payload)
    {
      headers := WithHeader(headers, name, value);
    }

    /** `res.writeHead(status, extra)`. */
    method WriteHead(status: nat, extra: Headers)
      modifies this
      ensures statusCode == status && headers == WithHeaders(old(headers), extra)
      ensures ended == old(ended) && payload == old(payload)
    {
      statusCode := status;
      headers := WithHeaders(headers, extra);
    }

    /** `res.end(body)`. */
    method End(body: Option<Json>)
      modifies this
      ensures ended && payload == body
      ensures headers == old(headers) && statusCode == old(statusCode)
    {
      ended := true;
      payload := body;
    }
  }
}
