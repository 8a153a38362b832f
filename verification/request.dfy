/**
 * The deterministic part of PreprClient (lib/index.js): the A/B bucket
 * arithmetic, the query-string pairs, and the URL, header object and
 * option bundle that `fetch` hands to the network layer.
 */
module PreprRequest {
  import opened JsValues
  import Utf8
  import FormUrlEncoded

  type Pair = FormUrlEncoded.Pair

  const DefaultBaseUrl: string := "https://cdn.prepr.io"
  const DefaultTimeout: int := 4000
  const TwoTo32: int := 0x1_0000_0000
  const BucketCount: int := 10000

  const AbTestingHeader: string := "Prepr-ABTesting"
  const AuthorizationHeader: string := "Authorization"

  type Uint32 = h: int | 0 <= h < 0x1_0000_0000

  /** murmurhash.v3(userId, 1): the 32-bit hash of the identifier, from a library taken as given. */
  type Murmur3 = JsValue -> Uint32

  // ----- A/B bucket -----

  /**
   * `parseInt(h / 2**32 * 10000)`: the hash scaled to [0, 1) and then to
   * [0, 10000), truncated. The quotient and product are exact in binary64
   * (h * 10000 / 2**32 == h * 625 / 2**28 with h * 625 < 2**42), so the
   * truncation is that of the exact rational value.
   */
  function Bucket(h: Uint32): (b: nat)
    ensures b < BucketCount
    ensures b * TwoTo32 <= h * BucketCount < (b + 1) * TwoTo32
  {
    h * BucketCount / TwoTo32
  }

  /** Every bucket is the bucket of some hash value: the scaling leaves no gap in [0, 9999]. */
  lemma BucketReachable(b: nat)
    requires b < BucketCount
    ensures exists h: Uint32 :: Bucket(h) == b
  {
    var h := (b * TwoTo32 + BucketCount - 1) / BucketCount;
    assert h * BucketCount >= b * TwoTo32;
    assert h * BucketCount < b * TwoTo32 + BucketCount;
    assert Bucket(h) == b;
  }

  // ----- `query.replace(/\s/g, '')` -----

  /** The characters `\s` matches in a JavaScript regular expression (WhiteSpace and LineTerminator). */
  predicate IsJsWhiteSpace(c: char) {
    var x := c as int;
    || x == 0x09 || x == 0x0A || x == 0x0B || x == 0x0C || x == 0x0D || x == 0x20
    || x == 0xA0 || x == 0x1680 || 0x2000 <= x <= 0x200A
    || x == 0x2028 || x == 0x2029 || x == 0x202F || x == 0x205F || x == 0x3000
    || x == 0xFEFF
  }

  function StripWhitespace(s: string): (r: string)
    ensures forall i :: 0 <= i < |r| ==> !IsJsWhiteSpace(r[i])
    ensures |r| <= |s|
  {
    if s == [] then ""
    else if IsJsWhiteSpace(s[0]) then StripWhitespace(s[1..])
    else [s[0]] + StripWhitespace(s[1..])
  }

  /** Stripping works piecewise, so the characters kept stay in their original order. */
  lemma {:induction false} StripWhitespaceAppend(a: string, b: string)
    ensures StripWhitespace(a + b) == StripWhitespace(a) + StripWhitespace(b)
  {
    if a == [] {
      assert a + b == b;
    } else {
      assert (a + b)[0] == a[0] && (a + b)[1..] == a[1..] + b;
      StripWhitespaceAppend(a[1..], b);
    }
  }

  /** A string without whitespace is left as it is (so stripping twice is stripping once). */
  lemma {:induction false} StripWhitespaceKeepsClean(s: string)
    requires forall i :: 0 <= i < |s| ==> !IsJsWhiteSpace(s[i])
    ensures StripWhitespace(s) == s
  {
    if s != [] {
      StripWhitespaceKeepsClean(s[1..]);
      assert [s[0]] + s[1..] == s;
    }
  }

  /** Every non-whitespace character occurs as often after stripping as before. */
  lemma {:induction false} StripWhitespaceCounts(s: string, c: char)
    requires !IsJsWhiteSpace(c)
    ensures multiset(StripWhitespace(s))[c] == multiset(s)[c]
  {
    if s != [] {
      StripWhitespaceCounts(s[1..], c);
      assert s == [s[0]] + s[1..];
      assert multiset(s) == multiset([s[0]]) + multiset(s[1..]);
    }
  }

  // ----- `_queryStringBuilder` -----

  const TypeErrorReplace: JsError := TypeError("query.replace is not a function")

  /**
   * The pairs `_queryStringBuilder` appends: `fields` (the query with its
   * whitespace removed), `sort` and `limit`, each only when its value is
   * truthy. A truthy query that is not a string has no `replace` method,
   * so the builder throws a TypeError.
   */
  function QueryPairs(query: JsValue, sort: JsValue, limit: JsValue): Result<seq<Pair>> {
    if Truthy(query) && !query.Str? then Err(TypeErrorReplace)
    else
      Ok((if Truthy(query) then [("fields", StripWhitespace(query.s))] else [])
         + (if Truthy(sort) then [("sort", ToStr(sort))] else [])
         + (if Truthy(limit) then [("limit", ToStr(limit))] else []))
  }

  /** The position of a query-string name in the builder's fixed order. */
  function Rank(name: string): nat {
    if name == "fields" then 0 else if name == "sort" then 1 else if name == "limit" then 2 else 3
  }

  predicate HasName(ps: seq<Pair>, name: string) {
    exists i :: 0 <= i < |ps| && ps[i].0 == name
  }

  /** The builder fails exactly on a truthy, non-string query. */
  lemma QueryPairsFailure(query: JsValue, sort: JsValue, limit: JsValue)
    ensures QueryPairs(query, sort, limit).Err? <==> Truthy(query) && !query.Str?
    ensures QueryPairs(query, sort, limit).Err? ==> QueryPairs(query, sort, limit).error == TypeErrorReplace
  {
  }

  /** On success: only `fields`, `sort` and `limit`, at most once each, and in that order. */
  lemma QueryPairsOrder(query: JsValue, sort: JsValue, limit: JsValue)
    requires QueryPairs(query, sort, limit).Ok?
    ensures var ps := QueryPairs(query, sort, limit).value;
      && |ps| <= 3
      && (forall i :: 0 <= i < |ps| ==> Rank(ps[i].0) < 3)
      && (forall i, j :: 0 <= i < j < |ps| ==> Rank(ps[i].0) < Rank(ps[j].0))
  {
    var ps := QueryPairs(query, sort, limit).value;
    var f := if Truthy(query) then [("fields", StripWhitespace(query.s))] else [];
    var s := if Truthy(sort) then [("sort", ToStr(sort))] else [];
    var l := if Truthy(limit) then [("limit", ToStr(limit))] else [];
    assert ps == f + s + l;
  }

  /** On success, each of `fields`, `sort` and `limit` is present exactly when its value is truthy. */
  lemma QueryPairsPresence(query: JsValue, sort: JsValue, limit: JsValue)
    requires QueryPairs(query, sort, limit).Ok?
    ensures var ps := QueryPairs(query, sort, limit).value;
      && (HasName(ps, "fields") <==> Truthy(query))
      && (HasName(ps, "sort") <==> Truthy(sort))
      && (HasName(ps, "limit") <==> Truthy(limit))
  {
    var ps := QueryPairs(query, sort, limit).value;
    var f := if Truthy(query) then [("fields", StripWhitespace(query.s))] else [];
    var s := if Truthy(sort) then [("sort", ToStr(sort))] else [];
    var l := if Truthy(limit) then [("limit", ToStr(limit))] else [];
    assert ps == f + s + l;
    assert Truthy(query) ==> ps[0].0 == "fields";
    assert Truthy(sort) ==> ps[|f|].0 == "sort";
    assert Truthy(limit) ==> ps[|f| + |s|].0 == "limit";
  }

  /** On success, `fields` carries the query without whitespace, `sort` and `limit` their string forms. */
  lemma QueryPairsValues(query: JsValue, sort: JsValue, limit: JsValue)
    requires QueryPairs(query, sort, limit).Ok?
    ensures var ps := QueryPairs(query, sort, limit).value;
      && (forall i :: 0 <= i < |ps| && ps[i].0 == "fields" ==> query.Str? && ps[i].1 == StripWhitespace(query.s))
      && (forall i :: 0 <= i < |ps| && ps[i].0 == "sort" ==> ps[i].1 == ToStr(sort))
      && (forall i :: 0 <= i < |ps| && ps[i].0 == "limit" ==> ps[i].1 == ToStr(limit))
  {
    var ps := QueryPairs(query, sort, limit).value;
    var f := if Truthy(query) then [("fields", StripWhitespace(query.s))] else [];
    var s := if Truthy(sort) then [("sort", ToStr(sort))] else [];
    var l := if Truthy(limit) then [("limit", ToStr(limit))] else [];
    assert ps == f + s + l;
  }

  /** The `fields` value carries no whitespace at all. */
  lemma QueryPairsFieldsClean(query: JsValue, sort: JsValue, limit: JsValue, i: nat)
    requires QueryPairs(query, sort, limit).Ok?
    requires i < |QueryPairs(query, sort, limit).value|
    requires QueryPairs(query, sort, limit).value[i].0 == "fields"
    ensures forall k :: 0 <= k < |QueryPairs(query, sort, limit).value[i].1| ==>
      !IsJsWhiteSpace(QueryPairs(query, sort, limit).value[i].1[k])
  {
    QueryPairsValues(query, sort, limit);
  }

  /** The query string, read back with the application/x-www-form-urlencoded parser, gives exactly the builder's pairs. */
  lemma QueryStringReadsBack(query: JsValue, sort: JsValue, limit: JsValue)
    requires QueryPairs(query, sort, limit).Ok?
    ensures var ps := QueryPairs(query, sort, limit).value;
      FormUrlEncoded.Parse(FormUrlEncoded.Serialize(ps)) == Utf8.Some(ps)
  {
    FormUrlEncoded.ParseSerialize(QueryPairs(query, sort, limit).value);
  }

  /** The query string is empty exactly when query, sort and limit are all falsy. */
  lemma QueryStringEmpty(query: JsValue, sort: JsValue, limit: JsValue)
    requires QueryPairs(query, sort, limit).Ok?
    ensures FormUrlEncoded.Serialize(QueryPairs(query, sort, limit).value) == ""
      <==> !Truthy(query) && !Truthy(sort) && !Truthy(limit)
  {
    QueryPairsPresence(query, sort, limit);
  }

  /** The query string never contains a `?`, so it cannot be confused with the URL's own separator. */
  lemma QueryStringHasNoQuestionMark(query: JsValue, sort: JsValue, limit: JsValue)
    requires QueryPairs(query, sort, limit).Ok?
    ensures '?' !in FormUrlEncoded.Serialize(QueryPairs(query, sort, limit).value)
  {
    FormUrlEncoded.SerializeAlphabet(QueryPairs(query, sort, limit).value);
  }

  // ----- The request `fetch` assembles -----

  /** `${baseUrl}${path}?${queryString}`: an unset path prints as "undefined". */
  function RequestUrl(baseUrl: JsValue, path: JsValue, queryString: string): string {
    ToStr(baseUrl) + ToStr(path) + "?" + queryString
  }

  /**
   * The builder's `?` sits right after base URL and path, and is the last
   * `?` of the URL whenever the query string has none (which
   * QueryStringHasNoQuestionMark guarantees): what follows it is the query string.
   * With no `?` in base URL and path it is the only one.
   */
  lemma RequestUrlSplit(baseUrl: JsValue, path: JsValue, queryString: string)
    requires '?' !in queryString
    ensures var url := RequestUrl(baseUrl, path, queryString);
      var k := |ToStr(baseUrl)| + |ToStr(path)|;
      && k < |url| && url[k] == '?'
      && url[..k] == ToStr(baseUrl) + ToStr(path)
      && url[k + 1..] == queryString
      && (forall i :: k < i < |url| ==> url[i] != '?')
      && ('?' !in ToStr(baseUrl) + ToStr(path) ==> forall i :: 0 <= i < |url| ==> (url[i] == '?' <==> i == k))
  {
    var prefix := ToStr(baseUrl) + ToStr(path);
    assert RequestUrl(baseUrl, path, queryString) == prefix + "?" + queryString;
    SplitAtQuestionMark(prefix, queryString);
  }

  /** `prefix + "?" + rest` with no `?` in `rest`: the inserted `?` is the last one. */
  lemma SplitAtQuestionMark(prefix: string, rest: string)
    requires '?' !in rest
    ensures var url, k := prefix + "?" + rest, |prefix|;
      && k < |url| && url[k] == '?'
      && url[..k] == prefix
      && url[k + 1..] == rest
      && (forall i :: k < i < |url| ==> url[i] != '?')
      && ('?' !in prefix ==> forall i :: 0 <= i < |url| ==> (url[i] == '?' <==> i == k))
  {
    var url, k := prefix + "?" + rest, |prefix|;
    assert url[..k] == prefix;
    assert url[k + 1..] == rest;
    forall i | k < i < |url|
      ensures url[i] != '?'
    {
      assert url[i] == rest[i - k - 1];
    }
    if '?' !in prefix {
      forall i | 0 <= i < k
        ensures url[i] != '?'
      {
        assert url[i] == prefix[i];
      }
    }
  }

  /** An unset path is spliced in as the text "undefined". */
  lemma RequestUrlUnsetPath(baseUrl: JsValue, queryString: string)
    ensures RequestUrl(baseUrl, Undefined, queryString) == ToStr(baseUrl) + "undefined?" + queryString
  {
  }

  /** `this._hasAbTesting && { 'Prepr-ABTesting': this._userId }`, as the properties its spread copies. */
  function AbTestingHeaders(hasAbTesting: bool, userId: JsValue): map<string, JsValue> {
    if hasAbTesting then map[AbTestingHeader := userId] else map[]
  }

  /**
   * `options.headers`, read from the bundle `fetch` received once its
   * `= {}` default is applied: reading a property of null (or undefined)
   * throws, and no boolean, number or string has a `headers` property.
   */
  function OptionHeaders(options: JsValue): Result<JsValue> {
    match options
    case Undefined => Err(TypeError("Cannot read properties of undefined (reading 'headers')"))
    case Null => Err(TypeErrorNullHeaders)
    case Obj(props) => Ok(Get(props, "headers"))
    case _ => Ok(Undefined)
  }

  const TypeErrorNullHeaders: JsError := TypeError("Cannot read properties of null (reading 'headers')")

  /**
   * `{ ...options.headers, ...abTestingHeaders, Authorization: `Bearer ${token}` }`:
   * later entries win, so Authorization is always the builder's, the A/B
   * header is the builder's whenever A/B testing is on, and every other
   * caller header is kept as it is.
   */
  function RequestHeaders(callerHeaders: JsValue, hasAbTesting: bool, userId: JsValue, token: JsValue): (h: map<string, JsValue>)
    ensures AuthorizationHeader in h && h[AuthorizationHeader] == Str("Bearer " + ToStr(token))
    ensures hasAbTesting ==> AbTestingHeader in h && h[AbTestingHeader] == userId
    ensures h.Keys == Spread(callerHeaders).Keys + {AuthorizationHeader} + (if hasAbTesting then {AbTestingHeader} else {})
    ensures forall k :: (k in Spread(callerHeaders) && k != AuthorizationHeader && (k != AbTestingHeader || !hasAbTesting))
                        ==> h[k] == Spread(callerHeaders)[k]
  {
    Spread(callerHeaders) + AbTestingHeaders(hasAbTesting, userId) + map[AuthorizationHeader := Str("Bearer " + ToStr(token))]
  }

  /**
   * `{ ...options, signal, headers }`: every property the caller's options
   * spread to is kept except `signal` and `headers`, which are always the
   * client's.
   */
  function RequestInit(options: JsValue, signal: JsValue, headers: map<string, JsValue>): (init: map<string, JsValue>)
    ensures init.Keys == Spread(options).Keys + {"signal", "headers"}
    ensures init["signal"] == signal && init["headers"] == Obj(headers)
    ensures forall k :: k in Spread(options) && k != "signal" && k != "headers" ==> init[k] == Spread(options)[k]
  {
    Spread(options) + map["signal" := signal] + map["headers" := Obj(headers)]
  }

  /** The URL and option bundle handed to node-fetch. */
  datatype Request = Request(url: string, init: map<string, JsValue>)
}
