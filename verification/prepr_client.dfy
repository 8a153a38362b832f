/**
 * The PreprClient object of lib/index.js: its fields, the constructor, the
 * chainable setters, `_hashUserId`, `_queryStringBuilder`, and `fetch` up
 * to the point where it hands the request to node-fetch.
 */
module PreprClientModel {
  import opened JsValues
  import FormUrlEncoded
  import opened PreprRequest

  /** The constructor's option bundle; a property left out is `Undefined`. */
  datatype ClientOptions = ClientOptions(token: JsValue, baseUrl: JsValue, timeout: JsValue, userId: JsValue)

  /** Every field of a PreprClient, as one value. */
  datatype ClientState = ClientState(
    token: JsValue,
    baseUrl: JsValue,
    timeout: JsValue,
    query: JsValue,
    sort: JsValue,
    limit: JsValue,
    path: JsValue,
    userId: JsValue,          // holds the A/B bucket once hashing ran
    abTestingValue: JsValue,  // declared, never written
    hasAbTesting: bool)

  /** What a destructuring default yields: the default exactly when the property is undefined. */
  function OrDefault(v: JsValue, default: JsValue): JsValue {
    if v == Undefined then default else v
  }

  /**
   * The A/B fields agree: with A/B testing on, `_userId` is a bucket in
   * [0, 9999]; with it off, `_userId` was never assigned. `_abTestingValue`
   * keeps its initial null.
   */
  predicate AbTestingConsistent(st: ClientState) {
    && (st.hasAbTesting ==> st.userId.Num? && 0 <= st.userId.n < BucketCount)
    && (!st.hasAbTesting ==> st.userId == Undefined)
    && st.abTestingValue == Null
  }

  /** The state right after `new PreprClient(options)`. */
  function InitialState(options: ClientOptions, murmur3: Murmur3): (st: ClientState)
    ensures st.token == (if options.token == Undefined then Null else options.token)
    ensures st.baseUrl == (if options.baseUrl == Undefined then Str(DefaultBaseUrl) else options.baseUrl)
    ensures st.timeout == (if options.timeout == Undefined then Num(DefaultTimeout) else options.timeout)
    ensures st.query == Undefined && st.sort == Undefined && st.limit == Undefined && st.path == Undefined
    ensures st.hasAbTesting <==> Truthy(options.userId)
    ensures st.hasAbTesting ==> st.userId == Num(Bucket(murmur3(options.userId)))
    ensures AbTestingConsistent(st)
  {
    var id := OrDefault(options.userId, Null);
    ClientState(
      OrDefault(options.token, Null),
      OrDefault(options.baseUrl, Str(DefaultBaseUrl)),
      OrDefault(options.timeout, Num(DefaultTimeout)),
      Undefined, Undefined, Undefined, Undefined,
      if Truthy(id) then Num(Bucket(murmur3(id))) else Undefined,
      Null,
      Truthy(id))
  }

  /**
   * What `fetch` builds once it has its query string: `options` defaults
   * to `{}` when undefined, the URL is spliced together, and the request
   * options spread the caller's; reading `options.headers` throws when the
   * caller passed null.
   */
  function BuildRequest(st: ClientState, queryString: string, options: JsValue, signal: JsValue): Result<Request> {
    var given := OrDefault(options, Obj(map[]));
    match OptionHeaders(given)
    case Err(e) => Err(e)
    case Ok(callerHeaders) =>
      Ok(Request(
        RequestUrl(st.baseUrl, st.path, queryString),
        RequestInit(given, signal, RequestHeaders(callerHeaders, st.hasAbTesting, st.userId, st.token))))
  }

  /** The headers the caller passed in `options.headers`, as its spread copies them. */
  function CallerHeaders(options: JsValue): map<string, JsValue> {
    if options.Obj? then Spread(Get(options.props, "headers")) else map[]
  }

  /** Assembling the request fails exactly when the options are null, with the TypeError of reading `headers`. */
  lemma BuildRequestFailure(st: ClientState, queryString: string, options: JsValue, signal: JsValue)
    ensures BuildRequest(st, queryString, options, signal).Err? <==> options == Null
    ensures options == Null ==> BuildRequest(st, queryString, options, signal).error == TypeErrorNullHeaders
  {
  }

  /** Where the request goes: the URL is base URL, path, `?` and query string, and the signal is the client's. */
  lemma BuildRequestTarget(st: ClientState, queryString: string, options: JsValue, signal: JsValue)
    requires BuildRequest(st, queryString, options, signal).Ok?
    ensures var r := BuildRequest(st, queryString, options, signal).value;
      && r.url == ToStr(st.baseUrl) + ToStr(st.path) + "?" + queryString
      && "signal" in r.init && r.init["signal"] == signal
  {
    RequestAssembled(st, queryString, options, signal);
  }

  /** Every property the caller's options spread to, other than `signal` and `headers`, is passed through. */
  lemma BuildRequestPassThrough(st: ClientState, queryString: string, options: JsValue, signal: JsValue)
    requires BuildRequest(st, queryString, options, signal).Ok?
    ensures var r := BuildRequest(st, queryString, options, signal).value;
      forall k :: k in Spread(options) && k != "signal" && k != "headers" ==> k in r.init && r.init[k] == Spread(options)[k]
  {
    RequestAssembled(st, queryString, options, signal);
    DefaultedOptionsSpread(options);
  }

  /** A successful assembly, spelled out: it only happens for non-null options. */
  lemma RequestAssembled(st: ClientState, queryString: string, options: JsValue, signal: JsValue)
    requires BuildRequest(st, queryString, options, signal).Ok?
    ensures options != Null
    ensures var given := OrDefault(options, Obj(map[]));
      BuildRequest(st, queryString, options, signal).value == Request(
        RequestUrl(st.baseUrl, st.path, queryString),
        RequestInit(given, signal, RequestHeaders(OptionHeaders(given).value, st.hasAbTesting, st.userId, st.token)))
  {
  }

  /** The `= {}` default spreads to nothing, just as `undefined` does. */
  lemma DefaultedOptionsSpread(options: JsValue)
    ensures Spread(OrDefault(options, Obj(map[]))) == Spread(options)
  {
  }

  /**
   * The headers of the request: Authorization is the client's bearer
   * token; the A/B header is present with the stored bucket exactly when
   * A/B testing is on (else whatever the caller sent, if anything); every
   * other caller header is passed through.
   */
  lemma BuildRequestHeaders(st: ClientState, queryString: string, options: JsValue, signal: JsValue)
    requires AbTestingConsistent(st)
    requires BuildRequest(st, queryString, options, signal).Ok?
    ensures var r := BuildRequest(st, queryString, options, signal).value;
      var caller := CallerHeaders(options);
      && "headers" in r.init && r.init["headers"].Obj?
      && var h := r.init["headers"].props;
      && h[AuthorizationHeader] == Str("Bearer " + ToStr(st.token))
      && (st.hasAbTesting ==> exists b :: 0 <= b < BucketCount && h[AbTestingHeader] == Num(b))
      && (AbTestingHeader in h <==> st.hasAbTesting || AbTestingHeader in caller)
      && (forall k :: k in caller && k != AuthorizationHeader && k != AbTestingHeader ==> k in h && h[k] == caller[k])
  {
    var callerHeaders := OptionHeaders(OrDefault(options, Obj(map[]))).value;
    var h := RequestHeaders(callerHeaders, st.hasAbTesting, st.userId, st.token);
    RequestHeadersPlaced(st, queryString, options, signal);
    CallerHeadersRead(options);
    if st.hasAbTesting {
      assert h[AbTestingHeader] == Num(st.userId.n) && 0 <= st.userId.n < BucketCount;
    }
  }

  /** Reading `options.headers` and spreading it gives the caller's headers. */
  lemma CallerHeadersRead(options: JsValue)
    requires options != Null
    ensures OptionHeaders(OrDefault(options, Obj(map[]))).Ok?
    ensures Spread(OptionHeaders(OrDefault(options, Obj(map[]))).value) == CallerHeaders(options)
  {
  }

  /** The request's `headers` option is the merged header object, built from the caller's headers. */
  lemma RequestHeadersPlaced(st: ClientState, queryString: string, options: JsValue, signal: JsValue)
    requires BuildRequest(st, queryString, options, signal).Ok?
    ensures var callerHeaders := OptionHeaders(OrDefault(options, Obj(map[]))).value;
      var r := BuildRequest(st, queryString, options, signal).value;
      && "headers" in r.init
      && r.init["headers"] == Obj(RequestHeaders(callerHeaders, st.hasAbTesting, st.userId, st.token))
  {
    var given := OrDefault(options, Obj(map[]));
    var h := RequestHeaders(OptionHeaders(given).value, st.hasAbTesting, st.userId, st.token);
    assert BuildRequest(st, queryString, options, signal).value.init == RequestInit(given, signal, h);
  }

  /** How `fetch` leaves: it throws before the network call, or it hands a request to node-fetch. */
  datatype FetchExit = Threw(error: JsError) | Dispatched(request: Request)

  class PreprClient {
    var token: JsValue
    var baseUrl: JsValue
    var timeout: JsValue
    var query: JsValue
    var sort: JsValue
    var limit: JsValue
    var path: JsValue
    var userId: JsValue
    var abTestingValue: JsValue
    var hasAbTesting: bool

    function State(): ClientState
      reads this
    {
      ClientState(token, baseUrl, timeout, query, sort, limit, path, userId, abTestingValue, hasAbTesting)
    }

    ghost predicate Valid()
      reads this
    {
      AbTestingConsistent(State())
    }

    /** `new PreprClient(options)`: defaults for missing options, and the A/B bucket when a truthy userId is given. */
    constructor (options: ClientOptions, murmur3: Murmur3)
      ensures Valid()
      ensures State() == InitialState(options, murmur3)
    {
      abTestingValue := Null;
      hasAbTesting := false;
      token := OrDefault(options.token, Null);
      baseUrl := OrDefault(options.baseUrl, Str(DefaultBaseUrl));
      timeout := OrDefault(options.timeout, Num(DefaultTimeout));
      query, sort, limit, path, userId := Undefined, Undefined, Undefined, Undefined, Undefined;
      new;
      var id := OrDefault(options.userId, Null);
      if Truthy(id) {
        HashUserId(id, murmur3);
      }
    }

    /** `_hashUserId`: stores the bucket in `_userId` (not `_abTestingValue`) and switches A/B testing on. */
    method HashUserId(id: JsValue, murmur3: Murmur3)
      requires Valid()
      modifies this
      ensures Valid()
      ensures hasAbTesting
      ensures State() == old(State()).(userId := Num(Bucket(murmur3(id))), hasAbTesting := true)
    {
      var hashValue := murmur3(id);
      userId := Num(Bucket(hashValue));
      hasAbTesting := true;
    }

    /** `userId(id)`: hashes unconditionally (even a falsy id), replacing any earlier bucket. */
    method UserId(id: JsValue, murmur3: Murmur3) returns (self: PreprClient)
      requires Valid()
      modifies this
      ensures self == this && Valid()
      ensures hasAbTesting
      ensures State() == old(State()).(userId := Num(Bucket(murmur3(id))), hasAbTesting := true)
    {
      HashUserId(id, murmur3);
      self := this;
    }

    method Timeout(milliseconds: JsValue) returns (self: PreprClient)
      requires Valid()
      modifies this
      ensures self == this && Valid()
      ensures State() == old(State()).(timeout := milliseconds)
    {
      timeout := milliseconds;
      self := this;
    }

    method Query(q: JsValue) returns (self: PreprClient)
      requires Valid()
      modifies this
      ensures self == this && Valid()
      ensures State() == old(State()).(query := q)
    {
      query := q;
      self := this;
    }

    method Sort(field: JsValue) returns (self: PreprClient)
      requires Valid()
      modifies this
      ensures self == this && Valid()
      ensures State() == old(State()).(sort := field)
    {
      sort := field;
      self := this;
    }

    method Limit(l: JsValue) returns (self: PreprClient)
      requires Valid()
      modifies this
      ensures self == this && Valid()
      ensures State() == old(State()).(limit := l)
    {
      limit := l;
      self := this;
    }

    method Path(p: JsValue) returns (self: PreprClient)
      requires Valid()
      modifies this
      ensures self == this && Valid()
      ensures State() == old(State()).(path := p)
    {
      path := p;
      self := this;
    }

    /** `_queryStringBuilder`: conditional appends to a fresh URLSearchParams, then its serialization. */
    method QueryStringBuilder(q: JsValue, s: JsValue, l: JsValue) returns (r: Result<string>)
      ensures QueryPairs(q, s, l).Err? ==> r == Err(QueryPairs(q, s, l).error)
      ensures QueryPairs(q, s, l).Ok? ==> r == Ok(FormUrlEncoded.Serialize(QueryPairs(q, s, l).value))
    {
      ghost var expected := QueryPairs(q, s, l);
      var queryString := new FormUrlEncoded.SearchParams();
      if Truthy(q) {
        if !q.Str? {
          assert expected == Err(TypeErrorReplace);
          return Err(TypeErrorReplace);
        }
        queryString.Append("fields", StripWhitespace(q.s));
      }
      ghost var withFields := queryString.list;
      assert withFields == (if Truthy(q) then [("fields", StripWhitespace(q.s))] else []);
      if Truthy(s) {
        queryString.Append("sort", ToStr(s));
      }
      ghost var withSort := queryString.list;
      assert withSort == withFields + (if Truthy(s) then [("sort", ToStr(s))] else []);
      if Truthy(l) {
        queryString.Append("limit", ToStr(l));
      }
      assert queryString.list == withSort + (if Truthy(l) then [("limit", ToStr(l))] else []);
      assert expected == Ok(queryString.list);
      var output := queryString.ToString();
      return Ok(output);
    }

    /**
     * `fetch(options)` up to the network call. `signal` is the signal of the
     * AbortController this call creates. `timerPending` says whether the
     * abort timer armed at the start is still scheduled when `fetch` leaves:
     * `clearTimeout` sits in a `finally` that only covers the network call,
     * so a throw from the query-string builder leaves it armed.
     */
    method Fetch(options: JsValue, signal: JsValue) returns (exit: FetchExit, timerPending: bool)
      ensures QueryPairs(query, sort, limit).Err? ==>
        exit == Threw(QueryPairs(query, sort, limit).error) && timerPending
      ensures QueryPairs(query, sort, limit).Ok? ==>
        var built := BuildRequest(State(), FormUrlEncoded.Serialize(QueryPairs(query, sort, limit).value), options, signal);
        && (built.Err? ==> exit == Threw(built.error) && timerPending)
        && (built.Ok? ==> exit == Dispatched(built.value) && !timerPending)
    {
      var given := OrDefault(options, Obj(map[]));  // options = {}
      var timerArmed := true;  // setTimeout(() => controller.abort(), this._timeout)
      var hasQueryString := QueryStringBuilder(query, sort, limit);
      if hasQueryString.Err? {
        return Threw(hasQueryString.error), timerArmed;
      }
      var requestString := RequestUrl(baseUrl, path, hasQueryString.value);
      var callerHeaders := OptionHeaders(given);
      if callerHeaders.Err? {
        return Threw(callerHeaders.error), timerArmed;
      }
      var headers := RequestHeaders(callerHeaders.value, hasAbTesting, userId, token);
      var requestOptions := RequestInit(given, signal, headers);
      exit := Dispatched(Request(requestString, requestOptions));
      timerArmed := false;  // finally { clearTimeout(fetchTimeout) }
      timerPending := timerArmed;
    }

    /**
     * `fetch` with everything after arming the timer -- query string, URL,
     * headers and options -- moved inside the guarded block, so that the
     * abort timer is cleared on every way out.
     */
    method FetchClearingTimer(options: JsValue, signal: JsValue) returns (exit: FetchExit, timerPending: bool)
      ensures !timerPending
      ensures QueryPairs(query, sort, limit).Err? ==> exit == Threw(QueryPairs(query, sort, limit).error)
      ensures QueryPairs(query, sort, limit).Ok? ==>
        var built := BuildRequest(State(), FormUrlEncoded.Serialize(QueryPairs(query, sort, limit).value), options, signal);
        && (built.Err? ==> exit == Threw(built.error))
        && (built.Ok? ==> exit == Dispatched(built.value))
    {
      var given := OrDefault(options, Obj(map[]));
      var timerArmed := true;
      var hasQueryString := QueryStringBuilder(query, sort, limit);
      if hasQueryString.Err? {
        exit := Threw(hasQueryString.error);
      } else {
        var requestString := RequestUrl(baseUrl, path, hasQueryString.value);
        var callerHeaders := OptionHeaders(given);
        if callerHeaders.Err? {
          exit := Threw(callerHeaders.error);
        } else {
          var headers := RequestHeaders(callerHeaders.value, hasAbTesting, userId, token);
          exit := Dispatched(Request(requestString, RequestInit(given, signal, headers)));
        }
      }
      timerArmed := false;
      timerPending := timerArmed;
    }
  }

  /** `createPreprClient(options)`. */
  method CreatePreprClient(options: ClientOptions, murmur3: Murmur3) returns (client: PreprClient)
    ensures fresh(client) && client.Valid()
    ensures client.State() == InitialState(options, murmur3)
  {
    client := new PreprClient(options, murmur3);
  }

  /**
   * A query object (the declared type of `query` in lib/index.d.ts) makes
   * `fetch()` throw a TypeError and leave the abort timer scheduled.
   */
  method TimerLeftArmedByObjectQuery(murmur3: Murmur3) returns (exit: FetchExit, timerPending: bool)
    ensures exit == Threw(TypeErrorReplace)
    ensures timerPending
  {
    var client := CreatePreprClient(ClientOptions(Undefined, Undefined, Undefined, Undefined), murmur3);
    var same := client.Query(Obj(map["slug" := Str("x")]));
    exit, timerPending := client.Fetch(Undefined, Undefined);
  }

  /** `fetch(null)` throws on `options.headers` and leaves the abort timer scheduled too. */
  method TimerLeftArmedByNullOptions(murmur3: Murmur3) returns (exit: FetchExit, timerPending: bool)
    ensures exit == Threw(TypeErrorNullHeaders)
    ensures timerPending
  {
    var client := CreatePreprClient(ClientOptions(Undefined, Undefined, Undefined, Undefined), murmur3);
    exit, timerPending := client.Fetch(Null, Undefined);
  }
}
