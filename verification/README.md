# PreprClient request builder

A Dafny model of the `PreprClient` class of the Prepr Node.js SDK
(`lib/index.js`). The client is configured through a constructor and
chainable setters. Its `fetch` builds a REST request for the Prepr CDN:

- a URL made of the base URL, the path, `?` and an
  `application/x-www-form-urlencoded` query string;
- a header object with the bearer token and, when a user id was given, the
  A/B testing bucket;
- the caller's options, with the abort signal and headers replaced.

The model has five modules:

- `JsValues` (`js_values.dfy`): the JavaScript values the client handles,
  truthiness, `String(x)` and object spread.
- `Utf8` (`utf8.dfy`): UTF-8 encoding and a strict decoder. `Encode` and
  `Decode` round-trip.
- `FormUrlEncoded` (`form_urlencoded.dfy`): the
  application/x-www-form-urlencoded serializer of the WHATWG URL Standard
  (section 5.2), used by `URLSearchParams.toString`. `URLSearchParams`
  itself is a class (`SearchParams`) whose pair list `append` extends in
  place. The parser of section 5.1 is its partner: parsing a serialized
  list gives the list back, so serialization is injective.
- `PreprRequest` (`request.dfy`): the A/B bucket arithmetic, the whitespace
  stripping of the `fields` value, the pairs `_queryStringBuilder`
  appends, and the URL, headers and options `fetch` assembles.
- `PreprClientModel` (`prepr_client.dfy`): the client object. Its fields,
  constructor, setters, `_hashUserId`, `_queryStringBuilder` and `fetch`
  are imperative. Each method is proved against a specification function
  of the state (`InitialState`, `QueryPairs`, `BuildRequest`).

Two behaviours of the code are worth knowing:

- `_hashUserId` stores the bucket in `_userId`, which is also the field
  `fetch` sends as `Prepr-ABTesting`. The declared `_abTestingValue` is
  never written and stays `null`. The model keeps this layout, and
  `AbTestingConsistent` states it.
- The `userId(id)` setter does not test its argument for truthiness before
  hashing it; the constructor hashes only a truthy `userId`. Whether the hash
  itself accepts every argument is up to the murmurhash library (see
  "## Left out").

## Model

| member | source | states |
|---|---|---|
| JsValues.DecimalStringValue | lib/index.js:43-44 | the decimal text `String(n)` gives a non-negative integer reads back as that integer |
| JsValues.FalsyValues | lib/index.js:35-44 | `Truthy` (the test of `userId &&`, `if (query)`, `if (sort)`, `if (limit)`) is false exactly for undefined, null, false, 0 and the empty string |
| JsValues.ToStr | lib/index.js:97 | `String(x)` (template literals, `append`) is empty only for the empty string; a number prints as an integer numeral, with a minus sign exactly when it is negative |
| JsValues.ToStrNumberValue | lib/index.js:43-44 | the numeral `String(n)` prints for an integer reads back as that integer |
| JsValues.IndexProperties | lib/index.js:104 | spreading a string copies one property per character: key `String(i)` holds the i-th character, every key is an index below the length, and there are exactly as many keys as characters |
| Utf8.EncodeChar | lib/index.js:47 | a scalar value encodes to 1 to 4 bytes, exactly one for ASCII, a valid lead byte followed by continuation bytes |
| Utf8.DecodeEncode | lib/index.js:47 | decoding the UTF-8 encoding of any string gives the string back |
| Utf8.EncodeInjective | lib/index.js:47 | distinct strings have distinct UTF-8 encodings |
| Utf8.EncodeAppend | lib/index.js:47 | encoding distributes over concatenation |
| FormUrlEncoded.EncodeByte | lib/index.js:47 | a byte becomes one character (safe byte or `+` for space) or a three-character `%XX` escape, all from the encoded alphabet |
| FormUrlEncoded.EncodeBytes | lib/index.js:47 | percent-encoding a byte string yields only safe ASCII, `+` and `%`-escapes |
| FormUrlEncoded.EncodeComponentAlphabet | lib/index.js:47 | an encoded name or value never contains `=` or `&`, so pair and list boundaries stay unambiguous |
| FormUrlEncoded.EncodeComponentPlain | lib/index.js:47 | a string of alphanumerics and `*-._` is serialized unchanged |
| FormUrlEncoded.DecodeEncodeComponent | lib/index.js:47 | decoding an encoded component (plus to space, percent-decode, UTF-8 decode) gives it back |
| FormUrlEncoded.ParsePairOfSerialized | lib/index.js:47 | a serialized `name=value` pair parses back to the same pair |
| FormUrlEncoded.Serialize | lib/index.js:47 | the serialization is empty exactly when the pair list is empty |
| FormUrlEncoded.ParseSerialize | lib/index.js:47 | parsing the serialization of any pair list gives the same list, in the same order |
| FormUrlEncoded.SerializeInjective | lib/index.js:47 | two pair lists with the same serialization are equal |
| FormUrlEncoded.SerializeAlphabet | lib/index.js:47 | a serialized list uses only the encoded alphabet, `=` and `&`; it never contains `?` or `#` |
| FormUrlEncoded.SearchParams.constructor | lib/index.js:33 | a new `URLSearchParams` holds no pairs |
| FormUrlEncoded.SearchParams.Append | lib/index.js:36-44 | `append` adds its pair at the end and leaves the earlier pairs as they were |
| FormUrlEncoded.SearchParams.ToString | lib/index.js:47 | `toString` returns the serialization of the current pair list, built pair by pair with `&` between pairs |
| PreprRequest.Bucket | lib/index.js:25-28 | the bucket of a 32-bit hash is in [0, 9999], and it is the integer part of hash * 10000 / 2^32 |
| PreprRequest.BucketReachable | lib/index.js:25-28 | every bucket in [0, 9999] is the bucket of some 32-bit hash |
| PreprRequest.StripWhitespace | lib/index.js:36 | the stripped query contains no character that `\s` matches, and it is no longer than the input |
| PreprRequest.StripWhitespaceAppend | lib/index.js:36 | stripping works piecewise, so the kept characters stay in their original order |
| PreprRequest.StripWhitespaceKeepsClean | lib/index.js:36 | a query without whitespace is left unchanged, so stripping is idempotent |
| PreprRequest.StripWhitespaceCounts | lib/index.js:36 | every non-whitespace character occurs as often after stripping as before |
| PreprRequest.QueryPairs | lib/index.js:35-45 | defines the pairs the builder appends, or its TypeError; its properties are stated by the four `QueryPairs…` lemmas below |
| PreprRequest.QueryPairsFailure | lib/index.js:35-36 | the builder fails exactly on a truthy query that is not a string, with the TypeError of the missing `replace` |
| PreprRequest.QueryPairsOrder | lib/index.js:35-45 | on success the pairs are drawn from `fields`, `sort`, `limit`, at most one of each, in that order |
| PreprRequest.QueryPairsPresence | lib/index.js:35-45 | on success `fields`, `sort` and `limit` are each present exactly when the query, sort or limit is truthy |
| PreprRequest.QueryPairsValues | lib/index.js:35-45 | on success `fields` carries the query string with whitespace removed, `sort` and `limit` carry `String(sort)` and `String(limit)` |
| PreprRequest.QueryPairsFieldsClean | lib/index.js:36 | the `fields` value carries no whitespace |
| PreprRequest.QueryStringReadsBack | lib/index.js:32-47 | the query string parses back to exactly the builder's pairs, in order |
| PreprRequest.QueryStringEmpty | lib/index.js:32-47 | the query string is empty exactly when query, sort and limit are all falsy |
| PreprRequest.QueryStringHasNoQuestionMark | lib/index.js:32-47 | the query string contains no `?`, so the URL's `?` separator stays unambiguous |
| PreprRequest.RequestUrl | lib/index.js:97 | defines the template-literal URL; its properties are stated by `RequestUrlSplit` and `RequestUrlUnsetPath` |
| PreprRequest.RequestUrlSplit | lib/index.js:97 | the URL is base URL and path, then `?`, then the query string; that `?` is the URL's last one, and its only one when base URL and path contain none |
| PreprRequest.RequestUrlUnsetPath | lib/index.js:97 | an unset path is spliced in as the text `undefined` |
| PreprRequest.RequestHeaders | lib/index.js:106-110 | `Authorization` is always `Bearer <token>`; `Prepr-ABTesting` is the bucket whenever A/B testing is on; every other caller header is kept; no other key is added |
| PreprRequest.RequestInit | lib/index.js:103-111 | every property the caller's options spread to is kept except `signal` and `headers`, which are always the client's; no other key is added |
| PreprClientModel.InitialState | lib/index.js:8-22 | a new client has the given token, base URL and timeout, or `null`, `https://cdn.prepr.io` and 4000 when missing; no query, sort, limit or path; A/B testing on exactly when `userId` is truthy, with the bucket of its hash |
| PreprClientModel.BuildRequest | lib/index.js:86-111 | defines the request `fetch` assembles once it has its query string, or the TypeError of reading `headers` from null options; its properties are stated by the three `BuildRequest…` lemmas below |
| PreprClientModel.BuildRequestFailure | lib/index.js:86-107 | assembling the request fails exactly when the options are null (the `= {}` default covers only undefined), with the TypeError of reading `options.headers` |
| PreprClientModel.BuildRequestTarget | lib/index.js:97-105 | the URL is base URL, path, `?` and query string; the signal is the client's |
| PreprClientModel.BuildRequestPassThrough | lib/index.js:103-105 | every property the caller's options spread to, other than `signal` and `headers`, is passed through unchanged |
| PreprClientModel.BuildRequestHeaders | lib/index.js:99-110 | `Authorization` is the client's bearer token; the A/B header holds a bucket in [0, 9999] when A/B testing is on, and is present exactly when A/B testing is on or the caller sent one; every other caller header is passed through |
| PreprClientModel.PreprClient.constructor | lib/index.js:8-19 | the fields of a new client are `InitialState(options)`, and the A/B fields are consistent |
| PreprClientModel.PreprClient.HashUserId | lib/index.js:24-30 | stores the bucket of the identifier's hash in `_userId`, turns A/B testing on, and changes no other field |
| PreprClientModel.PreprClient.UserId | lib/index.js:50-54 | hashes the new identifier, returns the same client, and changes nothing else |
| PreprClientModel.PreprClient.Timeout | lib/index.js:56-60 | sets only the timeout and returns the same client |
| PreprClientModel.PreprClient.Query | lib/index.js:62-66 | sets only the query and returns the same client |
| PreprClientModel.PreprClient.Sort | lib/index.js:68-72 | sets only the sort field and returns the same client |
| PreprClientModel.PreprClient.Limit | lib/index.js:74-78 | sets only the limit and returns the same client |
| PreprClientModel.PreprClient.Path | lib/index.js:80-84 | sets only the path and returns the same client |
| PreprClientModel.PreprClient.QueryStringBuilder | lib/index.js:32-48 | throws exactly when `QueryPairs` fails; otherwise returns the serialization of the pairs `QueryPairs` lists |
| PreprClientModel.PreprClient.Fetch | lib/index.js:86-124 | a failing query-string build, or null options, throws and leaves the abort timer scheduled; otherwise the request handed on is `BuildRequest` of the current state, and the timer is cleared |
| PreprClientModel.PreprClient.FetchClearingTimer | lib/index.js:86-124 | the same request or error as `fetch`, with the abort timer cleared on every way out |
| PreprClientModel.CreatePreprClient | lib/index.js:5 | returns a new client in the initial state for the options |
| PreprClientModel.TimerLeftArmedByObjectQuery | lib/index.js:89-95 | a client whose query is an object throws the `replace` TypeError from `fetch` and leaves its abort timer scheduled |
| PreprClientModel.TimerLeftArmedByNullOptions | lib/index.js:86-107 | `fetch(null)` throws the TypeError of reading `headers` from null and leaves its abort timer scheduled |

## Left out

- The network call, `response.json()` and the `new Error(error)` re-wrapping (lib/index.js:113-121) are I/O. `Fetch` ends with the request it would hand to node-fetch.
- `AbortController` and `setTimeout`/`clearTimeout` are modelled only as the abort signal, passed in as a parameter, and a flag saying whether the timer is still scheduled. The abort itself, and the timeout value's use as a delay, are not modelled.
- `murmurhash.v3(userId, 1)` is a foreign library. It is the parameter `Murmur3`, an arbitrary function to 32-bit values.
- `PreprClientModel.PreprClient.UserId`: assumes, as `PreprClientModel.PreprClient.HashUserId` does, that the hash returns for every argument. Ids the library rejects (it reads `key.length`, which throws for `null` and `undefined`) are therefore modelled as hashed, with A/B testing switched on; modelling the hash as a call that can fail would capture those throws.
- PreprRequest.Bucket: the floating-point `hashValue / 2^32 * 10000` and `parseInt` are written as the exact integer quotient. This is exact in IEEE binary64 for every 32-bit hash: the division by 2^32 is exact, and h * 10000 / 2^32 = h * 625 / 2^28 with h * 625 < 2^42. `parseInt` first converts its argument with `String()`, and that never uses exponent notation here: the smallest nonzero product, 10000 / 2^32 ≈ 2.3e-6, is at least 1e-6, and every product is below 1e21.
- Numbers are integers only. Fractions, NaN, infinities and exponent notation in `String(x)` are not modelled, so `sort`, `limit`, `timeout` and option values that are non-integer numbers are outside the model.
- JsValues.IndexProperties: JavaScript indexes a string by UTF-16 code units, the model by Unicode scalar values. The two agree for characters of the Basic Multilingual Plane; a character outside it is two index properties in JavaScript and one here.
- Strings are sequences of Unicode scalar values. A JavaScript string can also hold a lone surrogate, which `URLSearchParams.append` replaces by U+FFFD; such strings are not modelled.
- Object property order is not modelled: objects are maps, so the order of keys in the header and option objects is lost. Values and key sets are kept.
- node-fetch's case-insensitive header merging is not modelled. A caller header `authorization` in lower case is a distinct key here.
- FormUrlEncoded.Parse: like the WHATWG parser, the model's parser keeps a `%` that does not start a valid escape. Unlike it, the model's parser fails when the percent-decoded bytes are not well-formed UTF-8, where the WHATWG parser substitutes U+FFFD. The parser only serves as the partner of the serializer, and serialized input is always well formed.
- A constructor called with no argument or with `null` throws in the destructuring; this is not modelled. A number, string or boolean argument takes every default, which `ClientOptions(Undefined, Undefined, Undefined, Undefined)` models.
- The methods lib/index.d.ts declares but lib/index.js does not define (`customerId`, `skip`, `graphqlQuery`, `graphqlVariables`) are not part of this model.

## Findings

| source | as written | input that shows it | evidently intended | confidence | as-written member | corrected member |
|---|---|---|---|---|---|---|
| lib/index.js:89-107 | the abort timer is armed before `_queryStringBuilder` runs and before the request options are built, and only the network call sits inside the `try`/`finally` that clears it; a query that is truthy but not a string (an object, the type lib/index.d.ts:19 declares) makes `query.replace` throw, null options make `options.headers` throw, and in both cases the timer stays scheduled and later aborts nothing | `createPreprClient({}).query({ slug: 'x' }).fetch()`, shown by `PreprClientModel.TimerLeftArmedByObjectQuery`; `createPreprClient({}).fetch(null)`, shown by `PreprClientModel.TimerLeftArmedByNullOptions` | every way out of `fetch` clears the timer | medium, not executed | PreprClientModel.PreprClient.Fetch | PreprClientModel.PreprClient.FetchClearingTimer |
