# APIContext of the PayPal REST SDK, in Dafny

This project models `APIContext`, the per-call context of the PayPal Java REST
SDK. A context owns one `OAuthTokenCredential`, which holds the client id and
secret, the access token, the refresh token, and the header and configuration
maps. On top of that the context keeps an idempotency request id and a flag
that masks it. It also passes header and configuration updates through to the
credential.

Layout:

- `wrappers.dfy`: two modules. `Wrappers` has `Option` (a Java reference that
  may be null), `Result` (a return value or a thrown exception) and
  `Outcome`. `Errors` lists the exceptions the context throws.
- `credential.dfy`: module `Credential`. `OAuthTokenCredential` is modelled by
  its contract only: a class with the fields the context uses, the map merge its `add…`
  methods perform, and `FetchToken`, the token request with the authorization
  server as an oracle.
- `api_context.dfy`: module `ApiContext`, holding the class `APIContext`.
  - Its methods change the context and the credential in place. Their
    postconditions tie the new state to pure functions: `ApplyMode`,
    `ReadRequestId`, `Merge`, `FetchToken` and `Swallow`.
  - The request-id rules are proved as lemmas over `Run`, which is any sequence
    of `getRequestId` and `setMaskRequestId` calls.
- `scenarios.dfy`: callers that use only the contracts, with scenarios
  exercising stable request ids, masking, mode validation, the unguarded
  `mode` entry, the refresh-token guard, header merging and a failed token
  refresh.

How the Java code is represented:

- Java constructors that throw become static methods that return
  `Result<APIContext, Error>`, for example `WithAccessTokenAndRequestId`. The
  constructor `Init` is only the field initialisation that they share. Each
  factory passes it a credential it has just allocated, so no two contexts
  share one.
  `APIContext()` cannot fail, so it stays a constructor.
- A Java `String` that may be null is an `Option<string>`. The source's check
  `s == null || s.length() <= 0` is `!NonEmpty(s)`.
- `UUID.randomUUID().toString()` becomes the `uuid` parameter of `GetRequestId`.
  Its only assumption is that the value is non-empty.
- The credential's token request takes two parameters:
  - `expired` is the cache's expiry check;
  - `grant` is the authorization server's reply, where `None` means the
    server refused or could not be reached.
- Java's fluent `return this` is dropped because it adds no behaviour.
  `SetMode` and `SetRefreshToken` can throw, so they return an `Outcome`. The
  header and configuration setters and adders cannot, so they return nothing.
- `credential` has a non-null type. Every Java constructor assigns it (lines
  49, 73 and 94, and the two-argument form through line 111). So the null
  checks in `fetchAccessToken` (line 245), `getClientID` (line 309) and
  `getClientSecret` (line 317) can never take their error branch. The model
  does not include those branches.
- The constants `mode`, `live` and `sandbox` come from `Constants`, which is not
  part of this model.
- The client-credentials constructor merges the extra map first (lines 74-76)
  and then calls `setMode` (line 77). So the `mode` argument always wins over
  a `mode` entry in the extra map.
- Only `setMode` guards the `mode` entry. It is not an invariant of the
  class:
  - `addConfigurations` (217-219) can overwrite it with any value, such as
    `production`;
  - `setConfigurationMap` (207-210) can remove it;
  - the direct-token constructors (89-95, 110-116) and `APIContext()` (47-50)
    never set it.
  `Scenarios.ModeIsNotGuardedByMapUpdates` shows all three.

## Model

| member | source | states |
|---|---|---|
| `ApiContext.ApplyMode` | rest-api-sdk/src/main/java/com/paypal/base/rest/APIContext.java:140-146 | succeeds exactly for `live` or `sandbox`; then `mode` maps to that value and every other configuration entry is kept; otherwise (null included) the result is InvalidMode |
| `ApiContext.APIContext.SetMode` | rest-api-sdk/src/main/java/com/paypal/base/rest/APIContext.java:140-146 | passes exactly for a recognised mode and then writes it into the credential's configurations; a rejected mode leaves the configurations unchanged |
| `ApiContext.ReadRequestId` | rest-api-sdk/src/main/java/com/paypal/base/rest/APIContext.java:257-266 | returns null exactly when masked; a masked read or one with a usable stored id changes nothing; an unmasked read returns the (now usable) stored id, which is the generator's value when none was stored |
| `ApiContext.APIContext.GetRequestId` | rest-api-sdk/src/main/java/com/paypal/base/rest/APIContext.java:257-266 | the new request id, mask flag and returned value are those of `ReadRequestId` on the old ones |
| `ApiContext.APIContext.SetMaskRequestId` | rest-api-sdk/src/main/java/com/paypal/base/rest/APIContext.java:272-274 | sets the flag and leaves the stored request id as it was |
| `ApiContext.NullExactlyWhenMasked` | rest-api-sdk/src/main/java/com/paypal/base/rest/APIContext.java:257-274 | across any sequence of calls, read k returns null exactly when the mask flag in force at that read is true, whatever id is stored |
| `ApiContext.StoredIdNeverChanges` | rest-api-sdk/src/main/java/com/paypal/base/rest/APIContext.java:257-266 | once a usable id is stored, no sequence of reads and mask changes replaces it, and every read returns null or that id |
| `ApiContext.StoredIdIsReturned` | rest-api-sdk/src/main/java/com/paypal/base/rest/APIContext.java:110-116 | for a stored id (such as one supplied to the constructor), every unmasked read returns exactly it and every masked read returns null |
| `ApiContext.FirstReadFixesId` | rest-api-sdk/src/main/java/com/paypal/base/rest/APIContext.java:257-266 | with no usable id and masking off, the first read stores and returns the generated id; every later unmasked read returns that same id and later generator values are never used |
| `ApiContext.OneIdPerRun` | rest-api-sdk/src/main/java/com/paypal/base/rest/APIContext.java:251-266 | from any identity and any sequence of calls: every non-null read returns the id stored at the end, which is usable; a usable id stored at the start is that id, so at most one id is ever generated |
| `ApiContext.UnmaskedReadsAgree` | rest-api-sdk/src/main/java/com/paypal/base/rest/APIContext.java:257-274 | from any identity and any sequence of calls (mask changes and masked reads first included): every unmasked read returns the one id stored at the end, and every masked read returns null |
| `ApiContext.MaskedReadsChangeNothing` | rest-api-sdk/src/main/java/com/paypal/base/rest/APIContext.java:258-265 | while masked, any number of reads return null and leave the identity exactly as it was, so nothing is generated |
| `ApiContext.UnmaskRevealsStoredId` | rest-api-sdk/src/main/java/com/paypal/base/rest/APIContext.java:257-274 | after any sequence of calls, clearing the mask and reading returns the id stored before the sequence, not a new one |
| `ApiContext.RunConcat` | rest-api-sdk/src/main/java/com/paypal/base/rest/APIContext.java:257-274 | running two call sequences one after the other is the same as running their concatenation |
| `ApiContext.APIContext.constructor` | rest-api-sdk/src/main/java/com/paypal/base/rest/APIContext.java:47-50 | the deprecated form: a fresh credential built from a null token, no request id, masking off |
| `ApiContext.APIContext.WithAccessToken` | rest-api-sdk/src/main/java/com/paypal/base/rest/APIContext.java:89-95 | succeeds exactly for a non-empty token, otherwise AccessTokenRequired; on success the context has a fresh direct-token credential holding the token, no request id, and masking off |
| `ApiContext.APIContext.WithAccessTokenAndRequestId` | rest-api-sdk/src/main/java/com/paypal/base/rest/APIContext.java:110-116 | succeeds exactly when both are non-empty; a bad token yields AccessTokenRequired whatever the request id; a good token with a bad id yields RequestIdRequired; on success the supplied id is stored |
| `ApiContext.APIContext.WithClientCredentialsAndConfigurations` | rest-api-sdk/src/main/java/com/paypal/base/rest/APIContext.java:72-78 | succeeds exactly for a recognised mode, otherwise InvalidMode; on success the configurations are the extra map with `mode` set to the argument, so the argument wins over a `mode` key in the map |
| `ApiContext.APIContext.WithClientCredentials` | rest-api-sdk/src/main/java/com/paypal/base/rest/APIContext.java:60-62 | the same with no extra map: the configurations are exactly `{mode: argument}` |
| `ApiContext.APIContext.SetRefreshToken` | rest-api-sdk/src/main/java/com/paypal/base/rest/APIContext.java:125-133 | passes exactly when the credential has client id and secret and then stores the token and changes nothing else; otherwise ClientCredentialsRequired, and the refresh token is left alone |
| `ApiContext.Swallow` | rest-api-sdk/src/main/java/com/paypal/base/rest/APIContext.java:228-235 | null exactly when the fetch failed; otherwise the fetched token unchanged |
| `ApiContext.APIContext.GetAccessToken` | rest-api-sdk/src/main/java/com/paypal/base/rest/APIContext.java:228-235 | acts on the credential exactly as `fetchAccessToken` does, and returns its token, or null in place of its failure |
| `ApiContext.APIContext.FetchAccessToken` | rest-api-sdk/src/main/java/com/paypal/base/rest/APIContext.java:243-249 | the credential's token request: its new state and its result, with a failure propagated to the caller |
| `Credential.FetchToken` | rest-api-sdk/src/main/java/com/paypal/base/rest/APIContext.java:237-249 | only the cached token can change; a direct token (assumed, see Left out), or a cached one that has not expired, is handed out as-is; failure happens exactly when the cache misses and the server refuses, is an AuthenticationFailure and keeps the cache; a success returns and caches exactly the server's reply |
| `Credential.FailedFetchKeepsCachedToken` | rest-api-sdk/src/main/java/com/paypal/base/rest/APIContext.java:237-249 | a failed request, expired or not, leaves the cached token as it was; a later request whose expiry check finds the cache fresh hands out that token |
| `Credential.Merge` | rest-api-sdk/src/main/java/com/paypal/base/rest/APIContext.java:168-189 | the merged map has the keys of both maps; added entries win on a collision, and the other old entries are kept |
| `ApiContext.APIContext.GetHTTPHeaders` | rest-api-sdk/src/main/java/com/paypal/base/rest/APIContext.java:153-155 | returns the credential's current headers |
| `ApiContext.APIContext.SetHTTPHeaders` | rest-api-sdk/src/main/java/com/paypal/base/rest/APIContext.java:163-166 | the headers become exactly the given map, so earlier entries are discarded |
| `ApiContext.APIContext.AddHTTPHeaders` | rest-api-sdk/src/main/java/com/paypal/base/rest/APIContext.java:174-177 | the headers become the old ones merged with the given map, with the given entries winning |
| `ApiContext.APIContext.AddHTTPHeader` | rest-api-sdk/src/main/java/com/paypal/base/rest/APIContext.java:186-189 | adds one entry, replacing any earlier value for that key (last write wins) |
| `ApiContext.APIContext.GetConfigurationMap` | rest-api-sdk/src/main/java/com/paypal/base/rest/APIContext.java:196-198 | returns the credential's current configurations |
| `ApiContext.APIContext.SetConfigurationMap` | rest-api-sdk/src/main/java/com/paypal/base/rest/APIContext.java:207-210 | the configurations become exactly the given map |
| `ApiContext.APIContext.AddConfigurations` | rest-api-sdk/src/main/java/com/paypal/base/rest/APIContext.java:217-219 | the configurations become the old ones merged with the given map, with the given entries winning |
| `ApiContext.APIContext.GetClientID` | rest-api-sdk/src/main/java/com/paypal/base/rest/APIContext.java:308-314 | returns the credential's client id (null in the direct-token forms) |
| `ApiContext.APIContext.GetClientSecret` | rest-api-sdk/src/main/java/com/paypal/base/rest/APIContext.java:316-322 | returns the credential's client secret (null in the direct-token forms) |

## Left out

- `OAuthTokenCredential` internals are not part of this model. The class
  is modelled by its contract only, so these are not covered:
  - how a token is obtained from the authorization server;
  - how the expiry time is computed;
  - the network round trip.
  Two oracle parameters stand for them.
- Credential.FetchToken: the behaviour of `OAuthTokenCredential.getAccessToken`
  is an assumption, because that code is not modelled here. The only visible
  text says the token is regenerated "if null or expired" (lines 223 and
  238). The model makes two assumptions beyond that:
  - a credential without client id and secret hands out its directly supplied
    token as-is, even when `expired` holds;
  - a credential with neither a token nor client credentials, such as the one
    `APIContext()` builds at line 49, asks the server like any other. So the
    `grant` oracle may still give it a token.
- `OAuthTokenCredential.hasCredentials()` is modelled as a field. The
  client-credentials constructor sets it to "client id and secret are both
  non-null". This is an assumption about a file that is not part of this model.
- A new credential is assumed to start with empty header and configuration
  maps. Any defaults the real class loads are not modelled.
- A null map passed to the header and configuration setters and adders is not
  modelled. What the credential does with one is not visible. Only the
  constructor's `configurations` argument is nullable, and it is modelled as an
  `Option`.
- Maps are modelled as values, not as shared Java objects.
  - `getHTTPHeaders` (153-155) and `getConfigurationMap` (196-198) may hand
    back the credential's own map object.
  - `setHTTPHeaders` (163-166) and `setConfigurationMap` (207-210) may keep
    the caller's object.
  - So a caller's later `put` on such a map could reach the credential. The
    model cannot show this aliasing. Whether `OAuthTokenCredential` copies the
    maps is not visible in the code modelled here.
- Null keys and values in the header and configuration maps are not modelled.
  `addHTTPHeader(key, value)` (186-189) accepts null strings, but the model's
  keys and values are `string`.
- `UUID.randomUUID()` randomness and the UUID text format are not modelled.
  This is a foreign library call, so only the non-emptiness of its result is
  assumed.
- Concurrency of the lazy request-id initialisation is not modelled. The source
  has no synchronisation, and the model is sequential.
- `getSdkVersion`/`setSdkVersion` are plain field accessors, left out as
  trivial.
- The deprecated `getHeadersMap`/`setHeadersMap` are left out. They only call
  `getHTTPHeaders()` (line 296) and `setHTTPHeaders(...)` (line 305).
- The contents of `Constants`, the details of the `PayPalRESTException` type,
  and how the transport layer uses these values are external to this class.
- The null-credential branches at lines 245-247, 309-312 and 317-320 are not
  modelled. The non-null type of `credential` makes them unreachable.
