/**
 * The per-call context of the REST SDK: it owns one OAuth credential, adds an
 * idempotency request id with a masking flag, and passes header and
 * configuration updates through to the credential.
 */
module ApiContext {
  import opened Wrappers
  import opened Errors
  import opened Credential

  /** The configuration key that selects the endpoint, and its two values. */
  const MODE: string := "mode"
  const LIVE: string := "live"
  const SANDBOX: string := "sandbox"

  /** A Java string that is neither null nor of length zero. */
  predicate NonEmpty(s: Option<string>)
  {
    s.Some? && |s.value| > 0
  }

  predicate IsMode(mode: Option<string>)
  {
    mode == Some(LIVE) || mode == Some(SANDBOX)
  }

  /**
   * setMode on a configuration map: a recognised mode is written under `mode`
   * and every other entry is kept; any other value (null included) fails.
   */
  function ApplyMode(configurations: map<string, string>, mode: Option<string>): (r: Result<map<string, string>, Error>)
    ensures r.Success? <==> IsMode(mode)
    ensures r.Failure? ==> r.error == InvalidMode
    ensures r.Success? ==> r.value.Keys == configurations.Keys + {MODE} && r.value[MODE] == mode.value
    ensures r.Success? ==> forall k :: k in configurations && k != MODE ==> r.value[k] == configurations[k]
  {
    if IsMode(mode) then Success(Merge(configurations, map[MODE := mode.value])) else Failure(InvalidMode)
  }

  /**
   * The deprecated getAccessToken: a failed fetch becomes null, a successful
   * one is passed on unchanged.
   */
  function Swallow(fetched: Result<string, Error>): (r: Option<string>)
    ensures r.None? <==> fetched.Failure?
    ensures fetched.Success? ==> r == Some(fetched.value)
  {
    match fetched
    case Success(token) => Some(token)
    case Failure(_) => None
  }

  // ---------------------------------------------------------------------------
  // Request identity: the stored request id and the masking flag
  // ---------------------------------------------------------------------------

  datatype RequestIdentity = RequestIdentity(requestId: Option<string>, masked: bool)

  /** A usable id is stored; a null or empty one is replaced on the next read. */
  predicate HasId(id: RequestIdentity)
  {
    NonEmpty(id.requestId)
  }

  /**
   * getRequestId: the new identity and the value returned, where `uuid` is what
   * the random-UUID generator would produce. A masked read returns null and
   * changes nothing; an unmasked read returns the stored id, generating and
   * storing `uuid` first when no usable id is stored.
   */
  function ReadRequestId(id: RequestIdentity, uuid: string): (r: (RequestIdentity, Option<string>))
    requires uuid != ""
    ensures r.1.None? <==> id.masked
    ensures r.0.masked == id.masked
    ensures HasId(id) || id.masked ==> r.0 == id
    ensures !id.masked ==> HasId(r.0) && r.1 == r.0.requestId
    ensures !id.masked && !HasId(id) ==> r.1 == Some(uuid)
  {
    if id.masked then (id, None)
    else if HasId(id) then (id, id.requestId)
    else (id.(requestId := Some(uuid)), Some(uuid))
  }

  /** The calls that touch the request identity. */
  datatype IdentityCall = ReadId | SetMask(flag: bool)

  /** The identity after a run of calls, and what each ReadId returned. */
  datatype Trace = Trace(final: RequestIdentity, results: seq<Option<string>>)

  /** `uuids[k]` is what the generator would give if call `k` generated an id. */
  predicate UuidsFor(calls: seq<IdentityCall>, uuids: seq<string>)
  {
    |uuids| == |calls| && forall k :: 0 <= k < |uuids| ==> uuids[k] != ""
  }

  function Step(id: RequestIdentity, call: IdentityCall, uuid: string): Trace
    requires uuid != ""
  {
    match call
    case ReadId => var (next, out) := ReadRequestId(id, uuid); Trace(next, [out])
    case SetMask(flag) => Trace(id.(masked := flag), [])
  }

  function Run(id: RequestIdentity, calls: seq<IdentityCall>, uuids: seq<string>): Trace
    requires UuidsFor(calls, uuids)
    decreases |calls|
  {
    if calls == [] then Trace(id, [])
    else
      var s := Step(id, calls[0], uuids[0]);
      var t := Run(s.final, calls[1..], uuids[1..]);
      Trace(t.final, s.results + t.results)
  }

  /** The masking flag in force at each ReadId of `calls`, starting from `masked`. */
  function MaskFlags(masked: bool, calls: seq<IdentityCall>): seq<bool>
    decreases |calls|
  {
    if calls == [] then []
    else match calls[0]
      case ReadId => [masked] + MaskFlags(masked, calls[1..])
      case SetMask(flag) => MaskFlags(flag, calls[1..])
  }

  /** Running `a` and then `b` is running `a + b`. */
  lemma {:induction false} RunConcat(id: RequestIdentity, a: seq<IdentityCall>, ua: seq<string>,
                                     b: seq<IdentityCall>, ub: seq<string>)
    requires UuidsFor(a, ua) && UuidsFor(b, ub)
    ensures UuidsFor(a + b, ua + ub)
    ensures var t := Run(id, a, ua);
            var t2 := Run(t.final, b, ub);
            Run(id, a + b, ua + ub) == Trace(t2.final, t.results + t2.results)
    decreases |a|
  {
    assert UuidsFor(a + b, ua + ub) by {
      forall k | 0 <= k < |ua + ub| ensures (ua + ub)[k] != "" {
        if k < |ua| { assert (ua + ub)[k] == ua[k]; } else { assert (ua + ub)[k] == ub[k - |ua|]; }
      }
    }
    if a == [] {
      assert a + b == b && ua + ub == ub;
    } else {
      var s := Step(id, a[0], ua[0]);
      assert (a + b)[1..] == a[1..] + b && (ua + ub)[1..] == ua[1..] + ub;
      assert UuidsFor(a[1..], ua[1..]);
      RunConcat(s.final, a[1..], ua[1..], b, ub);
      var t := Run(s.final, a[1..], ua[1..]);
      var t2 := Run(t.final, b, ub);
      assert s.results + (t.results + t2.results) == (s.results + t.results) + t2.results;
    }
  }

  /**
   * Masking is orthogonal to the stored id: a read returns null exactly when
   * the flag set by the latest setMaskRequestId (or the initial one) is true.
   */
  lemma {:induction false} NullExactlyWhenMasked(id: RequestIdentity, calls: seq<IdentityCall>, uuids: seq<string>)
    requires UuidsFor(calls, uuids)
    ensures var t := Run(id, calls, uuids);
            var f := MaskFlags(id.masked, calls);
            |t.results| == |f| && forall k :: 0 <= k < |f| ==> (t.results[k].None? <==> f[k])
    decreases |calls|
  {
    if calls != [] {
      var s := Step(id, calls[0], uuids[0]);
      assert UuidsFor(calls[1..], uuids[1..]);
      NullExactlyWhenMasked(s.final, calls[1..], uuids[1..]);
      var t := Run(s.final, calls[1..], uuids[1..]);
      match calls[0]
      case ReadId =>
        var f := MaskFlags(id.masked, calls[1..]);
        assert MaskFlags(id.masked, calls) == [id.masked] + f;
        assert Run(id, calls, uuids).results == s.results + t.results;
        forall k | 0 <= k < 1 + |f|
          ensures ((s.results + t.results)[k].None? <==> ([id.masked] + f)[k])
        {
          if k > 0 { assert (s.results + t.results)[k] == t.results[k - 1]; }
        }
      case SetMask(flag) =>
    }
  }

  /**
   * Once a usable id is stored, no run of reads and mask changes replaces it,
   * and every read returns either null or that id.
   */
  lemma {:induction false} StoredIdNeverChanges(id: RequestIdentity, calls: seq<IdentityCall>, uuids: seq<string>)
    requires HasId(id) && UuidsFor(calls, uuids)
    ensures var t := Run(id, calls, uuids);
            t.final.requestId == id.requestId &&
            forall k :: 0 <= k < |t.results| ==> t.results[k] == None || t.results[k] == id.requestId
    decreases |calls|
  {
    if calls != [] {
      var s := Step(id, calls[0], uuids[0]);
      assert UuidsFor(calls[1..], uuids[1..]);
      StoredIdNeverChanges(s.final, calls[1..], uuids[1..]);
      var t := Run(s.final, calls[1..], uuids[1..]);
      forall k | 0 <= k < |s.results + t.results|
        ensures (s.results + t.results)[k] == None || (s.results + t.results)[k] == id.requestId
      {
        if k >= |s.results| { assert (s.results + t.results)[k] == t.results[k - |s.results|]; }
      }
    }
  }

  /**
   * A stored id (one supplied to the constructor, say) is what every unmasked
   * read returns, and every masked read returns null.
   */
  lemma StoredIdIsReturned(id: RequestIdentity, calls: seq<IdentityCall>, uuids: seq<string>)
    requires HasId(id) && UuidsFor(calls, uuids)
    ensures var t := Run(id, calls, uuids);
            var f := MaskFlags(id.masked, calls);
            |t.results| == |f| && t.final.requestId == id.requestId &&
            forall k :: 0 <= k < |f| ==> t.results[k] == if f[k] then None else id.requestId
  {
    NullExactlyWhenMasked(id, calls, uuids);
    StoredIdNeverChanges(id, calls, uuids);
  }

  /**
   * With no usable id and masking off, the first read stores and returns a
   * generated id; from then on every unmasked read returns that same id, and
   * no later generator value is used.
   */
  lemma FirstReadFixesId(id: RequestIdentity, calls: seq<IdentityCall>, uuids: seq<string>)
    requires !HasId(id) && !id.masked && UuidsFor(calls, uuids)
    requires |calls| > 0 && calls[0] == ReadId
    ensures var t := Run(id, calls, uuids);
            var f := MaskFlags(id.masked, calls);
            |t.results| == |f| && t.results[0] == Some(uuids[0]) && t.final.requestId == Some(uuids[0]) &&
            forall k :: 0 <= k < |f| ==> t.results[k] == if f[k] then None else Some(uuids[0])
  {
    var s := Step(id, ReadId, uuids[0]);
    assert s == Trace(RequestIdentity(Some(uuids[0]), false), [Some(uuids[0])]);
    assert UuidsFor(calls[1..], uuids[1..]);
    StoredIdIsReturned(s.final, calls[1..], uuids[1..]);
    var t := Run(s.final, calls[1..], uuids[1..]);
    var f := MaskFlags(false, calls[1..]);
    assert MaskFlags(id.masked, calls) == [false] + f;
    forall k | 0 <= k < 1 + |f|
      ensures (s.results + t.results)[k] == if ([false] + f)[k] then None else Some(uuids[0])
    {
      if k > 0 { assert (s.results + t.results)[k] == t.results[k - 1]; }
    }
  }

  /** Every non-null read among `results` returns `v`, and `v` is a usable id. */
  predicate ReadsAre(results: seq<Option<string>>, v: Option<string>)
  {
    forall k :: 0 <= k < |results| && results[k].Some? ==> results[k] == v && NonEmpty(v)
  }

  /**
   * From any identity, whatever mask changes and masked reads come first, a run
   * yields at most one id: every non-null read returns the id stored at the end,
   * which is usable, and a usable id stored at the start is that id.
   */
  lemma {:induction false} OneIdPerRun(id: RequestIdentity, calls: seq<IdentityCall>, uuids: seq<string>)
    requires UuidsFor(calls, uuids)
    ensures var t := Run(id, calls, uuids);
            (HasId(id) ==> t.final.requestId == id.requestId) && ReadsAre(t.results, t.final.requestId)
    decreases |calls|
  {
    if HasId(id) {
      StoredIdNeverChanges(id, calls, uuids);
    }
    if calls != [] {
      var s := Step(id, calls[0], uuids[0]);
      assert UuidsFor(calls[1..], uuids[1..]);
      OneIdPerRun(s.final, calls[1..], uuids[1..]);
      var t := Run(s.final, calls[1..], uuids[1..]);
      assert ReadsAre(t.results, t.final.requestId);
      assert Run(id, calls, uuids) == Trace(t.final, s.results + t.results);
      if s.results != [] && s.results[0].Some? {
        assert calls[0] == ReadId && !id.masked;
        assert HasId(s.final) && s.results == [s.final.requestId];
        StoredIdNeverChanges(s.final, calls[1..], uuids[1..]);
        assert t.final.requestId == s.final.requestId;
      }
      forall k | 0 <= k < |s.results + t.results| && (s.results + t.results)[k].Some?
        ensures (s.results + t.results)[k] == t.final.requestId && NonEmpty(t.final.requestId)
      {
        if k < |s.results| {
          assert (s.results + t.results)[k] == s.results[k];
          assert k == 0;
        } else {
          var j := k - |s.results|;
          assert (s.results + t.results)[k] == t.results[j];
          assert 0 <= j < |t.results| && t.results[j].Some?;
        }
      }
      assert ReadsAre(s.results + t.results, t.final.requestId);
    }
  }

  /**
   * Every unmasked read of any run returns the one id stored at its end, and
   * every masked read returns null.
   */
  lemma UnmaskedReadsAgree(id: RequestIdentity, calls: seq<IdentityCall>, uuids: seq<string>)
    requires UuidsFor(calls, uuids)
    ensures var t := Run(id, calls, uuids);
            var f := MaskFlags(id.masked, calls);
            |t.results| == |f| &&
            forall k :: 0 <= k < |f| ==> t.results[k] == if f[k] then None else t.final.requestId
  {
    var t := Run(id, calls, uuids);
    var f := MaskFlags(id.masked, calls);
    NullExactlyWhenMasked(id, calls, uuids);
    OneIdPerRun(id, calls, uuids);
    assert |t.results| == |f|;
    forall k | 0 <= k < |f|
      ensures t.results[k] == if f[k] then None else t.final.requestId
    {
      assert t.results[k].None? <==> f[k];
      assert ReadsAre(t.results, t.final.requestId);
    }
  }

  /**
   * While masked, reads return null and generate nothing: the stored id, usable
   * or not, is exactly what it was.
   */
  lemma {:induction false} MaskedReadsChangeNothing(id: RequestIdentity, calls: seq<IdentityCall>, uuids: seq<string>)
    requires id.masked && UuidsFor(calls, uuids)
    requires forall k :: 0 <= k < |calls| ==> calls[k] == ReadId
    ensures var t := Run(id, calls, uuids);
            t.final == id && |t.results| == |calls| && forall k :: 0 <= k < |t.results| ==> t.results[k] == None
    decreases |calls|
  {
    if calls != [] {
      assert calls[0] == ReadId;
      assert UuidsFor(calls[1..], uuids[1..]);
      assert forall k :: 0 <= k < |calls[1..]| ==> calls[1..][k] == calls[k + 1];
      MaskedReadsChangeNothing(id, calls[1..], uuids[1..]);
      var t := Run(id, calls[1..], uuids[1..]);
      assert Run(id, calls, uuids).results == [None] + t.results;
    }
  }

  /**
   * Turning masking off after any run reveals the id stored before it, not a
   * newly generated one.
   */
  lemma UnmaskRevealsStoredId(id: RequestIdentity, calls: seq<IdentityCall>, uuids: seq<string>, u: string)
    requires HasId(id) && UuidsFor(calls, uuids) && u != ""
    ensures UuidsFor(calls + [SetMask(false), ReadId], uuids + [u, u])
    ensures var t := Run(id, calls + [SetMask(false), ReadId], uuids + [u, u]);
            t.results == Run(id, calls, uuids).results + [id.requestId] && t.final.requestId == id.requestId
  {
    var tail := [SetMask(false), ReadId];
    RunConcat(id, calls, uuids, tail, [u, u]);
    var t := Run(id, calls, uuids);
    StoredIdNeverChanges(id, calls, uuids);
    assert tail[1..] == [ReadId];
    assert Run(t.final, tail, [u, u]) == Trace(t.final.(masked := false), [id.requestId]);
  }

  // ---------------------------------------------------------------------------
  // The context object
  // ---------------------------------------------------------------------------

  class APIContext {
    var requestId: Option<string>
    var maskRequestId: bool
    /** Never null: every constructor of the Java class assigns it. */
    var credential: OAuthTokenCredential

    ghost function Identity(): RequestIdentity
      reads this
    {
      RequestIdentity(requestId, maskRequestId)
    }

    /**
     * Only the field initialisation that the factory methods below share; each
     * passes a credential it has just allocated, so no two contexts share one.
     */
    constructor Init(c: OAuthTokenCredential)
      ensures credential == c && Identity() == RequestIdentity(None, false)
    {
      requestId, maskRequestId, credential := None, false, c;
    }

    /** The deprecated no-argument constructor: a credential with a null token. */
    constructor ()
      ensures fresh(credential) && Identity() == RequestIdentity(None, false)
      ensures credential.Value() == CredentialValue(None, None, false, None, None, map[], map[])
    {
      requestId, maskRequestId := None, false;
      credential := new OAuthTokenCredential.FromAccessToken(None);
    }

    /** APIContext(accessToken): rejects a null or empty token. */
    static method WithAccessToken(accessToken: Option<string>) returns (r: Result<APIContext, Error>)
      ensures r.Success? <==> NonEmpty(accessToken)
      ensures r.Failure? ==> r.error == AccessTokenRequired
      ensures r.Success? ==> fresh(r.value) && fresh(r.value.credential)
      ensures r.Success? ==> r.value.Identity() == RequestIdentity(None, false)
      ensures r.Success? ==> r.value.credential.Value() == CredentialValue(None, None, false, accessToken, None, map[], map[])
    {
      if !NonEmpty(accessToken) {
        return Failure(AccessTokenRequired);
      }
      var c := new OAuthTokenCredential.FromAccessToken(accessToken);
      var ctx := new APIContext.Init(c);
      return Success(ctx);
    }

    /**
     * APIContext(accessToken, requestId): the token is checked first, so a bad
     * token fails whatever the request id; then a null or empty id fails.
     */
    static method WithAccessTokenAndRequestId(accessToken: Option<string>, requestId: Option<string>)
      returns (r: Result<APIContext, Error>)
      ensures r.Success? <==> NonEmpty(accessToken) && NonEmpty(requestId)
      ensures !NonEmpty(accessToken) ==> r == Failure(AccessTokenRequired)
      ensures NonEmpty(accessToken) && !NonEmpty(requestId) ==> r == Failure(RequestIdRequired)
      ensures r.Success? ==> fresh(r.value) && fresh(r.value.credential)
      ensures r.Success? ==> r.value.Identity() == RequestIdentity(requestId, false) && HasId(r.value.Identity())
      ensures r.Success? ==> r.value.credential.Value() == CredentialValue(None, None, false, accessToken, None, map[], map[])
    {
      r := WithAccessToken(accessToken);
      if r.Failure? {
        return;
      }
      if !NonEmpty(requestId) {
        return Failure(RequestIdRequired);
      }
      r.value.requestId := requestId;
    }

    /**
     * APIContext(clientID, clientSecret, mode, configurations): a non-empty
     * extra map is merged first and the mode is set last, so it wins over any
     * `mode` entry of the map; an unrecognised mode fails.
     */
    static method WithClientCredentialsAndConfigurations(clientId: Option<string>, clientSecret: Option<string>,
                                                          mode: Option<string>, configurations: Option<map<string, string>>)
      returns (r: Result<APIContext, Error>)
      ensures r.Success? <==> IsMode(mode)
      ensures r.Failure? ==> r.error == InvalidMode
      ensures r.Success? ==> fresh(r.value) && fresh(r.value.credential)
      ensures r.Success? ==> r.value.Identity() == RequestIdentity(None, false)
      ensures r.Success? ==>
        var extra := if configurations.Some? then configurations.value else map[];
        r.value.credential.Value() ==
          CredentialValue(clientId, clientSecret, clientId.Some? && clientSecret.Some?, None, None, map[],
                          Merge(extra, map[MODE := mode.value]))
      ensures r.Success? ==> r.value.credential.configurations[MODE] == mode.value
    {
      ghost var extra := if configurations.Some? then configurations.value else map[];
      var c := new OAuthTokenCredential.FromClient(clientId, clientSecret);
      var ctx := new APIContext.Init(c);
      if configurations.Some? && |configurations.value| > 0 {
        c.AddConfigurations(configurations.value);
        assert c.configurations == Merge(map[], extra) == extra;
      } else {
        assert extra == map[] by {
          if configurations.Some? { assert |configurations.value| == 0; }
        }
      }
      assert c.configurations == extra;
      ghost var before := c.Value();
      var o := ctx.SetMode(mode);
      if o.Fail? {
        return Failure(o.error);
      }
      assert c.configurations == Merge(extra, map[MODE := mode.value]);
      assert c.Value() == before.(configurations := c.configurations);
      return Success(ctx);
    }

    /** APIContext(clientID, clientSecret, mode): the form above with no extra map. */
    static method WithClientCredentials(clientId: Option<string>, clientSecret: Option<string>, mode: Option<string>)
      returns (r: Result<APIContext, Error>)
      ensures r.Success? <==> IsMode(mode)
      ensures r.Failure? ==> r.error == InvalidMode
      ensures r.Success? ==> fresh(r.value) && fresh(r.value.credential)
      ensures r.Success? ==> r.value.Identity() == RequestIdentity(None, false)
      ensures r.Success? ==>
        r.value.credential.Value() ==
          CredentialValue(clientId, clientSecret, clientId.Some? && clientSecret.Some?, None, None, map[],
                          map[MODE := mode.value])
    {
      r := WithClientCredentialsAndConfigurations(clientId, clientSecret, mode, None);
    }

    /**
     * setRefreshToken: allowed only when the credential holds client id and
     * secret; then it stores the token and nothing else changes.
     */
    method SetRefreshToken(token: Option<string>) returns (o: Outcome<Error>)
      modifies credential`refreshToken
      ensures o.Pass? <==> credential.hasCredentials
      ensures o.Fail? ==> o.error == ClientCredentialsRequired && credential.refreshToken == old(credential.refreshToken)
      ensures o.Pass? ==> credential.Value() == old(credential.Value()).(refreshToken := token)
    {
      if credential.hasCredentials {
        credential.SetRefreshToken(token);
        o := Pass;
      } else {
        o := Fail(ClientCredentialsRequired);
      }
    }

    /** setMode: only `live` or `sandbox`; a rejected mode changes nothing. */
    method SetMode(mode: Option<string>) returns (o: Outcome<Error>)
      modifies credential`configurations
      ensures o.Pass? <==> IsMode(mode)
      ensures o.Fail? ==> o.error == InvalidMode && credential.configurations == old(credential.configurations)
      ensures o.Pass? ==> credential.configurations == ApplyMode(old(credential.configurations), mode).value
    {
      if !IsMode(mode) {
        return Fail(InvalidMode);
      }
      credential.AddConfiguration(MODE, mode.value);
      o := Pass;
    }

    method GetHTTPHeaders() returns (headers: map<string, string>)
      ensures headers == credential.headers
    {
      headers := credential.headers;
    }

    /** setHTTPHeaders: the given map replaces the headers. */
    method SetHTTPHeaders(httpHeaders: map<string, string>)
      modifies credential`headers
      ensures credential.headers == httpHeaders
    {
      credential.SetHeaders(httpHeaders);
    }

    /** addHTTPHeaders: merged into the headers, the given entries winning. */
    method AddHTTPHeaders(httpHeaders: map<string, string>)
      modifies credential`headers
      ensures credential.headers == Merge(old(credential.headers), httpHeaders)
    {
      credential.AddHeaders(httpHeaders);
    }

    /** addHTTPHeader: one entry, replacing any earlier value of `key`. */
    method AddHTTPHeader(key: string, value: string)
      modifies credential`headers
      ensures credential.headers == Merge(old(credential.headers), map[key := value])
      ensures credential.headers[key] == value
    {
      credential.AddHeader(key, value);
    }

    method GetConfigurationMap() returns (configurations: map<string, string>)
      ensures configurations == credential.configurations
    {
      configurations := credential.configurations;
    }

    /** setConfigurationMap: the given map replaces the configurations. */
    method SetConfigurationMap(configurationMap: map<string, string>)
      modifies credential`configurations
      ensures credential.configurations == configurationMap
    {
      credential.SetConfigurations(configurationMap);
    }

    /** addConfigurations: merged into the configurations, the given entries winning. */
    method AddConfigurations(configurations: map<string, string>)
      modifies credential`configurations
      ensures credential.configurations == Merge(old(credential.configurations), configurations)
    {
      credential.AddConfigurations(configurations);
    }

    /** fetchAccessToken: the credential's answer, a failure propagated. */
    method FetchAccessToken(expired: bool, grant: Option<string>) returns (r: Result<string, Error>)
      modifies credential`accessToken
      ensures (credential.Value(), r) == FetchToken(old(credential.Value()), expired, grant)
    {
      r := credential.GetAccessToken(expired, grant);
    }

    /** The deprecated getAccessToken: fetchAccessToken with a failure turned into null. */
    method GetAccessToken(expired: bool, grant: Option<string>) returns (r: Option<string>)
      modifies credential`accessToken
      ensures var (after, fetched) := FetchToken(old(credential.Value()), expired, grant);
              credential.Value() == after && r == Swallow(fetched)
    {
      var fetched := FetchAccessToken(expired, grant);
      r := Swallow(fetched);
    }

    /** getRequestId, with `uuid` standing for UUID.randomUUID().toString(). */
    method GetRequestId(uuid: string) returns (r: Option<string>)
      requires uuid != ""
      modifies this`requestId
      ensures (Identity(), r) == ReadRequestId(old(Identity()), uuid)
    {
      r := None;
      if !maskRequestId {
        if !NonEmpty(requestId) {
          requestId := Some(uuid);
        }
        r := requestId;
      }
    }

    /** setMaskRequestId: flips the flag and leaves the stored id alone. */
    method SetMaskRequestId(flag: bool)
      modifies this`maskRequestId
      ensures Identity() == old(Identity()).(masked := flag)
    {
      maskRequestId := flag;
    }

    /** getClientID: the credential's client id (null in the direct-token forms). */
    method GetClientID() returns (id: Option<string>)
      ensures id == credential.clientId
    {
      id := credential.clientId;
    }

    /** getClientSecret: the credential's client secret (null in the direct-token forms). */
    method GetClientSecret() returns (secret: Option<string>)
      ensures secret == credential.clientSecret
    {
      secret := credential.clientSecret;
    }
  }
}
