/**
 * The OAuth credential that each API context owns, modelled by its contract only:
 * client id and secret, a directly supplied or cached access token, a refresh
 * token, and the header and configuration maps the transport layer reads.
 * The round trip to the authorization server is an oracle (`grant`), and so is
 * the cache's expiry check (`expired`).
 */
module Credential {
  import opened Wrappers
  import opened Errors

  /**
   * Merging `extra` into `base` (Java's `putAll`): every key of either map is
   * kept, and on a collision the entry of `extra` wins.
   */
  function Merge(base: map<string, string>, extra: map<string, string>): (r: map<string, string>)
    ensures r.Keys == base.Keys + extra.Keys
    ensures forall k :: k in extra ==> r[k] == extra[k]
    ensures forall k :: k in base && k !in extra ==> r[k] == base[k]
  {
    base + extra
  }

  /** The observable state of a credential. */
  datatype CredentialValue = CredentialValue(
    clientId: Option<string>,
    clientSecret: Option<string>,
    hasCredentials: bool,
    accessToken: Option<string>,
    refreshToken: Option<string>,
    headers: map<string, string>,
    configurations: map<string, string>)

  /**
   * One request for an access token. A credential without client id and
   * secret hands out the token it was given, whatever its age; one with them
   * hands out its cached token unless it is missing or `expired`, and otherwise
   * asks the authorization server, whose answer is `grant`. A new token is
   * cached; a refusal is an AuthenticationFailure and leaves the cache alone.
   */
  function FetchToken(c: CredentialValue, expired: bool, grant: Option<string>): (r: (CredentialValue, Result<string, Error>))
    ensures r.0 == c.(accessToken := r.0.accessToken)
    ensures c.accessToken.Some? && (!c.hasCredentials || !expired) ==> r == (c, Success(c.accessToken.value))
    ensures r.1.Failure? <==> (c.accessToken.None? || (c.hasCredentials && expired)) && grant.None?
    ensures r.1.Failure? ==> r.1.error == AuthenticationFailure && r.0 == c
    ensures r.1.Success? ==> r.0.accessToken == Some(r.1.value)
    ensures (c.accessToken.None? || (c.hasCredentials && expired)) && grant.Some? ==>
              r == (c.(accessToken := grant), Success(grant.value))
  {
    if c.accessToken.Some? && (!c.hasCredentials || !expired) then
      (c, Success(c.accessToken.value))
    else if grant.Some? then
      (c.(accessToken := grant), Success(grant.value))
    else
      (c, Failure(AuthenticationFailure))
  }

  /**
   * A failed request keeps the cached token, whether or not it was expired.
   * A later request whose expiry check finds the cache fresh hands out that same
   * token; `expired` is an oracle that the model leaves unconstrained from one
   * call to the next.
   */
  lemma FailedFetchKeepsCachedToken(c: CredentialValue, expired: bool, later: Option<string>)
    ensures var (after, t) := FetchToken(c, expired, None);
            t.Failure? ==>
              after.accessToken == c.accessToken &&
              (c.accessToken.Some? ==> FetchToken(after, false, later).1 == Success(c.accessToken.value))
  {
  }

  class OAuthTokenCredential {
    var clientId: Option<string>
    var clientSecret: Option<string>
    var hasCredentials: bool
    var accessToken: Option<string>
    var refreshToken: Option<string>
    var headers: map<string, string>
    var configurations: map<string, string>

    function Value(): CredentialValue
      reads this
    {
      CredentialValue(clientId, clientSecret, hasCredentials, accessToken, refreshToken, headers, configurations)
    }

    /** A credential for the direct-token flow: no client id, secret or refresh. */
    constructor FromAccessToken(token: Option<string>)
      ensures Value() == CredentialValue(None, None, false, token, None, map[], map[])
    {
      clientId, clientSecret, hasCredentials := None, None, false;
      accessToken, refreshToken := token, None;
      headers, configurations := map[], map[];
    }

    /** A credential for the client-credentials flow; nothing is fetched yet. */
    constructor FromClient(id: Option<string>, secret: Option<string>)
      ensures Value() == CredentialValue(id, secret, id.Some? && secret.Some?, None, None, map[], map[])
    {
      clientId, clientSecret, hasCredentials := id, secret, id.Some? && secret.Some?;
      accessToken, refreshToken := None, None;
      headers, configurations := map[], map[];
    }

    method SetRefreshToken(token: Option<string>)
      modifies this`refreshToken
      ensures refreshToken == token
    {
      refreshToken := token;
    }

    method AddConfiguration(key: string, value: string)
      modifies this`configurations
      ensures configurations == Merge(old(configurations), map[key := value])
    {
      configurations := Merge(configurations, map[key := value]);
    }

    method AddConfigurations(extra: map<string, string>)
      modifies this`configurations
      ensures configurations == Merge(old(configurations), extra)
    {
      configurations := Merge(configurations, extra);
    }

    method SetConfigurations(replacement: map<string, string>)
      modifies this`configurations
      ensures configurations == replacement
    {
      configurations := replacement;
    }

    method AddHeader(key: string, value: string)
      modifies this`headers
      ensures headers == Merge(old(headers), map[key := value])
    {
      headers := Merge(headers, map[key := value]);
    }

    method AddHeaders(extra: map<string, string>)
      modifies this`headers
      ensures headers == Merge(old(headers), extra)
    {
      headers := Merge(headers, extra);
    }

    method SetHeaders(replacement: map<string, string>)
      modifies this`headers
      ensures headers == replacement
    {
      headers := replacement;
    }

    /** The collaborator's getAccessToken, with its server reply as an oracle. */
    method GetAccessToken(expired: bool, grant: Option<string>) returns (r: Result<string, Error>)
      modifies this`accessToken
      ensures (Value(), r) == FetchToken(old(Value()), expired, grant)
    {
      var (after, token) := FetchToken(Value(), expired, grant);
      accessToken := after.accessToken;
      r := token;
    }
  }
}
