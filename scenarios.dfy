/**
 * Callers of the context that rely on its contracts alone: scenarios
 * exercising the request id, the mode, the refresh token, the headers and the
 * access token.
 */
module Scenarios {
  import opened Wrappers
  import opened Errors
  import opened ApiContext

  /** A supplied request id survives masking and unmasking unchanged. */
  method SuppliedRequestIdIsStable() {
    var r := APIContext.WithAccessTokenAndRequestId(Some("Bearer A21AA"), Some("req-1"));
    var ctx := r.value;
    var first := ctx.GetRequestId("uuid-1");
    assert first == Some("req-1");
    ctx.SetMaskRequestId(true);
    var masked := ctx.GetRequestId("uuid-2");
    assert masked == None;
    ctx.SetMaskRequestId(false);
    var again := ctx.GetRequestId("uuid-3");
    assert again == Some("req-1");
  }

  /** A generated request id is fixed by the first read. */
  method GeneratedRequestIdIsStable() {
    var r := APIContext.WithAccessToken(Some("Bearer A21AA"));
    var ctx := r.value;
    ctx.SetMaskRequestId(true);
    var masked := ctx.GetRequestId("uuid-1");
    assert masked == None && ctx.requestId == None;
    ctx.SetMaskRequestId(false);
    var first := ctx.GetRequestId("uuid-2");
    var second := ctx.GetRequestId("uuid-3");
    assert first == second == Some("uuid-2");
  }

  /** An empty or null access token fails whatever the request id. */
  method MissingAccessTokenFailsFirst() {
    var a := APIContext.WithAccessTokenAndRequestId(Some(""), None);
    var b := APIContext.WithAccessTokenAndRequestId(None, Some("req-1"));
    assert a == b == Failure(AccessTokenRequired);
    var c := APIContext.WithAccessTokenAndRequestId(Some("Bearer A21AA"), Some(""));
    assert c == Failure(RequestIdRequired);
  }

  /** Only `live` and `sandbox` are modes, and a rejected one changes nothing. */
  method ModeValidation() {
    var r := APIContext.WithClientCredentials(Some("id"), Some("secret"), Some("sandbox"));
    var ctx := r.value;
    var bad := ctx.SetMode(Some("production"));
    assert bad == Fail(InvalidMode) && ctx.credential.configurations[MODE] == "sandbox";
    var none := ctx.SetMode(None);
    assert none.Fail? && ctx.credential.configurations[MODE] == "sandbox";
    var good := ctx.SetMode(Some("live"));
    assert good == Pass && ctx.credential.configurations[MODE] == "live";
    var d := APIContext.WithClientCredentials(Some("id"), Some("secret"), Some(""));
    assert d == Failure(InvalidMode);
  }

  /** The mode argument wins over a `mode` entry among the extra configurations. */
  method ModeWinsOverConfigurations() {
    var r := APIContext.WithClientCredentialsAndConfigurations(
      Some("id"), Some("secret"), Some("live"), Some(map["mode" := "sandbox", "http.Retry" := "3"]));
    var ctx := r.value;
    assert ctx.credential.configurations[MODE] == "live";
    assert ctx.credential.configurations["http.Retry"] == "3";
  }

  /**
   * setMode is the only guard on `mode`: the map pass-throughs can overwrite it
   * with any value or drop it, and the direct-token forms never set it.
   */
  method ModeIsNotGuardedByMapUpdates() {
    var r := APIContext.WithClientCredentials(Some("id"), Some("secret"), Some("sandbox"));
    var ctx := r.value;
    ctx.AddConfigurations(map[MODE := "production"]);
    assert ctx.credential.configurations[MODE] == "production";
    ctx.SetConfigurationMap(map[]);
    assert MODE !in ctx.credential.configurations;
    var s := APIContext.WithAccessToken(Some("Bearer A21AA"));
    assert MODE !in s.value.credential.configurations;
  }

  /** A refresh token needs client credentials. */
  method RefreshTokenNeedsClientCredentials() {
    var r := APIContext.WithClientCredentials(Some("id"), Some("secret"), Some("sandbox"));
    var withClient := r.value;
    var ok := withClient.SetRefreshToken(Some("r1"));
    assert ok == Pass && withClient.credential.refreshToken == Some("r1");
    var s := APIContext.WithAccessToken(Some("Bearer A21AA"));
    var withToken := s.value;
    var refused := withToken.SetRefreshToken(Some("r1"));
    assert refused == Fail(ClientCredentialsRequired) && withToken.credential.refreshToken == None;
  }

  /** Adding a header twice keeps the last value; setting the headers replaces them all. */
  method HeaderMerging() {
    var r := APIContext.WithAccessToken(Some("Bearer A21AA"));
    var ctx := r.value;
    ctx.AddHTTPHeader("X-A", "1");
    ctx.AddHTTPHeader("X-A", "2");
    var h := ctx.GetHTTPHeaders();
    assert h["X-A"] == "2";
    ctx.SetHTTPHeaders(map["X-B" := "3"]);
    h := ctx.GetHTTPHeaders();
    assert "X-A" !in h && h["X-B"] == "3";
  }

  /** A refused refresh surfaces as a failure, and the cached token is kept. */
  method RefusedRefreshKeepsToken() {
    var r := APIContext.WithClientCredentials(Some("id"), Some("secret"), Some("sandbox"));
    var ctx := r.value;
    var first := ctx.FetchAccessToken(false, Some("Bearer T1"));
    assert first == Success("Bearer T1");
    var refused := ctx.FetchAccessToken(true, None);
    assert refused == Failure(AuthenticationFailure) && ctx.credential.accessToken == Some("Bearer T1");
    var legacy := ctx.GetAccessToken(true, None);
    assert legacy == None && ctx.credential.accessToken == Some("Bearer T1");
    // The expiry check is an oracle per call; here it finds the cache fresh.
    var later := ctx.FetchAccessToken(false, None);
    assert later == Success("Bearer T1");
  }
}
