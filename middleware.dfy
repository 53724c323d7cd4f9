/**
 * The API middleware: requests whose path starts with `/api/claim` are
 * gated. DELETE and PUT there need an `x-api-key` header equal to the
 * `API_SECRET_KEY` setting. Every request admitted there gets three CORS
 * headers. Other paths pass untouched. The header and the two settings
 * are parameters; an absent one is `None`.
 */
module Middleware {
  import opened Wrappers
  import opened Js
  import Text

  const GatedPrefix: string := "/api/claim"

  /** What the middleware decides: a JSON refusal, or to continue with extra response headers. */
  datatype Decision =
    | Refuse(status: int, error: string)
    | Continue(headers: map<string, string>)

  /** The methods that need the key. */
  predicate IsAdminMethod(httpMethod: string) {
    httpMethod == "DELETE" || httpMethod == "PUT"
  }

  /**
   * `apiKey === process.env.API_SECRET_KEY`: a missing header is `null` and
   * a missing setting `undefined`, which are never strictly equal.
   */
  predicate KeyMatches(apiKey: Option<string>, secret: Option<string>) {
    apiKey.Some? && secret.Some? && apiKey.value == secret.value
  }

  /** The CORS headers set on every admitted gated request. */
  function CorsHeaders(allowedOrigin: Option<string>): map<string, string> {
    map["Access-Control-Allow-Origin" := OrElse(allowedOrigin, "*"),
        "Access-Control-Allow-Methods" := "GET, POST, OPTIONS",
        "Access-Control-Allow-Headers" := "Content-Type, x-api-key"]
  }

  /** `middleware(request)` for a request's path, method and `x-api-key` header. */
  function Decide(path: string, httpMethod: string, apiKey: Option<string>, secret: Option<string>,
                  allowedOrigin: Option<string>): (d: Decision)
    ensures d.Refuse? <==> Text.StartsWith(path, GatedPrefix) && IsAdminMethod(httpMethod) && !KeyMatches(apiKey, secret)
    ensures d.Refuse? ==> d == Refuse(401, "Unauthorized")
    ensures d.Continue? ==> d.headers == (if Text.StartsWith(path, GatedPrefix) then CorsHeaders(allowedOrigin) else map[])
  {
    if Text.StartsWith(path, GatedPrefix) then
      if IsAdminMethod(httpMethod) && !KeyMatches(apiKey, secret) then Refuse(401, "Unauthorized")
      else Continue(CorsHeaders(allowedOrigin))
    else Continue(map[])
  }

  /** Outside the gated prefix nothing is checked and nothing is added, whatever the method and key. */
  lemma UngatedPassesThrough(path: string, httpMethod: string, apiKey: Option<string>, secret: Option<string>,
                             allowedOrigin: Option<string>)
    requires !Text.StartsWith(path, GatedPrefix)
    ensures Decide(path, httpMethod, apiKey, secret, allowedOrigin) == Continue(map[])
  {
  }

  /** On a gated path, GET, POST and any method other than DELETE and PUT never need the key. */
  lemma OtherMethodsNeedNoKey(path: string, httpMethod: string, apiKey: Option<string>, apiKey2: Option<string>,
                              secret: Option<string>, allowedOrigin: Option<string>)
    requires !IsAdminMethod(httpMethod)
    ensures Decide(path, httpMethod, apiKey, secret, allowedOrigin) == Decide(path, httpMethod, apiKey2, secret, allowedOrigin)
    ensures Decide(path, httpMethod, apiKey, secret, allowedOrigin).Continue?
  {
  }

  /** Without `API_SECRET_KEY` no DELETE or PUT on a gated path gets through, with or without a header. */
  lemma UnsetSecretRefusesAdmin(path: string, httpMethod: string, apiKey: Option<string>, allowedOrigin: Option<string>)
    requires Text.StartsWith(path, GatedPrefix) && IsAdminMethod(httpMethod)
    ensures Decide(path, httpMethod, apiKey, None, allowedOrigin) == Refuse(401, "Unauthorized")
  {
  }

  /** An admitted gated request allows the configured origin, or any origin when none is set. */
  lemma OriginDefault(path: string, httpMethod: string, apiKey: Option<string>, secret: Option<string>,
                      allowedOrigin: Option<string>)
    requires Text.StartsWith(path, GatedPrefix) && (!IsAdminMethod(httpMethod) || KeyMatches(apiKey, secret))
    ensures var d := Decide(path, httpMethod, apiKey, secret, allowedOrigin);
      && d.Continue?
      && d.headers["Access-Control-Allow-Origin"] == (if Truthy(allowedOrigin) then allowedOrigin.value else "*")
      && d.headers["Access-Control-Allow-Methods"] == "GET, POST, OPTIONS"
      && d.headers["Access-Control-Allow-Headers"] == "Content-Type, x-api-key"
  {
  }

  /** The match is by prefix: `/api/claimX` and `/api/claim/anything` are gated like `/api/claim`. */
  lemma PrefixGatesLongerPaths(suffix: string, httpMethod: string, apiKey: Option<string>, secret: Option<string>,
                               allowedOrigin: Option<string>)
    requires IsAdminMethod(httpMethod) && !KeyMatches(apiKey, secret)
    ensures Decide(GatedPrefix + suffix, httpMethod, apiKey, secret, allowedOrigin) == Refuse(401, "Unauthorized")
  {
    assert (GatedPrefix + suffix)[..|GatedPrefix|] == GatedPrefix;
  }
}
