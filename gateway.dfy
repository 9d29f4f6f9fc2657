/** The gateway's authentication filter: public routes pass untouched; every other request needs an
    `Authorization: Bearer <token>` header whose token the token provider accepts, and is then
    forwarded with the token's user name and role in `X-User-Name` and `X-User-Role`. The token
    provider is a parameter: its validation and claim extraction are not part of this model. */
module Gateway {
  import opened Common
  import opened Strings

  const PublicRoutes: seq<string> := ["/auth/register", "/auth/login", "/actuator/health"]

  const BearerPrefix: string := "Bearer "

  const Unauthorized: int := 401

  /** Header names with their values in order; `getFirst` reads the first value. */
  type Headers = map<string, seq<string>>

  datatype Request = Request(path: string, headers: Headers)

  /** The token provider's three operations. */
  datatype TokenProvider = TokenProvider(validate: string -> bool, username: string -> string, role: string -> string)

  /** What the filter does with a request: pass it (possibly rewritten) down the chain, or answer
      it with a status and stop. */
  datatype Decision = Forward(request: Request) | Reject(status: int)

  /** `isPublicRoute`: the path starts with one of the public routes. */
  predicate IsPublicRoute(path: string) {
    exists i :: 0 <= i < |PublicRoutes| && StartsWith(path, PublicRoutes[i])
  }

  /** The public routes, spelled out: a prefix test against each of the three. */
  lemma PublicRoutesSpelledOut(path: string)
    ensures IsPublicRoute(path) <==>
      StartsWith(path, "/auth/register") || StartsWith(path, "/auth/login") || StartsWith(path, "/actuator/health")
  {
    if StartsWith(path, "/auth/register") {
      assert StartsWith(path, PublicRoutes[0]);
    } else if StartsWith(path, "/auth/login") {
      assert StartsWith(path, PublicRoutes[1]);
    } else if StartsWith(path, "/actuator/health") {
      assert StartsWith(path, PublicRoutes[2]);
    }
  }

  /** Anything below a public route is public too, since the test is on prefixes. */
  lemma PublicRouteExtended(path: string, tail: string)
    requires IsPublicRoute(path)
    ensures IsPublicRoute(path + tail)
  {
    var i :| 0 <= i < |PublicRoutes| && StartsWith(path, PublicRoutes[i]);
    StartsWithExtended(path, PublicRoutes[i], tail);
  }

  /** Two concrete paths: a sub-path of the login route is public; the order API is not. */
  lemma PublicRouteExamples()
    ensures IsPublicRoute("/auth/login/x")
    ensures !IsPublicRoute("/api/orders")
  {
    assert StartsWith("/auth/login/x", PublicRoutes[1]);
    assert !StartsWith("/api/orders", PublicRoutes[0]) by { assert "/api/orders"[2] != PublicRoutes[0][2]; }
    assert !StartsWith("/api/orders", PublicRoutes[1]) by { assert "/api/orders"[2] != PublicRoutes[1][2]; }
    assert !StartsWith("/api/orders", PublicRoutes[2]) by { assert "/api/orders"[2] != PublicRoutes[2][2]; }
  }

  /** `getFirst(name)`: the first value of a header, if there is one. */
  function FirstHeader(headers: Headers, name: string): Option<string> {
    if name in headers && |headers[name]| > 0 then Some(headers[name][0]) else None
  }

  /** `authHeader.substring(7)`: the header without its first seven characters. */
  function ExtractToken(header: string): string
    requires |header| >= 7
  {
    header[7..]
  }

  /** The extracted token is exactly what follows the bearer prefix, and the header is the prefix
      followed by the extracted token. */
  lemma ExtractTokenRoundTrip(token: string, header: string)
    ensures ExtractToken(BearerPrefix + token) == token
    ensures StartsWith(header, BearerPrefix) ==> BearerPrefix + ExtractToken(header) == header
  {
    if StartsWith(header, BearerPrefix) {
      assert header == header[..7] + header[7..];
    }
  }

  /** `filter`: the decision for one request. */
  function Filter(request: Request, provider: TokenProvider): (d: Decision)
    ensures IsPublicRoute(request.path) ==> d == Forward(request)
    ensures d.Reject? ==> d.status == Unauthorized
    ensures !IsPublicRoute(request.path) ==>
      var header := FirstHeader(request.headers, "Authorization");
      (d.Forward? <==> header.Some? && StartsWith(header.value, BearerPrefix) && provider.validate(header.value[7..]))
    ensures !IsPublicRoute(request.path) && d.Forward? ==>
      var token := FirstHeader(request.headers, "Authorization").value[7..];
      && d.request.path == request.path
      && d.request.headers == request.headers["X-User-Name" := [provider.username(token)]]
                                             ["X-User-Role" := [provider.role(token)]]
  {
    if IsPublicRoute(request.path) then Forward(request)
    else
      match FirstHeader(request.headers, "Authorization")
      case None => Reject(Unauthorized)
      case Some(authHeader) =>
        if !StartsWith(authHeader, BearerPrefix) then Reject(Unauthorized)
        else
          var token := ExtractToken(authHeader);
          if !provider.validate(token) then Reject(Unauthorized)
          else
            var username := provider.username(token);
            var role := provider.role(token);
            Forward(request.(headers := request.headers["X-User-Name" := [username]]["X-User-Role" := [role]]))
  }

  /** A forwarded protected request carries the identity taken from its own token, whatever
      `X-User-Name` or `X-User-Role` the caller sent. */
  lemma ForwardedIdentityComesFromToken(request: Request, provider: TokenProvider)
    requires !IsPublicRoute(request.path)
    requires Filter(request, provider).Forward?
    ensures var token := FirstHeader(request.headers, "Authorization").value[7..];
      var sent := Filter(request, provider).request.headers;
      && sent["X-User-Name"] == [provider.username(token)]
      && sent["X-User-Role"] == [provider.role(token)]
      && FirstHeader(sent, "X-User-Name") == Some(provider.username(token))
  {
  }
}
