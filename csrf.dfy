/**
 * The CSRF rule applied to every HTTP request: safe methods and the
 * WebSocket endpoint pass, anything else needs the client's custom header
 * (whose value is never looked at).
 */
module Csrf {
  datatype Method = Get | Head | Options | Post | Put | Delete | Patch | OtherMethod(name: string)

  const RequiredHeader: string := "x-battld-client"

  datatype Decision = Pass | Forbidden

  /** The HTTP status of a refused request. */
  const ForbiddenStatus: nat := 403

  predicate IsSafe(m: Method)
  {
    m == Get || m == Head || m == Options
  }

  /** `headers` is the set of header names present (names are case-insensitive; these are lower case). */
  function CsrfDecision(m: Method, path: string, headers: set<string>): (d: Decision)
    ensures d == Pass <==> IsSafe(m) || path == "/ws" || RequiredHeader in headers
  {
    if IsSafe(m) then Pass
    else if path == "/ws" then Pass
    else if RequiredHeader !in headers then Forbidden
    else Pass
  }

  /** Other headers never matter: the decision depends only on the required one being present. */
  lemma OnlyRequiredHeaderMatters(m: Method, path: string, a: set<string>, b: set<string>)
    requires (RequiredHeader in a) == (RequiredHeader in b)
    ensures CsrfDecision(m, path, a) == CsrfDecision(m, path, b)
  {
  }

  /** A state-changing request to an API path without the header is refused. */
  lemma UnsafeWithoutHeaderRefused(m: Method, path: string, headers: set<string>)
    requires !IsSafe(m) && path != "/ws" && RequiredHeader !in headers
    ensures CsrfDecision(m, path, headers) == Forbidden
  {
  }
}
