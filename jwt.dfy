/** Where the JWT utilities find a token in a request (a bearer header or a named cookie) and the two
    cookies they build. Signing, parsing and validating tokens are not part of this model: the
    token a login cookie carries is a parameter. */
module Jwt {
  import opened Text
  import opened Domain

  /** The header getJwtFromHeader reads. */
  const AuthHeader := "Authentication"

  /** The prefix a bearer header starts with, trailing space included. */
  const BearerPrefix := "Bearer "

  /** A request cookie. */
  datatype Cookie = Cookie(name: string, value: string)

  /** The Set-Cookie record: a null value or path is None; maxAge is in seconds, -1 when unset. */
  datatype ResponseCookie = ResponseCookie(name: string, value: Option<string>, path: Option<string>, maxAge: int, httpOnly: bool)

  /** getJwtFromHeader: the "Authentication" header with its "Bearer " prefix cut off, or null when
      the header is missing or does not start with "Bearer " (case-sensitive, space included). */
  function GetJwtFromHeader(getHeader: string -> Option<string>): (token: Option<string>)
    ensures var header := getHeader(AuthHeader);
            && (token.Some? <==> header.Some? && StartsWith(header.value, BearerPrefix))
            && (token.Some? ==> header.value == BearerPrefix + token.value)
  {
    var header := getHeader(AuthHeader);
    if header.Some? && StartsWith(header.value, BearerPrefix) then
      assert header.value == header.value[..7] + header.value[7..];
      Some(header.value[7..])
    else None
  }

  /** Round trip: a header "Bearer " + t gives back t, whatever t is. */
  lemma BearerRoundTrip(getHeader: string -> Option<string>, t: string)
    requires getHeader(AuthHeader) == Some(BearerPrefix + t)
    ensures GetJwtFromHeader(getHeader) == Some(t)
  {
    var token := GetJwtFromHeader(getHeader);
    assert StartsWith(BearerPrefix + t, BearerPrefix);
    assert BearerPrefix + token.value == BearerPrefix + t;
    assert token.value == (BearerPrefix + token.value)[7..];
  }

  /** A lower-case "bearer", a prefix without its space and a missing header all give null. */
  lemma HeaderRejections(getHeader: string -> Option<string>)
    ensures getHeader(AuthHeader) == Some("bearer x") ==> GetJwtFromHeader(getHeader) == None
    ensures getHeader(AuthHeader) == Some("Bearer") ==> GetJwtFromHeader(getHeader) == None
    ensures getHeader(AuthHeader) == None ==> GetJwtFromHeader(getHeader) == None
  {
    if getHeader(AuthHeader) == Some("bearer x") {
      assert "bearer x"[0] != BearerPrefix[0];
    }
  }

  /** WebUtils.getCookie then getValue: the value of the first cookie with the name, or null. */
  function GetJwtFromCookies(cookies: seq<Cookie>, jwtCookie: string): (value: Option<string>)
    ensures value.Some? <==> exists k :: 0 <= k < |cookies| && cookies[k].name == jwtCookie
  {
    if cookies == [] then None
    else if cookies[0].name == jwtCookie then Some(cookies[0].value)
    else
      var rest := GetJwtFromCookies(cookies[1..], jwtCookie);
      assert forall k :: 0 < k < |cookies| ==> cookies[k] == cookies[1..][k - 1];
      rest
  }

  /** The value found is the one of the first cookie with the name: earlier cookies have other names. */
  lemma {:induction false} CookieIsFirstMatch(cookies: seq<Cookie>, jwtCookie: string)
    requires GetJwtFromCookies(cookies, jwtCookie).Some?
    ensures exists k :: && 0 <= k < |cookies| && cookies[k].name == jwtCookie
                        && cookies[k].value == GetJwtFromCookies(cookies, jwtCookie).value
                        && forall j :: 0 <= j < k ==> cookies[j].name != jwtCookie
  {
    if cookies[0].name != jwtCookie {
      CookieIsFirstMatch(cookies[1..], jwtCookie);
      var k :| && 0 <= k < |cookies[1..]| && cookies[1..][k].name == jwtCookie
               && cookies[1..][k].value == GetJwtFromCookies(cookies[1..], jwtCookie).value
               && forall j :: 0 <= j < k ==> cookies[1..][j].name != jwtCookie;
      assert cookies[k + 1] == cookies[1..][k];
      forall j | 0 <= j < k + 1
        ensures cookies[j].name != jwtCookie
      {
        if j > 0 {
          assert cookies[j] == cookies[1..][j - 1];
        }
      }
    }
  }

  /** generateJwtCookie: the token under the configured name, path "/api", kept for one day
      (24 * 60 * 60 seconds) and readable by scripts. */
  function GenerateJwtCookie(jwtCookie: string, token: string): (c: ResponseCookie)
    ensures c.name == jwtCookie && c.value == Some(token) && c.path == Some("/api")
    ensures c.maxAge == 86400 && !c.httpOnly
  {
    ResponseCookie(jwtCookie, Some(token), Some("/api"), 24 * 60 * 60, false)
  }

  /** getCleanJwtCookie: the configured name with a null value and path "/api"; max age and httpOnly
      keep the builder's defaults. */
  function GetCleanJwtCookie(jwtCookie: string): (c: ResponseCookie)
    ensures c.name == jwtCookie && c.value == None && c.path == Some("/api")
    ensures c.maxAge == -1 && !c.httpOnly
  {
    ResponseCookie(jwtCookie, None, Some("/api"), -1, false)
  }

  /** The clean cookie replaces the login cookie: same name and path, no token. */
  lemma CleanCookieReplacesLogin(jwtCookie: string, token: string)
    ensures var login := GenerateJwtCookie(jwtCookie, token);
            var clean := GetCleanJwtCookie(jwtCookie);
            clean.name == login.name && clean.path == login.path && clean.value.None? && login.value.Some?
  {
  }
}
