/**
 * The OpenID Connect implicit-flow handshake, as the integration test
 * x-pack/test/security_api_integration/tests/oidc/implicit_flow/oidc_auth.ts
 * pins it down (OpenID Connect Core 1.0, section 3.2).
 *
 * 1. Login records, in a handshake cookie, the `state` and `nonce` sent to
 *    the identity provider and the URL to return to (the `next` parameter
 *    of the initiating URL plus its fragment).
 * 2. The identity provider answers in the URL fragment (section 3.2.2.5),
 *    which the server cannot see; a relay page moves the whole URL, fragment
 *    included, into the `authenticationResponseURI` query parameter of the
 *    callback, percent-encoded (section 2.1 of RFC 3986).
 * 3. The callback succeeds only with the handshake cookie, a returned
 *    `state` equal to the issued one (section 10.12 of RFC 6749) and an ID
 *    token carrying the issued nonce (section 3.2.2.11); it then redirects
 *    to the recorded URL and sets one `sid` session cookie. Every failure
 *    gets the same 401 page.
 *
 * Verifying the ID token's signature and generating state, nonce and session
 * ids are done by collaborators; they are parameters here.
 */
module OidcImplicitFlow {
  import opened Wrappers
  import opened UriComponent

  // ---------------------------------------------------------------------
  // URL parsing
  // ---------------------------------------------------------------------

  /** The position of the first `c` in `s`, or `|s|` when there is none. */
  function IndexOfChar(s: string, c: char): (i: nat)
    ensures i <= |s|
    ensures i < |s| ==> s[i] == c
    ensures forall j :: 0 <= j < i ==> s[j] != c
    decreases |s|
  {
    if s == [] then 0
    else if s[0] == c then 0
    else 1 + IndexOfChar(s[1..], c)
  }

  lemma {:induction false} IndexOfCharAbsent(s: string, c: char)
    requires c !in s
    ensures IndexOfChar(s, c) == |s|
    decreases |s|
  {
    if s != [] {
      assert s[0] in s;
      IndexOfCharAbsent(s[1..], c);
    }
  }

  /** Past a prefix without `c`, the search for `c` goes on in what follows. */
  lemma {:induction false} IndexOfCharAfter(a: string, b: string, c: char)
    requires c !in a
    ensures IndexOfChar(a + b, c) == |a| + IndexOfChar(b, c)
    decreases |a|
  {
    if a == [] {
      assert a + b == b;
    } else {
      assert a[0] in a;
      assert (a + b)[0] == a[0];
      assert (a + b)[1..] == a[1..] + b;
      IndexOfCharAfter(a[1..], b, c);
    }
  }

  /** The pieces of `s` between the separators (`String.prototype.split`). */
  function Split(s: string, sep: char): (parts: seq<string>)
    ensures |parts| > 0
    decreases |s|
  {
    var i := IndexOfChar(s, sep);
    if i == |s| then [s] else [s[..i]] + Split(s[i + 1..], sep)
  }

  lemma SplitWithout(s: string, sep: char)
    requires sep !in s
    ensures Split(s, sep) == [s]
  {
    IndexOfCharAbsent(s, sep);
  }

  lemma SplitAt(a: string, b: string, sep: char)
    requires sep !in a
    ensures Split(a + [sep] + b, sep) == [a] + Split(b, sep)
  {
    IndexOfCharAfter(a, [sep] + b, sep);
    assert a + [sep] + b == a + ([sep] + b);
    assert (a + [sep] + b)[..|a|] == a;
    assert (a + [sep] + b)[|a| + 1..] == b;
  }

  /** A `name=value` pair, split at the first `=`; a pair without one has an empty value. */
  function SplitPair(p: string): (string, string)
  {
    var i := IndexOfChar(p, '=');
    if i == |p| then (p, "") else (p[..i], p[i + 1..])
  }

  /**
   * The decoded value of the first parameter whose decoded name is `name`
   * among `name=value` pairs joined by `&`.
   */
  function Lookup(pairs: seq<string>, name: string): Option<string>
    decreases |pairs|
  {
    if pairs == [] then None
    else
      var (k, v) := SplitPair(pairs[0]);
      if Decode(k) == Some(name) then Decode(v) else Lookup(pairs[1..], name)
  }

  function Param(query: string, name: string): Option<string>
  {
    Lookup(Split(query, '&'), name)
  }

  /** The fragment, from the first `#` on (`#` included), or empty. */
  function HashOf(url: string): string
  {
    url[IndexOfChar(url, '#')..]
  }

  /** The query: what lies between the first `?` and the fragment, or empty. */
  function QueryOf(url: string): string
  {
    var beforeHash := url[..IndexOfChar(url, '#')];
    var q := IndexOfChar(beforeHash, '?');
    if q < |beforeHash| then beforeHash[q + 1..] else ""
  }

  /** The parameters carried in the fragment, as the identity provider returns them. */
  function FragmentParam(url: string, name: string): Option<string>
  {
    var h := HashOf(url);
    if h == "" then None else Param(h[1..], name)
  }

  /** A parameter name made of unreserved characters decodes to itself. */
  lemma DecodeUnreservedName(name: string)
    requires forall c :: c in name ==> Unreserved(c)
    ensures Decode(name) == Some(name)
  {
    EncodeUnreserved(name);
    EncodeDecodeRoundTrip(name);
  }

  /** The pair `name=value` splits into its name and its value. */
  lemma SplitPairOf(name: string, value: string)
    requires '=' !in name
    ensures SplitPair(name + "=" + value) == (name, value)
  {
    var p := name + "=" + value;
    assert p == name + ("=" + value);
    IndexOfCharAfter(name, "=" + value, '=');
    assert p[..|name|] == name;
    assert p[|name| + 1..] == value;
  }

  /** The first parameter of a query, written with `encodeURIComponent`, is read back. */
  lemma ParamHere(name: string, value: string, rest: string)
    requires forall c :: c in name ==> Unreserved(c)
    requires rest == "" || rest[0] == '&'
    ensures Param(name + "=" + Encode(value) + rest, name) == Some(value)
  {
    var pair := name + "=" + Encode(value);
    EncodeChars(value);
    assert '&' !in pair;
    if rest == "" {
      assert pair + rest == pair;
      SplitWithout(pair, '&');
    } else {
      assert pair + rest == pair + ['&'] + rest[1..];
      SplitAt(pair, rest[1..], '&');
    }
    SplitPairOf(name, Encode(value));
    DecodeUnreservedName(name);
    EncodeDecodeRoundTrip(value);
  }

  /** A parameter with another name is passed over. */
  lemma ParamSkip(other: string, value: string, more: string, name: string)
    requires forall c :: c in other ==> Unreserved(c)
    requires other != name
    ensures Param(other + "=" + Encode(value) + ("&" + more), name) == Param(more, name)
  {
    var pair := other + "=" + Encode(value);
    EncodeChars(value);
    assert '&' !in pair;
    assert pair + ("&" + more) == pair + ['&'] + more;
    SplitAt(pair, more, '&');
    SplitPairOf(other, Encode(value));
    DecodeUnreservedName(other);
  }

  /** The query and the fragment of `prefix?query#fragment`. */
  lemma UrlParts(prefix: string, query: string, hash: string)
    requires '?' !in prefix && '#' !in prefix && '#' !in query
    requires hash == "" || hash[0] == '#'
    ensures QueryOf(prefix + "?" + query + hash) == query
    ensures HashOf(prefix + "?" + query + hash) == hash
  {
    var a := prefix + "?" + query;
    var url := a + hash;
    IndexOfCharAfter(a, hash, '#');
    assert url[..|a|] == a;
    assert url[|a|..] == hash;
    assert a == prefix + ("?" + query);
    IndexOfCharAfter(prefix, "?" + query, '?');
    assert a[|prefix| + 1..] == query;
  }

  // ---------------------------------------------------------------------
  // The redirect target and the relay page
  // ---------------------------------------------------------------------

  const NEXT_PARAM: string := "next"
  const CALLBACK_PATH: string := "/api/security/oidc/callback"
  const RESPONSE_URI_PARAM: string := "authenticationResponseURI"

  /**
   * The URL to return to after login: the `next` parameter of the
   * initiating URL, decoded once, followed by that URL's fragment.
   */
  function RedirectTarget(currentURL: string): Option<string>
  {
    match Param(QueryOf(currentURL), NEXT_PARAM)
    case None => None
    case Some(next) => Some(next + HashOf(currentURL))
  }

  /** The parameter names the handshake uses need no encoding. */
  lemma ParameterNamesUnreserved()
    ensures forall c :: c in NEXT_PARAM ==> Unreserved(c)
    ensures forall c :: c in RESPONSE_URI_PARAM ==> Unreserved(c)
    ensures forall c :: c in "id_token" ==> Unreserved(c)
    ensures forall c :: c in "state" ==> Unreserved(c)
  {
  }

  /**
   * A capture URL `prefix?next=<encoded next>&...#fragment` leads back to
   * `next` decoded once, followed by the fragment.
   */
  lemma RedirectTargetOfCaptureURL(prefix: string, next: string, rest: string, hash: string)
    requires '?' !in prefix && '#' !in prefix && '#' !in rest
    requires rest == "" || rest[0] == '&'
    requires hash == "" || hash[0] == '#'
    ensures RedirectTarget(prefix + "?" + (NEXT_PARAM + "=" + Encode(next) + rest) + hash) == Some(next + hash)
  {
    var query := NEXT_PARAM + "=" + Encode(next) + rest;
    EncodeChars(next);
    ParameterNamesUnreserved();
    assert '#' !in query;
    UrlParts(prefix, query, hash);
    ParamHere(NEXT_PARAM, next, rest);
  }

  /** Where the relay page's script sends the browser: the callback, carrying the whole current URL. */
  function RelayTarget(href: string): string
  {
    CALLBACK_PATH + "?" + RESPONSE_URI_PARAM + "=" + Encode(href)
  }

  /** The identity provider's response URL the callback receives. */
  function ResponseURI(callbackURL: string): Option<string>
  {
    Param(QueryOf(callbackURL), RESPONSE_URI_PARAM)
  }

  /**
   * The callback reads back exactly the URL the relay page was at, fragment
   * included, and the relay URL itself has no fragment left.
   */
  lemma RelayRoundTrip(href: string)
    ensures ResponseURI(RelayTarget(href)) == Some(href)
    ensures HashOf(RelayTarget(href)) == ""
  {
    var query := RESPONSE_URI_PARAM + "=" + Encode(href);
    EncodeChars(href);
    ParameterNamesUnreserved();
    assert '#' !in query;
    assert RelayTarget(href) == CALLBACK_PATH + "?" + query + "";
    UrlParts(CALLBACK_PATH, query, "");
    assert query == query + "";
    ParamHere(RESPONSE_URI_PARAM, href, "");
  }

  /**
   * The identity provider's answer to an implicit-flow request: the ID token
   * and the state in the fragment of the redirect URI (section 3.2.2.5 of
   * OpenID Connect Core 1.0), then any further parameters.
   */
  function AuthenticationResponse(redirectURI: string, idToken: string, state: string, rest: string): string
  {
    redirectURI + "#" + ("id_token" + "=" + Encode(idToken) + ("&" + ("state" + "=" + Encode(state) + rest)))
  }

  lemma AuthenticationResponseParams(redirectURI: string, idToken: string, state: string, rest: string)
    requires '#' !in redirectURI
    requires rest == "" || rest[0] == '&'
    ensures FragmentParam(AuthenticationResponse(redirectURI, idToken, state, rest), "id_token") == Some(idToken)
    ensures FragmentParam(AuthenticationResponse(redirectURI, idToken, state, rest), "state") == Some(state)
  {
    var more := "state" + "=" + Encode(state) + rest;
    var fragment := "id_token" + "=" + Encode(idToken) + ("&" + more);
    var url := AuthenticationResponse(redirectURI, idToken, state, rest);
    assert url == redirectURI + ("#" + fragment);
    IndexOfCharAfter(redirectURI, "#" + fragment, '#');
    assert HashOf(url) == "#" + fragment;
    assert HashOf(url)[1..] == fragment;
    ParameterNamesUnreserved();
    ParamHere("id_token", idToken, "&" + more);
    ParamSkip("id_token", idToken, more, "state");
    ParamHere("state", state, rest);
  }

  // ---------------------------------------------------------------------
  // Responses
  // ---------------------------------------------------------------------

  datatype Cookie = Cookie(key: string, value: string, path: string, httpOnly: bool)

  datatype Response = Response(status: int, headers: map<string, string>, cookies: seq<Cookie>, body: string)

  /** What login records for the callback: the issued state and nonce and the URL to return to. */
  datatype Handshake = Handshake(state: string, nonce: string, redirectURL: string)

  /** The parameters of the authentication request sent to the identity provider. */
  datatype AuthenticationRequest = AuthenticationRequest(state: string, nonce: string)

  datatype LoginResponse = LoginResponse(status: int, request: AuthenticationRequest, handshake: Handshake)

  /** A session id as generated by the session store: never empty. */
  type SessionId = s: string | |s| > 0 witness "s"

  const CONTENT_SECURITY_POLICY: string :=
    "script-src 'unsafe-eval' 'self'; worker-src blob: 'self'; style-src 'unsafe-inline' 'self'"
  const HTML_CONTENT_TYPE: string := "text/html; charset=utf-8"
  const NO_CACHE: string := "private, no-cache, no-store, must-revalidate"
  const LOGIN_FAILED_MESSAGE: string := "We couldn&#x27;t log you in"
  const SESSION_COOKIE: string := "sid"

  /** The relay page served at the implicit-flow endpoint; its script is `RelayTarget`. */
  function RelayPage(): (r: Response)
    ensures r.status == 200
    ensures "content-type" in r.headers && r.headers["content-type"] == HTML_CONTENT_TYPE
    ensures "cache-control" in r.headers && r.headers["cache-control"] == NO_CACHE
    ensures "content-security-policy" in r.headers && r.headers["content-security-policy"] == CONTENT_SECURITY_POLICY
    ensures r.cookies == []
  {
    Response(200,
      map["content-type" := HTML_CONTENT_TYPE, "cache-control" := NO_CACHE,
          "content-security-policy" := CONTENT_SECURITY_POLICY],
      [], "")
  }

  /** The one page every failed callback gets, whatever check failed. */
  function LoginFailedPage(): (r: Response)
    ensures r.status == 401
    ensures "content-security-policy" in r.headers && r.headers["content-security-policy"] == CONTENT_SECURITY_POLICY
    ensures LOGIN_FAILED_MESSAGE <= r.body
    ensures r.cookies == []
  {
    Response(401, map["content-security-policy" := CONTENT_SECURITY_POLICY], [], LOGIN_FAILED_MESSAGE)
  }

  /** The relay page and the failure page carry the same content security policy. */
  lemma SameContentSecurityPolicy()
    ensures "content-security-policy" in RelayPage().headers && "content-security-policy" in LoginFailedPage().headers
    ensures RelayPage().headers["content-security-policy"] == LoginFailedPage().headers["content-security-policy"]
  {
  }

  /**
   * Where the browser returns after a successful login: the capture URL's
   * redirect target, or `defaultTarget` (the server's root under its base
   * path) when it has none.
   */
  function ReturnURL(currentURL: string, defaultTarget: string): string
  {
    match RedirectTarget(currentURL)
    case None => defaultTarget
    case Some(target) => target
  }

  /**
   * `POST /internal/security/login`: starts a handshake for the given state
   * and nonce; the handshake cookie carries exactly what the request sends.
   */
  function Login(currentURL: string, defaultTarget: string, state: string, nonce: string): (r: LoginResponse)
    ensures r.status == 200
    ensures r.request == AuthenticationRequest(state, nonce)
    ensures r.handshake.state == state && r.handshake.nonce == nonce
    ensures RedirectTarget(currentURL).Some? ==> r.handshake.redirectURL == RedirectTarget(currentURL).value
    ensures RedirectTarget(currentURL).None? ==> r.handshake.redirectURL == defaultTarget
  {
    LoginResponse(200, AuthenticationRequest(state, nonce), Handshake(state, nonce, ReturnURL(currentURL, defaultTarget)))
  }

  /**
   * The checks of `GET /api/security/oidc/callback`, in order. `idTokenNonce`
   * verifies an ID token and gives the nonce it carries (`None` when the token
   * does not verify).
   */
  predicate CallbackAccepted(callbackURL: string, cookie: Option<Handshake>, idTokenNonce: string -> Option<string>)
  {
    && cookie.Some?
    && ResponseURI(callbackURL).Some?
    && FragmentParam(ResponseURI(callbackURL).value, "state") == Some(cookie.value.state)
    && FragmentParam(ResponseURI(callbackURL).value, "id_token").Some?
    && idTokenNonce(FragmentParam(ResponseURI(callbackURL).value, "id_token").value) == Some(cookie.value.nonce)
  }

  /**
   * The callback's response: a redirect to the recorded URL with exactly one
   * new session cookie, or the login-failed page; without the handshake
   * cookie it always fails.
   */
  function Callback(callbackURL: string, cookie: Option<Handshake>, idTokenNonce: string -> Option<string>, sid: SessionId): (r: Response)
    ensures r.status == 302 <==> CallbackAccepted(callbackURL, cookie, idTokenNonce)
    ensures r.status != 302 ==> r == LoginFailedPage()
    ensures cookie.None? ==> r == LoginFailedPage()
    ensures r.status == 302 ==> "location" in r.headers && r.headers["location"] == cookie.value.redirectURL
    ensures r.status == 302 ==>
      && |r.cookies| == 1
      && r.cookies[0].key == SESSION_COOKIE
      && |r.cookies[0].value| > 0
      && r.cookies[0].path == "/"
      && r.cookies[0].httpOnly
  {
    if CallbackAccepted(callbackURL, cookie, idTokenNonce) then
      Response(302, map["location" := cookie.value.redirectURL],
        [Cookie(SESSION_COOKIE, sid, "/", true)], "")
    else LoginFailedPage()
  }

  /**
   * The whole handshake: after login, the identity provider's response,
   * relayed to the callback with the handshake cookie, succeeds exactly when
   * it returns the issued state and an ID token carrying the issued nonce,
   * and then redirects to the URL that started the login.
   */
  lemma HandshakeOutcome(currentURL: string, defaultTarget: string, state: string, nonce: string,
                         redirectURI: string, idToken: string, returnedState: string, rest: string,
                         idTokenNonce: string -> Option<string>, sid: SessionId)
    requires '#' !in redirectURI
    requires rest == "" || rest[0] == '&'
    ensures var r := Callback(RelayTarget(AuthenticationResponse(redirectURI, idToken, returnedState, rest)),
                              Some(Login(currentURL, defaultTarget, state, nonce).handshake), idTokenNonce, sid);
            && (r.status == 302 <==> returnedState == state && idTokenNonce(idToken) == Some(nonce))
            && (r.status == 302 ==> "location" in r.headers && r.headers["location"] == ReturnURL(currentURL, defaultTarget))
  {
    RelayRoundTrip(AuthenticationResponse(redirectURI, idToken, returnedState, rest));
    AuthenticationResponseParams(redirectURI, idToken, returnedState, rest);
  }

  // ---------------------------------------------------------------------
  // The browser
  // ---------------------------------------------------------------------

  /** The browser's side of the handshake: its location and its cookie jar. */
  class UserAgent {
    var href: string
    var handshakeCookie: Option<Handshake>
    var sessionCookie: Option<Cookie>

    constructor(href: string)
      ensures this.href == href && handshakeCookie == None && sessionCookie == None
    {
      this.href := href;
      handshakeCookie := None;
      sessionCookie := None;
    }

    /** Logs in from `currentURL` and stores the handshake cookie. */
    method LogIn(currentURL: string, defaultTarget: string, state: string, nonce: string) returns (r: LoginResponse)
      modifies this
      ensures r == Login(currentURL, defaultTarget, state, nonce)
      ensures handshakeCookie == Some(r.handshake)
      ensures href == old(href) && sessionCookie == old(sessionCookie)
    {
      r := Login(currentURL, defaultTarget, state, nonce);
      handshakeCookie := Some(r.handshake);
    }

    /** Follows a redirect, such as the identity provider's. */
    method Navigate(url: string)
      modifies this
      ensures href == url
      ensures handshakeCookie == old(handshakeCookie) && sessionCookie == old(sessionCookie)
    {
      href := url;
    }

    /** The relay page's script: `location.replace` with the callback URL. */
    method RunRelayScript()
      modifies this
      ensures href == RelayTarget(old(href))
      ensures handshakeCookie == old(handshakeCookie) && sessionCookie == old(sessionCookie)
    {
      href := RelayTarget(href);
    }

    /**
     * Requests the callback at the current location, with or without the
     * handshake cookie; a redirect stores the session cookie and is followed.
     */
    method RequestCallback(sendCookie: bool, idTokenNonce: string -> Option<string>, sid: SessionId) returns (r: Response)
      modifies this
      ensures r == Callback(old(href), if sendCookie then old(handshakeCookie) else None, idTokenNonce, sid)
      ensures r.status == 302 ==> sessionCookie == Some(r.cookies[0]) && href == r.headers["location"]
      ensures r.status != 302 ==> sessionCookie == old(sessionCookie) && href == old(href)
      ensures handshakeCookie == old(handshakeCookie)
    {
      r := Callback(href, if sendCookie then handshakeCookie else None, idTokenNonce, sid);
      if r.status == 302 {
        sessionCookie := Some(r.cookies[0]);
        href := r.headers["location"];
      }
    }
  }

  /**
   * One browser going through the implicit flow: login, the identity
   * provider's redirect, the relay page, the callback. The browser ends at
   * the initiating URL's redirect target (or the default one) with a session
   * cookie exactly when it sends the handshake cookie and the state and the
   * nonce come back.
   */
  method RunImplicitFlow(currentURL: string, defaultTarget: string, state: string, nonce: string,
                         redirectURI: string, idToken: string, returnedState: string, rest: string,
                         sendCookie: bool, idTokenNonce: string -> Option<string>, sid: SessionId)
    returns (finalURL: string, session: Option<Cookie>)
    requires '#' !in redirectURI
    requires rest == "" || rest[0] == '&'
    ensures session.Some? <==> sendCookie && returnedState == state && idTokenNonce(idToken) == Some(nonce)
    ensures session.Some? ==> finalURL == ReturnURL(currentURL, defaultTarget) && session.value.key == SESSION_COOKIE
  {
    var browser := new UserAgent(currentURL);
    var login := browser.LogIn(currentURL, defaultTarget, state, nonce);
    browser.Navigate(AuthenticationResponse(redirectURI, idToken, returnedState, rest));
    browser.RunRelayScript();
    HandshakeOutcome(currentURL, defaultTarget, state, nonce, redirectURI, idToken, returnedState, rest, idTokenNonce, sid);
    var response := browser.RequestCallback(sendCookie, idTokenNonce, sid);
    finalURL, session := browser.href, browser.sessionCookie;
  }
}
