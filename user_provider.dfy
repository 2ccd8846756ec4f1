/**
 * The user context provider: the signed-in user and token, kept in step with
 * the OAuth session status, with the credential login and registration
 * endpoints, and with logout; plus the redirect normaliser used after a
 * successful sign-in. Browser storage is a ghost copy; the URL parser (the URL
 * Standard's basic URL parser, called as `new URL(url, base)`) is a parameter.
 * The handlers normalise redirects as the source does; a corrected normaliser
 * stands beside it, with the counterexample that separates the two.
 */
module UserProvider {
  import opened Wrappers

  // ---------------------------------------------------------------------------
  // Redirect normalisation

  /** The two parts of a parsed URL that the normaliser reads. */
  datatype ParsedUrl = ParsedUrl(origin: string, pathname: string)

  /** `new URL(url, base)`: a parsed URL, or `None` where the constructor throws. */
  type UrlParser = (string, string) -> Option<ParsedUrl>

  predicate StartsWithSlash(s: string) {
    |s| > 0 && s[0] == '/'
  }

  /**
   * A path that resolves against the current origin: it starts with one slash
   * that is not followed by a second slash or a backslash (either would make
   * it a scheme-relative reference to another host).
   */
  predicate IsLocalPath(s: string) {
    StartsWithSlash(s) && (|s| == 1 || (s[1] != '/' && s[1] != '\\'))
  }

  /** The address is given, non-empty, and the parser places it on another origin. */
  predicate ParsesToOtherOrigin(url: Option<string>, currentOrigin: string, parse: UrlParser) {
    url.Some? && url.value != "" && parse(url.value, currentOrigin).Some? &&
    parse(url.value, currentOrigin).value.origin != currentOrigin
  }

  /** The fallback when parsing throws: the input itself if it starts with "/", else "/" prefixed. */
  function SlashPrefixed(url: string): (r: string)
    ensures StartsWithSlash(r)
    ensures StartsWithSlash(url) ==> r == url
    ensures !StartsWithSlash(url) ==> r[1..] == url
  {
    if StartsWithSlash(url) then url else "/" + url
  }

  /** `normalizeRedirectUrl` as the source writes it. */
  function NormalizeRedirectUrlAsWritten(url: Option<string>, currentOrigin: string, parse: UrlParser): (r: string)
    ensures url.None? || url == Some("") ==> r == "/"
    ensures url.Some? && url.value != "" ==>
              match parse(url.value, currentOrigin)
              case None => r == SlashPrefixed(url.value)
              case Some(p) => r == (if p.origin != currentOrigin then "/" else if p.pathname == "" then "/" else p.pathname)
  {
    if url.None? || url.value == "" then "/"
    else
      match parse(url.value, currentOrigin)
      case None => SlashPrefixed(url.value)
      case Some(p) =>
        if p.origin != currentOrigin then "/"
        else if p.pathname == "" then "/"
        else p.pathname
  }

  /**
   * The redirect normaliser with the evidently intended guarantee: whatever
   * the parser answers, the result is a local path. It differs from the source
   * only in sending a path that is not local (one starting with "//" or "/\")
   * to "/".
   */
  function NormalizeRedirectUrl(url: Option<string>, currentOrigin: string, parse: UrlParser): (r: string)
    ensures IsLocalPath(r)
    ensures url.None? || url == Some("") ==> r == "/"
    ensures ParsesToOtherOrigin(url, currentOrigin, parse) ==> r == "/"
    ensures r == "/" || r == NormalizeRedirectUrlAsWritten(url, currentOrigin, parse)
  {
    var candidate := NormalizeRedirectUrlAsWritten(url, currentOrigin, parse);
    if IsLocalPath(candidate) then candidate else "/"
  }

  /** The two functions agree wherever the source's answer is already a local path. */
  lemma NormalizeAgreesOnLocalPaths(url: Option<string>, currentOrigin: string, parse: UrlParser)
    requires IsLocalPath(NormalizeRedirectUrlAsWritten(url, currentOrigin, parse))
    ensures NormalizeRedirectUrl(url, currentOrigin, parse) == NormalizeRedirectUrlAsWritten(url, currentOrigin, parse)
  {
  }

  /**
   * The source's normaliser starts its answer with "/" whenever the parser's
   * pathnames do (the URL Standard gives every http(s) URL such a path).
   */
  lemma AsWrittenStartsWithSlash(url: Option<string>, currentOrigin: string, parse: UrlParser)
    requires forall u, b :: parse(u, b).Some? ==> parse(u, b).value.pathname == "" || StartsWithSlash(parse(u, b).value.pathname)
    ensures StartsWithSlash(NormalizeRedirectUrlAsWritten(url, currentOrigin, parse))
  {
  }

  const SiteOrigin := "https://app.example"
  const CraftedUrl := "https://app.example//evil.example"

  /**
   * What the URL Standard's parser answers on the two inputs of the
   * counterexample below: `CraftedUrl` is on the site's origin with pathname
   * "//evil.example", and "//evil.example" resolved against the site is on
   * the origin "https://evil.example". Other inputs are not needed here.
   */
  function StandardParserOnExample(): UrlParser {
    (u: string, base: string) =>
      if u == CraftedUrl then Some(ParsedUrl(SiteOrigin, "//evil.example"))
      else if u == "//evil.example" then Some(ParsedUrl("https://evil.example", "/"))
      else None
  }

  /**
   * The source's normaliser lets a same-origin URL through whose pathname is
   * scheme-relative: the redirect target it returns, resolved against the
   * site as the router does, lands on another origin. The corrected
   * normaliser answers "/".
   */
  lemma AsWrittenAllowsOffSiteRedirect()
    ensures NormalizeRedirectUrlAsWritten(Some(CraftedUrl), SiteOrigin, StandardParserOnExample()) == "//evil.example"
    ensures StandardParserOnExample()("//evil.example", SiteOrigin).value.origin != SiteOrigin
    ensures NormalizeRedirectUrl(Some(CraftedUrl), SiteOrigin, StandardParserOnExample()) == "/"
  {
    var parse := StandardParserOnExample();
    assert parse(CraftedUrl, SiteOrigin) == Some(ParsedUrl(SiteOrigin, "//evil.example"));
    assert !IsLocalPath("//evil.example");
  }

  // ---------------------------------------------------------------------------
  // Session and credentials

  /** The fields of the app's user record that this provider sets. */
  datatype User = User(id: string, name: string, email: string, role: string)

  /** The user part of an OAuth session; any field may be missing. */
  datatype SessionUser = SessionUser(id: Option<string>, name: Option<string>, email: Option<string>, role: Option<string>)

  /** An OAuth session: the user (possibly missing) and the access token (possibly missing). */
  datatype Session = Session(user: Option<SessionUser>, accessToken: Option<string>)

  datatype Status = Authenticated | Unauthenticated | Loading

  /** A login or registration response: the HTTP status and the body's `user` and `token`. */
  datatype AuthResponse = AuthResponse(status: int, user: User, token: string)

  /** JavaScript's `value || fallback` on an optional string: missing and "" both fall back. */
  function OrElse(value: Option<string>, fallback: string): (r: string)
    ensures value.Some? && value.value != "" ==> r == value.value
    ensures value.None? || value == Some("") ==> r == fallback
  {
    if value.Some? && value.value != "" then value.value else fallback
  }

  /** One field of the session's user, if the user is present. */
  function Field(u: Option<SessionUser>, get: SessionUser -> Option<string>): Option<string> {
    if u.Some? then get(u.value) else None
  }

  /** The user record the session effect builds. */
  function UserFromSession(s: Session): (u: User)
    ensures u.id == OrElse(Field(s.user, (x: SessionUser) => x.id), "")
    ensures u.name == OrElse(Field(s.user, (x: SessionUser) => x.name), "Unknown")
    ensures u.email == OrElse(Field(s.user, (x: SessionUser) => x.email), "")
    ensures u.role == OrElse(Field(s.user, (x: SessionUser) => x.role), "user")
    ensures u.name != "" && u.role != ""
  {
    User(OrElse(Field(s.user, (x: SessionUser) => x.id), ""),
         OrElse(Field(s.user, (x: SessionUser) => x.name), "Unknown"),
         OrElse(Field(s.user, (x: SessionUser) => x.email), ""),
         OrElse(Field(s.user, (x: SessionUser) => x.role), "user"))
  }

  /** `accessToken || null`: a missing or empty token is no token. */
  function TokenOf(s: Session): (t: Option<string>)
    ensures t.Some? <==> s.accessToken.Some? && s.accessToken.value != ""
    ensures t.Some? ==> t == s.accessToken
  {
    if s.accessToken.Some? && s.accessToken.value != "" then s.accessToken else None
  }

  class AuthState {
    var user: Option<User>
    var token: Option<string>
    var loading: bool
    /** Local storage's "user" and "token" items and the "authToken" cookie. */
    ghost var storedUser: Option<User>
    ghost var storedToken: Option<string>
    ghost var cookie: Option<string>

    /** First render: user and token come from storage, an empty stored token counting as none. */
    constructor (fromStorageUser: Option<User>, fromStorageToken: Option<string>, fromCookie: Option<string>)
      ensures user == fromStorageUser && !loading
      ensures token == (if fromStorageToken == Some("") then None else fromStorageToken)
      ensures storedUser == fromStorageUser && storedToken == fromStorageToken && cookie == fromCookie
    {
      user := fromStorageUser;
      token := if fromStorageToken == Some("") then None else fromStorageToken;
      loading := false;
      storedUser, storedToken, cookie := fromStorageUser, fromStorageToken, fromCookie;
    }

    /** Whether nobody is signed in and nothing is stored. */
    ghost predicate SignedOut()
      reads this
    {
      user.None? && token.None? && storedUser.None? && storedToken.None? && cookie.None?
    }

    /**
     * The session-status effect: an authenticated session sets the user (with
     * defaults for missing fields) and the token, and stores the token in
     * storage and cookie; the user it stores is the one held before this run
     * of the effect, since the new one is not yet visible there.
     * "unauthenticated" signs out and clears all three items; "loading"
     * changes nothing.
     */
    method OnSessionStatus(status: Status, session: Option<Session>)
      modifies this
      ensures status == Authenticated && session.Some? ==>
                && user == Some(UserFromSession(session.value))
                && token == TokenOf(session.value)
                && storedToken == Some(OrElse(session.value.accessToken, ""))
                && cookie == Some(OrElse(session.value.accessToken, ""))
                && storedUser == old(user) && loading == old(loading)
      ensures status == Unauthenticated ==> SignedOut() && loading == old(loading)
      ensures (status == Loading || (status == Authenticated && session.None?)) ==>
                && user == old(user) && token == old(token) && loading == old(loading)
                && storedUser == old(storedUser) && storedToken == old(storedToken) && cookie == old(cookie)
    {
      if status == Authenticated && session.Some? {
        var s := session.value;
        storedUser := user;
        user := Some(UserFromSession(s));
        token := TokenOf(s);
        storedToken := Some(OrElse(s.accessToken, ""));
        cookie := Some(OrElse(s.accessToken, ""));
      } else if status == Unauthenticated {
        user := None;
        token := None;
        storedUser, storedToken, cookie := None, None, None;
      }
    }

    /**
     * The storage effect: with both a user and a non-empty token (`user && token`,
     * where "" is false), write both to storage.
     */
    method PersistUser()
      modifies this
      ensures user.Some? && token.Some? && token.value != "" ==> storedUser == user && storedToken == token
      ensures !(user.Some? && token.Some? && token.value != "") ==>
                storedUser == old(storedUser) && storedToken == old(storedToken)
      ensures user == old(user) && token == old(token) && loading == old(loading) && cookie == old(cookie)
    {
      if user.Some? && token.Some? && token.value != "" {
        storedUser := user;
        storedToken := token;
      }
    }

    /**
     * The body shared by `loginUser` and `registerUser`: only a 201 answer sets
     * user, token and cookie and yields the page to go to, normalised as the
     * source does; anything else (another status, a failed request) changes
     * nothing; loading ends false.
     */
    method Authenticate(response: Option<AuthResponse>, redirectUrl: Option<string>, currentOrigin: string, parse: UrlParser)
      returns (navigateTo: Option<string>)
      modifies this
      ensures !loading
      ensures response.Some? && response.value.status == 201 ==>
                && user == Some(response.value.user) && token == Some(response.value.token)
                && cookie == Some(response.value.token)
                && navigateTo == Some(NormalizeRedirectUrlAsWritten(redirectUrl, currentOrigin, parse))
      ensures !(response.Some? && response.value.status == 201) ==>
                user == old(user) && token == old(token) && cookie == old(cookie) && navigateTo.None?
      ensures storedUser == old(storedUser) && storedToken == old(storedToken)
    {
      loading := true;
      navigateTo := None;
      if response.Some? && response.value.status == 201 {
        user := Some(response.value.user);
        token := Some(response.value.token);
        cookie := Some(response.value.token);
        navigateTo := Some(NormalizeRedirectUrlAsWritten(redirectUrl, currentOrigin, parse));
      }
      loading := false;
    }

    /**
     * `loginUser`: on a 201 answer the user is signed in and the router is sent
     * to the normalised redirect, which is "/" for a missing address or one the
     * parser places on another origin.
     */
    method LoginUser(response: Option<AuthResponse>, redirectUrl: Option<string>, currentOrigin: string, parse: UrlParser)
      returns (navigateTo: Option<string>)
      modifies this
      ensures !loading
      ensures response.Some? && response.value.status == 201 ==>
                && user == Some(response.value.user) && token == Some(response.value.token)
                && cookie == Some(response.value.token)
                && navigateTo == Some(NormalizeRedirectUrlAsWritten(redirectUrl, currentOrigin, parse))
      ensures response.Some? && response.value.status == 201 && (redirectUrl.None? || ParsesToOtherOrigin(redirectUrl, currentOrigin, parse)) ==>
                navigateTo == Some("/")
      ensures !(response.Some? && response.value.status == 201) ==>
                user == old(user) && token == old(token) && cookie == old(cookie) && navigateTo.None?
      ensures storedUser == old(storedUser) && storedToken == old(storedToken)
    {
      navigateTo := Authenticate(response, redirectUrl, currentOrigin, parse);
    }

    /** `registerUser`: the same outcomes as `loginUser`, against the registration endpoint. */
    method RegisterUser(response: Option<AuthResponse>, redirectUrl: Option<string>, currentOrigin: string, parse: UrlParser)
      returns (navigateTo: Option<string>)
      modifies this
      ensures !loading
      ensures response.Some? && response.value.status == 201 ==>
                && user == Some(response.value.user) && token == Some(response.value.token)
                && cookie == Some(response.value.token)
                && navigateTo == Some(NormalizeRedirectUrlAsWritten(redirectUrl, currentOrigin, parse))
      ensures response.Some? && response.value.status == 201 && (redirectUrl.None? || ParsesToOtherOrigin(redirectUrl, currentOrigin, parse)) ==>
                navigateTo == Some("/")
      ensures !(response.Some? && response.value.status == 201) ==>
                user == old(user) && token == old(token) && cookie == old(cookie) && navigateTo.None?
      ensures storedUser == old(storedUser) && storedToken == old(storedToken)
    {
      navigateTo := Authenticate(response, redirectUrl, currentOrigin, parse);
    }

    /**
     * `googleSignIn`: the callback address handed to the OAuth sign-in, the
     * source's normalisation of the redirect: "/" when none is given or it
     * parses onto another origin.
     */
    method GoogleSignIn(redirectUrl: Option<string>, currentOrigin: string, parse: UrlParser)
      returns (callbackUrl: string)
      ensures callbackUrl == NormalizeRedirectUrlAsWritten(redirectUrl, currentOrigin, parse)
      ensures redirectUrl.None? || redirectUrl == Some("") || ParsesToOtherOrigin(redirectUrl, currentOrigin, parse) ==>
                callbackUrl == "/"
    {
      callbackUrl := NormalizeRedirectUrlAsWritten(redirectUrl, currentOrigin, parse);
    }

    /** `logoutUser`: nobody signed in, all three stored items removed. */
    method LogoutUser()
      modifies this
      ensures SignedOut() && loading == old(loading)
    {
      user := None;
      token := None;
      storedUser, storedToken, cookie := None, None, None;
    }
  }
}
