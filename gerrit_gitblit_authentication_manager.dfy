/**
 * `GerritGitBlitAuthenticationManager`: GitBlit's authentication, delegated to Gerrit. A
 * request carries the Gerrit session token, a password or the anonymous name in request
 * attributes; a token is accepted only for the signed-in Gerrit session it identifies, a
 * password only when Gerrit's account manager accepts it, and every token or password login
 * gets the cookie SHA-1(name + credential). An attribute that is not a String makes the
 * login throw ClassCastException.
 */
module GerritGitBlitAuthenticationManager {
  import opened Wrappers
  import opened JavaStrings
  import opened Host
  import opened Servlet
  import opened GerritGitBlitUserModel
  import opened GerritGitBlitUserManager
  import GitBlitSettings

  /** GitBlit's `Constants.NAME`, the name of its cookie. */
  const CookieName: string := "Gitblit"
  const AllowCookieAuthenticationKey: string := "web.allowCookieAuthentication"
  const UsernameAttribute: string := "gerrit-username"
  const TokenAttribute: string := "gerrit-token"
  const PasswordAttribute: string := "gerrit-password"
  /** Seven days, in seconds: the life of a login cookie. */
  const LoginCookieMaxAge: int := 7 * 24 * 60 * 60

  // ---------------------------------------------------------------------------
  // The plugin path

  /** Where the path of a URL starts looking for '/': after "//" when there is one. */
  function AuthorityEnd(url: string): (i: nat)
    ensures i <= |url|
  {
    var slashes := IndexOf(url, "//");
    if slashes < 0 then 0 else slashes + 2
  }

  /**
   * `extractPluginPath(pluginUrl, pluginName)`: the part of the URL from the first '/' after
   * the authority, or "/plugins/<name>" when there is no URL or no such '/'.
   */
  function ExtractPluginPath(pluginUrl: Option<string>, pluginName: string): (r: string)
    ensures |r| > 0 && r[0] == '/'
    ensures pluginUrl.None? || '/' !in pluginUrl.value[AuthorityEnd(pluginUrl.value)..] ==> r == "/plugins/" + pluginName
    ensures pluginUrl.Some? && '/' in pluginUrl.value[AuthorityEnd(pluginUrl.value)..] ==>
              var u := pluginUrl.value;
              EndsWith(u, r) && forall k :: AuthorityEnd(u) <= k < |u| - |r| ==> u[k] != '/'
  {
    if pluginUrl.None? then "/plugins/" + pluginName
    else
      var u := pluginUrl.value;
      var from := AuthorityEnd(u);
      var idx := IndexOfFrom(u, "/", from);
      IndexOfCharFrom(u, '/', from);
      CharInSuffix(u, '/', from);
      if idx < 0 then "/plugins/" + pluginName else u[idx..]
  }

  // ---------------------------------------------------------------------------
  // Choosing how a request logs in

  /** The three request attributes set by the authentication filter. */
  datatype LoginAttributes = LoginAttributes(username: Option<string>, token: Option<string>, password: Option<string>)

  /** An attribute that was null or a String, as the cast left it. */
  function CastValue(r: StringRead): Option<string> {
    if r.Text? then Some(r.s) else None
  }

  /**
   * The three `(String) getAttribute(...)` casts, all made before anything else: `None` when
   * one of them throws ClassCastException.
   */
  function ReadLoginAttributes(attrs: map<string, Value>): (r: Option<LoginAttributes>)
    ensures r.None? <==> ReadString(attrs, UsernameAttribute).NotAString? || ReadString(attrs, TokenAttribute).NotAString? ||
                         ReadString(attrs, PasswordAttribute).NotAString?
    ensures r.Some? ==> r.value.username == CastValue(ReadString(attrs, UsernameAttribute)) &&
                        r.value.token == CastValue(ReadString(attrs, TokenAttribute)) &&
                        r.value.password == CastValue(ReadString(attrs, PasswordAttribute))
  {
    var username := ReadString(attrs, UsernameAttribute);
    var token := ReadString(attrs, TokenAttribute);
    var password := ReadString(attrs, PasswordAttribute);
    if username.NotAString? || token.NotAString? || password.NotAString? then None
    else Some(LoginAttributes(CastValue(username), CastValue(token), CastValue(password)))
  }

  datatype LoginMethod = TokenLogin | PasswordLogin | AnonymousLogin | NoLogin

  /** A non-empty token first, then a non-empty password, then the anonymous name; else nothing. */
  function ChooseLogin(a: LoginAttributes): (m: LoginMethod)
    ensures m.TokenLogin? <==> !IsNullOrEmpty(a.token)
    ensures m.PasswordLogin? <==> IsNullOrEmpty(a.token) && !IsNullOrEmpty(a.password)
    ensures m.AnonymousLogin? <==> IsNullOrEmpty(a.token) && IsNullOrEmpty(a.password) && a.username == Some(AnonymousUserName)
  {
    if !IsNullOrEmpty(a.token) then TokenLogin
    else if !IsNullOrEmpty(a.password) then PasswordLogin
    else if a.username == Some(AnonymousUserName) then AnonymousLogin
    else NoLogin
  }

  // ---------------------------------------------------------------------------
  // The decisions, as specifications

  /** What `loggedIn` does to the user model: the cookie becomes SHA-1 of its name and the credential. */
  function WithCookie(user: UserModel, credentials: string): (u: UserModel)
    ensures u.cookie == Some(Sha1(user.username + credentials))
    ensures u.(cookie := user.cookie) == user
  {
    user.(cookie := Some(Sha1(user.username + credentials)))
  }

  /** `authenticateFromSession`: the user model a token login yields, cookie included. */
  function SessionLogin(state: SessionState, username: Option<string>, token: string): (r: Option<UserModel>)
    ensures r.Some? ==> state.sessionId == Some(token) && state.signedIn
    ensures r.Some? ==> r.value.cookie == Some(Sha1(r.value.username + token))
    ensures r.Some? && !IsNullOrEmpty(state.user.UserName()) ==>
              username == state.user.UserName() && r.value.username == username.value
    ensures state.sessionId == Some(token) && state.signedIn && IsNullOrEmpty(state.user.UserName()) ==>
              r == Some(WithCookie(GetUnnamedGerritUser(state.user), token))
    ensures state.sessionId == Some(token) && state.signedIn && !IsNullOrEmpty(state.user.UserName()) ==>
              (r.Some? <==> username == state.user.UserName())
  {
    if state.sessionId != Some(token) || !state.signedIn then None
    else
      var userName := state.user.UserName();
      if IsNullOrEmpty(userName) then Some(WithCookie(GetUnnamedGerritUser(state.user), token))
      else if Some(userName.value) != username then None
      else Some(WithCookie(GetUserModel(userName, state.user), token))
  }

  /**
   * The account manager's verdict on a password login; empty credentials are refused
   * before it is asked.
   */
  function PasswordCheck(accounts: AccountManager, username: Option<string>, password: Option<string>): (r: Option<AuthResult>)
    ensures IsNullOrEmpty(username) || IsNullOrEmpty(password) ==> r.None?
    ensures !IsNullOrEmpty(username) && !IsNullOrEmpty(password) ==> r == accounts(username.value, password.value)
  {
    if IsNullOrEmpty(username) || IsNullOrEmpty(password) then None
    else accounts(username.value, password.value)
  }

  /** `authenticateViaGerrit`: the user model a password login yields, cookie included. */
  function PasswordLoginUser(state: SessionState, accounts: AccountManager, username: Option<string>,
                             password: Option<string>): (r: Option<UserModel>)
    ensures r.Some? <==> PasswordCheck(accounts, username, password).Some?
    ensures r.Some? ==> r.value.username == username.value
    ensures r.Some? ==> r.value.cookie == Some(Sha1(r.value.username + password.value))
  {
    if PasswordCheck(accounts, username, password).None? then None
    else Some(WithCookie(GetUserModel(username, state.user), password.value))
  }

  /**
   * The Gerrit session after a successful password login: signed in under the key Gerrit
   * issued, and its user forced to the authenticated account unless it was already an
   * identified user.
   */
  function AfterPasswordLogin(state: SessionState, auth: AuthResult, issued: SessionKey): (s: SessionState)
    ensures s.signedIn && s.user.IdentifiedUser?
    ensures s.sessionId == Some(issued.sessionId) && s.token == Some(issued.token)
    ensures state.user.IdentifiedUser? ==> s.user == state.user
    ensures !state.user.IdentifiedUser? ==> s.user == IdentifiedUser(auth.accountId, auth.account)
  {
    var signedIn := SignedInWith(state, issued);
    if signedIn.user.IdentifiedUser? then signedIn
    else signedIn.(user := IdentifiedUser(auth.accountId, auth.account))
  }

  /** `authenticate(request)`: the user model the request logs in as. */
  function RequestLogin(state: SessionState, accounts: AccountManager, a: LoginAttributes): Option<UserModel> {
    match ChooseLogin(a)
    case TokenLogin => SessionLogin(state, a.username, a.token.value)
    case PasswordLogin => PasswordLoginUser(state, accounts, a.username, a.password)
    case AnonymousLogin => Some(GetUserModel(a.username, state.user))
    case NoLogin => None
  }

  /** The Gerrit session after `authenticate(request)`: only a successful password login changes it. */
  function SessionAfterLogin(state: SessionState, accounts: AccountManager, a: LoginAttributes,
                             issued: SessionKey): SessionState {
    if ChooseLogin(a).PasswordLogin? && PasswordCheck(accounts, a.username, a.password).Some? then
      AfterPasswordLogin(state, PasswordCheck(accounts, a.username, a.password).value, issued)
    else state
  }

  /** Whether `loggedIn` ran, which records the CREDENTIALS authentication type in the HTTP session. */
  predicate RecordsCredentials(state: SessionState, accounts: AccountManager, a: LoginAttributes) {
    (ChooseLogin(a).TokenLogin? || ChooseLogin(a).PasswordLogin?) && RequestLogin(state, accounts, a).Some?
  }

  /** What `authenticate(httpRequest)` comes to: a failed cast, or the user it returns (null included). */
  datatype RequestOutcome = ClassCastFailure | Authenticated(user: Option<UserModel>)

  /** What `authenticate(username, password)` comes to: `new String(null)` throws, or the user it returns (null included). */
  datatype PasswordOutcome = PasswordNullPointer | PasswordAnswer(user: Option<UserModel>)

  /** `authenticate(httpRequest)` on the request's attributes. */
  function RequestOutcomeOf(state: SessionState, accounts: AccountManager, attrs: map<string, Value>): RequestOutcome {
    var read := ReadLoginAttributes(attrs);
    if read.None? then ClassCastFailure else Authenticated(RequestLogin(state, accounts, read.value))
  }

  /** The Gerrit session after `authenticate(httpRequest)`; a failed cast leaves it alone. */
  function SessionAfterRequest(state: SessionState, accounts: AccountManager, attrs: map<string, Value>,
                               issued: SessionKey): SessionState {
    var read := ReadLoginAttributes(attrs);
    if read.None? then state else SessionAfterLogin(state, accounts, read.value, issued)
  }

  predicate RequestRecordsCredentials(state: SessionState, accounts: AccountManager, attrs: map<string, Value>) {
    var read := ReadLoginAttributes(attrs);
    read.Some? && RecordsCredentials(state, accounts, read.value)
  }

  // ---------------------------------------------------------------------------
  // Properties of the decisions

  /** A token login succeeds only for the token of a signed-in session. */
  lemma {:induction false} TokenMustMatchSession(state: SessionState, accounts: AccountManager, a: LoginAttributes)
    requires ChooseLogin(a).TokenLogin?
    requires state.sessionId != a.token || !state.signedIn
    ensures RequestLogin(state, accounts, a).None?
  {
  }

  /** The host is never asked about empty credentials: any account manager gives the same answer. */
  lemma EmptyCredentialsNotChecked(accounts1: AccountManager, accounts2: AccountManager,
                                   username: Option<string>, password: Option<string>)
    requires IsNullOrEmpty(username) || IsNullOrEmpty(password)
    ensures PasswordCheck(accounts1, username, password) == PasswordCheck(accounts2, username, password) == None
  {
  }

  /** Every accepted login carries SHA-1 of the user's name followed by the credential it used. */
  lemma {:induction false} LoginSetsCookie(state: SessionState, accounts: AccountManager, a: LoginAttributes)
    requires RecordsCredentials(state, accounts, a)
    ensures var u := RequestLogin(state, accounts, a).value;
            u.cookie == Some(Sha1(u.username + (if ChooseLogin(a).TokenLogin? then a.token.value else a.password.value)))
  {
  }

  /** For one user name, different credentials give different cookies. */
  lemma {:induction false} CookieDeterminesCredential(user1: UserModel, user2: UserModel, c1: string, c2: string)
    requires user1.username == user2.username
    requires WithCookie(user1, c1).cookie == WithCookie(user2, c2).cookie
    ensures c1 == c2
  {
    var n := user1.username;
    assert n + c1 == n + c2;
    assert c1 == (n + c1)[|n|..];
    assert c2 == (n + c2)[|n|..];
  }

  /** `getCookie(user)` hands back what the login stored. */
  lemma CookieRoundTrip(user: UserModel, credentials: string)
    ensures GetCookie(WithCookie(user, credentials)) == Some(Sha1(user.username + credentials))
  {
  }

  /** Only a password login changes the Gerrit session, and then it leaves it signed in as an identified user. */
  lemma {:induction false} SessionChangesOnlyOnPasswordLogin(state: SessionState, accounts: AccountManager,
                                                              a: LoginAttributes, issued: SessionKey)
    ensures !ChooseLogin(a).PasswordLogin? ==> SessionAfterLogin(state, accounts, a, issued) == state
    ensures ChooseLogin(a).PasswordLogin? && RequestLogin(state, accounts, a).Some? ==>
              SessionAfterLogin(state, accounts, a, issued).signedIn &&
              SessionAfterLogin(state, accounts, a, issued).user.IdentifiedUser?
    ensures RequestLogin(state, accounts, a).None? ==> SessionAfterLogin(state, accounts, a, issued) == state
  {
    if ChooseLogin(a).PasswordLogin? && PasswordCheck(accounts, a.username, a.password).Some? {
      assert RequestLogin(state, accounts, a).Some?;
    }
  }

  /**
   * A non-String token, password or name attribute makes the request fail with a class-cast
   * error before any login is tried, whatever the other attributes say.
   */
  lemma {:induction false} NonStringAttributeThrows(state: SessionState, accounts: AccountManager,
                                                     attrs: map<string, Value>, name: string, issued: SessionKey)
    requires name == UsernameAttribute || name == TokenAttribute || name == PasswordAttribute
    requires name in attrs && !attrs[name].StringValue?
    ensures RequestOutcomeOf(state, accounts, attrs) == ClassCastFailure
    ensures SessionAfterRequest(state, accounts, attrs, issued) == state
  {
    assert ReadString(attrs, name).NotAString?;
  }

  // ---------------------------------------------------------------------------
  // Cookies and logout, as specifications

  /** The first cookie of the given name, if any. */
  function FirstNamed(cookies: seq<Cookie>, name: string): (r: Option<CookieText>)
    ensures r.None? <==> forall k :: 0 <= k < |cookies| ==> cookies[k].name != name
  {
    if |cookies| == 0 then None
    else if cookies[0].name == name then Some(cookies[0].value)
    else
      assert forall k :: 1 <= k < |cookies| ==> cookies[k] == cookies[1..][k - 1];
      FirstNamed(cookies[1..], name)
  }

  /** The cookie found is the earliest one of that name. */
  lemma {:induction false} FirstNamedIsEarliest(cookies: seq<Cookie>, name: string, k: nat)
    requires k < |cookies| && cookies[k].name == name
    requires forall j :: 0 <= j < k ==> cookies[j].name != name
    ensures FirstNamed(cookies, name) == Some(cookies[k].value)
  {
    if k > 0 {
      assert cookies[1..][k - 1] == cookies[k];
      FirstNamedIsEarliest(cookies[1..], name, k - 1);
    }
  }

  /** The cookie `setCookie` writes for a user, or for nobody on logout. */
  function LoginCookie(user: Option<UserModel>, path: string): (c: Cookie)
    ensures c.name == CookieName && c.path == Some(path)
    ensures user.None? || GetCookie(user.value).None? ==> c.value == Plain("") && c.maxAge == -1
    ensures user.Some? && GetCookie(user.value).Some? ==>
              c.value == Hex(GetCookie(user.value).value) && c.maxAge == LoginCookieMaxAge
  {
    if user.None? || GetCookie(user.value).None? then Cookie(CookieName, Plain(""), -1, Some(path))
    else Cookie(CookieName, Hex(GetCookie(user.value).value), LoginCookieMaxAge, Some(path))
  }

  /** `isStandardLogin(request)`: the request's session records a standard authentication type. */
  predicate IsStandardLogin(request: Option<map<string, Value>>, authTypeKey: string) {
    request.Some? && authTypeKey in request.value && request.value[authTypeKey].AuthTypeValue? &&
    request.value[authTypeKey].authType.IsStandard()
  }

  /** The URL that starts Gerrit's own logout, joined to the canonical URL by exactly one added '/' at most. */
  function LogoutUrl(gerritUrl: string): (r: string)
    ensures StartsWith(r, gerritUrl) && EndsWith(r, "/logout")
    ensures EndsWith(gerritUrl, "/") ==> |r| == |gerritUrl| + 6
    ensures !EndsWith(gerritUrl, "/") ==> |r| == |gerritUrl| + 7
  {
    var r := gerritUrl + (if EndsWith(gerritUrl, "/") then "" else "/") + "logout";
    assert r[..|gerritUrl|] == gerritUrl;
    r
  }

  /** The profile changes GitBlit may ask about. */
  datatype ProfileChange = CredentialChange | DisplayNameChange | EmailAddressChange
                         | UserTeamMembershipChange | TeamTeamMembershipChange

  /** `supports...Changes`: Gerrit owns the profile, so none is supported. */
  function Supports(change: ProfileChange): (r: bool)
    ensures !r
  {
    false
  }

  /** `authenticate(username, sshKey)`: never a user. */
  function AuthenticateWithKey(username: string, key: string): (r: Option<UserModel>)
    ensures r.None?
  {
    None
  }

  // ---------------------------------------------------------------------------
  // The manager

  class AuthenticationManager {
    const gerritSession: WebSession
    const accounts: AccountManager
    const settings: GitBlitSettings.Settings
    const gerritUrl: Option<string>
    const externalLogoutUrl: Option<string>
    const hostRelativePluginPath: string
    /** GitBlit's `Constants.AUTHENTICATION_TYPE`, the session attribute holding the authentication type. */
    const authTypeKey: string

    constructor (gerritSession: WebSession, accounts: AccountManager, settings: GitBlitSettings.Settings,
                 pluginName: string, pluginUrl: Option<string>, canonicalGerritUrl: Option<string>,
                 logoutUrl: Option<string>, authTypeKey: string)
      ensures this.gerritSession == gerritSession && this.accounts == accounts && this.settings == settings
      ensures gerritUrl == canonicalGerritUrl && externalLogoutUrl == logoutUrl && this.authTypeKey == authTypeKey
      ensures hostRelativePluginPath == ExtractPluginPath(pluginUrl, pluginName)
    {
      this.gerritSession := gerritSession;
      this.accounts := accounts;
      this.settings := settings;
      this.gerritUrl := canonicalGerritUrl;
      this.externalLogoutUrl := logoutUrl;
      this.hostRelativePluginPath := ExtractPluginPath(pluginUrl, pluginName);
      this.authTypeKey := authTypeKey;
    }

    predicate CookiesAllowed()
      reads settings
    {
      GitBlitSettings.GetBoolean(settings.properties, AllowCookieAuthenticationKey, true)
    }

    /**
     * `loggedIn`: forces the account into a session whose user is stale after a password
     * login, records CREDENTIALS in the request's session, and sets the cookie.
     */
    method LoggedIn(httpSession: Option<HttpSession>, user: UserModel, credentials: string,
                    authentication: Option<AuthResult>) returns (u: UserModel)
      modifies gerritSession, if httpSession.Some? then {httpSession.value} else {}
      ensures u == WithCookie(user, credentials)
      ensures authentication.Some? && !old(gerritSession.user).IdentifiedUser? ==>
                gerritSession.State() == old(gerritSession.State()).(user := IdentifiedUser(authentication.value.accountId,
                                                                                            authentication.value.account))
      ensures !(authentication.Some? && !old(gerritSession.user).IdentifiedUser?) ==>
                gerritSession.State() == old(gerritSession.State())
      ensures httpSession.Some? ==>
                httpSession.value.attributes == old(httpSession.value.attributes)[authTypeKey := AuthTypeValue(Credentials)]
    {
      if authentication.Some? && !gerritSession.user.IdentifiedUser? {
        gerritSession.SetUserAccountId(authentication.value);
      }
      if httpSession.Some? {
        httpSession.value.SetAttribute(authTypeKey, Some(AuthTypeValue(Credentials)));
      }
      u := WithCookie(user, credentials);
    }

    /** `authenticateFromSession`. */
    method AuthenticateFromSession(httpSession: Option<HttpSession>, username: Option<string>, token: string)
      returns (user: Option<UserModel>)
      modifies gerritSession, if httpSession.Some? then {httpSession.value} else {}
      ensures user == SessionLogin(old(gerritSession.State()), username, token)
      ensures gerritSession.State() == old(gerritSession.State())
      ensures httpSession.Some? ==>
                httpSession.value.attributes ==
                if user.Some? then old(httpSession.value.attributes)[authTypeKey := AuthTypeValue(Credentials)]
                else old(httpSession.value.attributes)
    {
      var state := gerritSession.State();
      if gerritSession.sessionId.None? || gerritSession.sessionId.value != token {
        return None;
      }
      if !gerritSession.signedIn {
        return None;
      }
      var userName := gerritSession.user.UserName();
      var model: UserModel;
      if IsNullOrEmpty(userName) {
        model := GetUnnamedGerritUser(gerritSession.user);
      } else {
        if Some(userName.value) != username {
          return None;
        }
        model := GetUserModel(userName, gerritSession.user);
      }
      var u := LoggedIn(httpSession, model, token, None);
      user := Some(u);
    }

    /**
     * `authenticateViaGerrit`; `httpSession` is `None` when there is no request, and `issued`
     * is the key Gerrit's `login` gives the session.
     */
    method AuthenticateViaGerrit(httpSession: Option<HttpSession>, username: Option<string>, password: Option<string>,
                                 issued: SessionKey)
      returns (user: Option<UserModel>)
      modifies gerritSession, if httpSession.Some? then {httpSession.value} else {}
      ensures user == PasswordLoginUser(old(gerritSession.State()), accounts, username, password)
      ensures gerritSession.State() ==
                if user.Some? then AfterPasswordLogin(old(gerritSession.State()), PasswordCheck(accounts, username, password).value, issued)
                else old(gerritSession.State())
      ensures httpSession.Some? ==>
                httpSession.value.attributes ==
                if user.Some? then old(httpSession.value.attributes)[authTypeKey := AuthTypeValue(Credentials)]
                else old(httpSession.value.attributes)
    {
      if IsNullOrEmpty(username) {
        return None;
      }
      if IsNullOrEmpty(password) {
        return None;
      }
      var authResp := accounts(username.value, password.value);
      if authResp.None? {
        return None;
      }
      gerritSession.Login(authResp.value, issued);
      var model := GetUserModel(username, gerritSession.user);
      var u := LoggedIn(httpSession, model, password.value, authResp);
      user := Some(u);
    }

    /** `authenticate(httpRequest)`; `httpSession` is the request's session. */
    method Authenticate(request: HttpRequest, httpSession: HttpSession, issued: SessionKey) returns (r: RequestOutcome)
      modifies gerritSession, httpSession
      ensures r == RequestOutcomeOf(old(gerritSession.State()), accounts, request.attributes)
      ensures gerritSession.State() == SessionAfterRequest(old(gerritSession.State()), accounts, request.attributes, issued)
      ensures httpSession.attributes ==
                if RequestRecordsCredentials(old(gerritSession.State()), accounts, request.attributes)
                then old(httpSession.attributes)[authTypeKey := AuthTypeValue(Credentials)]
                else old(httpSession.attributes)
    {
      var read := ReadLoginAttributes(request.attributes);
      if read.None? {
        return ClassCastFailure;
      }
      var a := read.value;
      var user: Option<UserModel>;
      match ChooseLogin(a) {
        case TokenLogin =>
          user := AuthenticateFromSession(Some(httpSession), a.username, a.token.value);
        case PasswordLogin =>
          user := AuthenticateViaGerrit(Some(httpSession), a.username, a.password, issued);
        case AnonymousLogin =>
          user := Some(GetUserModel(a.username, gerritSession.user));
        case NoLogin =>
          user := None;
      }
      r := Authenticated(user);
    }

    /** `authenticate(httpRequest, requiresCertificate)`: the same as `authenticate(httpRequest)`. */
    method AuthenticateWithCertificate(request: HttpRequest, httpSession: HttpSession, requiresCertificate: bool,
                                       issued: SessionKey)
      returns (r: RequestOutcome)
      modifies gerritSession, httpSession
      ensures r == RequestOutcomeOf(old(gerritSession.State()), accounts, request.attributes)
      ensures gerritSession.State() == SessionAfterRequest(old(gerritSession.State()), accounts, request.attributes, issued)
      ensures httpSession.attributes ==
                if RequestRecordsCredentials(old(gerritSession.State()), accounts, request.attributes)
                then old(httpSession.attributes)[authTypeKey := AuthTypeValue(Credentials)]
                else old(httpSession.attributes)
    {
      r := Authenticate(request, httpSession, issued);
    }

    /**
     * `authenticate(username, password)`: a password login without a request. A null password
     * throws in `new String(password)` before anything else happens; a null user name is
     * refused like an empty one.
     */
    method AuthenticateWithPassword(username: Option<string>, password: Option<string>, issued: SessionKey)
      returns (r: PasswordOutcome)
      modifies gerritSession
      ensures password.None? <==> r.PasswordNullPointer?
      ensures password.Some? ==> r.user == PasswordLoginUser(old(gerritSession.State()), accounts, username, password)
      ensures gerritSession.State() ==
                if r.PasswordAnswer? && r.user.Some? then
                  AfterPasswordLogin(old(gerritSession.State()), PasswordCheck(accounts, username, password).value, issued)
                else old(gerritSession.State())
    {
      if password.None? {
        return PasswordNullPointer;
      }
      var user := AuthenticateViaGerrit(None, username, password, issued);
      return PasswordAnswer(user);
    }

    /** `getCookie(request)`: the value of the first "Gitblit" cookie, when cookies are allowed. */
    method GetCookie(cookies: Option<seq<Cookie>>) returns (value: Option<CookieText>)
      ensures !CookiesAllowed() || cookies.None? ==> value.None?
      ensures CookiesAllowed() && cookies.Some? ==> value == FirstNamed(cookies.value, CookieName)
    {
      if !GitBlitSettings.GetBoolean(settings.properties, AllowCookieAuthenticationKey, true) || cookies.None? {
        return None;
      }
      var cs := cookies.value;
      var i := 0;
      while i < |cs|
        invariant 0 <= i <= |cs|
        invariant FirstNamed(cs, CookieName) == FirstNamed(cs[i..], CookieName)
      {
        if cs[i].name == CookieName {
          return Some(cs[i].value);
        }
        assert cs[i..][1..] == cs[i + 1..];
        i := i + 1;
      }
      return None;
    }

    /** `setCookie(request, response, user)`; `request` is the request's session attributes, if there is a request. */
    method SetCookie(request: Option<map<string, Value>>, response: HttpResponse, user: Option<UserModel>)
      modifies response
      ensures response.cookies ==
                old(response.cookies) +
                (if CookiesAllowed() && IsStandardLogin(request, authTypeKey) then [LoginCookie(user, hostRelativePluginPath)] else [])
      ensures response.status == old(response.status) && response.headers == old(response.headers)
      ensures response.message == old(response.message)
      ensures response.contentType == old(response.contentType) && response.dateHeaders == old(response.dateHeaders)
    {
      if GitBlitSettings.GetBoolean(settings.properties, AllowCookieAuthenticationKey, true) && IsStandardLogin(request, authTypeKey) {
        var userCookie: Cookie;
        if user.None? {
          userCookie := Cookie(CookieName, Plain(""), -1, None);
        } else {
          var cookie := GerritGitBlitUserManager.GetCookie(user.value);
          if cookie.None? {
            userCookie := Cookie(CookieName, Plain(""), -1, None);
          } else {
            userCookie := Cookie(CookieName, Hex(cookie.value), -1, None);
            userCookie := userCookie.(maxAge := LoginCookieMaxAge);
          }
        }
        userCookie := userCookie.(path := Some(hostRelativePluginPath));
        response.AddCookie(userCookie);
      } else {
        assert old(response.cookies) + [] == old(response.cookies);
      }
    }

    /** `logout(request, response, user)`: the Gerrit session is logged out and the cookie cleared. */
    method Logout(request: Option<map<string, Value>>, response: HttpResponse)
      modifies gerritSession, response
      ensures gerritSession.State() == old(gerritSession.State()).(signedIn := false, user := AnonymousUser)
      ensures response.cookies ==
                old(response.cookies) +
                (if CookiesAllowed() && IsStandardLogin(request, authTypeKey) then [LoginCookie(None, hostRelativePluginPath)] else [])
      ensures response.status == old(response.status) && response.message == old(response.message)
      ensures response.headers == old(response.headers)
      ensures response.contentType == old(response.contentType) && response.dateHeaders == old(response.dateHeaders)
    {
      gerritSession.Logout();
      SetCookie(request, response, None);
    }

    /**
     * `logoutAndRedirect`: with a canonical Gerrit URL, only the cookie is cleared and Gerrit's
     * logout URL is returned; without one, the Gerrit session is logged out here and the
     * external logout URL is returned.
     */
    method LogoutAndRedirect(request: Option<map<string, Value>>, response: HttpResponse) returns (url: Option<string>)
      modifies gerritSession, response
      ensures !IsNullOrEmpty(gerritUrl) ==> url == Some(LogoutUrl(gerritUrl.value)) && gerritSession.State() == old(gerritSession.State())
      ensures IsNullOrEmpty(gerritUrl) ==>
                url == externalLogoutUrl && gerritSession.State() == old(gerritSession.State()).(signedIn := false, user := AnonymousUser)
      ensures response.cookies ==
                old(response.cookies) +
                (if CookiesAllowed() && IsStandardLogin(request, authTypeKey) then [LoginCookie(None, hostRelativePluginPath)] else [])
      ensures response.status == old(response.status) && response.message == old(response.message)
      ensures response.headers == old(response.headers)
      ensures response.contentType == old(response.contentType) && response.dateHeaders == old(response.dateHeaders)
    {
      if !IsNullOrEmpty(gerritUrl) {
        SetCookie(request, response, None);
        return Some(gerritUrl.value + (if EndsWith(gerritUrl.value, "/") then "" else "/") + "logout");
      }
      Logout(request, response);
      return externalLogoutUrl;
    }
  }
}
