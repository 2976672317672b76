/**
 * `GerritAuthFilter`: lets a request through to GitBlit when Gerrit's web session is signed
 * in or the request carries credentials, handing the session's user name and token on as
 * request attributes; the user is later recovered from those attributes by a single-sign-on
 * login with the password "sessionid:" and the token.
 */
module GerritAuthFilter {
  import opened Wrappers
  import opened JavaStrings
  import opened Host
  import opened Servlet
  import opened GerritToGitBlitUserService
  import GerritGitBlitUserModel

  const UsernameAttribute: string := "gerrit-username"
  const TokenAttribute: string := "gerrit-token"
  const AuthorizationHeader: string := "Authorization"
  const AuthenticateHeader: string := "WWW-Authenticate"
  const BasicRealm: string := "Basic realm=\"Gerrit Code Review\""

  /** `HttpURLConnection.HTTP_UNAUTHORIZED`. */
  const Unauthorized: int := 401

  /** What `getUser(httpRequest)` comes to: a failed cast, or the answer of the login (null included). */
  datatype UserLookup = ClassCastFailure | Looked(result: ServiceResult)

  /**
   * `getUser(httpRequest)`, where `authenticate` is GitBlit's login with a user name and a
   * password: both casts happen first; a missing name or token gives null without a login.
   */
  function GetUser(attrs: map<string, Value>, authenticate: (string, string) -> ServiceResult): (r: UserLookup)
    ensures r.ClassCastFailure? <==>
              ReadString(attrs, UsernameAttribute).NotAString? || ReadString(attrs, TokenAttribute).NotAString?
    ensures r.Looked? && !(ReadString(attrs, UsernameAttribute).Text? && ReadString(attrs, TokenAttribute).Text?) ==>
              r.result == NoUser
    ensures ReadString(attrs, UsernameAttribute).Text? && ReadString(attrs, TokenAttribute).Text? ==>
              r == Looked(authenticate(ReadString(attrs, UsernameAttribute).s,
                                       SessionAuth + ReadString(attrs, TokenAttribute).s))
  {
    var username := ReadString(attrs, UsernameAttribute);
    var token := ReadString(attrs, TokenAttribute);
    if username.NotAString? || token.NotAString? then ClassCastFailure
    else if username.Absent? || token.Absent? then Looked(NoUser)
    else Looked(authenticate(username.s, SessionAuth + token.s))
  }

  /** The request attributes after a pass: the session user's name and token, null removing an attribute. */
  function PassAttributes(attrs: map<string, Value>, session: SessionState): (r: map<string, Value>)
    ensures ReadString(r, UsernameAttribute) ==
            (if session.user.UserName().Some? then Text(session.user.UserName().value) else Absent)
    ensures ReadString(r, TokenAttribute) == (if session.token.Some? then Text(session.token.value) else Absent)
    ensures forall k :: k != UsernameAttribute && k != TokenAttribute ==>
              (k in r <==> k in attrs) && (k in r ==> r[k] == attrs[k])
  {
    var name := session.user.UserName();
    var withName := WithAttribute(attrs, UsernameAttribute, if name.Some? then Some(StringValue(name.value)) else None);
    WithAttribute(withName, TokenAttribute, if session.token.Some? then Some(StringValue(session.token.value)) else None)
  }

  /** `doFilter(webSession, request, response, chain)`: pass, or answer 401 with a basic-auth challenge. */
  method DoFilter(session: WebSession, request: HttpRequest, response: HttpResponse) returns (pass: bool)
    modifies request, response
    ensures pass <==> session.signedIn || AuthorizationHeader in request.headers
    ensures pass ==> request.attributes == PassAttributes(old(request.attributes), session.State())
    ensures pass ==> response.status == old(response.status) && response.headers == old(response.headers)
    ensures !pass ==> request.attributes == old(request.attributes)
    ensures !pass ==> response.status == Some(Unauthorized) &&
                      response.headers == old(response.headers)[AuthenticateHeader := BasicRealm]
    ensures response.message == old(response.message) && response.cookies == old(response.cookies)
    ensures response.contentType == old(response.contentType) && response.dateHeaders == old(response.dateHeaders)
  {
    if session.signedIn || AuthorizationHeader in request.headers {
      var name := session.user.UserName();
      request.SetAttribute(UsernameAttribute, if name.Some? then Some(StringValue(name.value)) else None);
      request.SetAttribute(TokenAttribute, if session.token.Some? then Some(StringValue(session.token.value)) else None);
      return true;
    }
    response.SetStatus(Unauthorized);
    response.SetHeader(AuthenticateHeader, BasicRealm);
    return false;
  }

  /**
   * A request passed for a signed-in session whose user has a name and whose token is set
   * is recognised by the user service exactly when the session id equals that token.
   */
  lemma PassedSessionSignsOn(attrs: map<string, Value>, session: SessionState, accounts: AccountManager)
    requires session.signedIn && session.user.UserName().Some? && session.token.Some?
    requires session.user.UserName().value != GerritGitBlitUserModel.AnonymousUserName
    ensures var r := GetUser(PassAttributes(attrs, session),
                             (u, p) => AuthenticateResult(session, accounts, u, p));
            r.Looked? &&
            (r.result == NamedModel(session.user.UserName().value) <==> session.sessionId == session.token)
  {
    var name := session.user.UserName().value;
    SsoRoundTrip(name, session.token.value);
  }

  /** Without a name or a token no login is attempted: every login function gives the same answer. */
  lemma MissingAttributeSkipsLogin(attrs: map<string, Value>, a1: (string, string) -> ServiceResult,
                                   a2: (string, string) -> ServiceResult)
    requires ReadString(attrs, UsernameAttribute).Absent? || ReadString(attrs, TokenAttribute).Absent?
    ensures GetUser(attrs, a1) == GetUser(attrs, a2)
  {
  }
}
