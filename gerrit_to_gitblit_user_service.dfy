/**
 * `GerritToGitBlitUserService`: the user service of the older GitBlit integration. A login
 * is routed by its user name and password: the anonymous user name gives the anonymous
 * model, a password carrying the "sessionid:" prefix is checked against Gerrit's web
 * session (single sign-on), and anything else is a password checked by Gerrit's account
 * manager, which on success signs the web session in. Every store operation is a stub.
 */
module GerritToGitBlitUserService {
  import opened Wrappers
  import opened JavaStrings
  import opened Host
  import GerritGitBlitUserModel

  /** `SESSIONAUTH`: the password prefix that marks a single-sign-on token. */
  const SessionAuth: string := "sessionid:"

  /** What the service hands back: no user (null), the anonymous model, a named model, or a null dereference. */
  datatype ServiceResult = NoUser | AnonymousModel | NamedModel(username: string) | NullPointer

  /** Which of the three ways `authenticate(username, password)` takes. */
  datatype Route = AnonymousRoute | SsoRoute(token: string) | BasicRoute(password: string)

  /** The branch of `authenticate(username, password)`. */
  function Dispatch(username: string, password: string): (r: Route)
    ensures r.AnonymousRoute? <==> username == GerritGitBlitUserModel.AnonymousUserName
    ensures r.SsoRoute? ==> SessionAuth + r.token == password
    ensures r.BasicRoute? ==> r.password == password && !StartsWith(password, SessionAuth)
  {
    if username == GerritGitBlitUserModel.AnonymousUserName then AnonymousRoute
    else if StartsWith(password, SessionAuth) then
      assert password == password[..|SessionAuth|] + password[|SessionAuth|..];
      SsoRoute(password[|SessionAuth|..])
    else BasicRoute(password)
  }

  /** A password built as "sessionid:" and a token reaches single sign-on with exactly that token. */
  lemma SsoRoundTrip(username: string, token: string)
    requires username != GerritGitBlitUserModel.AnonymousUserName
    ensures Dispatch(username, SessionAuth + token) == SsoRoute(token)
  {
    var password := SessionAuth + token;
    assert password[..|SessionAuth|] == SessionAuth;
    assert password[|SessionAuth|..] == token;
  }

  /**
   * `authenticateSSO(username, sessionToken)`: the session id must be the token, the session
   * must be signed in, and its user's name must be the given name (a null name fails with a
   * null dereference).
   */
  function AuthenticateSso(session: SessionState, username: string, token: string): (r: ServiceResult)
    ensures !r.AnonymousModel?
    ensures r.NamedModel? <==>
              session.sessionId == Some(token) && session.signedIn && session.user.UserName() == Some(username)
    ensures r.NamedModel? ==> r.username == username
    ensures r.NullPointer? <==> session.sessionId == Some(token) && session.signedIn && session.user.UserName().None?
  {
    if session.sessionId != Some(token) then NoUser
    else if !session.signedIn then NoUser
    else if session.user.UserName().None? then NullPointer
    else if session.user.UserName().value != username then NoUser
    else NamedModel(username)
  }

  /** The answer of `authenticateBasicAuth(username, password)`. */
  function BasicResult(accounts: AccountManager, username: string, password: string): (r: ServiceResult)
    ensures r.NamedModel? <==> username != "" && password != "" && accounts(username, password).Some?
    ensures r.NamedModel? ==> r.username == username
    ensures !r.NamedModel? ==> r == NoUser
  {
    if username == "" || password == "" then NoUser
    else if accounts(username, password).None? then NoUser
    else NamedModel(username)
  }

  /** An empty user name or password is refused whatever the account manager would say. */
  lemma EmptyCredentialsNeverChecked(accounts1: AccountManager, accounts2: AccountManager,
                                     username: string, password: string)
    requires username == "" || password == ""
    ensures BasicResult(accounts1, username, password) == BasicResult(accounts2, username, password) == NoUser
  {
  }

  /** The answer of `authenticate(username, password)` in a session in state `session`. */
  function AuthenticateResult(session: SessionState, accounts: AccountManager, username: string, password: string): (r: ServiceResult)
    ensures username == GerritGitBlitUserModel.AnonymousUserName ==> r == AnonymousModel
    ensures username != GerritGitBlitUserModel.AnonymousUserName ==> r == NoUser || r == NullPointer || r == NamedModel(username)
  {
    match Dispatch(username, password)
    case AnonymousRoute => AnonymousModel
    case SsoRoute(token) => AuthenticateSso(session, username, token)
    case BasicRoute(p) => BasicResult(accounts, username, p)
  }

  /**
   * The anonymous user name gets the anonymous model whatever the password; any other name
   * gets a model of that very name or nothing.
   */
  lemma AuthenticateNamesTheUser(session: SessionState, accounts: AccountManager, username: string, password: string)
    ensures username == GerritGitBlitUserModel.AnonymousUserName ==>
              AuthenticateResult(session, accounts, username, password) == AnonymousModel
    ensures username != GerritGitBlitUserModel.AnonymousUserName ==>
              var r := AuthenticateResult(session, accounts, username, password);
              r == NoUser || r == NullPointer || r == NamedModel(username)
  {
  }

  /** `authenticateBasicAuth(username, password)`: a successful check signs the web session in. */
  method AuthenticateBasicAuth(session: WebSession, accounts: AccountManager, username: string, password: string,
                               issued: SessionKey)
    returns (r: ServiceResult)
    modifies session
    ensures r == BasicResult(accounts, username, password)
    ensures session.State() == if r.NamedModel? then SignedInWith(old(session.State()), issued) else old(session.State())
  {
    if username == "" || password == "" {
      return NoUser;
    }
    var auth := accounts(username, password);
    if auth.None? {
      return NoUser;
    }
    session.Login(auth.value, issued);
    r := NamedModel(username);
  }

  /** `authenticate(username, password)`: only the password route can change the session. */
  method Authenticate(session: WebSession, accounts: AccountManager, username: string, password: string,
                      issued: SessionKey)
    returns (r: ServiceResult)
    modifies session
    ensures r == AuthenticateResult(old(session.State()), accounts, username, password)
    ensures session.State() ==
              if Dispatch(username, password).BasicRoute? && r.NamedModel? then SignedInWith(old(session.State()), issued)
              else old(session.State())
  {
    var route := Dispatch(username, password);
    match route
    case AnonymousRoute =>
      r := AnonymousModel;
    case SsoRoute(token) =>
      r := AuthenticateSso(session.State(), username, token);
    case BasicRoute(p) =>
      r := AuthenticateBasicAuth(session, accounts, username, p, issued);
  }

  /** The store and capability operations, all stubs. */
  datatype StubOperation =
    | SupportsCookies | SupportsCredentialChanges | SupportsDisplayNameChanges
    | SupportsEmailAddressChanges | SupportsTeamMembershipChanges | AuthenticateCookie
    | UpdateUserModel | UpdateNamedUserModel | DeleteUserModel | DeleteUser
    | GetAllUsernames | GetAllUsers | GetAllTeamNames | GetAllTeams
    | GetTeamnamesForRepositoryRole | SetTeamnamesForRepositoryRole | GetTeamModel
    | UpdateTeamModel | UpdateNamedTeamModel | DeleteTeamModel | DeleteTeam
    | GetUsernamesForRepositoryRole | SetUsernamesForRepositoryRole
    | RenameRepositoryRole | DeleteRepositoryRole | UpdateTeamModels | UpdateUserModels
  {
    /** The operations that return an object or a list rather than a flag. */
    predicate ReturnsObject() {
      AuthenticateCookie? || GetAllUsernames? || GetAllUsers? || GetAllTeamNames? || GetAllTeams? ||
      GetTeamnamesForRepositoryRole? || GetTeamModel? || GetUsernamesForRepositoryRole?
    }
  }

  /** A stub's answer: a flag, or null. */
  datatype StubAnswer = Flag(value: bool) | Null

  function StubAnswerOf(op: StubOperation): (a: StubAnswer)
    ensures a.Null? <==> op.ReturnsObject()
    ensures a != Flag(true)
  {
    if op.ReturnsObject() then Null else Flag(false)
  }
}
