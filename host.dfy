/**
 * The Gerrit side that the plugin consults: accounts, the current user of a web session,
 * the web session itself, the account manager's password check and the project-control
 * backend. Only what the plugin reads or triggers is modelled.
 */
module Host {
  import opened Wrappers

  /** The fields of a Gerrit account that the plugin reads; each may be unset (null). */
  datatype Account = Account(userName: Option<string>, preferredEmail: Option<string>, fullName: Option<string>)

  /** `CurrentUser`: the anonymous user, or an identified user with its account. */
  datatype CurrentUser =
    | AnonymousUser
    | IdentifiedUser(accountId: int, account: Account)
  {
    /** `getUserName()`; the anonymous user has none. */
    function UserName(): Option<string> {
      if IdentifiedUser? then account.userName else None
    }
  }

  /** What `AccountManager.authenticate` returns on success. */
  datatype AuthResult = AuthResult(accountId: int, account: Account)

  /**
   * `AccountManager.authenticate(AuthRequest.forUser(name).setPassword(password))`:
   * `None` stands for the AccountException it throws on failure.
   */
  type AccountManager = (string, string) -> Option<AuthResult>

  /** SHA-1 of a string, kept symbolic: two digests are equal exactly when their inputs are. */
  datatype Digest = Sha1(input: string)

  /** The session id and XSRF token Gerrit issues when a session logs in; they are chosen by the host. */
  datatype SessionKey = SessionKey(sessionId: string, token: string)

  /** A snapshot of a Gerrit `WebSession`. */
  datatype SessionState = SessionState(
    sessionId: Option<string>,
    token: Option<string>,
    signedIn: bool,
    user: CurrentUser)

  /** The session after `login`: signed in, with the issued id and token, and the same cached user. */
  function SignedInWith(state: SessionState, issued: SessionKey): (s: SessionState)
    ensures s.signedIn && s.user == state.user
    ensures s.sessionId == Some(issued.sessionId) && s.token == Some(issued.token)
  {
    state.(sessionId := Some(issued.sessionId), token := Some(issued.token), signedIn := true)
  }

  /**
   * Gerrit's `WebSession`, which the plugin reads and, on a password login or a logout,
   * changes. `login` signs the session in under a freshly issued key but leaves the cached
   * current user as it was, which is why the plugin forces the account afterwards.
   */
  class WebSession {
    var sessionId: Option<string>
    var token: Option<string>
    var signedIn: bool
    var user: CurrentUser

    constructor (sessionId: Option<string>, token: Option<string>, signedIn: bool, user: CurrentUser)
      ensures State() == SessionState(sessionId, token, signedIn, user)
    {
      this.sessionId := sessionId;
      this.token := token;
      this.signedIn := signedIn;
      this.user := user;
    }

    function State(): SessionState
      reads this
    {
      SessionState(sessionId, token, signedIn, user)
    }

    /** `login(authResult, false)`: signed in under the key `issued`, with the cached user kept. */
    method Login(auth: AuthResult, issued: SessionKey)
      modifies this
      ensures State() == SignedInWith(old(State()), issued)
    {
      sessionId := Some(issued.sessionId);
      token := Some(issued.token);
      signedIn := true;
    }

    /** `setUserAccountId(id)`: the current user becomes that account's identified user. */
    method SetUserAccountId(auth: AuthResult)
      modifies this
      ensures State() == old(State()).(user := IdentifiedUser(auth.accountId, auth.account))
    {
      user := IdentifiedUser(auth.accountId, auth.account);
    }

    /** `logout()`. */
    method Logout()
      modifies this
      ensures State() == old(State()).(signedIn := false, user := AnonymousUser)
    {
      signedIn := false;
      user := AnonymousUser;
    }
  }

  /**
   * A `ProjectControl` for one project and user: its three predicates, and `controlForRef`,
   * whose result is absent (null) for refs outside `refs` and otherwise a `RefControl` whose
   * `isVisible` is the mapped value.
   */
  datatype ProjectControl = ProjectControl(
    isVisible: bool,
    canRunUploadPack: bool,
    canRunReceivePack: bool,
    refs: map<string, bool>)

  /** The outcome of asking the backend for a project control. */
  datatype ControlLookup =
    | NoSuchProject
    | IOFailure
    | Found(control: Option<ProjectControl>)

  /** `ProjectControl.GenericFactory.controlFor(new NameKey(name), user)`. */
  type PermissionBackend = (string, CurrentUser) -> ControlLookup
}
