/**
 * `GerritGitBlitUserModel`: a GitBlit user whose every access question is put to Gerrit's
 * project controls, for the user its provider yields at the moment of the question. The
 * anonymous model's provider always yields Gerrit's anonymous user; a named model's provider
 * yields the current user of the Gerrit web session, whatever it is by then.
 */
module GerritGitBlitUserModel {
  import opened Wrappers
  import opened JavaStrings
  import opened Host

  /** `GerritGitBlitUserModel.ANONYMOUS_USER`. */
  const AnonymousUserName: string := "$anonymous"

  /** Where a model gets the Gerrit user it asks about. */
  datatype UserProvider = AnonymousProvider | SessionProvider

  /** A GitBlit `RepositoryModel`, of which only the name is consulted. */
  datatype RepositoryModel = RepositoryModel(name: string)

  /** GitBlit's `AccessRestrictionType`. */
  datatype AccessRestrictionType = NoRestriction | PushRestriction | CloneRestriction | ViewRestriction

  /** The GitBlit `UserModel` fields the plugin sets, and the provider it queries. */
  datatype UserModel = UserModel(
    username: string,
    displayName: Option<string>,
    emailAddress: Option<string>,
    isAuthenticated: bool,
    cookie: Option<Digest>,
    provider: UserProvider)

  /** GitBlit's `StringUtils.stripDotGit`: drops a trailing ".git", compared case-insensitively. */
  function StripDotGit(name: string): (r: string)
    ensures r == name || (|name| >= 4 && r == name[..|name| - 4])
    ensures r != name <==> EndsWith(ToLower(name), ".git")
  {
    if EndsWith(ToLower(name), ".git") then name[..|name| - 4] else name
  }

  /** The anonymous model (the constructor without a name). */
  function Anonymous(): UserModel {
    UserModel(AnonymousUserName, Some(AnonymousUserName), None, false, None, AnonymousProvider)
  }

  /**
   * The named model, built while `current` is the session's user: an identified user
   * contributes its full name (falling back to the user name) and its preferred email.
   */
  function Named(username: string, current: CurrentUser): (m: UserModel)
    ensures m.username == username && m.isAuthenticated && m.provider == SessionProvider
    ensures m.cookie.None?
    ensures current.IdentifiedUser? ==> m.displayName.Some? && m.emailAddress == current.account.preferredEmail
    ensures current.IdentifiedUser? && !IsNullOrEmpty(current.account.fullName) ==>
              m.displayName == current.account.fullName
    ensures m.displayName.Some? && m.displayName.value == "" ==> username == ""
    ensures current.AnonymousUser? ==> m.displayName.None? && m.emailAddress.None?
  {
    if current.IdentifiedUser? then
      var full := current.account.fullName;
      UserModel(username, Some(if IsNullOrEmpty(full) then username else full.value),
                current.account.preferredEmail, true, None, SessionProvider)
    else
      UserModel(username, None, None, true, None, SessionProvider)
  }

  /** `userProvider.get()` at the moment of a question, given the session's user then. */
  function QueryUser(m: UserModel, live: CurrentUser): CurrentUser {
    if m.provider.AnonymousProvider? then AnonymousUser else live
  }

  /** The project control Gerrit gives for a repository name, or `None` on any failure. */
  function ControlFor(m: UserModel, backend: PermissionBackend, live: CurrentUser, name: string): Option<ProjectControl> {
    match backend(StripDotGit(name), QueryUser(m, live))
    case Found(c) => c
    case _ => None
  }

  /** How each restriction maps onto a project control. */
  predicate Permits(c: ProjectControl, restriction: AccessRestrictionType) {
    match restriction
    case ViewRestriction => c.isVisible
    case CloneRestriction => c.canRunUploadPack
    case PushRestriction => c.canRunReceivePack
    case NoRestriction => true
  }

  /** `canAccess(repository, ifRestriction, requirePermission)`. */
  function CanAccess(m: UserModel, backend: PermissionBackend, live: CurrentUser,
                     repository: RepositoryModel, restriction: AccessRestrictionType): (r: bool)
    ensures r <==> ControlFor(m, backend, live, repository.name).Some? &&
                   Permits(ControlFor(m, backend, live, repository.name).value, restriction)
  {
    match backend(StripDotGit(repository.name), QueryUser(m, live))
    case Found(c) => c.Some? && Permits(c.value, restriction)
    case NoSuchProject => false
    case IOFailure => false
  }

  /** GitBlit's `canView(repository)`, which asks `canAccess` with the view restriction. */
  function CanView(m: UserModel, backend: PermissionBackend, live: CurrentUser, repository: RepositoryModel): (r: bool)
    ensures r <==> ControlFor(m, backend, live, repository.name).Some? &&
                   ControlFor(m, backend, live, repository.name).value.isVisible
  {
    CanAccess(m, backend, live, repository, ViewRestriction)
  }

  /** `hasRepositoryPermission(name)`. */
  function HasRepositoryPermission(m: UserModel, backend: PermissionBackend, live: CurrentUser, name: string): (r: bool)
    ensures r <==> ControlFor(m, backend, live, name).Some? && ControlFor(m, backend, live, name).value.isVisible
  {
    match backend(StripDotGit(name), QueryUser(m, live))
    case Found(c) => c.Some? && c.value.isVisible
    case _ => false
  }

  /** `canView(repository, ref)`: the ref is consulted only inside a visible project. */
  function CanViewRef(m: UserModel, backend: PermissionBackend, live: CurrentUser,
                      repository: RepositoryModel, ref: string): (r: bool)
    ensures r ==> HasRepositoryPermission(m, backend, live, repository.name)
  {
    match backend(StripDotGit(repository.name), QueryUser(m, live))
    case Found(c) =>
      if c.Some? && c.value.isVisible then ref in c.value.refs && c.value.refs[ref] else false
    case _ => false
  }

  /** Viewing a repository and holding permission on its name are the same question. */
  lemma CanViewIsRepositoryPermission(m: UserModel, backend: PermissionBackend, live: CurrentUser,
                                      repository: RepositoryModel)
    ensures CanView(m, backend, live, repository) == HasRepositoryPermission(m, backend, live, repository.name)
  {
  }

  /** A missing project, an I/O failure or a null control denies every question. */
  lemma FailuresDeny(m: UserModel, backend: PermissionBackend, live: CurrentUser,
                     repository: RepositoryModel, restriction: AccessRestrictionType, ref: string)
    requires ControlFor(m, backend, live, repository.name).None?
    ensures !CanAccess(m, backend, live, repository, restriction)
    ensures !HasRepositoryPermission(m, backend, live, repository.name)
    ensures !CanViewRef(m, backend, live, repository, ref)
  {
  }

  /** A ref is visible exactly when its project is visible and Gerrit's ref control says so. */
  lemma RefVisibility(m: UserModel, backend: PermissionBackend, live: CurrentUser,
                      repository: RepositoryModel, ref: string)
    ensures CanViewRef(m, backend, live, repository, ref) <==>
              HasRepositoryPermission(m, backend, live, repository.name) &&
              var c := ControlFor(m, backend, live, repository.name).value;
              ref in c.refs && c.refs[ref]
  {
  }

  /**
   * Nothing is decided when a model is built: two models with the same provider give the
   * same answers, whatever their names, display names or cookies.
   */
  lemma AnswersDependOnlyOnProvider(m1: UserModel, m2: UserModel, backend: PermissionBackend, live: CurrentUser,
                                    repository: RepositoryModel, restriction: AccessRestrictionType, ref: string)
    requires m1.provider == m2.provider
    ensures CanAccess(m1, backend, live, repository, restriction) == CanAccess(m2, backend, live, repository, restriction)
    ensures HasRepositoryPermission(m1, backend, live, repository.name) ==
            HasRepositoryPermission(m2, backend, live, repository.name)
    ensures CanViewRef(m1, backend, live, repository, ref) == CanViewRef(m2, backend, live, repository, ref)
  {
  }

  /**
   * A named model asked after its Gerrit session has logged out answers exactly as the
   * anonymous model does: permissions follow the session, not the model.
   */
  lemma LoggedOutNamedModelIsAnonymous(username: string, builtFor: CurrentUser, backend: PermissionBackend,
                                       repository: RepositoryModel, restriction: AccessRestrictionType, ref: string)
    ensures CanAccess(Named(username, builtFor), backend, AnonymousUser, repository, restriction) ==
            CanAccess(Anonymous(), backend, AnonymousUser, repository, restriction)
    ensures CanViewRef(Named(username, builtFor), backend, AnonymousUser, repository, ref) ==
            CanViewRef(Anonymous(), backend, AnonymousUser, repository, ref)
  {
  }

  /** The anonymous model always asks about Gerrit's anonymous user, whoever is logged in. */
  lemma AnonymousIgnoresSession(backend: PermissionBackend, live1: CurrentUser, live2: CurrentUser,
                                repository: RepositoryModel, restriction: AccessRestrictionType)
    ensures CanAccess(Anonymous(), backend, live1, repository, restriction) ==
            CanAccess(Anonymous(), backend, live2, repository, restriction)
  {
  }
}
