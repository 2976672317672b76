/**
 * `GerritGitBlitRepositoryManager.getRepositoryModel(user, name)`: a repository is handed
 * out only to a user who may view it, and a user that is not one of the plugin's models is
 * treated as the anonymous model.
 */
module GerritGitBlitRepositoryManager {
  import opened Wrappers
  import opened Host
  import opened GerritGitBlitUserModel
  import GerritGitBlitUserManager

  /** A GitBlit user: one of the plugin's models, or any other `UserModel`. */
  datatype GitBlitUser = GerritUser(model: UserModel) | OtherUser(username: string)

  /** The user whose permissions are asked: a plugin model as it is, anyone else (or null) as "$anonymous". */
  function EffectiveUser(user: Option<GitBlitUser>, live: CurrentUser): (m: UserModel)
    ensures user.Some? && user.value.GerritUser? ==> m == user.value.model
    ensures !(user.Some? && user.value.GerritUser?) ==> m == Anonymous()
  {
    if user.Some? && user.value.GerritUser? then user.value.model
    else GerritGitBlitUserManager.GetUserModel(Some(AnonymousUserName), live)
  }

  /**
   * `getRepositoryModel(user, repositoryName)`, where `repositories` is the superclass's
   * lookup by name.
   */
  function GetRepositoryModel(repositories: map<string, RepositoryModel>, user: Option<GitBlitUser>,
                              repositoryName: string, backend: PermissionBackend, live: CurrentUser): (r: Option<RepositoryModel>)
    ensures repositoryName !in repositories ==> r.None?
    ensures r.Some? ==> repositoryName in repositories && r.value == repositories[repositoryName]
    ensures r.Some? <==> repositoryName in repositories &&
                         CanView(EffectiveUser(user, live), backend, live, repositories[repositoryName])
  {
    if repositoryName !in repositories then None
    else
      var repository := repositories[repositoryName];
      if CanView(EffectiveUser(user, live), backend, live, repository) then Some(repository) else None
  }

  /** A foreign user model sees exactly what nobody (null) sees. */
  lemma ForeignUserIsAnonymous(repositories: map<string, RepositoryModel>, other: string,
                               repositoryName: string, backend: PermissionBackend, live: CurrentUser)
    ensures GetRepositoryModel(repositories, Some(OtherUser(other)), repositoryName, backend, live) ==
            GetRepositoryModel(repositories, None, repositoryName, backend, live)
  {
  }

  /**
   * The answer follows Gerrit's visibility of the repository model's own name, stripped of
   * ".git", for the user the model asks about.
   */
  lemma {:induction false} VisibleIffGerritSays(repositories: map<string, RepositoryModel>, user: UserModel,
                                                repositoryName: string, backend: PermissionBackend, live: CurrentUser)
    requires repositoryName in repositories
    ensures GetRepositoryModel(repositories, Some(GerritUser(user)), repositoryName, backend, live).Some? <==>
            var lookup := backend(StripDotGit(repositories[repositoryName].name), QueryUser(user, live));
            lookup.Found? && lookup.control.Some? && lookup.control.value.isVisible
  {
    CanViewIsRepositoryPermission(user, backend, live, repositories[repositoryName]);
  }
}
