/**
 * `GerritGitBlitUserManager`: GitBlit's user store, backed by Gerrit. It builds user models
 * on demand, synthesises a name for Gerrit accounts without one, refuses every change to
 * users and teams, and at start-up closes anonymous viewing when the anonymous user cannot
 * be made to obey Gerrit.
 */
module GerritGitBlitUserManager {
  import opened Wrappers
  import opened JavaStrings
  import opened Host
  import opened GerritGitBlitUserModel
  import GitBlitSettings

  /**
   * `getUserModel(username)`: the anonymous model for null or "$anonymous", otherwise a model
   * of that name built while `live` is the session's user.
   */
  function GetUserModel(username: Option<string>, live: CurrentUser): (m: UserModel)
    ensures m.isAuthenticated <==> username.Some? && username.value != AnonymousUserName
    ensures !m.isAuthenticated ==> m == Anonymous()
    ensures m.isAuthenticated ==> m.username == username.value && m.provider == SessionProvider
  {
    if username.None? || username.value == AnonymousUserName then Anonymous()
    else Named(username.value, live)
  }

  /** The name given to a Gerrit account that has none: its email, else its full name, else "external" and its id. */
  function SynthesizedName(accountId: int, account: Account): (name: string)
    ensures name != ""
    ensures !IsNullOrEmpty(account.preferredEmail) ==> name == account.preferredEmail.value
    ensures IsNullOrEmpty(account.preferredEmail) && !IsNullOrEmpty(account.fullName) ==> name == account.fullName.value
    ensures IsNullOrEmpty(account.preferredEmail) && IsNullOrEmpty(account.fullName) ==>
              StartsWith(name, "external") && name[|"external"|..] == IntToString(accountId)
  {
    if !IsNullOrEmpty(account.preferredEmail) then account.preferredEmail.value
    else if !IsNullOrEmpty(account.fullName) then account.fullName.value
    else
      var name := "external" + IntToString(accountId);
      assert name[..|"external"|] == "external";
      name
  }

  /** `getUnnamedGerritUser()`: the anonymous model unless the session's user is identified. */
  function GetUnnamedGerritUser(live: CurrentUser): (m: UserModel)
    ensures !live.IdentifiedUser? ==> m == Anonymous()
    ensures live.IdentifiedUser? ==>
              m.isAuthenticated && m.provider == SessionProvider && m.username != "" &&
              m.username == SynthesizedName(live.accountId, live.account)
  {
    if !live.IdentifiedUser? then Anonymous()
    else Named(SynthesizedName(live.accountId, live.account), live)
  }

  /** `getCookie(model)`: the model's cookie as it is. */
  function GetCookie(m: UserModel): Option<Digest> {
    m.cookie
  }

  /** The user- and team-store operations, all of which are stubs. */
  datatype StoreOperation =
    | UpdateUserModel | UpdateNamedUserModel | DeleteUserModel | DeleteUser
    | UpdateTeamModel | UpdateNamedTeamModel | DeleteTeamModel | DeleteTeam
    | RenameRepositoryRole | DeleteRepositoryRole | UpdateTeamModels | UpdateUserModels
    | GetAllUsernames | GetAllUsers | GetAllTeamNames | GetAllTeams
    | GetUsernamesForRepositoryRole | GetTeamNamesForRepositoryRole
    | GetTeamModel | GetUserModelByCookie | IsInternalAccount
  {
    predicate IsMutation() {
      UpdateUserModel? || UpdateNamedUserModel? || DeleteUserModel? || DeleteUser? ||
      UpdateTeamModel? || UpdateNamedTeamModel? || DeleteTeamModel? || DeleteTeam? ||
      RenameRepositoryRole? || DeleteRepositoryRole? || UpdateTeamModels? || UpdateUserModels?
    }

    predicate IsListing() {
      GetAllUsernames? || GetAllUsers? || GetAllTeamNames? || GetAllTeams? ||
      GetUsernamesForRepositoryRole? || GetTeamNamesForRepositoryRole?
    }
  }

  /** A boolean answer, a list of some length, or a lookup that found something or null. */
  datatype StoreAnswer = Flag(value: bool) | Listing(size: nat) | Lookup(found: bool)

  /** What each operation answers. */
  function Answer(op: StoreOperation): (a: StoreAnswer)
    ensures op.IsMutation() ==> a == Flag(false)
    ensures op.IsListing() ==> a == Listing(0)
    ensures op.GetTeamModel? || op.GetUserModelByCookie? ==> a == Lookup(false)
    ensures op.IsInternalAccount? ==> a == Flag(false)
  {
    if op.IsMutation() || op.IsInternalAccount? then Flag(false)
    else if op.IsListing() then Listing(0)
    else Lookup(false)
  }

  /** Nothing the store answers changes, lists or finds anything. */
  lemma StoreRefusesEverything(op: StoreOperation)
    ensures Answer(op) != Flag(true)
    ensures forall n: nat :: n > 0 ==> Answer(op) != Listing(n)
    ensures Answer(op) != Lookup(true)
  {
  }

  /**
   * The settings after the constructor: when view pages do not require authentication and
   * the anonymous user could not be replaced, authentication is switched on.
   */
  function ConfiguredSettings(props: GitBlitSettings.Props, anonymousFixed: bool): (r: GitBlitSettings.Props)
    ensures anonymousFixed || GitBlitSettings.GetBoolean(r, GitBlitSettings.AuthenticateViewPagesKey, false)
    ensures GitBlitSettings.GetBoolean(props, GitBlitSettings.AuthenticateViewPagesKey, false) ==> r == props
    ensures anonymousFixed ==> r == props
    ensures forall k :: k != GitBlitSettings.AuthenticateViewPagesKey ==> (k in r <==> k in props) && (k in r ==> r[k] == props[k])
  {
    if !GitBlitSettings.GetBoolean(props, GitBlitSettings.AuthenticateViewPagesKey, false) && !anonymousFixed then
      props[GitBlitSettings.AuthenticateViewPagesKey := "true"]
    else props
  }

  /**
   * The constructor's effect on the settings. `fixAnonymousUser` is attempted only when view
   * pages do not require authentication; `anonymousFixed` is what that attempt reports.
   */
  method Configure(settings: GitBlitSettings.Settings, anonymousFixed: bool) returns (fixAttempted: bool)
    modifies settings
    ensures fixAttempted <==> !GitBlitSettings.GetBoolean(old(settings.properties), GitBlitSettings.AuthenticateViewPagesKey, false)
    ensures settings.properties == ConfiguredSettings(old(settings.properties), anonymousFixed)
  {
    fixAttempted := !settings.GetBooleanSetting(GitBlitSettings.AuthenticateViewPagesKey, false);
    if fixAttempted && !anonymousFixed {
      var _ := settings.SaveSettings(map[GitBlitSettings.AuthenticateViewPagesKey := "true"]);
    }
  }
}
