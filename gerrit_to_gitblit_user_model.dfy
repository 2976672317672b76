/**
 * `GerritToGitBlitUserModel`: the user model of the older GitBlit user-service integration.
 * Its permission checks ask a project-control factory bound to the requesting user; it
 * also keeps GitBlit's own bookkeeping, a set of repository names folded to lower case and
 * a collection of teams looked up by case-insensitive name.
 */
module GerritToGitBlitUserModel {
  import opened Wrappers
  import opened JavaStrings
  import opened Host
  import GerritGitBlitUserModel

  /** `projectControlFactory.validateFor(new NameKey(name))`, for the model's user. */
  type ControlFactory = string -> ControlLookup

  /** A GitBlit `TeamModel`, of which the name is consulted. */
  datatype Team = Team(name: string, repositories: set<string>)

  /** `getRepositoryName(name)`: one trailing ".git" removed, compared case-sensitively. */
  function GetRepositoryName(name: string): (r: string)
    ensures EndsWith(name, ".git") ==> r + ".git" == name
    ensures !EndsWith(name, ".git") ==> r == name
  {
    if EndsWith(name, ".git") then name[..|name| - 4] else name
  }

  /** Adding ".git" and taking the repository name gives the name back. */
  lemma RepositoryNameRoundTrip(name: string)
    ensures GetRepositoryName(name + ".git") == name
  {
    assert EndsWith(name + ".git", ".git") by {
      assert (name + ".git")[|name|..] == ".git";
    }
  }

  /** The control for a repository, or `None` when there is none or the project does not exist. */
  function ControlFor(factory: ControlFactory, name: string): Option<ProjectControl> {
    match factory(GetRepositoryName(name))
    case Found(c) => c
    case _ => None
  }

  /** `canAccessRepository(name)` (deprecated): whether a control exists for the name as given. */
  function CanAccessRepository(factory: ControlFactory, name: string): (r: bool)
    ensures r <==> factory(name).Found? && factory(name).control.Some?
  {
    match factory(name)
    case Found(c) => c.Some?
    case _ => false
  }

  /** `canAccess(repository, ifRestriction, requirePermission)`. */
  function CanAccess(factory: ControlFactory, repository: GerritGitBlitUserModel.RepositoryModel,
                     restriction: GerritGitBlitUserModel.AccessRestrictionType): (r: bool)
    ensures r <==> ControlFor(factory, repository.name).Some? &&
                   GerritGitBlitUserModel.Permits(ControlFor(factory, repository.name).value, restriction)
  {
    match factory(GetRepositoryName(repository.name))
    case Found(c) =>
      if c.None? then false
      else (match restriction
        case ViewRestriction => c.value.isVisible
        case CloneRestriction => c.value.canRunUploadPack
        case PushRestriction => c.value.canRunReceivePack
        case NoRestriction => true)
    case _ => false
  }

  /** `hasRepositoryPermission(name)`. */
  function HasRepositoryPermission(factory: ControlFactory, name: string): (r: bool)
    ensures r <==> ControlFor(factory, name).Some? && ControlFor(factory, name).value.isVisible
  {
    match factory(GetRepositoryName(name))
    case Found(c) => c.Some? && c.value.isVisible
    case _ => false
  }

  /** `hasBranchPermission(repoName, branchRef)`. */
  function HasBranchPermission(factory: ControlFactory, repoName: string, branchRef: string): (r: bool)
    ensures r ==> HasRepositoryPermission(factory, repoName)
  {
    match factory(GetRepositoryName(repoName))
    case Found(c) =>
      if c.Some? && c.value.isVisible then branchRef in c.value.refs && c.value.refs[branchRef] else false
    case _ => false
  }

  /** Viewing a repository is holding permission on its name; a branch is visible only inside a visible project. */
  lemma PermissionsAgree(factory: ControlFactory, repository: GerritGitBlitUserModel.RepositoryModel, branchRef: string)
    ensures CanAccess(factory, repository, GerritGitBlitUserModel.ViewRestriction) ==
            HasRepositoryPermission(factory, repository.name)
    ensures HasBranchPermission(factory, repository.name, branchRef) <==>
              HasRepositoryPermission(factory, repository.name) &&
              var c := ControlFor(factory, repository.name).value;
              branchRef in c.refs && c.refs[branchRef]
  {
  }

  /** This model and the session-backed one strip ".git" alike whenever the suffix is written in lower case. */
  lemma LowerCaseSuffixStrippedAlike(name: string)
    requires EndsWith(name, ".git")
    ensures GetRepositoryName(name) == GerritGitBlitUserModel.StripDotGit(name)
  {
    var lower := ToLower(name);
    assert lower[|lower| - 4..] == ".git" by {
      forall k | |name| - 4 <= k < |name|
        ensures lower[k] == name[k]
      {
        assert name[k] == name[|name| - 4..][k - (|name| - 4)];
      }
    }
  }

  /** The repositories after `addRepository(name)`. */
  function Added(repositories: set<string>, name: string): set<string> {
    repositories + {ToLower(name)}
  }

  /** The repositories after `removeRepository(name)`. */
  function Removed(repositories: set<string>, name: string): set<string> {
    repositories - {ToLower(name)}
  }

  /** `hasRepository(name)` on a set of repository names. */
  predicate Has(repositories: set<string>, name: string) {
    ToLower(name) in repositories
  }

  /** After `addRepository(n)` every spelling of `n` that differs only in case is present. */
  lemma HasAfterAdd(repositories: set<string>, name: string, variant: string)
    requires EqualsIgnoreCase(name, variant)
    ensures Has(Added(repositories, name), variant)
  {
  }

  /** After `removeRepository(n)` no spelling of `n` is present, and other names are as before. */
  lemma HasAfterRemove(repositories: set<string>, name: string, other: string)
    ensures EqualsIgnoreCase(name, other) ==> !Has(Removed(repositories, name), other)
    ensures !EqualsIgnoreCase(name, other) ==> Has(Removed(repositories, name), other) == Has(repositories, other)
  {
  }

  /** Adding a name twice, in any spelling, is adding it once. */
  lemma AddIdempotent(repositories: set<string>, name: string, variant: string)
    requires EqualsIgnoreCase(name, variant)
    ensures Added(Added(repositories, name), variant) == Added(repositories, name)
  {
  }

  /** The first team, in iteration order, whose name matches case-insensitively. */
  function FirstTeamNamed(teams: seq<Team>, teamname: string): (r: Option<Team>)
    ensures r.None? <==> forall k :: 0 <= k < |teams| ==> !EqualsIgnoreCase(teams[k].name, teamname)
    ensures r.Some? ==> r.value in teams && EqualsIgnoreCase(r.value.name, teamname)
  {
    if |teams| == 0 then None
    else if EqualsIgnoreCase(teams[0].name, teamname) then Some(teams[0])
    else FirstTeamNamed(teams[1..], teamname)
  }

  /** The team found is the earliest match. */
  lemma {:induction false} FirstTeamNamedIsEarliest(teams: seq<Team>, teamname: string, i: nat)
    requires i < |teams| && EqualsIgnoreCase(teams[i].name, teamname)
    requires forall k :: 0 <= k < i ==> !EqualsIgnoreCase(teams[k].name, teamname)
    ensures FirstTeamNamed(teams, teamname) == Some(teams[i])
    decreases i
  {
    if i > 0 {
      FirstTeamNamedIsEarliest(teams[1..], teamname, i - 1);
    }
  }

  /** A GitBlit user built by the user service. */
  class UserModel {
    const username: string
    var displayName: Option<string>
    var isAuthenticated: bool
    var repositories: set<string>
    var teams: seq<Team>
    const factory: ControlFactory

    /** `GerritToGitBlitUserModel(username, projectControlFactory)`. */
    constructor (username: string, factory: ControlFactory)
      ensures this.username == username && this.factory == factory
      ensures isAuthenticated && displayName.None? && repositories == {} && teams == []
    {
      this.username := username;
      this.factory := factory;
      displayName := None;
      isAuthenticated := true;
      repositories := {};
      teams := [];
    }

    predicate HasRepository(name: string)
      reads this
    {
      Has(repositories, name)
    }

    method AddRepository(name: string)
      modifies this`repositories
      ensures repositories == Added(old(repositories), name)
    {
      repositories := repositories + {ToLower(name)};
    }

    method RemoveRepository(name: string)
      modifies this`repositories
      ensures repositories == Removed(old(repositories), name)
    {
      repositories := repositories - {ToLower(name)};
    }

    /** `isTeamMember(teamname)`, scanning the teams. */
    method IsTeamMember(teamname: string) returns (member: bool)
      ensures member <==> exists k :: 0 <= k < |teams| && EqualsIgnoreCase(teams[k].name, teamname)
    {
      var i := 0;
      while i < |teams|
        invariant 0 <= i <= |teams|
        invariant forall k :: 0 <= k < i ==> !EqualsIgnoreCase(teams[k].name, teamname)
      {
        if EqualsIgnoreCase(teams[i].name, teamname) {
          return true;
        }
        i := i + 1;
      }
      return false;
    }

    /** `getTeam(teamname)`, scanning the teams and stopping at the first match. */
    method GetTeam(teamname: string) returns (team: Option<Team>)
      ensures team == FirstTeamNamed(teams, teamname)
    {
      var i := 0;
      while i < |teams|
        invariant 0 <= i <= |teams|
        invariant FirstTeamNamed(teams, teamname) == FirstTeamNamed(teams[i..], teamname)
      {
        if EqualsIgnoreCase(teams[i].name, teamname) {
          return Some(teams[i]);
        }
        assert teams[i..][1..] == teams[i + 1..];
        i := i + 1;
      }
      return None;
    }

    /** `getDisplayName()`: the display name unless it is empty or blank, else the user name. */
    function GetDisplayName(): (r: string)
      reads this
      ensures IsBlank(displayName) ==> r == username
      ensures !IsBlank(displayName) ==> r == displayName.value && Trim(r) != ""
    {
      if IsBlank(displayName) then username else displayName.value
    }

    /** `compareTo(o)`: by user name. */
    function CompareTo(other: UserModel): (r: int)
      reads this, other
      ensures r == 0 <==> username == other.username
      ensures r == -JavaStrings.CompareTo(other.username, username)
      ensures r < 0 <==> LexLess(username, other.username)
    {
      CompareToSign(username, other.username);
      CompareToZeroIffEqual(username, other.username);
      CompareToAntisymmetric(username, other.username);
      JavaStrings.CompareTo(username, other.username)
    }
  }

  /** GitBlit's `StringUtils.isEmpty`: null, or nothing but white space. */
  predicate IsBlank(s: Option<string>) {
    s.None? || Trim(s.value) == ""
  }
}
