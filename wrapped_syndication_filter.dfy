/**
 * `WrappedSyndicationFilter`: guards GitBlit's RSS feed servlet. After Gerrit's own
 * authentication filter lets the request through, the feed's repository must exist, and
 * the requesting user (or, without one, GitBlit's anonymous user) must be allowed to view
 * it; otherwise the response carries 404, a 401 challenge, or 403 and the chain is not
 * called.
 */
module WrappedSyndicationFilter {
  import opened Wrappers
  import opened JavaStrings
  import opened Servlet
  import opened GerritGitBlitUserModel

  /** `SERVLET_RELATIVE_PATH`: the path the feed filter and servlet are mounted at. */
  const ServletRelativePath: string := "feed/"

  const AuthenticateHeader: string := "WWW-Authenticate"

  /** `HttpServletResponse.SC_NOT_FOUND`, `SC_UNAUTHORIZED` and `SC_FORBIDDEN`. */
  const NotFoundStatus: int := 404
  const UnauthorizedStatus: int := 401
  const ForbiddenStatus: int := 403

  /**
   * A GitBlit user's view permission. A user is named by `Some(name)`; `None` stands for
   * GitBlit's `UserModel.ANONYMOUS`.
   */
  type ViewCheck = (Option<string>, RepositoryModel) -> bool

  /** How `doFilter` ends. */
  datatype FeedOutcome =
    | AuthRejected              // Gerrit's authentication filter answered the request itself
    | NotFound                  // no repository of that name
    | Challenged                // no user, and anonymous users may not view the repository
    | Forbidden                 // the user may not view the repository
    | Served(user: Option<string>)  // the chain was called, for this user

  /** `extractRequestedName(url)`: one leading "feed/" removed from what GitBlit extracts. */
  function ExtractRequestedName(superResult: string): (r: string)
    ensures StartsWith(superResult, ServletRelativePath) ==> ServletRelativePath + r == superResult
    ensures !StartsWith(superResult, ServletRelativePath) ==> r == superResult
  {
    if StartsWith(superResult, ServletRelativePath) then
      assert superResult == superResult[..|ServletRelativePath|] + superResult[|ServletRelativePath|..];
      superResult[|ServletRelativePath|..]
    else superResult
  }

  /** A name under "feed/" comes back whole, even when it starts with "feed/" itself: only one prefix goes. */
  lemma ExtractRoundTrip(name: string)
    ensures ExtractRequestedName(ServletRelativePath + name) == name
  {
    assert (ServletRelativePath + name)[..|ServletRelativePath|] == ServletRelativePath;
  }

  /** The requested name is always a suffix of what GitBlit extracted. */
  lemma ExtractedNameIsSuffix(superResult: string)
    ensures EndsWith(superResult, ExtractRequestedName(superResult))
  {
    var r := ExtractRequestedName(superResult);
    if StartsWith(superResult, ServletRelativePath) {
      assert superResult[|superResult| - |r|..] == r;
    } else {
      assert superResult[|superResult| - |r|..] == superResult;
    }
  }

  /** `getUser(request)`: the user Gerrit's filter derived, else whatever GitBlit's own lookup gives. */
  function GetUser(gerritUser: Option<string>, superUser: Option<string>): (r: Option<string>)
    ensures gerritUser.Some? ==> r == gerritUser
    ensures gerritUser.None? ==> r == superUser
  {
    if gerritUser.Some? then gerritUser else superUser
  }

  /** Without any user from either lookup the request is anonymous; with one it is never lost. */
  lemma GetUserNoneIffBothNone(gerritUser: Option<string>, superUser: Option<string>)
    ensures GetUser(gerritUser, superUser).None? <==> gerritUser.None? && superUser.None?
  {
  }

  /** The decision `doFilter` takes, given the repository found (if any) and the user. */
  function FeedDecision(authPassed: bool, model: Option<RepositoryModel>, user: Option<string>,
                        canView: ViewCheck): (r: FeedOutcome)
    ensures !authPassed <==> r.AuthRejected?
    ensures r.NotFound? <==> authPassed && model.None?
    ensures r.Challenged? ==> user.None?
    ensures r.Forbidden? ==> user.Some?
    ensures r.Served? ==> r.user == user
  {
    if !authPassed then AuthRejected
    else if model.None? then NotFound
    else if user.None? && !canView(None, model.value) then Challenged
    else if user.Some? && !canView(user, model.value) then Forbidden
    else Served(user)
  }

  /**
   * The feed is served exactly when the repository exists and the requesting user may view
   * it, the anonymous user standing in when there is none.
   */
  lemma ServedIffViewable(authPassed: bool, model: Option<RepositoryModel>, user: Option<string>, canView: ViewCheck)
    ensures FeedDecision(authPassed, model, user, canView).Served? <==>
              authPassed && model.Some? && canView(user, model.value)
  {
  }

  /** A repository hidden from anonymous users is never served without a user: the client is challenged. */
  lemma HiddenRepositoryChallengesAnonymous(model: RepositoryModel, canView: ViewCheck)
    requires !canView(None, model)
    ensures FeedDecision(true, Some(model), None, canView) == Challenged
  {
  }

  /** Gerrit's user takes precedence: GitBlit's own lookup cannot change the decision once Gerrit named a user. */
  lemma GerritUserDecides(authPassed: bool, model: Option<RepositoryModel>, name: string,
                          super1: Option<string>, super2: Option<string>, canView: ViewCheck)
    ensures FeedDecision(authPassed, model, GetUser(Some(name), super1), canView) ==
            FeedDecision(authPassed, model, GetUser(Some(name), super2), canView)
  {
  }

  /** The filter chain: the users it was called for, one entry per call. */
  class FilterChain {
    var calls: seq<Option<string>>

    constructor ()
      ensures calls == []
    {
      calls := [];
    }

    /** `chain.doFilter(authenticatedRequest, response)`. */
    method DoFilter(remoteUser: Option<string>)
      modifies this
      ensures calls == old(calls) + [remoteUser]
    {
      calls := calls + [remoteUser];
    }
  }

  /**
   * `doFilter(request, response, chain)`. Gerrit's authentication filter, the repository
   * manager, GitBlit's name extraction and user lookup and the view check are given as their
   * results; `challenge` is GitBlit's `CHALLENGE` header value. What the authentication filter
   * writes to the response when it rejects the request is its own business, so nothing is
   * promised about the response then.
   */
  method DoFilter(authPassed: bool, repositories: string -> Option<RepositoryModel>, superName: string,
                  gerritUser: Option<string>, superUser: Option<string>, canView: ViewCheck, challenge: string,
                  response: HttpResponse, chain: FilterChain)
    returns (outcome: FeedOutcome)
    modifies response, chain
    ensures outcome == FeedDecision(authPassed, repositories(ExtractRequestedName(superName)),
                                    GetUser(gerritUser, superUser), canView)
    ensures outcome.Served? ==> chain.calls == old(chain.calls) + [outcome.user]
    ensures !outcome.Served? ==> chain.calls == old(chain.calls)
    ensures !outcome.AuthRejected? ==>
              response.status == (match outcome
                                  case NotFound => Some(NotFoundStatus)
                                  case Challenged => Some(UnauthorizedStatus)
                                  case Forbidden => Some(ForbiddenStatus)
                                  case _ => old(response.status))
    ensures !outcome.AuthRejected? ==>
              response.headers == if outcome.Challenged? then old(response.headers)[AuthenticateHeader := challenge]
                                  else old(response.headers)
    ensures !outcome.AuthRejected? ==> response.message == old(response.message) && response.cookies == old(response.cookies)
    ensures !outcome.AuthRejected? ==>
              response.contentType == old(response.contentType) && response.dateHeaders == old(response.dateHeaders)
  {
    if !authPassed {
      return AuthRejected;
    }
    var name := ExtractRequestedName(superName);
    var model := repositories(name);
    if model.None? {
      response.SetStatus(NotFoundStatus);
      return NotFound;
    }
    var user := GetUser(gerritUser, superUser);
    if user.None? && !canView(None, model.value) {
      response.SetHeader(AuthenticateHeader, challenge);
      response.SetStatus(UnauthorizedStatus);
      return Challenged;
    } else if user.Some? {
      if !canView(user, model.value) {
        response.SetStatus(ForbiddenStatus);
        return Forbidden;
      }
    }
    chain.DoFilter(user);
    outcome := Served(user);
  }
}
