# gerrit-gitblit-plugin in Dafny

This project models the core of the Gerrit GitBlit plugin, which embeds the GitBlit
repository viewer in Gerrit. GitBlit's users, logins and access rights are delegated to
Gerrit. The model covers four parts:

- **The identity bridge.** `GerritGitBlitAuthenticationManager`, the older
  `GerritToGitBlitUserService` and `GerritAuthFilter` choose between session-token, password
  and anonymous logins. A token is accepted only for the signed-in Gerrit session it
  identifies. Empty credentials are refused before Gerrit is asked. Every accepted token or
  password login carries the cookie SHA-1(name + credential); an anonymous login carries
  none. A login attribute that is not a string makes the login throw ClassCastException.
- **The permission delegate.** `GerritGitBlitUserModel`, the older
  `GerritToGitBlitUserModel`, `GerritGitBlitUserManager` and `GerritGitBlitRepositoryManager`
  put every access question to Gerrit's project controls. Every failure denies. A ref is
  consulted only inside a visible project. An account without a user name gets a
  synthesised one.
- **The session-instance guard.** `GerritGitBlitWebApp` and `HttpUtils` mark each HTTP
  session with the plugin instance that last used it. After a plugin reload they purge the
  stale Wicket state.
- **The supporting logic.** This covers settings layering and the include-cycle guard
  (`GitBlitSettings`), clone and login URLs (`GitBlitUrlsConfig`), web links
  (`GitBlitWebUrls`), the top menu (`GitBlitTopMenu`), static-resource paths and URL
  rewriting (`StaticResourcesServlet`, `StaticCodingStrategy`,
  `StaticRewritingHeaderResponse`), the feed access decision (`WrappedSyndicationFilter`),
  the memoised path decode (`FixedGuiceHttpServletRequest`) and the documentation page's
  update check (`version_check.js`).

There is one Dafny module per source file, named after its class; `version_check.js`
becomes `VersionCheck`. Pure logic is written as functions with lemmas. Code that updates
state in place is written as classes whose methods are proved against specification
functions:

- the session attribute map, the cacheable-page map and the instance key of the web
  application;
- the `Properties` object and the include chain of the settings loader;
- the repository set of the older user model;
- the remembered time of the resource servlet;
- the memo cell of the request wrapper;
- the page state of the update check.

Four helper modules model the libraries the plugin calls:

- `Wrappers`: Java's `null` as `Option`.
- `JavaStrings`: `java.lang.String`, Guava's `Strings` and JavaScript's `String`, with
  Java's `split` dropping trailing empty strings.
- `Host`: Gerrit's accounts, web session, account manager and project-control lookups.
- `Servlet`: attribute values, the HTTP session and the response.

Exceptions are explicit result constructors. Collaborators whose code is not part of this
model are parameters: URI parsing, host-name lookup, MIME detection, the class-path and
file-system reads, GitBlit's superclasses, and the new session key (session id and XSRF
token) that Gerrit's `WebSession.login` issues (`Host.SessionKey`).

## Model

| member | source | states |
|---|---|---|
| FixedGuiceHttpServletRequest.Decode | src/main/java/com/googlesource/gerrit/plugins/gitblit/FixedGuiceHttpServletRequest.java:45-56 | a null raw path info is the null dereference of `new URI(null)`; a path that does not parse is returned unchanged; a path that parses is replaced by its decoded path, null included |
| FixedGuiceHttpServletRequest.FixedRequest.OverPlain | src/main/java/com/googlesource/gerrit/plugins/gitblit/FixedGuiceHttpServletRequest.java:34-38 | a wrapper around a plain request does not delegate and remembers no path yet |
| FixedGuiceHttpServletRequest.FixedRequest.OverFixed | src/main/java/com/googlesource/gerrit/plugins/gitblit/FixedGuiceHttpServletRequest.java:34-38 | a wrapper around a fixed request delegates, remembers nothing itself and answers what the inner wrapper answers |
| FixedGuiceHttpServletRequest.FixedRequest.GetPathInfo | src/main/java/com/googlesource/gerrit/plugins/gitblit/FixedGuiceHttpServletRequest.java:40-57 | the answer is the one the state promised and every later call gives it again; a delegating wrapper changes nothing of its own; a plain one remembers a non-null decoded path on the first call and keeps a remembered one |
| HttpUtils.Typed | src/main/java/com/googlesource/gerrit/plugins/gitblit/HttpUtils.java:26-33 | the result is non-null exactly when the value, with one `Optional` unwrapped, is an instance of the class, and then it is that value |
| HttpUtils.GetAttribute | src/main/java/com/googlesource/gerrit/plugins/gitblit/HttpUtils.java:25-34 | a missing attribute gives null; a result is always an instance of the class; a plain instance is returned as it is; an empty `Optional` gives null |
| HttpUtils.GetRequestAttribute | src/main/java/com/googlesource/gerrit/plugins/gitblit/HttpUtils.java:25-34 | null for a missing request attribute; otherwise the value, with one `Optional` unwrapped, exactly when it is an instance of the class |
| HttpUtils.GetSessionAttribute | src/main/java/com/googlesource/gerrit/plugins/gitblit/HttpUtils.java:36-45 | null for a missing session attribute; otherwise the value, with one `Optional` unwrapped, exactly when it is an instance of the class |
| HttpUtils.OverloadsAgree | src/main/java/com/googlesource/gerrit/plugins/gitblit/HttpUtils.java:25-45 | the request and the session overloads give the same answer on the same attributes |
| HttpUtils.UnwrapsOnce | src/main/java/com/googlesource/gerrit/plugins/gitblit/HttpUtils.java:27-29 | only one level of `Optional` is unwrapped: a doubly wrapped string is not a string |
| HttpUtils.WrappedStringReadsBack | src/main/java/com/googlesource/gerrit/plugins/gitblit/HttpUtils.java:27-32 | a string stored plainly or once wrapped reads back as that string |
| Servlet.ReadString | src/main/java/com/googlesource/gerrit/plugins/gitblit/auth/GerritAuthFilter.java:40-41 | the cast to `String`: absent exactly when the attribute is missing, text (that very string) exactly when it is a string, and a class-cast failure otherwise |
| GerritAuthFilter.GetUser | src/main/java/com/googlesource/gerrit/plugins/gitblit/auth/GerritAuthFilter.java:38-55 | a class-cast failure exactly when either attribute is not a string; null without a login when either is missing; otherwise the login with the user name and "sessionid:" followed by the token |
| GerritAuthFilter.PassAttributes | src/main/java/com/googlesource/gerrit/plugins/gitblit/auth/GerritAuthFilter.java:65-67 | the two attributes become the session user's name and the session token (null removing them); every other attribute is unchanged |
| GerritAuthFilter.DoFilter | src/main/java/com/googlesource/gerrit/plugins/gitblit/auth/GerritAuthFilter.java:57-75 | passes exactly when the session is signed in or the request has an Authorization header, then sets the attributes; otherwise status 401 and the basic-auth challenge header, attributes unchanged; the message, cookies, content type and date headers never change |
| GerritAuthFilter.PassedSessionSignsOn | src/main/java/com/googlesource/gerrit/plugins/gitblit/auth/GerritAuthFilter.java:38-55 | after a pass for a signed-in named session with a token, the user service recognises the user exactly when the session id equals the token |
| GerritAuthFilter.MissingAttributeSkipsLogin | src/main/java/com/googlesource/gerrit/plugins/gitblit/auth/GerritAuthFilter.java:43-45 | without a name or a token no login is attempted |
| GerritGitBlitRepositoryManager.EffectiveUser | src/main/java/com/googlesource/gerrit/plugins/gitblit/auth/GerritGitBlitRepositoryManager.java:41 | one of the plugin's models is asked as it is; any other user, or null, as the "$anonymous" model |
| GerritGitBlitRepositoryManager.GetRepositoryModel | src/main/java/com/googlesource/gerrit/plugins/gitblit/auth/GerritGitBlitRepositoryManager.java:37-47 | non-null exactly when the repository exists and the effective user can view it, and then it is that repository |
| GerritGitBlitRepositoryManager.ForeignUserIsAnonymous | src/main/java/com/googlesource/gerrit/plugins/gitblit/auth/GerritGitBlitRepositoryManager.java:41 | a foreign user model sees exactly what null sees |
| GerritGitBlitRepositoryManager.VisibleIffGerritSays | src/main/java/com/googlesource/gerrit/plugins/gitblit/auth/GerritGitBlitRepositoryManager.java:37-47 | a repository is handed out exactly when Gerrit finds a control for its name without ".git" and that control is visible |
| GerritGitBlitUserModel.Named | src/main/java/com/googlesource/gerrit/plugins/gitblit/auth/GerritGitBlitUserModel.java:52-67 | the named model is authenticated; an identified user gives the full name (falling back to the user name) and the preferred email; otherwise neither is set |
| GerritGitBlitUserModel.CanAccess | src/main/java/com/googlesource/gerrit/plugins/gitblit/auth/GerritGitBlitUserModel.java:69-89 | true exactly when Gerrit gives a control and that control permits the restriction (view, clone, push; no restriction always) |
| GerritGitBlitUserModel.HasRepositoryPermission | src/main/java/com/googlesource/gerrit/plugins/gitblit/auth/GerritGitBlitUserModel.java:91-99 | true exactly when Gerrit gives a control for the name with ".git" stripped and that control makes the project visible |
| GerritGitBlitUserModel.CanViewRef | src/main/java/com/googlesource/gerrit/plugins/gitblit/auth/GerritGitBlitUserModel.java:101-113 | a visible ref implies a visible repository |
| GerritGitBlitUserModel.CanViewIsRepositoryPermission | src/main/java/com/googlesource/gerrit/plugins/gitblit/auth/GerritGitBlitUserModel.java:69-99 | viewing a repository and holding permission on its name are the same question |
| GerritGitBlitUserModel.StripDotGit | src/main/java/com/googlesource/gerrit/plugins/gitblit/auth/GerritGitBlitUserModel.java:94 | the name Gerrit is asked about: a trailing ".git", in any letter case, is dropped, and nothing else changes |
| GerritGitBlitUserModel.CanView | src/main/java/com/googlesource/gerrit/plugins/gitblit/auth/GerritGitBlitUserModel.java:69-88 | a repository can be viewed exactly when Gerrit finds a control for the project and that control is visible |
| GerritGitBlitUserModel.FailuresDeny | src/main/java/com/googlesource/gerrit/plugins/gitblit/auth/GerritGitBlitUserModel.java:69-113 | a missing project, an I/O failure or a null control denies all three questions |
| GerritGitBlitUserModel.RefVisibility | src/main/java/com/googlesource/gerrit/plugins/gitblit/auth/GerritGitBlitUserModel.java:101-113 | a ref is visible exactly when the project is visible and the ref control says so |
| GerritGitBlitUserModel.AnswersDependOnlyOnProvider | src/main/java/com/googlesource/gerrit/plugins/gitblit/auth/GerritGitBlitUserModel.java:69-113 | two models with the same user provider give the same answers, whatever their names |
| GerritGitBlitUserModel.LoggedOutNamedModelIsAnonymous | src/main/java/com/googlesource/gerrit/plugins/gitblit/auth/GerritGitBlitUserModel.java:52-59 | a named model asked after its session logged out answers as the anonymous model |
| GerritGitBlitUserModel.AnonymousIgnoresSession | src/main/java/com/googlesource/gerrit/plugins/gitblit/auth/GerritGitBlitUserModel.java:44-50 | the anonymous model's answers do not depend on who is logged in |
| GerritGitBlitUserManager.GetUserModel | src/main/java/com/googlesource/gerrit/plugins/gitblit/auth/GerritGitBlitUserManager.java:88-94 | null or "$anonymous" gives the anonymous model; any other name an authenticated model of that name on the session's user |
| GerritGitBlitUserManager.SynthesizedName | src/main/java/com/googlesource/gerrit/plugins/gitblit/auth/GerritGitBlitUserManager.java:108-116 | never empty: the preferred email, else the full name, else "external" followed by the account id |
| GerritGitBlitUserManager.GetUnnamedGerritUser | src/main/java/com/googlesource/gerrit/plugins/gitblit/auth/GerritGitBlitUserManager.java:102-118 | the anonymous model unless the session's user is identified; then an authenticated model named by the synthesised name |
| GerritGitBlitUserManager.Answer | src/main/java/com/googlesource/gerrit/plugins/gitblit/auth/GerritGitBlitUserManager.java:125-228 | every update and delete answers false, every listing is empty, both lookups give null, no account is internal |
| GerritGitBlitUserManager.StoreRefusesEverything | src/main/java/com/googlesource/gerrit/plugins/gitblit/auth/GerritGitBlitUserManager.java:125-228 | no store operation ever reports a change, a non-empty list or a found object |
| GerritGitBlitUserManager.ConfiguredSettings | src/main/java/com/googlesource/gerrit/plugins/gitblit/auth/GerritGitBlitUserManager.java:69-71 | afterwards view pages require authentication unless the anonymous user was fixed; settings that already require it, or a fixed anonymous user, leave everything as it was; no other key changes |
| GerritGitBlitUserManager.Configure | src/main/java/com/googlesource/gerrit/plugins/gitblit/auth/GerritGitBlitUserManager.java:69-71 | the fix is attempted exactly when view pages do not require authentication; the new settings are those of ConfiguredSettings |
| GerritGitBlitAuthenticationManager.ExtractPluginPath | src/main/java/com/googlesource/gerrit/plugins/gitblit/auth/GerritGitBlitAuthenticationManager.java:86-98 | the path starts with '/'; without a URL, or without a '/' after the authority, it is "/plugins/" and the plugin name; otherwise it is the URL's suffix from the first '/' after the authority |
| GerritGitBlitAuthenticationManager.ReadLoginAttributes | src/main/java/com/googlesource/gerrit/plugins/gitblit/auth/GerritGitBlitAuthenticationManager.java:113-115 | the three casts fail exactly when one of the user name, token and password attributes is present but not a string; otherwise each is that string or null |
| GerritGitBlitAuthenticationManager.NonStringAttributeThrows | src/main/java/com/googlesource/gerrit/plugins/gitblit/auth/GerritGitBlitAuthenticationManager.java:111-126 | a user name, token or password attribute that is not a string makes `authenticate(request)` throw ClassCastException and leaves the Gerrit session as it was |
| GerritGitBlitAuthenticationManager.ChooseLogin | src/main/java/com/googlesource/gerrit/plugins/gitblit/auth/GerritGitBlitAuthenticationManager.java:117-125 | a non-empty token wins, then a non-empty password, then the anonymous name; each case stated as an if-and-only-if |
| GerritGitBlitAuthenticationManager.WithCookie | src/main/java/com/googlesource/gerrit/plugins/gitblit/auth/GerritGitBlitAuthenticationManager.java:324 | the cookie becomes SHA-1 of the user name followed by the credential; nothing else of the model changes |
| GerritGitBlitAuthenticationManager.SessionLogin | src/main/java/com/googlesource/gerrit/plugins/gitblit/auth/GerritGitBlitAuthenticationManager.java:138-166 | a token login succeeds only for a signed-in session with that id; an unnamed Gerrit user gets the synthesised model; a named one succeeds exactly when the names agree; the cookie is SHA-1 of name and token |
| GerritGitBlitAuthenticationManager.PasswordCheck | src/main/java/com/googlesource/gerrit/plugins/gitblit/auth/GerritGitBlitAuthenticationManager.java:173-187 | empty user names or passwords are refused before the account manager is asked; otherwise its verdict is taken |
| GerritGitBlitAuthenticationManager.PasswordLoginUser | src/main/java/com/googlesource/gerrit/plugins/gitblit/auth/GerritGitBlitAuthenticationManager.java:173-195 | a password login yields a model exactly when the account manager accepts; its name is the given one and its cookie SHA-1 of name and password |
| GerritGitBlitAuthenticationManager.AfterPasswordLogin | src/main/java/com/googlesource/gerrit/plugins/gitblit/auth/GerritGitBlitAuthenticationManager.java:310-320 | after a password login the session is signed in as an identified user; an already identified user is kept, and any other user becomes the authenticated account; the session id and XSRF token are those of the key Gerrit's `login` issued |
| GerritGitBlitAuthenticationManager.TokenMustMatchSession | src/main/java/com/googlesource/gerrit/plugins/gitblit/auth/GerritGitBlitAuthenticationManager.java:141-151 | a token that is not the session's, or a session that is not signed in, yields no user |
| GerritGitBlitAuthenticationManager.EmptyCredentialsNotChecked | src/main/java/com/googlesource/gerrit/plugins/gitblit/auth/GerritGitBlitAuthenticationManager.java:174-181 | with an empty name or password every account manager gives the same refusal |
| GerritGitBlitAuthenticationManager.LoginSetsCookie | src/main/java/com/googlesource/gerrit/plugins/gitblit/auth/GerritGitBlitAuthenticationManager.java:324 | every accepted token or password login carries SHA-1 of the user name followed by the credential used |
| GerritGitBlitAuthenticationManager.CookieDeterminesCredential | src/main/java/com/googlesource/gerrit/plugins/gitblit/auth/GerritGitBlitAuthenticationManager.java:324 | for one user name, equal cookies mean equal credentials |
| GerritGitBlitAuthenticationManager.CookieRoundTrip | src/main/java/com/googlesource/gerrit/plugins/gitblit/auth/GerritGitBlitAuthenticationManager.java:324 | the cookie read back from a logged-in model is the one the login stored |
| GerritGitBlitAuthenticationManager.SessionChangesOnlyOnPasswordLogin | src/main/java/com/googlesource/gerrit/plugins/gitblit/auth/GerritGitBlitAuthenticationManager.java:110-126 | only a password login changes the Gerrit session, and a successful one leaves it signed in as an identified user; a failed login changes nothing |
| GerritGitBlitAuthenticationManager.FirstNamed | src/main/java/com/googlesource/gerrit/plugins/gitblit/auth/GerritGitBlitAuthenticationManager.java:200-208 | no cookie is found exactly when none has the name |
| GerritGitBlitAuthenticationManager.FirstNamedIsEarliest | src/main/java/com/googlesource/gerrit/plugins/gitblit/auth/GerritGitBlitAuthenticationManager.java:202-206 | the cookie found is the earliest one with the name |
| GerritGitBlitAuthenticationManager.LoginCookie | src/main/java/com/googlesource/gerrit/plugins/gitblit/auth/GerritGitBlitAuthenticationManager.java:232-249 | the cookie is named "Gitblit" and bound to the plugin path; logout or a missing cookie gives an empty session cookie; otherwise the hex digest, kept seven days |
| GerritGitBlitAuthenticationManager.LogoutUrl | src/main/java/com/googlesource/gerrit/plugins/gitblit/auth/GerritGitBlitAuthenticationManager.java:276 | the logout URL starts with the canonical URL and ends in "/logout", adding a '/' only when the URL lacks one |
| GerritGitBlitAuthenticationManager.Supports | src/main/java/com/googlesource/gerrit/plugins/gitblit/auth/GerritGitBlitAuthenticationManager.java:285-308 | no profile change is supported |
| GerritGitBlitAuthenticationManager.AuthenticateWithKey | src/main/java/com/googlesource/gerrit/plugins/gitblit/auth/GerritGitBlitAuthenticationManager.java:128-131 | an SSH key never authenticates anyone |
| GerritGitBlitAuthenticationManager.AuthenticationManager.constructor | src/main/java/com/googlesource/gerrit/plugins/gitblit/auth/GerritGitBlitAuthenticationManager.java:64-75 | the manager keeps its collaborators and the two URLs, and the plugin path is ExtractPluginPath of the plugin URL |
| GerritGitBlitAuthenticationManager.AuthenticationManager.LoggedIn | src/main/java/com/googlesource/gerrit/plugins/gitblit/auth/GerritGitBlitAuthenticationManager.java:310-326 | the model gets its cookie; a stale session user after a password login is forced to the account; the HTTP session records CREDENTIALS |
| GerritGitBlitAuthenticationManager.AuthenticationManager.AuthenticateFromSession | src/main/java/com/googlesource/gerrit/plugins/gitblit/auth/GerritGitBlitAuthenticationManager.java:138-166 | the result is SessionLogin of the session before the call; the Gerrit session is unchanged; CREDENTIALS is recorded exactly on success |
| GerritGitBlitAuthenticationManager.AuthenticationManager.AuthenticateViaGerrit | src/main/java/com/googlesource/gerrit/plugins/gitblit/auth/GerritGitBlitAuthenticationManager.java:173-195 | the result is PasswordLoginUser; the Gerrit session is AfterPasswordLogin (signed in under the newly issued key) on success and unchanged otherwise; CREDENTIALS is recorded exactly on success |
| GerritGitBlitAuthenticationManager.AuthenticationManager.Authenticate | src/main/java/com/googlesource/gerrit/plugins/gitblit/auth/GerritGitBlitAuthenticationManager.java:110-126 | a non-string login attribute throws and changes nothing; otherwise the result and the new Gerrit session follow the chosen login, and CREDENTIALS is recorded exactly when a token or password login succeeds |
| GerritGitBlitAuthenticationManager.AuthenticationManager.AuthenticateWithCertificate | src/main/java/com/googlesource/gerrit/plugins/gitblit/auth/GerritGitBlitAuthenticationManager.java:133-136 | the certificate flag changes nothing: the outcome, the new Gerrit session and the recorded authentication type are exactly those of `authenticate(request)` |
| GerritGitBlitAuthenticationManager.AuthenticationManager.AuthenticateWithPassword | src/main/java/com/googlesource/gerrit/plugins/gitblit/auth/GerritGitBlitAuthenticationManager.java:168-171 | a password login without a request: a null password is the NullPointerException of `new String(password)`; otherwise a user exactly when Gerrit accepts the name and password (a null or empty name is refused), named so and with the cookie SHA-1(name + password); the Gerrit session is AfterPasswordLogin (signed in under the newly issued key) on success and unchanged otherwise |
| GerritGitBlitAuthenticationManager.AuthenticationManager.GetCookie | src/main/java/com/googlesource/gerrit/plugins/gitblit/auth/GerritGitBlitAuthenticationManager.java:197-211 | nothing when cookies are not allowed or absent; otherwise the value of the first "Gitblit" cookie |
| GerritGitBlitAuthenticationManager.AuthenticationManager.SetCookie | src/main/java/com/googlesource/gerrit/plugins/gitblit/auth/GerritGitBlitAuthenticationManager.java:229-252 | exactly one LoginCookie is added when cookies are allowed and the login was standard, none otherwise; nothing else of the response changes |
| GerritGitBlitAuthenticationManager.AuthenticationManager.Logout | src/main/java/com/googlesource/gerrit/plugins/gitblit/auth/GerritGitBlitAuthenticationManager.java:260-264 | the Gerrit session is logged out and the clearing cookie added as SetCookie does; nothing else of the response changes |
| GerritGitBlitAuthenticationManager.AuthenticationManager.LogoutAndRedirect | src/main/java/com/googlesource/gerrit/plugins/gitblit/auth/GerritGitBlitAuthenticationManager.java:271-283 | with a canonical URL the session stays and Gerrit's logout URL is returned; without one the session is logged out here and the external logout URL returned; the cookie is cleared in both cases, and nothing else of the response changes |
| GerritToGitBlitUserModel.GetRepositoryName | src/main/java/com/googlesource/gerrit/plugins/gitblit/auth/GerritToGitBlitUserModel.java:108-113 | a name ending in ".git" loses exactly that suffix; any other name is kept |
| GerritToGitBlitUserModel.RepositoryNameRoundTrip | src/main/java/com/googlesource/gerrit/plugins/gitblit/auth/GerritToGitBlitUserModel.java:108-113 | adding ".git" and taking the repository name gives the name back |
| GerritToGitBlitUserModel.CanAccessRepository | src/main/java/com/googlesource/gerrit/plugins/gitblit/auth/GerritToGitBlitUserModel.java:62-75 | true exactly when the factory finds a non-null control for the name as given |
| GerritToGitBlitUserModel.CanAccess | src/main/java/com/googlesource/gerrit/plugins/gitblit/auth/GerritToGitBlitUserModel.java:77-106 | true exactly when there is a control for the name without ".git" and it permits the restriction (view, clone, push; no restriction always) |
| GerritToGitBlitUserModel.HasRepositoryPermission | src/main/java/com/googlesource/gerrit/plugins/gitblit/auth/GerritToGitBlitUserModel.java:115-129 | true exactly when there is a control for the repository name and it makes the project visible |
| GerritToGitBlitUserModel.HasBranchPermission | src/main/java/com/googlesource/gerrit/plugins/gitblit/auth/GerritToGitBlitUserModel.java:131-150 | a visible branch implies permission on its repository |
| GerritToGitBlitUserModel.PermissionsAgree | src/main/java/com/googlesource/gerrit/plugins/gitblit/auth/GerritToGitBlitUserModel.java:77-150 | viewing a repository is holding permission on its name; a branch is visible exactly when the project is visible and the ref control says so |
| GerritToGitBlitUserModel.LowerCaseSuffixStrippedAlike | src/main/java/com/googlesource/gerrit/plugins/gitblit/auth/GerritToGitBlitUserModel.java:108-113 | on a lower-case ".git" suffix this model and the session-backed model strip the same name |
| GerritToGitBlitUserModel.HasAfterAdd | src/main/java/com/googlesource/gerrit/plugins/gitblit/auth/GerritToGitBlitUserModel.java:161-167 | after adding a name, every spelling differing only in case is present |
| GerritToGitBlitUserModel.HasAfterRemove | src/main/java/com/googlesource/gerrit/plugins/gitblit/auth/GerritToGitBlitUserModel.java:161-171 | after removing a name no spelling of it is present, and other names are as before |
| GerritToGitBlitUserModel.AddIdempotent | src/main/java/com/googlesource/gerrit/plugins/gitblit/auth/GerritToGitBlitUserModel.java:165-167 | adding a name twice, in any spelling, is adding it once |
| GerritToGitBlitUserModel.FirstTeamNamed | src/main/java/com/googlesource/gerrit/plugins/gitblit/auth/GerritToGitBlitUserModel.java:182-192 | no team exactly when no name matches case-insensitively; a team found is one of the teams and matches |
| GerritToGitBlitUserModel.FirstTeamNamedIsEarliest | src/main/java/com/googlesource/gerrit/plugins/gitblit/auth/GerritToGitBlitUserModel.java:186-190 | the team found is the earliest match |
| GerritToGitBlitUserModel.UserModel.constructor | src/main/java/com/googlesource/gerrit/plugins/gitblit/auth/GerritToGitBlitUserModel.java:54-60 | a new model is authenticated, has its name and factory, and no repositories or teams |
| GerritToGitBlitUserModel.UserModel.AddRepository | src/main/java/com/googlesource/gerrit/plugins/gitblit/auth/GerritToGitBlitUserModel.java:165-167 | the repositories gain the lower-cased name |
| GerritToGitBlitUserModel.UserModel.RemoveRepository | src/main/java/com/googlesource/gerrit/plugins/gitblit/auth/GerritToGitBlitUserModel.java:169-171 | the repositories lose the lower-cased name |
| GerritToGitBlitUserModel.UserModel.IsTeamMember | src/main/java/com/googlesource/gerrit/plugins/gitblit/auth/GerritToGitBlitUserModel.java:173-180 | true exactly when some team's name matches case-insensitively |
| GerritToGitBlitUserModel.UserModel.GetTeam | src/main/java/com/googlesource/gerrit/plugins/gitblit/auth/GerritToGitBlitUserModel.java:182-192 | the scan returns FirstTeamNamed of the teams |
| GerritToGitBlitUserModel.UserModel.GetDisplayName | src/main/java/com/googlesource/gerrit/plugins/gitblit/auth/GerritToGitBlitUserModel.java:199-204 | the user name when the display name is null or blank, the display name otherwise |
| GerritToGitBlitUserModel.UserModel.CompareTo | src/main/java/com/googlesource/gerrit/plugins/gitblit/auth/GerritToGitBlitUserModel.java:211-214 | negative exactly when this user name sorts before the other's (character by character, a proper prefix first), zero exactly when the names are equal, and antisymmetric |
| GerritToGitBlitUserService.Dispatch | src/main/java/com/googlesource/gerrit/plugins/gitblit/auth/GerritToGitBlitUserService.java:58-72 | the anonymous name takes the anonymous route exactly; a password with the "sessionid:" prefix goes to single sign-on with the rest as token; any other goes unchanged to the password check |
| GerritToGitBlitUserService.SsoRoundTrip | src/main/java/com/googlesource/gerrit/plugins/gitblit/auth/GerritToGitBlitUserService.java:64-68 | "sessionid:" followed by a token reaches single sign-on with exactly that token |
| GerritToGitBlitUserService.AuthenticateSso | src/main/java/com/googlesource/gerrit/plugins/gitblit/auth/GerritToGitBlitUserService.java:74-94 | a model exactly when the session id is the token, the session is signed in and its user has the given name; a user without a name is a null dereference; never the anonymous model |
| GerritToGitBlitUserService.BasicResult | src/main/java/com/googlesource/gerrit/plugins/gitblit/auth/GerritToGitBlitUserService.java:96-115 | a model of the given name exactly when name and password are non-empty and the account manager accepts; null otherwise |
| GerritToGitBlitUserService.EmptyCredentialsNeverChecked | src/main/java/com/googlesource/gerrit/plugins/gitblit/auth/GerritToGitBlitUserService.java:97-101 | an empty name or password is refused whatever the account manager says |
| GerritToGitBlitUserService.AuthenticateNamesTheUser | src/main/java/com/googlesource/gerrit/plugins/gitblit/auth/GerritToGitBlitUserService.java:58-94 | the anonymous name always gets the anonymous model; any other name gets a model of that very name or nothing |
| GerritToGitBlitUserService.AuthenticateResult | src/main/java/com/googlesource/gerrit/plugins/gitblit/auth/GerritToGitBlitUserService.java:58-72 | the anonymous name gets the anonymous model; any other name gets no user, the null-pointer failure or a model of that very name |
| GerritToGitBlitUserService.AuthenticateBasicAuth | src/main/java/com/googlesource/gerrit/plugins/gitblit/auth/GerritToGitBlitUserService.java:96-115 | the answer is BasicResult; exactly when the check succeeds the web session is signed in under the newly issued session id and token, with its cached user kept; otherwise it is unchanged |
| GerritToGitBlitUserService.Authenticate | src/main/java/com/googlesource/gerrit/plugins/gitblit/auth/GerritToGitBlitUserService.java:58-72 | the answer follows the route; only a successful password route changes the session, which is then signed in under the newly issued session id and token |
| GerritToGitBlitUserService.StubAnswerOf | src/main/java/com/googlesource/gerrit/plugins/gitblit/auth/GerritToGitBlitUserService.java:123-271 | every object or list operation gives null; no operation ever answers true |
| GerritGitBlitWebApp.CleanedUp | src/main/java/com/googlesource/gerrit/plugins/gitblit/app/GerritGitBlitWebApp.java:198-214 | after a cleanup the marker holds the current key; every other attribute that survives is unchanged, and exactly the session store's attributes and the unbinding listener are gone |
| GerritGitBlitWebApp.Reconcile | src/main/java/com/googlesource/gerrit/plugins/gitblit/app/GerritGitBlitWebApp.java:166-185 | an equal marker leaves the session untouched; a different string marker triggers a cleanup; a missing marker is set to the current key and nothing else changes |
| GerritGitBlitWebApp.MarkerAfterReconcile | src/main/java/com/googlesource/gerrit/plugins/gitblit/app/GerritGitBlitWebApp.java:166-185 | whichever branch is taken, the session ends up marked with the current plugin instance key |
| GerritGitBlitWebApp.ReconcileIdempotent | src/main/java/com/googlesource/gerrit/plugins/gitblit/app/GerritGitBlitWebApp.java:166-185 | a second reload check by the same plugin instance changes nothing |
| GerritGitBlitWebApp.MountParameters | src/main/java/com/googlesource/gerrit/plugins/gitblit/app/GerritGitBlitWebApp.java:111-115 | a null parameter array, or parameter mounting switched off, mounts no parameters; otherwise the given ones are mounted |
| GerritGitBlitWebApp.AfterReload | src/main/java/com/googlesource/gerrit/plugins/gitblit/app/GerritGitBlitWebApp.java:166-185 | the reload check keeps the session present or absent, and never binds a thread session that was unbound |
| GerritGitBlitWebApp.AfterForce | src/main/java/com/googlesource/gerrit/plugins/gitblit/app/GerritGitBlitWebApp.java:187-196 | a forced cleanup always unbinds the thread's Wicket session and keeps the real session present or absent |
| GerritGitBlitWebApp.AfterReloadIdempotent | src/main/java/com/googlesource/gerrit/plugins/gitblit/app/GerritGitBlitWebApp.java:166-185 | repeating the reload check on the whole guard state changes nothing |
| GerritGitBlitWebApp.ResolveLeavesMarker | src/main/java/com/googlesource/gerrit/plugins/gitblit/app/GerritGitBlitWebApp.java:139-163 | on a web request with a real session, resolution leaves that session marked with the current instance key, whichever path it takes |
| GerritGitBlitWebApp.ResolveRetriesOnce | src/main/java/com/googlesource/gerrit/plugins/gitblit/app/GerritGitBlitWebApp.java:144-158 | one viewer read when it succeeds; exactly one cleanup and a second read after a class-cast; a failure only after two reads |
| GerritGitBlitWebApp.ViewerFollowsGerrit | src/main/java/com/googlesource/gerrit/plugins/gitblit/app/GerritGitBlitWebApp.java:159-162 | Gerrit's sign-in state decides only whether the viewer is logged out; a signed-in Gerrit session never logs the viewer out |
| GerritGitBlitWebApp.SummaryAndProjectUrlsKept | src/main/java/com/googlesource/gerrit/plugins/gitblit/app/GerritGitBlitWebApp.java:216-219 | URLs under "summary/" and "project/" are returned as they are, never moved under "static/" |
| GerritGitBlitWebApp.NewRequestCodingStrategy | src/main/java/com/googlesource/gerrit/plugins/gitblit/app/GerritGitBlitWebApp.java:216-219 | the strategy ignores exactly the URLs that start with "summary/" or "project/" |
| GerritGitBlitWebApp.WebApp.constructor | src/main/java/com/googlesource/gerrit/plugins/gitblit/app/GerritGitBlitWebApp.java:77-93 | a new application has no instance key, no cacheable pages and no mounts |
| GerritGitBlitWebApp.WebApp.SetPluginInstanceKey | src/main/java/com/googlesource/gerrit/plugins/gitblit/app/GerritGitBlitWebApp.java:101-104 | the key is stored as given |
| GerritGitBlitWebApp.WebApp.Mount | src/main/java/com/googlesource/gerrit/plugins/gitblit/app/GerritGitBlitWebApp.java:110-122 | the page is mounted with the parameters MountParameters allows; an annotated page is recorded as cacheable under its location without the leading character; an empty location with an annotation fails |
| GerritGitBlitWebApp.WebApp.GetCacheControl | src/main/java/com/googlesource/gerrit/plugins/gitblit/app/GerritGitBlitWebApp.java:124-132 | an annotation is found exactly for the pages recorded as cacheable, and it is the recorded one |
| GerritGitBlitWebApp.WebApp.IsCacheablePage | src/main/java/com/googlesource/gerrit/plugins/gitblit/app/GerritGitBlitWebApp.java:124-127 | a page is cacheable exactly when a cache-control annotation is found for it |
| GerritGitBlitWebApp.WebApp.CleanUp | src/main/java/com/googlesource/gerrit/plugins/gitblit/app/GerritGitBlitWebApp.java:198-214 | the session's attributes become CleanedUp of the old ones, removed one store attribute at a time, and the thread session is unbound |
| GerritGitBlitWebApp.WebApp.ResetWicketSessionOnPluginReload | src/main/java/com/googlesource/gerrit/plugins/gitblit/app/GerritGitBlitWebApp.java:166-185 | the new guard state is AfterReload of the old one |
| GerritGitBlitWebApp.WebApp.ForceCleanup | src/main/java/com/googlesource/gerrit/plugins/gitblit/app/GerritGitBlitWebApp.java:187-196 | the new guard state is AfterForce of the old one |
| GerritGitBlitWebApp.WebApp.Resolve | src/main/java/com/googlesource/gerrit/plugins/gitblit/app/GerritGitBlitWebApp.java:139-163 | the outcome and the new guard state are those of the resolution specification, so ResolveLeavesMarker, ResolveRetriesOnce and ViewerFollowsGerrit hold of it |
| GitBlitSettings.Merge | src/main/java/com/googlesource/gerrit/plugins/gitblit/app/GitBlitSettings.java:146-152 | the merged keys are those of both; every value already present is kept, and only missing keys take the source's value |
| GitBlitSettings.MergeIdempotent | src/main/java/com/googlesource/gerrit/plugins/gitblit/app/GitBlitSettings.java:146-152 | merging the same source a second time changes nothing |
| GitBlitSettings.IncludedKeepsOwnValues | src/main/java/com/googlesource/gerrit/plugins/gitblit/app/GitBlitSettings.java:165-204 | loading includes removes the include key and never replaces a value the including properties already hold |
| GitBlitSettings.IncludeEachKeepsValues | src/main/java/com/googlesource/gerrit/plugins/gitblit/app/GitBlitSettings.java:171-203 | the loop over the listed names keeps every value already present and adds no include key |
| GitBlitSettings.SelfIncludeAddsNothing | src/main/java/com/googlesource/gerrit/plugins/gitblit/app/GitBlitSettings.java:187-189 | a file whose includes all name itself (or are blank) gains nothing: the cycle guard skips them |
| GitBlitSettings.SkippedNamesAddNothing | src/main/java/com/googlesource/gerrit/plugins/gitblit/app/GitBlitSettings.java:172-175 | names that are blank or already on the include chain add nothing |
| GitBlitSettings.Properties.constructor | src/main/java/com/googlesource/gerrit/plugins/gitblit/app/GitBlitSettings.java:60 | a new property set holds exactly the given entries |
| GitBlitSettings.Properties.MergeFrom | src/main/java/com/googlesource/gerrit/plugins/gitblit/app/GitBlitSettings.java:146-152 | the loop over the source's entries leaves exactly Merge of the source into the old entries |
| GitBlitSettings.Properties.PutAll | src/main/java/com/googlesource/gerrit/plugins/gitblit/app/GitBlitSettings.java:113-119 | loading a stream overwrites with every loaded entry |
| GitBlitSettings.Properties.Remove | src/main/java/com/googlesource/gerrit/plugins/gitblit/app/GitBlitSettings.java:166 | the key is gone and nothing else changes |
| GitBlitSettings.Properties.Put | src/main/java/com/googlesource/gerrit/plugins/gitblit/app/GitBlitSettings.java:228 | the key maps to the value and nothing else changes |
| GitBlitSettings.FileChain.constructor | src/main/java/com/googlesource/gerrit/plugins/gitblit/app/GitBlitSettings.java:226 | the chain starts as the given files |
| GitBlitSettings.FileChain.Add | src/main/java/com/googlesource/gerrit/plugins/gitblit/app/GitBlitSettings.java:190 | the file joins the chain |
| GitBlitSettings.FileChain.Remove | src/main/java/com/googlesource/gerrit/plugins/gitblit/app/GitBlitSettings.java:196-198 | the file leaves the chain |
| GitBlitSettings.LoadIncludedSettings | src/main/java/com/googlesource/gerrit/plugins/gitblit/app/GitBlitSettings.java:165-204 | the properties become the Included specification of the old ones, and the include chain is left as it was found |
| GitBlitSettings.IncludeName | src/main/java/com/googlesource/gerrit/plugins/gitblit/app/GitBlitSettings.java:172-202 | one pass of the loop does what IncludeOne specifies: blank, already-visited and unreadable files are skipped, and a loaded file is merged underneath; the chain is restored |
| GitBlitSettings.Layered | src/main/java/com/googlesource/gerrit/plugins/gitblit/app/GitBlitSettings.java:236-253 | the keys are those of all three layers; built-in values win except for web.authenticateViewPages; otherwise the user's values win over the defaults; web.authenticateViewPages is the user's, else the defaults' |
| GitBlitSettings.OtherUrls | src/main/java/com/googlesource/gerrit/plugins/gitblit/app/GitBlitSettings.java:257-262 | the trimmed "<http> <ssh>" clone URLs of Gerrit, followed by a space and the configured URLs when some are configured, and alone otherwise |
| GitBlitSettings.OtherUrlsKeepConfigured | src/main/java/com/googlesource/gerrit/plugins/gitblit/app/GitBlitSettings.java:257-262 | the configured URLs come back whole after Gerrit's URLs and one space |
| GitBlitSettings.Loaded | src/main/java/com/googlesource/gerrit/plugins/gitblit/app/GitBlitSettings.java:221-267 | no built-in configuration fails; a failed lookup of the HTTP clone URL's host fails with UnknownHostException; otherwise the repository folder, the user service and the other URLs are set as the Gerrit values say, a non-empty canonical web URL is recorded, an empty one leaves the layered value, and every other key keeps its layered value |
| GitBlitSettings.ForcedKeysDiffer | src/main/java/com/googlesource/gerrit/plugins/gitblit/app/GitBlitSettings.java:251-266 | the keys forced from the Gerrit configuration never touch web.authenticateViewPages |
| GitBlitSettings.AuthenticateViewPagesOverridable | src/main/java/com/googlesource/gerrit/plugins/gitblit/app/GitBlitSettings.java:241-253 | the user's web.authenticateViewPages is the final value after loading |
| GitBlitSettings.AuthenticateViewPagesDefaultKept | src/main/java/com/googlesource/gerrit/plugins/gitblit/app/GitBlitSettings.java:241-253 | without a user value, the defaults' web.authenticateViewPages is the final value, whatever the built-in layer says |
| GitBlitSettings.GetBoolean | src/main/java/com/googlesource/gerrit/plugins/gitblit/app/GitBlitSettings.java:74-77 | a missing or blank setting gives the default; any other value gives true exactly when it reads "true", ignoring case and surrounding blanks |
| GitBlitSettings.Settings.GetBooleanSetting | src/main/java/com/googlesource/gerrit/plugins/gitblit/app/GitBlitSettings.java:74-77 | a missing setting gives the default; a non-blank one is true exactly when it reads "true", ignoring case and surrounding blanks |
| GitBlitSettings.Settings.Load | src/main/java/com/googlesource/gerrit/plugins/gitblit/app/GitBlitSettings.java:62-72 | the constructor's load succeeds exactly when Loaded does (built-in configuration present, HTTP clone URL host known), and its properties are then those Loaded specifies |
| GitBlitSettings.Settings.Init | src/main/java/com/googlesource/gerrit/plugins/gitblit/app/GitBlitSettings.java:58-60 | the settings hold exactly the given properties |
| GitBlitSettings.Settings.SaveSettings | src/main/java/com/googlesource/gerrit/plugins/gitblit/app/GitBlitSettings.java:79-83 | every updated entry overwrites, and the answer is true |
| GitBlitSettings.Settings.SaveToDisk | src/main/java/com/googlesource/gerrit/plugins/gitblit/app/GitBlitSettings.java:278-282 | nothing is saved: the answer is false |
| GitBlitUrlsConfig.DetermineLoginUrl | src/main/java/com/googlesource/gerrit/plugins/gitblit/GitBlitUrlsConfig.java:49-59 | no login URL exactly under LDAP or LDAP bind; otherwise the canonical web URL with exactly one "/" before "login/", and a null dereference when that URL is missing |
| GitBlitUrlsConfig.LoginUrlIgnoresTrailingSlash | src/main/java/com/googlesource/gerrit/plugins/gitblit/GitBlitUrlsConfig.java:57 | a canonical URL with or without its trailing slash gives the same login URL |
| GitBlitUrlsConfig.FormatUrl | src/main/java/com/googlesource/gerrit/plugins/gitblit/GitBlitUrlsConfig.java:137-139 | "ssh://{1}@host" and "/{0}" at the ends; the port is written exactly when it is not 22 |
| GitBlitUrlsConfig.GetHost | src/main/java/com/googlesource/gerrit/plugins/gitblit/GitBlitUrlsConfig.java:153-166 | "*" stands for this machine's host as StarHost settles it; any other name is used as it is |
| GitBlitUrlsConfig.StarHost | src/main/java/com/googlesource/gerrit/plugins/gitblit/GitBlitUrlsConfig.java:153-163 | for "*" the host of the canonical web URL is tried first (null when the URI has none); only a missing or unparsable canonical URL falls back to the local host name or its failed lookup |
| GitBlitUrlsConfig.GetPort | src/main/java/com/googlesource/gerrit/plugins/gitblit/GitBlitUrlsConfig.java:145-151 | a port is a parsed integer above zero; anything else is a number-format error |
| GitBlitUrlsConfig.GetSshUrl | src/main/java/com/googlesource/gerrit/plugins/gitblit/GitBlitUrlsConfig.java:110-135 | a URL exactly when the candidate splits at ':' into one or two parts, the host is known and a given port is a positive decimal; it is then the ssh URL of that host and port (22 when none is given), ending in "/{0}" |
| GitBlitUrlsConfig.SshUrlRefusesBadPort | src/main/java/com/googlesource/gerrit/plugins/gitblit/GitBlitUrlsConfig.java:120-132 | "host:port" with a port that is not a positive decimal gives no URL |
| GitBlitUrlsConfig.SshUrlRefusesUnknownStar | src/main/java/com/googlesource/gerrit/plugins/gitblit/GitBlitUrlsConfig.java:116-130 | "*" and "*:port" give no URL when the canonical URL is missing or unparsable and the local host lookup fails |
| GitBlitUrlsConfig.SshUrlDefaultPort | src/main/java/com/googlesource/gerrit/plugins/gitblit/GitBlitUrlsConfig.java:116-119 | a host without a port gets the default SSH port |
| GitBlitUrlsConfig.SshUrlRoundTrip | src/main/java/com/googlesource/gerrit/plugins/gitblit/GitBlitUrlsConfig.java:120-123 | "host:port" gives the URL of that host and port; port 22 gives the same URL as the bare host |
| GitBlitUrlsConfig.SshUrlRefusesExtraColons | src/main/java/com/googlesource/gerrit/plugins/gitblit/GitBlitUrlsConfig.java:124-126 | an address with two colons is refused |
| GitBlitUrlsConfig.FirstDefined | src/main/java/com/googlesource/gerrit/plugins/gitblit/GitBlitUrlsConfig.java:90-95 | nothing exactly when every candidate gives nothing; otherwise a candidate's answer |
| GitBlitUrlsConfig.FirstDefinedIsEarliest | src/main/java/com/googlesource/gerrit/plugins/gitblit/GitBlitUrlsConfig.java:90-95 | the answer is that of the first candidate that gives one |
| GitBlitUrlsConfig.FirstSshUrl | src/main/java/com/googlesource/gerrit/plugins/gitblit/GitBlitUrlsConfig.java:90-95 | no URL exactly when no advertised address gives one; otherwise a template ending in "/{0}" |
| GitBlitUrlsConfig.FirstSshUrlStep | src/main/java/com/googlesource/gerrit/plugins/gitblit/GitBlitUrlsConfig.java:90-95 | the search looks at the first address and goes on with the rest only when it gives nothing |
| GitBlitUrlsConfig.FirstSshUrlIsEarliest | src/main/java/com/googlesource/gerrit/plugins/gitblit/GitBlitUrlsConfig.java:90-95 | the URL is that of the first usable advertised address |
| GitBlitUrlsConfig.ListenAddressUrl | src/main/java/com/googlesource/gerrit/plugins/gitblit/GitBlitUrlsConfig.java:96-103 | only an internet socket address gives a URL, built from its host string |
| GitBlitUrlsConfig.SshUrlSpec | src/main/java/com/googlesource/gerrit/plugins/gitblit/GitBlitUrlsConfig.java:82-108 | no listen address, or downloads that exclude ssh, give no SSH URL; any URL given ends in "/{0}" |
| GitBlitUrlsConfig.SchemeAllowed | src/main/java/com/googlesource/gerrit/plugins/gitblit/GitBlitUrlsConfig.java:86 | an empty download-scheme list allows every scheme; a non-empty one allows exactly the schemes it lists |
| GitBlitUrlsConfig.AdvertisedAddressWins | src/main/java/com/googlesource/gerrit/plugins/gitblit/GitBlitUrlsConfig.java:89-96 | with listen addresses and ssh allowed, the first usable advertised address decides the URL |
| GitBlitUrlsConfig.DetermineGitSshUrl | src/main/java/com/googlesource/gerrit/plugins/gitblit/GitBlitUrlsConfig.java:82-108 | the loop's result is the SshUrlSpec of its inputs |
| GitBlitUrlsConfig.FindAdvertisedSshUrl | src/main/java/com/googlesource/gerrit/plugins/gitblit/GitBlitUrlsConfig.java:89-95 | the loop over the advertised addresses stops at the first usable one, giving FirstSshUrl |
| GitBlitUrlsConfig.GetHttpListenUrl | src/main/java/com/googlesource/gerrit/plugins/gitblit/GitBlitUrlsConfig.java:183-192 | no listen URL exactly when unset; "proxy-" is dropped; a '*' past the first character needs the local host name, whose failed lookup is an error |
| GitBlitUrlsConfig.PlainListenUrlKept | src/main/java/com/googlesource/gerrit/plugins/gitblit/GitBlitUrlsConfig.java:183-192 | a listen URL without "proxy-" or '*' is used unchanged |
| GitBlitUrlsConfig.GetGitHttpUrl | src/main/java/com/googlesource/gerrit/plugins/gitblit/GitBlitUrlsConfig.java:168-181 | "" exactly without a listen URL or when HTTP downloads are not offered; a lookup failure is passed on; any other URL ends in "/{0}" |
| GitBlitUrlsConfig.CanonicalHttpUrlCarriesUser | src/main/java/com/googlesource/gerrit/plugins/gitblit/GitBlitUrlsConfig.java:177-180 | a canonical URL "scheme://rest" becomes "scheme://{1}@rest" with "/{0}" after a single slash |
| GitBlitUrlsConfig.GetGitSshUrl | src/main/java/com/googlesource/gerrit/plugins/gitblit/GitBlitUrlsConfig.java:141-143 | the SSH URL, or "" when none was determined |
| GitBlitUrlsConfig.GitSshUrlEmptyIffUndetermined | src/main/java/com/googlesource/gerrit/plugins/gitblit/GitBlitUrlsConfig.java:141-143 | the SSH URL shown is empty exactly when none was determined |
| GitBlitUrlsConfig.Create | src/main/java/com/googlesource/gerrit/plugins/gitblit/GitBlitUrlsConfig.java:44-60 | construction fails exactly when a login URL is wanted and there is no canonical URL; otherwise the fields are the settings read, the SshUrlSpec and the login URL; "*" in an advertised address stands for StarHost of the canonical web URL |
| GitBlitWebUrls.BaseUrl | src/main/java/com/googlesource/gerrit/plugins/gitblit/GitBlitWebUrls.java:46-59 | the base URL always ends in "/": the path of a well-formed plugin URL with at most one "/" added, else "/plugins/<name>/" |
| GitBlitWebUrls.LinkName | src/main/java/com/googlesource/gerrit/plugins/gitblit/GitBlitWebUrls.java:60-67 | never empty: the plugin's link name, else gitweb's, else "Gitblit" |
| GitBlitWebUrls.NewWebUrls | src/main/java/com/googlesource/gerrit/plugins/gitblit/GitBlitWebUrls.java:45-68 | the link name is never empty and the base URL ends in "/" |
| GitBlitWebUrls.ParseQuery | src/main/java/com/googlesource/gerrit/plugins/gitblit/GitBlitWebUrls.java:71-103 | a query always yields at least one parameter |
| GitBlitWebUrls.QueryOf | src/main/java/com/googlesource/gerrit/plugins/gitblit/GitBlitWebUrls.java:71-103 | a URL's query is a suffix of the URL |
| GitBlitWebUrls.ParseParameterRoundTrip | src/main/java/com/googlesource/gerrit/plugins/gitblit/GitBlitWebUrls.java:71-103 | a "key=value" parameter whose key has no '=' reads back as itself |
| GitBlitWebUrls.ParseFormatQuery | src/main/java/com/googlesource/gerrit/plugins/gitblit/GitBlitWebUrls.java:71-103 | a query formatted from parameters free of '&' (and of '=' in the keys) parses back to exactly those parameters |
| GitBlitWebUrls.ParseQueryAfterPiece | src/main/java/com/googlesource/gerrit/plugins/gitblit/GitBlitWebUrls.java:71-103 | parsing "head&tail" gives head's parameter followed by the parameters of tail |
| GitBlitWebUrls.PageUrl | src/main/java/com/googlesource/gerrit/plugins/gitblit/GitBlitWebUrls.java:71-103 | every link is the base URL, the page and "?" followed by the query |
| GitBlitWebUrls.PageUrlParameters | src/main/java/com/googlesource/gerrit/plugins/gitblit/GitBlitWebUrls.java:71-103 | the query of a page URL parses back to the parameters it was built from |
| GitBlitWebUrls.Link | src/main/java/com/googlesource/gerrit/plugins/gitblit/GitBlitWebUrls.java:71-103 | every link carries the link name, no image and the blank target, and its URL starts with the base URL and the page |
| GitBlitWebUrls.ProjectWebLink | src/main/java/com/googlesource/gerrit/plugins/gitblit/GitBlitWebUrls.java:70-73 | the link name, no image, the blank target and the URL <base>summary/?r=<project> |
| GitBlitWebUrls.PatchSetWebLink | src/main/java/com/googlesource/gerrit/plugins/gitblit/GitBlitWebUrls.java:75-78 | the link name, no image, the blank target and the URL <base>commit/?r=<project>&h=<commit> |
| GitBlitWebUrls.FileWebLink | src/main/java/com/googlesource/gerrit/plugins/gitblit/GitBlitWebUrls.java:85-88 | the link name, no image, the blank target and the URL <base>blob/?r=<project>&h=<revision>&f=<file> |
| GitBlitWebUrls.BranchWebLink | src/main/java/com/googlesource/gerrit/plugins/gitblit/GitBlitWebUrls.java:90-93 | the link name, no image, the blank target and the URL <base>log/?r=<project>&h=<branch> |
| GitBlitWebUrls.FileHistoryWebLink | src/main/java/com/googlesource/gerrit/plugins/gitblit/GitBlitWebUrls.java:100-103 | the link name, no image, the blank target and the URL <base>history/?f=<file>&r=<project>&h=<revision> |
| GitBlitWebUrls.ParentWebLink | src/main/java/com/googlesource/gerrit/plugins/gitblit/GitBlitWebUrls.java:80-83 | a parent link is the patch-set link of the parent commit |
| GitBlitWebUrls.TagWebLink | src/main/java/com/googlesource/gerrit/plugins/gitblit/GitBlitWebUrls.java:95-98 | a tag link is the branch log link, with the tag as the ref |
| GitBlitWebUrls.LinkParameters | src/main/java/com/googlesource/gerrit/plugins/gitblit/GitBlitWebUrls.java:71-103 | the query of a link parses back to the parameters it was built from |
| GitBlitWebUrls.ProjectAndCommitLinksNameTheirObjects | src/main/java/com/googlesource/gerrit/plugins/gitblit/GitBlitWebUrls.java:70-78 | the project link's query is r=<project>; the patch-set link's is r=<project>, h=<commit> |
| GitBlitWebUrls.BranchLinkNamesItsObjects | src/main/java/com/googlesource/gerrit/plugins/gitblit/GitBlitWebUrls.java:90-93 | the branch link's query is r=<project>, h=<branch> |
| GitBlitWebUrls.FileLinksNameTheirObjects | src/main/java/com/googlesource/gerrit/plugins/gitblit/GitBlitWebUrls.java:85-103 | the file link's query is r, h, f; the history link's is f, r, h, in those orders |
| GitBlitTopMenu.NewTopMenu | src/main/java/com/googlesource/gerrit/plugins/gitblit/GitBlitTopMenu.java:42-67 | the restricted menu holds the repositories item only; the full one adds activity and, exactly when a search label is set, search; labels are the configured ones or "Repositories", "Activity" and "Browse"; the projects entry holds one browse item pointing at <plugin URL>/summary?r=${projectName} |
| GitBlitTopMenu.ItemsBelowBaseUrl | src/main/java/com/googlesource/gerrit/plugins/gitblit/GitBlitTopMenu.java:47-66 | every menu item's URL lies below the plugin URL with a trailing "/" |
| GitBlitTopMenu.GetEntries | src/main/java/com/googlesource/gerrit/plugins/gitblit/GitBlitTopMenu.java:69-72 | two entries: the full menu for an identified user, else the restricted one, then the projects entry |
| GitBlitTopMenu.SigningInExtendsMenu | src/main/java/com/googlesource/gerrit/plugins/gitblit/GitBlitTopMenu.java:52-72 | signing in only adds items: the anonymous menu is a strict prefix of the identified one, and the projects entry is the same |
| StaticCodingStrategy.IsMatchingIgnoreUrlPrefixes | src/main/java/com/googlesource/gerrit/plugins/gitblit/app/StaticCodingStrategy.java:50-57 | true exactly when some ignored prefix starts the URL |
| StaticCodingStrategy.GetRelativePrefix | src/main/java/com/googlesource/gerrit/plugins/gitblit/app/StaticCodingStrategy.java:59-68 | one "../" per level above zero: three characters per level climbed |
| StaticCodingStrategy.GetRelativeStaticUrl | src/main/java/com/googlesource/gerrit/plugins/gitblit/app/StaticCodingStrategy.java:75-88 | the relative prefix, then "static/", then the URL itself, at the end |
| StaticCodingStrategy.GetStaticRelativePrefix | src/main/java/com/googlesource/gerrit/plugins/gitblit/app/StaticCodingStrategy.java:70-73 | the relative prefix followed by "static/" |
| StaticCodingStrategy.RewriteStaticRelativeUrl | src/main/java/com/googlesource/gerrit/plugins/gitblit/app/StaticCodingStrategy.java:32-48 | fails exactly when splitting yields nothing; a last segment without '.' or an ignored prefix keeps the URL; a last segment with '.' outside the ignored prefixes becomes GetRelativeStaticUrl, the "../" climb and "static/" in front of it |
| StaticCodingStrategy.RelativePrefixSegments | src/main/java/com/googlesource/gerrit/plugins/gitblit/app/StaticCodingStrategy.java:62-67 | the "../" prefix splits into exactly one ".." segment per level |
| StaticCodingStrategy.RelativeStaticUrlSegments | src/main/java/com/googlesource/gerrit/plugins/gitblit/app/StaticCodingStrategy.java:75-88 | a rewritten URL climbs the depth, enters "static" and then follows the original URL segment by segment |
| StaticCodingStrategy.StaticPrefixIsStaticUrlStart | src/main/java/com/googlesource/gerrit/plugins/gitblit/app/StaticCodingStrategy.java:70-88 | every static URL is the static prefix followed by the URL |
| StaticCodingStrategy.FailsOnlyOnSlashes | src/main/java/com/googlesource/gerrit/plugins/gitblit/app/StaticCodingStrategy.java:35-36 | the rewrite fails exactly on a non-empty URL made only of slashes |
| StaticCodingStrategy.RewriteKeepsOriginalSuffix | src/main/java/com/googlesource/gerrit/plugins/gitblit/app/StaticCodingStrategy.java:44-47 | rewriting a rewritten URL again still ends with the original URL |
| StaticResourcesServlet.ResourcePath | src/main/java/com/googlesource/gerrit/plugins/gitblit/StaticResourcesServlet.java:90-93 | any request URI ending in "/clippy.swf" serves "/clippy.swf"; otherwise the path info |
| StaticResourcesServlet.CheckPathAsWritten | src/main/java/com/googlesource/gerrit/plugins/gitblit/StaticResourcesServlet.java:94-119 | a null or empty path is not found; a ".." segment anywhere is forbidden; a path whose segments vanish under split reaches the out-of-bounds read |
| StaticResourcesServlet.SlashesOnlyPathFails | src/main/java/com/googlesource/gerrit/plugins/gitblit/StaticResourcesServlet.java:99-106 | the out-of-bounds read happens exactly for paths of two or more characters that are all slashes |
| StaticResourcesServlet.DoubleSlashFails | src/main/java/com/googlesource/gerrit/plugins/gitblit/StaticResourcesServlet.java:99-106 | the path "//" reaches the out-of-bounds read |
| StaticResourcesServlet.CheckPath | src/main/java/com/googlesource/gerrit/plugins/gitblit/StaticResourcesServlet.java:94-119 | corrected (a slashes-only path is 404, not an exception): never fails; forbidden exactly with a ".." segment; an accepted file is the last, non-empty segment, under an allowed subdirectory or, at the top, an allowed file name; and every such path is accepted |
| StaticResourcesServlet.AllowedFileName | src/main/java/com/googlesource/gerrit/plugins/gitblit/StaticResourcesServlet.java:51 | an allowed name is gitblit.properties or ends in .png, .css, .js or .swf; a single-line name with one of those endings is allowed |
| StaticResourcesServlet.CheckPathAgreesWhereWrittenSucceeds | src/main/java/com/googlesource/gerrit/plugins/gitblit/StaticResourcesServlet.java:94-119 | the corrected check gives the same verdict as the code wherever the code does not fail, and "not found" where it does |
| StaticResourcesServlet.AcceptedPathHasNoParentSegment | src/main/java/com/googlesource/gerrit/plugins/gitblit/StaticResourcesServlet.java:98-105 | an accepted path contains no ".." segment at all, not even among the trailing empty segments split drops |
| StaticResourcesServlet.ClippyNameAllowed | src/main/java/com/googlesource/gerrit/plugins/gitblit/StaticResourcesServlet.java:51 | "clippy.swf" matches the allowed file-name pattern |
| StaticResourcesServlet.ClippyPathAccepted | src/main/java/com/googlesource/gerrit/plugins/gitblit/StaticResourcesServlet.java:99-119 | the path "/clippy.swf" is accepted as the file "clippy.swf" |
| StaticResourcesServlet.ClippyAccepted | src/main/java/com/googlesource/gerrit/plugins/gitblit/StaticResourcesServlet.java:91-93 | a request for clippy.swf is served whatever its path info |
| StaticResourcesServlet.RejectionStatus | src/main/java/com/googlesource/gerrit/plugins/gitblit/StaticResourcesServlet.java:94-119 | no error exactly for an accepted path; 403 exactly for navigation; 404 otherwise |
| StaticResourcesServlet.ContentType | src/main/java/com/googlesource/gerrit/plugins/gitblit/StaticResourcesServlet.java:133-142 | a detected type other than octet-stream is used; otherwise ".js" and ".css" names, in any case, get the JavaScript and CSS types, and anything else is octet-stream |
| StaticResourcesServlet.ContentTypeIgnoresCase | src/main/java/com/googlesource/gerrit/plugins/gitblit/StaticResourcesServlet.java:137-141 | names that differ only in case get the same content type |
| StaticResourcesServlet.LatestJarTime | src/main/java/com/googlesource/gerrit/plugins/gitblit/StaticResourcesServlet.java:70-81 | never negative; no GitBlit jar is newer than it, and it is 0 or the time of one of them |
| StaticResourcesServlet.LatestJarTimeStep | src/main/java/com/googlesource/gerrit/plugins/gitblit/StaticResourcesServlet.java:78-80 | one more file raises the time to that file's when it is a newer GitBlit jar |
| StaticResourcesServlet.OtherFilesIgnored | src/main/java/com/googlesource/gerrit/plugins/gitblit/StaticResourcesServlet.java:70-75 | files that are not "gitblit*.jar" do not change the time |
| StaticResourcesServlet.ResourcesServlet.constructor | src/main/java/com/googlesource/gerrit/plugins/gitblit/StaticResourcesServlet.java:56-63 | the remembered time starts unset (-1) |
| StaticResourcesServlet.ResourcesServlet.GetLastModified | src/main/java/com/googlesource/gerrit/plugins/gitblit/StaticResourcesServlet.java:65-85 | once remembered the time is returned unchanged; otherwise it is the latest jar time (0 without a listing) and is remembered |
| StaticResourcesServlet.ResourcesServlet.ValidatePath | src/main/java/com/googlesource/gerrit/plugins/gitblit/StaticResourcesServlet.java:94-119 | corrected: the loop over the segments gives exactly CheckPath, which answers 404 where the code as written throws |
| StaticResourcesServlet.ResourcesServlet.DoGet | src/main/java/com/googlesource/gerrit/plugins/gitblit/StaticResourcesServlet.java:87-152 | corrected (through CheckPath): a rejected path sets 404 or 403 "Invalid path" and nothing else; a missing resource is 404 and nothing else; a served one gets its content type, its length and a Last-Modified header when the time is positive, that time being the remembered one or else the latest gitblit*.jar time (0 without a listing), now remembered; status and message are kept; cookies are never touched |
| StaticRewritingHeaderResponse.WholeMatchIsPrefixMatch | src/main/java/com/googlesource/gerrit/plugins/gitblit/app/StaticRewritingHeaderResponse.java:52-55 | every URL the whole-string test calls external is external by prefix too |
| StaticRewritingHeaderResponse.IsExternal | src/main/java/com/googlesource/gerrit/plugins/gitblit/app/StaticRewritingHeaderResponse.java:52 | corrected: a URL starting with "//" is external, and every external URL holds "//" |
| StaticRewritingHeaderResponse.MatchesExternalWhole | src/main/java/com/googlesource/gerrit/plugins/gitblit/app/StaticRewritingHeaderResponse.java:52-55 | as written: a URL matched whole ends in "//" and is external by the prefix test too |
| StaticRewritingHeaderResponse.Relocate | src/main/java/com/googlesource/gerrit/plugins/gitblit/app/StaticRewritingHeaderResponse.java:58-70 | a URL already under the context path's "/static/" is kept; another under the context path gets "/static" after it; others go under the context path's "/static", with a "/" added before a relative one |
| StaticRewritingHeaderResponse.RewriteUrlAsWritten | src/main/java/com/googlesource/gerrit/plugins/gitblit/app/StaticRewritingHeaderResponse.java:54-71 | null, empty and whole-string-external URLs are returned as they are; every other URL is relocated |
| StaticRewritingHeaderResponse.RewriteUrl | src/main/java/com/googlesource/gerrit/plugins/gitblit/app/StaticRewritingHeaderResponse.java:54-71 | null, empty and external URLs are returned as they are; every other URL ends up under the context path's "/static" |
| StaticRewritingHeaderResponse.RewritesAgreeOffExternal | src/main/java/com/googlesource/gerrit/plugins/gitblit/app/StaticRewritingHeaderResponse.java:52-71 | the corrected rewrite agrees with the code except on URLs that are external by prefix but not as a whole |
| StaticRewritingHeaderResponse.AbsoluteUrlIsRelocated | src/main/java/com/googlesource/gerrit/plugins/gitblit/app/StaticRewritingHeaderResponse.java:52-69 | "http://h/a.js" is relocated under "/gerrit/static/" by the code as written, and kept by the corrected rewrite |
| StaticRewritingHeaderResponse.SchemeUrlIsExternal | src/main/java/com/googlesource/gerrit/plugins/gitblit/app/StaticRewritingHeaderResponse.java:52 | "scheme://rest" with a scheme of word characters is external |
| StaticRewritingHeaderResponse.RelocateSettles | src/main/java/com/googlesource/gerrit/plugins/gitblit/app/StaticRewritingHeaderResponse.java:58-70 | a URL outside the context path, or under it past a "/", is settled by one rewrite: it lands under "/static/" and a second rewrite keeps it |
| StaticRewritingHeaderResponse.EmptyContextPathJoinsStatic | src/main/java/com/googlesource/gerrit/plugins/gitblit/app/StaticRewritingHeaderResponse.java:61-63 | with an empty context path a relative "a.js" becomes "/statica.js": every URL starts with the empty path, so no separator is added |
| StaticRewritingHeaderResponse.Forward | src/main/java/com/googlesource/gerrit/plugins/gitblit/app/StaticRewritingHeaderResponse.java:32-50 | corrected (prefix test for external URLs): each render call forwards the same kind of reference with its id or media unchanged and its URL rewritten |
| StaticRewritingHeaderResponse.ForwardKeepsExternal | src/main/java/com/googlesource/gerrit/plugins/gitblit/app/StaticRewritingHeaderResponse.java:32-57 | null, empty and external references are forwarded untouched |
| WrappedSyndicationFilter.ExtractRequestedName | src/main/java/com/googlesource/gerrit/plugins/gitblit/WrappedSyndicationFilter.java:132-139 | one leading "feed/" is removed and the rest is the name; a name without it is kept |
| WrappedSyndicationFilter.ExtractRoundTrip | src/main/java/com/googlesource/gerrit/plugins/gitblit/WrappedSyndicationFilter.java:130-139 | "feed/" followed by a name gives back exactly that name, even one that itself starts with "feed/" |
| WrappedSyndicationFilter.ExtractedNameIsSuffix | src/main/java/com/googlesource/gerrit/plugins/gitblit/WrappedSyndicationFilter.java:132-139 | the requested name is always a suffix of what GitBlit extracted |
| WrappedSyndicationFilter.GetUser | src/main/java/com/googlesource/gerrit/plugins/gitblit/WrappedSyndicationFilter.java:113-121 | the user from Gerrit's filter when there is one, otherwise GitBlit's own lookup |
| WrappedSyndicationFilter.GetUserNoneIffBothNone | src/main/java/com/googlesource/gerrit/plugins/gitblit/WrappedSyndicationFilter.java:113-121 | the request is anonymous exactly when neither lookup finds a user |
| WrappedSyndicationFilter.FeedDecision | src/main/java/com/googlesource/gerrit/plugins/gitblit/WrappedSyndicationFilter.java:53-111 | rejected exactly when Gerrit's filter refuses; not found exactly without a repository; a challenge only without a user; a refusal only with one; a served feed carries the user |
| WrappedSyndicationFilter.ServedIffViewable | src/main/java/com/googlesource/gerrit/plugins/gitblit/WrappedSyndicationFilter.java:74-110 | the feed is served exactly when the repository exists and the user, or the anonymous user when there is none, may view it |
| WrappedSyndicationFilter.HiddenRepositoryChallengesAnonymous | src/main/java/com/googlesource/gerrit/plugins/gitblit/WrappedSyndicationFilter.java:93-98 | a repository anonymous users may not view is never served without a user: the client is challenged |
| WrappedSyndicationFilter.GerritUserDecides | src/main/java/com/googlesource/gerrit/plugins/gitblit/WrappedSyndicationFilter.java:113-121 | once Gerrit's filter names a user, GitBlit's own lookup cannot change the decision |
| WrappedSyndicationFilter.FilterChain.constructor | src/main/java/com/googlesource/gerrit/plugins/gitblit/WrappedSyndicationFilter.java:54 | the chain starts with no calls |
| WrappedSyndicationFilter.FilterChain.DoFilter | src/main/java/com/googlesource/gerrit/plugins/gitblit/WrappedSyndicationFilter.java:110 | the chain records one call, for the given user |
| WrappedSyndicationFilter.DoFilter | src/main/java/com/googlesource/gerrit/plugins/gitblit/WrappedSyndicationFilter.java:53-111 | the outcome is FeedDecision of the lookups; the chain is called once exactly when served; 404, 401 with the challenge header, or 403 are set as decided; unless Gerrit's filter rejected the request, nothing else in the response changes |
| VersionCheck.AfterLast | src/main/resources/Documentation/version_check.js:36-41 | the text after the last '.' holds no '.' |
| VersionCheck.SplitTag | src/main/resources/Documentation/version_check.js:34-44 | the plugin and GitBlit parts of a split tag hold no '.' |
| VersionCheck.SplitFormat | src/main/resources/Documentation/version_check.js:34-44 | a tag written from three parts (the last two without '.', the first not starting with 'v') splits back into them |
| VersionCheck.SplitWrittenTag | src/main/resources/Documentation/version_check.js:34-44 | a published tag "v<gerrit>.<gitblit>.<plugin>" splits back into its parts |
| VersionCheck.SplitTen | src/main/resources/Documentation/version_check.js:34-44 | "v2.11.162.10" splits into "2.11", "162", "10" |
| VersionCheck.SplitNine | src/main/resources/Documentation/version_check.js:34-44 | "v2.11.162.9" splits into "2.11", "162", "9" |
| VersionCheck.TenNotNewerThanNine | src/main/resources/Documentation/version_check.js:80 | as written, release 2.11.162.10 is not seen as newer than 2.11.162.9 |
| VersionCheck.IsNewerAsWritten | src/main/resources/Documentation/version_check.js:80 | as written, a newer tag has the same Gerrit part and differs from the current one |
| VersionCheck.IsNewer | src/main/resources/Documentation/version_check.js:80 | corrected: a newer tag has the same Gerrit part and differs from the current one |
| VersionCheck.Offered | src/main/resources/Documentation/version_check.js:78-80 | corrected: an offered release is neither a draft nor a prerelease, is for the same Gerrit version and is not the current tag |
| VersionCheck.IsNewerOnNumbers | src/main/resources/Documentation/version_check.js:80 | on numbered releases the corrected comparison is the order of (GitBlit, plugin) number pairs under the same Gerrit version |
| VersionCheck.TenNewerThanNine | src/main/resources/Documentation/version_check.js:80 | with the corrected comparison release 2.11.162.10 is newer than 2.11.162.9 |
| VersionCheck.PluginPartNewer | src/main/resources/Documentation/version_check.js:80 | under the same Gerrit and GitBlit parts, plugin part 10 is newer than plugin part 9 |
| VersionCheck.FirstWhere | src/main/resources/Documentation/version_check.js:76-91 | nothing exactly when no release qualifies; otherwise a listed release that qualifies |
| VersionCheck.FirstNewer | src/main/resources/Documentation/version_check.js:76-91 | corrected (numeric comparison): nothing exactly when no listed release is a non-draft, non-prerelease newer one; otherwise such a release |
| VersionCheck.FirstWhereIsEarliest | src/main/resources/Documentation/version_check.js:76-91 | the release found is the earliest in list order that qualifies |
| VersionCheck.Outcome | src/main/resources/Documentation/version_check.js:70-100 | corrected (numeric comparison): a failed answer shows the failure message; a good answer shows the newer release exactly when there is one, and otherwise the "current version" message |
| VersionCheck.Checker.constructor | src/main/resources/Documentation/version_check.js:16-22 | the check is armed exactly when the page has the link and the version element, and the current version is the split of that element's text |
| VersionCheck.Checker.VersionCheck | src/main/resources/Documentation/version_check.js:70-100 | corrected (numeric comparison): the first answer replaces the link with its Outcome, found by the loop over the releases; later answers change nothing |

Some functions serve only as specifications or plumbing for the members above and have no row of their own. `GerritGitBlitUserManager.GetCookie` returns the model's cookie field. `GitBlitSettings.Included`, `IncludeOne` and `IncludeEach` specify the include chain, and the `IncludedKeepsOwnValues`, `IncludeEachKeepsValues`, `LoadIncludedSettings` and `IncludeName` rows state their properties. `GitBlitSettings.UserLayer` is the user file with its includes and the property-source marker, as `Loaded` uses it.

## Left out

- Logging, dependency injection and Guice wiring are left out, and so are the Wicket, servlet and GitBlit superclasses. Their results are parameters.
- `GerritGitBlitUserManager.fixAnonymousUser` patches a static final field through reflection. Only its boolean outcome is modelled, as an input of `GerritGitBlitUserManager.Configure`.
- `hasTeamAccess` in `GerritToGitBlitUserModel` is not modelled. It asks GitBlit's `TeamModel.hasRepository`, which is not part of this model.
- `getUserModel` in `GerritToGitBlitUserService` is not modelled. It only builds a `GerritToGitBlitUserModel` of the given name.
- `GitBlitSettings.ensureBaseDir` (directory creation) and `toString` are not modelled. Parsing properties files is not modelled either: a readable file is given as its parsed entries, and file existence and canonicalisation are parameters.
- `GitBlitSettings.IncludeNames`: GitBlit's `getStringsFromValue` is modelled as a plain comma split. Double-quoted names are not unquoted.
- `GitBlitSettings.GetBoolean` models GitBlit's `IStoredSettings.getBoolean`, which is not part of this model, as "a non-blank value is true exactly when it reads true, ignoring case".
- `JavaStrings.ParseInt` accepts ASCII digits only, where `Integer.parseInt` also accepts other Unicode decimal digits. `JavaStrings.CompareTo` and `JavaStrings.LexLess` compare characters as code points, not as UTF-16 code units, so they differ from Java and JavaScript only on characters outside the Basic Multilingual Plane.
- SHA-1 is an injective symbolic digest, so no two inputs collide.
- Case folding (`toLowerCase`, `equalsIgnoreCase`) is modelled on ASCII letters only.
- `java.net.URI` and `URL` parsing (`GitBlitUrlsConfig.StarHost` takes the parse as a function), the local host-name lookup and MIME detection are parameters. So are the class-path reads of the resource servlet and the instance key from the plugin activator.
- The resource servlet's stream I/O, the writing of the response body and the date formatting of `setDateHeader` are left out. The response records the status, the headers, the content type and the date header's number.
- The DOM changes and the JSONP script injection of `version_check.js` are left out. What replaces the check link is the `Display` value that `VersionCheck.Outcome` returns.
- Concurrency is left out. `AtomicLong` and `AtomicReference` are plain fields, and the session marker's read-compare-write is sequential.
- The `(String)` casts of the login attributes in `authenticate(request)` and in `GerritAuthFilter` are modelled with their ClassCastException. The `(AuthenticationType)` cast in `isStandardLogin` is not: a value of another type reads as a non-standard login.
- `WrappedSyndicationFilter.DoFilter`: `GerritAuthenticationFilter` is not part of this model. Its pass or reject answer and the user it finds are parameters, and what it writes to the response when it rejects is not stated.
- `instanceof WebRequestCycle` is an input flag of `GerritGitBlitWebApp.WebApp.Resolve`. The Wicket session read, with its class-cast failure, is a given function of the thread binding and the session attributes.
- The deprecated `setCookie(response, user)` and `logout(response, user)` overloads are the request-taking methods with no request.
- Markdown rendering, the XSS filters, the public-key manager, the null services, the init step and the thin servlet and filter wrappers are not part of this model.

## Findings

| source | as written | input that shows it | evidently intended | confidence | as-written member | corrected member |
|---|---|---|---|---|---|---|
| src/main/java/com/googlesource/gerrit/plugins/gitblit/app/StaticRewritingHeaderResponse.java:52-55 | `EXTERNAL_URL.matcher(url).matches()` needs the anchored pattern `^(?:\w+:)?//` to match the whole URL, so only a bare "//" or "scheme://" counts as external | "http://h/a.js" under context path "/gerrit" becomes "/gerrit/static/http://h/a.js" | a URL that starts with "//" or "scheme://" is external and is left alone (a prefix match, `find()` or `lookingAt()`) | high; not executed | StaticRewritingHeaderResponse.AbsoluteUrlIsRelocated | StaticRewritingHeaderResponse.RewritesAgreeOffExternal |
| src/main/java/com/googlesource/gerrit/plugins/gitblit/StaticResourcesServlet.java:99-106 | `split("/")` drops trailing empty strings, so a path made only of slashes after its first character gives no segments, and `segments[segments.length - 1]` reads index -1 | the path info "//" raises ArrayIndexOutOfBoundsException instead of a 404 | a path with no file name is answered 404, as the single "/" is | high; not executed | StaticResourcesServlet.DoubleSlashFails | StaticResourcesServlet.CheckPathAgreesWhereWrittenSucceeds |
| src/main/resources/Documentation/version_check.js:80 | the GitBlit and plugin parts are compared with `>` on strings, which is lexicographic | release v2.11.162.10 is not reported as newer than an installed v2.11.162.9, because "10" < "9" | the parts are compared as numbers | high; not executed | VersionCheck.TenNotNewerThanNine | VersionCheck.TenNewerThanNine |
