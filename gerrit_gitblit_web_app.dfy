/**
 * `GerritGitBlitWebApp`: GitBlit's Wicket application inside Gerrit. Its request-cycle
 * processor guards against Wicket sessions left over from an earlier load of the plugin:
 * every HTTP session carries a marker naming the plugin instance that last used it, and a
 * session marked by another instance has its Wicket state purged before the request is
 * resolved. The application also records which mounted pages may be cached.
 *
 * Wicket's session store keeps its objects in the HTTP session under attribute names that
 * start with `sessionStorePrefix`; removing "each attribute name the store reports" is
 * removing every attribute with that prefix. Whether a Wicket session is bound to the
 * current thread (`Session.unset` clears it) is the field `threadSession`.
 */
module GerritGitBlitWebApp {
  import opened Wrappers
  import opened JavaStrings
  import opened Servlet
  import opened HttpUtils
  import GitBlitSettings
  import StaticCodingStrategy

  /** `INSTANCE_ATTRIBUTE`: the session attribute holding the marker. */
  const InstanceAttribute: string := "GerritGitBlitPluginInstance"

  /** `Keys.web.mountParameters`. */
  const MountParametersKey: string := "web.mountParameters"

  /** The attribute of Wicket's session-unbinding listener for an application. */
  function ListenerAttribute(applicationKey: string): string {
    "Wicket:SessionUnbindingListener-" + applicationKey
  }

  /** The attributes Wicket's session store reports for a session. */
  function StoreAttributeNames(attrs: map<string, Value>, prefix: string): (names: set<string>)
    ensures forall k :: k in names <==> k in attrs && StartsWith(k, prefix)
  {
    set k | k in attrs.Keys && StartsWith(k, prefix)
  }

  /** The value `setAttribute(INSTANCE_ATTRIBUTE, key)` stores; null removes the marker. */
  function MarkerValue(key: Option<string>): Option<Value> {
    if key.Some? then Some(StringValue(key.value)) else None
  }

  /** The marker as `HttpUtils.getAttribute(session, INSTANCE_ATTRIBUTE, String.class)` reads it. */
  function Marker(attrs: map<string, Value>): Option<Value> {
    GetAttribute(attrs, InstanceAttribute, StringClass)
  }

  /** `sessionPluginInstanceKey.equals(current)`: a string marker equal to a non-null key. */
  predicate MarkerIs(attrs: map<string, Value>, current: Option<string>) {
    Marker(attrs).Some? && current == Some(Marker(attrs).value.s)
  }

  /**
   * `cleanUp(realSession, request, current)`: the store's attributes and the unbinding
   * listener are removed, then the marker is set to `current`.
   */
  function CleanedUp(attrs: map<string, Value>, prefix: string, applicationKey: string,
                     current: Option<string>): (r: map<string, Value>)
    ensures Marker(r) == MarkerValue(current)
    ensures forall k :: k in r && k != InstanceAttribute ==>
              k in attrs && r[k] == attrs[k] && !StartsWith(k, prefix) && k != ListenerAttribute(applicationKey)
    ensures forall k :: k in attrs && k != InstanceAttribute ==>
              (!StartsWith(k, prefix) && k != ListenerAttribute(applicationKey) ==> k in r)
  {
    var purged := attrs - StoreAttributeNames(attrs, prefix) - {ListenerAttribute(applicationKey)};
    WithAttribute(purged, InstanceAttribute, MarkerValue(current))
  }

  /**
   * The session after `resetWicketSessionOnPluginReload`: an equal marker leaves it alone, a
   * different string marker has it cleaned up, and a missing (or non-string) marker is
   * replaced by the current key with nothing purged.
   */
  function Reconcile(attrs: map<string, Value>, prefix: string, applicationKey: string,
                     current: Option<string>): (r: map<string, Value>)
    ensures MarkerIs(attrs, current) ==> r == attrs
    ensures Marker(attrs).Some? && !MarkerIs(attrs, current) ==> r == CleanedUp(attrs, prefix, applicationKey, current)
    ensures Marker(attrs).None? ==> r == WithAttribute(attrs, InstanceAttribute, MarkerValue(current))
    ensures Marker(attrs).None? ==>
              forall k :: k != InstanceAttribute ==> (k in r <==> k in attrs) && (k in r ==> r[k] == attrs[k])
  {
    var marker := Marker(attrs);
    if marker.Some? then
      if current == Some(marker.value.s) then attrs else CleanedUp(attrs, prefix, applicationKey, current)
    else WithAttribute(attrs, InstanceAttribute, MarkerValue(current))
  }

  /** After the reload check the marker names the current instance (or is absent for a null key). */
  lemma MarkerAfterReconcile(attrs: map<string, Value>, prefix: string, applicationKey: string, current: Option<string>)
    ensures Marker(Reconcile(attrs, prefix, applicationKey, current)) == MarkerValue(current)
  {
    var marker := Marker(attrs);
    if marker.Some? && current == Some(marker.value.s) {
      assert marker.value == StringValue(current.value);
    } else if marker.None? {
      var r := WithAttribute(attrs, InstanceAttribute, MarkerValue(current));
      if current.Some? {
        assert r[InstanceAttribute] == StringValue(current.value);
      }
    }
  }

  /** A second reload check by the same instance changes nothing. */
  lemma {:induction false} ReconcileIdempotent(attrs: map<string, Value>, prefix: string, applicationKey: string,
                                               current: Option<string>)
    ensures Reconcile(Reconcile(attrs, prefix, applicationKey, current), prefix, applicationKey, current) ==
            Reconcile(attrs, prefix, applicationKey, current)
  {
    var r := Reconcile(attrs, prefix, applicationKey, current);
    MarkerAfterReconcile(attrs, prefix, applicationKey, current);
    if current.Some? {
      assert MarkerIs(r, current);
    } else {
      assert InstanceAttribute !in r;
      assert WithAttribute(r, InstanceAttribute, None) == r;
    }
  }

  /** A cacheable page's `@CacheControl` annotation. */
  datatype CacheControl = CacheControl(lastModified: string)

  /** A page class, with its annotation if it has one. */
  datatype PageClass = PageClass(name: string, cacheControl: Option<CacheControl>)

  /** A coding strategy registered by `mount`. */
  datatype MountedPage = MountedPage(location: string, page: PageClass, parameters: seq<string>)

  /** The parameters actually mounted: none for a null array or when mounting parameters is switched off. */
  function MountParameters(parameters: Option<seq<string>>, mountParameters: bool): (r: seq<string>)
    ensures parameters.None? || !mountParameters ==> r == []
    ensures parameters.Some? && mountParameters ==> r == parameters.value
  {
    if parameters.None? || !mountParameters then [] else parameters.value
  }

  /** The Wicket session as `GitBlitWebSession.get()` finds it. */
  datatype ViewerRead = ClassCast | Viewer(loggedIn: bool)

  /**
   * The part of the state a request's resolution touches: the real session's attributes, if
   * there is a real session, and whether a Wicket session is bound to the thread.
   */
  datatype GuardState = GuardState(attributes: Option<map<string, Value>>, threadSession: bool)
  {
    function Attributes(): map<string, Value> {
      attributes.GetOr(map[])
    }
  }

  /** What `resolve` does before handing on: fail on a second class-cast, or resolve after one or two reads. */
  datatype Resolution = Failed(lookups: nat) | Resolved(lookups: nat, viewerLoggedOut: bool)

  /** `resetWicketSessionOnPluginReload`, on the guard state. */
  function AfterReload(s: GuardState, prefix: string, applicationKey: string, current: Option<string>): (r: GuardState)
    ensures r.attributes.Some? <==> s.attributes.Some?
    ensures r.threadSession ==> s.threadSession
  {
    if s.attributes.Some? then
      GuardState(Some(Reconcile(s.attributes.value, prefix, applicationKey, current)),
                 s.threadSession && MarkerIs(s.attributes.value, current))
    else GuardState(None, false)
  }

  /** `forceCleanup`, on the guard state. */
  function AfterForce(s: GuardState, prefix: string, applicationKey: string, current: Option<string>): (r: GuardState)
    ensures r.attributes.Some? <==> s.attributes.Some?
    ensures !r.threadSession
  {
    if s.attributes.Some? then GuardState(Some(CleanedUp(s.attributes.value, prefix, applicationKey, current)), false)
    else GuardState(None, false)
  }

  /** The whole of `resolve` up to `super.resolve`, as a function of the state it starts from. */
  function ResolveSpec(isWebRequest: bool, s0: GuardState, prefix: string, applicationKey: string,
                       current: Option<string>, read: (bool, map<string, Value>) -> ViewerRead,
                       gerritSignedIn: bool): (Resolution, GuardState)
  {
    var s1 := if isWebRequest then AfterReload(s0, prefix, applicationKey, current) else s0;
    var v1 := read(s1.threadSession, s1.Attributes());
    if v1.Viewer? then (Resolved(1, v1.loggedIn && !gerritSignedIn), s1)
    else
      var s2 := if isWebRequest then AfterForce(s1, prefix, applicationKey, current) else s1.(threadSession := false);
      var v2 := read(s2.threadSession, s2.Attributes());
      if v2.ClassCast? then (Failed(2), s2) else (Resolved(2, v2.loggedIn && !gerritSignedIn), s2)
  }

  /** The reload check is idempotent on the whole guard state. */
  lemma AfterReloadIdempotent(s: GuardState, prefix: string, applicationKey: string, current: Option<string>)
    ensures AfterReload(AfterReload(s, prefix, applicationKey, current), prefix, applicationKey, current) ==
            AfterReload(s, prefix, applicationKey, current)
  {
    if s.attributes.Some? {
      var a := s.attributes.value;
      ReconcileIdempotent(a, prefix, applicationKey, current);
      MarkerAfterReconcile(a, prefix, applicationKey, current);
      if current.Some? {
        assert MarkerIs(Reconcile(a, prefix, applicationKey, current), current);
      }
    }
  }

  /**
   * On a web request with a real session, the session ends the resolution marked with the
   * current instance key, whichever path was taken.
   */
  lemma ResolveLeavesMarker(s0: GuardState, prefix: string, applicationKey: string, current: Option<string>,
                            read: (bool, map<string, Value>) -> ViewerRead, gerritSignedIn: bool)
    requires s0.attributes.Some?
    ensures var r := ResolveSpec(true, s0, prefix, applicationKey, current, read, gerritSignedIn);
            r.1.attributes.Some? && Marker(r.1.attributes.value) == MarkerValue(current)
  {
    MarkerAfterReconcile(s0.attributes.value, prefix, applicationKey, current);
  }

  /**
   * A class-cast on the first read costs exactly one cleanup and one more read; the viewer is
   * logged out exactly when it is logged in while Gerrit's session is not signed in.
   */
  lemma ResolveRetriesOnce(isWebRequest: bool, s0: GuardState, prefix: string, applicationKey: string,
                           current: Option<string>, read: (bool, map<string, Value>) -> ViewerRead, gerritSignedIn: bool)
    ensures var s1 := if isWebRequest then AfterReload(s0, prefix, applicationKey, current) else s0;
            var r := ResolveSpec(isWebRequest, s0, prefix, applicationKey, current, read, gerritSignedIn).0;
            (r.lookups == 1 <==> read(s1.threadSession, s1.Attributes()).Viewer?) &&
            (r.lookups == 1 || r.lookups == 2) &&
            (r.Failed? ==> r.lookups == 2)
  {
  }

  /**
   * Gerrit's sign-in state decides only the viewer's logout: it changes neither the reads nor
   * the state left behind, and a signed-in Gerrit session never logs the viewer out.
   */
  lemma ViewerFollowsGerrit(isWebRequest: bool, s0: GuardState, prefix: string, applicationKey: string,
                            current: Option<string>, read: (bool, map<string, Value>) -> ViewerRead)
    ensures var signedIn := ResolveSpec(isWebRequest, s0, prefix, applicationKey, current, read, true);
            var signedOut := ResolveSpec(isWebRequest, s0, prefix, applicationKey, current, read, false);
            signedIn.1 == signedOut.1 && signedIn.0.lookups == signedOut.0.lookups &&
            signedIn.0.Failed? == signedOut.0.Failed? &&
            (signedIn.0.Resolved? ==> !signedIn.0.viewerLoggedOut)
  {
  }

  /** The request coding strategy: URLs under "summary/" and "project/" are never sent to "static/". */
  function NewRequestCodingStrategy(): (r: StaticCodingStrategy.Strategy)
    ensures forall url :: StaticCodingStrategy.IsMatchingIgnoreUrlPrefixes(r.ignoreResourceUrlPrefixes, url) <==>
              StartsWith(url, "summary/") || StartsWith(url, "project/")
  {
    var r := StaticCodingStrategy.Strategy(["summary/", "project/"]);
    assert forall url :: StaticCodingStrategy.IsMatchingIgnoreUrlPrefixes(r.ignoreResourceUrlPrefixes, url) <==>
                         StartsWith(url, "summary/") || StartsWith(url, "project/") by {
      forall url
        ensures StaticCodingStrategy.IsMatchingIgnoreUrlPrefixes(r.ignoreResourceUrlPrefixes, url) <==>
                StartsWith(url, "summary/") || StartsWith(url, "project/")
      {
        var prefixes := r.ignoreResourceUrlPrefixes;
        if StartsWith(url, "summary/") {
          assert StartsWith(url, prefixes[0]);
        } else if StartsWith(url, "project/") {
          assert StartsWith(url, prefixes[1]);
        }
      }
    }
    r
  }

  lemma SummaryAndProjectUrlsKept(url: string, depth: int)
    requires StartsWith(url, "summary/") || StartsWith(url, "project/")
    ensures StaticCodingStrategy.RewriteStaticRelativeUrl(NewRequestCodingStrategy(), url, depth) ==
            StaticCodingStrategy.Returned(url)
  {
    var strategy := NewRequestCodingStrategy();
    var prefixes := strategy.ignoreResourceUrlPrefixes;
    assert url[0] != '/' by {
      assert url[0] == url[..8][0];
    }
    StaticCodingStrategy.FailsOnlyOnSlashes(strategy, url, depth);
    assert StaticCodingStrategy.IsMatchingIgnoreUrlPrefixes(prefixes, url) by {
      if StartsWith(url, "summary/") {
        assert StartsWith(url, prefixes[0]);
      } else {
        assert StartsWith(url, prefixes[1]);
      }
    }
  }

  /** The application. */
  class WebApp {
    var pluginInstanceKey: Option<string>
    var cacheablePages: map<string, CacheControl>
    var mounted: seq<MountedPage>
    var threadSession: bool
    const applicationKey: string
    const sessionStorePrefix: string
    const settings: GitBlitSettings.Settings

    constructor (applicationKey: string, sessionStorePrefix: string, settings: GitBlitSettings.Settings)
      ensures this.applicationKey == applicationKey && this.sessionStorePrefix == sessionStorePrefix
      ensures this.settings == settings
      ensures pluginInstanceKey.None? && cacheablePages == map[] && mounted == [] && !threadSession
    {
      this.applicationKey := applicationKey;
      this.sessionStorePrefix := sessionStorePrefix;
      this.settings := settings;
      pluginInstanceKey := None;
      cacheablePages := map[];
      mounted := [];
      threadSession := false;
    }

    /** `setPluginInstanceKey(key)`. */
    method SetPluginInstanceKey(key: Option<string>)
      modifies this`pluginInstanceKey
      ensures pluginInstanceKey == key
    {
      pluginInstanceKey := key;
    }

    /** The guard state, given the real session if there is one. */
    function State(realSession: Option<HttpSession>): GuardState
      reads this, if realSession.Some? then {realSession.value} else {}
    {
      GuardState(if realSession.Some? then Some(realSession.value.attributes) else None, threadSession)
    }

    /** `mount(location, clazz, parameters)`; `outOfBounds` is the failure of `substring(1)` on an empty location. */
    method Mount(location: string, page: PageClass, parameters: Option<seq<string>>) returns (outOfBounds: bool)
      modifies this`mounted, this`cacheablePages
      ensures mounted == old(mounted) +
                [MountedPage(location, page, MountParameters(parameters, settings.GetBooleanSetting(MountParametersKey, true)))]
      ensures outOfBounds <==> page.cacheControl.Some? && location == ""
      ensures page.cacheControl.Some? && location != "" ==>
                cacheablePages == old(cacheablePages)[location[1..] := page.cacheControl.value]
      ensures page.cacheControl.None? || location == "" ==> cacheablePages == old(cacheablePages)
    {
      var mountParameters := settings.GetBooleanSetting(MountParametersKey, true);
      mounted := mounted + [MountedPage(location, page, MountParameters(parameters, mountParameters))];
      outOfBounds := false;
      if page.cacheControl.Some? {
        if location == "" {
          outOfBounds := true;
        } else {
          cacheablePages := cacheablePages[location[1..] := page.cacheControl.value];
        }
      }
    }

    /** `isCacheablePage(mountPoint)`. */
    function IsCacheablePage(mountPoint: string): (r: bool)
      reads this
      ensures r <==> GetCacheControl(mountPoint).Some?
    {
      mountPoint in cacheablePages
    }

    /** `getCacheControl(mountPoint)`: present exactly for the cacheable pages. */
    function GetCacheControl(mountPoint: string): (r: Option<CacheControl>)
      reads this
      ensures r.Some? <==> mountPoint in cacheablePages
      ensures r.Some? ==> r.value == cacheablePages[mountPoint]
    {
      if mountPoint in cacheablePages then Some(cacheablePages[mountPoint]) else None
    }

    /** `cleanUp(realSession, request, current)`, removing the store's attributes one by one. */
    method CleanUp(realSession: HttpSession, current: Option<string>)
      modifies this`threadSession, realSession
      ensures realSession.attributes == CleanedUp(old(realSession.attributes), sessionStorePrefix, applicationKey, current)
      ensures !threadSession
    {
      ghost var start := realSession.attributes;
      var names := StoreAttributeNames(realSession.attributes, sessionStorePrefix);
      while names != {}
        invariant names <= StoreAttributeNames(start, sessionStorePrefix)
        invariant realSession.attributes == start - (StoreAttributeNames(start, sessionStorePrefix) - names)
        decreases |names|
      {
        var name :| name in names;
        realSession.RemoveAttribute(name);
        names := names - {name};
      }
      assert realSession.attributes == start - StoreAttributeNames(start, sessionStorePrefix);
      realSession.RemoveAttribute(ListenerAttribute(applicationKey));
      threadSession := false;
      realSession.SetAttribute(InstanceAttribute, MarkerValue(current));
    }

    /** `resetWicketSessionOnPluginReload(requestCycle)`. */
    method ResetWicketSessionOnPluginReload(realSession: Option<HttpSession>)
      modifies this`threadSession, if realSession.Some? then {realSession.value} else {}
      ensures State(realSession) ==
              AfterReload(old(State(realSession)), sessionStorePrefix, applicationKey, pluginInstanceKey)
    {
      if realSession.Some? {
        var session := realSession.value;
        var marker := GetSessionAttribute(session, InstanceAttribute, StringClass);
        var current := pluginInstanceKey;
        if marker.Some? {
          if current != Some(marker.value.s) {
            CleanUp(session, current);
          }
        } else {
          threadSession := false;
          session.SetAttribute(InstanceAttribute, MarkerValue(current));
        }
      } else {
        threadSession := false;
      }
    }

    /** `forceCleanup(requestCycle)`. */
    method ForceCleanup(realSession: Option<HttpSession>)
      modifies this`threadSession, if realSession.Some? then {realSession.value} else {}
      ensures State(realSession) ==
              AfterForce(old(State(realSession)), sessionStorePrefix, applicationKey, pluginInstanceKey)
    {
      if realSession.Some? {
        CleanUp(realSession.value, pluginInstanceKey);
      } else {
        threadSession := false;
      }
    }

    /**
     * `resolve(requestCycle, parameters)` up to `super.resolve`: the reload check on a web
     * request, a read of the viewer session retried once after a class-cast, and the logout
     * of a viewer whose Gerrit session is no longer signed in.
     */
    method Resolve(isWebRequest: bool, realSession: Option<HttpSession>,
                   read: (bool, map<string, Value>) -> ViewerRead, gerritSignedIn: bool) returns (r: Resolution)
      modifies this`threadSession, if realSession.Some? then {realSession.value} else {}
      ensures (r, State(realSession)) ==
              ResolveSpec(isWebRequest, old(State(realSession)), sessionStorePrefix, applicationKey,
                          pluginInstanceKey, read, gerritSignedIn)
    {
      if isWebRequest {
        ResetWicketSessionOnPluginReload(realSession);
      }
      var viewer := read(threadSession, State(realSession).Attributes());
      var lookups := 1;
      if viewer.ClassCast? {
        if isWebRequest {
          ForceCleanup(realSession);
        } else {
          threadSession := false;
        }
        viewer := read(threadSession, State(realSession).Attributes());
        lookups := 2;
      }
      if viewer.ClassCast? {
        return Failed(lookups);
      }
      r := Resolved(lookups, viewer.loggedIn && !gerritSignedIn);
    }
  }
}
