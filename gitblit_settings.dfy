/**
 * `GitBlitSettings`: GitBlit's configuration, layered from the user's `gitblit.properties`
 * (with its recursive includes), the plugin's overridable defaults, the built-in viewer-only
 * settings and a few values derived from Gerrit's own configuration.
 */
module GitBlitSettings {
  import opened Wrappers
  import opened JavaStrings
  import GitBlitUrlsConfig

  type Props = map<string, string>

  const IncludeKey: string := "include"
  const PropertySourceKey: string := "gerrit_gitblit.property_source"
  const AuthenticateViewPagesKey: string := "web.authenticateViewPages"
  const RepositoriesFolderKey: string := "git.repositoriesFolder"
  const UserServiceKey: string := "realm.userService"
  const OtherUrlsKey: string := "web.otherUrls"
  const CanonicalWebUrlKey: string := "gerrit.canonicalWebUrl"
  const UserManagerClassName: string := "com.googlesource.gerrit.plugins.gitblit.auth.GerritGitBlitUserManager"

  // ---------------------------------------------------------------------------
  // Merging

  /**
   * `merge(source, into)`: the entries of `source` whose keys `into` lacks are added; the
   * entries already in `into` keep their values.
   */
  function Merge(source: Props, into: Props): (r: Props)
    ensures r.Keys == source.Keys + into.Keys
    ensures forall k :: k in into ==> r[k] == into[k]
    ensures forall k :: k in source && k !in into ==> r[k] == source[k]
  {
    map k | k in source.Keys + into.Keys :: if k in into then into[k] else source[k]
  }

  /** Merging is a no-op on keys already present, so merging twice changes nothing more. */
  lemma MergeIdempotent(source: Props, into: Props)
    ensures Merge(source, Merge(source, into)) == Merge(source, into)
  {
  }

  // ---------------------------------------------------------------------------
  // The file system seen by include resolution

  /**
   * The files the settings loader can see: the parsed contents of every readable file, the
   * set of paths that exist, and path canonicalisation (`File.getCanonicalFile`), which is
   * not modelled further.
   */
  datatype FileSystem = FileSystem(
    readable: map<string, Props>,
    existing: set<string>,
    canonical: string -> string)

  /** `File.isAbsolute` on a Unix-like system. */
  predicate IsAbsolute(path: string) {
    |path| > 0 && path[0] == '/'
  }

  /** `File.getParentFile().getPath()`; `None` when the path has no parent. */
  function ParentDir(path: string): Option<string> {
    var i := LastIndexOf(path, '/');
    if i > 0 then Some(path[..i]) else if i == 0 && |path| > 1 then Some("/") else None
  }

  /** The path of `new File(dir, name)`. */
  function Child(dir: Option<string>, name: string): string {
    match dir
    case None => name
    case Some(d) => if EndsWith(d, "/") then d + name else d + "/" + name
  }

  /**
   * The file an include names: an absolute name is canonicalised; a relative one is looked
   * up beside the including file first and under the base directory when that does not exist.
   */
  function Resolve(fs: FileSystem, parent: string, baseDir: string, name: string): string {
    if IsAbsolute(name) then fs.canonical(name)
    else
      var besideParent := fs.canonical(Child(ParentDir(parent), name));
      if besideParent in fs.existing then besideParent else fs.canonical(Child(Some(baseDir), name))
  }

  /** The names listed in an include value, separated by commas. */
  function IncludeNames(value: string): seq<string> {
    Pieces(value, ',')
  }

  // ---------------------------------------------------------------------------
  // Includes, as a specification

  /**
   * The properties after `loadIncludedSettings(props, parent, seen)`: the include key is
   * removed and every listed file not on the current chain `seen` is loaded (with its own
   * includes) and merged in underneath.
   */
  function Included(fs: FileSystem, props: Props, parent: string, baseDir: string, seen: set<string>): (r: Props)
    decreases |fs.readable.Keys - seen|, 1
  {
    var rest := props - {IncludeKey};
    if IncludeKey !in props then rest
    else IncludeEach(fs, rest, parent, baseDir, seen, IncludeNames(props[IncludeKey]))
  }

  /** The body of the loop over the listed names, from `names[0]` on. */
  function IncludeEach(fs: FileSystem, into: Props, parent: string, baseDir: string,
                       seen: set<string>, names: seq<string>): (r: Props)
    decreases |fs.readable.Keys - seen|, 0, |names|
  {
    if names == [] then into
    else IncludeEach(fs, IncludeOne(fs, into, parent, baseDir, seen, names[0]), parent, baseDir, seen, names[1..])
  }

  /** One iteration: a blank name, a file on the chain or an unreadable file is skipped. */
  function IncludeOne(fs: FileSystem, into: Props, parent: string, baseDir: string,
                      seen: set<string>, rawName: string): (r: Props)
    decreases |fs.readable.Keys - seen|, 0, 0
  {
    var name := Trim(rawName);
    if name == "" then into
    else
      var file := Resolve(fs, parent, baseDir, name);
      if file in seen || file !in fs.readable then into
      else
        SeenShrinks(fs.readable.Keys, seen, file);
        Merge(Included(fs, fs.readable[file], file, baseDir, seen + {file}), into)
  }

  lemma SeenShrinks(files: set<string>, seen: set<string>, file: string)
    requires file in files && file !in seen
    ensures |files - (seen + {file})| < |files - seen|
  {
    var smaller := files - (seen + {file});
    assert files - seen == smaller + {file};
    assert file !in smaller;
  }

  /** What including adds never replaces a value of the including properties, and it adds no include key. */
  lemma {:induction false} IncludedKeepsOwnValues(fs: FileSystem, props: Props, parent: string, baseDir: string,
                                                  seen: set<string>)
    ensures IncludeKey !in Included(fs, props, parent, baseDir, seen)
    ensures forall k :: k in props && k != IncludeKey ==>
              k in Included(fs, props, parent, baseDir, seen) && Included(fs, props, parent, baseDir, seen)[k] == props[k]
    decreases |fs.readable.Keys - seen|, 1
  {
    if IncludeKey in props {
      IncludeEachKeepsValues(fs, props - {IncludeKey}, parent, baseDir, seen, IncludeNames(props[IncludeKey]));
    }
  }

  lemma {:induction false} IncludeEachKeepsValues(fs: FileSystem, into: Props, parent: string, baseDir: string,
                                                  seen: set<string>, names: seq<string>)
    requires IncludeKey !in into
    ensures IncludeKey !in IncludeEach(fs, into, parent, baseDir, seen, names)
    ensures forall k :: k in into ==>
              k in IncludeEach(fs, into, parent, baseDir, seen, names) &&
              IncludeEach(fs, into, parent, baseDir, seen, names)[k] == into[k]
    decreases |fs.readable.Keys - seen|, 0, |names|
  {
    if names != [] {
      var next := IncludeOne(fs, into, parent, baseDir, seen, names[0]);
      var name := Trim(names[0]);
      if name != "" {
        var file := Resolve(fs, parent, baseDir, name);
        if file !in seen && file in fs.readable {
          SeenShrinks(fs.readable.Keys, seen, file);
          IncludedKeepsOwnValues(fs, fs.readable[file], file, baseDir, seen + {file});
        }
      }
      IncludeEachKeepsValues(fs, next, parent, baseDir, seen, names[1..]);
    }
  }

  /** A file that includes itself adds nothing: the cycle guard skips it. */
  lemma {:induction false} SelfIncludeAddsNothing(fs: FileSystem, props: Props, parent: string, baseDir: string)
    requires IncludeKey in props
    requires forall n :: n in IncludeNames(props[IncludeKey]) ==>
               Trim(n) == "" || Resolve(fs, parent, baseDir, Trim(n)) == parent
    ensures Included(fs, props, parent, baseDir, {parent}) == props - {IncludeKey}
  {
    SkippedNamesAddNothing(fs, props - {IncludeKey}, parent, baseDir, {parent}, IncludeNames(props[IncludeKey]));
  }

  lemma {:induction false} SkippedNamesAddNothing(fs: FileSystem, into: Props, parent: string, baseDir: string,
                                                  seen: set<string>, names: seq<string>)
    requires forall n :: n in names ==> Trim(n) == "" || Resolve(fs, parent, baseDir, Trim(n)) in seen
    ensures IncludeEach(fs, into, parent, baseDir, seen, names) == into
    decreases |names|
  {
    if names != [] {
      assert names[0] in names;
      assert forall n :: n in names[1..] ==> n in names;
      SkippedNamesAddNothing(fs, into, parent, baseDir, seen, names[1..]);
    }
  }

  // ---------------------------------------------------------------------------
  // The mutable objects

  /** A `java.util.Properties` object. */
  class Properties {
    var entries: Props

    constructor (entries: Props)
      ensures this.entries == entries
    {
      this.entries := entries;
    }

    /** `merge(source, this)`: a loop over the entries of `source`. */
    method MergeFrom(source: Props)
      modifies this
      ensures entries == Merge(source, old(entries))
    {
      ghost var before := entries;
      var pending := source.Keys;
      while pending != {}
        invariant pending <= source.Keys
        invariant entries.Keys == before.Keys + (source.Keys - pending)
        invariant forall k :: k in before ==> entries[k] == before[k]
        invariant forall k :: k in entries && k !in before ==> entries[k] == source[k]
        decreases pending
      {
        var k :| k in pending;
        if k !in entries {
          entries := entries[k := source[k]];
        }
        pending := pending - {k};
      }
      ghost var merged := Merge(source, before);
      assert entries.Keys == merged.Keys;
      forall k | k in entries
        ensures entries[k] == merged[k]
      {
      }
    }

    /** `Properties.load` over existing entries: every loaded entry overwrites. */
    method PutAll(loaded: Props)
      modifies this
      ensures entries == old(entries) + loaded
    {
      entries := entries + loaded;
    }

    method Remove(key: string)
      modifies this
      ensures entries == old(entries) - {key}
    {
      entries := entries - {key};
    }

    method Put(key: string, value: string)
      modifies this
      ensures entries == old(entries)[key := value]
    {
      entries := entries[key := value];
    }
  }

  /** The `alreadySeen` set of files on the current include chain. */
  class FileChain {
    var files: set<string>

    constructor (files: set<string>)
      ensures this.files == files
    {
      this.files := files;
    }

    method Add(file: string)
      modifies this
      ensures files == old(files) + {file}
    {
      files := files + {file};
    }

    method Remove(file: string)
      modifies this
      ensures files == old(files) - {file}
    {
      files := files - {file};
    }
  }

  /**
   * `loadIncludedSettings(properties, parent, alreadySeen)`: the properties become what
   * `Included` says, and the chain set is left as it was found.
   */
  method LoadIncludedSettings(fs: FileSystem, baseDir: string, properties: Properties, parent: string, chain: FileChain)
    modifies properties, chain
    ensures properties.entries == Included(fs, old(properties.entries), parent, baseDir, old(chain.files))
    ensures chain.files == old(chain.files)
    decreases |fs.readable.Keys - chain.files|, 1
  {
    var original := properties.entries;
    var seen := chain.files;
    properties.Remove(IncludeKey);
    if IncludeKey !in original {
      return;
    }
    var names := IncludeNames(original[IncludeKey]);
    var i := 0;
    while i < |names|
      invariant 0 <= i <= |names|
      invariant chain.files == seen
      invariant IncludeEach(fs, original - {IncludeKey}, parent, baseDir, seen, names) ==
                IncludeEach(fs, properties.entries, parent, baseDir, seen, names[i..])
    {
      assert names[i..][1..] == names[i + 1..];
      IncludeName(fs, baseDir, properties, parent, chain, names[i]);
      i := i + 1;
    }
    assert names[|names|..] == [];
  }

  /** One pass of the loop in `loadIncludedSettings`: the named file, unless skipped, is loaded and merged underneath. */
  method IncludeName(fs: FileSystem, baseDir: string, properties: Properties, parent: string, chain: FileChain,
                     rawName: string)
    modifies properties, chain
    ensures properties.entries == IncludeOne(fs, old(properties.entries), parent, baseDir, old(chain.files), rawName)
    ensures chain.files == old(chain.files)
    decreases |fs.readable.Keys - chain.files|, 0
  {
    var fileName := Trim(rawName);
    if fileName != "" {
      var file := Resolve(fs, parent, baseDir, fileName);
      if file !in chain.files && file in fs.readable {
        ghost var seen := chain.files;
        chain.Add(file);
        SeenShrinks(fs.readable.Keys, seen, file);
        var nested := new Properties(fs.readable[file]);
        LoadIncludedSettings(fs, baseDir, nested, file, chain);
        properties.MergeFrom(nested.entries);
        chain.Remove(file);
        assert chain.files == seen by {
          assert file !in seen;
        }
      }
    }
  }

  // ---------------------------------------------------------------------------
  // Layering, as a specification

  /**
   * Gerrit-derived inputs of `load`: `getGitHttpUrl()` answers a URL or fails looking up the
   * local host, and that failure escapes `load`.
   */
  datatype GerritValues = GerritValues(
    gitHttpUrl: GitBlitUrlsConfig.HttpUrl,
    gitSshUrl: string,
    canonicalWebUrl: Option<string>,
    gitDirectory: string)

  /** The user file, with its includes and the property-source marker, or nothing when it is unreadable. */
  function UserLayer(fs: FileSystem, userFile: string, baseDir: string): Props {
    if userFile in fs.readable then
      Included(fs, fs.readable[userFile], userFile, baseDir, {userFile})[PropertySourceKey := userFile]
    else map[]
  }

  /**
   * The layers before the Gerrit-derived values: user file, defaults underneath, built-in on
   * top, except that `web.authenticateViewPages` keeps the value the first two layers gave it.
   */
  function Layered(user: Props, defaults: Props, builtIn: Props): (r: Props)
    ensures r.Keys == user.Keys + defaults.Keys + builtIn.Keys
    ensures forall k :: k in builtIn && k != AuthenticateViewPagesKey ==> r[k] == builtIn[k]
    ensures forall k :: k !in builtIn && k in user ==> r[k] == user[k]
    ensures forall k :: k !in builtIn && k !in user && k in defaults ==> r[k] == defaults[k]
    ensures AuthenticateViewPagesKey in user ==> r[AuthenticateViewPagesKey] == user[AuthenticateViewPagesKey]
    ensures AuthenticateViewPagesKey !in user && AuthenticateViewPagesKey in defaults ==>
              r[AuthenticateViewPagesKey] == defaults[AuthenticateViewPagesKey]
  {
    var merged := Merge(defaults, user);
    var overwritten := merged + builtIn;
    if AuthenticateViewPagesKey in merged then overwritten[AuthenticateViewPagesKey := merged[AuthenticateViewPagesKey]]
    else overwritten
  }

  /** Gerrit's clone URLs, separated by a space and trimmed. */
  function GerritDefaultUrls(gitHttpUrl: string, gitSshUrl: string): string {
    Trim(gitHttpUrl + " " + gitSshUrl)
  }

  /** The clone URLs Gerrit advertises, ahead of any the user configured, one space between. */
  function OtherUrls(gitHttpUrl: string, gitSshUrl: string, layered: Props): (r: string)
    ensures OtherUrlsKey !in layered ==> r == GerritDefaultUrls(gitHttpUrl, gitSshUrl)
    ensures OtherUrlsKey in layered ==> r == GerritDefaultUrls(gitHttpUrl, gitSshUrl) + " " + layered[OtherUrlsKey]
  {
    var gerritUrls := GerritDefaultUrls(gitHttpUrl, gitSshUrl);
    if OtherUrlsKey in layered then gerritUrls + " " + layered[OtherUrlsKey] else gerritUrls
  }

  /** The configured URLs are kept whole after Gerrit's: cutting Gerrit's part and the space gives them back. */
  lemma {:induction false} OtherUrlsKeepConfigured(gitHttpUrl: string, gitSshUrl: string, layered: Props)
    requires OtherUrlsKey in layered
    ensures var r := OtherUrls(gitHttpUrl, gitSshUrl, layered);
            var n := |GerritDefaultUrls(gitHttpUrl, gitSshUrl)|;
            StartsWith(r, GerritDefaultUrls(gitHttpUrl, gitSshUrl)) && r[n] == ' ' && r[n + 1..] == layered[OtherUrlsKey]
  {
    var g := GerritDefaultUrls(gitHttpUrl, gitSshUrl);
    var r := OtherUrls(gitHttpUrl, gitSshUrl, layered);
    assert r == g + (" " + layered[OtherUrlsKey]);
    assert r[..|g|] == g;
    assert r[|g| + 1..] == layered[OtherUrlsKey];
  }

  /** Why `load` fails: no built-in settings, or the local host lookup for the HTTP clone URL. */
  datatype LoadFailure = BuiltInMissing | UnknownHostFailure

  /** What `load` leaves in the properties, or the exception it throws. */
  datatype LoadOutcome = LoadedProps(props: Props) | Failed(failure: LoadFailure)

  /** The keys `load` sets itself after layering. */
  const ForcedKeys: set<string> := {RepositoriesFolderKey, UserServiceKey, OtherUrlsKey, CanonicalWebUrlKey}

  /**
   * `load`: the layered settings with the Gerrit-derived values set on top. The built-in
   * settings are looked for before Gerrit's clone URLs are asked for.
   */
  function Loaded(fs: FileSystem, userFile: string, baseDir: string, defaults: Props,
                  builtIn: Option<Props>, gerrit: GerritValues): (r: LoadOutcome)
    ensures r == Failed(BuiltInMissing) <==> builtIn.None?
    ensures r == Failed(UnknownHostFailure) <==> builtIn.Some? && gerrit.gitHttpUrl.HttpLookupFailed?
    ensures r.LoadedProps? ==>
              var layered := Layered(UserLayer(fs, userFile, baseDir), defaults, builtIn.value);
              RepositoriesFolderKey in r.props && r.props[RepositoriesFolderKey] == gerrit.gitDirectory &&
              UserServiceKey in r.props && r.props[UserServiceKey] == UserManagerClassName &&
              OtherUrlsKey in r.props && r.props[OtherUrlsKey] == OtherUrls(gerrit.gitHttpUrl.url, gerrit.gitSshUrl, layered) &&
              (!IsNullOrEmpty(gerrit.canonicalWebUrl) ==>
                 CanonicalWebUrlKey in r.props && r.props[CanonicalWebUrlKey] == gerrit.canonicalWebUrl.value) &&
              (IsNullOrEmpty(gerrit.canonicalWebUrl) ==>
                 (CanonicalWebUrlKey in r.props <==> CanonicalWebUrlKey in layered) &&
                 (CanonicalWebUrlKey in layered ==> r.props[CanonicalWebUrlKey] == layered[CanonicalWebUrlKey]))
    ensures r.LoadedProps? ==>
              var layered := Layered(UserLayer(fs, userFile, baseDir), defaults, builtIn.value);
              forall k :: k !in ForcedKeys ==> (k in r.props <==> k in layered) && (k in layered ==> r.props[k] == layered[k])
  {
    if builtIn.None? then Failed(BuiltInMissing)
    else if gerrit.gitHttpUrl.HttpLookupFailed? then Failed(UnknownHostFailure)
    else
      var layered := Layered(UserLayer(fs, userFile, baseDir), defaults, builtIn.value);
      var forced := layered[RepositoriesFolderKey := gerrit.gitDirectory][UserServiceKey := UserManagerClassName];
      var withUrls := forced[OtherUrlsKey := OtherUrls(gerrit.gitHttpUrl.url, gerrit.gitSshUrl, forced)];
      assert OtherUrls(gerrit.gitHttpUrl.url, gerrit.gitSshUrl, forced) == OtherUrls(gerrit.gitHttpUrl.url, gerrit.gitSshUrl, layered) by {
        ForcedKeysDiffer();
      }
      LoadedProps(if IsNullOrEmpty(gerrit.canonicalWebUrl) then withUrls
                  else withUrls[CanonicalWebUrlKey := gerrit.canonicalWebUrl.value])
  }

  /** The keys `load` sets itself are all different from one another and from `web.authenticateViewPages`. */
  lemma ForcedKeysDiffer()
    ensures AuthenticateViewPagesKey !in ForcedKeys
    ensures |ForcedKeys| == 4
  {
    assert |AuthenticateViewPagesKey| == 25;
    assert |RepositoriesFolderKey| == 22 && |UserServiceKey| == 17 && |OtherUrlsKey| == 13 && |CanonicalWebUrlKey| == 22;
    assert RepositoriesFolderKey[1] != CanonicalWebUrlKey[1];
  }

  /** The user's value of `web.authenticateViewPages` survives the built-in layer. */
  lemma AuthenticateViewPagesOverridable(fs: FileSystem, userFile: string, baseDir: string, defaults: Props,
                                         builtIn: Props, gerrit: GerritValues)
    requires AuthenticateViewPagesKey in UserLayer(fs, userFile, baseDir)
    requires gerrit.gitHttpUrl.HttpUrl?
    ensures Loaded(fs, userFile, baseDir, defaults, Some(builtIn), gerrit).props[AuthenticateViewPagesKey] ==
            UserLayer(fs, userFile, baseDir)[AuthenticateViewPagesKey]
  {
    ForcedKeysDiffer();
  }

  /** Without the user's value, the defaults' `web.authenticateViewPages` survives the built-in layer. */
  lemma AuthenticateViewPagesDefaultKept(fs: FileSystem, userFile: string, baseDir: string, defaults: Props,
                                         builtIn: Props, gerrit: GerritValues)
    requires AuthenticateViewPagesKey !in UserLayer(fs, userFile, baseDir) && AuthenticateViewPagesKey in defaults
    requires gerrit.gitHttpUrl.HttpUrl?
    ensures Loaded(fs, userFile, baseDir, defaults, Some(builtIn), gerrit).props[AuthenticateViewPagesKey] ==
            defaults[AuthenticateViewPagesKey]
  {
    ForcedKeysDiffer();
  }

  // ---------------------------------------------------------------------------
  // IStoredSettings

  /**
   * `getBoolean(name, default)`: a present value that is not blank is read as a boolean,
   * "true" in any case meaning true; otherwise the default.
   */
  function GetBoolean(props: Props, name: string, default: bool): (r: bool)
    ensures name !in props ==> r == default
    ensures name in props && Trim(props[name]) == "" ==> r == default
    ensures name in props && props[name] == "true" ==> r
    ensures name in props && Trim(props[name]) != "" ==> (r <==> ToLower(Trim(props[name])) == "true")
  {
    if name in props && Trim(props[name]) != "" then EqualsIgnoreCase(Trim(props[name]), "true") else default
  }

  /** The settings object the rest of GitBlit reads. */
  class Settings {
    var properties: Props

    /** The constructor's `load`; `None` stands for the exception thrown without built-in settings. */
    static method Load(fs: FileSystem, userFile: string, baseDir: string, defaults: Props,
                       builtIn: Option<Props>, gerrit: GerritValues) returns (s: Option<Settings>)
      ensures s.Some? <==> Loaded(fs, userFile, baseDir, defaults, builtIn, gerrit).LoadedProps?
      ensures s.Some? ==> fresh(s.value) && s.value.properties == Loaded(fs, userFile, baseDir, defaults, builtIn, gerrit).props
    {
      var properties := new Properties(map[]);
      if userFile in fs.readable {
        properties.PutAll(fs.readable[userFile]);
        assert properties.entries == fs.readable[userFile];
        var chain := new FileChain({userFile});
        LoadIncludedSettings(fs, baseDir, properties, userFile, chain);
        properties.Put(PropertySourceKey, userFile);
      }
      assert properties.entries == UserLayer(fs, userFile, baseDir);
      properties.MergeFrom(defaults);
      var authenticationRequired: Option<string> := None;
      if AuthenticateViewPagesKey in properties.entries {
        authenticationRequired := Some(properties.entries[AuthenticateViewPagesKey]);
      }
      if builtIn.None? {
        return None;
      }
      properties.PutAll(builtIn.value);
      if authenticationRequired.Some? {
        properties.Put(AuthenticateViewPagesKey, authenticationRequired.value);
      }
      assert properties.entries == Layered(UserLayer(fs, userFile, baseDir), defaults, builtIn.value);
      properties.Put(RepositoriesFolderKey, gerrit.gitDirectory);
      properties.Put(UserServiceKey, UserManagerClassName);
      ghost var forced := properties.entries;
      if gerrit.gitHttpUrl.HttpLookupFailed? {
        return None;
      }
      var gerritDefaultUrls := Trim(gerrit.gitHttpUrl.url + " " + gerrit.gitSshUrl);
      if OtherUrlsKey in properties.entries {
        properties.Put(OtherUrlsKey, gerritDefaultUrls + " " + properties.entries[OtherUrlsKey]);
      } else {
        properties.Put(OtherUrlsKey, gerritDefaultUrls);
      }
      assert properties.entries == forced[OtherUrlsKey := OtherUrls(gerrit.gitHttpUrl.url, gerrit.gitSshUrl, forced)];
      if !IsNullOrEmpty(gerrit.canonicalWebUrl) {
        properties.Put(CanonicalWebUrlKey, gerrit.canonicalWebUrl.value);
      }
      var settings := new Settings.Init(properties.entries);
      return Some(settings);
    }

    constructor Init(properties: Props)
      ensures this.properties == properties
    {
      this.properties := properties;
    }

    function GetBooleanSetting(name: string, default: bool): (r: bool)
      reads this
      ensures name !in properties ==> r == default
      ensures name in properties && Trim(properties[name]) != "" ==> (r <==> ToLower(Trim(properties[name])) == "true")
    {
      GetBoolean(properties, name, default)
    }

    /** `saveSettings(updatedSettings)`: every given entry overwrites, and the answer is true. */
    method SaveSettings(updated: Props) returns (saved: bool)
      modifies this
      ensures properties == old(properties) + updated
      ensures saved
    {
      properties := properties + updated;
      saved := true;
    }

    /** `saveSettings()`: nothing is written back to disk. */
    method SaveToDisk() returns (saved: bool)
      ensures !saved
    {
      saved := false;
    }
  }
}
