/**
 * `GitBlitWebUrls`: the links Gerrit shows next to projects, changes, branches, tags and
 * files, each pointing at a GitBlit page below the plugin's base URL with the objects named
 * in the query string.
 */
module GitBlitWebUrls {
  import opened Wrappers
  import opened JavaStrings

  const DefaultLinkName: string := "Gitblit"

  /** The plugin's canonical URL as `new URL(pluginUrl)` sees it: absent, malformed, or with a path. */
  datatype PluginUrl = NoPluginUrl | Malformed | WellFormed(path: string)

  /** `Target.BLANK`, the one target the links use. */
  datatype Target = Blank

  /** Gerrit's `WebLinkInfo(name, imageUrl, url, target)`. */
  datatype WebLinkInfo = WebLinkInfo(name: string, imageUrl: Option<string>, url: string, target: Target)

  /** The two final fields the constructor computes. */
  datatype WebUrls = WebUrls(name: string, baseUrl: string)

  /** The constructor's base URL: the plugin URL's path with a trailing '/', else "/plugins/<name>/". */
  function BaseUrl(pluginName: string, pluginUrl: PluginUrl): (r: string)
    ensures EndsWith(r, "/")
    ensures pluginUrl.WellFormed? ==> StartsWith(r, pluginUrl.path) && |r| <= |pluginUrl.path| + 1
    ensures !pluginUrl.WellFormed? ==> r == "/plugins/" + pluginName + "/"
  {
    match pluginUrl
    case WellFormed(path) => WithTrailingSlash(path)
    case _ =>
      var r := "/plugins/" + pluginName + "/";
      assert r[|r| - 1..] == "/";
      r
  }

  /** The link name: `plugin.<name>.linkname`, else `gitweb.linkname`, else "Gitblit"; empty values count as unset. */
  function LinkName(pluginLinkName: Option<string>, gitwebLinkName: Option<string>): (r: string)
    ensures r != ""
    ensures !IsNullOrEmpty(pluginLinkName) ==> r == pluginLinkName.value
    ensures IsNullOrEmpty(pluginLinkName) && !IsNullOrEmpty(gitwebLinkName) ==> r == gitwebLinkName.value
    ensures IsNullOrEmpty(pluginLinkName) && IsNullOrEmpty(gitwebLinkName) ==> r == DefaultLinkName
  {
    if !IsNullOrEmpty(pluginLinkName) then pluginLinkName.value
    else if !IsNullOrEmpty(gitwebLinkName) then gitwebLinkName.value
    else DefaultLinkName
  }

  /** `GitBlitWebUrls(pluginName, pluginUrl, config)`. */
  function NewWebUrls(pluginName: string, pluginUrl: PluginUrl, pluginLinkName: Option<string>,
                      gitwebLinkName: Option<string>): (u: WebUrls)
    ensures u.name != "" && EndsWith(u.baseUrl, "/")
  {
    WebUrls(LinkName(pluginLinkName, gitwebLinkName), BaseUrl(pluginName, pluginUrl))
  }

  // ---------------------------------------------------------------------------
  // Query strings

  /** A query parameter. */
  datatype Parameter = Parameter(key: string, value: string)

  /** The query string "k1=v1&k2=v2…" the format strings produce. */
  function FormatQuery(parameters: seq<Parameter>): string
    requires |parameters| >= 1
  {
    var head := parameters[0].key + "=" + parameters[0].value;
    if |parameters| == 1 then head else head + "&" + FormatQuery(parameters[1..])
  }

  /** Two parameters are written "k1=v1&k2=v2". */
  lemma FormatTwo(a: Parameter, b: Parameter)
    ensures FormatQuery([a, b]) == a.key + "=" + a.value + "&" + b.key + "=" + b.value
  {
    assert [a, b][1..] == [b];
  }

  /** Three parameters are written "k1=v1&k2=v2&k3=v3". */
  lemma FormatThree(a: Parameter, b: Parameter, c: Parameter)
    ensures FormatQuery([a, b, c]) == a.key + "=" + a.value + "&" + b.key + "=" + b.value + "&" + c.key + "=" + c.value
  {
    assert [a, b, c][1..] == [b, c];
    FormatTwo(b, c);
  }

  /** One "key=value" piece, split at its first '='. */
  function ParseParameter(piece: string): Parameter {
    var i := IndexOf(piece, "=");
    if i == -1 then Parameter(piece, "") else Parameter(piece[..i], piece[i + 1..])
  }

  /** A query string read back as its '&'-separated parameters. */
  function ParseQuery(query: string): (r: seq<Parameter>)
    ensures |r| >= 1
  {
    var pieces := Pieces(query, '&');
    seq(|pieces|, k requires 0 <= k < |pieces| => ParseParameter(pieces[k]))
  }

  /** The text after the first '?' of a URL, if there is one. */
  function QueryOf(url: string): (r: Option<string>)
    ensures r.Some? ==> EndsWith(url, r.value)
  {
    var i := IndexOf(url, "?");
    if i == -1 then None
    else
      assert url[|url| - |url[i + 1..]|..] == url[i + 1..];
      Some(url[i + 1..])
  }

  /** Keys without '=' or '&', and values without '&'. */
  predicate Separable(parameters: seq<Parameter>) {
    forall k :: 0 <= k < |parameters| ==>
      '=' !in parameters[k].key && '&' !in parameters[k].key && '&' !in parameters[k].value
  }

  /** A key and a value joined with '=' are split back at that '='. */
  lemma ParseParameterRoundTrip(p: Parameter)
    requires '=' !in p.key
    ensures ParseParameter(p.key + "=" + p.value) == p
  {
    var piece := p.key + "=" + p.value;
    assert OccursAt(piece, "=", |p.key|) by {
      assert piece[|p.key|..|p.key| + 1] == "=";
    }
    forall j | 0 <= j < |p.key|
      ensures !OccursAt(piece, "=", j)
    {
      assert piece[j] == p.key[j];
    }
    IndexOfFirstOccurrence(piece, "=", |p.key|);
    assert piece[..|p.key|] == p.key;
    assert piece[|p.key| + 1..] == p.value;
  }

  /** A separable parameter written out holds no '&'. */
  lemma PieceHasNoAmpersand(p: Parameter)
    requires '&' !in p.key && '&' !in p.value
    ensures '&' !in p.key + "=" + p.value
  {
    var head := p.key + "=" + p.value;
    forall k | 0 <= k < |head| ensures head[k] != '&' {
      if k < |p.key| {
        assert head[k] == p.key[k];
      } else if k > |p.key| {
        assert head[k] == p.value[k - |p.key| - 1];
      }
    }
  }

  /** Reading a formatted query gives its parameters back. */
  lemma {:induction false} ParseFormatQuery(parameters: seq<Parameter>)
    requires |parameters| >= 1 && Separable(parameters)
    ensures ParseQuery(FormatQuery(parameters)) == parameters
    decreases |parameters|
  {
    var p := parameters[0];
    var head := p.key + "=" + p.value;
    PieceHasNoAmpersand(p);
    ParseParameterRoundTrip(p);
    if |parameters| == 1 {
      PiecesWithoutDelimiter(head, '&');
    } else {
      var rest := parameters[1..];
      SeparableTail(parameters);
      ParseFormatQuery(rest);
      var tail := FormatQuery(rest);
      PiecesAfterSegment(head, '&', tail);
      assert FormatQuery(parameters) == head + ['&'] + tail;
      ParseQueryAfterPiece(head, tail);
    }
  }

  /** The parameters after the first of a separable list are separable. */
  lemma SeparableTail(parameters: seq<Parameter>)
    requires |parameters| >= 1 && Separable(parameters)
    ensures Separable(parameters[1..])
  {
    var rest := parameters[1..];
    forall k | 0 <= k < |rest| ensures '=' !in rest[k].key && '&' !in rest[k].key && '&' !in rest[k].value {
      assert rest[k] == parameters[k + 1];
    }
  }

  /** A piece split off in front of a query adds one parameter in front. */
  lemma ParseQueryAfterPiece(head: string, tail: string)
    requires Pieces(head + ['&'] + tail, '&') == [head] + Pieces(tail, '&')
    ensures ParseQuery(head + ['&'] + tail) == [ParseParameter(head)] + ParseQuery(tail)
  {
    ParseEachAfterFirst(Pieces(head + ['&'] + tail, '&'), head, Pieces(tail, '&'));
  }

  /** Parsing each piece of `[head] + rest` parses `head`, then each piece of `rest`. */
  lemma ParseEachAfterFirst(pieces: seq<string>, head: string, rest: seq<string>)
    requires pieces == [head] + rest
    ensures seq(|pieces|, k requires 0 <= k < |pieces| => ParseParameter(pieces[k])) ==
            [ParseParameter(head)] + seq(|rest|, k requires 0 <= k < |rest| => ParseParameter(rest[k]))
  {
    var r := seq(|pieces|, k requires 0 <= k < |pieces| => ParseParameter(pieces[k]));
    var t := seq(|rest|, k requires 0 <= k < |rest| => ParseParameter(rest[k]));
    forall k | 1 <= k < |r| ensures r[k] == t[k - 1] {
      assert pieces[k] == rest[k - 1];
    }
  }

  /** The URL of a page of the web interface: the base, the page, then the query. */
  function PageUrl(baseUrl: string, page: string, parameters: seq<Parameter>): (r: string)
    requires |parameters| >= 1
    ensures StartsWith(r, baseUrl + page + "?")
  {
    var r := baseUrl + page + "?" + FormatQuery(parameters);
    assert r[..|baseUrl + page + "?"|] == baseUrl + page + "?";
    r
  }

  /** When neither the base nor the page holds a '?', the query of a page URL reads back to its parameters. */
  lemma PageUrlParameters(baseUrl: string, page: string, parameters: seq<Parameter>)
    requires '?' !in baseUrl && '?' !in page
    requires |parameters| >= 1 && Separable(parameters)
    ensures QueryOf(PageUrl(baseUrl, page, parameters)).Some?
    ensures ParseQuery(QueryOf(PageUrl(baseUrl, page, parameters)).value) == parameters
  {
    var front := baseUrl + page;
    var url := PageUrl(baseUrl, page, parameters);
    assert OccursAt(url, "?", |front|) by {
      assert url[|front|..|front| + 1] == "?";
    }
    forall j | 0 <= j < |front|
      ensures !OccursAt(url, "?", j)
    {
      assert url[j] == front[j];
      if j < |baseUrl| {
        assert front[j] == baseUrl[j];
      } else {
        assert front[j] == page[j - |baseUrl|];
      }
    }
    IndexOfFirstOccurrence(url, "?", |front|);
    assert url[|front| + 1..] == FormatQuery(parameters);
    ParseFormatQuery(parameters);
  }

  // ---------------------------------------------------------------------------
  // The links

  /** A link to a GitBlit page, with the plugin's link name and a blank target. */
  function Link(u: WebUrls, page: string, parameters: seq<Parameter>): (r: WebLinkInfo)
    requires |parameters| >= 1
    ensures r.name == u.name && r.imageUrl.None? && r.target == Blank
    ensures StartsWith(r.url, u.baseUrl + page + "?")
  {
    WebLinkInfo(u.name, None, PageUrl(u.baseUrl, page, parameters), Blank)
  }

  /** `getProjectWeblink(projectName)`: the project's summary page. */
  function ProjectWebLink(u: WebUrls, projectName: string): (r: WebLinkInfo)
    ensures r.name == u.name && r.imageUrl.None? && r.target == Blank
    ensures r.url == u.baseUrl + "summary/?r=" + projectName
  {
    Link(u, "summary/", [Parameter("r", projectName)])
  }

  /** `getPatchSetWebLink(projectName, commit)`: the commit page. */
  function PatchSetWebLink(u: WebUrls, projectName: string, commit: string): (r: WebLinkInfo)
    ensures r.name == u.name && r.imageUrl.None? && r.target == Blank
    ensures r.url == u.baseUrl + "commit/?r=" + projectName + "&h=" + commit
  {
    FormatTwo(Parameter("r", projectName), Parameter("h", commit));
    Link(u, "commit/", [Parameter("r", projectName), Parameter("h", commit)])
  }

  /** `getParentWebLink(projectName, commit)`: the parent commit's page, formatted as a patch-set link. */
  function ParentWebLink(u: WebUrls, projectName: string, commit: string): (r: WebLinkInfo)
    ensures r == PatchSetWebLink(u, projectName, commit)
  {
    PatchSetWebLink(u, projectName, commit)
  }

  /** `getFileWebLink(projectName, revision, fileName)`: the file's blob page. */
  function FileWebLink(u: WebUrls, projectName: string, revision: string, fileName: string): (r: WebLinkInfo)
    ensures r.name == u.name && r.imageUrl.None? && r.target == Blank
    ensures r.url == u.baseUrl + "blob/?r=" + projectName + "&h=" + revision + "&f=" + fileName
  {
    FormatThree(Parameter("r", projectName), Parameter("h", revision), Parameter("f", fileName));
    Link(u, "blob/", [Parameter("r", projectName), Parameter("h", revision), Parameter("f", fileName)])
  }

  /** `getBranchWebLink(projectName, branchName)`: the branch's log. */
  function BranchWebLink(u: WebUrls, projectName: string, branchName: string): (r: WebLinkInfo)
    ensures r.name == u.name && r.imageUrl.None? && r.target == Blank
    ensures r.url == u.baseUrl + "log/?r=" + projectName + "&h=" + branchName
  {
    FormatTwo(Parameter("r", projectName), Parameter("h", branchName));
    Link(u, "log/", [Parameter("r", projectName), Parameter("h", branchName)])
  }

  /** `getTagWebLink(projectName, tagName)`: the tag's log, formatted as a branch link. */
  function TagWebLink(u: WebUrls, projectName: string, tagName: string): (r: WebLinkInfo)
    ensures r == BranchWebLink(u, projectName, tagName)
  {
    Link(u, "log/", [Parameter("r", projectName), Parameter("h", tagName)])
  }

  /** `getFileHistoryWebLink(projectName, revision, fileName)`: the file's history, file first. */
  function FileHistoryWebLink(u: WebUrls, projectName: string, revision: string, fileName: string): (r: WebLinkInfo)
    ensures r.name == u.name && r.imageUrl.None? && r.target == Blank
    ensures r.url == u.baseUrl + "history/?f=" + fileName + "&r=" + projectName + "&h=" + revision
  {
    FormatThree(Parameter("f", fileName), Parameter("r", projectName), Parameter("h", revision));
    Link(u, "history/", [Parameter("f", fileName), Parameter("r", projectName), Parameter("h", revision)])
  }

  /** A link's query reads back to the parameters it was formatted from. */
  lemma LinkParameters(u: WebUrls, page: string, parameters: seq<Parameter>)
    requires '?' !in u.baseUrl && '?' !in page
    requires |parameters| >= 1 && Separable(parameters)
    ensures QueryOf(Link(u, page, parameters).url).Some?
    ensures ParseQuery(QueryOf(Link(u, page, parameters).url).value) == parameters
  {
    PageUrlParameters(u.baseUrl, page, parameters);
  }

  /** Names without '&' reach the summary and commit pages unchanged. */
  lemma ProjectAndCommitLinksNameTheirObjects(u: WebUrls, project: string, commit: string)
    requires '?' !in u.baseUrl && '&' !in project && '&' !in commit
    ensures var q := QueryOf(ProjectWebLink(u, project).url);
            q.Some? && ParseQuery(q.value) == [Parameter("r", project)]
    ensures var q := QueryOf(PatchSetWebLink(u, project, commit).url);
            q.Some? && ParseQuery(q.value) == [Parameter("r", project), Parameter("h", commit)]
  {
    LinkParameters(u, "summary/", [Parameter("r", project)]);
    LinkParameters(u, "commit/", [Parameter("r", project), Parameter("h", commit)]);
  }

  /** Names without '&' reach the log page unchanged, for branches and tags alike. */
  lemma BranchLinkNamesItsObjects(u: WebUrls, project: string, branch: string)
    requires '?' !in u.baseUrl && '&' !in project && '&' !in branch
    ensures var q := QueryOf(BranchWebLink(u, project, branch).url);
            q.Some? && ParseQuery(q.value) == [Parameter("r", project), Parameter("h", branch)]
  {
    LinkParameters(u, "log/", [Parameter("r", project), Parameter("h", branch)]);
  }

  /** Names without '&' reach the blob and history pages unchanged. */
  lemma FileLinksNameTheirObjects(u: WebUrls, project: string, revision: string, fileName: string)
    requires '?' !in u.baseUrl && '&' !in project && '&' !in revision && '&' !in fileName
    ensures var q := QueryOf(FileWebLink(u, project, revision, fileName).url);
            q.Some? && ParseQuery(q.value) == [Parameter("r", project), Parameter("h", revision), Parameter("f", fileName)]
    ensures var q := QueryOf(FileHistoryWebLink(u, project, revision, fileName).url);
            q.Some? && ParseQuery(q.value) == [Parameter("f", fileName), Parameter("r", project), Parameter("h", revision)]
  {
    LinkParameters(u, "blob/", [Parameter("r", project), Parameter("h", revision), Parameter("f", fileName)]);
    LinkParameters(u, "history/", [Parameter("f", fileName), Parameter("r", project), Parameter("h", revision)]);
  }
}
