/**
 * `StaticRewritingHeaderResponse`: a header response that moves the JavaScript and CSS
 * references a page renders under the plugin's "/static" path, leaving external URLs alone.
 *
 * The external-URL test is written as a whole-string match of `^(?:\w+:)?//`, so only the
 * bare "//" or "scheme://" counts as external and "http://host/a.js" is relocated.
 * `RewriteUrlAsWritten` models that test; `RewriteUrl` uses the prefix match the anchored
 * pattern evidently intends, and it is what the render forwards use.
 */
module StaticRewritingHeaderResponse {
  import opened Wrappers
  import opened JavaStrings

  /** A character of the regular-expression class `\w`. */
  predicate IsWordChar(c: char) {
    ('a' <= c <= 'z') || ('A' <= c <= 'Z') || ('0' <= c <= '9') || c == '_'
  }

  predicate AllWordChars(s: string) {
    forall k :: 0 <= k < |s| ==> IsWordChar(s[k])
  }

  /** A scheme of word characters ends at `i`, followed by "://". */
  predicate SchemeAt(url: string, i: int) {
    1 <= i && i + 3 <= |url| && url[i..i + 3] == "://" && AllWordChars(url[..i])
  }

  /** "//" occurs at `i`. */
  predicate SlashesAt(url: string, i: int) {
    0 <= i && i + 2 <= |url| && url[i..i + 2] == "//"
  }

  /** `(?:\w+:)?//` matches a prefix of `url`. */
  function IsExternal(url: string): (r: bool)
    ensures StartsWith(url, "//") ==> r
    ensures r ==> exists i :: SlashesAt(url, i)
  {
    var r := StartsWith(url, "//") || exists i :: 1 <= i <= |url| - 3 && SchemeAt(url, i);
    assert r ==> exists i :: SlashesAt(url, i) by {
      if StartsWith(url, "//") {
        assert SlashesAt(url, 0);
      } else if r {
        var i :| 1 <= i <= |url| - 3 && SchemeAt(url, i);
        assert url[i + 1..i + 3] == url[i..i + 3][1..];
        assert SlashesAt(url, i + 1);
      }
    }
    r
  }

  /** `EXTERNAL_URL.matcher(url).matches()`: the pattern matches the whole of `url`. */
  function MatchesExternalWhole(url: string): (r: bool)
    ensures r ==> EndsWith(url, "//") && IsExternal(url)
  {
    url == "//" || SchemeAt(url, |url| - 3)
  }

  /** What the whole-string test accepts, the prefix test accepts too. */
  lemma WholeMatchIsPrefixMatch(url: string)
    requires MatchesExternalWhole(url)
    ensures IsExternal(url)
  {
  }

  /** The relocation of a non-empty, non-external URL under `contextPath + "/static"`. */
  function Relocate(contextPath: string, url: string): (r: string)
    requires url != ""
    ensures StartsWith(url, contextPath + "/static/") ==> r == url
    ensures StartsWith(url, contextPath) && !StartsWith(url, contextPath + "/static/") ==>
              r == contextPath + "/static" + url[|contextPath|..]
    ensures !StartsWith(url, contextPath) && url[0] == '/' ==> r == contextPath + "/static" + url
    ensures !StartsWith(url, contextPath) && url[0] != '/' ==> r == contextPath + "/static/" + url
    ensures StartsWith(r, contextPath + "/static")
  {
    if StartsWith(url, contextPath) then
      if !StartsWith(url, contextPath + "/static/") then contextPath + "/static" + url[|contextPath|..]
      else
        assert url[..|contextPath + "/static"|] == (contextPath + "/static/")[..|contextPath + "/static"|];
        url
    else if url[0] == '/' then contextPath + "/static" + url
    else contextPath + "/static/" + url
  }

  /** `rewriteUrl(url)` as written, with the whole-string external test. */
  function RewriteUrlAsWritten(contextPath: string, url: Option<string>): (r: Option<string>)
    ensures IsNullOrEmpty(url) || MatchesExternalWhole(url.value) ==> r == url
    ensures !IsNullOrEmpty(url) && !MatchesExternalWhole(url.value) ==> r == Some(Relocate(contextPath, url.value))
  {
    if IsNullOrEmpty(url) || MatchesExternalWhole(url.value) then url
    else Some(Relocate(contextPath, url.value))
  }

  /** `rewriteUrl(url)` with the external test as a prefix match. */
  function RewriteUrl(contextPath: string, url: Option<string>): (r: Option<string>)
    ensures IsNullOrEmpty(url) || IsExternal(url.value) ==> r == url
    ensures !IsNullOrEmpty(url) && !IsExternal(url.value) ==>
              r.Some? && StartsWith(r.value, contextPath + "/static")
  {
    if IsNullOrEmpty(url) || IsExternal(url.value) then url
    else Some(Relocate(contextPath, url.value))
  }

  /** The two rewrites differ only on URLs external by prefix but not as a whole. */
  lemma RewritesAgreeOffExternal(contextPath: string, url: Option<string>)
    requires IsNullOrEmpty(url) || MatchesExternalWhole(url.value) || !IsExternal(url.value)
    ensures RewriteUrl(contextPath, url) == RewriteUrlAsWritten(contextPath, url)
  {
    if !IsNullOrEmpty(url) && MatchesExternalWhole(url.value) {
      WholeMatchIsPrefixMatch(url.value);
    }
  }

  /** Evidence: an absolute http URL is relocated by the code as written, and kept by the prefix test. */
  lemma AbsoluteUrlIsRelocated(contextPath: string, url: string)
    requires contextPath == "/gerrit" && url == "http://h/a.js"
    ensures RewriteUrlAsWritten(contextPath, Some(url)) == Some(contextPath + "/static/" + url)
    ensures RewriteUrl(contextPath, Some(url)) == Some(url)
  {
    SchemeUrlIsExternal("http", "h/a.js", url);
    assert !MatchesExternalWhole(url) by {
      assert url[|url| - 3..][0] == '.' != "://"[0];
    }
    assert !StartsWith(url, contextPath) by {
      assert url[..|contextPath|][0] == 'h' != contextPath[0];
    }
    assert url[0] == 'h';
    assert Relocate(contextPath, url) == contextPath + "/static/" + url;
  }

  /** "scheme://rest" with a scheme of word characters is external. */
  lemma SchemeUrlIsExternal(scheme: string, rest: string, url: string)
    requires |scheme| > 0 && AllWordChars(scheme) && url == scheme + "://" + rest
    ensures IsExternal(url)
  {
    assert url[|scheme|..|scheme| + 3] == "://";
    assert url[..|scheme|] == scheme;
    assert SchemeAt(url, |scheme|);
  }

  /**
   * A URL outside the context path, or under it past a "/", is settled by one rewrite: the
   * result lies under `contextPath + "/static/"` and a second rewrite keeps it.
   */
  lemma RelocateSettles(contextPath: string, url: string)
    requires url != ""
    requires !StartsWith(url, contextPath) || StartsWith(url, contextPath + "/")
    ensures StartsWith(Relocate(contextPath, url), contextPath + "/static/")
    ensures Relocate(contextPath, Relocate(contextPath, url)) == Relocate(contextPath, url)
  {
    var p := contextPath + "/static/";
    var r := Relocate(contextPath, url);
    if StartsWith(url, contextPath) && !StartsWith(url, p) {
      assert url[|contextPath|..][0] == '/' by {
        assert url[..|contextPath| + 1] == contextPath + "/";
      }
      assert r[..|p|] == p;
    } else if !StartsWith(url, contextPath) && url[0] == '/' {
      assert r[..|p|] == p;
    } else if !StartsWith(url, contextPath) {
      assert r[..|p|] == p;
    }
    assert StartsWith(r, contextPath) by {
      assert r[..|contextPath|] == p[..|contextPath|];
    }
  }

  /** With an empty context path a relative URL loses its separator: "a.js" becomes "/statica.js". */
  lemma EmptyContextPathJoinsStatic()
    ensures RewriteUrl("", Some("a.js")) == Some("/statica.js")
  {
    var url := "a.js";
    assert !IsExternal(url) by {
      assert url[..2][0] == 'a' != "//"[0];
      forall i | 1 <= i <= |url| - 3
        ensures !SchemeAt(url, i)
      {
        assert url[i..i + 3][0] == '.' != "://"[0];
      }
    }
    assert StartsWith(url, "");
    assert |url| < |"/static/"|;
    assert Relocate("", url) == "" + "/static" + url[|""|..];
    assert "" + "/static" + url[|""|..] == "/statica.js";
  }

  /** The four references a page renders, with the arguments besides the URL. */
  datatype HeaderReference =
    | JavascriptReference(url: Option<string>)
    | JavascriptReferenceWithId(url: Option<string>, id: Option<string>)
    | CssReference(url: Option<string>)
    | CssReferenceWithMedia(url: Option<string>, media: Option<string>)
  {
    function WithUrl(u: Option<string>): HeaderReference {
      match this
      case JavascriptReference(_) => JavascriptReference(u)
      case JavascriptReferenceWithId(_, id) => JavascriptReferenceWithId(u, id)
      case CssReference(_) => CssReference(u)
      case CssReferenceWithMedia(_, media) => CssReferenceWithMedia(u, media)
    }
  }

  /** The reference each `render…` method passes on to the decorated response. */
  function Forward(contextPath: string, reference: HeaderReference): (r: HeaderReference)
    ensures r.url == RewriteUrl(contextPath, reference.url)
    ensures r.JavascriptReference? == reference.JavascriptReference?
    ensures r.JavascriptReferenceWithId? == reference.JavascriptReferenceWithId?
    ensures r.CssReference? == reference.CssReference?
    ensures r.CssReferenceWithMedia? == reference.CssReferenceWithMedia?
    ensures r.JavascriptReferenceWithId? ==> r.id == reference.id
    ensures r.CssReferenceWithMedia? ==> r.media == reference.media
  {
    reference.WithUrl(RewriteUrl(contextPath, reference.url))
  }

  /** External and empty references pass through untouched; forwarding twice is forwarding once for them. */
  lemma ForwardKeepsExternal(contextPath: string, reference: HeaderReference)
    requires IsNullOrEmpty(reference.url) || IsExternal(reference.url.value)
    ensures Forward(contextPath, reference) == reference
  {
  }
}
