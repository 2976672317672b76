/**
 * `StaticCodingStrategy`: Wicket's coding strategy with the rewriting of relative URLs to
 * static resources. A resource URL is sent to the plugin's "static/" directory, climbing
 * out of the page's depth below the Wicket handler first; page URLs and URLs under one of
 * the ignored prefixes are left alone.
 */
module StaticCodingStrategy {
  import opened JavaStrings

  /** The strategy, with the URL prefixes it never rewrites. */
  datatype Strategy = Strategy(ignoreResourceUrlPrefixes: seq<string>)

  /** What `rewriteStaticRelativeUrl` does: return a URL, or fail indexing an empty `split` result. */
  datatype Rewrite = Returned(url: string) | IndexOutOfBounds

  /** Depths of zero or less climb nothing. */
  function Climbs(depth: int): nat {
    if depth > 0 then depth else 0
  }

  /** `isMatchingIgnoreUrlPrefixes(url)`: whether some ignored prefix starts the URL. */
  function IsMatchingIgnoreUrlPrefixes(prefixes: seq<string>, url: string): (r: bool)
    ensures r <==> exists k :: 0 <= k < |prefixes| && StartsWith(url, prefixes[k])
  {
    if |prefixes| == 0 then false
    else StartsWith(url, prefixes[0]) || IsMatchingIgnoreUrlPrefixes(prefixes[1..], url)
  }

  /** `getRelativePrefix(request)` for a request at `depth` below the Wicket handler. */
  function GetRelativePrefix(depth: int): (r: string)
    ensures |r| == 3 * Climbs(depth)
  {
    Repeat("../", Climbs(depth))
  }

  /** `getRelativeStaticUrl(url, depth)`. */
  function GetRelativeStaticUrl(url: string, depth: int): (r: string)
    ensures |r| == 3 * Climbs(depth) + |"static/"| + |url| && EndsWith(r, url)
    ensures StartsWith(r, GetRelativePrefix(depth))
    ensures r[|GetRelativePrefix(depth)|..][..|"static/"|] == "static/"
  {
    var r := GetRelativePrefix(depth) + "static/" + url;
    assert r[|GetRelativePrefix(depth)|..] == "static/" + url;
    r
  }

  /** `getStaticRelativePrefix(request)`. */
  function GetStaticRelativePrefix(depth: int): (r: string)
    ensures |r| == 3 * Climbs(depth) + |"static/"|
  {
    GetRelativeStaticUrl("", depth)
  }

  /** `rewriteStaticRelativeUrl(url)` for a request at `depth`. */
  function RewriteStaticRelativeUrl(strategy: Strategy, url: string, depth: int): (r: Rewrite)
    ensures r.IndexOutOfBounds? <==> Split(url, '/') == []
    ensures r.Returned? && '.' !in Split(url, '/')[|Split(url, '/')| - 1] ==> r.url == url
    ensures r.Returned? && IsMatchingIgnoreUrlPrefixes(strategy.ignoreResourceUrlPrefixes, url) ==> r.url == url
    ensures r.Returned? && r.url != url ==> r.url == GetRelativeStaticUrl(url, depth)
    ensures r.Returned? ==> EndsWith(r.url, url)
    ensures var parts := Split(url, '/');
            parts != [] && '.' in parts[|parts| - 1] && !IsMatchingIgnoreUrlPrefixes(strategy.ignoreResourceUrlPrefixes, url) ==>
              r == Returned(GetRelativeStaticUrl(url, depth))
  {
    var urlParts := Split(url, '/');
    if |urlParts| == 0 then IndexOutOfBounds
    else if '.' !in urlParts[|urlParts| - 1] then Returned(url)
    else if IsMatchingIgnoreUrlPrefixes(strategy.ignoreResourceUrlPrefixes, url) then Returned(url)
    else Returned(GetRelativeStaticUrl(url, depth))
  }

  /** `n` parent-directory segments. */
  function Ups(n: nat): seq<string> {
    if n == 0 then [] else [".."] + Ups(n - 1)
  }

  /** The "../" prefix splits into one ".." segment per level climbed. */
  lemma {:induction false} RelativePrefixSegments(n: nat, rest: string)
    ensures Pieces(Repeat("../", n) + rest, '/') == Ups(n) + Pieces(rest, '/')
    decreases n
  {
    if n > 0 {
      var tail := Repeat("../", n - 1) + rest;
      RelativePrefixSegments(n - 1, rest);
      assert Repeat("../", n) + rest == ".." + ['/'] + tail;
      PiecesAfterSegment("..", '/', tail);
      assert Pieces(Repeat("../", n) + rest, '/') == [".."] + (Ups(n - 1) + Pieces(rest, '/'));
    } else {
      assert Repeat("../", n) + rest == rest;
    }
  }

  /**
   * A rewritten URL climbs `depth` directories, enters "static" and then follows the
   * original URL segment by segment.
   */
  lemma RelativeStaticUrlSegments(url: string, depth: int)
    ensures Pieces(GetRelativeStaticUrl(url, depth), '/') ==
            Ups(Climbs(depth)) + ["static"] + Pieces(url, '/')
  {
    var rest := "static" + ['/'] + url;
    assert GetRelativeStaticUrl(url, depth) == Repeat("../", Climbs(depth)) + rest;
    RelativePrefixSegments(Climbs(depth), rest);
    PiecesAfterSegment("static", '/', url);
    assert Pieces(rest, '/') == ["static"] + Pieces(url, '/');
  }

  /** The static prefix is the static URL of the empty path: it is what every static URL starts with. */
  lemma StaticPrefixIsStaticUrlStart(url: string, depth: int)
    ensures GetStaticRelativePrefix(depth) + url == GetRelativeStaticUrl(url, depth)
  {
    assert GetRelativePrefix(depth) + "static/" + "" == GetRelativePrefix(depth) + "static/";
  }

  /** The strategy fails exactly on a non-empty URL made only of slashes. */
  lemma FailsOnlyOnSlashes(strategy: Strategy, url: string, depth: int)
    ensures RewriteStaticRelativeUrl(strategy, url, depth).IndexOutOfBounds? <==>
            |url| > 0 && forall k :: 0 <= k < |url| ==> url[k] == '/'
  {
    SplitEmptyIffOnlyDelimiters(url, '/');
  }

  /** Rewriting a rewritten URL only climbs further: the result still ends with the original. */
  lemma RewriteKeepsOriginalSuffix(strategy: Strategy, url: string, depth1: int, depth2: int)
    requires RewriteStaticRelativeUrl(strategy, url, depth1).Returned?
    requires RewriteStaticRelativeUrl(strategy, RewriteStaticRelativeUrl(strategy, url, depth1).url, depth2).Returned?
    ensures EndsWith(RewriteStaticRelativeUrl(strategy, RewriteStaticRelativeUrl(strategy, url, depth1).url, depth2).url, url)
  {
    var once := RewriteStaticRelativeUrl(strategy, url, depth1).url;
    var twice := RewriteStaticRelativeUrl(strategy, once, depth2).url;
    assert twice[|twice| - |once|..] == once;
    assert once[|once| - |url|..] == url;
    assert twice[|twice| - |url|..] == once[|once| - |url|..];
  }
}
