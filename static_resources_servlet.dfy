/**
 * `StaticResourcesServlet`: serves GitBlit's static files from the plugin's class path.
 * Only a few subdirectories, and at the top level only a few kinds of file, are exposed;
 * a path that navigates upwards is refused outright. Responses carry the plugin jar's
 * time as their last modification, computed once and remembered.
 */
module StaticResourcesServlet {
  import opened Wrappers
  import opened JavaStrings
  import opened Servlet

  /** `ALLOWED_SUBDIRECTORIES`. */
  const AllowedSubdirectories: set<string> := {"bootstrap", "flotr2", "fontawesome"}

  const OctetStream: string := "application/octet-stream"
  const InvalidPath: string := "Invalid path"

  /** `HttpServletResponse.SC_NOT_FOUND` and `SC_FORBIDDEN`. */
  const NotFoundStatus: int := 404
  const ForbiddenStatus: int := 403

  /** The characters the regular-expression `.` does not match. */
  predicate IsLineTerminator(c: char) {
    c == '\n' || c == '\r' || c == '\U{0085}' || c == '\U{2028}' || c == '\U{2029}'
  }

  /** `f` is any line of text, then "." and `ext`. */
  predicate HasExtension(f: string, ext: string) {
    |ext| + 1 <= |f| && f[|f| - |ext| - 1..] == "." + ext &&
    forall k :: 0 <= k < |f| - |ext| - 1 ==> !IsLineTerminator(f[k])
  }

  /** A name has an extension exactly when it ends in '.' and the extension, with no line break before. */
  lemma HasExtensionEndsWith(f: string, ext: string)
    ensures HasExtension(f, ext) ==> EndsWith(f, "." + ext)
    ensures EndsWith(f, "." + ext) && (forall k :: 0 <= k < |f| ==> !IsLineTerminator(f[k])) ==> HasExtension(f, ext)
  {
  }

  /** `ALLOWED_FILE_NAMES.matcher(f).matches()` for `^(?:gitblit\.properties|.*\.(?:png|css|js|swf))$`. */
  function AllowedFileName(f: string): (r: bool)
    ensures r ==> f == "gitblit.properties" ||
                  EndsWith(f, ".png") || EndsWith(f, ".css") || EndsWith(f, ".js") || EndsWith(f, ".swf")
    ensures ((forall k :: 0 <= k < |f| ==> !IsLineTerminator(f[k])) &&
             (EndsWith(f, ".png") || EndsWith(f, ".css") || EndsWith(f, ".js") || EndsWith(f, ".swf"))) ==> r
  {
    HasExtensionEndsWith(f, "png");
    HasExtensionEndsWith(f, "css");
    HasExtensionEndsWith(f, "js");
    HasExtensionEndsWith(f, "swf");
    assert "." + "png" == ".png" && "." + "css" == ".css" && "." + "js" == ".js" && "." + "swf" == ".swf";
    f == "gitblit.properties" ||
    HasExtension(f, "png") || HasExtension(f, "css") || HasExtension(f, "js") || HasExtension(f, "swf")
  }

  /** The path `doGet` serves: "/clippy.swf" for any request URI ending so, else the path info. */
  function ResourcePath(requestUri: string, pathInfo: Option<string>): (r: Option<string>)
    ensures EndsWith(requestUri, "/clippy.swf") ==> r == Some("/clippy.swf")
    ensures !EndsWith(requestUri, "/clippy.swf") ==> r == pathInfo
  {
    if EndsWith(requestUri, "/clippy.swf") then Some("/clippy.swf") else pathInfo
  }

  /** The '/'-separated segments of a path after its first character, as `split("/")` gives them. */
  function Segments(path: string): seq<string>
    requires path != ""
  {
    Split(path[1..], '/')
  }

  /** How `doGet` judges a resource path. */
  datatype PathCheck =
    | NoPath                  // null or empty: 404
    | Navigation              // a ".." segment: 403 "Invalid path"
    | NoSegments              // split gave no segment at all; as written, the last one is still read
    | EmptyFileName           // 404
    | OutsideSubdirectories   // several segments, the first not an allowed subdirectory: 404
    | DisallowedFileName      // one segment that is not an allowed file name: 404
    | Accepted(fileName: string)

  /** The path check as written: with no segment, reading the last one fails with an index out of bounds. */
  function CheckPathAsWritten(path: Option<string>): (r: PathCheck)
    ensures r.NoPath? <==> IsNullOrEmpty(path)
    ensures r.Navigation? <==> !IsNullOrEmpty(path) && ".." in Segments(path.value)
    ensures r.NoSegments? <==> !IsNullOrEmpty(path) && Segments(path.value) == []
  {
    if IsNullOrEmpty(path) then NoPath
    else
      var segments := Segments(path.value);
      if ".." in segments then Navigation
      else if |segments| == 0 then NoSegments
      else
        var fileName := segments[|segments| - 1];
        if fileName == "" then EmptyFileName
        else if |segments| > 1 && segments[0] !in AllowedSubdirectories then OutsideSubdirectories
        else if |segments| == 1 && !AllowedFileName(fileName) then DisallowedFileName
        else Accepted(fileName)
  }

  /**
   * Exactly the paths whose characters after the first are one or more slashes leave `split`
   * with nothing, and the code as written fails on them.
   */
  lemma SlashesOnlyPathFails(path: string)
    requires path != ""
    ensures CheckPathAsWritten(Some(path)).NoSegments? <==>
              |path| >= 2 && forall k :: 1 <= k < |path| ==> path[k] == '/'
  {
    SplitEmptyIffOnlyDelimiters(path[1..], '/');
    assert forall k :: 0 <= k < |path[1..]| ==> path[1..][k] == path[k + 1];
  }

  /** Evidence: the path "//" reaches the out-of-bounds read. */
  lemma DoubleSlashFails()
    ensures CheckPathAsWritten(Some("//")) == NoSegments
  {
    SlashesOnlyPathFails("//");
  }

  /**
   * The path check with no segment treated as an empty file name, which is refused with 404
   * like the single "/" is.
   */
  function CheckPath(path: Option<string>): (r: PathCheck)
    ensures !r.NoSegments?
    ensures r.NoPath? <==> IsNullOrEmpty(path)
    ensures r.Navigation? <==> !IsNullOrEmpty(path) && ".." in Segments(path.value)
    ensures r.Accepted? ==>
              var segments := Segments(path.value);
              |segments| >= 1 && r.fileName == segments[|segments| - 1] && r.fileName != "" &&
              (|segments| > 1 ==> segments[0] in AllowedSubdirectories) &&
              (|segments| == 1 ==> AllowedFileName(r.fileName))
    ensures !IsNullOrEmpty(path) ==>
              var segments := Segments(path.value);
              ".." !in segments && |segments| >= 1 && segments[|segments| - 1] != "" &&
              (|segments| > 1 ==> segments[0] in AllowedSubdirectories) &&
              (|segments| == 1 ==> AllowedFileName(segments[0])) ==>
                r == Accepted(segments[|segments| - 1])
  {
    var r := CheckPathAsWritten(path);
    if r.NoSegments? then EmptyFileName else r
  }

  /** The corrected check differs from the code as written only where that code fails. */
  lemma CheckPathAgreesWhereWrittenSucceeds(path: Option<string>)
    ensures !CheckPathAsWritten(path).NoSegments? ==> CheckPath(path) == CheckPathAsWritten(path)
    ensures CheckPathAsWritten(path).NoSegments? ==> CheckPath(path) == EmptyFileName
  {
  }

  /**
   * An accepted path has no ".." anywhere: not among the segments `split` keeps, and not
   * among the trailing empty ones it drops.
   */
  lemma AcceptedPathHasNoParentSegment(path: string)
    requires CheckPath(Some(path)).Accepted?
    ensures ".." !in Pieces(path[1..], '/')
  {
    var s := path[1..];
    if '/' in s {
      var pieces := Pieces(s, '/');
      var kept := DropTrailingEmpty(pieces);
      assert Segments(path) == kept;
      forall k | 0 <= k < |pieces|
        ensures pieces[k] != ".."
      {
        if k < |kept| {
          assert pieces[k] == kept[k];
        }
      }
    } else {
      PiecesWithoutDelimiter(s, '/');
    }
  }

  /** "clippy.swf" is an allowed file name. */
  lemma ClippyNameAllowed()
    ensures AllowedFileName("clippy.swf")
  {
    var f := "clippy.swf";
    assert f[|f| - 4..] == ".swf";
    forall k | 0 <= k < |f| - 4
      ensures !IsLineTerminator(f[k])
    {
    }
  }

  /** The path "/clippy.swf" is accepted. */
  lemma ClippyPathAccepted(path: string)
    requires path == "/clippy.swf"
    ensures CheckPath(Some(path)) == Accepted("clippy.swf")
  {
    var s := path[1..];
    assert s == "clippy.swf";
    assert '/' !in s by {
      forall k | 0 <= k < |s| ensures s[k] != '/' {
      }
    }
    PiecesWithoutDelimiter(s, '/');
    assert Segments(path) == [s];
    ClippyNameAllowed();
  }

  /** A request for clippy.swf is accepted whatever its path info. */
  lemma ClippyAccepted(requestUri: string, pathInfo: Option<string>)
    requires EndsWith(requestUri, "/clippy.swf")
    ensures CheckPath(ResourcePath(requestUri, pathInfo)) == Accepted("clippy.swf")
  {
    ClippyPathAccepted("/clippy.swf");
  }

  /** The status a rejected check is answered with; `None` when the resource is looked up. */
  function RejectionStatus(check: PathCheck): (r: Option<int>)
    requires !check.NoSegments?
    ensures r.None? <==> check.Accepted?
    ensures r == Some(ForbiddenStatus) <==> check.Navigation?
  {
    match check
    case Navigation => Some(ForbiddenStatus)
    case Accepted(_) => None
    case _ => Some(NotFoundStatus)
  }

  /**
   * The content type sent: the detected one, unless it is missing or octet-stream, in which
   * case ".js" and ".css" names, in any case, get the types browsers expect.
   */
  function ContentType(fileName: string, detected: Option<string>): (r: string)
    ensures detected.Some? && detected.value != OctetStream ==> r == detected.value
    ensures (detected.None? || detected.value == OctetStream) ==>
              r == (if EndsWith(ToLower(fileName), ".js") then "application/javascript"
                    else if EndsWith(ToLower(fileName), ".css") then "text/css"
                    else OctetStream)
  {
    var contentType := if detected.Some? then detected.value else OctetStream;
    if contentType == OctetStream then
      if EndsWith(ToLower(fileName), ".js") then "application/javascript"
      else if EndsWith(ToLower(fileName), ".css") then "text/css"
      else OctetStream
    else contentType
  }

  /** The fallback does not depend on the case of the file name. */
  lemma ContentTypeIgnoresCase(fileName: string, variant: string, detected: Option<string>)
    requires EqualsIgnoreCase(fileName, variant)
    ensures ContentType(fileName, detected) == ContentType(variant, detected)
  {
  }

  /** A file in the plugins directory, with its modification time. */
  datatype PluginFile = PluginFile(name: string, lastModified: int)

  /** The files `listFiles` keeps: "gitblit…" jars. */
  predicate IsGitBlitJar(name: string) {
    StartsWith(name, "gitblit") && EndsWith(name, ".jar")
  }

  /** The latest modification time of a GitBlit jar, 0 without one (or without a listing). */
  function LatestJarTime(files: seq<PluginFile>): (r: int)
    ensures r >= 0
    ensures forall k :: 0 <= k < |files| && IsGitBlitJar(files[k].name) ==> files[k].lastModified <= r
    ensures r == 0 || exists k :: 0 <= k < |files| && IsGitBlitJar(files[k].name) && files[k].lastModified == r
  {
    if |files| == 0 then 0
    else
      var rest := LatestJarTime(files[..|files| - 1]);
      var f := files[|files| - 1];
      if IsGitBlitJar(f.name) && f.lastModified > rest then f.lastModified else rest
  }

  /** One more file of the listing: a later GitBlit jar raises the time. */
  lemma LatestJarTimeStep(files: seq<PluginFile>, i: nat)
    requires i < |files|
    ensures LatestJarTime(files[..i + 1]) ==
              var rest := LatestJarTime(files[..i]);
              if IsGitBlitJar(files[i].name) && files[i].lastModified > rest then files[i].lastModified else rest
  {
    assert files[..i + 1][..i] == files[..i];
  }

  /** Files that are not GitBlit jars do not change the time. */
  lemma {:induction false} OtherFilesIgnored(files: seq<PluginFile>, other: PluginFile)
    requires !IsGitBlitJar(other.name)
    ensures LatestJarTime(files + [other]) == LatestJarTime(files)
  {
    assert (files + [other])[..|files|] == files;
  }

  class ResourcesServlet {
    /** The remembered time; -1 until the first request asks for it. */
    var lastModified: int

    constructor ()
      ensures lastModified == -1
    {
      lastModified := -1;
    }

    /** `getLastModified(request)`: computed once from the plugins directory's listing, then remembered. */
    method GetLastModified(listing: Option<seq<PluginFile>>) returns (result: int)
      modifies this`lastModified
      ensures old(lastModified) >= 0 ==> result == old(lastModified)
      ensures old(lastModified) < 0 ==> result == (if listing.Some? then LatestJarTime(listing.value) else 0)
      ensures lastModified == result && result >= 0
    {
      result := lastModified;
      if result < 0 {
        result := 0;
        if listing.Some? && |listing.value| > 0 {
          var files := listing.value;
          var i := 0;
          while i < |files|
            invariant 0 <= i <= |files|
            invariant result == LatestJarTime(files[..i])
          {
            LatestJarTimeStep(files, i);
            if IsGitBlitJar(files[i].name) {
              result := if result > files[i].lastModified then result else files[i].lastModified;
            }
            i := i + 1;
          }
          assert files[..|files|] == files;
        }
        lastModified := result;
      }
    }

    /**
     * The path validation at the start of `doGet`: ".." is looked for among all segments
     * before the last segment and the subdirectory are examined.
     */
    static method ValidatePath(path: Option<string>) returns (check: PathCheck)
      ensures check == CheckPath(path)
    {
      if IsNullOrEmpty(path) {
        return NoPath;
      }
      var segments := Segments(path.value);
      var i := 0;
      while i < |segments|
        invariant 0 <= i <= |segments|
        invariant ".." !in segments[..i]
      {
        if segments[i] == ".." {
          return Navigation;
        }
        assert segments[..i + 1] == segments[..i] + [segments[i]];
        i := i + 1;
      }
      assert segments[..i] == segments;
      if |segments| == 0 || segments[|segments| - 1] == "" {
        return EmptyFileName;
      }
      var fileName := segments[|segments| - 1];
      if |segments| > 1 && segments[0] !in AllowedSubdirectories {
        check := OutsideSubdirectories;
      } else if |segments| == 1 && !AllowedFileName(fileName) {
        check := DisallowedFileName;
      } else {
        check := Accepted(fileName);
      }
    }

    /**
     * `doGet(request, response)`. The class-path lookup (the bytes of a resource, or `None`)
     * and the MIME detection are given as functions; writing the bytes out is not modelled.
     */
    method DoGet(requestUri: string, pathInfo: Option<string>, resources: string -> Option<seq<bv8>>,
                 mimeOf: (string, seq<bv8>) -> Option<string>, listing: Option<seq<PluginFile>>,
                 response: HttpResponse)
      modifies this`lastModified, response
      ensures var check := CheckPath(ResourcePath(requestUri, pathInfo));
              RejectionStatus(check).Some? ==>
                response.status == RejectionStatus(check) &&
                response.message == (if check.Navigation? then Some(InvalidPath) else old(response.message)) &&
                response.headers == old(response.headers) && response.contentType == old(response.contentType) &&
                response.dateHeaders == old(response.dateHeaders) && lastModified == old(lastModified)
      ensures var path := ResourcePath(requestUri, pathInfo);
              var check := CheckPath(path);
              check.Accepted? && resources(path.value).None? ==>
                response.status == Some(NotFoundStatus) && response.message == old(response.message) &&
                response.headers == old(response.headers) && response.contentType == old(response.contentType) &&
                response.dateHeaders == old(response.dateHeaders) && lastModified == old(lastModified)
      ensures var path := ResourcePath(requestUri, pathInfo);
              var check := CheckPath(path);
              check.Accepted? && resources(path.value).Some? ==>
                var bytes := resources(path.value).value;
                response.status == old(response.status) && response.message == old(response.message) &&
                response.contentType == Some(ContentType(check.fileName, mimeOf(check.fileName, bytes))) &&
                response.headers == old(response.headers)["Content-Length" := IntToString(|bytes|)] &&
                lastModified == (if old(lastModified) >= 0 then old(lastModified)
                                 else if listing.Some? then LatestJarTime(listing.value) else 0) &&
                response.dateHeaders == (if lastModified > 0 then old(response.dateHeaders)["Last-Modified" := lastModified]
                                         else old(response.dateHeaders))
      ensures response.cookies == old(response.cookies)
    {
      var path := ResourcePath(requestUri, pathInfo);
      var check := ValidatePath(path);
      if check.Navigation? {
        response.SendError(ForbiddenStatus, InvalidPath);
        return;
      } else if !check.Accepted? {
        response.SetStatus(NotFoundStatus);
        return;
      }
      var data := resources(path.value);
      if data.None? {
        response.SetStatus(NotFoundStatus);
        return;
      }
      var bytes := data.value;
      response.SetContentType(ContentType(check.fileName, mimeOf(check.fileName, bytes)));
      var time := GetLastModified(listing);
      if time > 0 {
        response.SetDateHeader("Last-Modified", time);
      }
      response.SetHeader("Content-Length", IntToString(|bytes|));
    }
  }
}
