/**
 * `FixedGuiceHttpServletRequest`: a request wrapper whose path info is URI-decoded, working
 * around a servlet-filter bug that leaves it encoded. The decoded path is computed on the
 * first call and remembered; a wrapper around a wrapper asks the inner one instead of
 * decoding a second time.
 */
module FixedGuiceHttpServletRequest {
  import opened Wrappers

  /** `new URI(s).getPath()`: the path (possibly null), or a `URISyntaxException`. */
  datatype UriParse = Parsed(path: Option<string>) | SyntaxError

  /** What `getPathInfo()` gives: a path info (possibly null), or the null dereference of `new URI(null)`. */
  datatype PathResult = PathInfo(value: Option<string>) | NullPointer

  /** The answer for a raw path info: decoded when it parses, kept as it is when it does not. */
  function Decode(raw: Option<string>, parse: string -> UriParse): (r: PathResult)
    ensures r.NullPointer? <==> raw.None?
    ensures raw.Some? && parse(raw.value).SyntaxError? ==> r == PathInfo(raw)
    ensures raw.Some? && parse(raw.value).Parsed? ==> r == PathInfo(parse(raw.value).path)
  {
    match raw
    case None => NullPointer
    case Some(s) =>
      match parse(s)
      case Parsed(path) => PathInfo(path)
      case SyntaxError => PathInfo(raw)
  }

  class FixedRequest {
    /** The wrapped request when it is itself a fixed request (`delegateIsFixed`), else null. */
    const inner: FixedRequest?
    /** The plain wrapped request's `getPathInfo()`, consulted when `inner` is null. */
    const rawPathInfo: Option<string>
    /** URI parsing. */
    const parse: string -> UriParse
    /** `decodedPath`: the remembered path, `None` while nothing (or null) is remembered. */
    var decodedPath: Option<string>

    ghost var Repr: set<object>

    ghost predicate Valid()
      reads this, Repr
      decreases Repr
    {
      this in Repr &&
      (inner != null ==> inner in Repr && inner.Repr <= Repr && this !in inner.Repr && inner.Valid()) &&
      (inner != null ==> decodedPath.None?)
    }

    /** What `getPathInfo()` answers in the current state. */
    ghost function Answer(): PathResult
      requires Valid()
      reads Repr
      decreases Repr
    {
      if inner != null then inner.Answer()
      else if decodedPath.Some? then PathInfo(decodedPath)
      else Decode(rawPathInfo, parse)
    }

    /** `new FixedGuiceHttpServletRequest(request)` around a request that is not a fixed one. */
    constructor OverPlain(rawPathInfo: Option<string>, parse: string -> UriParse)
      ensures Valid() && fresh(Repr)
      ensures inner == null && this.rawPathInfo == rawPathInfo && this.parse == parse && decodedPath.None?
    {
      this.inner := null;
      this.rawPathInfo := rawPathInfo;
      this.parse := parse;
      decodedPath := None;
      Repr := {this};
    }

    /** `new FixedGuiceHttpServletRequest(request)` around a fixed request: nothing of its own is remembered. */
    constructor OverFixed(request: FixedRequest)
      requires request.Valid()
      ensures Valid() && fresh(Repr - request.Repr)
      ensures inner == request && decodedPath.None?
      ensures Answer() == request.Answer()
    {
      this.inner := request;
      this.rawPathInfo := None;
      this.parse := request.parse;
      decodedPath := None;
      Repr := {this} + request.Repr;
    }

    /**
     * `getPathInfo()`. The answer is the one the state promised, and it does not change: a
     * second call gives the same without consulting the wrapped request again.
     */
    method GetPathInfo() returns (r: PathResult)
      requires Valid()
      modifies Repr
      ensures Valid() && Repr == old(Repr)
      ensures r == old(Answer())
      ensures Answer() == r
      ensures inner != null ==> decodedPath == old(decodedPath)
      ensures inner == null && old(decodedPath).Some? ==> decodedPath == old(decodedPath)
      ensures inner == null && old(decodedPath).None? ==>
                decodedPath == (if r.PathInfo? then r.value else None)
      decreases Repr
    {
      if inner != null {
        r := inner.GetPathInfo();
        return;
      }
      if decodedPath.Some? {
        return PathInfo(decodedPath);
      }
      r := Decode(rawPathInfo, parse);
      if r.PathInfo? {
        decodedPath := r.value;
      }
    }
  }
}
