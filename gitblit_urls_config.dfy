/**
 * `GitBlitUrlsConfig`: the URLs GitBlit shows for logging in and for cloning, derived from
 * Gerrit's configuration. Clone URLs are templates in which "{0}" stands for the
 * repository and "{1}" for the user.
 */
module GitBlitUrlsConfig {
  import opened Wrappers
  import opened JavaStrings

  /** `GITBLIT_REPO` and `GITBLIT_USER`. */
  const RepoPlaceholder: string := "{0}"
  const UserPlaceholder: string := "{1}"

  /** `SshAddressesModule.IANA_SSH_PORT`. */
  const SshPort: int := 22

  /**
   * `auth.type` as read by `config.getEnum`: the two LDAP kinds, any other kind (including
   * the default when unset), or a value that does not name a kind, which leaves the type null.
   */
  datatype AuthType = Ldap | LdapBind | OtherAuthType | Unparsable

  /** The Gerrit settings the configuration reads. */
  datatype GerritConfig = GerritConfig(
    canonicalWebUrl: Option<string>,   // gerrit.canonicalWebUrl
    httpdListenUrl: Option<string>,    // httpd.listenUrl
    downloadSchemes: seq<string>,      // download.scheme
    authType: AuthType)                // auth.type

  /** A listen address of Gerrit's SSH daemon. */
  datatype SocketAddress = InetSocketAddress(hostString: string, port: int) | OtherSocketAddress

  /** A host name lookup: the name, or an `UnknownHostException`. */
  datatype HostName = Host(name: string) | UnknownHost

  /** What `new URI(url)` gives: its host, null when it has none, or a URISyntaxException. */
  datatype ParsedUri = ParsedHost(host: Option<string>) | UriSyntaxError

  /**
   * The name "*" stands for: the host of the canonical web URL when that URL is set and
   * parses (a missing host is written as "null" by the string concatenation that follows),
   * otherwise the local host's canonical name or its failed lookup. URI parsing and the
   * local lookup are givens of the environment.
   */
  function StarHost(canonicalWebUrl: Option<string>, parse: string -> ParsedUri, localHost: HostName): (r: HostName)
    ensures canonicalWebUrl.Some? && parse(canonicalWebUrl.value).ParsedHost? ==>
              r == Host(parse(canonicalWebUrl.value).host.GetOr("null"))
    ensures canonicalWebUrl.None? || parse(canonicalWebUrl.value).UriSyntaxError? ==> r == localHost
  {
    if canonicalWebUrl.Some? && parse(canonicalWebUrl.value).ParsedHost? then
      Host(parse(canonicalWebUrl.value).host.GetOr("null"))
    else localHost
  }

  /** The login URL the constructor settles on, or the null dereference of a missing canonical URL. */
  datatype LoginUrl = NoLoginUrl | LoginAt(url: string) | CanonicalUrlMissing

  /**
   * The constructor's `loginUrl`: none under LDAP, otherwise the canonical web URL's "login/"
   * page; an unparsable type is not LDAP.
   */
  function DetermineLoginUrl(canonicalWebUrl: Option<string>, authType: AuthType): (r: LoginUrl)
    ensures r.NoLoginUrl? <==> authType == Ldap || authType == LdapBind
    ensures r.CanonicalUrlMissing? <==> authType != Ldap && authType != LdapBind && canonicalWebUrl.None?
    ensures r.LoginAt? ==> StartsWith(r.url, canonicalWebUrl.value) && EndsWith(r.url, "/login/")
    ensures r.LoginAt? ==> r.url == WithTrailingSlash(canonicalWebUrl.value) + "login/"
  {
    if authType == Ldap || authType == LdapBind then NoLoginUrl
    else if canonicalWebUrl.None? then CanonicalUrlMissing
    else
      AppendedAfterSlash(canonicalWebUrl.value, "login/");
      LoginAt(WithTrailingSlash(canonicalWebUrl.value) + "login/")
  }

  /** A canonical URL with or without its trailing slash leads to the same login page. */
  lemma LoginUrlIgnoresTrailingSlash(url: string, authType: AuthType)
    requires !EndsWith(url, "/")
    ensures DetermineLoginUrl(Some(url), authType) == DetermineLoginUrl(Some(url + "/"), authType)
  {
    assert EndsWith(url + "/", "/") by {
      assert (url + "/")[|url|..] == "/";
    }
  }

  /** `formatUrl(host, port)`: the SSH clone URL template, the port left out when it is 22. */
  function FormatUrl(host: string, port: int): (r: string)
    ensures StartsWith(r, "ssh://" + UserPlaceholder + "@" + host)
    ensures EndsWith(r, "/" + RepoPlaceholder)
    ensures port == SshPort <==> |r| == |"ssh://{1}@/{0}"| + |host|
  {
    var head := "ssh://" + UserPlaceholder + "@" + host;
    var portPart := if port == SshPort then "" else ":" + IntToString(port);
    var r := head + portPart + "/" + RepoPlaceholder;
    assert r[..|head|] == head;
    assert r[|r| - 4..] == "/" + RepoPlaceholder;
    r
  }

  /** `getHost(hostname)`: "*" is this machine, as `StarHost` gives it; any other name is taken as it is. */
  function GetHost(hostname: string, thisHost: HostName): (r: HostName)
    ensures hostname != "*" ==> r == Host(hostname)
    ensures hostname == "*" ==> r == thisHost
  {
    if hostname == "*" then thisHost else Host(hostname)
  }

  /** `getPort(port)`: a decimal `int` above zero, `None` standing for the NumberFormatException. */
  function GetPort(port: string): (r: Option<int>)
    ensures r.Some? ==> 0 < r.value <= MaxInt && ParseInt(port) == r
    ensures r.None? ==> ParseInt(port).None? || ParseInt(port).value <= 0
  {
    match ParseInt(port)
    case Some(n) => if n <= 0 then None else Some(n)
    case None => None
  }

  /**
   * `getSshUrl(candidate)`: "host" or "host:port" split on ':'; any other shape, an unknown
   * host or a bad port gives null.
   */
  function GetSshUrl(candidate: string, thisHost: HostName): (r: Option<string>)
    ensures |Split(candidate, ':')| != 1 && |Split(candidate, ':')| != 2 ==> r.None?
    ensures var parts := Split(candidate, ':');
            r.Some? <==> (|parts| == 1 || |parts| == 2) && GetHost(parts[0], thisHost).Host? &&
                         (|parts| == 2 ==> GetPort(parts[1]).Some?)
    ensures var parts := Split(candidate, ':');
            r.Some? ==> r.value == FormatUrl(GetHost(parts[0], thisHost).name,
                                             if |parts| == 1 then SshPort else GetPort(parts[1]).value)
    ensures r.Some? ==> EndsWith(r.value, "/" + RepoPlaceholder)
  {
    var parts := Split(candidate, ':');
    if |parts| == 1 then
      match GetHost(parts[0], thisHost)
      case Host(h) => Some(FormatUrl(h, SshPort))
      case UnknownHost => None
    else if |parts| == 2 then
      match GetHost(parts[0], thisHost)
      case Host(h) => (match GetPort(parts[1])
        case Some(port) => Some(FormatUrl(h, port))
        case None => None)
      case UnknownHost => None
    else None
  }

  /** A plain host name, with no port, is reached on the default port. */
  lemma SshUrlDefaultPort(host: string, thisHost: HostName)
    requires ':' !in host && host != "*"
    ensures GetSshUrl(host, thisHost) == Some(FormatUrl(host, SshPort))
  {
  }

  /** "host:port" with a port above zero is read back to that host and port; ":22" is the same as no port. */
  lemma SshUrlRoundTrip(host: string, port: nat, thisHost: HostName)
    requires ':' !in host && host != "*"
    requires 0 < port <= MaxInt
    ensures GetSshUrl(host + ":" + NatToString(port), thisHost) == Some(FormatUrl(host, port))
    ensures port == SshPort ==> GetSshUrl(host + ":" + NatToString(port), thisHost) == GetSshUrl(host, thisHost)
  {
    var digits := NatToString(port);
    var candidate := host + ":" + digits;
    assert ':' !in digits by {
      forall k | 0 <= k < |digits| ensures digits[k] != ':' {
        assert IsDigit(digits[k]);
      }
    }
    assert ':' in candidate by {
      assert candidate[|host|] == ':';
    }
    PiecesAfterSegment(host, ':', digits);
    PiecesWithoutDelimiter(digits, ':');
    assert Pieces(candidate, ':') == [host, digits];
    assert Split(candidate, ':') == [host, digits];
    ParseNatToString(port);
  }

  /** "host:port" with a port that is not a positive decimal number is refused. */
  lemma SshUrlRefusesBadPort(host: string, port: string, thisHost: HostName)
    requires ':' !in host && port != "" && ':' !in port
    requires ParseInt(port).None? || ParseInt(port).value <= 0
    ensures GetSshUrl(host + ":" + port, thisHost).None?
  {
    var candidate := host + ":" + port;
    assert ':' in candidate by {
      assert candidate[|host|] == ':';
    }
    PiecesAfterSegment(host, ':', port);
    PiecesWithoutDelimiter(port, ':');
    assert Split(candidate, ':') == [host, port];
  }

  /**
   * "*" is refused when there is no canonical web URL (or it does not parse) and the local
   * host cannot be looked up, with or without a port.
   */
  lemma SshUrlRefusesUnknownStar(canonicalWebUrl: Option<string>, parse: string -> ParsedUri, rest: string)
    requires canonicalWebUrl.None? || parse(canonicalWebUrl.value).UriSyntaxError?
    requires ':' !in rest
    ensures GetSshUrl("*", StarHost(canonicalWebUrl, parse, UnknownHost)).None?
    ensures GetSshUrl("*:" + rest, StarHost(canonicalWebUrl, parse, UnknownHost)).None?
  {
    var star := "*";
    assert ':' !in star;
    PiecesWithoutDelimiter(star, ':');
    var candidate := star + ":" + rest;
    assert "*:" + rest == candidate;
    assert ':' in candidate by {
      assert candidate[1] == ':';
    }
    PiecesAfterSegment(star, ':', rest);
    if rest == "" {
      assert Pieces(candidate, ':') == [star, ""];
      assert [star, ""][..1] == [star];
      assert DropTrailingEmpty([star]) == [star];
      assert DropTrailingEmpty([star, ""]) == [star];
      assert Split(candidate, ':') == [star];
    } else {
      PiecesWithoutDelimiter(rest, ':');
      assert Split(candidate, ':') == [star, rest];
    }
  }

  /** More than one ':' (an IPv6 address, say) is refused. */
  lemma SshUrlRefusesExtraColons(a: string, b: string, c: string, thisHost: HostName)
    requires ':' !in a && ':' !in b && c != "" && ':' !in c
    ensures GetSshUrl(a + ":" + b + ":" + c, thisHost).None?
  {
    var candidate := a + ":" + b + ":" + c;
    assert candidate == a + [':'] + (b + [':'] + c);
    assert ':' in candidate by {
      assert candidate[|a|] == ':';
    }
    PiecesAfterSegment(a, ':', b + [':'] + c);
    PiecesAfterSegment(b, ':', c);
    PiecesWithoutDelimiter(c, ':');
    assert Split(candidate, ':') == [a, b, c];
  }

  /** The first defined result of `f` over the candidates, in order. */
  function FirstDefined(candidates: seq<string>, f: string -> Option<string>): (r: Option<string>)
    ensures r.None? <==> forall k :: 0 <= k < |candidates| ==> f(candidates[k]).None?
    ensures r.Some? ==> exists k :: 0 <= k < |candidates| && f(candidates[k]) == r
  {
    if |candidates| == 0 then None
    else if f(candidates[0]).Some? then f(candidates[0])
    else
      var r := FirstDefined(candidates[1..], f);
      assert forall k :: 1 <= k < |candidates| ==> candidates[k] == candidates[1..][k - 1];
      assert r.Some? ==> exists k :: 0 <= k < |candidates[1..]| && f(candidates[1..][k]) == r;
      r
  }

  /** The result for the earliest candidate with a defined result. */
  lemma {:induction false} FirstDefinedIsEarliest(candidates: seq<string>, f: string -> Option<string>, i: nat)
    requires i < |candidates| && f(candidates[i]).Some?
    requires forall j :: 0 <= j < i ==> f(candidates[j]).None?
    ensures FirstDefined(candidates, f) == f(candidates[i])
    decreases i
  {
    if i > 0 {
      FirstDefinedIsEarliest(candidates[1..], f, i - 1);
    }
  }

  /** The first candidate, in order, that `getSshUrl` accepts. */
  function FirstSshUrl(candidates: seq<string>, thisHost: HostName): (r: Option<string>)
    ensures r.None? <==> forall k :: 0 <= k < |candidates| ==> GetSshUrl(candidates[k], thisHost).None?
    ensures r.Some? ==> EndsWith(r.value, "/" + RepoPlaceholder)
  {
    FirstDefined(candidates, candidate => GetSshUrl(candidate, thisHost))
  }

  /** One candidate further: the first one is taken when `getSshUrl` accepts it. */
  lemma FirstSshUrlStep(candidates: seq<string>, thisHost: HostName)
    requires |candidates| > 0
    ensures FirstSshUrl(candidates, thisHost) ==
              if GetSshUrl(candidates[0], thisHost).Some? then GetSshUrl(candidates[0], thisHost)
              else FirstSshUrl(candidates[1..], thisHost)
  {
  }

  /** The URL found is that of the earliest candidate accepted. */
  lemma FirstSshUrlIsEarliest(candidates: seq<string>, thisHost: HostName, i: nat)
    requires i < |candidates| && GetSshUrl(candidates[i], thisHost).Some?
    requires forall j :: 0 <= j < i ==> GetSshUrl(candidates[j], thisHost).None?
    ensures FirstSshUrl(candidates, thisHost) == GetSshUrl(candidates[i], thisHost)
  {
    FirstDefinedIsEarliest(candidates, candidate => GetSshUrl(candidate, thisHost), i);
  }

  /** Whether the configured download schemes allow `scheme`: an empty list allows all. */
  function SchemeAllowed(downloadSchemes: seq<string>, scheme: string): (r: bool)
    ensures |downloadSchemes| == 0 ==> r
    ensures |downloadSchemes| > 0 ==> (r <==> exists k :: 0 <= k < |downloadSchemes| && downloadSchemes[k] == scheme)
  {
    |downloadSchemes| == 0 || scheme in downloadSchemes
  }

  /** The clone URL for a listen address: only an internet address, with its host string and port, gives one. */
  function ListenAddressUrl(address: SocketAddress): (r: Option<string>)
    ensures r.Some? <==> address.InetSocketAddress?
    ensures r.Some? ==> StartsWith(r.value, "ssh://" + UserPlaceholder + "@" + address.hostString) &&
                        EndsWith(r.value, "/" + RepoPlaceholder)
  {
    match address
    case InetSocketAddress(host, port) => Some(FormatUrl(host, port))
    case OtherSocketAddress => None
  }

  /** The SSH clone URL `determineGitSshUrl` settles on. */
  function SshUrlSpec(listen: Option<seq<SocketAddress>>, advertised: seq<string>,
                      downloadSchemes: seq<string>, thisHost: HostName): (r: Option<string>)
    ensures listen.None? || |listen.value| == 0 || !SchemeAllowed(downloadSchemes, "ssh") ==> r.None?
    ensures r.Some? ==> EndsWith(r.value, "/" + RepoPlaceholder)
  {
    if listen.None? || |listen.value| == 0 then None
    else if !SchemeAllowed(downloadSchemes, "ssh") then None
    else
      var first := FirstSshUrl(advertised, thisHost);
      if first.Some? then first else ListenAddressUrl(listen.value[0])
  }

  /** An advertised address that parses wins over the listen addresses; without one the first listen address is used. */
  lemma AdvertisedAddressWins(listen: seq<SocketAddress>, advertised: seq<string>,
                              downloadSchemes: seq<string>, thisHost: HostName, i: nat)
    requires |listen| > 0 && SchemeAllowed(downloadSchemes, "ssh")
    requires i < |advertised| && GetSshUrl(advertised[i], thisHost).Some?
    requires forall j :: 0 <= j < i ==> GetSshUrl(advertised[j], thisHost).None?
    ensures SshUrlSpec(Some(listen), advertised, downloadSchemes, thisHost) == GetSshUrl(advertised[i], thisHost)
  {
    FirstSshUrlIsEarliest(advertised, thisHost, i);
  }

  /** `determineGitSshUrl(sshListenAddresses, sshAdvertizedAddresses)`, scanning the advertised addresses. */
  method DetermineGitSshUrl(listen: Option<seq<SocketAddress>>, advertised: seq<string>,
                            downloadSchemes: seq<string>, thisHost: HostName)
    returns (sshUrl: Option<string>)
    ensures sshUrl == SshUrlSpec(listen, advertised, downloadSchemes, thisHost)
  {
    if listen.None? || |listen.value| == 0 {
      return None;
    }
    if |downloadSchemes| != 0 && "ssh" !in downloadSchemes {
      return None;
    }
    sshUrl := FindAdvertisedSshUrl(advertised, thisHost);
    if sshUrl.None? {
      sshUrl := ListenAddressUrl(listen.value[0]);
    }
  }

  /** The loop over the advertised addresses: the first one `getSshUrl` accepts. */
  method FindAdvertisedSshUrl(advertised: seq<string>, thisHost: HostName) returns (sshUrl: Option<string>)
    ensures sshUrl == FirstSshUrl(advertised, thisHost)
  {
    var i := 0;
    while i < |advertised|
      invariant 0 <= i <= |advertised|
      invariant FirstSshUrl(advertised, thisHost) == FirstSshUrl(advertised[i..], thisHost)
    {
      sshUrl := GetSshUrl(advertised[i], thisHost);
      FirstSshUrlStep(advertised[i..], thisHost);
      assert advertised[i..][0] == advertised[i] && advertised[i..][1..] == advertised[i + 1..];
      if sshUrl.Some? {
        return;
      }
      i := i + 1;
    }
    assert advertised[i..] == [];
    sshUrl := None;
  }

  /** What `getHttpListenUrl()` gives: no listen URL, the URL, or a failed local host lookup. */
  datatype ListenUrl = NoListenUrl | Listen(url: string) | ListenLookupFailed

  /**
   * `getHttpListenUrl()`: "proxy-" dropped once, then a '*' after the first character replaced
   * by the local host name.
   */
  function GetHttpListenUrl(httpdListenUrl: Option<string>, localHost: HostName): (r: ListenUrl)
    ensures r.NoListenUrl? <==> httpdListenUrl.None?
    ensures r.ListenLookupFailed? <==>
              httpdListenUrl.Some? && IndexOf(ReplaceFirst(httpdListenUrl.value, "proxy-", ""), "*") > 0 &&
              localHost.UnknownHost?
    ensures httpdListenUrl.Some? && IndexOf(ReplaceFirst(httpdListenUrl.value, "proxy-", ""), "*") <= 0 ==>
              r == Listen(ReplaceFirst(httpdListenUrl.value, "proxy-", ""))
  {
    if httpdListenUrl.None? then NoListenUrl
    else
      var url := ReplaceFirst(httpdListenUrl.value, "proxy-", "");
      if IndexOf(url, "*") > 0 then
        match localHost
        case Host(name) => Listen(ReplaceFirst(url, "*", name))
        case UnknownHost => ListenLookupFailed
      else Listen(url)
  }

  /** A listen URL without "proxy-" and '*' is used as it is, whatever the local host. */
  lemma PlainListenUrlKept(url: string, localHost: HostName)
    requires IndexOf(url, "proxy-") == -1 && IndexOf(url, "*") == -1
    ensures GetHttpListenUrl(Some(url), localHost) == Listen(url)
  {
  }

  /** `getGitHttpUrl()`: a URL, or the `UnknownHostException` of the listen URL's lookup. */
  datatype HttpUrl = HttpUrl(url: string) | HttpLookupFailed

  /**
   * `getGitHttpUrl()`: "" without a listen URL or when HTTP downloads are not offered;
   * otherwise the canonical URL (else the listen URL) with the user placeholder after every
   * "://" and the repository placeholder after a '/'.
   */
  function GetGitHttpUrl(canonicalWebUrl: Option<string>, httpdListenUrl: Option<string>,
                         downloadSchemes: seq<string>, localHost: HostName): (r: HttpUrl)
    ensures r.HttpLookupFailed? <==> GetHttpListenUrl(httpdListenUrl, localHost).ListenLookupFailed?
    ensures r == HttpUrl("") <==>
              GetHttpListenUrl(httpdListenUrl, localHost).NoListenUrl? ||
              (GetHttpListenUrl(httpdListenUrl, localHost).Listen? && !SchemeAllowed(downloadSchemes, "http"))
    ensures r.HttpUrl? && r.url != "" ==> EndsWith(r.url, "/" + RepoPlaceholder)
  {
    match GetHttpListenUrl(httpdListenUrl, localHost)
    case NoListenUrl => HttpUrl("")
    case ListenLookupFailed => HttpLookupFailed
    case Listen(listenUrl) =>
      if !SchemeAllowed(downloadSchemes, "http") then HttpUrl("")
      else
        var base := ReplaceAll(canonicalWebUrl.GetOr(listenUrl), "://", "://" + UserPlaceholder + "@");
        AppendedAfterSlash(base, RepoPlaceholder);
        HttpUrl(WithTrailingSlash(base) + RepoPlaceholder)
  }

  /**
   * A canonical URL "scheme://rest", with no further "://", becomes
   * "scheme://{1}@rest/{0}", whatever the listen URL is, as long as there is one.
   */
  lemma CanonicalHttpUrlCarriesUser(scheme: string, rest: string, httpdListenUrl: string,
                                    downloadSchemes: seq<string>, localHost: HostName)
    requires ':' !in scheme && IndexOf(rest, "://") == -1
    requires GetHttpListenUrl(Some(httpdListenUrl), localHost).Listen?
    requires SchemeAllowed(downloadSchemes, "http")
    ensures GetGitHttpUrl(Some(scheme + "://" + rest), Some(httpdListenUrl), downloadSchemes, localHost) ==
            HttpUrl(WithTrailingSlash(scheme + "://" + UserPlaceholder + "@" + rest) + RepoPlaceholder)
  {
    var t := "://";
    var x := "://" + UserPlaceholder + "@";
    assert scheme + "://" + rest == scheme + (t + rest);
    ReplaceAllSkips(scheme, t + rest, t, x);
    ReplaceAllAtStart(t, rest, x);
    ReplaceAllAbsent(rest, t, x);
    assert scheme + (x + rest) == scheme + "://" + UserPlaceholder + "@" + rest;
  }

  /** `getGitSshUrl()`: the SSH URL, or "" when there is none. */
  function GetGitSshUrl(sshGitUrl: Option<string>): (r: string)
    ensures sshGitUrl.Some? ==> r == sshGitUrl.value
    ensures sshGitUrl.None? ==> r == ""
  {
    sshGitUrl.GetOr("")
  }

  /** The SSH URL shown is empty exactly when none was determined. */
  lemma GitSshUrlEmptyIffUndetermined(listen: Option<seq<SocketAddress>>, advertised: seq<string>,
                                      downloadSchemes: seq<string>, thisHost: HostName)
    ensures GetGitSshUrl(SshUrlSpec(listen, advertised, downloadSchemes, thisHost)) == "" <==>
            SshUrlSpec(listen, advertised, downloadSchemes, thisHost).None?
  {
  }

  /** The configuration's final fields. */
  datatype UrlsConfig = UrlsConfig(
    canonicalWebUrl: Option<string>,
    sshGitUrl: Option<string>,
    httpdListenUrl: Option<string>,
    loginUrl: Option<string>,
    downloadSchemes: seq<string>)

  /** A constructed configuration, or the null dereference of a missing canonical URL outside LDAP. */
  datatype Construction = Built(config: UrlsConfig) | NullPointer

  /** `GitBlitUrlsConfig(config, sshListenAddresses, sshAdvertizedAddresses)`. */
  method Create(config: GerritConfig, listen: Option<seq<SocketAddress>>, advertised: seq<string>,
                parse: string -> ParsedUri, localHost: HostName)
    returns (c: Construction)
    ensures c.NullPointer? <==> DetermineLoginUrl(config.canonicalWebUrl, config.authType).CanonicalUrlMissing?
    ensures c.Built? ==>
              c.config.canonicalWebUrl == config.canonicalWebUrl &&
              c.config.httpdListenUrl == config.httpdListenUrl &&
              c.config.downloadSchemes == config.downloadSchemes &&
              c.config.sshGitUrl ==
                SshUrlSpec(listen, advertised, config.downloadSchemes, StarHost(config.canonicalWebUrl, parse, localHost)) &&
              c.config.loginUrl == (match DetermineLoginUrl(config.canonicalWebUrl, config.authType)
                                    case LoginAt(url) => Some(url)
                                    case _ => None)
  {
    var thisHost := StarHost(config.canonicalWebUrl, parse, localHost);
    var sshGitUrl := DetermineGitSshUrl(listen, advertised, config.downloadSchemes, thisHost);
    match DetermineLoginUrl(config.canonicalWebUrl, config.authType)
    case CanonicalUrlMissing =>
      return NullPointer;
    case NoLoginUrl =>
      c := Built(UrlsConfig(config.canonicalWebUrl, sshGitUrl, config.httpdListenUrl, None, config.downloadSchemes));
    case LoginAt(url) =>
      c := Built(UrlsConfig(config.canonicalWebUrl, sshGitUrl, config.httpdListenUrl, Some(url), config.downloadSchemes));
  }
}
