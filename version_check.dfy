/**
 * The documentation page's update check: a release tag "v<gerrit>.<gitblit>.<plugin>" is
 * split into its three parts, and the list of releases published on GitHub is searched for
 * the first one that is newer than the installed plugin for the same Gerrit version.
 *
 * The script compares the GitBlit and plugin parts as strings, so "10" counts as older
 * than "9". `IsNewerAsWritten` models that comparison; `IsNewer` compares the parts as
 * numbers, as evidently intended, and is what the search uses.
 */
module VersionCheck {
  import opened Wrappers
  import opened JavaStrings

  /** The three parts of a release tag. */
  datatype Tag = Tag(gerrit: string, gitblit: string, plugin: string)

  /** `s.substring(0, i)` in JavaScript, where a negative end counts as 0. */
  function Before(s: string, i: int): (r: string)
    requires i < |s|
  {
    if i < 0 then "" else s[..i]
  }

  /** The text after the last `c` of `s` (all of `s` when there is none). */
  function AfterLast(s: string, c: char): (r: string)
    ensures c !in r
  {
    NothingAfterLast(s, c);
    s[LastIndexOf(s, c) + 1..]
  }

  lemma NothingAfterLast(s: string, c: char)
    ensures c !in s[LastIndexOf(s, c) + 1..]
  {
    var i := LastIndexOf(s, c);
    var r := s[i + 1..];
    forall k | 0 <= k < |r|
      ensures r[k] != c
    {
      assert r[k] == s[i + 1 + k];
    }
  }

  /** `split(tag)`: one leading 'v' dropped, then the text after the last '.' and after the last but one. */
  function SplitTag(tag: string): (r: Tag)
    ensures '.' !in r.plugin && '.' !in r.gitblit
  {
    var t := if |tag| > 0 && tag[0] == 'v' then tag[1..] else tag;
    var rest := Before(t, LastIndexOf(t, '.'));
    Tag(Before(rest, LastIndexOf(rest, '.')), AfterLast(rest, '.'), AfterLast(t, '.'))
  }

  /** The tag written for three parts, with or without its 'v'. */
  function Format(t: Tag): string {
    t.gerrit + "." + t.gitblit + "." + t.plugin
  }

  /** A tag without its 'v' splits back into its parts, when the last two hold no '.' and the first does not start with 'v'. */
  lemma SplitFormat(t: Tag)
    requires '.' !in t.gitblit && '.' !in t.plugin
    requires |t.gerrit| > 0 ==> t.gerrit[0] != 'v'
    ensures SplitTag(Format(t)) == t
  {
    var s := Format(t);
    var rest := t.gerrit + "." + t.gitblit;
    assert s == rest + "." + t.plugin;
    LastDotBeforeDotless(rest, t.plugin);
    LastDotBeforeDotless(t.gerrit, t.gitblit);
    assert s[..|rest|] == rest && s[|rest| + 1..] == t.plugin;
    assert rest[..|t.gerrit|] == t.gerrit && rest[|t.gerrit| + 1..] == t.gitblit;
    if |t.gerrit| == 0 {
      assert s[0] == '.';
    } else {
      assert s[0] == t.gerrit[0];
    }
  }

  /** The last '.' of `a + "." + b` is the one before `b` when `b` has none. */
  lemma LastDotBeforeDotless(a: string, b: string)
    requires '.' !in b
    ensures LastIndexOf(a + "." + b, '.') == |a|
  {
    var s := a + "." + b;
    var r := LastIndexOf(s, '.');
    assert s[|a|] == '.';
  }

  /** The comparison as written: the GitBlit and plugin parts compared as strings. */
  function IsNewerAsWritten(candidate: Tag, current: Tag): (r: bool)
    ensures r ==> candidate.gerrit == current.gerrit && candidate != current
  {
    LexLessIrreflexive(current.gitblit);
    LexLessIrreflexive(current.plugin);
    candidate.gerrit == current.gerrit &&
    (LexLess(current.gitblit, candidate.gitblit) ||
     (candidate.gitblit == current.gitblit && LexLess(current.plugin, candidate.plugin)))
  }

  /** A release tag as published, with its 'v', splits back into its parts. */
  lemma SplitWrittenTag(tag: string, t: Tag)
    requires '.' !in t.gitblit && '.' !in t.plugin
    requires |t.gerrit| > 0 ==> t.gerrit[0] != 'v'
    requires tag == "v" + Format(t)
    ensures SplitTag(tag) == t
  {
    SplitFormat(t);
    assert tag[1..] == Format(t);
  }

  /** The tag of release 2.11.162.10. */
  lemma SplitTen(ten: string)
    requires ten == "v2.11.162.10"
    ensures SplitTag(ten) == Tag("2.11", "162", "10")
  {
    SplitWrittenTag(ten, Tag("2.11", "162", "10"));
  }

  /** The tag of release 2.11.162.9. */
  lemma SplitNine(nine: string)
    requires nine == "v2.11.162.9"
    ensures SplitTag(nine) == Tag("2.11", "162", "9")
  {
    SplitWrittenTag(nine, Tag("2.11", "162", "9"));
  }

  /** Evidence: release 2.11.162.10 is not seen as newer than 2.11.162.9. */
  lemma TenNotNewerThanNine(ten: string, nine: string)
    requires ten == "v2.11.162.10" && nine == "v2.11.162.9"
    ensures !IsNewerAsWritten(SplitTag(ten), SplitTag(nine))
  {
    SplitTen(ten);
    SplitNine(nine);
    assert !LexLess("9", "10");
  }

  /** Numeric order on decimal parts; parts that are not numbers fall back to string order. */
  predicate PartLess(a: string, b: string) {
    if |a| > 0 && |b| > 0 && AllDigits(a) && AllDigits(b) then DigitsValue(a) < DigitsValue(b)
    else LexLess(a, b)
  }

  /** No part is less than itself. */
  lemma PartLessIrreflexive(a: string)
    ensures !PartLess(a, a)
  {
    LexLessIrreflexive(a);
  }

  /** The two parts denote the same version: the same number, or the same text. */
  predicate PartEqual(a: string, b: string) {
    if |a| > 0 && |b| > 0 && AllDigits(a) && AllDigits(b) then DigitsValue(a) == DigitsValue(b)
    else a == b
  }

  /** The comparison the check evidently means: a later GitBlit part, or the same one and a later plugin part. */
  function IsNewer(candidate: Tag, current: Tag): (r: bool)
    ensures r ==> candidate.gerrit == current.gerrit && candidate != current
  {
    PartLessIrreflexive(current.gitblit);
    PartLessIrreflexive(current.plugin);
    candidate.gerrit == current.gerrit &&
    (PartLess(current.gitblit, candidate.gitblit) ||
     (PartEqual(candidate.gitblit, current.gitblit) && PartLess(current.plugin, candidate.plugin)))
  }

  /** On numbered releases the corrected comparison is the order of (GitBlit, plugin) number pairs. */
  lemma IsNewerOnNumbers(gerrit: string, a: nat, b: nat, c: nat, d: nat)
    ensures IsNewer(Tag(gerrit, NatToString(a), NatToString(b)), Tag(gerrit, NatToString(c), NatToString(d))) <==>
              c < a || (a == c && d < b)
  {
    DigitsValueOfNatToString(a);
    DigitsValueOfNatToString(b);
    DigitsValueOfNatToString(c);
    DigitsValueOfNatToString(d);
  }

  /** Corrected: release 2.11.162.10 is newer than 2.11.162.9. */
  lemma TenNewerThanNine(ten: string, nine: string)
    requires ten == "v2.11.162.10" && nine == "v2.11.162.9"
    ensures IsNewer(SplitTag(ten), SplitTag(nine))
  {
    SplitTen(ten);
    SplitNine(nine);
    PluginPartNewer(SplitTag(ten), SplitTag(nine));
  }

  /** Under the same Gerrit and GitBlit parts, plugin part 10 is newer than plugin part 9. */
  lemma PluginPartNewer(candidate: Tag, current: Tag)
    requires candidate.gerrit == current.gerrit && candidate.gitblit == current.gitblit
    requires candidate.plugin == "10" && current.plugin == "9"
    ensures IsNewer(candidate, current)
  {
    assert "10"[..1] == "1" && "1"[..0] == "" && "9"[..0] == "";
    assert DigitsValue("9") < DigitsValue("10");
  }

  /** A release as the GitHub API lists it. */
  datatype Release = Release(draft: bool, prerelease: bool, tagName: string, htmlUrl: string)

  /** Whether the check may offer `release` to a user of `current`. */
  function Offered(release: Release, current: Tag): (r: bool)
    ensures r ==> !release.draft && !release.prerelease
    ensures r ==> SplitTag(release.tagName).gerrit == current.gerrit && SplitTag(release.tagName) != current
  {
    !release.draft && !release.prerelease && IsNewer(SplitTag(release.tagName), current)
  }

  /** The first release in list order that satisfies `offered`. */
  function FirstWhere(releases: seq<Release>, offered: Release -> bool): (r: Option<Release>)
    ensures r.None? <==> forall k :: 0 <= k < |releases| ==> !offered(releases[k])
    ensures r.Some? ==> r.value in releases && offered(r.value)
  {
    if |releases| == 0 then None
    else if offered(releases[0]) then Some(releases[0])
    else
      assert releases == [releases[0]] + releases[1..];
      FirstWhere(releases[1..], offered)
  }

  /** The first release in list order that is offered to a user of `current`. */
  function FirstNewer(releases: seq<Release>, current: Tag): (r: Option<Release>)
    ensures r.None? <==> forall k :: 0 <= k < |releases| ==> !Offered(releases[k], current)
    ensures r.Some? ==> r.value in releases && Offered(r.value, current)
  {
    FirstWhere(releases, release => Offered(release, current))
  }

  /** The release found is the earliest one offered. */
  lemma {:induction false} FirstWhereIsEarliest(releases: seq<Release>, offered: Release -> bool, i: nat)
    requires i < |releases| && offered(releases[i])
    requires forall k :: 0 <= k < i ==> !offered(releases[k])
    ensures FirstWhere(releases, offered) == Some(releases[i])
    decreases i
  {
    if i > 0 {
      FirstWhereIsEarliest(releases[1..], offered, i - 1);
    }
  }

  /** Scanning from `k`: the release at `k` if it is offered, else the scan from `k + 1`. */
  lemma FirstNewerStep(releases: seq<Release>, current: Tag, k: nat)
    requires k < |releases|
    ensures FirstNewer(releases[k..], current) ==
              if Offered(releases[k], current) then Some(releases[k]) else FirstNewer(releases[k + 1..], current)
  {
    assert releases[k..][1..] == releases[k + 1..];
  }

  /** The JSONP answer: its status (`None` when the answer or its meta data is missing) and its releases. */
  datatype Answer = Answer(status: Option<int>, data: seq<Release>)

  /** What replaces the check link. */
  datatype Display =
    | CheckLink                      // the link the user clicks, not yet answered
    | NewerRelease(href: string, text: string)
    | Message(text: string)
    | Nothing                        // the page lacks the link or the version element

  const CurrentMessage: string := "This is the current plugin version for this Gerrit version."
  const FailureMessage: string := "Could not retrieve update information from GitHub."

  /** What an answer shows. */
  function Outcome(answer: Answer, current: Tag): (d: Display)
    ensures answer.status != Some(200) ==> d == Message(FailureMessage)
    ensures answer.status == Some(200) && FirstNewer(answer.data, current).None? ==> d == Message(CurrentMessage)
    ensures d.NewerRelease? <==> answer.status == Some(200) && FirstNewer(answer.data, current).Some?
  {
    if answer.status != Some(200) then Message(FailureMessage)
    else match FirstNewer(answer.data, current)
      case Some(release) => NewerRelease(release.htmlUrl, "A newer version " + release.tagName + " is available.")
      case None => Message(CurrentMessage)
  }

  /** The page's state: the installed version and what stands where the check link was. */
  class Checker {
    const current: Tag
    var display: Display

    /** Page load: the check is armed only when both the link and the version element exist. */
    constructor (hasLink: bool, versionText: Option<string>)
      ensures versionText.Some? ==> current == SplitTag(versionText.value)
      ensures display == if hasLink && versionText.Some? then CheckLink else Nothing
    {
      current := if versionText.Some? then SplitTag(versionText.value) else Tag("", "", "");
      display := if hasLink && versionText.Some? then CheckLink else Nothing;
    }

    /** `versionCheck(json)`: answered once; later answers find the link gone and change nothing. */
    method VersionCheck(answer: Answer)
      modifies this
      ensures old(display) == CheckLink ==> display == Outcome(answer, current)
      ensures old(display) != CheckLink ==> display == old(display)
    {
      if display != CheckLink {
        return;
      }
      if answer.status == Some(200) {
        var k := 0;
        while k < |answer.data|
          invariant 0 <= k <= |answer.data|
          invariant FirstNewer(answer.data, current) == FirstNewer(answer.data[k..], current)
        {
          var release := answer.data[k];
          FirstNewerStep(answer.data, current, k);
          if !release.draft && !release.prerelease {
            var splitTag := SplitTag(release.tagName);
            if IsNewer(splitTag, current) {
              display := NewerRelease(release.htmlUrl, "A newer version " + release.tagName + " is available.");
              return;
            }
          }
          k := k + 1;
        }
        display := Message(CurrentMessage);
      } else {
        display := Message(FailureMessage);
      }
    }
  }
}
