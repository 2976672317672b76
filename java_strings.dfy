/**
 * The string operations of `java.lang.String`, Guava's `Strings` and JavaScript's `String`
 * that the plugin relies on, with the edge cases of those libraries written out.
 * Strings are sequences of characters; letters are folded on ASCII only.
 */
module JavaStrings {
  import opened Wrappers

  /** `Strings.isNullOrEmpty`. */
  predicate IsNullOrEmpty(s: Option<string>) {
    s.None? || s.value == ""
  }

  predicate StartsWith(s: string, prefix: string) {
    |prefix| <= |s| && s[..|prefix|] == prefix
  }

  predicate EndsWith(s: string, suffix: string) {
    |suffix| <= |s| && s[|s| - |suffix|..] == suffix
  }

  /** A concatenation starts with its first part and ends with its second. */
  lemma ConcatenationEnds(a: string, b: string)
    ensures StartsWith(a + b, a) && EndsWith(a + b, b)
  {
    assert (a + b)[..|a|] == a;
    assert (a + b)[|a + b| - |b|..] == b;
  }

  /** Whether `t` occurs in `s` at index `i`. */
  predicate OccursAt(s: string, t: string, i: int) {
    0 <= i && i + |t| <= |s| && s[i..i + |t|] == t
  }

  /**
   * `s.indexOf(t, from)`: the first index at or after `from` where `t` occurs, or -1.
   */
  function IndexOfFrom(s: string, t: string, from: nat): (r: int)
    ensures r == -1 || (from <= r && OccursAt(s, t, r))
    ensures r == -1 ==> forall j :: from <= j ==> !OccursAt(s, t, j)
    ensures r != -1 ==> forall j :: from <= j < r ==> !OccursAt(s, t, j)
    decreases |s| - from
  {
    if from + |t| > |s| then -1
    else if s[from..from + |t|] == t then from
    else IndexOfFrom(s, t, from + 1)
  }

  /** `s.indexOf(t)`. */
  function IndexOf(s: string, t: string): int {
    IndexOfFrom(s, t, 0)
  }

  /** A character is in a suffix exactly when it is at one of the suffix's positions. */
  lemma CharInSuffix(s: string, c: char, from: nat)
    requires from <= |s|
    ensures c in s[from..] <==> exists k :: from <= k < |s| && s[k] == c
  {
    if c in s[from..] {
      var i :| 0 <= i < |s| - from && s[from..][i] == c;
      assert s[from + i] == c;
    }
    if exists k :: from <= k < |s| && s[k] == c {
      var k :| from <= k < |s| && s[k] == c;
      assert s[from..][k - from] == c;
    }
  }

  /** `s.indexOf(c, from)` for one character: the first index at or after `from` holding `c`. */
  lemma IndexOfCharFrom(s: string, c: char, from: nat)
    ensures var r := IndexOfFrom(s, [c], from);
            (r == -1 <==> forall k :: from <= k < |s| ==> s[k] != c) &&
            (r != -1 ==> from <= r < |s| && s[r] == c && forall k :: from <= k < r ==> s[k] != c)
  {
    var r := IndexOfFrom(s, [c], from);
    forall k | from <= k < |s| && (r == -1 || k < r)
      ensures s[k] != c
    {
      assert !OccursAt(s, [c], k);
      assert s[k..k + 1] == [s[k]];
    }
    if r != -1 {
      assert s[r..r + 1] == [c];
      assert s[r] == c;
    }
  }

  /** The first occurrence is what `indexOf` finds. */
  lemma IndexOfFirstOccurrence(s: string, t: string, i: int)
    requires OccursAt(s, t, i)
    requires forall j :: 0 <= j < i ==> !OccursAt(s, t, j)
    ensures IndexOf(s, t) == i
  {
  }

  /** `s.lastIndexOf(c)`: the last index holding `c`, or -1. */
  function LastIndexOf(s: string, c: char): (r: int)
    ensures -1 <= r < |s|
    ensures r >= 0 ==> s[r] == c
    ensures forall j :: r < j < |s| ==> s[j] != c
  {
    if |s| == 0 then -1
    else if s[|s| - 1] == c then |s| - 1
    else LastIndexOf(s[..|s| - 1], c)
  }

  // ---------------------------------------------------------------------------
  // Java's String.split with a one-character literal delimiter and limit 0

  /** The pieces between the occurrences of `c`, empty ones included. */
  function Pieces(s: string, c: char): (r: seq<string>)
    ensures |r| >= 1
    ensures forall k :: 0 <= k < |r| ==> c !in r[k]
    decreases |s|
  {
    if |s| == 0 then [""]
    else if s[0] == c then [""] + Pieces(s[1..], c)
    else
      var rest := Pieces(s[1..], c);
      [[s[0]] + rest[0]] + rest[1..]
  }

  /** Removes the trailing empty strings, as `split` does with limit 0. */
  function DropTrailingEmpty(r: seq<string>): (d: seq<string>)
    ensures |d| <= |r| && d == r[..|d|]
    ensures |d| > 0 ==> d[|d| - 1] != ""
    ensures forall k :: |d| <= k < |r| ==> r[k] == ""
  {
    if |r| > 0 && r[|r| - 1] == "" then DropTrailingEmpty(r[..|r| - 1]) else r
  }

  /**
   * `s.split(String.valueOf(c))`: when `c` does not occur the result is `[s]` (so `""` gives
   * `[""]`); otherwise the pieces with their trailing empty strings dropped, which can leave
   * nothing at all.
   */
  function Split(s: string, c: char): seq<string> {
    if c !in s then [s] else DropTrailingEmpty(Pieces(s, c))
  }

  /** Joining the pieces with `c` gives the string back. */
  function Join(r: seq<string>, c: char): string
    requires |r| >= 1
  {
    if |r| == 1 then r[0] else r[0] + [c] + Join(r[1..], c)
  }

  lemma {:induction false} PiecesJoin(s: string, c: char)
    ensures Join(Pieces(s, c), c) == s
    decreases |s|
  {
    if |s| == 0 {
    } else if s[0] == c {
      PiecesJoin(s[1..], c);
      assert s == [c] + s[1..];
    } else {
      var rest := Pieces(s[1..], c);
      PiecesJoin(s[1..], c);
      if |rest| == 1 {
        assert s == [s[0]] + rest[0];
      } else {
        assert Join(rest, c) == rest[0] + [c] + Join(rest[1..], c);
        var r := Pieces(s, c);
        assert r[1..] == rest[1..];
        assert s == [s[0]] + s[1..];
      }
    }
  }

  /** A string without `c` is a single piece. */
  lemma {:induction false} PiecesWithoutDelimiter(s: string, c: char)
    requires c !in s
    ensures Pieces(s, c) == [s]
    decreases |s|
  {
    if |s| > 0 {
      PiecesWithoutDelimiter(s[1..], c);
      assert [s[0]] + s[1..] == s;
    }
  }

  /** A piece without `c`, then `c`: the piece comes first and the rest splits on. */
  lemma {:induction false} PiecesAfterSegment(t: string, c: char, s: string)
    requires c !in t
    ensures Pieces(t + [c] + s, c) == [t] + Pieces(s, c)
    decreases |t|
  {
    if |t| == 0 {
      assert t + [c] + s == [c] + s;
      assert ([c] + s)[1..] == s;
    } else {
      var u := t + [c] + s;
      assert u[0] == t[0] && u[1..] == t[1..] + [c] + s;
      PiecesAfterSegment(t[1..], c, s);
      assert [t[0]] + t[1..] == t;
    }
  }

  /** A string of `n` delimiters has `n + 1` empty pieces. */
  lemma {:induction false} PiecesOfDelimiters(s: string, c: char)
    requires forall k :: 0 <= k < |s| ==> s[k] == c
    ensures Pieces(s, c) == seq(|s| + 1, _ => "")
    decreases |s|
  {
    if |s| > 0 {
      PiecesOfDelimiters(s[1..], c);
    }
  }

  /** Joining empty pieces leaves only the delimiters. */
  lemma {:induction false} JoinOfEmpties(r: seq<string>, c: char)
    requires |r| >= 1 && forall k :: 0 <= k < |r| ==> r[k] == ""
    ensures Join(r, c) == seq(|r| - 1, _ => c)
    decreases |r|
  {
    if |r| > 1 {
      JoinOfEmpties(r[1..], c);
    }
  }

  /** Dropping trailing empties from a run of empty strings leaves nothing. */
  lemma {:induction false} DropAllEmpty(r: seq<string>)
    requires forall k :: 0 <= k < |r| ==> r[k] == ""
    ensures DropTrailingEmpty(r) == []
    decreases |r|
  {
    if |r| > 0 {
      DropAllEmpty(r[..|r| - 1]);
    }
  }

  /**
   * `split` returns an empty array exactly for a non-empty string made only of delimiters,
   * so indexing its last element fails for those strings and no others.
   */
  lemma SplitEmptyIffOnlyDelimiters(s: string, c: char)
    ensures Split(s, c) == [] <==> |s| > 0 && forall k :: 0 <= k < |s| ==> s[k] == c
  {
    if |s| > 0 && forall k :: 0 <= k < |s| ==> s[k] == c {
      assert s[0] == c;
      PiecesOfDelimiters(s, c);
      DropAllEmpty(Pieces(s, c));
    }
    if Split(s, c) == [] {
      assert c in s;
      var r := Pieces(s, c);
      assert forall k :: 0 <= k < |r| ==> r[k] == "";
      JoinOfEmpties(r, c);
      PiecesJoin(s, c);
    }
  }

  /** Every piece of `split` is a piece of the string: the string has no `c` inside a piece. */
  lemma SplitPiecesHaveNoDelimiter(s: string, c: char)
    ensures forall k :: 0 <= k < |Split(s, c)| ==> c !in Split(s, c)[k]
  {
  }

  // ---------------------------------------------------------------------------
  // Replacement

  /** `s.replace(t, r)`: every non-overlapping occurrence, scanning left to right. */
  function ReplaceAll(s: string, t: string, r: string): string
    requires |t| > 0
    decreases |s|
  {
    if |s| < |t| then s
    else if s[..|t|] == t then r + ReplaceAll(s[|t|..], t, r)
    else [s[0]] + ReplaceAll(s[1..], t, r)
  }

  /** A prefix that cannot start an occurrence of `t` is copied unchanged. */
  lemma {:induction false} ReplaceAllSkips(a: string, b: string, t: string, r: string)
    requires |t| > 0 && t[0] !in a
    ensures ReplaceAll(a + b, t, r) == a + ReplaceAll(b, t, r)
    decreases |a|
  {
    if |a| > 0 {
      var s := a + b;
      assert s[1..] == a[1..] + b;
      ReplaceAllSkips(a[1..], b, t, r);
      if |s| >= |t| {
        assert s[..|t|][0] == a[0] != t[0];
        assert ReplaceAll(s, t, r) == [s[0]] + ReplaceAll(s[1..], t, r);
        assert [a[0]] + a[1..] == a;
        assert [s[0]] + (a[1..] + ReplaceAll(b, t, r)) == a + ReplaceAll(b, t, r);
      } else {
        assert ReplaceAll(s[1..], t, r) == s[1..];
        assert ReplaceAll(b, t, r) == b;
      }
    } else {
      assert a + b == b;
    }
  }

  /** Without an occurrence of `t`, `replace` leaves the string as it is. */
  lemma {:induction false} ReplaceAllAbsent(s: string, t: string, r: string)
    requires |t| > 0 && IndexOf(s, t) == -1
    ensures ReplaceAll(s, t, r) == s
    decreases |s|
  {
    if |s| >= |t| {
      assert !OccursAt(s, t, 0);
      assert IndexOf(s[1..], t) == -1 by {
        forall j | 0 <= j
          ensures !OccursAt(s[1..], t, j)
        {
          assert !OccursAt(s, t, j + 1);
          if j + |t| <= |s| - 1 {
            assert s[1..][j..j + |t|] == s[j + 1..j + 1 + |t|];
          }
        }
      }
      ReplaceAllAbsent(s[1..], t, r);
      assert [s[0]] + s[1..] == s;
    }
  }

  /** An occurrence of `t` at the start is replaced and the scan goes on after it. */
  lemma ReplaceAllAtStart(t: string, b: string, r: string)
    requires |t| > 0
    ensures ReplaceAll(t + b, t, r) == r + ReplaceAll(b, t, r)
  {
    assert (t + b)[..|t|] == t;
    assert (t + b)[|t|..] == b;
  }

  /** `s.replaceFirst(t, r)` for a pattern `t` with no regular-expression metacharacters. */
  function ReplaceFirst(s: string, t: string, r: string): (x: string)
    ensures IndexOf(s, t) == -1 ==> x == s
  {
    var i := IndexOf(s, t);
    if i == -1 then s else s[..i] + r + s[i + |t|..]
  }

  /** `t` repeated `n` times. */
  function Repeat(t: string, n: nat): (r: string)
    ensures |r| == n * |t|
  {
    if n == 0 then "" else t + Repeat(t, n - 1)
  }

  /** `s + (s.endsWith("/") ? "" : "/")`: a slash appended unless one is there already. */
  function WithTrailingSlash(s: string): (r: string)
    ensures EndsWith(r, "/")
    ensures StartsWith(r, s) && |r| <= |s| + 1
  {
    if EndsWith(s, "/") then s
    else
      var r := s + "/";
      assert r[..|s|] == s && r[|r| - 1..] == "/";
      r
  }

  /** Text appended after the trailing slash: the result starts with `s` and ends with '/' and the text. */
  lemma AppendedAfterSlash(s: string, tail: string)
    ensures StartsWith(WithTrailingSlash(s) + tail, s)
    ensures EndsWith(WithTrailingSlash(s) + tail, "/" + tail)
  {
    var base := WithTrailingSlash(s);
    var r := base + tail;
    assert r[..|s|] == base[..|s|];
    assert r[|r| - |tail| - 1..] == base[|base| - 1..] + tail;
  }

  /** Appending the slash a second time changes nothing. */
  lemma WithTrailingSlashIdempotent(s: string)
    ensures WithTrailingSlash(WithTrailingSlash(s)) == WithTrailingSlash(s)
  {
  }

  // ---------------------------------------------------------------------------
  // Trimming

  /** `String.trim` removes every character up to U+0020 from both ends. */
  predicate IsTrimmed(c: char) {
    c <= ' '
  }

  function TrimStart(s: string): (r: string)
    ensures |r| <= |s| && r == s[|s| - |r|..]
    ensures |r| > 0 ==> !IsTrimmed(r[0])
  {
    if |s| > 0 && IsTrimmed(s[0]) then TrimStart(s[1..]) else s
  }

  function TrimEnd(s: string): (r: string)
    ensures |r| <= |s| && r == s[..|r|]
    ensures |r| > 0 ==> !IsTrimmed(r[|r| - 1])
  {
    if |s| > 0 && IsTrimmed(s[|s| - 1]) then TrimEnd(s[..|s| - 1]) else s
  }

  function Trim(s: string): string {
    TrimEnd(TrimStart(s))
  }

  // ---------------------------------------------------------------------------
  // Case folding (ASCII letters only)

  function LowerChar(c: char): char {
    if 'A' <= c <= 'Z' then (c as int + 32) as char else c
  }

  /** `s.toLowerCase()`. */
  function ToLower(s: string): (r: string)
    ensures |r| == |s|
    ensures forall k :: 0 <= k < |s| ==> r[k] == LowerChar(s[k])
  {
    if |s| == 0 then "" else [LowerChar(s[0])] + ToLower(s[1..])
  }

  /** `a.equalsIgnoreCase(b)`. */
  predicate EqualsIgnoreCase(a: string, b: string) {
    ToLower(a) == ToLower(b)
  }

  lemma ToLowerIdempotent(s: string)
    ensures ToLower(ToLower(s)) == ToLower(s)
  {
  }

  // ---------------------------------------------------------------------------
  // Decimal numbers: Integer.toString and Integer.parseInt

  const MaxInt: int := 0x7fff_ffff
  const MinInt: int := -0x8000_0000

  predicate IsDigit(c: char) {
    '0' <= c <= '9'
  }

  predicate AllDigits(s: string) {
    forall k :: 0 <= k < |s| ==> IsDigit(s[k])
  }

  function DigitChar(d: nat): char
    requires d < 10
  {
    ('0' as int + d) as char
  }

  /** The value of a string of decimal digits. */
  function DigitsValue(s: string): nat
    requires AllDigits(s)
  {
    if |s| == 0 then 0
    else DigitsValue(s[..|s| - 1]) * 10 + (s[|s| - 1] as int - '0' as int)
  }

  /** `Integer.toString(n)` for a natural number. */
  function NatToString(n: nat): (r: string)
    ensures |r| >= 1 && AllDigits(r)
  {
    if n < 10 then [DigitChar(n)] else NatToString(n / 10) + [DigitChar(n % 10)]
  }

  /** `Integer.toString(i)`. */
  function IntToString(i: int): string {
    if i < 0 then "-" + NatToString(-i) else NatToString(i)
  }

  /**
   * `Integer.parseInt(s)`: an optional sign, then at least one decimal digit, and a value
   * within 32 bits; `None` stands for the NumberFormatException.
   */
  function ParseInt(s: string): (r: Option<int>)
    ensures r.Some? ==> MinInt <= r.value <= MaxInt
  {
    if |s| == 0 then None
    else
      var negative := s[0] == '-';
      var digits := if s[0] == '-' || s[0] == '+' then s[1..] else s;
      if |digits| == 0 || !AllDigits(digits) then None
      else
        var v: int := if negative then 0 - DigitsValue(digits) as int else DigitsValue(digits);
        if MinInt <= v <= MaxInt then Some(v) else None
  }

  lemma {:induction false} DigitsValueOfNatToString(n: nat)
    ensures DigitsValue(NatToString(n)) == n
  {
    if n >= 10 {
      var s := NatToString(n);
      DigitsValueOfNatToString(n / 10);
      assert s[..|s| - 1] == NatToString(n / 10);
    }
  }

  /** Integer.parseInt reads back what Integer.toString wrote, for every non-negative int. */
  lemma ParseNatToString(n: nat)
    requires n <= MaxInt
    ensures ParseInt(NatToString(n)) == Some(n)
  {
    DigitsValueOfNatToString(n);
  }

  // ---------------------------------------------------------------------------
  // Orders on strings

  /** `a < b` on JavaScript strings: lexicographic by character. */
  predicate LexLess(a: string, b: string)
    decreases |a|
  {
    if |a| == 0 then |b| > 0
    else if |b| == 0 then false
    else a[0] < b[0] || (a[0] == b[0] && LexLess(a[1..], b[1..]))
  }

  /** No string is less than itself. */
  lemma {:induction false} LexLessIrreflexive(a: string)
    ensures !LexLess(a, a)
    decreases |a|
  {
    if |a| > 0 {
      LexLessIrreflexive(a[1..]);
    }
  }

  /** `a.compareTo(b)`: the difference of the first differing characters, else of the lengths. */
  function CompareTo(a: string, b: string): int
    decreases |a|
  {
    if |a| == 0 || |b| == 0 then |a| - |b|
    else if a[0] != b[0] then a[0] as int - b[0] as int
    else CompareTo(a[1..], b[1..])
  }

  lemma {:induction false} CompareToAntisymmetric(a: string, b: string)
    ensures CompareTo(a, b) == -CompareTo(b, a)
    decreases |a|
  {
    if |a| > 0 && |b| > 0 && a[0] == b[0] {
      CompareToAntisymmetric(a[1..], b[1..]);
    }
  }

  lemma {:induction false} CompareToZeroIffEqual(a: string, b: string)
    ensures CompareTo(a, b) == 0 <==> a == b
    decreases |a|
  {
    if |a| > 0 && |b| > 0 && a[0] == b[0] {
      CompareToZeroIffEqual(a[1..], b[1..]);
      assert a == [a[0]] + a[1..] && b == [b[0]] + b[1..];
    }
  }

  /** `compareTo` is negative exactly when `a` sorts before `b`. */
  lemma {:induction false} CompareToSign(a: string, b: string)
    ensures CompareTo(a, b) < 0 <==> LexLess(a, b)
    decreases |a|
  {
    if |a| > 0 && |b| > 0 && a[0] == b[0] {
      CompareToSign(a[1..], b[1..]);
    }
  }
}
