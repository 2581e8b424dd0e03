/** Python string behaviour the pipeline relies on: `str.isspace`, `strip`,
    `lower`, `splitlines`, `startswith`, `in`, `join`, and the character
    classes `\s`, `\d`, `\w` of its regular expressions. */
module Text {

  datatype Option<+T> = None | Some(value: T) {
    predicate IsFailure() { None? }

    function PropagateFailure<U>(): Option<U>
      requires None?
    {
      None
    }

    function Extract(): T
      requires Some?
    {
      value
    }
  }

  /** A call that either returns a value or raises (an uncaught exception). */
  datatype Outcome<+T> = Returns(value: T) | Raises

  /** The characters for which Python's `str.isspace()` holds; `\s` in a str
      pattern and the argument-less `strip()` use the same set. */
  predicate IsSpace(c: char) {
    c == ' ' || '\t' <= c <= '\r' || '\U{1c}' <= c <= '\U{1f}' || c == '\U{85}' || c == '\U{a0}'
    || c == '\U{1680}' || '\U{2000}' <= c <= '\U{200a}' || c == '\U{2028}' || c == '\U{2029}'
    || c == '\U{202f}' || c == '\U{205f}' || c == '\U{3000}'
  }

  /** The line boundaries of `str.splitlines()`. */
  predicate IsLineBreak(c: char) {
    c == '\n' || c == '\r' || c == '\U{0b}' || c == '\U{0c}' || '\U{1c}' <= c <= '\U{1e}'
    || c == '\U{85}' || c == '\U{2028}' || c == '\U{2029}'
  }

  predicate IsDigit(c: char) { '0' <= c <= '9' }

  predicate IsLetter(c: char) { 'a' <= c <= 'z' || 'A' <= c <= 'Z' }

  /** `\w` (restricted to ASCII, see README). */
  predicate IsWordChar(c: char) { IsLetter(c) || IsDigit(c) || c == '_' }

  function LowerChar(c: char): (d: char)
    ensures !('A' <= d <= 'Z')
    ensures IsLetter(c) <==> IsLetter(d)
    ensures IsDigit(c) <==> IsDigit(d)
    ensures IsSpace(c) <==> IsSpace(d)
  {
    if 'A' <= c <= 'Z' then (c as int + 32) as char else c
  }

  /** `str.lower()` on ASCII letters; other characters are kept. */
  function Lower(s: string): (r: string)
    ensures |r| == |s|
    ensures forall i :: 0 <= i < |s| ==> r[i] == LowerChar(s[i])
  {
    seq(|s|, i requires 0 <= i < |s| => LowerChar(s[i]))
  }

  predicate AllSpace(s: string) { forall i :: 0 <= i < |s| ==> IsSpace(s[i]) }

  predicate AllDigits(s: string) { forall i :: 0 <= i < |s| ==> IsDigit(s[i]) }

  /** Start of the longest run of characters satisfying `p` that ends at `j`. */
  function RunStart(s: string, j: nat, p: char -> bool): (i: nat)
    requires j <= |s|
    ensures i <= j
    ensures forall k :: i <= k < j ==> p(s[k])
    ensures i == 0 || !p(s[i - 1])
  {
    if j > 0 && p(s[j - 1]) then RunStart(s, j - 1, p) else j
  }

  /** `s.lstrip(chars)`, with the stripped characters given as a predicate. */
  function LStripBy(s: string, strip: char -> bool): (r: string)
    ensures |r| <= |s| && r == s[|s| - |r|..]
    ensures r == [] || !strip(r[0])
    ensures forall i :: 0 <= i < |s| - |r| ==> strip(s[i])
  {
    s[RunEnd(s, 0, strip)..]
  }

  /** `s.rstrip(chars)`, with the stripped characters given as a predicate. */
  function RStripBy(s: string, strip: char -> bool): (r: string)
    ensures |r| <= |s| && r == s[..|r|]
    ensures r == [] || !strip(r[|r| - 1])
    ensures forall i :: |r| <= i < |s| ==> strip(s[i])
  {
    s[..RunStart(s, |s|, strip)]
  }

  function LStrip(s: string): string { LStripBy(s, IsSpace) }

  function RStrip(s: string): string { RStripBy(s, IsSpace) }

  /** `s.strip()`: the longest slice of `s` with no whitespace at either end. */
  function Strip(s: string): (r: string)
    ensures |r| <= |s|
    ensures r == [] || (!IsSpace(r[0]) && !IsSpace(r[|r| - 1]))
  {
    LStrip(RStrip(s))
  }

  predicate IsStripped(s: string) { s == [] || (!IsSpace(s[0]) && !IsSpace(s[|s| - 1])) }

  /** Stripping a stripped string changes nothing. */
  lemma StripStripped(s: string)
    requires IsStripped(s)
    ensures Strip(s) == s
  {
    assert RStrip(s) == s by {
      if s != [] {
        assert !IsSpace(s[|s| - 1]);
      }
    }
  }

  predicate StartsWith(s: string, prefix: string) {
    |prefix| <= |s| && s[..|prefix|] == prefix
  }

  predicate EndsWith(s: string, suffix: string) {
    |suffix| <= |s| && s[|s| - |suffix|..] == suffix
  }

  predicate OccursAt(s: string, pat: string, i: int) {
    0 <= i && i + |pat| <= |s| && s[i..i + |pat|] == pat
  }

  /** `pat` occurs in `s` at some index from `i` on. */
  predicate OccursFrom(s: string, pat: string, i: nat)
    decreases |s| + 1 - i
  {
    i <= |s| && (OccursAt(s, pat, i) || OccursFrom(s, pat, i + 1))
  }

  /** Python's `pat in s`. */
  predicate Contains(s: string, pat: string) { OccursFrom(s, pat, 0) }

  lemma {:induction false} OccursFromIff(s: string, pat: string, i: nat)
    ensures OccursFrom(s, pat, i) <==> exists j | i <= j <= |s| :: OccursAt(s, pat, j)
    decreases |s| + 1 - i
  {
    if i <= |s| {
      OccursFromIff(s, pat, i + 1);
    }
  }

  /** Case-insensitive prefix test against a lower-case `prefix`. */
  predicate StartsWithCI(s: string, prefix: string) { StartsWith(Lower(s), prefix) }

  predicate OccursAtCI(s: string, pat: string, i: int) { OccursAt(Lower(s), pat, i) }

  predicate ContainsCI(s: string, pat: string) { Contains(Lower(s), pat) }

  /** End of the longest run of characters satisfying `p` that starts at `i`. */
  function RunEnd(s: string, i: nat, p: char -> bool): (j: nat)
    requires i <= |s|
    ensures i <= j <= |s|
    ensures forall k :: i <= k < j ==> p(s[k])
    ensures j == |s| || !p(s[j])
    decreases |s| - i
  {
    if i < |s| && p(s[i]) then RunEnd(s, i + 1, p) else i
  }

  function SpaceEnd(s: string, i: nat): (j: nat)
    requires i <= |s|
    ensures i <= j <= |s|
  {
    RunEnd(s, i, IsSpace)
  }

  /** The first index at or after `i` holding `c`, or `|s|`. */
  function FindChar(s: string, c: char, i: nat): (j: nat)
    requires i <= |s|
    ensures i <= j <= |s|
    ensures forall k :: i <= k < j ==> s[k] != c
    ensures j == |s| || s[j] == c
    decreases |s| - i
  {
    if i == |s| || s[i] == c then i else FindChar(s, c, i + 1)
  }

  /** `re.sub(r"\s+", "", s)`: `s` with every whitespace character removed. */
  function RemoveSpace(s: string): (r: string)
    ensures |r| <= |s|
    ensures forall k :: 0 <= k < |r| ==> !IsSpace(r[k])
    ensures AllSpace(s) <==> r == []
  {
    if s == [] then []
    else if IsSpace(s[0]) then RemoveSpace(s[1..])
    else [s[0]] + RemoveSpace(s[1..])
  }

  /** A run of `p`-characters from `i` to `j` that cannot be extended has
      end `j`. */
  lemma {:induction false} RunEndIs(s: string, i: nat, j: nat, p: char -> bool)
    requires i <= j <= |s|
    requires forall k :: i <= k < j ==> p(s[k])
    requires j == |s| || !p(s[j])
    ensures RunEnd(s, i, p) == j
    decreases j - i
  {
    if i < j {
      RunEndIs(s, i + 1, j, p);
    }
  }

  /** A run of `p`-characters from `i` to `j` that cannot be extended
      leftwards has start `i`. */
  lemma {:induction false} RunStartIs(s: string, j: nat, i: nat, p: char -> bool)
    requires i <= j <= |s|
    requires forall k :: i <= k < j ==> p(s[k])
    requires i == 0 || !p(s[i - 1])
    ensures RunStart(s, j, p) == i
    decreases j - i
  {
    if i < j {
      RunStartIs(s, j - 1, i, p);
    }
  }

  /** Splits off the longest prefix of `t` whose characters satisfy `p`. */
  function Span(t: string, p: char -> bool): (r: (string, string))
    ensures r.0 + r.1 == t
    ensures forall k :: 0 <= k < |r.0| ==> p(r.0[k])
    ensures r.1 == [] || !p(r.1[0])
  {
    var n := RunEnd(t, 0, p);
    assert t[..n] + t[n..] == t;
    (t[..n], t[n..])
  }

  /** A run followed by a character outside it splits off as that run. */
  lemma SpanOf(run: string, rest: string, p: char -> bool)
    requires forall k :: 0 <= k < |run| ==> p(run[k])
    requires rest == [] || !p(rest[0])
    ensures Span(run + rest, p) == (run, rest)
  {
    RunOver([], run, rest, p);
    assert [] + run + rest == run + rest;
    assert (run + rest)[..|run|] == run && (run + rest)[|run|..] == rest;
  }

  /** In `pre + piece + post`, a run of `p` that starts where `piece` starts
      ends where `piece` ends when `post` does not begin with a `p`. */
  lemma RunOver(pre: string, piece: string, post: string, p: char -> bool)
    requires forall k :: 0 <= k < |piece| ==> p(piece[k])
    requires post == [] || !p(post[0])
    ensures RunEnd(pre + piece + post, |pre|, p) == |pre| + |piece|
  {
    var s := pre + piece + post;
    forall k | |pre| <= k < |pre| + |piece| ensures p(s[k]) {
      assert s[k] == piece[k - |pre|];
    }
    if post != [] {
      assert s[|pre| + |piece|] == post[0];
    }
    RunEndIs(s, |pre|, |pre| + |piece|, p);
  }

  lemma {:induction false} FindCharIs(s: string, c: char, i: nat, j: nat)
    requires i <= j <= |s|
    requires forall k :: i <= k < j ==> s[k] != c
    requires j == |s| || s[j] == c
    ensures FindChar(s, c, i) == j
    decreases j - i
  {
    if i < j {
      FindCharIs(s, c, i + 1, j);
    }
  }

  /** `re.search` over match attempts: the attempt at the first position
      from `i` to `n` that matches, if any. */
  function FirstMatch<T>(attempt: nat -> Option<T>, i: nat, n: nat): (r: Option<T>)
    ensures r.Some? ==> exists j :: i <= j <= n && attempt(j) == r
    decreases n + 1 - i
  {
    if i > n then None
    else if attempt(i).Some? then attempt(i)
    else FirstMatch(attempt, i + 1, n)
  }

  lemma {:induction false} FirstMatchNone<T>(attempt: nat -> Option<T>, i: nat, n: nat)
    ensures FirstMatch(attempt, i, n).None? <==> forall j :: i <= j <= n ==> attempt(j).None?
    decreases n + 1 - i
  {
    if i <= n && attempt(i).None? {
      FirstMatchNone(attempt, i + 1, n);
    }
  }

  lemma {:induction false} FirstMatchLeftmost<T>(attempt: nat -> Option<T>, i: nat, j: nat, n: nat)
    requires i <= j <= n && attempt(j).Some?
    requires forall k :: i <= k < j ==> attempt(k).None?
    ensures FirstMatch(attempt, i, n) == attempt(j)
    decreases j - i
  {
    if i < j {
      FirstMatchLeftmost(attempt, i + 1, j, n);
    }
  }

  /** `sep.join(parts)`. */
  function Join(parts: seq<string>, sep: string): string {
    if |parts| == 0 then ""
    else if |parts| == 1 then parts[0]
    else parts[0] + sep + Join(parts[1..], sep)
  }

  /** A joined string begins with its first part. */
  lemma JoinStartsWith(parts: seq<string>, sep: string)
    requires |parts| > 0
    ensures StartsWith(Join(parts, sep), parts[0])
  {
    if |parts| > 1 {
      assert (parts[0] + sep + Join(parts[1..], sep))[..|parts[0]|] == parts[0];
    }
  }

  /** A joined string ends with its last part. */
  lemma {:induction false} JoinEndsWith(parts: seq<string>, sep: string)
    requires |parts| > 0
    ensures EndsWith(Join(parts, sep), parts[|parts| - 1])
  {
    if |parts| > 1 {
      JoinEndsWith(parts[1..], sep);
      var rest := Join(parts[1..], sep);
      var last := parts[|parts| - 1];
      assert parts[1..][|parts[1..]| - 1] == last;
      var whole := parts[0] + sep + rest;
      assert whole[|whole| - |last|..] == rest[|rest| - |last|..];
    }
  }

  /** A match reported by `matchAt` at `j` that `SubFrom` takes: a
      non-empty match that ends inside the string. */
  predicate Hit(s: string, j: nat, matchAt: (string, nat) -> Option<(nat, string)>) {
    matchAt(s, j).Some? && j < matchAt(s, j).value.0 <= |s|
  }

  /** `re.sub` of a pattern that never matches the empty string, scanning
      `s` from `i`: where `matchAt(s, j)` reports a match ending at `e`, its
      replacement is emitted and the scan resumes at `e`; elsewhere the
      character is copied. Matches are looked for in the original string,
      so anchors and `\b` see the original neighbours. */
  function SubFrom(s: string, i: nat, matchAt: (string, nat) -> Option<(nat, string)>): string
    requires i <= |s|
    decreases |s| - i
  {
    if i == |s| then ""
    else if Hit(s, i, matchAt) then matchAt(s, i).value.1 + SubFrom(s, matchAt(s, i).value.0, matchAt)
    else [s[i]] + SubFrom(s, i + 1, matchAt)
  }

  /** `re.sub(pattern, repl, s)`. */
  function Sub(s: string, matchAt: (string, nat) -> Option<(nat, string)>): string {
    SubFrom(s, 0, matchAt)
  }

  /** A substitution whose every match is replaced by the text it matched
      (in particular one that never matches) leaves the string as it is. */
  lemma {:induction false} SubFromKeeps(s: string, i: nat, matchAt: (string, nat) -> Option<(nat, string)>)
    requires i <= |s|
    requires forall j | i <= j < |s| && Hit(s, j, matchAt) :: matchAt(s, j).value.1 == s[j..matchAt(s, j).value.0]
    ensures SubFrom(s, i, matchAt) == s[i..]
    decreases |s| - i
  {
    if i < |s| {
      if Hit(s, i, matchAt) {
        var e := matchAt(s, i).value.0;
        SubFromKeeps(s, e, matchAt);
        assert s[i..e] + s[e..] == s[i..];
      } else {
        SubFromKeeps(s, i + 1, matchAt);
        assert [s[i]] + s[i + 1..] == s[i..];
      }
    }
  }

  /** A substitution whose replacements are never longer than what they
      replace never lengthens the string. */
  lemma {:induction false} SubFromShorter(s: string, i: nat, matchAt: (string, nat) -> Option<(nat, string)>)
    requires i <= |s|
    requires forall j | i <= j < |s| && Hit(s, j, matchAt) :: |matchAt(s, j).value.1| <= matchAt(s, j).value.0 - j
    ensures |SubFrom(s, i, matchAt)| <= |s| - i
    decreases |s| - i
  {
    if i < |s| {
      if Hit(s, i, matchAt) {
        SubFromShorter(s, matchAt(s, i).value.0, matchAt);
      } else {
        SubFromShorter(s, i + 1, matchAt);
      }
    }
  }

  /** `\s+`, replaced by one space. */
  function SpaceRunAt(s: string, j: nat): Option<(nat, string)> {
    if j < |s| && IsSpace(s[j]) then Some((SpaceEnd(s, j), " ")) else None
  }

  /** Every whitespace character is a plain space, and no two are adjacent. */
  predicate SingleSpaced(s: string) {
    forall k | 0 <= k < |s| && IsSpace(s[k]) :: s[k] == ' ' && (k + 1 == |s| || !IsSpace(s[k + 1]))
  }

  /** `re.sub(r'\s+', ' ', s)`: every run of whitespace becomes one space. */
  function CollapseSpaces(s: string): (r: string)
    ensures |r| <= |s| && SingleSpaced(r)
  {
    SubFromShorter(s, 0, SpaceRunAt);
    CollapseFrom(s, 0);
    Sub(s, SpaceRunAt)
  }

  /** The collapsing scan from `i` is single-spaced, and it starts with
      `s[i]` when that is not whitespace. */
  lemma {:induction false} CollapseFrom(s: string, i: nat)
    requires i <= |s|
    ensures SingleSpaced(SubFrom(s, i, SpaceRunAt))
    ensures i < |s| && !IsSpace(s[i]) ==> SubFrom(s, i, SpaceRunAt) != [] && SubFrom(s, i, SpaceRunAt)[0] == s[i]
    decreases |s| - i
  {
    if i < |s| {
      var r := SubFrom(s, i, SpaceRunAt);
      if IsSpace(s[i]) {
        var e := SpaceEnd(s, i);
        CollapseFrom(s, e);
        var rest := SubFrom(s, e, SpaceRunAt);
        assert r == " " + rest;
        forall k | 0 <= k < |r| && IsSpace(r[k]) ensures r[k] == ' ' && (k + 1 == |r| || !IsSpace(r[k + 1])) {
          if k > 0 {
            assert r[k] == rest[k - 1];
          } else if |rest| > 0 {
            assert e < |s| && r[1] == rest[0];
          }
        }
      } else {
        CollapseFrom(s, i + 1);
        var rest := SubFrom(s, i + 1, SpaceRunAt);
        assert r == [s[i]] + rest;
        forall k | 0 <= k < |r| && IsSpace(r[k]) ensures r[k] == ' ' && (k + 1 == |r| || !IsSpace(r[k + 1])) {
          assert k > 0 && r[k] == rest[k - 1];
        }
      }
    }
  }

  /** `s.strip()` is a slice of `s`. */
  lemma StripIsSlice(s: string) returns (a: nat, b: nat)
    ensures a <= b <= |s| && Strip(s) == s[a..b]
  {
    var u := RStrip(s);
    b := |u|;
    a := |u| - |Strip(s)|;
    assert u == s[..b];
  }

  /** Stripping keeps a single-spaced string single-spaced. */
  lemma StripSingleSpaced(s: string)
    requires SingleSpaced(s)
    ensures SingleSpaced(Strip(s))
  {
    var a, b := StripIsSlice(s);
    var r := Strip(s);
    forall k | 0 <= k < |r| && IsSpace(r[k]) ensures r[k] == ' ' && (k + 1 == |r| || !IsSpace(r[k + 1])) {
      assert r[k] == s[a + k];
      if k + 1 < |r| {
        assert r[k + 1] == s[a + k + 1];
      }
    }
  }

  /** Collapsing a single-spaced string changes nothing. */
  lemma CollapseSingleSpaced(s: string)
    requires SingleSpaced(s)
    ensures CollapseSpaces(s) == s
  {
    forall j | 0 <= j < |s| && Hit(s, j, SpaceRunAt)
      ensures SpaceRunAt(s, j).value.1 == s[j..SpaceRunAt(s, j).value.0]
    {
      RunEndIs(s, j, j + 1, IsSpace);
    }
    SubFromKeeps(s, 0, SpaceRunAt);
    assert s[0..] == s;
  }

  /** The first line break at or after `i`, or `|s|`. */
  function LineBreakAt(s: string, i: nat): (j: nat)
    requires i <= |s|
    ensures i <= j <= |s|
    ensures forall k :: i <= k < j ==> !IsLineBreak(s[k])
    ensures j == |s| || IsLineBreak(s[j])
    decreases |s| - i
  {
    if i == |s| || IsLineBreak(s[i]) then i else LineBreakAt(s, i + 1)
  }

  /** `s.splitlines()`: lines without their terminators; `\r\n` is one
      terminator; a final terminator does not open an empty last line. */
  function SplitLines(s: string): (lines: seq<string>)
    ensures s == [] <==> lines == []
    ensures forall l | l in lines :: forall k :: 0 <= k < |l| ==> !IsLineBreak(l[k])
    decreases |s|
  {
    if s == [] then []
    else
      var i := LineBreakAt(s, 0);
      if i == |s| then [s]
      else
        var next := if s[i] == '\r' && i + 1 < |s| && s[i + 1] == '\n' then i + 2 else i + 1;
        [s[..i]] + SplitLines(s[next..])
  }

  function DigitValue(c: char): nat requires IsDigit(c) { c as int - '0' as int }

  /** `int(s)` for a string of ASCII digits. */
  function DigitsValue(s: string): nat
    requires AllDigits(s)
  {
    if s == [] then 0 else DigitsValue(s[..|s| - 1]) * 10 + DigitValue(s[|s| - 1])
  }

  /** `str(n)`: decimal digits without leading zeros. */
  function NatToString(n: nat): (r: string)
    ensures |r| > 0 && AllDigits(r)
  {
    if n < 10 then [('0' as int + n) as char]
    else NatToString(n / 10) + [('0' as int + n % 10) as char]
  }

  /** `f"{n:02d}"` for 0 <= n < 100. */
  function TwoDigits(n: nat): (r: string)
    requires n < 100
    ensures |r| == 2 && AllDigits(r) && DigitsValue(r) == n
  {
    var r := [('0' as int + n / 10) as char, ('0' as int + n % 10) as char];
    assert r[..1][..0] == [] && r[..1] == [r[0]];
    assert DigitsValue(r[..1]) == n / 10;
    r
  }

  /** `f"{int(s):02d}"` for one or two digits. */
  function Pad2(s: string): (r: string)
    requires 1 <= |s| <= 2 && AllDigits(s)
    ensures |r| == 2 && AllDigits(r) && DigitsValue(r) == DigitsValue(s)
  {
    if |s| == 1 then
      var r := "0" + s;
      assert r[..1] == "0" && r[..1][..0] == [] && s[..0] == [];
      r
    else s
  }
}
