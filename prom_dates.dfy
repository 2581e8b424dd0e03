/** `parse_date_from_text` of preprocessing/promTothread.py: the date cell of
    a PROM form is normalised by six substitutions, then read by an ordered
    cascade of date patterns into `MM/DD/<year>`. Every pattern is a
    `re.search`, so only its leftmost match is looked at; a month-name
    pattern whose name is not in the month table lets the cascade go on. */
module PromDates {
  import opened Text

  // ---------------------------------------------------------------------
  // Normalisation

  /** `[\/\-.]`. */
  predicate IsSep(c: char) { c == '/' || c == '-' || c == '.' }

  /** `\b` in front of a word character at `j`. */
  predicate WordStartsAt(s: string, j: nat)
    requires j <= |s|
  {
    j == 0 || !IsWordChar(s[j - 1])
  }

  /** `\b` behind a word character that ends at `j`. */
  predicate WordEndsAt(s: string, j: nat)
    requires j <= |s|
  {
    j == |s| || !IsWordChar(s[j])
  }

  /** `(?i)\bDate\b\s*:?\s*`, replaced by nothing. */
  function DateLabelAt(s: string, j: nat): Option<(nat, string)> {
    if j + 4 <= |s| && Lower(s[j..j + 4]) == "date" && WordStartsAt(s, j) && WordEndsAt(s, j + 4) then
      var e := SpaceEnd(s, j + 4);
      var e' := if e < |s| && s[e] == ':' then e + 1 else e;
      Some((SpaceEnd(s, e'), ""))
    else None
  }

  predicate IsOrdinalSuffix(t: string) {
    var l := Lower(t);
    l == "st" || l == "nd" || l == "rd" || l == "th"
  }

  /** `(\d{1,2})(st|nd|rd|th)\b` ignoring case, replaced by its digits. The
      digit group is followed by a letter, so only the whole run of digits
      from `j` can match. */
  function OrdinalAt(s: string, j: nat): Option<(nat, string)> {
    if j < |s| then
      var e := RunEnd(s, j, IsDigit);
      if 1 <= e - j <= 2 && e + 2 <= |s| && IsOrdinalSuffix(s[e..e + 2]) && WordEndsAt(s, e + 2)
      then Some((e + 2, s[j..e]))
      else None
    else None
  }

  /** `(?i)\bof\b`, replaced by a space. */
  function OfAt(s: string, j: nat): Option<(nat, string)> {
    if j + 2 <= |s| && Lower(s[j..j + 2]) == "of" && WordStartsAt(s, j) && WordEndsAt(s, j + 2)
    then Some((j + 2, " "))
    else None
  }

  /** `str.replace(',', ' ')`. */
  function CommaAt(s: string, j: nat): Option<(nat, string)> {
    if j < |s| && s[j] == ',' then Some((j + 1, " ")) else None
  }

  /** `([A-Za-z]{3,})\.`, replaced by its letters. */
  function AbbreviationDotAt(s: string, j: nat): Option<(nat, string)> {
    if j < |s| then
      var e := RunEnd(s, j, IsLetter);
      if e - j >= 3 && e < |s| && s[e] == '.' then Some((e + 1, s[j..e])) else None
    else None
  }

  /** The cleaned text the patterns are matched against. */
  function Normalize(text: string): (c: string)
    ensures IsStripped(c)
  {
    var c1 := Sub(text, DateLabelAt);
    var c2 := Sub(c1, OrdinalAt);
    var c3 := Sub(c2, OfAt);
    var c4 := Sub(c3, CommaAt);
    var c5 := Sub(c4, AbbreviationDotAt);
    Strip(CollapseSpaces(c5))
  }

  // ---------------------------------------------------------------------
  // Pattern pieces, read from the position a match is attempted at

  /** A `\d{1,2}` group. */
  type DayOrMonth = g: string | 1 <= |g| <= 2 && AllDigits(g) witness "1"

  /** A `\d{2,4}` group. */
  type ShortYear = g: string | 2 <= |g| <= 4 && AllDigits(g) witness "20"

  /** A `\d{4}` group. */
  type FullYear = g: string | |g| == 4 && AllDigits(g) witness "2000"

  /** A digit group `\d{lo,hi}` that the pattern follows with a non-digit:
      only the whole leading run of digits can match. */
  function DigitGroup(t: string, lo: nat, hi: nat): (r: Option<(string, string)>)
    ensures r.Some? ==> lo <= |r.value.0| <= hi && AllDigits(r.value.0)
  {
    var (g, rest) := Span(t, IsDigit);
    if lo <= |g| <= hi then Some((g, rest)) else None
  }

  /** A digit group `\d{lo,hi}` that ends the pattern: greedy, so as many
      digits as there are, up to `hi`. */
  function FinalDigits(t: string, lo: nat, hi: nat): (r: Option<string>)
    requires lo <= hi
    ensures r.Some? ==> lo <= |r.value| <= hi && AllDigits(r.value)
  {
    var g := Span(t, IsDigit).0;
    if |g| < lo then None else if |g| <= hi then Some(g) else Some(g[..hi])
  }

  /** `[A-Za-z]+` followed by a non-letter: the whole leading run. */
  function LetterGroup(t: string): (r: Option<(string, string)>) {
    var (g, rest) := Span(t, IsLetter);
    if g == [] then None else Some((g, rest))
  }

  /** `\s+` followed by a non-space. */
  function SkipSpaces(t: string): (r: Option<string>) {
    var (g, rest) := Span(t, IsSpace);
    if g == [] then None else Some(rest)
  }

  /** `[\/\-.]`. */
  function SkipSep(t: string): (r: Option<string>) {
    if t != [] && IsSep(t[0]) then Some(t[1..]) else None
  }

  // ---------------------------------------------------------------------
  // The patterns, each giving its groups in pattern order

  /** 1) `(\d{1,2})[\/\-.](\d{1,2})[\/\-.](\d{2,4})` */
  function NumericMonthFirst(t: string): Option<(DayOrMonth, DayOrMonth, ShortYear)> {
    var a :- DigitGroup(t, 1, 2);
    var t1 :- SkipSep(a.1);
    var b :- DigitGroup(t1, 1, 2);
    var t2 :- SkipSep(b.1);
    var y :- FinalDigits(t2, 2, 4);
    Some((a.0, b.0, y))
  }

  /** 2) `(\d{4})[\/\-.](\d{1,2})[\/\-.](\d{1,2})` */
  function NumericYearFirst(t: string): Option<(FullYear, DayOrMonth, DayOrMonth)> {
    var a :- DigitGroup(t, 4, 4);
    var t1 :- SkipSep(a.1);
    var b :- DigitGroup(t1, 1, 2);
    var t2 :- SkipSep(b.1);
    var d :- FinalDigits(t2, 1, 2);
    Some((a.0, b.0, d))
  }

  /** 2b) `(\d{4})\s+(\d{1,2})\s+(\d{1,2})` */
  function SpacedYearFirst(t: string): Option<(FullYear, DayOrMonth, DayOrMonth)> {
    var a :- DigitGroup(t, 4, 4);
    var t1 :- SkipSpaces(a.1);
    var b :- DigitGroup(t1, 1, 2);
    var t2 :- SkipSpaces(b.1);
    var d :- FinalDigits(t2, 1, 2);
    Some((a.0, b.0, d))
  }

  /** 3) `(\d{1,2})\s+(\d{1,2})\s+(\d{2,4})` */
  function SpacedMonthFirst(t: string): Option<(DayOrMonth, DayOrMonth, ShortYear)> {
    var a :- DigitGroup(t, 1, 2);
    var t1 :- SkipSpaces(a.1);
    var b :- DigitGroup(t1, 1, 2);
    var t2 :- SkipSpaces(b.1);
    var y :- FinalDigits(t2, 2, 4);
    Some((a.0, b.0, y))
  }

  /** 4) `(\d{1,2})\s+([A-Za-z]+)\s+(\d{2,4})`: day, name, year. */
  function DayNameYear(t: string): Option<(DayOrMonth, string, ShortYear)> {
    var a :- DigitGroup(t, 1, 2);
    var t1 :- SkipSpaces(a.1);
    var n :- LetterGroup(t1);
    var t2 :- SkipSpaces(n.1);
    var y :- FinalDigits(t2, 2, 4);
    Some((a.0, n.0, y))
  }

  /** 5) `([A-Za-z]+)\s+(\d{1,2})\s+(\d{2,4})`: name, day, year. */
  function NameDayYear(t: string): Option<(string, DayOrMonth, ShortYear)> {
    var n :- LetterGroup(t);
    var t1 :- SkipSpaces(n.1);
    var a :- DigitGroup(t1, 1, 2);
    var t2 :- SkipSpaces(a.1);
    var y :- FinalDigits(t2, 2, 4);
    Some((n.0, a.0, y))
  }

  /** 6) `(\d{1,2})([A-Za-z]+)(\d{2,4})`: day, name, year. */
  function CompactDayNameYear(t: string): Option<(DayOrMonth, string, ShortYear)> {
    var a :- DigitGroup(t, 1, 2);
    var n :- LetterGroup(a.1);
    var y :- FinalDigits(n.1, 2, 4);
    Some((a.0, n.0, y))
  }

  /** 7) `([A-Za-z]+)(\d{1,2})(\d{4})`: name, day, year. Backtracking splits
      a run of six or more digits as 2 + 4 and a run of five as 1 + 4. */
  function CompactNameDayYear(t: string): Option<(string, DayOrMonth, FullYear)> {
    var n :- LetterGroup(t);
    var g := Span(n.1, IsDigit).0;
    if |g| >= 6 then Some((n.0, g[..2], g[2..6]))
    else if |g| == 5 then Some((n.0, g[..1], g[1..5]))
    else None
  }

  /** 8) `(\d{1,2})[\/\-.]([A-Za-z]+)[\/\-.](\d{2,4})`: day, name, year. */
  function SeparatedDayNameYear(t: string): Option<(DayOrMonth, string, ShortYear)> {
    var a :- DigitGroup(t, 1, 2);
    var t1 :- SkipSep(a.1);
    var n :- LetterGroup(t1);
    var t2 :- SkipSep(n.1);
    var y :- FinalDigits(t2, 2, 4);
    Some((a.0, n.0, y))
  }

  /** 9) `([A-Za-z]+)[\/\-.](\d{1,2})[\/\-.](\d{2,4})`: name, day, year. */
  function SeparatedNameDayYear(t: string): Option<(string, DayOrMonth, ShortYear)> {
    var n :- LetterGroup(t);
    var t1 :- SkipSep(n.1);
    var a :- DigitGroup(t1, 1, 2);
    var t2 :- SkipSep(a.1);
    var y :- FinalDigits(t2, 2, 4);
    Some((n.0, a.0, y))
  }

  /** 10) `([A-Za-z]+)\s+(\d{4})`: name, year. */
  function NameYear(t: string): Option<(string, FullYear)> {
    var n :- LetterGroup(t);
    var t1 :- SkipSpaces(n.1);
    var y :- FinalDigits(t1, 4, 4);
    Some((n.0, y))
  }

  /** `re.search(pattern, c)` from position `j` on: the groups of the
      leftmost match. */
  function SearchFrom<T>(c: string, pattern: string -> Option<T>, j: nat): Option<T>
    requires j <= |c|
    decreases |c| - j
  {
    if pattern(c[j..]).Some? then pattern(c[j..])
    else if j == |c| then None
    else SearchFrom(c, pattern, j + 1)
  }

  function Search<T>(c: string, pattern: string -> Option<T>): Option<T> {
    SearchFrom(c, pattern, 0)
  }

  /** The search returns the match at the first position that has one. */
  lemma {:induction false} SearchFromFinds<T>(c: string, pattern: string -> Option<T>, i: nat, j: nat)
    requires i <= j <= |c| && pattern(c[j..]).Some?
    requires forall k | i <= k < j :: pattern(c[k..]).None?
    ensures SearchFrom(c, pattern, i) == pattern(c[j..])
    decreases j - i
  {
    if i < j {
      SearchFromFinds(c, pattern, i + 1, j);
    }
  }

  /** The search fails when no position has a match. */
  lemma {:induction false} SearchFromFails<T>(c: string, pattern: string -> Option<T>, i: nat)
    requires i <= |c|
    requires forall k | i <= k <= |c| :: pattern(c[k..]).None?
    ensures SearchFrom(c, pattern, i).None?
    decreases |c| - i
  {
    if i < |c| {
      SearchFromFails(c, pattern, i + 1);
    }
  }

  // ---------------------------------------------------------------------
  // The cascade

  /** `MONTH_MAP`: English month names and their three-letter abbreviations,
      plus `sept`, all lower case. */
  function MonthOfName(name: string): (m: Option<nat>)
    ensures m.Some? ==> 1 <= m.value <= 12
  {
    if name == "january" || name == "jan" then Some(1)
    else if name == "february" || name == "feb" then Some(2)
    else if name == "march" || name == "mar" then Some(3)
    else if name == "april" || name == "apr" then Some(4)
    else if name == "may" then Some(5)
    else if name == "june" || name == "jun" then Some(6)
    else if name == "july" || name == "jul" then Some(7)
    else if name == "august" || name == "aug" then Some(8)
    else if name == "september" || name == "sep" || name == "sept" then Some(9)
    else if name == "october" || name == "oct" then Some(10)
    else if name == "november" || name == "nov" then Some(11)
    else if name == "december" || name == "dec" then Some(12)
    else None
  }

  /** `MM/DD/<year>`: two-digit month and day, a year of three or four
      digits. */
  predicate DateShaped(r: string) {
    9 <= |r| <= 10 && r[2] == '/' && r[5] == '/'
    && AllDigits(r[..2]) && AllDigits(r[3..5]) && AllDigits(r[6..])
  }

  /** `f"{m:02d}/{d:02d}/{y}"` once month and day are padded. */
  function DateText(mm: string, dd: string, year: string): (r: string)
    requires |mm| == 2 && AllDigits(mm) && |dd| == 2 && AllDigits(dd)
    requires 3 <= |year| <= 4 && AllDigits(year)
    ensures DateShaped(r)
  {
    var r := mm + "/" + dd + "/" + year;
    assert r[..2] == mm && r[3..5] == dd && r[6..] == year;
    r
  }

  /** A two-digit year gets the prefix `20`; longer ones are kept. */
  function CenturyYear(y: ShortYear): (r: string)
    ensures 3 <= |r| <= 4 && AllDigits(r)
  {
    if |y| == 2 then "20" + y else y
  }

  /** The result of a month-name pattern: nothing when the lower-cased name
      is not in `MONTH_MAP`, so that the cascade goes on. */
  function NamedDate(name: string, day: string, year: string): (r: Option<string>)
    requires |day| == 2 && AllDigits(day) && 3 <= |year| <= 4 && AllDigits(year)
    ensures r.Some? ==> DateShaped(r.value)
  {
    match MonthOfName(Lower(name))
    case None => None
    case Some(m) => Some(DateText(TwoDigits(m), day, year))
  }

  /** Pattern 1 on its own. */
  function ByNumericMonthFirst(c: string): (r: Option<string>)
    ensures r.Some? ==> DateShaped(r.value)
  {
    var g :- Search(c, NumericMonthFirst);
    Some(DateText(Pad2(g.0), Pad2(g.1), CenturyYear(g.2)))
  }

  /** Patterns 2 and 2b. */
  function ByYearFirst(c: string): (r: Option<string>)
    ensures r.Some? ==> DateShaped(r.value)
  {
    var g2 := Search(c, NumericYearFirst);
    if g2.Some? then Some(DateText(Pad2(g2.value.1), Pad2(g2.value.2), g2.value.0))
    else
      var g := Search(c, SpacedYearFirst);
      if g.Some? then Some(DateText(Pad2(g.value.1), Pad2(g.value.2), g.value.0))
      else None
  }

  /** Pattern 3. */
  function BySpacedMonthFirst(c: string): (r: Option<string>)
    ensures r.Some? ==> DateShaped(r.value)
  {
    var g :- Search(c, SpacedMonthFirst);
    Some(DateText(Pad2(g.0), Pad2(g.1), CenturyYear(g.2)))
  }

  /** Pattern 4. */
  function ByDayNameYear(c: string): (r: Option<string>)
    ensures r.Some? ==> DateShaped(r.value)
  {
    var g :- Search(c, DayNameYear);
    NamedDate(g.1, Pad2(g.0), CenturyYear(g.2))
  }

  /** Pattern 5. */
  function ByNameDayYear(c: string): (r: Option<string>)
    ensures r.Some? ==> DateShaped(r.value)
  {
    var g :- Search(c, NameDayYear);
    NamedDate(g.0, Pad2(g.1), CenturyYear(g.2))
  }

  /** Pattern 6. */
  function ByCompactDayNameYear(c: string): (r: Option<string>)
    ensures r.Some? ==> DateShaped(r.value)
  {
    var g :- Search(c, CompactDayNameYear);
    NamedDate(g.1, Pad2(g.0), CenturyYear(g.2))
  }

  /** Pattern 7; its year has no century prefix. */
  function ByCompactNameDayYear(c: string): (r: Option<string>)
    ensures r.Some? ==> DateShaped(r.value)
  {
    var g :- Search(c, CompactNameDayYear);
    NamedDate(g.0, Pad2(g.1), g.2)
  }

  /** Pattern 8. */
  function BySeparatedDayNameYear(c: string): (r: Option<string>)
    ensures r.Some? ==> DateShaped(r.value)
  {
    var g :- Search(c, SeparatedDayNameYear);
    NamedDate(g.1, Pad2(g.0), CenturyYear(g.2))
  }

  /** Pattern 9. */
  function BySeparatedNameDayYear(c: string): (r: Option<string>)
    ensures r.Some? ==> DateShaped(r.value)
  {
    var g :- Search(c, SeparatedNameDayYear);
    NamedDate(g.0, Pad2(g.1), CenturyYear(g.2))
  }

  /** Pattern 10; the day defaults to `01`. */
  function ByNameYear(c: string): (r: Option<string>)
    ensures r.Some? ==> DateShaped(r.value)
  {
    var g :- Search(c, NameYear);
    NamedDate(g.0, "01", g.1)
  }

  /** The first of two results that is a date. */
  function OrElse(first: Option<string>, second: Option<string>): (r: Option<string>)
    ensures first.Some? ==> r == first
    ensures first.None? ==> r == second
  {
    if first.Some? then first else second
  }

  /** Patterns 3 to 10, which follow the numeric patterns 1, 2 and 2b. */
  function ByLaterPatterns(c: string): (r: Option<string>)
    ensures r.Some? ==> DateShaped(r.value)
  {
    OrElse(BySpacedMonthFirst(c), ByMonthNamePatterns(c))
  }

  /** Patterns 4 to 10, which read a month name. */
  function ByMonthNamePatterns(c: string): (r: Option<string>)
    ensures r.Some? ==> DateShaped(r.value)
  {
    OrElse(ByDayNameYear(c),
    OrElse(ByNameDayYear(c),
    OrElse(ByCompactDayNameYear(c),
    OrElse(ByCompactNameDayYear(c),
    OrElse(BySeparatedDayNameYear(c),
    OrElse(BySeparatedNameDayYear(c), ByNameYear(c)))))))
  }

  /** The cascade as the source orders it: pattern 1, then 2 and 2b, then
      the rest. */
  function ParseCleaned(c: string): (r: Option<string>)
    ensures r.Some? ==> DateShaped(r.value)
  {
    var r1 := ByNumericMonthFirst(c);
    if r1.Some? then r1
    else
      var r2 := ByYearFirst(c);
      if r2.Some? then r2 else ByLaterPatterns(c)
  }

  /** `parse_date_from_text(text)`: nothing for empty text; otherwise the
      first pattern of the cascade that yields a date decides, and the date
      is `MM/DD/<year>` with a three- or four-digit year. */
  function ParseDateFromText(text: string): (r: Option<string>)
    ensures text == "" ==> r.None?
    ensures r.Some? ==> DateShaped(r.value)
  {
    if text == "" then None else ParseCleaned(Normalize(text))
  }

  /** The cascade with the year-first patterns tried before pattern 1, so
      that `YYYY-MM-DD` reaches the pattern written for it. */
  function ParseCleanedYearFirst(c: string): (r: Option<string>)
    ensures r.Some? ==> DateShaped(r.value)
  {
    var r2 := ByYearFirst(c);
    if r2.Some? then r2
    else
      var r1 := ByNumericMonthFirst(c);
      if r1.Some? then r1 else ByLaterPatterns(c)
  }

  /** `parse_date_from_text` with the year-first patterns tried first. */
  function ParseDateYearFirst(text: string): (r: Option<string>)
    ensures text == "" ==> r.None?
    ensures r.Some? ==> DateShaped(r.value)
  {
    if text == "" then None else ParseCleanedYearFirst(Normalize(text))
  }

  // ---------------------------------------------------------------------
  // Properties

  /** Text without letters, whitespace or commas passes normalisation
      unchanged: none of the substitutions can match in it. */
  lemma PlainTextNormalized(s: string)
    requires forall k | 0 <= k < |s| :: !IsLetter(s[k]) && !IsSpace(s[k]) && s[k] != ','
    ensures Normalize(s) == s
  {
    forall j | 0 <= j < |s|
      ensures DateLabelAt(s, j).None? && OrdinalAt(s, j).None? && OfAt(s, j).None?
      ensures CommaAt(s, j).None? && AbbreviationDotAt(s, j).None? && SpaceRunAt(s, j).None?
    {
      PlainTextUnmatched(s, j);
    }
    assert s[0..] == s;
    SubFromKeeps(s, 0, DateLabelAt);
    SubFromKeeps(s, 0, OrdinalAt);
    SubFromKeeps(s, 0, OfAt);
    SubFromKeeps(s, 0, CommaAt);
    SubFromKeeps(s, 0, AbbreviationDotAt);
    SubFromKeeps(s, 0, SpaceRunAt);
    StripStripped(s);
  }

  /** No substitution of the normalisation matches at a position of such
      text. */
  lemma PlainTextUnmatched(s: string, j: nat)
    requires forall k | 0 <= k < |s| :: !IsLetter(s[k]) && !IsSpace(s[k]) && s[k] != ','
    requires j < |s|
    ensures DateLabelAt(s, j).None? && OrdinalAt(s, j).None? && OfAt(s, j).None?
    ensures CommaAt(s, j).None? && AbbreviationDotAt(s, j).None? && SpaceRunAt(s, j).None?
  {
    WordsAbsentAt(s, j);
    OrdinalAbsentAt(s, j);
  }

  /** No word substitution matches where no letter stands. */
  lemma WordsAbsentAt(s: string, j: nat)
    requires j < |s| && !IsLetter(s[j])
    ensures DateLabelAt(s, j).None? && OfAt(s, j).None? && AbbreviationDotAt(s, j).None?
  {
    NoWordAt(s, j, 4);
    NoWordAt(s, j, 2);
    RunEndIs(s, j, j, IsLetter);
  }

  /** The ordinal substitution does not match where no letter follows the
      digits. */
  lemma OrdinalAbsentAt(s: string, j: nat)
    requires j < |s|
    requires RunEnd(s, j, IsDigit) < |s| ==> !IsLetter(s[RunEnd(s, j, IsDigit)])
    ensures OrdinalAt(s, j).None?
  {
    var e := RunEnd(s, j, IsDigit);
    if e + 2 <= |s| {
      NoWordAt(s, e, 2);
    }
  }

  /** Lower-casing a slice that opens with a non-letter gives no word. */
  lemma NoWordAt(s: string, j: nat, n: nat)
    requires j < |s| && 0 < n && !IsLetter(s[j])
    ensures j + n <= |s| ==> !IsLetter(Lower(s[j..j + n])[0])
  {
    if j + n <= |s| {
      assert Lower(s[j..j + n])[0] == LowerChar(s[j]);
    }
  }

  /** A digit group of an allowed length, followed by a non-digit, is read
      whole. */
  lemma DigitGroupOf(g: string, rest: string, lo: nat, hi: nat)
    requires lo <= |g| <= hi && AllDigits(g)
    requires rest == [] || !IsDigit(rest[0])
    ensures DigitGroup(g + rest, lo, hi) == Some((g, rest))
  {
    SpanOf(g, rest, IsDigit);
  }

  /** A separator is skipped. */
  lemma SkipSepOf(c: char, rest: string)
    requires IsSep(c)
    ensures SkipSep([c] + rest) == Some(rest)
  {
    assert ([c] + rest)[1..] == rest;
  }

  /** Digits that end the text are read whole when not too many. */
  lemma FinalDigitsOf(g: string, lo: nat, hi: nat)
    requires lo <= |g| <= hi && AllDigits(g)
    ensures FinalDigits(g, lo, hi) == Some(g)
  {
    SpanOf(g, [], IsDigit);
    assert g + [] == g;
  }

  /** Month, separator, day, separator, year: the groups of pattern 1. */
  lemma NumericMonthFirstReads(m: string, s1: char, d: string, s2: char, y: string)
    requires 1 <= |m| <= 2 && AllDigits(m) && 1 <= |d| <= 2 && AllDigits(d) && 2 <= |y| <= 4 && AllDigits(y)
    requires IsSep(s1) && IsSep(s2)
    ensures NumericMonthFirst(m + ([s1] + (d + ([s2] + y)))) == Some((m, d, y))
  {
    var tail2 := [s2] + y;
    var tail1 := [s1] + (d + tail2);
    DigitGroupOf(m, tail1, 1, 2);
    SkipSepOf(s1, d + tail2);
    DigitGroupOf(d, tail2, 1, 2);
    SkipSepOf(s2, y);
    FinalDigitsOf(y, 2, 4);
  }

  /** Three digit groups with separators between them have nothing for
      normalisation to change. */
  lemma NumericDateNormalized(m: string, s1: char, d: string, s2: char, y: string)
    requires AllDigits(m) && AllDigits(d) && AllDigits(y) && IsSep(s1) && IsSep(s2)
    ensures Normalize(m + ([s1] + (d + ([s2] + y)))) == m + ([s1] + (d + ([s2] + y)))
  {
    var s := m + ([s1] + (d + ([s2] + y)));
    forall k | 0 <= k < |s| ensures IsDigit(s[k]) || IsSep(s[k]) {
      if k < |m| {
        assert s[k] == m[k];
      } else if |m| < k < |m| + 1 + |d| {
        assert s[k] == d[k - |m| - 1];
      } else if |m| + 1 + |d| < k {
        assert s[k] == y[k - |m| - 2 - |d|];
      }
    }
    PlainTextNormalized(s);
  }

  /** A numeric date `M/D/Y` (any of `/`, `-`, `.` between the parts) is read
      by pattern 1: month and day padded to two digits but not checked
      against the calendar, a two-digit year prefixed with `20`. */
  lemma NumericDateParsed(m: string, s1: char, d: string, s2: char, y: string)
    requires 1 <= |m| <= 2 && AllDigits(m) && 1 <= |d| <= 2 && AllDigits(d) && 2 <= |y| <= 4 && AllDigits(y)
    requires IsSep(s1) && IsSep(s2)
    ensures ParseDateFromText(m + ([s1] + (d + ([s2] + y)))) == Some(Pad2(m) + "/" + Pad2(d) + "/" + CenturyYear(y))
  {
    var s := m + ([s1] + (d + ([s2] + y)));
    NumericDateNormalized(m, s1, d, s2, y);
    NumericMonthFirstReads(m, s1, d, s2, y);
    assert s[0..] == s;
    SearchFromFinds(s, NumericMonthFirst, 0, 0);
  }

  /** Neither month nor day is range-checked: any two-digit month and day
      with a four-digit year, such as `13/45/2020`, come back as written. */
  lemma NoCalendarCheck(m: string, d: string, y: string)
    requires |m| == 2 && AllDigits(m) && |d| == 2 && AllDigits(d) && |y| == 4 && AllDigits(y)
    ensures ParseDateFromText(m + (['/'] + (d + (['/'] + y)))) == Some(m + "/" + d + "/" + y)
  {
    NumericDateParsed(m, '/', d, '/', y);
  }

  /** Pattern 1 also matches inside `YYYY-MM-DD`: the first two places fail
      because their digit runs are too long; the third one takes the last
      two digits of the year, the month and the day as its groups. */
  lemma YearFirstSearchedByPatternOne(y: string, m: string, d: string)
    requires |y| == 4 && AllDigits(y) && |m| == 2 && AllDigits(m) && |d| == 2 && AllDigits(d)
    ensures Search(y + (['-'] + (m + (['-'] + d))), NumericMonthFirst) == Some((y[2..], m, d))
  {
    var rest := ['-'] + (m + (['-'] + d));
    var s := y + rest;
    assert s[0..] == y + rest;
    SpanOf(y, rest, IsDigit);
    assert s[1..] == y[1..] + rest;
    SpanOf(y[1..], rest, IsDigit);
    assert s[2..] == y[2..] + rest;
    NumericMonthFirstReads(y[2..], '-', m, '-', d);
    SearchFromFinds(s, NumericMonthFirst, 0, 2);
  }

  /** So `YYYY-MM-DD` comes back as `YY/MM/20DD`: the last two digits of
      the year as the month, the month as the day, the day as the year. */
  lemma YearFirstMisread(y: string, m: string, d: string)
    requires |y| == 4 && AllDigits(y) && |m| == 2 && AllDigits(m) && |d| == 2 && AllDigits(d)
    ensures ParseDateFromText(y + (['-'] + (m + (['-'] + d)))) == Some(y[2..] + "/" + m + "/" + ("20" + d))
  {
    NumericDateNormalized(y, '-', m, '-', d);
    YearFirstSearchedByPatternOne(y, m, d);
  }

  /** Year, separator, month, separator, day: the groups of pattern 2. */
  lemma NumericYearFirstReads(y: string, s1: char, m: string, s2: char, d: string)
    requires |y| == 4 && AllDigits(y) && 1 <= |m| <= 2 && AllDigits(m) && 1 <= |d| <= 2 && AllDigits(d)
    requires IsSep(s1) && IsSep(s2)
    ensures NumericYearFirst(y + ([s1] + (m + ([s2] + d)))) == Some((y, m, d))
  {
    var tail2 := [s2] + d;
    var tail1 := [s1] + (m + tail2);
    DigitGroupOf(y, tail1, 4, 4);
    SkipSepOf(s1, m + tail2);
    DigitGroupOf(m, tail2, 1, 2);
    SkipSepOf(s2, d);
    FinalDigitsOf(d, 1, 2);
  }

  /** With the year-first patterns tried first, `YYYY-MM-DD` (any of `/`,
      `-`, `.` between the parts) is read as intended. */
  lemma YearFirstRead(y: string, s1: char, m: string, s2: char, d: string)
    requires |y| == 4 && AllDigits(y) && 1 <= |m| <= 2 && AllDigits(m) && 1 <= |d| <= 2 && AllDigits(d)
    requires IsSep(s1) && IsSep(s2)
    ensures ParseDateYearFirst(y + ([s1] + (m + ([s2] + d)))) == Some(Pad2(m) + "/" + Pad2(d) + "/" + y)
  {
    var s := y + ([s1] + (m + ([s2] + d)));
    forall k | 0 <= k < |s| ensures IsDigit(s[k]) || IsSep(s[k]) {
      if k < |y| {
        assert s[k] == y[k];
      } else if |y| < k < |y| + 1 + |m| {
        assert s[k] == m[k - |y| - 1];
      } else if |y| + 1 + |m| < k {
        assert s[k] == d[k - |y| - 2 - |m|];
      }
    }
    PlainTextNormalized(s);
    NumericYearFirstReads(y, s1, m, s2, d);
    assert s[0..] == s;
    SearchFromFinds(s, NumericYearFirst, 0, 0);
  }

  /** In `M/D/Y` no digit run from any position is four long with text
      after it, so neither year-first pattern matches anywhere. */
  lemma NumericDateHasNoYearFirst(m: string, s1: char, d: string, s2: char, y: string)
    requires 1 <= |m| <= 2 && AllDigits(m) && 1 <= |d| <= 2 && AllDigits(d) && 2 <= |y| <= 4 && AllDigits(y)
    requires IsSep(s1) && IsSep(s2)
    ensures Search(m + ([s1] + (d + ([s2] + y))), NumericYearFirst).None?
    ensures Search(m + ([s1] + (d + ([s2] + y))), SpacedYearFirst).None?
  {
    var tail2 := [s2] + y;
    var tail1 := [s1] + (d + tail2);
    var s := m + tail1;
    forall j | 0 <= j <= |s|
      ensures NumericYearFirst(s[j..]).None? && SpacedYearFirst(s[j..]).None?
    {
      if j <= |m| {
        assert s[j..] == m[j..] + tail1;
        YearFirstFailsOn(m[j..], tail1);
      } else if j <= |m| + 1 + |d| {
        assert s[j..] == d[j - |m| - 1..] + tail2;
        YearFirstFailsOn(d[j - |m| - 1..], tail2);
      } else {
        assert s[j..] == y[j - |m| - 2 - |d|..] + [];
        YearFirstFailsOn(y[j - |m| - 2 - |d|..], []);
      }
    }
    SearchFromFails(s, NumericYearFirst, 0);
    SearchFromFails(s, SpacedYearFirst, 0);
  }

  /** Neither year-first pattern reads a digit run shorter than four, or
      one that ends the text. */
  lemma YearFirstFailsOn(g: string, rest: string)
    requires AllDigits(g) && (rest == [] || !IsDigit(rest[0]))
    requires |g| < 4 || rest == []
    ensures NumericYearFirst(g + rest).None? && SpacedYearFirst(g + rest).None?
  {
    SpanOf(g, rest, IsDigit);
    NothingAfterFails();
  }

  /** Trying the year-first patterns first changes nothing for `M/D/Y`. */
  lemma YearFirstKeepsNumericDates(m: string, s1: char, d: string, s2: char, y: string)
    requires 1 <= |m| <= 2 && AllDigits(m) && 1 <= |d| <= 2 && AllDigits(d) && 2 <= |y| <= 4 && AllDigits(y)
    requires IsSep(s1) && IsSep(s2)
    ensures ParseDateYearFirst(m + ([s1] + (d + ([s2] + y)))) == ParseDateFromText(m + ([s1] + (d + ([s2] + y))))
  {
    var s := m + ([s1] + (d + ([s2] + y)));
    NumericDateNormalized(m, s1, d, s2, y);
    NumericDateHasNoYearFirst(m, s1, d, s2, y);
    assert ByYearFirst(s).None?;
  }

  /** Letters before position `n`, a space at `n`, digits after it. */
  predicate WordSpaceNumber(s: string, n: nat) {
    0 < n && n + 1 < |s| && s[n] == ' ' && forall k | 0 <= k < |s| :: (k < n ==> IsLetter(s[k])) && (k > n ==> IsDigit(s[k]))
  }

  /** In such text none of the first five substitutions matches, unless
      the word is `date` or `of`. */
  lemma WordSpaceNumberUnmatched(s: string, n: nat, j: nat)
    requires WordSpaceNumber(s, n) && Lower(s[..n]) != "date" && Lower(s[..n]) != "of"
    requires j < |s|
    ensures DateLabelAt(s, j).None? && OfAt(s, j).None?
    ensures OrdinalAt(s, j).None? && CommaAt(s, j).None? && AbbreviationDotAt(s, j).None?
  {
    WordSpaceNumberNoLabel(s, n, j);
    if j <= n {
      RunEndIs(s, j, j, IsDigit);
    } else {
      RunEndIs(s, j, |s|, IsDigit);
    }
    var e := RunEnd(s, j, IsLetter);
    assert e < |s| ==> s[e] != '.';
  }

  /** Nor do the word substitutions `date` and `of`. */
  lemma WordSpaceNumberNoLabel(s: string, n: nat, j: nat)
    requires WordSpaceNumber(s, n) && Lower(s[..n]) != "date" && Lower(s[..n]) != "of"
    requires j < |s|
    ensures DateLabelAt(s, j).None? && OfAt(s, j).None?
  {
    WordAtStartOnly(s, n, j, "date", s[..n]);
    WordAtStartOnly(s, n, j, "of", s[..n]);
  }

  /** Such text has nothing for normalisation to change. */
  lemma WordSpaceNumberNormalized(s: string, n: nat)
    requires WordSpaceNumber(s, n) && Lower(s[..n]) != "date" && Lower(s[..n]) != "of"
    ensures Normalize(s) == s
  {
    forall j | 0 <= j < |s|
      ensures DateLabelAt(s, j).None? && OfAt(s, j).None?
      ensures OrdinalAt(s, j).None? && CommaAt(s, j).None? && AbbreviationDotAt(s, j).None?
    {
      WordSpaceNumberUnmatched(s, n, j);
    }
    assert s[0..] == s;
    SubFromKeeps(s, 0, DateLabelAt);
    SubFromKeeps(s, 0, OrdinalAt);
    SubFromKeeps(s, 0, OfAt);
    SubFromKeeps(s, 0, CommaAt);
    SubFromKeeps(s, 0, AbbreviationDotAt);
    WordSpaceNumberSingleSpaced(s, n);
    CollapseSingleSpaced(s);
    StripStripped(s);
  }

  lemma WordSpaceNumberSingleSpaced(s: string, n: nat)
    requires WordSpaceNumber(s, n)
    ensures SingleSpaced(s) && IsStripped(s)
  {
    forall k | 0 <= k < |s| && IsSpace(s[k]) ensures s[k] == ' ' && (k + 1 == |s| || !IsSpace(s[k + 1])) {
      assert k == n;
    }
  }

  /** A month name, one space and a four-digit year has nothing for
      normalisation to change, unless the name is the word `date` or `of`. */
  lemma MonthYearNormalized(name: string, y: string)
    requires name != [] && forall k | 0 <= k < |name| :: IsLetter(name[k])
    requires |y| == 4 && AllDigits(y)
    requires Lower(name) != "date" && Lower(name) != "of"
    ensures Normalize(name + ([' '] + y)) == name + ([' '] + y)
  {
    var s := name + ([' '] + y);
    var n := |name|;
    forall k | 0 <= k < |s|
      ensures k < n ==> IsLetter(s[k])
      ensures k > n ==> IsDigit(s[k])
    {
      if k < n {
        assert s[k] == name[k];
      } else if k > n {
        assert s[k] == y[k - n - 1];
      }
    }
    assert s[..n] == name;
    WordSpaceNumberNormalized(s, n);
  }

  /** In `s`, letters up to `n`, a space at `n`, digits after it, a whole
      word `w` can only be the letters themselves. */
  lemma WordAtStartOnly(s: string, n: nat, j: nat, w: string, name: string)
    requires WordSpaceNumber(s, n) && name == s[..n]
    requires 0 < |w| && forall k | 0 <= k < |w| :: IsLetter(w[k])
    requires Lower(name) != w
    requires j < |s|
    ensures !(j + |w| <= |s| && Lower(s[j..j + |w|]) == w && WordStartsAt(s, j) && WordEndsAt(s, j + |w|))
  {
    if j + |w| <= |s| {
      var t := s[j..j + |w|];
      if j <= n < j + |w| {
        assert Lower(t)[n - j] == ' ' && IsLetter(w[n - j]);
      } else if j > n {
        assert Lower(t)[0] == LowerChar(s[j]) && IsLetter(w[0]);
      } else if j > 0 {
        assert IsLetter(s[j - 1]);
      } else if |w| < n {
        assert IsLetter(s[|w|]);
      } else {
        assert t == name;
      }
    }
  }

  /** The patterns that open with a digit group fail where no digit run
      starts, or where the digits run to the end of the text. */
  lemma DigitLedPatternsFail(t: string)
    requires Span(t, IsDigit).0 == [] || Span(t, IsDigit).1 == []
    ensures NumericMonthFirst(t).None? && NumericYearFirst(t).None? && SpacedYearFirst(t).None?
    ensures SpacedMonthFirst(t).None? && DayNameYear(t).None? && CompactDayNameYear(t).None?
    ensures SeparatedDayNameYear(t).None?
  {
    DigitRunFails(t, 1, 2);
    DigitRunFails(t, 4, 4);
    NothingAfterFails();
  }

  /** A digit group that starts no run, or whose run ends the text, leaves
      nothing to read after it. */
  lemma DigitRunFails(t: string, lo: nat, hi: nat)
    requires 1 <= lo
    requires Span(t, IsDigit).0 == [] || Span(t, IsDigit).1 == []
    ensures DigitGroup(t, lo, hi).None? || DigitGroup(t, lo, hi).value.1 == []
  {
  }

  /** Separators, spaces and letters cannot be read from empty text. */
  lemma NothingAfterFails()
    ensures SkipSep([]).None? && SkipSpaces([]).None? && LetterGroup([]).None?
  {
    assert Span([], IsSpace).0 == [] && Span([], IsLetter).0 == [];
  }

  /** The patterns that open with a name fail where no letter run starts,
      or where the letters are followed by one space and four digits. */
  lemma NameLedPatternsFail(t: string, y: string)
    requires |y| == 4 && AllDigits(y)
    requires Span(t, IsLetter).0 == [] || Span(t, IsLetter).1 == [' '] + y
    ensures NameDayYear(t).None? && CompactNameDayYear(t).None? && SeparatedNameDayYear(t).None?
  {
    if Span(t, IsLetter).0 != [] {
      SpanOf([' '], y, IsSpace);
      SpanOf(y, [], IsDigit);
      assert y + [] == y;
      SpanOf([], [' '] + y, IsDigit);
      assert [] + ([' '] + y) == [' '] + y;
    }
  }

  /** From any position of `<name> YYYY`, the digit run reaches the end or
      is empty, and the letter run is empty or followed by ` YYYY`. */
  lemma MonthYearRuns(name: string, y: string, j: nat)
    requires name != [] && forall k | 0 <= k < |name| :: IsLetter(name[k])
    requires |y| == 4 && AllDigits(y)
    requires j <= |name| + 1 + |y|
    ensures var t := (name + ([' '] + y))[j..];
      && (Span(t, IsDigit).0 == [] || Span(t, IsDigit).1 == [])
      && (Span(t, IsLetter).0 == [] || Span(t, IsLetter).1 == [' '] + y)
  {
    var s := name + ([' '] + y);
    var n := |name|;
    if j < n {
      assert s[j..] == name[j..] + ([' '] + y) && s[j] == name[j];
      SpanOf(name[j..], [' '] + y, IsLetter);
      SpanOf([], s[j..], IsDigit);
      assert [] + s[j..] == s[j..];
    } else if j == n {
      assert s[j..] == [' '] + y;
      SpanOf([], s[j..], IsDigit);
      SpanOf([], s[j..], IsLetter);
      assert [] + s[j..] == s[j..];
    } else {
      assert s[j..] == y[j - n - 1..] + [];
      SpanOf(y[j - n - 1..], [], IsDigit);
      SpanOf([], s[j..], IsLetter);
      assert [] + s[j..] == s[j..];
    }
  }

  /** In `<name> YYYY` patterns 1 to 9 match nowhere, and pattern 10 matches
      at the start. */
  lemma MonthYearSearches(name: string, y: string)
    requires name != [] && forall k | 0 <= k < |name| :: IsLetter(name[k])
    requires |y| == 4 && AllDigits(y)
    ensures var s := name + ([' '] + y);
      && Search(s, NumericMonthFirst).None? && Search(s, NumericYearFirst).None?
      && Search(s, SpacedYearFirst).None? && Search(s, SpacedMonthFirst).None?
      && Search(s, DayNameYear).None? && Search(s, NameDayYear).None?
      && Search(s, CompactDayNameYear).None? && Search(s, CompactNameDayYear).None?
      && Search(s, SeparatedDayNameYear).None? && Search(s, SeparatedNameDayYear).None?
      && Search(s, NameYear) == Some((name, y))
  {
    var s := name + ([' '] + y);
    forall j | 0 <= j <= |s|
      ensures NumericMonthFirst(s[j..]).None? && NumericYearFirst(s[j..]).None? && SpacedYearFirst(s[j..]).None?
      ensures SpacedMonthFirst(s[j..]).None? && DayNameYear(s[j..]).None? && CompactDayNameYear(s[j..]).None?
      ensures SeparatedDayNameYear(s[j..]).None?
      ensures NameDayYear(s[j..]).None? && CompactNameDayYear(s[j..]).None? && SeparatedNameDayYear(s[j..]).None?
    {
      MonthYearRuns(name, y, j);
      DigitLedPatternsFail(s[j..]);
      NameLedPatternsFail(s[j..], y);
    }
    SearchFromFails(s, NumericMonthFirst, 0);
    SearchFromFails(s, NumericYearFirst, 0);
    SearchFromFails(s, SpacedYearFirst, 0);
    SearchFromFails(s, SpacedMonthFirst, 0);
    SearchFromFails(s, DayNameYear, 0);
    SearchFromFails(s, NameDayYear, 0);
    SearchFromFails(s, CompactDayNameYear, 0);
    SearchFromFails(s, CompactNameDayYear, 0);
    SearchFromFails(s, SeparatedDayNameYear, 0);
    SearchFromFails(s, SeparatedNameDayYear, 0);
    NameYearReads(name, y);
    assert s[0..] == s;
    SearchFromFinds(s, NameYear, 0, 0);
  }

  /** `<Month> YYYY`: only pattern 10 matches, at the start, and the day
      defaults to `01`; a name that is not in `MONTH_MAP` gives no date. */
  lemma MonthYearParsed(name: string, y: string)
    requires name != [] && forall k | 0 <= k < |name| :: IsLetter(name[k])
    requires |y| == 4 && AllDigits(y)
    requires Lower(name) != "date" && Lower(name) != "of"
    ensures ParseDateFromText(name + ([' '] + y)) ==
      match MonthOfName(Lower(name))
      case Some(k) => Some(TwoDigits(k) + "/" + "01" + "/" + y)
      case None => None
  {
    MonthYearNormalized(name, y);
    MonthYearSearches(name, y);
  }

  /** Letters, one space and four digits: the groups of pattern 10. */
  lemma NameYearReads(name: string, y: string)
    requires name != [] && forall k | 0 <= k < |name| :: IsLetter(name[k])
    requires |y| == 4 && AllDigits(y)
    ensures NameYear(name + ([' '] + y)) == Some((name, y))
  {
    SpanOf(name, [' '] + y, IsLetter);
    SpanOf([' '], y, IsSpace);
    SpanOf(y, [], IsDigit);
    assert y + [] == y;
  }
}
