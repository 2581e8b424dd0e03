/** Identity of a thread, read from the first two lines of its earliest
    message (app/orderEmails.py): the envelope line gives a date and a
    sender tag, the `From:` header gives the requestor's display name. */
module Identity {
  import opened Text

  predicate IsUpperLetter(c: char) { 'A' <= c <= 'Z' }

  predicate IsLowerLetter(c: char) { 'a' <= c <= 'z' }

  predicate IsNonSpace(c: char) { !IsSpace(c) }

  predicate IsDigitOrColon(c: char) { IsDigit(c) || c == ':' }

  /** The groups of the envelope pattern
      `From (\S+)\s+at\s+(\S+)\s+\w+\s+([A-Z][a-z]{2})\s+(\d{1,2})\s+[\d:]+\s+(\d{4})`. */
  datatype EnvelopeParts = EnvelopeParts(local: string, domain: string, month: string, day: string, year: string)

  // Every repetition of the pattern is followed by a token its own class
  // excludes, so each takes the longest run and backtracking never finds
  // another match at the same position. The pattern is read in three
  // stages over the remaining text, each returning the groups it captured
  // and the text after them.

  /** `From (\S+)\s+at\s+(\S+)\s+` at the start of `t`. */
  function SenderFrom(t: string): (r: Option<(string, string, string)>)
    ensures r.Some? ==> |r.value.0| > 0 && |r.value.1| > 0
  {
    if !StartsWith(t, "From ") then None
    else
      var local := Span(t[5..], IsNonSpace);
      var gap := Span(local.1, IsSpace);
      if local.0 == [] || gap.0 == [] || !StartsWith(gap.1, "at") then None
      else
        var gap2 := Span(gap.1[2..], IsSpace);
        var domain := Span(gap2.1, IsNonSpace);
        var gap3 := Span(domain.1, IsSpace);
        if gap2.0 == [] || domain.0 == [] || gap3.0 == [] then None
        else Some((local.0, domain.0, gap3.1))
  }

  /** `\w+\s+([A-Z][a-z]{2})\s+` at the start of `t`. */
  function MonthFrom(t: string): (r: Option<(string, string)>)
    ensures r.Some? ==> |r.value.0| == 3
  {
    var weekday := Span(t, IsWordChar);
    var gap := Span(weekday.1, IsSpace);
    var u := gap.1;
    if weekday.0 == [] || gap.0 == [] || |u| < 3 then None
    else if !IsUpperLetter(u[0]) || !IsLowerLetter(u[1]) || !IsLowerLetter(u[2]) then None
    else
      var gap2 := Span(u[3..], IsSpace);
      if gap2.0 == [] then None else Some((u[..3], gap2.1))
  }

  /** `(\d{1,2})\s+` at the start of `t`: the day and the text after it. */
  function DayFrom(t: string): (r: Option<(string, string)>)
    ensures r.Some? ==> 1 <= |r.value.0| <= 2 && AllDigits(r.value.0)
  {
    var day := Span(t, IsDigit);
    var gap := Span(day.1, IsSpace);
    if day.0 == [] || |day.0| > 2 || gap.0 == [] then None else Some((day.0, gap.1))
  }

  /** `[\d:]+\s+(\d{4})` at the start of `t`: the year. */
  function YearFrom(t: string): (r: Option<string>)
    ensures r.Some? ==> |r.value| == 4 && AllDigits(r.value)
  {
    var time := Span(t, IsDigitOrColon);
    var gap := Span(time.1, IsSpace);
    if time.0 == [] || gap.0 == [] || |gap.1| < 4 || !AllDigits(gap.1[..4]) then None
    else Some(gap.1[..4])
  }

  /** `(\d{1,2})\s+[\d:]+\s+(\d{4})` at the start of `t`. */
  function DayYearFrom(t: string): (r: Option<(string, string)>)
    ensures r.Some? ==> 1 <= |r.value.0| <= 2 && AllDigits(r.value.0)
    ensures r.Some? ==> |r.value.1| == 4 && AllDigits(r.value.1)
  {
    match DayFrom(t)
    case None => None
    case Some(dayRest) =>
      match YearFrom(dayRest.1)
      case None => None
      case Some(year) => Some((dayRest.0, year))
  }

  /** What the groups of a match look like. */
  predicate WellFormedParts(p: EnvelopeParts) {
    && |p.local| > 0 && |p.domain| > 0 && |p.month| == 3
    && 1 <= |p.day| <= 2 && AllDigits(p.day) && |p.year| == 4 && AllDigits(p.year)
  }

  /** The whole pattern tried at position `i`. */
  function EnvelopeAt(s: string, i: nat): (r: Option<EnvelopeParts>)
    ensures r.Some? ==> WellFormedParts(r.value)
  {
    if i > |s| then None else EnvelopeFrom(s[i..])
  }

  /** The pattern read from the start of `t`, one stage after another. */
  function EnvelopeFrom(t: string): (r: Option<EnvelopeParts>)
    ensures r.Some? ==> WellFormedParts(r.value)
  {
    var sender := SenderFrom(t);
    if sender.None? then None
    else
      var month := MonthFrom(sender.value.2);
      if month.None? then None
      else
        var dayYear := DayYearFrom(month.value.1);
        if dayYear.None? then None
        else Some(EnvelopeParts(sender.value.0, sender.value.1, month.value.0, dayYear.value.0, dayYear.value.1))
  }

  /** `re.search` with the envelope pattern: the leftmost match. */
  function SearchEnvelope(s: string): (r: Option<EnvelopeParts>)
    ensures r.Some? ==> WellFormedParts(r.value)
  {
    FirstMatch(j => EnvelopeAt(s, j), 0, |s|)
  }

  /** `datetime.strptime(token, "%b").month` for a token shaped `[A-Z][a-z]{2}`:
      the English abbreviations; any other token raises. */
  function MonthNumber(token: string): (r: Option<nat>)
    ensures r.Some? ==> 1 <= r.value <= 12
  {
    if token == "Jan" then Some(1) else if token == "Feb" then Some(2)
    else if token == "Mar" then Some(3) else if token == "Apr" then Some(4)
    else if token == "May" then Some(5) else if token == "Jun" then Some(6)
    else if token == "Jul" then Some(7) else if token == "Aug" then Some(8)
    else if token == "Sep" then Some(9) else if token == "Oct" then Some(10)
    else if token == "Nov" then Some(11) else if token == "Dec" then Some(12)
    else None
  }

  /** `f"{month:02d}/{day:02d}/{year}"` for the day and year groups. */
  function DateKey(month: nat, day: string, year: string): (date: string)
    requires 1 <= month <= 12 && 1 <= |day| <= 2 && AllDigits(day) && AllDigits(year)
    ensures |date| >= 7 && date[2] == '/' && date[5] == '/'
    ensures AllDigits(date[..2]) && DigitsValue(date[..2]) == month
    ensures AllDigits(date[3..5]) && DigitsValue(date[3..5]) == DigitsValue(day)
    ensures AllDigits(date[6..]) && date[6..] == NatToString(DigitsValue(year))
  {
    var date := TwoDigits(month) + "/" + Pad2(day) + "/" + NatToString(DigitsValue(year));
    assert date[..2] == TwoDigits(month) && date[3..5] == Pad2(day);
    assert date[6..] == NatToString(DigitsValue(year));
    date
  }

  /** `format_identifier_line`: `("", "")` when the envelope pattern does not
      match; `Raises` when its month token is no month abbreviation; else
      `(MM/DD/YYYY, local@domain)`. */
  function FormatIdentifierLine(line: string): Outcome<(string, string)> {
    match SearchEnvelope(line)
    case None => Returns(("", ""))
    case Some(p) =>
      match MonthNumber(p.month)
      case None => Raises
      case Some(month) => Returns((DateKey(month, p.day, p.year), p.local + "@" + p.domain))
  }

  /** `re.search` finds no match exactly when the pattern matches at no
      position. */
  lemma SearchEnvelopeNone(line: string)
    ensures SearchEnvelope(line).None? <==> forall j :: 0 <= j <= |line| ==> EnvelopeAt(line, j).None?
  {
    var attempt: nat -> Option<EnvelopeParts> := (j: nat) => EnvelopeAt(line, j);
    FirstMatchNone(attempt, 0, |line|);
    assert SearchEnvelope(line) == FirstMatch(attempt, 0, |line|);
    forall j: nat ensures attempt(j) == EnvelopeAt(line, j) {
    }
  }

  /** The key is `("", "")` exactly when the envelope pattern matches
      nowhere in the line: a match always yields a dated key. */
  lemma FormatIdentifierLineEmptyIffNoMatch(line: string)
    ensures FormatIdentifierLine(line) == Returns(("", "")) <==> forall j :: 0 <= j <= |line| ==> EnvelopeAt(line, j).None?
  {
    SearchEnvelopeNone(line);
  }

  /** The key raises exactly when the envelope pattern matches and its
      month token is no abbreviation. */
  lemma FormatIdentifierLineRaises(line: string)
    ensures FormatIdentifierLine(line) == Raises
        <==> SearchEnvelope(line).Some? && MonthNumber(SearchEnvelope(line).value.month).None?
  {
    match SearchEnvelope(line)
    case None =>
    case Some(p) =>
  }

  /** An envelope line as an mbox archive writes it, built from its fields. */
  function EnvelopeLine(local: string, domain: string, weekday: string, month: string,
                        day: string, time: string, year: string): string
  {
    "From " + (local + (" at " + (domain + (" " + MonthPart(weekday, month, DayYearPart(day, time, year))))))
  }

  function MonthPart(weekday: string, month: string, rest: string): string {
    weekday + (" " + (month + (" " + rest)))
  }

  function DayYearPart(day: string, time: string, year: string): string {
    day + (" " + (time + (" " + year)))
  }

  predicate NoSpace(s: string) { forall k :: 0 <= k < |s| ==> !IsSpace(s[k]) }

  lemma SenderReadsLocal(local: string, rest: string)
    requires |local| > 0 && NoSpace(local)
    ensures var t := "From " + (local + (" at " + rest));
      && StartsWith(t, "From ") && Span(t[5..], IsNonSpace) == (local, " at " + rest)
      && Span(" at " + rest, IsSpace) == (" ", "at " + rest)
  {
    var t := "From " + (local + (" at " + rest));
    assert t[..5] == "From " && t[5..] == local + (" at " + rest);
    SpanOf(local, " at " + rest, IsNonSpace);
    assert " at " + rest == " " + ("at " + rest);
    SpanOf(" ", "at " + rest, IsSpace);
  }

  lemma SenderReadsDomain(domain: string, rest: string)
    requires |domain| > 0 && NoSpace(domain)
    requires |rest| > 0 && !IsSpace(rest[0])
    ensures var u := "at " + (domain + (" " + rest));
      && StartsWith(u, "at") && Span(u[2..], IsSpace) == (" ", domain + (" " + rest))
      && Span(domain + (" " + rest), IsNonSpace) == (domain, " " + rest)
      && Span(" " + rest, IsSpace) == (" ", rest)
  {
    var u := "at " + (domain + (" " + rest));
    assert u[..2] == "at" && u[2..] == " " + (domain + (" " + rest));
    SpanOf(" ", domain + (" " + rest), IsSpace);
    SpanOf(domain, " " + rest, IsNonSpace);
    SpanOf(" ", rest, IsSpace);
  }

  lemma SenderReads(local: string, domain: string, rest: string)
    requires |local| > 0 && NoSpace(local) && |domain| > 0 && NoSpace(domain)
    requires |rest| > 0 && !IsSpace(rest[0])
    ensures SenderFrom("From " + (local + (" at " + (domain + (" " + rest))))) == Some((local, domain, rest))
  {
    SenderReadsLocal(local, domain + (" " + rest));
    SenderReadsDomain(domain, rest);
    assert " at " + (domain + (" " + rest)) == " " + ("at " + (domain + (" " + rest)));
  }

  /** A token shaped like a month abbreviation, `[A-Z][a-z]{2}`. */
  predicate MonthShaped(token: string) {
    |token| == 3 && IsUpperLetter(token[0]) && IsLowerLetter(token[1]) && IsLowerLetter(token[2])
  }

  lemma MonthReads(weekday: string, month: string, rest: string)
    requires |weekday| > 0 && forall k :: 0 <= k < |weekday| ==> IsWordChar(weekday[k])
    requires MonthShaped(month)
    requires |rest| > 0 && !IsSpace(rest[0])
    ensures MonthFrom(MonthPart(weekday, month, rest)) == Some((month, rest))
  {
    SpanOf(weekday, " " + (month + (" " + rest)), IsWordChar);
    SpanOf(" ", month + (" " + rest), IsSpace);
    var u := month + (" " + rest);
    assert u[..3] == month && u[3..] == " " + rest;
    SpanOf(" ", rest, IsSpace);
  }

  lemma DayReads(day: string, rest: string)
    requires 1 <= |day| <= 2 && AllDigits(day)
    requires |rest| > 0 && !IsSpace(rest[0])
    ensures DayFrom(day + (" " + rest)) == Some((day, rest))
  {
    SpanOf(day, " " + rest, IsDigit);
    SpanOf(" ", rest, IsSpace);
  }

  lemma YearReads(time: string, year: string)
    requires |time| > 0 && forall k :: 0 <= k < |time| ==> IsDigitOrColon(time[k])
    requires |year| == 4 && AllDigits(year)
    ensures YearFrom(time + (" " + year)) == Some(year)
  {
    SpanOf(time, " " + year, IsDigitOrColon);
    SpanOf(" ", year, IsSpace);
    assert year[..4] == year;
  }

  lemma DayYearReads(day: string, time: string, year: string)
    requires 1 <= |day| <= 2 && AllDigits(day)
    requires |time| > 0 && forall k :: 0 <= k < |time| ==> IsDigitOrColon(time[k])
    requires |year| == 4 && AllDigits(year)
    ensures DayYearFrom(DayYearPart(day, time, year)) == Some((day, year))
  {
    DayReads(day, time + (" " + year));
    YearReads(time, year);
  }

  lemma EnvelopeAtReadsLine(local: string, domain: string, weekday: string, month: string,
                            day: string, time: string, year: string)
    requires |local| > 0 && NoSpace(local) && |domain| > 0 && NoSpace(domain)
    requires |weekday| > 0 && forall k :: 0 <= k < |weekday| ==> IsWordChar(weekday[k])
    requires MonthShaped(month)
    requires 1 <= |day| <= 2 && AllDigits(day)
    requires |time| > 0 && forall k :: 0 <= k < |time| ==> IsDigitOrColon(time[k])
    requires |year| == 4 && AllDigits(year)
    ensures EnvelopeAt(EnvelopeLine(local, domain, weekday, month, day, time, year), 0)
         == Some(EnvelopeParts(local, domain, month, day, year))
  {
    var s := EnvelopeLine(local, domain, weekday, month, day, time, year);
    var dayYear := DayYearPart(day, time, year);
    var rest := MonthPart(weekday, month, dayYear);
    DateReads(weekday, month, day, time, year);
    SenderReads(local, domain, rest);
    EnvelopeAtFromStages(s, local, domain, rest, month, dayYear, day, year);
  }

  /** The date after the sender reads back as its month, day and year. */
  lemma DateReads(weekday: string, month: string, day: string, time: string, year: string)
    requires |weekday| > 0 && forall k :: 0 <= k < |weekday| ==> IsWordChar(weekday[k])
    requires MonthShaped(month)
    requires 1 <= |day| <= 2 && AllDigits(day)
    requires |time| > 0 && forall k :: 0 <= k < |time| ==> IsDigitOrColon(time[k])
    requires |year| == 4 && AllDigits(year)
    ensures var rest := MonthPart(weekday, month, DayYearPart(day, time, year));
      && |rest| > 0 && !IsSpace(rest[0])
      && MonthFrom(rest) == Some((month, DayYearPart(day, time, year)))
      && DayYearFrom(DayYearPart(day, time, year)) == Some((day, year))
  {
    var dayYear := DayYearPart(day, time, year);
    assert dayYear[0] == day[0];
    MonthReads(weekday, month, dayYear);
    DayYearReads(day, time, year);
    assert MonthPart(weekday, month, dayYear)[0] == weekday[0];
  }

  /** The three stages, each reading what the previous one left, make up
      the match at the start of the line. */
  lemma EnvelopeAtFromStages(s: string, local: string, domain: string, rest: string,
                             month: string, rest2: string, day: string, year: string)
    requires SenderFrom(s) == Some((local, domain, rest))
    requires MonthFrom(rest) == Some((month, rest2))
    requires DayYearFrom(rest2) == Some((day, year))
    ensures EnvelopeAt(s, 0) == Some(EnvelopeParts(local, domain, month, day, year))
  {
    assert s[0..] == s;
    EnvelopeFromStages(s, local, domain, rest, month, rest2, day, year);
  }

  /** The same, read from the start of the text. */
  lemma EnvelopeFromStages(t: string, local: string, domain: string, rest: string,
                           month: string, rest2: string, day: string, year: string)
    requires SenderFrom(t) == Some((local, domain, rest))
    requires MonthFrom(rest) == Some((month, rest2))
    requires DayYearFrom(rest2) == Some((day, year))
    ensures EnvelopeFrom(t) == Some(EnvelopeParts(local, domain, month, day, year))
  {
  }

  /** Reading back a well-formed envelope line yields its date as
      `MM/DD/YYYY` and its sender as `local@domain` when the month token is
      an abbreviation; any other capitalised three-letter token raises. */
  lemma FormatIdentifierLineReadsEnvelope(local: string, domain: string, weekday: string, month: string,
                                          day: string, time: string, year: string)
    requires |local| > 0 && NoSpace(local) && |domain| > 0 && NoSpace(domain)
    requires |weekday| > 0 && forall k :: 0 <= k < |weekday| ==> IsWordChar(weekday[k])
    requires MonthShaped(month)
    requires 1 <= |day| <= 2 && AllDigits(day)
    requires |time| > 0 && forall k :: 0 <= k < |time| ==> IsDigitOrColon(time[k])
    requires |year| == 4 && AllDigits(year)
    ensures var r := FormatIdentifierLine(EnvelopeLine(local, domain, weekday, month, day, time, year));
      && (MonthNumber(month).None? ==> r == Raises)
      && (MonthNumber(month).Some? ==> r == Returns((DateKey(MonthNumber(month).value, day, year), local + "@" + domain)))
  {
    var s := EnvelopeLine(local, domain, weekday, month, day, time, year);
    EnvelopeAtReadsLine(local, domain, weekday, month, day, time, year);
    var attempt := j => EnvelopeAt(s, j);
    assert attempt(0).Some?;
    FirstMatchLeftmost(attempt, 0, 0, |s|);
  }

  // ---------------------------------------------------------------------
  // The requestor name of the `From:` header

  predicate NotCloseParen(c: char) { c != ')' }

  /** `\(([^)]+)\)` at the start of `u`: the group when it matches. The
      group is the longest run without `)`, so it can hold line feeds. */
  function ParenGroup(u: string): (r: Option<string>)
    ensures r.Some? ==> |r.value| > 0 && ')' !in r.value
  {
    if u == [] || u[0] != '(' then None
    else
      var group := Span(u[1..], NotCloseParen);
      if group.0 == [] || group.1 == [] then None else Some(group.0)
  }

  /** `.*?` followed by the group: the shortest prefix of `u`, without a
      line feed, after which the group matches. */
  function LazyParen(u: string): Option<string>
    decreases |u|
  {
    match ParenGroup(u)
    case Some(g) => Some(g)
    case None => if u == [] || u[0] == '\n' then None else LazyParen(u[1..])
  }

  /** `From:.*?\(([^)]+)\)` at position `i`. */
  function NameAt(s: string, i: nat): Option<string> {
    if i <= |s| && StartsWith(s[i..], "From:") then LazyParen(s[i + 5..]) else None
  }

  /** `re.search` with the name pattern: the leftmost match. */
  function SearchName(s: string): Option<string> {
    FirstMatch(j => NameAt(s, j), 0, |s|)
  }

  /** Lower-cased, with every whitespace character removed. */
  function Squash(s: string): (r: string)
    ensures forall k :: 0 <= k < |r| ==> !IsSpace(r[k]) && !IsUpperLetter(r[k])
  {
    var r := RemoveSpace(Lower(s));
    assert forall k :: 0 <= k < |r| ==> r[k] in Lower(s) by {
      RemoveSpaceKeeps(Lower(s));
    }
    r
  }

  lemma {:induction false} RemoveSpaceKeeps(s: string)
    ensures forall k :: 0 <= k < |RemoveSpace(s)| ==> RemoveSpace(s)[k] in s
  {
    if s != [] {
      RemoveSpaceKeeps(s[1..]);
    }
  }

  /** `extract_name_from_second_line`: "" without a `From: ...(...)`
      match; otherwise the parenthesised text, stripped and squashed, or,
      when that contains "utf-8", the RFC 2047 decoding of the stripped
      text (`decode`, not modelled) squashed instead. The decoding can fail
      (a malformed encoded word), and its exception then leaves the
      function: `Raises`. */
  function ExtractNameFromSecondLine(line: string, decode: string -> Outcome<string>): (r: Outcome<string>)
    ensures r.Returns? ==> forall k :: 0 <= k < |r.value| ==> !IsSpace(r.value[k]) && !IsUpperLetter(r.value[k])
    ensures r.Raises? ==> SearchName(line).Some? && decode(Strip(SearchName(line).value)).Raises?
  {
    match SearchName(line)
    case None => Returns("")
    case Some(group) =>
      var name := Strip(group);
      var squashed := Squash(name);
      if Contains(squashed, "utf-8") then
        match decode(name)
        case Returns(decoded) => Returns(Squash(decoded))
        case Raises => Raises
      else Returns(squashed)
  }

  /** The lazy repetition passes over text without `(` or a line feed. */
  lemma {:induction false} LazySkipsAddress(address: string, u: string)
    requires '(' !in address && '\n' !in address
    ensures LazyParen(address + u) == LazyParen(u)
  {
    if address != [] {
      assert (address + u)[0] == address[0] && address[0] != '(' && address[0] != '\n';
      assert ParenGroup(address + u).None?;
      assert (address + u)[1..] == address[1..] + u;
      assert LazyParen(address + u) == LazyParen((address + u)[1..]);
      LazySkipsAddress(address[1..], u);
    } else {
      assert address + u == u;
    }
  }

  lemma ParenReadsName(name: string, rest: string)
    requires |name| > 0 && ')' !in name
    ensures ParenGroup("(" + (name + (")" + rest))) == Some(name)
  {
    assert ("(" + (name + (")" + rest)))[1..] == name + (")" + rest);
    SpanOf(name, ")" + rest, NotCloseParen);
  }

  /** Reading back a header `From: <address> (<name>)`: the result is the
      name, stripped, lower-cased and without whitespace, unless that form
      contains "utf-8" (then the decoder's result is squashed instead). */
  lemma ExtractNameReadsFromHeader(address: string, name: string, rest: string, decode: string -> Outcome<string>)
    requires '(' !in address && '\n' !in address
    requires |name| > 0 && ')' !in name
    ensures var r := ExtractNameFromSecondLine("From:" + (address + ("(" + (name + (")" + rest)))), decode);
      && (!Contains(Squash(Strip(name)), "utf-8") ==> r == Returns(Squash(Strip(name))))
      && (Contains(Squash(Strip(name)), "utf-8") ==>
            r == match decode(Strip(name)) case Returns(d) => Returns(Squash(d)) case Raises => Raises)
  {
    var s := "From:" + (address + ("(" + (name + (")" + rest))));
    ParenReadsName(name, rest);
    LazySkipsAddress(address, "(" + (name + (")" + rest)));
    assert s[0..] == s && s[..5] == "From:" && s[5..] == address + ("(" + (name + (")" + rest)));
    assert NameAt(s, 0) == Some(name);
    FirstMatchLeftmost(j => NameAt(s, j), 0, 0, |s|);
  }

  /** Without a `From:` header there is no name. */
  lemma NoFromHeaderNoName(line: string, decode: string -> Outcome<string>)
    requires !Contains(line, "From:")
    ensures ExtractNameFromSecondLine(line, decode) == Returns("")
  {
    OccursFromIff(line, "From:", 0);
    forall j | 0 <= j <= |line| ensures NameAt(line, j).None? {
      if j + 5 <= |line| {
        assert line[j..][..5] == line[j..j + 5];
        assert !OccursAt(line, "From:", j);
      }
    }
    FirstMatchNone(j => NameAt(line, j), 0, |line|);
  }

  /** The group needs a closing parenthesis: without one the lazy
      repetition never matches. */
  lemma {:induction false} LazyParenNeedsClose(u: string)
    requires ')' !in u
    ensures LazyParen(u).None?
  {
    if u != [] {
      if u[0] == '(' {
        assert u[1..] + [] == u[1..];
        SpanOf(u[1..], [], NotCloseParen);
      }
      assert ParenGroup(u).None?;
      if u[0] != '\n' {
        LazyParenNeedsClose(u[1..]);
      }
    }
  }

  /** A `From:` header without a parenthesised display name, such as
      `From: someone@example.org`, gives no name either. */
  lemma NoCloseParenNoName(line: string, decode: string -> Outcome<string>)
    requires ')' !in line
    ensures ExtractNameFromSecondLine(line, decode) == Returns("")
  {
    forall j | 0 <= j <= |line| ensures NameAt(line, j).None? {
      if j <= |line| && StartsWith(line[j..], "From:") {
        LazyParenNeedsClose(line[j + 5..]);
      }
    }
    FirstMatchNone(j => NameAt(line, j), 0, |line|);
  }
}
