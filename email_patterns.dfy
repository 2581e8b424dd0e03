/** The line patterns of preprocessing/filter_emails.py, written out as
    predicates over one line.

    Each line comes from `str.splitlines()`, so it holds no line break: the
    regular-expression `.` then matches any of its characters and `$` matches
    only at its end. `match` anchors a pattern at the start of the line,
    `search` tries every start. Where a repetition is followed by a character
    it cannot consume, the repetition must end at the end of its run, and the
    predicates below read it that way instead of enumerating the backtracking
    choices. Case-insensitive patterns are matched against the `Lower` form of the
    line against lower-case literals. */
module EmailPatterns {
  import opened Text

  /** `REMOVE_HEADER_KEYS`. */
  const RemoveHeaderKeys: set<string> := {
    "from", "date", "subject", "to", "cc", "bcc",
    "message-id", "in-reply-to", "references", "reply-to",
    "content-type", "content-transfer-encoding", "mime-version",
    "x-mailer", "x-originating-ip", "received", "return-path"
  }

  const DayNames: seq<string> := ["Mon", "Tue", "Wed", "Thu", "Fri", "Sat", "Sun"]

  const MonthNames: seq<string> := ["Jan", "Feb", "Mar", "Apr", "May", "Jun", "Jul", "Aug", "Sep", "Oct", "Nov", "Dec"]

  const LowerDayNames: seq<string> := ["mon", "tue", "wed", "thu", "fri", "sat", "sun"]

  const LowerMonthNames: seq<string> :=
    ["jan", "feb", "mar", "apr", "may", "jun", "jul", "aug", "sep", "oct", "nov", "dec"]

  predicate NotSpace(c: char) { !IsSpace(c) }

  predicate IsDash(c: char) { c == '-' }

  /** The rest of `s` from `i` on is whitespace (`\s*$`). */
  predicate BlankFrom(s: string, i: nat) {
    i <= |s| && SpaceEnd(s, i) == |s|
  }

  /** `\b` before position `i` of a match that begins with a word character. */
  predicate WordStart(s: string, i: nat) {
    i <= |s| && (i == 0 || !IsWordChar(s[i - 1]))
  }

  /** `\b` after a match that ends with a word character at `j`. */
  predicate WordEnd(s: string, j: nat) {
    j == |s| || (j < |s| && !IsWordChar(s[j]))
  }

  /** `\b(?:name|...)\b` at `i`, for the three-letter names given. */
  predicate NameWordAt(s: string, i: nat, names: seq<string>) {
    WordStart(s, i) && exists n | n in names :: WordAt(s, i, n)
  }

  /** `n` occurs at `i` and a word boundary follows it. */
  predicate WordAt(s: string, i: nat, n: string) {
    OccursAt(s, n, i) && WordEnd(s, i + |n|)
  }

  // ---------------------------------------------------------------------
  // Header region

  predicate IsKeyChar(c: char) { IsLetter(c) || IsDigit(c) || c == '-' }

  /** `HEADER_LINE_RE.match(s)` and its group: `^([A-Za-z][A-Za-z0-9-]*):`. */
  function HeaderKey(s: string): (key: Option<string>)
    ensures key.Some? ==> |key.value| >= 1 && IsLetter(key.value[0]) && StartsWith(s, key.value + ":")
    ensures key.Some? ==> forall k :: 0 <= k < |key.value| ==> IsKeyChar(key.value[k])
  {
    if |s| == 0 || !IsLetter(s[0]) then None
    else
      var j := RunEnd(s, 1, IsKeyChar);
      if j < |s| && s[j] == ':' then
        assert (s[..j] + ":") == s[..j + 1];
        Some(s[..j])
      else None
  }

  /** `MBOX_ENVELOPE_RE.match(s)`:
      `^From\s+\S+.*\b(?:Mon|...|Sun)\b.*\b(?:Jan|...|Dec)\b`. */
  predicate IsMboxEnvelope(s: string) {
    && StartsWith(s, "From") && |s| > 4 && IsSpace(s[4])
    && var w := SpaceEnd(s, 4);
       && w < |s|
       && exists i | w + 1 <= i <= |s| ::
            NameWordAt(s, i, DayNames) && exists j | i + 3 <= j <= |s| :: NameWordAt(s, j, MonthNames)
  }

  predicate IsTabOrSpace(c: char) { c == '\t' || c == ' ' }

  /** `FOLDED_HEADER_RE.match(s)`: `^[\t ]+\S`. */
  predicate IsFoldedHeader(s: string) {
    |s| > 0 && IsTabOrSpace(s[0]) && var w := RunEnd(s, 0, IsTabOrSpace); w < |s| && !IsSpace(s[w])
  }

  predicate NotAtOrClose(c: char) { c != '@' && c != '>' }

  /** `MESSAGE_ID_LINE_RE.match(s)`: `^<[^@>]+@[^>]+>\s*$`. */
  predicate IsMessageIdLine(s: string) {
    && |s| > 0 && s[0] == '<'
    && var a := RunEnd(s, 1, NotAtOrClose);
       && a > 1 && a < |s| && s[a] == '@'
       && var b := FindChar(s, '>', a + 1);
          b > a + 1 && b < |s| && BlankFrom(s, b + 1)
  }

  // ---------------------------------------------------------------------
  // Markers and reply introducers

  /** `-{5,}\s*<words>\s*-{5,}\s*$` on the lowered line. */
  predicate DashedMarker(l: string, words: string) {
    var a := RunEnd(l, 0, IsDash);
    && a >= 5
    && var b := SpaceEnd(l, a);
       && OccursAt(l, words, b)
       && var c := SpaceEnd(l, b + |words|);
          var d := RunEnd(l, c, IsDash);
          d - c >= 5 && BlankFrom(l, d)
  }

  /** `FORWARDED_RE.match(s)`, ignoring case. */
  predicate IsForwarded(s: string) { DashedMarker(Lower(s), "forwarded message") }

  /** `ORIGINAL_MSG_RE.match(s)`, ignoring case. */
  predicate IsOriginalMessage(s: string) { DashedMarker(Lower(s), "original message") }

  /** `On .+ wrote:\s*$` from position `i` of the lowered line. */
  predicate OnWroteAt(l: string, i: nat) {
    && OccursAt(l, "on ", i)
    && exists e | i + 4 <= e && e + 7 <= |l| :: FinalWroteAt(l, e, " wrote:")
  }

  /** `<w>\s*$` at `e`, for the literal `w`. */
  predicate FinalWroteAt(l: string, e: nat, w: string) {
    OccursAt(l, w, e) && BlankFrom(l, e + |w|)
  }

  /** `ON_WROTE_RE.match(s)`: `^On .+ wrote:\s*$`, ignoring case. */
  predicate IsOnWrote(s: string) { OnWroteAt(Lower(s), 0) }

  /** `ON_DATE_WROTE_RE.match(s)`: `^On \d{1,2}/\d{1,2}/\d{2,4}.+wrote:\s*$`,
      ignoring case. Two year digits are enough: `.+` takes any others. */
  predicate IsOnDateWrote(s: string) {
    var l := Lower(s);
    && StartsWith(l, "on ")
    && var a := RunEnd(l, 3, IsDigit);
       && 1 <= a - 3 <= 2 && a < |l| && l[a] == '/'
       && var b := RunEnd(l, a + 1, IsDigit);
          && 1 <= b - (a + 1) <= 2 && b < |l| && l[b] == '/'
          && b + 3 <= |l| && IsDigit(l[b + 1]) && IsDigit(l[b + 2])
          && exists e | b + 4 <= e && e + 6 <= |l| :: FinalWroteAt(l, e, "wrote:")
  }

  /** `ANGLE_ON_WROTE_RE.match(s)`: `^>\s*On .+ wrote:\s*$`, ignoring case. */
  predicate IsAngleOnWrote(s: string) {
    var l := Lower(s);
    |l| > 0 && l[0] == '>' && OnWroteAt(l, SpaceEnd(l, 1))
  }

  /** A line `ANGLE_ON_WROTE_RE` matches starts with `>`. */
  lemma AngleOnWroteIsQuoted(s: string)
    ensures IsAngleOnWrote(s) ==> StartsWith(s, ">")
  {
    if IsAngleOnWrote(s) {
      assert Lower(s)[0] == LowerChar(s[0]);
    }
  }

  /** `ON_DATE_MULTILINE_RE.match(s)`:
      `^On\s+(?:Mon|...|Sun),?\s+(?:Jan|...|Dec)`, ignoring case. */
  predicate IsOnDateMultiline(s: string) {
    var l := Lower(s);
    && StartsWith(l, "on") && |l| > 2 && IsSpace(l[2])
    && var w := SpaceEnd(l, 2);
       && (exists n | n in LowerDayNames :: OccursAt(l, n, w))
       && var c := if w + 3 < |l| && l[w + 3] == ',' then w + 4 else w + 3;
          && c < |l| && IsSpace(l[c])
          && exists m | m in LowerMonthNames :: OccursAt(l, m, SpaceEnd(l, c))
  }

  // ---------------------------------------------------------------------
  // is_quote_header_line

  /** `TIME_PATTERN.search(s)`: `\d{1,2}:\d{2}`; one digit before the colon
      is enough for some start to match. */
  predicate HasTime(s: string) {
    exists i | 1 <= i && i + 2 < |s| :: TimeAt(s, i)
  }

  /** A digit, a colon at `i` and two digits. */
  predicate TimeAt(s: string, i: nat) {
    1 <= i && i + 2 < |s| && s[i] == ':' && IsDigit(s[i - 1]) && IsDigit(s[i + 1]) && IsDigit(s[i + 2])
  }

  predicate IsDateSep(c: char) { c == '.' || c == '/' || c == '-' || IsSpace(c) }

  /** The first alternative of `DATE_PATTERN` from a digit at `i`:
      `\d[./\-\s]+(?:\d{1,2}|\w{3,9})[./\-\s]+\d{2,4}`. */
  predicate NumericDateAt(s: string, i: nat) {
    && i < |s| && IsDigit(s[i])
    && var j := RunEnd(s, i + 1, IsDateSep);
       && j > i + 1
       && var m := RunEnd(s, j, IsWordChar);
          && m < |s| && IsDateSep(s[m])
          && ((1 <= m - j <= 2 && RunEnd(s, j, IsDigit) >= m) || 3 <= m - j <= 9)
          && var n := RunEnd(s, m, IsDateSep);
             n + 2 <= |s| && IsDigit(s[n]) && IsDigit(s[n + 1])
  }

  /** The second alternative of `DATE_PATTERN` from a digit at `i`:
      `\d\s+\w{3,9}\.?\s+\d{4}`. */
  predicate WordDateAt(s: string, i: nat) {
    && i + 1 < |s| && IsDigit(s[i]) && IsSpace(s[i + 1])
    && var j := SpaceEnd(s, i + 1);
       var m := RunEnd(s, j, IsWordChar);
       && 3 <= m - j <= 9
       && var p := if m < |s| && s[m] == '.' then m + 1 else m;
          && p < |s| && IsSpace(s[p])
          && var n := SpaceEnd(s, p);
             n + 4 <= |s| && RunEnd(s, n, IsDigit) >= n + 4
  }

  /** `DATE_PATTERN.search(s)`. */
  predicate HasDate(s: string) {
    exists i | 0 <= i < |s| :: NumericDateAt(s, i) || WordDateAt(s, i)
  }

  /** `is_quote_header_line(line, next_line)`: the two lines joined by a
      space hold a time, a date, a `<` and a `>`. */
  predicate IsQuoteHeaderLine(line: string, nextLine: string) {
    var combined := line + " " + nextLine;
    HasTime(combined) && HasDate(combined) && '<' in combined && '>' in combined
  }

  // ---------------------------------------------------------------------
  // Inline quoted headers

  const InlineHeaderKeys: seq<string> := ["from:", "date:", "to:", "subject:", "cc:"]

  /** `INLINE_QUOTE_HEADER_RE.match(s)`:
      `^From:.+$|^Date:.+$|^To:.+$|^Subject:.+$|^Cc:.+$`, ignoring case. */
  predicate IsInlineQuoteHeader(s: string) {
    var l := Lower(s);
    exists k | k in InlineHeaderKeys :: StartsWith(l, k) && |l| > |k|
  }

  /** The `header_keywords` of `is_inline_quoted_header_block`. */
  const HeaderKeywords: seq<string> := ["from:", "sent:", "to:", "cc:", "subject:", "date:"]

  /** The stripped, lowered line starts with one of the header keywords. */
  predicate HasHeaderKeyword(line: string) {
    var l := Lower(Strip(line));
    exists kw | kw in HeaderKeywords :: StartsWith(l, kw)
  }

  /** `ON_BEHALF_RE.match(s)`: `^From:.+On Behalf Of`, ignoring case. */
  predicate IsOnBehalf(s: string) {
    var l := Lower(s);
    StartsWith(l, "from:") && exists k | 6 <= k <= |l| :: OccursAt(l, "on behalf of", k)
  }

  predicate IsDividerChar(c: char) { c == '_' || c == '=' || c == '-' }

  /** `DIVIDER_RE.match(s)`: `^[_=-]{5,}\s*$`. */
  predicate IsDivider(s: string) {
    var j := RunEnd(s, 0, IsDividerChar);
    j >= 5 && BlankFrom(s, j)
  }

  predicate IsUnderscore(c: char) { c == '_' }

  /** `LIST_BOILERPLATE_RE.search(s)`, ignoring case. */
  predicate IsListBoilerplate(s: string) {
    var l := Lower(s);
    || (|l| >= 3 && RunEnd(l, 0, IsUnderscore) == |l|)
    || EndsWith(l, "mailing list")
    || Contains(l, "mailman")
    || Contains(l, "/listinfo/")
    || (StartsWith(l, "snf-promcommittee") && |l| > 17 && IsSpace(l[17]))
    || EndsWith(l, "lists.stanford.edu")
  }

  // ---------------------------------------------------------------------
  // ATTACHMENT_RE

  /** `^[-]{2,}\s*next part\s*[-]{2,}$`. */
  predicate NextPartLine(l: string) {
    var a := RunEnd(l, 0, IsDash);
    && a >= 2
    && var b := SpaceEnd(l, a);
       && OccursAt(l, "next part", b)
       && var c := SpaceEnd(l, b + 9);
          RunEnd(l, c, IsDash) == |l| && |l| - c >= 2
  }

  /** `^Name:\s*\S+\.\S+\s*$`. */
  predicate NameLine(l: string) {
    && StartsWith(l, "name:")
    && var a := SpaceEnd(l, 5);
       var e := RunEnd(l, a, NotSpace);
       BlankFrom(l, e) && exists k | a + 1 <= k < e - 1 :: CharAt(l, k, '.')
  }

  predicate CharAt(s: string, k: nat, c: char) { k < |s| && s[k] == c }

  /** `^Type:\s*(application|image|text|audio|video)/`. */
  predicate TypeLine(l: string) {
    && StartsWith(l, "type:")
    && var a := SpaceEnd(l, 5);
       exists t | t in ["application", "image", "text", "audio", "video"] :: OccursAt(l, t + "/", a)
  }

  /** `^Size:\s*\d+\s*bytes`. */
  predicate SizeLine(l: string) {
    && StartsWith(l, "size:")
    && var a := SpaceEnd(l, 5);
       var d := RunEnd(l, a, IsDigit);
       d > a && OccursAt(l, "bytes", SpaceEnd(l, d))
  }

  /** `^URL:\s*<https?://`. */
  predicate UrlLine(l: string) {
    && StartsWith(l, "url:")
    && var a := SpaceEnd(l, 4);
       OccursAt(l, "<http://", a) || OccursAt(l, "<https://", a)
  }

  /** `ATTACHMENT_RE.search(s)`, ignoring case. */
  predicate IsAttachment(s: string) {
    var l := Lower(s);
    || NextPartLine(l)
    || Contains(l, "attachment was scrubbed")
    || StartsWith(l, "an html attachment was scrubbed")
    || StartsWith(l, "a non-text attachment was scrubbed")
    || StartsWith(l, "an embedded and charset-unspecified text was scrubbed")
    || NameLine(l)
    || TypeLine(l)
    || SizeLine(l)
    || StartsWith(l, "desc:")
    || UrlLine(l)
  }

  // ---------------------------------------------------------------------
  // Footers and notices

  /** `SENT_FROM_RE.match(s)`, ignoring case. */
  predicate IsSentFrom(s: string) {
    var l := Lower(s);
    exists t | t in ["mail", "my iphone", "my ipad", "outlook", "samsung", "yahoo", "gmail"] ::
      StartsWith(l, "sent from " + t)
  }

  /** `CONFIDENTIALITY_RE.search(s)`, ignoring case. */
  predicate IsConfidentiality(s: string) {
    var l := Lower(s);
    || Contains(l, "confidential")
    || (exists i, k | 0 <= i <= k <= |l| ::
          ((OccursAt(l, "this email", i) && k >= i + 11) || (OccursAt(l, "this e-mail", i) && k >= i + 12))
          && OccursAt(l, "intended solely", k))
    || Contains(l, "if you are not the intended recipient")
    || (exists i, k | 0 <= i && i + 7 <= k <= |l| ::
          OccursAt(l, "please", i) && OccursAt(l, "delete this message", k))
    || Contains(l, "do not disclose the contents")
  }

  /** The endings `('.', '!', '?')` of the confidentiality test. */
  predicate EndsSentence(s: string) {
    |s| > 0 && (s[|s| - 1] == '.' || s[|s| - 1] == '!' || s[|s| - 1] == '?')
  }

  // ---------------------------------------------------------------------
  // Signature and contact lines (case-sensitive unless noted)

  predicate IsPhoneChar(c: char) { IsDigit(c) || IsSpace(c) || c == '-' || c == '(' || c == ')' || c == '.' }

  /** The end of the optional `(?:Tel|Phone|Mobile|Fax|Cell)` label. */
  function PhoneLabelEnd(s: string): (p: nat)
    ensures p <= |s|
  {
    if StartsWith(s, "Tel") || StartsWith(s, "Fax") then 3
    else if StartsWith(s, "Cell") then 4
    else if StartsWith(s, "Phone") then 5
    else if StartsWith(s, "Mobile") then 6
    else 0
  }

  /** `\s*[\+]?[\d\s\-\(\)\.]{10,}$` from `q`: whitespace may be taken by the
      character class itself, so a `+` can only follow leading whitespace. */
  predicate PhoneTail(s: string, q: nat) {
    && q <= |s|
    && ((RunEnd(s, q, IsPhoneChar) == |s| && |s| - q >= 10)
        || (var w := SpaceEnd(s, q);
            w < |s| && s[w] == '+' && RunEnd(s, w + 1, IsPhoneChar) == |s| && |s| - (w + 1) >= 10))
  }

  /** `PHONE_RE.match(s)`:
      `^(?:Tel|Phone|Mobile|Fax|Cell)?:?\s*[\+]?[\d\s\-\(\)\.]{10,}$`. */
  predicate IsPhone(s: string) {
    var p := PhoneLabelEnd(s);
    var q := if p < |s| && s[p] == ':' then p + 1 else p;
    PhoneTail(s, q)
  }

  /** `ADDRESS_LINE_RE.match(s)`, ignoring case:
      `^\d+\s+[A-Za-z].*(?:Ave|Avenue|St|Street|Rd|Road|Way|Mall|Blvd|Drive|Dr)\b`. */
  predicate IsAddressLine(s: string) {
    var l := Lower(s);
    var d := RunEnd(l, 0, IsDigit);
    && d >= 1 && d < |l| && IsSpace(l[d])
    && var w := SpaceEnd(l, d);
       && w < |l| && IsLetter(l[w])
       && exists k, t | w + 1 <= k <= |l| && t in ["ave", "avenue", "st", "street", "rd", "road", "way", "mall",
                                                   "blvd", "drive", "dr"] ::
            OccursAt(l, t, k) && WordEnd(l, k + |t|)
  }

  /** `WEBSITE_LINE_RE.match(s)`, ignoring case:
      `^(?:www\.|https?://)[^\s]+$|^[a-z]+\.(com|edu|org|net)$`. */
  predicate IsWebsiteLine(s: string) {
    var l := Lower(s);
    || (var p := if StartsWith(l, "www.") then 4 else if StartsWith(l, "https://") then 8
                 else if StartsWith(l, "http://") then 7 else 0;
        p > 0 && p < |l| && RunEnd(l, p, NotSpace) == |l|)
    || (var a := RunEnd(l, 0, IsLetter);
        a >= 1 && a < |l| && l[a] == '.' && l[a + 1..] in {"com", "edu", "org", "net"})
  }

  predicate IsLocalChar(c: char) {
    IsLetter(c) || IsDigit(c) || c == '.' || c == '_' || c == '%' || c == '+' || c == '-'
  }

  predicate IsDomainChar(c: char) { IsLetter(c) || IsDigit(c) || c == '.' || c == '-' }

  /** `[a-zA-Z0-9.-]+\.[a-zA-Z]{2,}\s*$` from `d`. */
  predicate DomainTail(s: string, d: nat) {
    && d <= |s|
    && var e := RunEnd(s, d, IsDomainChar);
       BlankFrom(s, e) && exists k | d + 1 <= k && k + 3 <= e :: TopLevelDomainAt(s, k, e)
  }

  /** `\.[a-zA-Z]{2,}` from `k` up to `e`. */
  predicate TopLevelDomainAt(s: string, k: nat, e: nat) {
    k < |s| && s[k] == '.' && RunEnd(s, k + 1, IsLetter) >= e
  }

  /** `\s*(?:at|@)\s*` and the domain, after a local part ending at `a`. */
  predicate AfterLocalPart(s: string, a: nat) {
    && a <= |s|
    && var w := SpaceEnd(s, a);
       || (OccursAt(s, "at", w) && DomainTail(s, SpaceEnd(s, w + 2)))
       || (OccursAt(s, "@", w) && DomainTail(s, SpaceEnd(s, w + 1)))
  }

  /** `EMAIL_ONLY_RE.match(s)`:
      `^[a-zA-Z0-9._%+-]+\s*(?:at|@)\s*[a-zA-Z0-9.-]+\.[a-zA-Z]{2,}\s*$`. The
      local part may end anywhere inside its run, since `at` is made of
      local-part characters. */
  predicate IsEmailOnly(s: string) {
    exists a | 1 <= a <= RunEnd(s, 0, IsLocalChar) :: AfterLocalPart(s, a)
  }

  /** The signature delimiters; the last is the UTF-8 encoding of an em
      dash read as Windows-1252, as the source spells it. */
  predicate IsSignatureDelimiter(s: string) {
    s == "--" || s == "\U{e2}\U{20ac}\U{201d}" || s == "-- "
  }

  // ---------------------------------------------------------------------
  // Substitutions

  /** The end of an `IMAGE_PLACEHOLDER_RE` match at `i`:
      `\[image:\s*[^\]]+\]|\[[^\]]+\]\s*<https?://[^>]+>`. */
  function ImageMatchEnd(s: string, i: nat): (e: Option<nat>)
    requires i <= |s|
    ensures e.Some? ==> i < e.value <= |s|
  {
    var c := if OccursAt(s, "[image:", i) then FindChar(s, ']', i + 7) else |s|;
    if OccursAt(s, "[image:", i) && c < |s| && c > i + 7 then Some(c + 1)
    else LinkedImageEnd(s, i)
  }

  /** The end of a match of the second alternative, `\[[^\]]+\]\s*<https?://[^>]+>`. */
  function LinkedImageEnd(s: string, i: nat): (e: Option<nat>)
    requires i <= |s|
    ensures e.Some? ==> i < e.value <= |s|
  {
    if i == |s| || s[i] != '[' then None
    else
      var c := FindChar(s, ']', i + 1);
      if c == |s| || c == i + 1 then None
      else
        var w := SpaceEnd(s, c + 1);
        var p := if OccursAt(s, "<https://", w) then w + 9 else if OccursAt(s, "<http://", w) then w + 8 else 0;
        if p == 0 then None
        else
          var d := FindChar(s, '>', p);
          if d < |s| && d > p then Some(d + 1) else None
  }

  /** The end of a `MAILTO_RE` match at `i`: `<mailto:[^>]+>`. */
  function MailtoMatchEnd(s: string, i: nat): (e: Option<nat>)
    requires i <= |s|
    ensures e.Some? ==> i < e.value <= |s|
  {
    if !OccursAt(s, "<mailto:", i) then None
    else
      var d := FindChar(s, '>', i + 8);
      if d < |s| && d > i + 8 then Some(d + 1) else None
  }

  /** `IMAGE_PLACEHOLDER_RE.sub('', s[i:])`: left to right, each match is
      dropped and the scan resumes after it. */
  function RemoveImagesFrom(s: string, i: nat): (r: string)
    requires i <= |s|
    ensures |r| <= |s| - i
    decreases |s| - i
  {
    if i == |s| then ""
    else
      match ImageMatchEnd(s, i)
      case Some(e) => RemoveImagesFrom(s, e)
      case None => [s[i]] + RemoveImagesFrom(s, i + 1)
  }

  /** `MAILTO_RE.sub('', s[i:])`. */
  function RemoveMailtoFrom(s: string, i: nat): (r: string)
    requires i <= |s|
    ensures |r| <= |s| - i
    decreases |s| - i
  {
    if i == |s| then ""
    else
      match MailtoMatchEnd(s, i)
      case Some(e) => RemoveMailtoFrom(s, e)
      case None => [s[i]] + RemoveMailtoFrom(s, i + 1)
  }

  /** The cleaning of a kept line: placeholders, then mailto links, then
      surrounding whitespace. */
  function CleanLine(s: string): (r: string)
    ensures |r| <= |s| && IsStripped(r)
  {
    Strip(RemoveMailtoFrom(RemoveImagesFrom(s, 0), 0))
  }
}
