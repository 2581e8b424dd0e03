/** `extract_main_message` of preprocessing/filter_emails.py: one pass over
    the lines of a raw message that drops envelope and header lines, quoted
    history, list boilerplate, attachment markers, signatures and notices,
    and keeps the cleaned remaining lines with runs of blank lines squeezed.

    The pass is specified by `Step`, a function from the loop's variables
    before a line to the variables after it (the rules are tried in the
    order of the source, the first that applies decides), and `Run`, the
    fold of `Step` over the first `n` lines. `ExtractMainMessage` is the
    loop itself, proved to compute `MainMessage`, and the lemmas state what
    the pass guarantees about its output. */
module BodyCleaner {
  import opened Text
  import opened EmailPatterns

  /** The loop variables of `extract_main_message`. */
  datatype Cleaner = Cleaner(
    inHeaders: bool,
    stop: bool,
    sawBody: bool,
    inSignature: bool,
    inForwarded: bool,
    inConfidentiality: bool,
    consecutive: nat,
    lastWasHeader: bool,
    out: seq<string>)

  const Initial: Cleaner := Cleaner(true, false, false, false, false, false, 0, false, [])

  /** What holds of the variables between lines: the output never starts
      with a blank line nor holds two blank lines in a row, `saw_body` records whether anything was kept, and three
      inline header blocks in a row end the pass. */
  predicate Tidy(st: Cleaner) {
    && (st.sawBody <==> st.out != [])
    && (st.out != [] ==> st.out[0] != "")
    && (forall k | 0 <= k < |st.out| - 1 :: NoBlankPairAt(st.out, k))
    && (st.consecutive <= 2 || st.stop)
  }

  /** A blank line at `k` is not followed by another. */
  predicate NoBlankPairAt(out: seq<string>, k: nat) {
    k + 1 < |out| && (out[k] == "" ==> out[k + 1] != "")
  }

  lemma InitialTidy()
    ensures Tidy(Initial)
  {
  }

  // ---------------------------------------------------------------------
  // Look-around helpers

  /** `"wrote:" in s.lower()`. */
  predicate SaysWrote(s: string) { Contains(Lower(s), "wrote:") }

  function Min(a: nat, b: nat): nat { if a <= b then a else b }

  /** One of the (at most two) lines after `idx`, stripped, is non-empty
      and mentions `wrote:`. */
  predicate WroteWithinTwo(lines: seq<string>, idx: nat) {
    exists j | idx + 1 <= j < Min(idx + 3, |lines|) :: WroteAt(lines, j)
  }

  /** Line `j`, stripped, is non-empty and mentions `wrote:`. */
  predicate WroteAt(lines: seq<string>, j: nat) {
    j < |lines| && Strip(lines[j]) != "" && SaysWrote(Strip(lines[j]))
  }

  /** The stripped next line, or `""` after the last line. */
  function NextLine(lines: seq<string>, idx: nat): (r: string)
    ensures idx + 1 >= |lines| ==> r == ""
    ensures idx + 1 < |lines| ==> r == Strip(lines[idx + 1])
  {
    if idx + 1 < |lines| then Strip(lines[idx + 1]) else ""
  }

  /** `range(max(0, idx - 3), ...)`. */
  function WindowStart(idx: nat): nat { if idx >= 3 then idx - 3 else 0 }

  /** `range(..., min(len(lines), idx + 4))`. */
  function WindowEnd(lines: seq<string>, idx: nat): nat { Min(|lines|, idx + 4) }

  /** The line at `idx` starts with a header keyword and so does another
      line at most three lines away from it. */
  predicate InlineBlock(lines: seq<string>, idx: nat) {
    && idx < |lines|
    && HasHeaderKeyword(lines[idx])
    && exists j | WindowStart(idx) <= j < WindowEnd(lines, idx) :: j != idx && HasHeaderKeyword(lines[j])
  }

  /** The number of lines in `lines[lo..hi]` that satisfy `p`. */
  function CountWhere(lines: seq<string>, lo: nat, hi: nat, p: string -> bool): (n: nat)
    requires lo <= hi <= |lines|
    ensures n <= hi - lo
    decreases hi
  {
    if hi == lo then 0
    else CountWhere(lines, lo, hi - 1, p) + (if p(lines[hi - 1]) then 1 else 0)
  }

  /** A count is positive exactly when some line in range satisfies `p`. */
  lemma {:induction false} CountWherePositive(lines: seq<string>, lo: nat, hi: nat, p: string -> bool)
    requires lo <= hi <= |lines|
    ensures CountWhere(lines, lo, hi, p) >= 1 <==> exists j | lo <= j < hi :: p(lines[j])
    decreases hi
  {
    if hi > lo {
      CountWherePositive(lines, lo, hi - 1, p);
    }
  }

  /** With a line at `idx` in range that satisfies `p`, the count reaches two
      exactly when another line in range satisfies `p`. */
  lemma {:induction false} CountWhereTwo(lines: seq<string>, lo: nat, hi: nat, idx: nat, p: string -> bool)
    requires lo <= idx < hi <= |lines|
    requires p(lines[idx])
    ensures CountWhere(lines, lo, hi, p) >= 2 <==> exists j | lo <= j < hi :: j != idx && p(lines[j])
    decreases hi
  {
    if hi == idx + 1 {
      CountWherePositive(lines, lo, idx, p);
    } else {
      CountWhereTwo(lines, lo, hi - 1, idx, p);
      if p(lines[hi - 1]) {
        CountWherePositive(lines, lo, hi - 1, p);
      }
    }
  }

  /** `is_inline_quoted_header_block(lines, idx)`: counts the keyword lines
      in the window around `idx`. */
  method IsInlineQuotedHeaderBlock(lines: seq<string>, idx: nat) returns (b: bool)
    ensures b <==> InlineBlock(lines, idx)
  {
    if idx >= |lines| {
      return false;
    }
    if !HasHeaderKeyword(lines[idx]) {
      return false;
    }
    var count := 0;
    for i := WindowStart(idx) to WindowEnd(lines, idx)
      invariant count == CountWhere(lines, WindowStart(idx), i, HasHeaderKeyword)
    {
      if HasHeaderKeyword(lines[i]) {
        count := count + 1;
      }
    }
    CountWhereTwo(lines, WindowStart(idx), WindowEnd(lines, idx), idx, HasHeaderKeyword);
    return count >= 2;
  }

  /** The look-ahead loop of the multi-line "On ... wrote:" rule. */
  method NextLinesSayWrote(lines: seq<string>, idx: nat) returns (b: bool)
    requires idx < |lines|
    ensures b <==> WroteWithinTwo(lines, idx)
  {
    var stop := Min(idx + 3, |lines|);
    for lookahead := idx + 1 to stop
      invariant forall j | idx + 1 <= j < lookahead :: !WroteAt(lines, j)
    {
      if WroteAt(lines, lookahead) {
        assert idx + 1 <= lookahead < stop;
        return true;
      }
    }
    return false;
  }

  // ---------------------------------------------------------------------
  // One line

  /** What the rules of the loop body test about one line: each field is
      the outcome of one test on the line (`clean` is the line stripped,
      `cleaned` the line after placeholder and mailto removal). */
  datatype Signals = Signals(
    blank: bool,             // clean == ""
    envelope: bool,          // MBOX_ENVELOPE_RE on the line
    folded: bool,            // FOLDED_HEADER_RE on the line
    headerKey: Option<string>, // HEADER_LINE_RE's key, lowered
    messageId: bool,         // MESSAGE_ID_LINE_RE on clean
    forwarded: bool,         // FORWARDED_RE
    original: bool,          // ORIGINAL_MSG_RE
    forwardedHeader: bool,   // INLINE_QUOTE_HEADER_RE
    quoted: bool,            // clean starts with '>'
    replyIntro: bool,        // ON_WROTE_RE or ON_DATE_WROTE_RE
    angleReply: bool,        // ANGLE_ON_WROTE_RE
    onDateMultiline: bool,   // ON_DATE_MULTILINE_RE
    wroteBelow: bool,        // "wrote:" on one of the next two lines
    replyAfterDate: bool,    // "wrote:" under an ON_DATE_MULTILINE_RE line
    quoteHeader: bool,       // is_quote_header_line with the next line
    inlineBlock: bool,       // is_inline_quoted_header_block
    onBehalf: bool,
    divider: bool,
    listBoilerplate: bool,
    attachment: bool,
    sentFrom: bool,
    confidentiality: bool,
    legalText: bool,         // longer than 50 without a sentence end
    cleaned: string,
    emailOnly: bool,
    phone: bool,
    address: bool,
    website: bool,
    delimiter: bool)

  /** The tests of the loop body on line `idx`, given the outcomes of the
      two look-around loops. */
  function LineSignals(lines: seq<string>, idx: nat, wroteBelow: bool, inlineBlock: bool): (s: Signals)
    requires idx < |lines|
    ensures s.blank <==> Strip(lines[idx]) == ""
    ensures s.cleaned == CleanLine(Strip(lines[idx]))
    ensures s.wroteBelow == wroteBelow && s.inlineBlock == inlineBlock
  {
    var line := lines[idx];
    var clean := Strip(line);
    var key := HeaderKey(line);
    var cleaned := CleanLine(clean);
    Signals(
      blank := clean == "",
      envelope := IsMboxEnvelope(line),
      folded := IsFoldedHeader(line),
      headerKey := if key.Some? then Some(Lower(key.value)) else None,
      messageId := IsMessageIdLine(clean),
      forwarded := IsForwarded(clean),
      original := IsOriginalMessage(clean),
      forwardedHeader := IsInlineQuoteHeader(clean),
      quoted := StartsWith(clean, ">"),
      replyIntro := IsOnWrote(clean) || IsOnDateWrote(clean),
      angleReply := IsAngleOnWrote(clean),
      onDateMultiline := IsOnDateMultiline(clean),
      wroteBelow := wroteBelow,
      replyAfterDate := SaysWrote(clean) && idx > 0 && IsOnDateMultiline(Strip(lines[idx - 1])),
      quoteHeader := IsQuoteHeaderLine(clean, NextLine(lines, idx)),
      inlineBlock := inlineBlock,
      onBehalf := IsOnBehalf(clean),
      divider := IsDivider(clean),
      listBoilerplate := IsListBoilerplate(clean),
      attachment := IsAttachment(clean),
      sentFrom := IsSentFrom(clean),
      confidentiality := IsConfidentiality(clean),
      legalText := |clean| > 50 && !EndsSentence(clean),
      cleaned := cleaned,
      emailOnly := IsEmailOnly(cleaned),
      phone := IsPhone(cleaned),
      address := IsAddressLine(cleaned),
      website := IsWebsiteLine(cleaned),
      delimiter := IsSignatureDelimiter(cleaned))
  }

  /** The tests on every line. */
  function AllSignals(lines: seq<string>): (sigs: seq<Signals>)
    ensures |sigs| == |lines|
  {
    Collect(|lines|, LineTests(lines))
  }

  /** The tests on line `k` of `lines`, as a function of `k`. */
  function LineTests(lines: seq<string>): nat --> Signals {
    (k: nat) requires k < |lines| => LineSignals(lines, k, WroteWithinTwo(lines, k), InlineBlock(lines, k))
  }

  /** `[f(0), ..., f(n - 1)]`. */
  function Collect(n: nat, f: nat --> Signals): (r: seq<Signals>)
    requires forall k | 0 <= k < n :: f.requires(k)
    ensures |r| == n
  {
    if n == 0 then [] else Collect(n - 1, f) + [f(n - 1)]
  }

  lemma {:induction false} CollectAt(n: nat, f: nat --> Signals, k: nat)
    requires forall k | 0 <= k < n :: f.requires(k)
    requires k < n
    ensures Collect(n, f)[k] == f(k)
  {
    if k < n - 1 {
      CollectAt(n - 1, f, k);
    }
  }

  /** The tests on line `k`. */
  lemma SignalsAt(lines: seq<string>, k: nat)
    requires k < |lines|
    ensures AllSignals(lines)[k] == LineSignals(lines, k, WroteWithinTwo(lines, k), InlineBlock(lines, k))
  {
    CollectAt(|lines|, LineTests(lines), k);
  }

  /** The effect of one line on the loop variables: the first rule that
      applies decides, in the order of the loop body. */
  function Step(st: Cleaner, s: Signals): (r: Cleaner)
    ensures st.stop ==> r == st
    ensures !st.stop ==> (r.inHeaders <==> st.inHeaders && !s.blank)
    ensures !st.stop ==> StageEffect(st.(inHeaders := r.inHeaders), s, r)
  {
    if st.stop then st
    else if st.inHeaders && s.blank then st.(inHeaders := false, lastWasHeader := false)
    else if s.envelope then st
    else if st.inHeaders && s.folded && st.lastWasHeader then st
    else if s.headerKey.Some? && st.inHeaders && s.headerKey.value in RemoveHeaderKeys then st.(lastWasHeader := true)
    else MarkerRules(st.(lastWasHeader := s.headerKey.Some? && st.inHeaders), s)
  }

  /** The output is unchanged, or the line is kept: a non-blank line, or a
      blank line after body text that does not follow a blank line; keeping
      a line resets the block count. */
  predicate Grows(st: Cleaner, cleaned: string, r: Cleaner) {
    || (r.out == st.out && r.sawBody == st.sawBody)
    || (&& r.out == st.out + [cleaned]
        && r.sawBody
        && r.consecutive == 0
        && !r.stop
        && (cleaned == "" ==> st.sawBody && (st.out == [] || st.out[|st.out| - 1] != "")))
  }

  /** How a stage after the header rules may change the variables. */
  predicate StageEffect(st: Cleaner, s: Signals, r: Cleaner) {
    && Grows(st, s.cleaned, r)
    && r.inHeaders == st.inHeaders
    && (st.consecutive <= 2 || st.stop ==> r.consecutive <= 2 || r.stop)
    && (st.inConfidentiality ==> r.out == st.out)
    && (st.inConfidentiality && !r.inConfidentiality ==> s.blank)
    && (st.inSignature && |s.cleaned| <= 80 ==> r.out == st.out && r.inSignature)
  }

  /** Message-id lines, forwarded and original-message markers, and the
      header lines of a forwarded message. */
  function MarkerRules(st: Cleaner, s: Signals): (r: Cleaner)
    requires !st.stop
    ensures StageEffect(st, s, r)
  {
    if s.messageId then st
    else if s.forwarded then st.(inForwarded := true)
    else if s.original then st.(stop := true)
    else if st.inForwarded && (s.forwardedHeader || s.blank) then st
    else QuoteRules(st.(inForwarded := false), s)
  }

  /** Quoted lines, reply introducers, quote headers and inline header blocks. */
  function QuoteRules(st: Cleaner, s: Signals): (r: Cleaner)
    requires !st.stop
    ensures StageEffect(st, s, r)
  {
    if s.quoted then st
    else if s.replyIntro || s.angleReply || (s.onDateMultiline && s.wroteBelow) || s.replyAfterDate || s.quoteHeader then st.(stop := true)
    else if s.inlineBlock then st.(consecutive := st.consecutive + 1, stop := st.consecutive + 1 >= 3)
    else FooterRules(st, s)
  }

  /** Footers, dividers, list boilerplate, attachment markers and notices. */
  function FooterRules(st: Cleaner, s: Signals): (r: Cleaner)
    requires !st.stop
    ensures StageEffect(st, s, r)
  {
    if s.onBehalf || s.divider || s.listBoilerplate || s.attachment || s.sentFrom then st
    else if s.confidentiality then st.(inConfidentiality := true)
    else if st.inConfidentiality then (if !s.legalText && s.blank then st.(inConfidentiality := false) else st)
    else SignatureRules(st, s)
  }

  /** Contact lines, signature delimiters and the signature itself. */
  function SignatureRules(st: Cleaner, s: Signals): (r: Cleaner)
    requires !st.stop && !st.inConfidentiality
    ensures StageEffect(st, s, r)
  {
    if s.emailOnly then st
    else if s.phone || s.address then st.(inSignature := true)
    else if s.website then st
    else if s.delimiter then st.(inSignature := true)
    else if st.inSignature && |s.cleaned| <= 80 then st
    else Keep(st.(inSignature := false, consecutive := 0), s.cleaned)
  }

  /** Keeps a non-blank line, or a blank line after some body text unless
      the previous kept line is blank already. */
  function Keep(st: Cleaner, cleaned: string): (r: Cleaner)
    requires st.consecutive == 0 && !st.stop
    ensures Grows(st, cleaned, r)
    ensures cleaned != "" ==> r.out == st.out + [cleaned]
    ensures r.(out := st.out, sawBody := st.sawBody) == st
  {
    if cleaned != "" then st.(sawBody := true, out := st.out + [cleaned])
    else if st.sawBody && (|st.out| == 0 || st.out[|st.out| - 1] != "") then st.(out := st.out + [""])
    else st
  }

  /** Appending a line keeps blank lines apart unless it is a blank line
      after a blank line. */
  lemma AppendKeepsPairs(out: seq<string>, x: string)
    requires forall k | 0 <= k < |out| - 1 :: NoBlankPairAt(out, k)
    requires x == "" ==> out != [] && out[|out| - 1] != ""
    ensures forall k | 0 <= k < |out + [x]| - 1 :: NoBlankPairAt(out + [x], k)
  {
    forall k | 0 <= k < |out + [x]| - 1
      ensures NoBlankPairAt(out + [x], k)
    {
      if k < |out| - 1 {
        assert NoBlankPairAt(out, k);
      }
    }
  }

  /** A line keeps the invariant of the loop. */
  lemma StepKeepsTidy(st: Cleaner, s: Signals)
    requires Tidy(st)
    ensures Tidy(Step(st, s))
  {
    var r := Step(st, s);
    if r.out != st.out {
      AppendKeepsPairs(st.out, s.cleaned);
    }
  }

  // ---------------------------------------------------------------------
  // The whole pass

  /** The loop variables after the first `n` lines. */
  function Run(sigs: seq<Signals>, n: nat): (r: Cleaner)
    requires n <= |sigs|
    ensures |r.out| <= n
  {
    if n == 0 then Initial
    else Step(Run(sigs, n - 1), sigs[n - 1])
  }

  /** The invariant holds after every line. */
  lemma {:induction false} RunIsTidy(sigs: seq<Signals>, n: nat)
    requires n <= |sigs|
    ensures Tidy(Run(sigs, n))
  {
    if n == 0 {
      InitialTidy();
    } else {
      RunIsTidy(sigs, n - 1);
      StepKeepsTidy(Run(sigs, n - 1), sigs[n - 1]);
    }
  }

  /** `out_lines` without its trailing blank lines. */
  function DropTrailingBlanks(out: seq<string>): (r: seq<string>)
    ensures |r| <= |out| && r == out[..|r|]
    ensures r == [] || r[|r| - 1] != ""
    ensures forall k | |r| <= k < |out| :: out[k] == ""
  {
    if out != [] && out[|out| - 1] == "" then DropTrailingBlanks(out[..|out| - 1]) else out
  }

  /** The output of the pass over `sigs` without its trailing blank lines:
      none is blank at either end, no two blank lines are adjacent, and
      each line is a blank separator or the cleaned form of a line. */
  function Kept(sigs: seq<Signals>): (m: seq<string>)
    ensures m != [] ==> m[0] != "" && m[|m| - 1] != ""
    ensures forall k | 0 <= k < |m| - 1 :: NoBlankPairAt(m, k)
  {
    PassShape(sigs);
    DropTrailingBlanks(Run(sigs, |sigs|).out)
  }

  /** The kept lines of a raw message. */
  function MainLines(raw: string): seq<string> {
    Kept(AllSignals(SplitLines(raw)))
  }

  /** What `extract_main_message(raw)` returns. */
  function MainMessage(raw: string): string {
    Join(MainLines(raw), "\n")
  }

  // ---------------------------------------------------------------------
  // The loop body, rule by rule

  /** The header rules of the loop body, then the later stages. */
  method ApplyHeaderRules(st: Cleaner, s: Signals) returns (r: Cleaner)
    ensures r == Step(st, s)
  {
    r := st;
    if r.stop {
      return;
    }
    if r.inHeaders && s.blank {
      r := r.(inHeaders := false, lastWasHeader := false);
      return;
    }
    if s.envelope {
      return;
    }
    if r.inHeaders && s.folded && r.lastWasHeader {
      return;
    }
    if s.headerKey.Some? && r.inHeaders {
      r := r.(lastWasHeader := true);
      if s.headerKey.value in RemoveHeaderKeys {
        return;
      }
    } else {
      r := r.(lastWasHeader := false);
    }
    r := ApplyMarkerRules(r, s);
  }

  /** The message-id, forwarded and original-message rules. */
  method ApplyMarkerRules(st: Cleaner, s: Signals) returns (r: Cleaner)
    requires !st.stop
    ensures r == MarkerRules(st, s)
  {
    r := st;
    if s.messageId {
      return;
    }
    if s.forwarded {
      r := r.(inForwarded := true);
      return;
    }
    if s.original {
      r := r.(stop := true);
      return;
    }
    if r.inForwarded {
      if s.forwardedHeader || s.blank {
        return;
      }
      r := r.(inForwarded := false);
    }
    r := ApplyQuoteRules(r, s);
  }

  /** The quoted-line, reply-introducer and inline-header-block rules. */
  method ApplyQuoteRules(st: Cleaner, s: Signals) returns (r: Cleaner)
    requires !st.stop
    ensures r == QuoteRules(st, s)
  {
    r := st;
    if s.quoted {
      return;
    }
    if s.replyIntro || s.angleReply {
      r := r.(stop := true);
      return;
    }
    if s.onDateMultiline && s.wroteBelow {
      r := r.(stop := true);
      return;
    }
    if s.replyAfterDate || s.quoteHeader {
      r := r.(stop := true);
      return;
    }
    if s.inlineBlock {
      r := r.(consecutive := r.consecutive + 1);
      if r.consecutive >= 3 {
        r := r.(stop := true);
      }
      return;
    }
    r := ApplyFooterRules(r, s);
  }

  /** The footer, divider, list, attachment and notice rules. */
  method ApplyFooterRules(st: Cleaner, s: Signals) returns (r: Cleaner)
    requires !st.stop
    ensures r == FooterRules(st, s)
  {
    r := st;
    if s.onBehalf || s.divider || s.listBoilerplate || s.attachment || s.sentFrom {
      return;
    }
    if s.confidentiality {
      r := r.(inConfidentiality := true);
      return;
    }
    if r.inConfidentiality {
      if !s.legalText && s.blank {
        r := r.(inConfidentiality := false);
      }
      return;
    }
    r := ApplySignatureRules(r, s);
  }

  /** The contact-line and signature rules, then the line is kept. */
  method ApplySignatureRules(st: Cleaner, s: Signals) returns (r: Cleaner)
    requires !st.stop && !st.inConfidentiality
    ensures r == SignatureRules(st, s)
  {
    r := st;
    if s.emailOnly {
      return;
    }
    if s.phone || s.address {
      r := r.(inSignature := true);
      return;
    }
    if s.website {
      return;
    }
    if s.delimiter {
      r := r.(inSignature := true);
      return;
    }
    if r.inSignature {
      if |s.cleaned| <= 80 {
        return;
      }
      r := r.(inSignature := false);
    }
    r := r.(consecutive := 0);
    if s.cleaned != "" {
      r := r.(sawBody := true, out := r.out + [s.cleaned]);
    } else if r.sawBody && (|r.out| == 0 || r.out[|r.out| - 1] != "") {
      r := r.(out := r.out + [""]);
    }
  }

  /** The loop over the lines of `extract_main_message`. */
  method CleanPass(lines: seq<string>) returns (st: Cleaner)
    ensures st == Run(AllSignals(lines), |lines|)
  {
    st := Initial;
    for idx := 0 to |lines|
      invariant st == Run(AllSignals(lines), idx)
    {
      st := ScanLine(st, lines, idx);
    }
  }

  /** One turn of the loop: a stopped pass skips the line, otherwise the
      line's tests are taken and the rules applied. */
  method ScanLine(st: Cleaner, lines: seq<string>, idx: nat) returns (r: Cleaner)
    requires idx < |lines| && st == Run(AllSignals(lines), idx)
    ensures r == Run(AllSignals(lines), idx + 1)
  {
    RunNext(AllSignals(lines), idx);
    if st.stop {
      return st;
    }
    var wrote := NextLinesSayWrote(lines, idx);
    var block := IsInlineQuotedHeaderBlock(lines, idx);
    var s := LineSignals(lines, idx, wrote, block);
    SignalsAt(lines, idx);
    r := ApplyHeaderRules(st, s);
  }

  /** The fold over one more line. */
  lemma RunNext(sigs: seq<Signals>, idx: nat)
    requires idx < |sigs|
    ensures Run(sigs, idx + 1) == Step(Run(sigs, idx), sigs[idx])
  {
  }

  /** The `while out_lines and out_lines[-1] == ""` loop. */
  method PopTrailingBlanks(out: seq<string>) returns (r: seq<string>)
    ensures r == DropTrailingBlanks(out)
  {
    r := out;
    while r != [] && r[|r| - 1] == ""
      invariant DropTrailingBlanks(r) == DropTrailingBlanks(out)
    {
      r := r[..|r| - 1];
    }
  }

  /** `extract_main_message`: the loop over the lines, then the trailing
      blank lines are popped and the rest joined with line feeds. */
  method ExtractMainMessage(raw: string) returns (r: string)
    ensures r == MainMessage(raw)
  {
    var lines := SplitLines(raw);
    var st := CleanPass(lines);
    var out := PopTrailingBlanks(st.out);
    r := Join(out, "\n");
  }

  // ---------------------------------------------------------------------
  // What the pass guarantees

  /** Once `stop_after` is set, no later line changes anything. */
  lemma {:induction false} StopIsFinal(sigs: seq<Signals>, i: nat, j: nat)
    requires i <= j <= |sigs| && Run(sigs, i).stop
    ensures Run(sigs, j) == Run(sigs, i)
    decreases j
  {
    if j > i {
      StopIsFinal(sigs, i, j - 1);
    }
  }

  /** The header region lasts exactly until the first blank line (as long
      as the pass has not stopped). */
  lemma {:induction false} HeaderRegionEndsAtFirstBlank(sigs: seq<Signals>, n: nat)
    requires n <= |sigs| && !Run(sigs, n).stop
    ensures Run(sigs, n).inHeaders <==> forall k | 0 <= k < n :: !sigs[k].blank
  {
    if n > 0 {
      HeaderRegionEndsAtFirstBlank(sigs, n - 1);
    }
  }

  /** Line `m` was cleaned to `x`. */
  predicate CleanedTo(sigs: seq<Signals>, m: nat, x: string) {
    m < |sigs| && sigs[m].cleaned == x
  }

  /** Every kept line is a blank separator or the cleaned form of one of
      the lines read so far. */
  lemma {:induction false} OutputComesFromLines(sigs: seq<Signals>, n: nat)
    requires n <= |sigs|
    ensures forall k | 0 <= k < |Run(sigs, n).out| ::
      Run(sigs, n).out[k] == "" || exists m | 0 <= m < n :: CleanedTo(sigs, m, Run(sigs, n).out[k])
  {
    if n > 0 {
      OutputComesFromLines(sigs, n - 1);
      var before := Run(sigs, n - 1).out;
      var after := Run(sigs, n).out;
      forall k | 0 <= k < |after| && after[k] != ""
        ensures exists m | 0 <= m < n :: CleanedTo(sigs, m, after[k])
      {
        if k < |before| {
          assert after[k] == before[k];
          var m :| 0 <= m < n - 1 && CleanedTo(sigs, m, before[k]);
          assert CleanedTo(sigs, m, after[k]);
        } else {
          assert CleanedTo(sigs, n - 1, after[k]);
        }
      }
    }
  }

  /** Inside a confidentiality notice nothing is kept, and the notice lasts
      until a blank line. */
  lemma {:induction false} NoticeIsDropped(sigs: seq<Signals>, i: nat, j: nat)
    requires i <= j <= |sigs| && Run(sigs, i).inConfidentiality
    requires forall k | i <= k < j :: !sigs[k].blank
    ensures Run(sigs, j).out == Run(sigs, i).out && Run(sigs, j).inConfidentiality
    decreases j
  {
    if j > i {
      NoticeIsDropped(sigs, i, j - 1);
      NoticeLine(Run(sigs, j - 1), sigs[j - 1]);
    }
  }

  /** One line of a notice. */
  lemma NoticeLine(st: Cleaner, s: Signals)
    requires st.inConfidentiality && !s.blank
    ensures Step(st, s).out == st.out && Step(st, s).inConfidentiality
  {
  }

  /** Inside a signature, lines of at most 80 characters are dropped and
      the signature goes on. */
  lemma {:induction false} SignatureIsDropped(sigs: seq<Signals>, i: nat, j: nat)
    requires i <= j <= |sigs| && Run(sigs, i).inSignature
    requires forall k | i <= k < j :: |sigs[k].cleaned| <= 80
    ensures Run(sigs, j).out == Run(sigs, i).out && Run(sigs, j).inSignature
    decreases j
  {
    if j > i {
      SignatureIsDropped(sigs, i, j - 1);
      SignatureLine(Run(sigs, j - 1), sigs[j - 1]);
    }
  }

  /** One short line of a signature. */
  lemma SignatureLine(st: Cleaner, s: Signals)
    requires st.inSignature && |s.cleaned| <= 80
    ensures Step(st, s).out == st.out && Step(st, s).inSignature
  {
  }

  /** The output of the pass with its trailing blank lines dropped: none is
      blank at either end, no two blank lines are adjacent, and each line
      is a blank separator or a cleaned line. */
  lemma {:induction false} PassShape(sigs: seq<Signals>)
    ensures var m := DropTrailingBlanks(Run(sigs, |sigs|).out);
      && (m != [] ==> m[0] != "" && m[|m| - 1] != "")
      && (forall k | 0 <= k < |m| - 1 :: NoBlankPairAt(m, k))
      && (forall k | 0 <= k < |m| :: m[k] == "" || exists j | 0 <= j < |sigs| :: CleanedTo(sigs, j, m[k]))
  {
    var out := Run(sigs, |sigs|).out;
    var m := DropTrailingBlanks(out);
    assert m == out[..|m|];
    RunIsTidy(sigs, |sigs|);
    OutputComesFromLines(sigs, |sigs|);
    forall k | 0 <= k < |m| - 1
      ensures NoBlankPairAt(m, k)
    {
      assert NoBlankPairAt(out, k);
    }
    forall k | 0 <= k < |m| && m[k] != ""
      ensures exists j | 0 <= j < |sigs| :: CleanedTo(sigs, j, m[k])
    {
      assert m[k] == out[k];
    }
  }

  /** Line `j` of `lines`, stripped and cleaned, is `x`. */
  predicate LineCleanedTo(lines: seq<string>, j: nat, x: string) {
    j < |lines| && CleanLine(Strip(lines[j])) == x
  }

  /** `x` is a blank separator or a cleaned line of the message. */
  predicate FromMessage(lines: seq<string>, x: string) {
    x == "" || exists j | 0 <= j < |lines| :: LineCleanedTo(lines, j, x)
  }

  /** With the cleaned lines of `lines` as the signals' `cleaned` fields,
      each kept line is stripped, and is a blank separator or a line of
      `lines` after stripping and cleaning. */
  lemma KeptFromLines(lines: seq<string>, sigs: seq<Signals>)
    requires |sigs| == |lines|
    requires forall j | 0 <= j < |lines| :: sigs[j].cleaned == CleanLine(Strip(lines[j]))
    ensures forall k | 0 <= k < |Kept(sigs)| :: IsStripped(Kept(sigs)[k]) && FromMessage(lines, Kept(sigs)[k])
  {
    var m := Kept(sigs);
    PassShape(sigs);
    forall k | 0 <= k < |m|
      ensures IsStripped(m[k]) && FromMessage(lines, m[k])
    {
      CleanedLineFromMessage(lines, sigs, m[k]);
    }
  }

  /** A blank separator or the cleaned form of a line is stripped and comes
      from the message. */
  lemma CleanedLineFromMessage(lines: seq<string>, sigs: seq<Signals>, x: string)
    requires |sigs| == |lines|
    requires forall j | 0 <= j < |lines| :: sigs[j].cleaned == CleanLine(Strip(lines[j]))
    requires x == "" || exists j | 0 <= j < |sigs| :: CleanedTo(sigs, j, x)
    ensures IsStripped(x) && FromMessage(lines, x)
  {
    if x != "" {
      var j :| 0 <= j < |sigs| && CleanedTo(sigs, j, x);
      assert LineCleanedTo(lines, j, x);
    }
  }

  /** The `cleaned` test of every line is the line stripped and cleaned. */
  lemma AllSignalsCleaned(lines: seq<string>)
    ensures forall j | 0 <= j < |lines| :: AllSignals(lines)[j].cleaned == CleanLine(Strip(lines[j]))
  {
    forall j | 0 <= j < |lines|
      ensures AllSignals(lines)[j].cleaned == CleanLine(Strip(lines[j]))
    {
      SignalsAt(lines, j);
    }
  }

  /** Each kept line of a message is stripped, and is a blank separator or
      a line of the message after stripping and cleaning. */
  lemma MainLinesFromMessage(raw: string)
    ensures forall k | 0 <= k < |MainLines(raw)| ::
      IsStripped(MainLines(raw)[k]) && FromMessage(SplitLines(raw), MainLines(raw)[k])
  {
    var lines := SplitLines(raw);
    AllSignalsCleaned(lines);
    KeptFromLines(lines, AllSignals(lines));
  }

  /** The `ANGLE_ON_WROTE_RE` rule never decides: a line it matches starts
      with `>` and so is skipped by the quoted-line rule before it. */
  lemma AngleRuleNeverDecides(st: Cleaner, s: Signals)
    requires !st.stop && (s.angleReply ==> s.quoted)
    ensures QuoteRules(st, s) == QuoteRules(st, s.(angleReply := false))
  {
  }

  /** A line the angle pattern matches is a quoted line. */
  lemma AngleReplyIsQuoted(lines: seq<string>, idx: nat, wroteBelow: bool, inlineBlock: bool)
    requires idx < |lines|
    ensures var s := LineSignals(lines, idx, wroteBelow, inlineBlock);
      s.angleReply ==> s.quoted
  {
    AngleOnWroteIsQuoted(Strip(lines[idx]));
  }
  /** An empty message cleans to the empty string. */
  lemma EmptyMessageIsEmpty()
    ensures MainMessage("") == ""
  {
    assert SplitLines("") == [];
    assert AllSignals([]) == [];
  }

  /** In the header region a line whose key is one of `REMOVE_HEADER_KEYS`
      is dropped and noted as a header line. */
  lemma RemovableHeaderDropped(st: Cleaner, s: Signals)
    requires !st.stop && st.inHeaders && !s.blank && !s.envelope && !(s.folded && st.lastWasHeader)
    requires s.headerKey.Some? && s.headerKey.value in RemoveHeaderKeys
    ensures Step(st, s) == st.(lastWasHeader := true)
  {
  }

  /** In the header region an indented line right after a header line is
      dropped. */
  lemma FoldedHeaderDropped(st: Cleaner, s: Signals)
    requires !st.stop && st.inHeaders && !s.blank && !s.envelope && s.folded && st.lastWasHeader
    ensures Step(st, s) == st
  {
  }

  /** A quoted line is dropped and does not end the pass. */
  lemma QuotedLineDropped(st: Cleaner, s: Signals)
    requires !st.stop && !(st.inHeaders && s.blank) && s.quoted && !s.original
    ensures Step(st, s).out == st.out && !Step(st, s).stop
  {
  }

  /** An mbox envelope line outside the blank line that ends the headers is
      dropped and changes nothing, not even the header flag. */
  lemma EnvelopeLineDropped(st: Cleaner, s: Signals)
    requires !st.stop && !(st.inHeaders && s.blank) && s.envelope
    ensures Step(st, s) == st
  {
  }

  /** The line passed the envelope, folding and removable-header rules. */
  predicate PastHeaderRules(st: Cleaner, s: Signals) {
    && !st.stop
    && !(st.inHeaders && s.blank)
    && !s.envelope
    && !(st.inHeaders && s.folded && st.lastWasHeader)
    && !(st.inHeaders && s.headerKey.Some? && s.headerKey.value in RemoveHeaderKeys)
  }

  /** The state once the header rules have noted whether the line is a
      header line. */
  function Noted(st: Cleaner, s: Signals): Cleaner {
    st.(lastWasHeader := s.headerKey.Some? && st.inHeaders)
  }

  /** A standalone message-id line is dropped. */
  lemma MessageIdLineDropped(st: Cleaner, s: Signals)
    requires PastHeaderRules(st, s) && s.messageId
    ensures Step(st, s) == Noted(st, s)
  {
  }

  /** A forwarded-message marker is dropped and starts the skip of the
      forwarded headers. */
  lemma ForwardedMarkerStartsSkip(st: Cleaner, s: Signals)
    requires PastHeaderRules(st, s) && !s.messageId && s.forwarded
    ensures Step(st, s) == Noted(st, s).(inForwarded := true)
  {
  }

  /** An original-message marker is dropped and ends the pass: the state
      after it, with its output, is the final one. */
  lemma OriginalMarkerStops(sigs: seq<Signals>, n: nat)
    requires n < |sigs|
    requires var s := sigs[n]; PastHeaderRules(Run(sigs, n), s) && !s.messageId && !s.forwarded && s.original
    ensures Run(sigs, |sigs|) == Noted(Run(sigs, n), sigs[n]).(stop := true)
  {
    StopIsFinal(sigs, n + 1, |sigs|);
  }

  /** While the forwarded headers are skipped, header-like and blank lines
      are dropped and the skip goes on. */
  lemma ForwardedHeaderSkipped(st: Cleaner, s: Signals)
    requires PastHeaderRules(st, s) && !s.messageId && !s.forwarded && !s.original
    requires st.inForwarded && (s.forwardedHeader || s.blank)
    ensures Step(st, s) == Noted(st, s)
  {
  }

  /** The first other line ends the skip and goes on to the later rules. */
  lemma ForwardedSkipEnds(st: Cleaner, s: Signals)
    requires PastHeaderRules(st, s) && !s.messageId && !s.forwarded && !s.original
    requires st.inForwarded && !s.forwardedHeader && !s.blank
    ensures Step(st, s) == QuoteRules(Noted(st, s).(inForwarded := false), s)
    ensures !Step(st, s).inForwarded
  {
  }

  /** The line reached the footer rules: no marker, quote or reply rule
      applied to it. */
  predicate PastQuoteRules(st: Cleaner, s: Signals) {
    && PastHeaderRules(st, s)
    && !s.messageId && !s.forwarded && !s.original
    && !(st.inForwarded && (s.forwardedHeader || s.blank))
    && !s.quoted
    && !(s.replyIntro || s.angleReply || (s.onDateMultiline && s.wroteBelow) || s.replyAfterDate || s.quoteHeader)
    && !s.inlineBlock
  }

  /** A mailing-list boilerplate line that reaches the footer rules is
      dropped. */
  lemma ListBoilerplateDropped(st: Cleaner, s: Signals)
    requires PastQuoteRules(st, s) && s.listBoilerplate
    ensures Step(st, s) == Noted(st, s).(inForwarded := false)
  {
  }

  /** An attachment marker that reaches the footer rules is dropped. */
  lemma AttachmentDropped(st: Cleaner, s: Signals)
    requires PastQuoteRules(st, s) && s.attachment
    ensures Step(st, s) == Noted(st, s).(inForwarded := false)
  {
  }

  /** In a signature, a line longer than 80 characters that no earlier rule
      drops ends the signature and is kept. */
  lemma LongLineEndsSignature(st: Cleaner, s: Signals)
    requires !st.stop && !st.inConfidentiality && st.inSignature && |s.cleaned| > 80
    requires !s.emailOnly && !s.phone && !s.address && !s.website && !s.delimiter
    ensures SignatureRules(st, s).out == st.out + [s.cleaned]
    ensures !SignatureRules(st, s).inSignature && SignatureRules(st, s).consecutive == 0
  {
  }
}
