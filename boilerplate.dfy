/** `strip_boilerplate` of preprocessing/promTothread.py: the instructions
    printed on the PROM form are cut out of a field's text. Each entry of
    `BOILERPLATE_PATTERNS` is removed with a case-insensitive `re.sub`, in
    list order, between two whitespace clean-ups. The patterns use only a
    few regular-expression constructs, so they are written as sequences of
    pieces and matched by a small backtracking matcher that explores the
    alternatives in the order Python's engine does. */
module Boilerplate {
  import opened Text

  /** The character classes that appear under a `*`. */
  datatype CharClass = Whitespace | NotDot | NotQuestionMark

  predicate InClass(c: char, cls: CharClass) {
    match cls
    case Whitespace => IsSpace(c)
    case NotDot => c != '.'
    case NotQuestionMark => c != '?'
  }

  /** One construct of a pattern: literal text, an optional character
      (`,?`, `\.?`, `s?`), a greedy star over a class (`\s*`, `[^.]*`,
      `[^?]*`), or the lazy `.*?`, which does not cross a newline. */
  datatype Piece = Lit(text: string) | Opt(c: char) | Star(cls: CharClass) | Lazy

  type Pattern = seq<Piece>

  /** Under `re.IGNORECASE`: equal once lower-cased. */
  predicate SameLetter(a: char, b: char) { LowerChar(a) == LowerChar(b) }

  predicate LitAt(t: string, w: string) {
    |w| <= |t| && Lower(t[..|w|]) == Lower(w)
  }

  /** How much of `t` the pattern `ps` consumes on the first path Python's
      backtracking engine finds: optional characters and stars are tried
      with as much text as possible first, `.*?` with as little. */
  function MatchLen(ps: Pattern, t: string): (r: Option<nat>)
    ensures r.Some? ==> r.value <= |t|
    decreases |ps|, |t| + 1
  {
    if ps == [] then Some(0)
    else match ps[0]
      case Lit(w) =>
        if LitAt(t, w) then
          var m :- MatchLen(ps[1..], t[|w|..]);
          Some(|w| + m)
        else None
      case Opt(c) =>
        var taken := if t != [] && SameLetter(t[0], c) then MatchLen(ps[1..], t[1..]) else None;
        if taken.Some? then Some(1 + taken.value)
        else MatchLen(ps[1..], t)
      case Star(cls) => Greedy(ps[1..], t, RunEnd(t, 0, c => InClass(c, cls)))
      case Lazy => Reluctant(ps[1..], t, 0, LineBreakFree(t))
  }

  /** A greedy star that may take the first `n` characters: `n` of them,
      then one fewer, and so on. */
  function Greedy(rest: Pattern, t: string, n: nat): (r: Option<nat>)
    requires n <= |t|
    ensures r.Some? ==> r.value <= |t|
    decreases |rest| + 1, n
  {
    var m := MatchLen(rest, t[n..]);
    if m.Some? then Some(n + m.value)
    else if n == 0 then None
    else Greedy(rest, t, n - 1)
  }

  /** A lazy star that may take up to `limit` characters: `n` of them, then
      one more, and so on. */
  function Reluctant(rest: Pattern, t: string, n: nat, limit: nat): (r: Option<nat>)
    requires n <= limit <= |t|
    ensures r.Some? ==> r.value <= |t|
    decreases |rest| + 1, limit - n
  {
    var m := MatchLen(rest, t[n..]);
    if m.Some? then Some(n + m.value)
    else if n == limit then None
    else Reluctant(rest, t, n + 1, limit)
  }

  /** How far `.` reaches: up to the first newline. */
  function LineBreakFree(t: string): (n: nat)
    ensures n <= |t|
    ensures forall k | 0 <= k < n :: t[k] != '\n'
    ensures n == |t| || t[n] == '\n'
  {
    FindChar(t, '\n', 0)
  }

  /** A match of `p` at `j`, replaced by nothing. */
  function PatternAt(p: Pattern, s: string, j: nat): (r: Option<(nat, string)>)
    ensures r.Some? ==> r.value.1 == ""
  {
    if j <= |s| then
      var m :- MatchLen(p, s[j..]);
      Some((j + m, ""))
    else None
  }

  /** The matcher `re.sub` is given for `p`. */
  function Remover(p: Pattern): (string, nat) -> Option<(nat, string)> {
    (s, j) => PatternAt(p, s, j)
  }

  /** `re.sub(p, '', s, flags=re.IGNORECASE)`. */
  function RemovePattern(p: Pattern, s: string): (r: string)
    ensures |r| <= |s|
  {
    SubFromShorter(s, 0, Remover(p));
    Sub(s, Remover(p))
  }

  /** The phrase a pattern opens with. */
  function Lead(p: Pattern): string {
    if p != [] && p[0].Lit? then p[0].text else ""
  }

  /** A pattern that opens with a phrase matches only where the phrase
      stands. */
  lemma MatchNeedsLead(p: Pattern, t: string)
    requires p != [] && p[0].Lit?
    requires MatchLen(p, t).Some?
    ensures LitAt(t, Lead(p))
  {
  }

  /** A pattern whose opening phrase occurs nowhere in `s` leaves `s` as
      it is. */
  lemma RemoveAbsent(p: Pattern, s: string)
    requires p != [] && p[0].Lit?
    requires forall j | 0 <= j < |s| :: !LitAt(s[j..], Lead(p))
    ensures RemovePattern(p, s) == s
  {
    forall j | 0 <= j < |s| && Hit(s, j, Remover(p))
      ensures false
    {
      MatchNeedsLead(p, s[j..]);
    }
    SubFromKeeps(s, 0, Remover(p));
  }

  /** Where a pattern matches at the very start, the matched text is
      dropped and the scan goes on right after it. */
  lemma RemoveAtStart(p: Pattern, s: string)
    requires MatchLen(p, s).Some? && 0 < MatchLen(p, s).value
    ensures RemovePattern(p, s) == SubFrom(s, MatchLen(p, s).value, Remover(p))
  {
    assert s[0..] == s;
  }

  /** `BOILERPLATE_PATTERNS`, in order. */
  const Patterns: seq<Pattern> := [
    // Chemical/Material section
    [Lit("Please provide all common names"), Opt(','), Star(Whitespace), Lit("trade names"), Opt(','), Star(Whitespace),
     Lit("and CAS numbers"), Lazy, Lit("Main Hazard Class of your chemical/material"), Opt('.')],
    [Lit("Please provide all common names"), Opt(','), Star(Whitespace), Lit("trade names"), Opt(','), Star(Whitespace),
     Lit("and CAS numbers"), Lazy, Lit("chemical/material"), Opt('.')],
    [Lit("Please provide all common names"), Opt(','), Star(Whitespace), Lit("trade names"), Opt(','), Star(Whitespace),
     Lit("and CAS numbers"), Lazy, Lit("Storage Group Identifier"), Star(NotDot), Opt('.')],
    [Lit("Please provide all common names"), Lazy, Lit("Read the MSDSs as well as the")],
    [Lit("Please provide all common names"), Lazy, Lit("secondary chemicals"), Star(NotDot), Lit(".")],
    [Lit("Include an MSDS"), Opt(','), Lit(" if available"), Star(NotDot), Lit(".")],
    [Lit("Make sure to include information for any new secondary chemicals"), Star(NotDot), Lit(".")],
    [Lit("Read the MSDSs as well as the")],
    // Vendor info
    [Lit("Vendor/manufacturer info"), Opt(':'), Star(Whitespace), Lit("address and phone number"), Opt(','),
     Star(Whitespace), Lit("website URL"), Opt('.')],
    [Lit("address and phone number"), Opt(','), Star(Whitespace), Lit("website URL"), Opt('.')],
    // Reason for request
    [Lit("Please give serious thought to this."), Lazy,
     Lit("Will any of the current SNF approved chemicals and materials work for me?")],
    [Lit("Please give serious thought to this."), Lazy, Lit("work for me?")],
    [Lit("Please give serious thought to this."), Lazy, Lit("newer/safer alternatives"), Star(NotQuestionMark), Lit("?")],
    // Process flow
    [Lit("Please provide a detailed process flow description"), Lazy, Lit("MOS grade or better"), Opt('.'),
     Star(Whitespace)],
    [Lit("Please provide a detailed process flow description"), Lazy, Lit("better"), Opt('.'), Star(Whitespace)],
    [Lit("Please provide a detailed process flow description"), Lazy, Lit("wet benches"), Opt('.')],
    [Lit("Please provide a detailed process flow description"), Lazy, Lit("clean"), Lazy, Lit("tool"), Star(NotDot),
     Lit(".")],
    [Lit("all Lab equipment to be used for processing"), Star(NotDot), Lit(".")],
    [Lit("Make sure to include wet benches"), Opt('.')],
    [Lit("Please note that"), Lazy, Lit("the material should MOS grade or better"), Opt('.'), Star(Whitespace)],
    // Amount and form
    [Lit("How much will you bring in?"), Lazy, Lit("Do you need to mix it to use it?")],
    [Lit("How much will you bring in?"), Lazy, Lit("mix it to use it?")],
    [Lit("How much will you bring in?"), Lazy, Lit("powders are not permitted"), Star(NotDot), Lit(".")],
    [Lit("Is it solid"), Opt(','), Lit(" powder or liquid?"), Star(NotDot), Opt('.')],
    // Storage
    [Lit("Will you be storing your chemical/material at SNF?"), Lazy, Lit("at any wet bench"), Opt('.'),
     Star(Whitespace)],
    [Lit("Will you be storing your chemical/material at SNF?"), Lazy, Lit("wet bench"), Opt('.'), Star(Whitespace)],
    [Lit("Will you be storing your chemical/material at SNF?"), Lazy, Lit("bulk storage area"), Opt('.')],
    [Lit("Storage group"), Opt('s'), Lit(" A"), Opt(','), Lit(" B"), Opt(','), Lit(" D and L are stored"), Star(NotDot),
     Lit(".")],
    [Lit("Ensure your chemical container or material is properly labeled"), Opt('.')],
    // Disposal
    [Lit("How will you dispose of any waste"), Lazy, Lit("available in the lab"), Opt('.'), Star(Whitespace)],
    [Lit("How will you dispose of any waste"), Lazy, Lit("the lab"), Opt('.'), Star(Whitespace)],
    [Lit("How will you dispose of any waste"), Lazy, Lit("Safety Manual"), Star(NotDot), Lit(".")],
    [Lit("for the different methods of waste disposal"), Star(NotDot), Lit(".")],
    // Stanford Chemical Storage Groups reference
    [Lit("Stanford Chemical Storage Groups"), Star(Whitespace), Lit("to determine"), Star(NotDot), Lit(".")],
    [Lit("to determine the Storage Group Identifier"), Star(NotDot), Lit(".")]
  ]

  /** The text after the first `n` patterns of `ps` have been removed, in
      order. */
  function RemoveFirst(ps: seq<Pattern>, s: string, n: nat): (r: string)
    requires n <= |ps|
    ensures |r| <= |s|
  {
    if n == 0 then s else RemovePattern(ps[n - 1], RemoveFirst(ps, s, n - 1))
  }

  /** Removes every pattern of `ps` from `s`, one after the other. */
  method RemoveAll(ps: seq<Pattern>, s: string) returns (r: string)
    ensures r == RemoveFirst(ps, s, |ps|)
    ensures |r| <= |s|
  {
    r := s;
    for i := 0 to |ps|
      invariant r == RemoveFirst(ps, s, i)
    {
      r := RemovePattern(ps[i], r);
    }
  }

  /** `re.sub(r'\s+', ' ', s).strip()`. */
  function Tidy(s: string): (r: string)
    ensures |r| <= |s|
  {
    Strip(CollapseSpaces(s))
  }

  /** Every pattern of `ps` opens with a phrase, and none of those phrases
      occurs anywhere in `s`. */
  predicate FreeOf(ps: seq<Pattern>, s: string) {
    (forall i | 0 <= i < |ps| :: ps[i] != [] && ps[i][0].Lit?)
    && forall i, j | 0 <= i < |ps| && 0 <= j < |s| :: !LitAt(s[j..], Lead(ps[i]))
  }

  /** Removing patterns from text that holds none of them changes
      nothing. */
  lemma {:induction false} RemoveFirstAbsent(ps: seq<Pattern>, s: string, n: nat)
    requires n <= |ps| && FreeOf(ps, s)
    ensures RemoveFirst(ps, s, n) == s
  {
    if n > 0 {
      RemoveFirstAbsent(ps, s, n - 1);
      RemoveAbsent(ps[n - 1], s);
    }
  }

  /** Tidied text is stripped and single-spaced. */
  lemma TidyShape(s: string)
    ensures IsStripped(Tidy(s)) && SingleSpaced(Tidy(s))
  {
    StripSingleSpaced(CollapseSpaces(s));
  }

  /** Tidying twice is tidying once. */
  lemma TidyIdempotent(s: string)
    ensures Tidy(Tidy(s)) == Tidy(s)
  {
    var t := Tidy(s);
    TidyShape(s);
    CollapseSingleSpaced(t);
    StripStripped(t);
  }

  /** What `strip_boilerplate(content)` returns: empty text as it is;
      otherwise the text tidied, every pattern removed in list order, and
      the text tidied again. The result has no whitespace at either end, no
      whitespace but single spaces, and is never longer than the input. */
  function WithoutBoilerplate(content: string): (r: string)
    ensures content == "" ==> r == content
    ensures IsStripped(r) && SingleSpaced(r)
    ensures |r| <= |content|
  {
    if content == "" then content
    else
      var removed := RemoveFirst(Patterns, Tidy(content), |Patterns|);
      TidyShape(removed);
      Tidy(removed)
  }

  /** `strip_boilerplate(content)`, step by step. */
  method StripBoilerplate(content: string) returns (result: string)
    ensures result == WithoutBoilerplate(content)
  {
    if content == "" {
      return content;
    }
    var removed := RemoveAll(Patterns, Tidy(content));
    result := Tidy(removed);
  }

  /** Text that holds no boilerplate phrase is only tidied. */
  lemma CleanTextOnlyTidied(content: string)
    requires FreeOf(Patterns, Tidy(content))
    ensures WithoutBoilerplate(content) == Tidy(content)
  {
    RemoveFirstAbsent(Patterns, Tidy(content), |Patterns|);
    TidyIdempotent(content);
  }
}
