/** The archive scanner of app/orderEmails.py (`parse_mbox_threads`): one
    forward pass over the lines of an mbox archive that records, per
    Message-ID, its reference list, its start and end offsets, and the order
    in which Message-ID lines were seen.

    The archive is given as the lines `readline` returns (each with its line
    terminator); an offset is the number of characters before a position, so
    the offset of line k is |Concat(lines[..k])| and the end of file is
    |Concat(lines)|. */
module MboxScan {
  import opened Text

  /** A Python dict: its entries, and its keys in first-insertion order. */
  datatype Dict<K, V> = Dict(keys: seq<K>, vals: map<K, V>)

  ghost predicate ValidDict<K(!new), V>(d: Dict<K, V>) {
    && (forall i, j | 0 <= i < j < |d.keys| :: d.keys[i] != d.keys[j])
    && (forall k :: k in d.vals <==> k in d.keys)
  }

  /** `d[k] = v`: a new key goes last, an existing key keeps its place. */
  function Put<K(!new), V>(d: Dict<K, V>, k: K, v: V): (r: Dict<K, V>)
    ensures ValidDict(d) ==> ValidDict(r)
    ensures r.vals == d.vals[k := v]
    ensures r.keys == if k in d.vals then d.keys else d.keys + [k]
  {
    Dict(if k in d.vals then d.keys else d.keys + [k], d.vals[k := v])
  }

  /** The archive text that the lines were read from. */
  function Concat(lines: seq<string>): string {
    if lines == [] then "" else Concat(lines[..|lines| - 1]) + lines[|lines| - 1]
  }

  // ---------------------------------------------------------------------
  // The line patterns of the scan

  /** `MBOX_FROM_RE.match(line) and not line.startswith("From:")`:
      "From" followed by a whitespace character. */
  predicate IsEnvelope(line: string) {
    StartsWith(line, "From") && |line| > 4 && IsSpace(line[4]) && !StartsWith(line, "From:")
  }

  /** Lines whose angle-bracket tokens join the reference accumulator: a
      References header, or a folded continuation that starts with `<` and
      holds no "https". */
  predicate IsReferenceLine(line: string) {
    Contains(line, "References:") || (StartsWith(line, "<") && !Contains(line, "https"))
  }

  /** The group of `MSGID_RE` (`^Message-ID:\s*<([^>]+)>`, any case). */
  function MessageIdOf(line: string): (r: Option<string>)
    ensures r.Some? ==> |r.value| > 0 && '>' !in r.value
  {
    if !StartsWithCI(line, "message-id:") then None
    else
      var p := SpaceEnd(line, 11);
      if p < |line| && line[p] == '<' then
        var q := FindChar(line, '>', p + 1);
        if q < |line| && q > p + 1 then Some(line[p + 1..q]) else None
      else None
  }

  /** `ANGLE_RE.findall(line)` from position `i`: the non-empty texts between
      a `<` and the next `>`, left to right, without overlap. */
  function AngleTokensFrom(s: string, i: nat): (r: seq<string>)
    requires i <= |s|
    ensures forall t | t in r :: |t| > 0 && '>' !in t
    decreases |s| - i
  {
    if i == |s| then []
    else if s[i] == '<' then
      var j := FindChar(s, '>', i + 1);
      if j < |s| && j > i + 1 then [s[i + 1..j]] + AngleTokensFrom(s, j + 1)
      else AngleTokensFrom(s, i + 1)
    else AngleTokensFrom(s, i + 1)
  }

  function AngleTokens(s: string): seq<string> { AngleTokensFrom(s, 0) }

  /** What a line is to the scan, checked in the loop's order: an envelope
      line, a reference line (with its tokens), a Message-ID line, or
      anything else. */
  datatype LineKind = Envelope | Reference(tokens: seq<string>) | MessageId(id: string) | Other

  function KindOf(line: string): LineKind {
    if IsEnvelope(line) then Envelope
    else if IsReferenceLine(line) then Reference(AngleTokens(line))
    else match MessageIdOf(line)
      case Some(id) => MessageId(id)
      case None => Other
  }

  /** The Message-ID a line records: only a line that is neither an envelope
      nor a reference line reaches the Message-ID test. */
  function IdLine(line: string): Option<string> {
    match KindOf(line)
    case MessageId(id) => Some(id)
    case _ => None
  }

  // The scan as a fold over the scanned lines

  /** A line as the loop sees it: its kind and the offset it starts at. */
  datatype ScannedLine = ScannedLine(kind: LineKind, start: nat)

  /** The archive's lines, each with its kind and its offset. */
  function Scan(lines: seq<string>): (ls: seq<ScannedLine>)
    ensures |ls| == |lines|
  {
    if lines == [] then []
    else
      var init := lines[..|lines| - 1];
      Scan(init) + [ScannedLine(KindOf(lines[|lines| - 1]), |Concat(init)|)]
  }

  datatype ScanState = ScanState(
    currentStart: Option<nat>,
    currentId: Option<string>,
    currentRefs: seq<string>,
    refs: Dict<string, seq<string>>,
    start: map<string, nat>,
    end: map<string, nat>,
    order: seq<string>)

  const Initial := ScanState(None, None, [], Dict([], map[]), map[], map[], [])

  /** `close_current(endPos)`. */
  function Close(st: ScanState, endPos: nat): ScanState {
    if st.currentId.Some? && st.currentStart.Some? then st.(end := st.end[st.currentId.value := endPos])
    else st
  }

  /** One iteration of the loop on a line of kind `kind` that starts at
      `lineStart`. */
  function Step(st: ScanState, kind: LineKind, lineStart: nat): ScanState {
    match kind
    case Envelope =>
      var closed := if st.currentStart.Some? then Close(st, lineStart) else st;
      closed.(currentStart := Some(lineStart), currentId := None, currentRefs := [])
    case Reference(tokens) =>
      var st1 := if st.currentStart.None? then st.(currentStart := Some(0)) else st;
      st1.(currentRefs := st1.currentRefs + tokens)
    case MessageId(id) =>
      var st1 := if st.currentStart.None? then st.(currentStart := Some(0)) else st;
      st1.(currentId := Some(id), refs := Put(st1.refs, id, st1.currentRefs),
           start := st1.start[id := st1.currentStart.value], order := st1.order + [id])
    case Other =>
      if st.currentStart.None? then st.(currentStart := Some(0)) else st
  }

  /** The state after the loop has read the scanned lines `ls`. */
  function Run(ls: seq<ScannedLine>): ScanState {
    if ls == [] then Initial
    else Step(Run(ls[..|ls| - 1]), ls[|ls| - 1].kind, ls[|ls| - 1].start)
  }

  /** The tables `parse_mbox_threads` returns: the open message is closed at
      the end-of-file offset. */
  function ScanArchive(lines: seq<string>): ScanState {
    Close(Run(Scan(lines)), |Concat(lines)|)
  }

  /** One more line is one more step, taken at the offset the line starts at. */
  lemma ScanOneMore(lines: seq<string>, i: nat)
    requires i < |lines|
    ensures Scan(lines[..i + 1]) == Scan(lines[..i]) + [ScannedLine(KindOf(lines[i]), |Concat(lines[..i])|)]
    ensures Run(Scan(lines[..i + 1])) == Step(Run(Scan(lines[..i])), KindOf(lines[i]), |Concat(lines[..i])|)
    ensures |Concat(lines[..i + 1])| == |Concat(lines[..i])| + |lines[i]|
  {
    assert lines[..i + 1][..i] == lines[..i];
    var ls := Scan(lines[..i + 1]);
    assert ls[..|ls| - 1] == Scan(lines[..i]);
  }

  method ParseMboxThreads(lines: seq<string>)
    returns (msgRefs: Dict<string, seq<string>>, msgStart: map<string, nat>, msgEnd: map<string, nat>, msgOrder: seq<string>)
    ensures var st := ScanArchive(lines);
      msgRefs == st.refs && msgStart == st.start && msgEnd == st.end && msgOrder == st.order
  {
    var st := Initial;
    var i, lineStart := 0, 0;
    while i < |lines|
      invariant i <= |lines|
      invariant lineStart == |Concat(lines[..i])|
      invariant st == Run(Scan(lines[..i]))
    {
      ScanOneMore(lines, i);
      st := ScanLine(st, lines[i], lineStart);
      lineStart := lineStart + |lines[i]|;
      i := i + 1;
    }
    assert lines[..i] == lines;
    if st.currentId.Some? && st.currentStart.Some? {
      st := st.(end := st.end[st.currentId.value := lineStart]);
    }
    msgRefs, msgStart, msgEnd, msgOrder := st.refs, st.start, st.end, st.order;
  }

  /** The body of the loop over the lines: the loop's variables are the
      fields of `st`. */
  method ScanLine(st: ScanState, line: string, lineStart: nat) returns (r: ScanState)
    ensures r == Step(st, KindOf(line), lineStart)
  {
    r := st;
    if IsEnvelope(line) {
      if r.currentStart.Some? && r.currentId.Some? {
        r := r.(end := r.end[r.currentId.value := lineStart]);
      }
      r := r.(currentStart := Some(lineStart), currentId := None, currentRefs := []);
    } else {
      if r.currentStart.None? {
        r := r.(currentStart := Some(0));
      }
      if Contains(line, "References:") {
        r := r.(currentRefs := r.currentRefs + AngleTokens(line));
      } else if StartsWith(line, "<") && !Contains(line, "https") {
        r := r.(currentRefs := r.currentRefs + AngleTokens(line));
      } else {
        var m := MessageIdOf(line);
        if m.Some? {
          r := r.(currentId := m, refs := Put(r.refs, m.value, r.currentRefs),
                  start := r.start[m.value := r.currentStart.value], order := r.order + [m.value]);
        }
      }
    }
  }

  // ---------------------------------------------------------------------
  // The scanned lines

  /** A prefix of the scanned lines is the scan of the prefix, and line k
      is scanned with its own kind at its own offset. */
  lemma {:induction false} ScanPrefix(lines: seq<string>, k: nat)
    requires k < |lines|
    ensures Scan(lines)[..k] == Scan(lines[..k])
    ensures Scan(lines)[k] == ScannedLine(KindOf(lines[k]), |Concat(lines[..k])|)
  {
    var init := lines[..|lines| - 1];
    assert Scan(lines) == Scan(init) + [ScannedLine(KindOf(lines[|lines| - 1]), |Concat(init)|)];
    if k < |lines| - 1 {
      ScanPrefix(init, k);
      assert init[..k] == lines[..k];
    } else {
      assert init == lines[..k];
    }
  }

  /** The id a scanned line records. */
  function IdOf(l: ScannedLine): Option<string> {
    if l.kind.MessageId? then Some(l.kind.id) else None
  }

  /** Index of the last envelope line, or -1. */
  function LastEnvelope(ls: seq<ScannedLine>): (k: int)
    ensures -1 <= k < |ls|
    ensures k >= 0 ==> ls[k].kind == Envelope
    ensures forall j :: k < j < |ls| ==> ls[j].kind != Envelope
  {
    if ls == [] then -1
    else if ls[|ls| - 1].kind == Envelope then |ls| - 1
    else LastEnvelope(ls[..|ls| - 1])
  }

  /** The angle-bracket tokens of the reference lines after the last
      envelope line, in order. */
  function Pending(ls: seq<ScannedLine>): seq<string> {
    if ls == [] then []
    else
      match ls[|ls| - 1].kind
      case Envelope => []
      case Reference(tokens) => Pending(ls[..|ls| - 1]) + tokens
      case _ => Pending(ls[..|ls| - 1])
  }

  /** The offset of the last envelope line, or 0 before any envelope. */
  function OpenOffset(ls: seq<ScannedLine>): nat {
    var k := LastEnvelope(ls);
    if k < 0 then 0 else ls[k].start
  }

  /** The Message-IDs of the Message-ID lines, in file order. */
  function MessageIds(ls: seq<ScannedLine>): seq<string> {
    if ls == [] then []
    else
      var id := IdOf(ls[|ls| - 1]);
      MessageIds(ls[..|ls| - 1]) + (if id.Some? then [id.value] else [])
  }

  /** Index of the last Message-ID line that records `id`, or -1. */
  function LastIdLine(ls: seq<ScannedLine>, id: string): (k: int)
    ensures -1 <= k < |ls|
    ensures k >= 0 ==> ls[k].kind == MessageId(id)
  {
    if ls == [] then -1
    else if ls[|ls| - 1].kind == MessageId(id) then |ls| - 1
    else LastIdLine(ls[..|ls| - 1], id)
  }

  /** Some Message-ID line has been read since the last envelope line. */
  predicate IdSinceEnvelope(ls: seq<ScannedLine>) {
    ls != [] && ls[|ls| - 1].kind != Envelope
    && (ls[|ls| - 1].kind.MessageId? || IdSinceEnvelope(ls[..|ls| - 1]))
  }

  /** No message of the archive has two Message-ID lines: no Message-ID
      line follows another one without an envelope line between them. */
  predicate OneIdPerMessage(ls: seq<ScannedLine>) {
    ls == []
    || (&& OneIdPerMessage(ls[..|ls| - 1])
        && (ls[|ls| - 1].kind.MessageId? ==> !IdSinceEnvelope(ls[..|ls| - 1])))
  }

  /** Offsets never decrease along the lines, and none exceeds `eof`. */
  predicate StartsAscend(ls: seq<ScannedLine>, eof: nat) {
    ls == [] || (ls[|ls| - 1].start <= eof && StartsAscend(ls[..|ls| - 1], ls[|ls| - 1].start))
  }

  lemma {:induction false} ScanStartsAscend(lines: seq<string>)
    ensures StartsAscend(Scan(lines), |Concat(lines)|)
  {
    if lines != [] {
      var init := lines[..|lines| - 1];
      ScanStartsAscend(init);
      var ls := Scan(lines);
      assert ls[..|ls| - 1] == Scan(init);
    }
  }

  lemma PrefixOfPrefix<T>(s: seq<T>, k: nat, j: nat)
    requires j <= k <= |s|
    ensures s[..k][..j] == s[..j]
  {
  }

  // ---------------------------------------------------------------------
  // What the scan records

  /** The open message starts at the last envelope line, or at 0 when the
      archive does not start with one; the accumulator holds the tokens of
      the reference lines read since then. */
  lemma {:induction false} RunTracksOpenMessage(ls: seq<ScannedLine>)
    ensures Run(ls).currentStart == (if ls == [] then None else Some(OpenOffset(ls)))
    ensures Run(ls).currentRefs == Pending(ls)
  {
    if ls != [] {
      var init := ls[..|ls| - 1];
      RunTracksOpenMessage(init);
      if ls[|ls| - 1].kind != Envelope {
        assert LastEnvelope(ls) == LastEnvelope(init);
        var k := LastEnvelope(init);
        if k >= 0 {
          assert init[k] == ls[k];
        }
      }
    }
  }

  /** Every Message-ID line appends its id to the order, even a second one
      in the same message: the order is exactly the ids of those lines. */
  lemma {:induction false} OrderIsMessageIdLines(ls: seq<ScannedLine>)
    ensures Run(ls).order == MessageIds(ls)
  {
    if ls != [] {
      OrderIsMessageIdLines(ls[..|ls| - 1]);
    }
  }

  /** The three tables agree on their keys: `msg_refs`, `msg_start` and the
      ids in `msg_order` are the same set, and every id in `msg_end` has a
      start. */
  ghost predicate TablesAgree(st: ScanState) {
    && ValidDict(st.refs)
    && (forall id :: id in st.refs.vals <==> id in st.start)
    && (forall id :: id in st.start <==> id in st.order)
    && (forall id :: id in st.end ==> id in st.start)
    && (st.currentId.Some? ==> st.currentId.value in st.start)
  }

  lemma {:induction false} RunTablesAgree(ls: seq<ScannedLine>)
    ensures TablesAgree(Run(ls))
  {
    if ls != [] {
      var init := ls[..|ls| - 1];
      RunTablesAgree(init);
      StepKeepsTablesAgree(Run(init), ls[|ls| - 1].kind, ls[|ls| - 1].start);
    }
  }

  /** The tables `parse_mbox_threads` returns agree on their keys. */
  lemma ScanTablesAgree(lines: seq<string>)
    ensures TablesAgree(ScanArchive(lines))
  {
    RunTablesAgree(Scan(lines));
  }

  lemma StepKeepsTablesAgree(st: ScanState, kind: LineKind, pos: nat)
    requires TablesAgree(st)
    ensures TablesAgree(Step(st, kind, pos))
  {
    match kind
    case MessageId(id) =>
      var r := Step(st, kind, pos);
      assert r.order == st.order + [id];
      forall x ensures x in r.start <==> x in r.order {
        assert x in r.order <==> x in st.order || x == id;
      }
    case _ =>
  }

  /** A Message-ID line stores the accumulator and the open message's start
      (0 before any envelope) under its id. */
  lemma StepRecordsId(st: ScanState, id: string, pos: nat)
    ensures var r := Step(st, MessageId(id), pos);
      && id in r.refs.vals && r.refs.vals[id] == st.currentRefs
      && id in r.start && r.start[id] == (if st.currentStart.None? then 0 else st.currentStart.value)
  {
  }

  /** A step on any line other than a Message-ID line for `id` leaves the
      entries stored for `id` as they were, present or absent. */
  lemma StepKeepsEntry(st: ScanState, kind: LineKind, pos: nat, id: string)
    requires kind != MessageId(id)
    ensures var r := Step(st, kind, pos);
      && (id in r.refs.vals <==> id in st.refs.vals) && (id in r.start <==> id in st.start)
      && (id in st.refs.vals ==> r.refs.vals[id] == st.refs.vals[id])
      && (id in st.start ==> r.start[id] == st.start[id])
  {
  }

  /** References are a snapshot taken at the Message-ID line: an id is
      recorded exactly when some Message-ID line carries it, and for the
      last such line the stored list is exactly the tokens of the reference
      lines between the envelope and that line (later reference lines never
      change it), and the stored start is the envelope's offset (0 before
      any envelope). */
  lemma {:induction false} RefsAreSnapshotAtMessageId(ls: seq<ScannedLine>, id: string)
    ensures id in Run(ls).start <==> LastIdLine(ls, id) >= 0
    ensures id in Run(ls).refs.vals <==> LastIdLine(ls, id) >= 0
    ensures LastIdLine(ls, id) >= 0 ==>
      && Run(ls).refs.vals[id] == Pending(ls[..LastIdLine(ls, id)])
      && Run(ls).start[id] == OpenOffset(ls[..LastIdLine(ls, id)])
  {
    if ls != [] {
      var init := ls[..|ls| - 1];
      var last := ls[|ls| - 1];
      RefsAreSnapshotAtMessageId(init, id);
      if last.kind == MessageId(id) {
        RunTracksOpenMessage(init);
        StepRecordsId(Run(init), id, last.start);
      } else {
        StepKeepsEntry(Run(init), last.kind, last.start, id);
        var k := LastIdLine(init, id);
        if k >= 0 {
          PrefixOfPrefix(ls, |ls| - 1, k);
        }
      }
    }
  }

  // ---------------------------------------------------------------------
  // Offsets

  ghost predicate EndsFollowStarts(st: ScanState, pos: nat) {
    && (forall id | id in st.end :: id in st.start && (st.currentId == Some(id) || st.start[id] <= st.end[id]))
    && (forall id | id in st.end :: st.end[id] <= pos)
    && (forall id | id in st.start :: st.start[id] <= pos)
    && (forall id | id in st.start :: id in st.end || st.currentId == Some(id))
    && (st.currentId.Some? ==> st.currentId.value in st.start && st.currentStart.Some?
                               && st.start[st.currentId.value] == st.currentStart.value)
    && (st.currentStart.Some? ==> st.currentStart.value <= pos)
  }

  lemma {:induction false} CurrentIdMeansIdSinceEnvelope(ls: seq<ScannedLine>)
    ensures Run(ls).currentId.Some? <==> IdSinceEnvelope(ls)
  {
    if ls != [] {
      CurrentIdMeansIdSinceEnvelope(ls[..|ls| - 1]);
    }
  }

  lemma {:induction false} RunEndsFollowStarts(ls: seq<ScannedLine>, pos: nat)
    requires OneIdPerMessage(ls) && StartsAscend(ls, pos)
    ensures EndsFollowStarts(Run(ls), pos)
  {
    if ls != [] {
      var init := ls[..|ls| - 1];
      var last := ls[|ls| - 1];
      RunEndsFollowStarts(init, last.start);
      CurrentIdMeansIdSinceEnvelope(init);
      StepKeepsEndsFollowStarts(Run(init), last.kind, last.start, pos);
    }
  }

  lemma StepKeepsEndsFollowStarts(st: ScanState, kind: LineKind, lineStart: nat, next: nat)
    requires EndsFollowStarts(st, lineStart) && lineStart <= next
    requires kind.MessageId? ==> st.currentId.None?
    ensures EndsFollowStarts(Step(st, kind, lineStart), next)
  {
  }

  /** The tables after closing at `eof`: the recorded ids are exactly
      those with an end offset, and every one starts no later than it ends
      and ends by `eof`. */
  ghost predicate EndsWithin(st: ScanState, eof: nat) {
    && (forall id :: id in st.start <==> id in st.end)
    && (forall id | id in st.end :: st.start[id] <= st.end[id] <= eof)
  }

  /** Closing the scan at `eof` when no message has two Message-ID lines:
      the tables end within `eof`, and the message still open ends there. */
  lemma ClosedEndsFollowStarts(ls: seq<ScannedLine>, eof: nat)
    requires OneIdPerMessage(ls) && StartsAscend(ls, eof)
    ensures EndsWithin(Close(Run(ls), eof), eof)
    ensures Run(ls).currentId.Some? ==> Close(Run(ls), eof).end[Run(ls).currentId.value] == eof
  {
    RunEndsFollowStarts(ls, eof);
  }

  /** The same for the tables `parse_mbox_threads` returns, closed at the
      end of the file. */
  lemma EveryEndFollowsItsStart(lines: seq<string>)
    requires OneIdPerMessage(Scan(lines))
    ensures EndsWithin(ScanArchive(lines), |Concat(lines)|)
  {
    ScanStartsAscend(lines);
    ClosedEndsFollowStarts(Scan(lines), |Concat(lines)|);
  }

  /** An envelope line closes the open message (its id, if it has one, ends
      at this line's offset) and opens a new one at that offset with no id
      and an empty accumulator. */
  lemma EnvelopeClosesAndOpens(ls: seq<ScannedLine>, pos: nat)
    ensures var before, after := Run(ls), Run(ls + [ScannedLine(Envelope, pos)]);
      && after.currentStart == Some(pos) && after.currentId == None && after.currentRefs == []
      && after.end == (if before.currentId.Some? && before.currentStart.Some?
                       then before.end[before.currentId.value := pos] else before.end)
      && after.refs == before.refs && after.start == before.start && after.order == before.order
  {
    assert (ls + [ScannedLine(Envelope, pos)])[..|ls|] == ls;
  }
}
