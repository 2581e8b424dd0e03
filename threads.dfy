/** Thread assembly of app/orderEmails.py: the roots of the reference
    graph (`parent_emails`), the one-hop thread of a root
    (`join_emails_by_root`), the ordering of a thread by archive position,
    the grouping of threads under their identifier key
    (`create_dict_of_threads`), and the retrieval of one message's text
    (`get_email_by_msgid`). */
module Threads {
  import opened Text
  import opened MboxScan
  import opened Identity

  /** `msg_refs`: each Message-ID with the ids it references. */
  type Refs = Dict<string, seq<string>>

  predicate Distinct<T(==)>(s: seq<T>) {
    forall i, j | 0 <= i < j < |s| :: s[i] != s[j]
  }

  /** The elements of `s` that satisfy `keep`, in their order: a list
      comprehension with a condition, or a loop that appends. */
  function Filter<T>(s: seq<T>, keep: T -> bool): (r: seq<T>)
    ensures |r| <= |s|
  {
    if s == [] then [] else Filter(s[..|s| - 1], keep) + (if keep(s[|s| - 1]) then [s[|s| - 1]] else [])
  }

  lemma {:induction false} FilterMembers<T>(s: seq<T>, keep: T -> bool)
    ensures forall x :: x in Filter(s, keep) <==> x in s && keep(x)
  {
    if s != [] {
      var init := s[..|s| - 1];
      FilterMembers(init, keep);
      assert s == init + [s[|s| - 1]];
    }
  }

  lemma {:induction false} FilterDistinct<T>(s: seq<T>, keep: T -> bool)
    requires Distinct(s)
    ensures Distinct(Filter(s, keep))
  {
    if s != [] {
      var init := s[..|s| - 1];
      FilterDistinct(init, keep);
      FilterMembers(init, keep);
      assert s[|s| - 1] !in init;
    }
  }

  // ---------------------------------------------------------------------
  // parent_emails

  predicate IsParent(refs: Refs, msg: string) {
    msg in refs.vals && refs.vals[msg] == []
  }

  function ParentTest(refs: Refs): string -> bool {
    (msg: string) => IsParent(refs, msg)
  }

  /** `parent_emails`: the ids whose reference list is empty, in the
      dictionary's order. */
  function ParentEmails(refs: Refs): seq<string> {
    Filter(refs.keys, ParentTest(refs))
  }

  /** The roots are exactly the messages that reference nothing, each
      listed once. */
  lemma ParentEmailsAreRoots(refs: Refs)
    requires ValidDict(refs)
    ensures forall msg :: msg in ParentEmails(refs) <==> msg in refs.vals && refs.vals[msg] == []
    ensures Distinct(ParentEmails(refs))
  {
    FilterMembers(refs.keys, ParentTest(refs));
    FilterDistinct(refs.keys, ParentTest(refs));
  }

  // ---------------------------------------------------------------------
  // join_emails_by_root

  predicate RepliesTo(refs: Refs, root: string, msg: string) {
    msg in refs.vals && msg != root && root in refs.vals[msg]
  }

  function ReplyTest(refs: Refs, root: string): string -> bool {
    (msg: string) => RepliesTo(refs, root, msg)
  }

  /** The messages other than `root` whose reference list names it, in
      the dictionary's order. */
  function Replies(refs: Refs, root: string): seq<string> {
    Filter(refs.keys, ReplyTest(refs, root))
  }

  /** `join_emails_by_root`: the root, then every message that lists the
      root among its references. */
  method JoinEmailsByRoot(refs: Refs, root: string) returns (thread: seq<string>)
    requires ValidDict(refs)
    ensures thread == [root] + Replies(refs, root)
  {
    thread := [root];
    for i := 0 to |refs.keys|
      invariant thread == [root] + Filter(refs.keys[..i], ReplyTest(refs, root))
    {
      var msg := refs.keys[i];
      assert refs.keys[..i + 1][..i] == refs.keys[..i];
      if msg != root && root in refs.vals[msg] {
        thread := thread + [msg];
      }
    }
    assert refs.keys[..|refs.keys|] == refs.keys;
  }

  /** A thread is its root followed by its direct replies only (one hop:
      a reply to a reply that does not name the root is not in it), with
      no message twice. */
  lemma JoinedThreadMembers(refs: Refs, root: string)
    requires ValidDict(refs)
    ensures var thread := [root] + Replies(refs, root);
      && thread[0] == root
      && (forall msg :: msg in thread <==> msg == root || (msg in refs.vals && root in refs.vals[msg]))
      && Distinct(thread)
  {
    var replies := Replies(refs, root);
    FilterMembers(refs.keys, ReplyTest(refs, root));
    FilterDistinct(refs.keys, ReplyTest(refs, root));
    assert root !in replies;
    var thread := [root] + replies;
    forall i, j | 0 <= i < j < |thread| ensures thread[i] != thread[j] {
      assert thread[j] == replies[j - 1];
      if i > 0 {
        assert thread[i] == replies[i - 1];
      }
    }
  }

  // ---------------------------------------------------------------------
  // The sort by archive position

  /** `10**18`, the sort key of an id that never had a Message-ID line. */
  const Absent: nat := 1_000_000_000_000_000_000

  /** The last index of `id` in `order`: `{mid: i for i, mid in
      enumerate(msg_order)}` keeps the last one. */
  function LastIndex(order: seq<string>, id: string): (r: Option<nat>)
    ensures r.None? <==> id !in order
    ensures r.Some? ==> r.value < |order| && order[r.value] == id
    ensures r.Some? ==> forall j :: r.value < j < |order| ==> order[j] != id
  {
    if order == [] then None
    else if order[|order| - 1] == id then Some(|order| - 1)
    else
      assert order == order[..|order| - 1] + [order[|order| - 1]];
      LastIndex(order[..|order| - 1], id)
  }

  /** `order_pos.get(mid, 10**18)`. */
  function Position(order: seq<string>, id: string): nat {
    match LastIndex(order, id)
    case Some(i) => i
    case None => Absent
  }

  predicate SortedByPosition(s: seq<string>, order: seq<string>) {
    forall i, j | 0 <= i < j < |s| :: Position(order, s[i]) <= Position(order, s[j])
  }

  /** Places `x` after every element whose key is not greater than its own. */
  function Insert(sorted: seq<string>, x: string, order: seq<string>): (r: seq<string>)
    ensures multiset(r) == multiset(sorted) + multiset{x}
  {
    if sorted == [] || Position(order, sorted[|sorted| - 1]) <= Position(order, x) then sorted + [x]
    else
      var init := sorted[..|sorted| - 1];
      assert sorted == init + [sorted[|sorted| - 1]];
      Insert(init, x, order) + [sorted[|sorted| - 1]]
  }

  /** `thread_ids.sort(key=lambda mid: order_pos.get(mid, 10**18))`, as a
      stable insertion sort. */
  function SortByPosition(s: seq<string>, order: seq<string>): (r: seq<string>)
    ensures multiset(r) == multiset(s)
  {
    if s == [] then []
    else
      var init := s[..|s| - 1];
      assert s == init + [s[|s| - 1]];
      Insert(SortByPosition(init, order), s[|s| - 1], order)
  }

  /** Appending a key no smaller than the last one keeps the order. */
  lemma SortedSnoc(s: seq<string>, x: string, order: seq<string>)
    requires SortedByPosition(s, order)
    requires s == [] || Position(order, s[|s| - 1]) <= Position(order, x)
    ensures SortedByPosition(s + [x], order)
  {
    var t := s + [x];
    forall i, j | 0 <= i < j < |t| ensures Position(order, t[i]) <= Position(order, t[j]) {
      if j == |s| {
        assert t[i] == s[i];
        if i < |s| - 1 {
          assert Position(order, s[i]) <= Position(order, s[|s| - 1]);
        }
      } else {
        assert t[i] == s[i] && t[j] == s[j];
      }
    }
  }

  lemma {:induction false} InsertSorted(sorted: seq<string>, x: string, order: seq<string>)
    requires SortedByPosition(sorted, order)
    ensures SortedByPosition(Insert(sorted, x, order), order)
  {
    if sorted == [] || Position(order, sorted[|sorted| - 1]) <= Position(order, x) {
      SortedSnoc(sorted, x, order);
    } else {
      var init := sorted[..|sorted| - 1];
      var last := sorted[|sorted| - 1];
      assert SortedByPosition(init, order);
      InsertSorted(init, x, order);
      var r0 := Insert(init, x, order);
      if r0 != [] {
        var y := r0[|r0| - 1];
        assert y in multiset(r0);
        if y != x {
          assert y in multiset(init);
          var k :| 0 <= k < |init| && init[k] == y;
          assert sorted[k] == y;
        }
      }
      SortedSnoc(r0, last, order);
    }
  }

  lemma {:induction false} InsertDistinct(sorted: seq<string>, x: string, order: seq<string>)
    requires Distinct(sorted) && x !in sorted
    ensures Distinct(Insert(sorted, x, order))
  {
    if sorted != [] && Position(order, sorted[|sorted| - 1]) > Position(order, x) {
      var init := sorted[..|sorted| - 1];
      var last := sorted[|sorted| - 1];
      InsertDistinct(init, x, order);
      var r0 := Insert(init, x, order);
      assert last !in init;
      assert last !in multiset(r0);
      assert Insert(sorted, x, order) == r0 + [last];
    }
  }

  /** The sort orders by key and rearranges without loss (the permutation
      is its contract); a list without repetitions stays without them. */
  lemma {:induction false} SortByPositionSorted(s: seq<string>, order: seq<string>)
    ensures SortedByPosition(SortByPosition(s, order), order)
    ensures Distinct(s) ==> Distinct(SortByPosition(s, order))
  {
    if s != [] {
      var init := s[..|s| - 1];
      var last := s[|s| - 1];
      SortByPositionSorted(init, order);
      InsertSorted(SortByPosition(init, order), last, order);
      if Distinct(s) {
        assert last !in init;
        assert last !in multiset(SortByPosition(init, order));
        InsertDistinct(SortByPosition(init, order), last, order);
      }
    }
  }

  /** The thread of `root` as `create_dict_of_threads` files it: the root
      and its replies, sorted by the position of their last Message-ID
      line. */
  function ThreadOf(refs: Refs, order: seq<string>, root: string): (r: seq<string>)
    ensures multiset(r) == multiset([root] + Replies(refs, root))
    ensures root in r
    ensures SortedByPosition(r, order)
  {
    SortByPositionSorted([root] + Replies(refs, root), order);
    assert root in multiset([root] + Replies(refs, root));
    SortByPosition([root] + Replies(refs, root), order)
  }

  /** The thread of `root` keeps no message twice and lists its messages
      in strictly increasing archive position, when every message in it
      has a start (as the scanner's tables guarantee). */
  lemma ThreadFollowsArchiveOrder(st: ScanState, root: string)
    requires TablesAgree(st) && root in st.refs.vals
    ensures var thread := ThreadOf(st.refs, st.order, root);
      && (forall msg :: msg in thread <==> msg == root || (msg in st.refs.vals && root in st.refs.vals[msg]))
      && (forall msg | msg in thread :: msg in st.start && Position(st.order, msg) < |st.order|)
      && (forall i, j | 0 <= i < j < |thread| :: Position(st.order, thread[i]) < Position(st.order, thread[j]))
  {
    var joined := [root] + Replies(st.refs, root);
    var thread := ThreadOf(st.refs, st.order, root);
    JoinedThreadMembers(st.refs, root);
    SortByPositionSorted(joined, st.order);
    SameMembers(thread, joined);
    assert forall msg | msg in thread :: msg in st.order;
    PositionsStrict(thread, st.order);
  }

  /** Two lists with the same multiset have the same members. */
  lemma SameMembers(a: seq<string>, b: seq<string>)
    requires multiset(a) == multiset(b)
    ensures forall x :: x in a <==> x in b
  {
    forall x ensures x in a <==> x in b {
      assert x in a <==> x in multiset(a);
      assert x in b <==> x in multiset(b);
    }
  }

  /** A sorted list of distinct ids that all occur in `order` has strictly
      increasing positions, each below `|order|`. */
  lemma PositionsStrict(s: seq<string>, order: seq<string>)
    requires Distinct(s) && SortedByPosition(s, order)
    requires forall x | x in s :: x in order
    ensures forall x | x in s :: Position(order, x) < |order|
    ensures forall i, j | 0 <= i < j < |s| :: Position(order, s[i]) < Position(order, s[j])
  {
    forall i, j | 0 <= i < j < |s| ensures Position(order, s[i]) < Position(order, s[j]) {
      assert s[i] in s && s[j] in s;
    }
  }

  // ---------------------------------------------------------------------
  // Reading the archive at an offset

  /** `f.seek(pos); f.readline()`: the text from `pos` up to and including
      the next line feed, or to the end of the text; "" at or past the
      end. */
  function ReadLineAt(text: string, pos: nat): (r: string)
    ensures pos >= |text| ==> r == []
    ensures pos < |text| ==> 0 < |r| <= |text| - pos && r == text[pos..pos + |r|]
    ensures forall k :: 0 <= k < |r| - 1 ==> r[k] != '\n'
    ensures r != [] ==> r[|r| - 1] == '\n' || pos + |r| == |text|
  {
    if pos >= |text| then ""
    else
      var j := FindChar(text, '\n', pos);
      if j < |text| then text[pos..j + 1] else text[pos..]
  }

  /** A line as `readline` returns it: not empty, a line feed only as its
      last character, and one there unless it is the last line. */
  predicate LineShaped(line: string, last: bool) {
    && line != []
    && (forall c | 0 <= c < |line| - 1 :: line[c] != '\n')
    && (!last ==> line[|line| - 1] == '\n')
  }

  predicate ReadlineLines(lines: seq<string>) {
    forall k | 0 <= k < |lines| :: LineShaped(lines[k], k == |lines| - 1)
  }

  /** The text of the first lines is a prefix of the whole text. */
  lemma {:induction false} ConcatPrefix(lines: seq<string>, j: nat)
    requires j <= |lines|
    ensures |Concat(lines[..j])| <= |Concat(lines)|
    ensures Concat(lines)[..|Concat(lines[..j])|] == Concat(lines[..j])
  {
    if j < |lines| {
      var init := lines[..|lines| - 1];
      assert init[..j] == lines[..j];
      ConcatPrefix(init, j);
    } else {
      assert lines[..j] == lines;
    }
  }

  /** Line k sits in the text at its offset, and the last line ends the
      text. */
  lemma LineInText(lines: seq<string>, k: nat)
    requires k < |lines|
    ensures var p := |Concat(lines[..k])|;
      && p + |lines[k]| <= |Concat(lines)|
      && Concat(lines)[p..p + |lines[k]|] == lines[k]
      && (k == |lines| - 1 ==> p + |lines[k]| == |Concat(lines)|)
  {
    ConcatPrefix(lines, k + 1);
    assert Concat(lines[..k + 1]) == Concat(lines[..k]) + lines[k] by {
      assert lines[..k + 1][..k] == lines[..k];
    }
    if k == |lines| - 1 {
      assert lines[..k + 1] == lines;
    }
  }

  /** Seeking to the offset of a line and reading a line gives that line
      back. */
  lemma ReadLineAtLine(lines: seq<string>, k: nat)
    requires ReadlineLines(lines) && k < |lines|
    ensures ReadLineAt(Concat(lines), |Concat(lines[..k])|) == lines[k]
  {
    LineInText(lines, k);
    ReadLineOfShapedLine(Concat(lines), |Concat(lines[..k])|, lines[k], k == |lines| - 1);
  }

  lemma ReadLineOfShapedLine(text: string, p: nat, line: string, last: bool)
    requires LineShaped(line, last)
    requires p + |line| <= |text| && text[p..p + |line|] == line
    requires last && line[|line| - 1] != '\n' ==> p + |line| == |text|
    ensures ReadLineAt(text, p) == line
  {
    var q := p + |line|;
    forall c | p <= c < q - 1
      ensures text[c] != '\n'
    {
      assert text[c] == text[p..q][c - p];
    }
    assert text[q - 1] == text[p..q][|line| - 1];
    if line[|line| - 1] == '\n' {
      FindCharIs(text, '\n', p, q - 1);
    } else {
      FindCharIs(text, '\n', p, |text|);
    }
  }

  /** A message's start offset is the offset of an envelope line, or 0
      when no envelope line came before its Message-ID line. */
  lemma MessageStartsAtEnvelope(lines: seq<string>, id: string)
    requires id in ScanArchive(lines).start
    ensures var s := ScanArchive(lines).start[id];
      s == 0 || exists k | 0 <= k < |lines| :: IsEnvelope(lines[k]) && s == |Concat(lines[..k])|
  {
    var ls := Scan(lines);
    RefsAreSnapshotAtMessageId(ls, id);
    var m := LastIdLine(ls, id);
    var j := LastEnvelope(ls[..m]);
    if j >= 0 {
      ScanPrefix(lines, j);
      assert ls[..m][j] == ls[j];
      assert IsEnvelope(lines[j]);
    }
  }

  // ---------------------------------------------------------------------
  // create_dict_of_threads

  /** A thread's key: `(date, requestor)`. */
  type Key = (string, string)

  /** The key of a first line the envelope pattern does not match. */
  const NoKey: Key := ("", "")

  /** What a thread is filed under: the key of its first message's
      envelope line and the requester name of the line after it, both read
      stripped. `Raises` when the first message has no start offset (a
      KeyError), when the envelope's month is not an abbreviation, or when
      the display name fails to decode. */
  function Label(text: string, start: map<string, nat>, thread: seq<string>, decode: string -> Outcome<string>)
    : Outcome<(Key, string)>
    requires thread != []
  {
    if thread[0] !in start then Raises
    else
      var firstLine := ReadLineAt(text, start[thread[0]]);
      var secondLine := ReadLineAt(text, start[thread[0]] + |firstLine|);
      LabelOfLines(firstLine, secondLine, decode)
  }

  /** The key of the stripped first line and the name of the stripped
      second line, read in that order: either can raise. */
  function LabelOfLines(firstLine: string, secondLine: string, decode: string -> Outcome<string>): Outcome<(Key, string)> {
    KeyThenName(FormatIdentifierLine(Strip(firstLine)), ExtractNameFromSecondLine(Strip(secondLine), decode))
  }

  /** The pair of a key and a name, where the key is computed first: its
      exception wins over the name's. */
  function KeyThenName(key: Outcome<Key>, name: Outcome<string>): Outcome<(Key, string)> {
    match key
    case Raises => Raises
    case Returns(k) =>
      match name
      case Raises => Raises
      case Returns(n) => Returns((k, n))
  }

  /** The envelope pattern matches the first line with a month token
      that `strptime` rejects. */
  predicate MonthRaises(firstLine: string) {
    var m := SearchEnvelope(Strip(firstLine));
    m.Some? && MonthNumber(m.value.month).None?
  }

  /** Decoding the display name of the second line fails. */
  predicate NameRaises(secondLine: string, decode: string -> Outcome<string>) {
    ExtractNameFromSecondLine(Strip(secondLine), decode).Raises?
  }

  /** The sorted thread of each root, on the scanner's tables. */
  function Threading(refs: Refs, order: seq<string>): string -> seq<string> {
    root => ThreadOf(refs, order, root)
  }

  /** The label of each root's thread, on the scanner's tables. */
  function Labelling(text: string, start: map<string, nat>, refs: Refs, order: seq<string>, decode: string -> Outcome<string>)
    : string -> Outcome<(Key, string)>
  {
    root => Label(text, start, ThreadOf(refs, order, root), decode)
  }

  /** The threads filed so far under each key (`dict_of_threads`) and the
      requester name recorded per key (`requestor_names`). */
  datatype Grouping = Grouping(threads: Dict<Key, seq<seq<string>>>, names: map<Key, string>)

  const NoThreads := Grouping(Dict([], map[]), map[])

  /** `dict_of_threads[key].append(thread)` on a `defaultdict(list)`. */
  function Append(d: Dict<Key, seq<seq<string>>>, key: Key, thread: seq<string>): (r: Dict<Key, seq<seq<string>>>)
    ensures ValidDict(d) ==> ValidDict(r)
    ensures key in r.vals && r.vals[key] == (if key in d.vals then d.vals[key] else []) + [thread]
    ensures forall k | k in d.vals :: k in r.vals
    ensures forall k | k in r.vals && k != key :: k in d.vals && r.vals[k] == d.vals[k]
  {
    Put(d, key, (if key in d.vals then d.vals[key] else []) + [thread])
  }

  /** Files `thread` under `key`, and records `name` for `key` unless the
      key is empty or the name is. */
  function Record(g: Grouping, key: Key, name: string, thread: seq<string>): Grouping {
    Grouping(Append(g.threads, key, thread), if key != NoKey && name != "" then g.names[key := name] else g.names)
  }

  /** One iteration of the loop over the roots: an empty thread is skipped,
      any other is filed under its root's label. */
  function Visit(g: Grouping, root: string, threadOf: string -> seq<string>,
                 labelOf: string -> Outcome<(Key, string)>): Outcome<Grouping>
  {
    var thread := threadOf(root);
    if thread == [] then Returns(g)
    else
      match labelOf(root)
      case Raises => Raises
      case Returns(found) => Returns(Record(g, found.0, found.1, thread))
  }

  /** The loop over `roots`; an exception ends it. */
  function GroupThreads(roots: seq<string>, threadOf: string -> seq<string>,
                        labelOf: string -> Outcome<(Key, string)>): Outcome<Grouping>
  {
    if roots == [] then Returns(NoThreads)
    else
      match GroupThreads(roots[..|roots| - 1], threadOf, labelOf)
      case Raises => Raises
      case Returns(g) => Visit(g, roots[|roots| - 1], threadOf, labelOf)
  }

  lemma GroupThreadsSnoc(roots: seq<string>, i: nat, threadOf: string -> seq<string>,
                         labelOf: string -> Outcome<(Key, string)>)
    requires i < |roots|
    ensures GroupThreads(roots[..i + 1], threadOf, labelOf)
         == match GroupThreads(roots[..i], threadOf, labelOf)
            case Raises => Raises
            case Returns(g) => Visit(g, roots[i], threadOf, labelOf)
  {
    assert roots[..i + 1][..i] == roots[..i];
  }

  /** One more root: an exception ends the loop for good, otherwise the
      grouping so far grows by one visit. */
  lemma GroupThreadsStep(roots: seq<string>, i: nat, threadOf: string -> seq<string>,
                         labelOf: string -> Outcome<(Key, string)>, g: Grouping, next: Outcome<Grouping>)
    requires i < |roots| && GroupThreads(roots[..i], threadOf, labelOf) == Returns(g)
    requires next == Visit(g, roots[i], threadOf, labelOf)
    ensures next.Raises? ==> GroupThreads(roots, threadOf, labelOf) == Raises
    ensures next.Returns? ==> GroupThreads(roots[..i + 1], threadOf, labelOf) == next
  {
    GroupThreadsSnoc(roots, i, threadOf, labelOf);
    if next.Raises? {
      GroupThreadsRaisesOn(roots, i + 1, threadOf, labelOf);
    }
  }

  lemma GroupThreadsWhole(roots: seq<string>, threadOf: string -> seq<string>,
                          labelOf: string -> Outcome<(Key, string)>)
    ensures GroupThreads(roots[..|roots|], threadOf, labelOf) == GroupThreads(roots, threadOf, labelOf)
  {
    assert roots[..|roots|] == roots;
  }

  /** An exception part-way stops the loop for good. */
  lemma {:induction false} GroupThreadsRaisesOn(roots: seq<string>, k: nat, threadOf: string -> seq<string>,
                                                labelOf: string -> Outcome<(Key, string)>)
    requires k <= |roots| && GroupThreads(roots[..k], threadOf, labelOf) == Raises
    ensures GroupThreads(roots, threadOf, labelOf) == Raises
  {
    if k < |roots| {
      var init := roots[..|roots| - 1];
      assert init[..k] == roots[..k];
      GroupThreadsRaisesOn(init, k, threadOf, labelOf);
    } else {
      assert roots[..k] == roots;
    }
  }

  /** The result of `create_dict_of_threads`: the threads by key, the
      scanner's offsets, and the requester names by key. */
  datatype ThreadIndex = ThreadIndex(threads: Dict<Key, seq<seq<string>>>, start: map<string, nat>,
                                     end: map<string, nat>, names: map<Key, string>)

  /** `create_dict_of_threads`: scan the archive, then file the thread of
      every root under the key read from its first message. */
  method CreateDictOfThreads(lines: seq<string>, decode: string -> Outcome<string>) returns (r: Outcome<ThreadIndex>)
    ensures var st := ScanArchive(lines);
      match GroupThreads(ParentEmails(st.refs), Threading(st.refs, st.order),
                         Labelling(Concat(lines), st.start, st.refs, st.order, decode))
      case Raises => r == Raises
      case Returns(g) => r == Returns(ThreadIndex(g.threads, st.start, st.end, g.names))
  {
    var msgRefs, msgStart, msgEnd, msgOrder := ParseMboxThreads(lines);
    ScanTablesAgree(lines);
    var roots := ParentEmails(msgRefs);
    var text := Concat(lines);
    var grouped := FileThreads(text, msgRefs, msgStart, msgOrder, roots, decode);
    if grouped.Raises? {
      return Raises;
    }
    r := Returns(ThreadIndex(grouped.value.threads, msgStart, msgEnd, grouped.value.names));
  }

  /** The loop of `create_dict_of_threads` over the roots, on the scanner's
      tables. */
  method FileThreads(text: string, msgRefs: Refs, msgStart: map<string, nat>, msgOrder: seq<string>,
                     roots: seq<string>, decode: string -> Outcome<string>) returns (r: Outcome<Grouping>)
    requires ValidDict(msgRefs)
    ensures r == GroupThreads(roots, Threading(msgRefs, msgOrder), Labelling(text, msgStart, msgRefs, msgOrder, decode))
  {
    ghost var threadOf := Threading(msgRefs, msgOrder);
    ghost var labelOf := Labelling(text, msgStart, msgRefs, msgOrder, decode);
    var g := NoThreads;
    for i := 0 to |roots|
      invariant GroupThreads(roots[..i], threadOf, labelOf) == Returns(g)
    {
      var next := FileRoot(text, msgRefs, msgStart, msgOrder, roots[i], decode, g);
      GroupThreadsStep(roots, i, threadOf, labelOf, g, next);
      if next.Raises? {
        return Raises;
      }
      g := next.value;
    }
    GroupThreadsWhole(roots, threadOf, labelOf);
    r := Returns(g);
  }

  /** One pass of the loop: join and sort the root's thread, read its first
      message's two lines, and file the thread under their label. */
  method FileRoot(text: string, msgRefs: Refs, msgStart: map<string, nat>, msgOrder: seq<string>,
                  root: string, decode: string -> Outcome<string>, g: Grouping) returns (r: Outcome<Grouping>)
    requires ValidDict(msgRefs)
    ensures r == Visit(g, root, Threading(msgRefs, msgOrder), Labelling(text, msgStart, msgRefs, msgOrder, decode))
  {
    var thread := JoinEmailsByRoot(msgRefs, root);
    thread := SortByPosition(thread, msgOrder);
    assert thread == Threading(msgRefs, msgOrder)(root);
    if thread == [] {
      return Returns(g);
    }
    var found := Label(text, msgStart, thread, decode);
    assert found == Labelling(text, msgStart, msgRefs, msgOrder, decode)(root);
    if found.Raises? {
      return Raises;
    }
    var key, name := found.value.0, found.value.1;
    var names := g.names;
    if key != NoKey && name != "" {
      names := names[key := name];
    }
    r := Returns(Grouping(Append(g.threads, key, thread), names));
  }

  /** The threads that `roots` file under `key`, in the order of the roots:
      the thread of every root whose label has that key. */
  function FiledUnder(roots: seq<string>, threadOf: string -> seq<string>,
                      labelOf: string -> Outcome<(Key, string)>, key: Key): seq<seq<string>>
  {
    if roots == [] then []
    else
      var root := roots[|roots| - 1];
      var found := labelOf(root);
      FiledUnder(roots[..|roots| - 1], threadOf, labelOf, key)
        + (if threadOf(root) != [] && found.Returns? && found.value.0 == key then [threadOf(root)] else [])
  }

  /** The name recorded for `key`: that of the last root whose label has
      that key, a non-empty key and a non-empty name. */
  function NameFor(roots: seq<string>, threadOf: string -> seq<string>,
                   labelOf: string -> Outcome<(Key, string)>, key: Key): Option<string>
  {
    if roots == [] then None
    else
      var root := roots[|roots| - 1];
      var found := labelOf(root);
      if threadOf(root) != [] && found.Returns? && found.value.0 == key && key != NoKey && found.value.1 != ""
      then Some(found.value.1)
      else NameFor(roots[..|roots| - 1], threadOf, labelOf, key)
  }

  /** Some root has a non-empty thread and a label that raises. */
  predicate SomeRootRaises(roots: seq<string>, threadOf: string -> seq<string>,
                           labelOf: string -> Outcome<(Key, string)>) {
    exists k | 0 <= k < |roots| :: threadOf(roots[k]) != [] && labelOf(roots[k]) == Raises
  }

  /** Grouping fails exactly when the label of some root with a non-empty
      thread raises. */
  lemma {:induction false} GroupThreadsRaises(roots: seq<string>, threadOf: string -> seq<string>,
                                              labelOf: string -> Outcome<(Key, string)>)
    ensures GroupThreads(roots, threadOf, labelOf) == Raises <==> SomeRootRaises(roots, threadOf, labelOf)
  {
    if roots != [] {
      GroupThreadsRaises(roots[..|roots| - 1], threadOf, labelOf);
      SomeRootRaisesSnoc(roots, threadOf, labelOf);
    }
  }

  /** Some root raises exactly when one before the last does or the last
      one does. */
  lemma SomeRootRaisesSnoc(roots: seq<string>, threadOf: string -> seq<string>,
                           labelOf: string -> Outcome<(Key, string)>)
    requires roots != []
    ensures var last := roots[|roots| - 1];
      SomeRootRaises(roots, threadOf, labelOf)
      <==> SomeRootRaises(roots[..|roots| - 1], threadOf, labelOf) || (threadOf(last) != [] && labelOf(last) == Raises)
  {
    var init := roots[..|roots| - 1];
    if SomeRootRaises(init, threadOf, labelOf) {
      var k :| 0 <= k < |init| && threadOf(init[k]) != [] && labelOf(init[k]) == Raises;
      assert roots[k] == init[k];
    }
    if SomeRootRaises(roots, threadOf, labelOf) {
      var k :| 0 <= k < |roots| && threadOf(roots[k]) != [] && labelOf(roots[k]) == Raises;
      if k < |init| {
        assert init[k] == roots[k];
      }
    }
  }

  /** What grouping builds: under each key, exactly the threads of the
      roots labelled with it, in root order. */
  lemma {:induction false} GroupThreadsFiles(roots: seq<string>, threadOf: string -> seq<string>,
                                             labelOf: string -> Outcome<(Key, string)>, g: Grouping)
    requires GroupThreads(roots, threadOf, labelOf) == Returns(g)
    ensures ValidDict(g.threads)
    ensures forall key :: key in g.threads.vals <==> FiledUnder(roots, threadOf, labelOf, key) != []
    ensures forall key | key in g.threads.vals :: g.threads.vals[key] == FiledUnder(roots, threadOf, labelOf, key)
  {
    if roots != [] {
      var init := roots[..|roots| - 1];
      var root := roots[|roots| - 1];
      var g0 := GroupThreads(init, threadOf, labelOf).value;
      GroupThreadsFiles(init, threadOf, labelOf, g0);
      if threadOf(root) != [] {
        var found := labelOf(root).value;
        assert g.threads == Append(g0.threads, found.0, threadOf(root));
      } else {
        assert g == g0;
      }
    }
  }

  /** The names grouping records: for each key, the name of the last root
      labelled with it that has a name, unless the key is empty. */
  lemma {:induction false} GroupThreadsNames(roots: seq<string>, threadOf: string -> seq<string>,
                                             labelOf: string -> Outcome<(Key, string)>, g: Grouping)
    requires GroupThreads(roots, threadOf, labelOf) == Returns(g)
    ensures forall key :: key in g.names <==> NameFor(roots, threadOf, labelOf, key).Some?
    ensures forall key | key in g.names :: g.names[key] == NameFor(roots, threadOf, labelOf, key).value
  {
    if roots != [] {
      var init := roots[..|roots| - 1];
      var root := roots[|roots| - 1];
      var g0 := GroupThreads(init, threadOf, labelOf).value;
      GroupThreadsNames(init, threadOf, labelOf, g0);
      if threadOf(root) != [] {
        var found := labelOf(root).value;
        assert g.names == if found.0 != NoKey && found.1 != "" then g0.names[found.0 := found.1] else g0.names;
      } else {
        assert g == g0;
      }
    }
  }

  /** On the scanner's tables a root's thread is never empty and its first
      message always has a start offset, so `Label` never raises for a
      missing offset there and `LabelRaisesOnMonth` applies to every root. */
  lemma ThreadStartsAtRoot(st: ScanState, root: string)
    requires TablesAgree(st) && root in st.refs.vals
    ensures var thread := ThreadOf(st.refs, st.order, root);
      thread != [] && thread[0] in st.start
  {
    ThreadFollowsArchiveOrder(st, root);
  }

  /** With a start offset for its first message, a thread's label raises
      exactly when the envelope match on the first line has a month token
      that is no abbreviation, or when the month is fine and the display
      name on the next line fails to decode. */
  lemma LabelRaisesOnMonth(text: string, start: map<string, nat>, thread: seq<string>, decode: string -> Outcome<string>)
    requires thread != [] && thread[0] in start
    ensures Label(text, start, thread, decode) == Raises
        <==> var firstLine := ReadLineAt(text, start[thread[0]]);
             MonthRaises(firstLine)
             || (!MonthRaises(firstLine) && NameRaises(ReadLineAt(text, start[thread[0]] + |firstLine|), decode))
  {
    var firstLine := ReadLineAt(text, start[thread[0]]);
    LinesRaiseOnMonth(firstLine, ReadLineAt(text, start[thread[0]] + |firstLine|), decode);
  }

  /** The same for the two lines themselves. */
  lemma LinesRaiseOnMonth(firstLine: string, secondLine: string, decode: string -> Outcome<string>)
    ensures LabelOfLines(firstLine, secondLine, decode) == Raises
        <==> MonthRaises(firstLine) || (!MonthRaises(firstLine) && NameRaises(secondLine, decode))
  {
    FormatIdentifierLineRaises(Strip(firstLine));
  }

  // ---------------------------------------------------------------------
  // get_email_by_msgid

  /** The id as looked up: stripped, then unwrapped from one pair of angle
      brackets when it both starts with `<` and ends with `>`. */
  function NormalizeId(msgid: string): string {
    var m := Strip(msgid);
    if StartsWith(m, "<") && EndsWith(m, ">") then m[1..|m| - 1] else m
  }

  /** `f.seek(s); f.read(n)`: "" from the end of the text on, everything
      after `s` when `n` is negative, else at most `n` characters. */
  function ReadAt(text: string, s: nat, n: int): (r: string)
    ensures s >= |text| ==> r == []
    ensures s < |text| && n < 0 ==> r == text[s..]
    ensures s < |text| && 0 <= n ==> |r| == (if s + n <= |text| then n else |text| - s) && r == text[s..s + |r|]
  {
    if s >= |text| then ""
    else if n < 0 then text[s..]
    else if s + n <= |text| then text[s..s + n]
    else text[s..]
  }

  /** The lookup on a normalised id: the text from the message's start to
      its end, or to the end of the archive when it has no end offset;
      `None` when the id has no start offset. */
  function LookupId(text: string, msgStart: map<string, nat>, msgEnd: map<string, nat>, id: string)
    : Option<string>
  {
    if id !in msgStart then None
    else
      var s := msgStart[id];
      var e := if id in msgEnd then msgEnd[id] else |text|;
      Some(ReadAt(text, s, e - s))
  }

  /** `get_email_by_msgid`. */
  function GetEmailByMsgid(text: string, msgStart: map<string, nat>, msgEnd: map<string, nat>, msgid: string)
    : Option<string>
  {
    LookupId(text, msgStart, msgEnd, NormalizeId(msgid))
  }

  /** An id and the same id in angle brackets, with or without surrounding
      whitespace, look up the same message. */
  lemma BracketedIdFindsSameMessage(text: string, msgStart: map<string, nat>, msgEnd: map<string, nat>,
                                    id: string, pad: string)
    requires IsStripped(id) && !(StartsWith(id, "<") && EndsWith(id, ">"))
    requires AllSpace(pad)
    ensures GetEmailByMsgid(text, msgStart, msgEnd, pad + "<" + id + ">" + pad)
         == GetEmailByMsgid(text, msgStart, msgEnd, id)
  {
    PlainIdIsItself(id);
    BracketedIdIsUnwrapped(id, pad);
  }

  lemma PlainIdIsItself(id: string)
    requires IsStripped(id) && !(StartsWith(id, "<") && EndsWith(id, ">"))
    ensures NormalizeId(id) == id
  {
    StripStripped(id);
  }

  lemma BracketedIdIsUnwrapped(id: string, pad: string)
    requires IsStripped(id) && AllSpace(pad)
    ensures NormalizeId(pad + "<" + id + ">" + pad) == id
  {
    var m := Bracketed(id);
    var t := pad + "<" + id + ">" + pad;
    assert t == pad + m + pad;
    PaddingStripped(pad, m);
    UnwrapBrackets(t, id);
  }

  /** An id in angle brackets. */
  function Bracketed(id: string): (m: string)
    ensures m == "<" + id + ">" && m != [] && IsStripped(m)
  {
    var m := "<" + id + ">";
    assert m[0] == '<' && m[|m| - 1] == '>';
    m
  }

  lemma UnwrapBrackets(msgid: string, id: string)
    requires Strip(msgid) == "<" + id + ">"
    ensures NormalizeId(msgid) == id
  {
    var m := Strip(msgid);
    assert m[0] == '<' && m[|m| - 1] == '>';
    assert m[1..|m| - 1] == id;
  }

  /** Whitespace around a stripped string is what `strip` removes. */
  lemma PaddingStripped(pad: string, s: string)
    requires AllSpace(pad) && s != [] && IsStripped(s)
    ensures Strip(pad + s + pad) == s
  {
    var t := pad + s + pad;
    var u := pad + s;
    assert RStrip(t) == u by {
      assert forall k | |u| <= k < |t| :: t[k] == pad[k - |u|];
      assert t[|u| - 1] == s[|s| - 1];
      RunStartIs(t, |t|, |u|, IsSpace);
      assert t[..|u|] == u;
    }
    assert LStrip(u) == s by {
      assert forall k | 0 <= k < |pad| :: u[k] == pad[k];
      assert u[|pad|] == s[0];
      RunEndIs(u, 0, |pad|, IsSpace);
      assert u[|pad|..] == s;
    }
  }

  /** Reading from `s` up to `e` within the text gives the slice between. */
  lemma ReadAtSlice(text: string, s: nat, e: nat)
    requires s <= e <= |text|
    ensures ReadAt(text, s, e - s) == text[s..e]
  {
    if s == |text| {
      assert text[s..e] == [];
    }
  }

  /** Looking up an id on tables whose ends follow their starts within the
      text gives the slice between them. */
  lemma LookupIsSlice(text: string, st: ScanState, id: string)
    requires EndsWithin(st, |text|)
    ensures id in st.start ==>
      && id in st.end && st.start[id] <= st.end[id] <= |text|
      && LookupId(text, st.start, st.end, id) == Some(text[st.start[id]..st.end[id]])
    ensures id !in st.start ==> LookupId(text, st.start, st.end, id) == None
  {
    if id in st.start {
      ReadAtSlice(text, st.start[id], st.end[id]);
    }
  }

  /** On an archive's own tables (no message with two Message-ID lines),
      the text looked up is exactly the message's slice of the archive,
      from its start up to its end; an unknown id finds nothing. */
  lemma ArchiveLookupIsMessageSlice(lines: seq<string>, msgid: string)
    requires OneIdPerMessage(Scan(lines))
    ensures var st := ScanArchive(lines);
      var text := Concat(lines);
      var id := NormalizeId(msgid);
      && (id in st.start ==>
            && id in st.end && st.start[id] <= st.end[id] <= |text|
            && GetEmailByMsgid(text, st.start, st.end, msgid) == Some(text[st.start[id]..st.end[id]]))
      && (id !in st.start ==> GetEmailByMsgid(text, st.start, st.end, msgid) == None)
  {
    EveryEndFollowsItsStart(lines);
    LookupIsSlice(Concat(lines), ScanArchive(lines), NormalizeId(msgid));
  }
}
