/** The part of `extract_prom_unified` (preprocessing/promTothread.py) that
    runs once the converted document has become a list of text items: the
    items are normalised, section boundaries are found by strict label
    matching, each numbered section gathers the text up to the next
    boundary, the staff considerations follow the "special handling" item,
    and the form is validated and assembled. The header scan that finds
    title, requestor, date and e-mail is not part of this model: what it
    found enters as a `Header`. */
module PromSections {
  import opened Text
  import opened Models
  import PromText
  import Boilerplate

  // ---------------------------------------------------------------------
  // Items

  /** `item.get('text', '').replace('\t', ' ').strip()`. */
  function NormalizeItem(item: Option<string>): (r: string)
    ensures IsStripped(r)
    ensures forall k | 0 <= k < |r| :: r[k] != '\t'
  {
    var spaced := TabsToSpaces(if item.Some? then item.value else "");
    assert forall k | 0 <= k < |Strip(spaced)| :: Strip(spaced)[k] != '\t' by {
      var a, b := StripIsSlice(spaced);
    }
    Strip(spaced)
  }

  /** `replace('\t', ' ')`. */
  function TabsToSpaces(text: string): (r: string)
    ensures |r| == |text|
    ensures forall k | 0 <= k < |r| :: r[k] != '\t'
  {
    if text == [] then []
    else [if text[0] == '\t' then ' ' else text[0]] + TabsToSpaces(text[1..])
  }

  /** Builds `text_items` from the converted document's text entries, one
      item per entry, in order. */
  method NormalizeItems(texts: seq<Option<string>>) returns (items: seq<string>)
    ensures |items| == |texts|
    ensures forall k | 0 <= k < |texts| :: items[k] == NormalizeItem(texts[k])
  {
    items := MapEntries(NormalizeItem, texts);
  }

  /** The loop that builds `text_items`, for any per-entry function. */
  method MapEntries(normalize: Option<string> -> string, texts: seq<Option<string>>) returns (items: seq<string>)
    ensures |items| == |texts|
    ensures forall k | 0 <= k < |texts| :: items[k] == normalize(texts[k])
  {
    items := [];
    for i := 0 to |texts|
      invariant |items| == i
      invariant forall k | 0 <= k < i :: items[k] == normalize(texts[k])
    {
      items := items + [normalize(texts[i])];
    }
  }

  /** The non-empty items, in order. */
  function NonEmpty(items: seq<string>): (r: seq<string>)
    ensures |r| <= |items|
    ensures forall k | 0 <= k < |r| :: r[k] != "" && r[k] in items
  {
    if items == [] then []
    else (if items[0] != "" then [items[0]] else []) + NonEmpty(items[1..])
  }

  // ---------------------------------------------------------------------
  // Labels

  /** A key of `SECTION_LABELS` and the form field it opens; the end marker
      and the staff section open none. */
  datatype Label = Label(name: string, field: Option<nat>)

  /** `SECTION_LABELS`, in order. */
  const SectionLabels: seq<Label> := [
    Label("the chemical or material", Some(1)),
    Label("vendor/manufacturer info", Some(2)),
    Label("reason for request", Some(3)),
    Label("process flow", Some(4)),
    Label("amount and form", Some(5)),
    Label("storage", Some(6)),
    Label("disposal", Some(7)),
    Label("to be completed by", None),
    Label("special handling", None)
  ]

  /** The values of `NUMERIC_FIELD_MAP`, lower-cased. */
  const FieldNames: seq<string> := [
    "the chemical or material", "vendor/manufacturer info", "reason for request", "process flow",
    "amount and form", "storage", "disposal"
  ]

  /** The names tried, in order, for inline content after a label: the
      keys of `SECTION_LABELS`, then the lower-cased field names. */
  function InlineNames(labels: seq<Label>): (names: seq<string>)
    ensures |names| == |labels| + |FieldNames|
  {
    seq(|labels|, k requires 0 <= k < |labels| => labels[k].name) + FieldNames
  }

  /** The item text the label tests read: leading bullets removed, then a
      numbered prefix (`re.match(r'^(\d+)\.\s*(.*)', t)`) dropped. `.*`
      stops at a line break, and what it took is stripped. */
  function LabelText(item: string): string {
    var t := PromText.StripBullets(item);
    var digits := RunEnd(t, 0, IsDigit);
    if 0 < digits < |t| && t[digits] == '.' then
      var from := SpaceEnd(t, digits + 1);
      Strip(t[from..FindChar(t, '\n', from)])
    else t
  }

  /** The lower-cased label text, which the boundary scan matches. */
  function LabelKey(item: string): string {
    Lower(LabelText(item))
  }

  /** `t.rstrip(':').rstrip('.')`: a prefix of `t`. */
  function TrimEnd(t: string): (r: string)
    ensures StartsWith(t, r)
  {
    var u := RStripBy(t, c => c == ':');
    RStripBy(u, c => c == '.')
  }

  /** The boundary scan's test of one label: the trimmed text is the label;
      or the text starts with the label and a colon or a period; or the
      trimmed text starts with the label and is less than 30 characters
      longer than it. */
  predicate MarksSection(key: string, name: string) {
    var cleaned := TrimEnd(key);
    cleaned == name
    || StartsWith(key, name + ":") || StartsWith(key, name + ".")
    || (|cleaned| < |name| + 30 && StartsWith(cleaned, name))
  }

  /** The first label from position `i` on that `key` marks. */
  function FirstLabelFrom(labels: seq<Label>, key: string, i: nat): (r: Option<nat>)
    requires i <= |labels|
    ensures r.Some? ==> i <= r.value < |labels| && MarksSection(key, labels[r.value].name)
    ensures r.Some? ==> forall k | i <= k < r.value :: !MarksSection(key, labels[k].name)
    ensures r.None? ==> forall k | i <= k < |labels| :: !MarksSection(key, labels[k].name)
    decreases |labels| - i
  {
    if i == |labels| then None
    else if MarksSection(key, labels[i].name) then Some(i)
    else FirstLabelFrom(labels, key, i + 1)
  }

  /** The label an item opens a section with, if any: the first in order
      that matches. */
  function SectionLabel(labels: seq<Label>, item: string): (r: Option<nat>)
    ensures r.Some? ==> r.value < |labels|
  {
    FirstLabelFrom(labels, LabelKey(item), 0)
  }

  /** Tries the labels in order and stops at the first that matches. */
  method MatchLabel(labels: seq<Label>, key: string) returns (found: Option<nat>)
    ensures found == FirstLabelFrom(labels, key, 0)
  {
    found := None;
    for i := 0 to |labels|
      invariant FirstLabelFrom(labels, key, 0) == FirstLabelFrom(labels, key, i)
    {
      if MarksSection(key, labels[i].name) {
        found := Some(i);
        break;
      }
    }
  }

  /** The label of `SECTION_LABELS` an item opens a section with, if any. */
  function LabelOf(item: string): (r: Option<Label>)
    ensures r.Some? ==> r.value in SectionLabels
  {
    var found := SectionLabel(SectionLabels, item);
    if found.Some? then Some(SectionLabels[found.value]) else None
  }

  // ---------------------------------------------------------------------
  // Section boundaries. The scan is stated for any item classifier
  // `labelOf`; the form uses `LabelOf`.

  /** An entry of `section_starts`: the item's index and its label. */
  datatype Start = Start(index: nat, heading: Label)

  /** Where the section opened by `starts[k]` ends: at the next start, or at
      the end of the items. */
  function EndOf(starts: seq<Start>, k: nat, n: nat): nat
    requires k < |starts|
  {
    if k + 1 < |starts| then starts[k + 1].index else n
  }

  /** The entry item `i` contributes: one start when it opens a section. */
  function StartAt(labelOf: string -> Option<Label>, item: string, i: nat): (r: seq<Start>)
    ensures |r| <= 1
    ensures |r| == 1 <==> labelOf(item).Some?
    ensures |r| == 1 ==> r[0] == Start(i, labelOf(item).value)
  {
    if labelOf(item).Some? then [Start(i, labelOf(item).value)] else []
  }

  /** The section starts among the first `n` items, in item order. */
  function StartsUpTo(labelOf: string -> Option<Label>, items: seq<string>, n: nat): (starts: seq<Start>)
    requires n <= |items|
  {
    if n == 0 then [] else StartsUpTo(labelOf, items, n - 1) + StartAt(labelOf, items[n - 1], n - 1)
  }

  /** The boundary scan: every item is matched against the labels and each
      item that matches one is recorded with the first label it matches. */
  method FindSectionStarts(items: seq<string>) returns (starts: seq<Start>)
    ensures starts == StartsUpTo(LabelOf, items, |items|)
  {
    starts := [];
    for i := 0 to |items|
      invariant starts == StartsUpTo(LabelOf, items, i)
    {
      var found := MatchLabel(SectionLabels, LabelKey(items[i]));
      if found.Some? {
        starts := starts + [Start(i, SectionLabels[found.value])];
      }
    }
  }

  /** Indices strictly ascend and lie below `n`. */
  predicate Ascending(starts: seq<Start>, n: nat) {
    (forall k | 0 <= k < |starts| :: starts[k].index < n)
    && forall a, b | 0 <= a < b < |starts| :: starts[a].index < starts[b].index
  }

  /** The starts come out in strictly ascending item order, so sorting them
      by index changes nothing. */
  lemma {:induction false} StartsAscending(labelOf: string -> Option<Label>, items: seq<string>, n: nat)
    requires n <= |items|
    ensures Ascending(StartsUpTo(labelOf, items, n), n)
  {
    if n > 0 {
      StartsAscending(labelOf, items, n - 1);
      var before := StartsUpTo(labelOf, items, n - 1);
      var here := StartAt(labelOf, items[n - 1], n - 1);
      var starts := before + here;
      forall a, b | 0 <= a < b < |starts|
        ensures starts[a].index < starts[b].index
      {
        if b >= |before| {
          assert starts[b] == here[0];
        }
      }
    }
  }

  /** Item `i` has an entry among the starts. */
  predicate Recorded(starts: seq<Start>, i: nat) {
    exists k | 0 <= k < |starts| :: starts[k].index == i
  }

  /** An item is recorded as a start exactly when the classifier gives it
      a label, and it is recorded with that label. */
  lemma {:induction false} StartsExact(labelOf: string -> Option<Label>, items: seq<string>, n: nat, i: nat)
    requires i < n <= |items|
    ensures Recorded(StartsUpTo(labelOf, items, n), i) <==> labelOf(items[i]).Some?
    ensures forall k | 0 <= k < |StartsUpTo(labelOf, items, n)| && StartsUpTo(labelOf, items, n)[k].index == i ::
      StartsUpTo(labelOf, items, n)[k].heading == labelOf(items[i]).value
  {
    var before := StartsUpTo(labelOf, items, n - 1);
    var here := StartAt(labelOf, items[n - 1], n - 1);
    assert before + here == StartsUpTo(labelOf, items, n);
    if i < n - 1 {
      StartsExact(labelOf, items, n - 1, i);
      RecordedExtend(before, here, i);
    } else {
      StartsAscending(labelOf, items, n - 1);
      if labelOf(items[i]).Some? {
        RecordedLast(before, here[0]);
      } else {
        assert before + here == before;
      }
    }
  }

  /** Appending starts for other items changes neither whether item `i` is
      recorded nor its entry. */
  lemma RecordedExtend(before: seq<Start>, here: seq<Start>, i: nat)
    requires forall k | 0 <= k < |here| :: here[k].index != i
    ensures Recorded(before + here, i) <==> Recorded(before, i)
    ensures forall k | 0 <= k < |before + here| && (before + here)[k].index == i :: k < |before| && (before + here)[k] == before[k]
  {
    if Recorded(before, i) {
      var k :| 0 <= k < |before| && before[k].index == i;
      assert (before + here)[k].index == i;
    }
  }

  /** A start appended after lower indices is the one entry for its item. */
  lemma RecordedLast(before: seq<Start>, s: Start)
    requires forall k | 0 <= k < |before| :: before[k].index < s.index
    ensures Recorded(before + [s], s.index)
    ensures forall k | 0 <= k < |before + [s]| && (before + [s])[k].index == s.index :: (before + [s])[k] == s
  {
    assert (before + [s])[|before|] == s;
  }

  /** No item strictly inside a section, between its start and the next
      one, is given a label by the classifier. */
  lemma NothingBetweenStarts(labelOf: string -> Option<Label>, items: seq<string>, k: nat, j: nat)
    requires k < |StartsUpTo(labelOf, items, |items|)|
    requires StartsUpTo(labelOf, items, |items|)[k].index < j < EndOf(StartsUpTo(labelOf, items, |items|), k, |items|)
    requires j < |items|
    ensures labelOf(items[j]).None?
  {
    var starts := StartsUpTo(labelOf, items, |items|);
    StartsAscending(labelOf, items, |items|);
    StartsExact(labelOf, items, |items|, j);
    forall m | 0 <= m < |starts|
      ensures starts[m].index != j
    {
      if m <= k {
        assert starts[m].index <= starts[k].index;
      } else if m > k + 1 {
        assert starts[k + 1].index < starts[m].index;
      }
    }
  }

  // ---------------------------------------------------------------------
  // Section content. Stated for any inline-content extractor `inlineOf`
  // and body test `isBody`; the form uses `InlineOf` and `IsBody`.

  /** Characters `[\s.:]` between a label and its inline content. */
  predicate IsFiller(c: char) { IsSpace(c) || c == '.' || c == ':' }

  /** Backtracking of `[\s.:]*` in front of `(.+)`: the last position, at
      or before `n`, where a character other than a newline stands. */
  function LineStartAtOrBefore(t: string, n: nat): (r: Option<nat>)
    requires n <= |t|
    ensures r.Some? ==> r.value <= n && r.value < |t| && t[r.value] != '\n'
    ensures r.Some? ==> forall k | r.value < k <= n && k < |t| :: t[k] == '\n'
    ensures r.None? ==> forall k | 0 <= k <= n && k < |t| :: t[k] == '\n'
  {
    if n < |t| && t[n] != '\n' then Some(n)
    else if n == 0 then None
    else LineStartAtOrBefore(t, n - 1)
  }

  /** `re.match('(?i)' + re.escape(name) + r'[\s.:]*(.+)', text)`: where the
      text opens with `name` (ignoring case) and some character other than
      a newline follows the filler, the first group, which runs to the end
      of its line. */
  function InlineMatch(text: string, name: string): (r: Option<string>)
    ensures r.Some? ==> r.value != [] && forall k | 0 <= k < |r.value| :: r.value[k] != '\n'
  {
    if |name| <= |text| && Lower(text[..|name|]) == Lower(name) then
      var rest := text[|name|..];
      var k :- LineStartAtOrBefore(rest, RunEnd(rest, 0, IsFiller));
      var e := FindChar(rest, '\n', k);
      Some(rest[k..e])
    else None
  }

  /** The group kept from a match: the stripped group when it is longer
      than three characters. */
  function KeptGroup(g: string): (r: Option<string>)
    ensures r.Some? ==> |r.value| > 3 && IsStripped(r.value)
  {
    var t := Strip(g);
    if |t| > 3 then Some(t) else None
  }

  /** The inline content of a label item, for a matcher `matchName` that
      tries one name against the item: the names are tried in order, the
      first that matches ends the search, and its group is kept only when,
      stripped, it is longer than three characters. */
  function InlineContent(matchName: string -> Option<string>, names: seq<string>): (r: Option<string>)
    ensures r.Some? ==> |r.value| > 3 && IsStripped(r.value)
  {
    if names == [] then None
    else match matchName(names[0])
      case Some(g) => KeptGroup(g)
      case None => InlineContent(matchName, names[1..])
  }

  /** The first name that matches decides, whether or not its group is
      kept. */
  lemma {:induction false} InlineContentFirstMatch(matchName: string -> Option<string>, names: seq<string>, i: nat)
    requires i < |names| && matchName(names[i]).Some?
    requires forall k | 0 <= k < i :: matchName(names[k]).None?
    ensures InlineContent(matchName, names) == KeptGroup(matchName(names[i]).value)
  {
    if i > 0 {
      assert forall k | 0 <= k < i - 1 :: names[1..][k] == names[k + 1];
      InlineContentFirstMatch(matchName, names[1..], i - 1);
    }
  }

  /** No inline content when no name matches. */
  lemma {:induction false} InlineContentNone(matchName: string -> Option<string>, names: seq<string>)
    requires forall k | 0 <= k < |names| :: matchName(names[k]).None?
    ensures InlineContent(matchName, names).None?
  {
    if names != [] {
      assert forall k | 0 <= k < |names| - 1 :: names[1..][k] == names[k + 1];
      InlineContentNone(matchName, names[1..]);
    }
  }

  /** `InlineMatch` against the text of one item. */
  function MatcherFor(text: string): string -> Option<string> {
    name => InlineMatch(text, name)
  }

  /** The inline content of the form's label items. */
  function InlineOf(item: string): (r: Option<string>)
    ensures r.Some? ==> |r.value| > 3
  {
    InlineContent(MatcherFor(LabelText(item)), InlineNames(SectionLabels))
  }

  /** The test that skips a body item that is itself a label: its
      trimmed, lower-cased text `t` is one of the labels from position `i`
      on, or starts with one and a colon or a period. */
  predicate NamesLabelFrom(labels: seq<Label>, t: string, i: nat)
    requires i <= |labels|
    decreases |labels| - i
  {
    i < |labels| &&
    (t == labels[i].name || StartsWith(t, labels[i].name + ":") || StartsWith(t, labels[i].name + ".")
     || NamesLabelFrom(labels, t, i + 1))
  }

  /** The skip test applied to an item's label text. */
  predicate IsLabelItem(labels: seq<Label>, item: string) {
    NamesLabelFrom(labels, TrimEnd(LabelKey(item)), 0)
  }

  /** An item kept as section body: longer than one character and not a
      label. */
  predicate IsBody(item: string) {
    |item| > 1 && !IsLabelItem(SectionLabels, item)
  }

  /** The body items among `items[lo..hi]`, in order. */
  function BodyParts(isBody: string -> bool, items: seq<string>, lo: nat, hi: nat): (r: seq<string>)
    requires hi <= |items|
    ensures forall k | 0 <= k < |r| :: isBody(r[k])
    decreases hi
  {
    if hi <= lo then []
    else BodyParts(isBody, items, lo, hi - 1) + (if isBody(items[hi - 1]) then [items[hi - 1]] else [])
  }

  /** Every start refers to an item. */
  predicate InRange(starts: seq<Start>, n: nat) {
    forall k | 0 <= k < |starts| :: starts[k].index < n
  }

  /** The text gathered for the section opened by `starts[k]`: its inline
      content, then the body items up to the next start. */
  function SectionParts(inlineOf: string -> Option<string>, isBody: string -> bool, items: seq<string>,
                        starts: seq<Start>, k: nat): (parts: seq<string>)
    requires k < |starts| && InRange(starts, |items|)
  {
    var start := starts[k].index;
    var inline := inlineOf(items[start]);
    (if inline.Some? then [inline.value] else []) + BodyParts(isBody, items, start + 1, EndOf(starts, k, |items|))
  }

  /** The body loop: the items of `items[lo..hi]` that pass `isBody`. */
  method GatherBody(isBody: string -> bool, items: seq<string>, lo: nat, hi: nat) returns (body: seq<string>)
    requires lo <= |items| && hi <= |items|
    ensures body == BodyParts(isBody, items, lo, hi)
  {
    body := [];
    var j := lo;
    while j < hi
      invariant lo <= j <= |items| && (j == lo || j <= hi)
      invariant body == BodyParts(isBody, items, lo, j)
    {
      if isBody(items[j]) {
        body := body + [items[j]];
      }
      j := j + 1;
    }
    if hi <= lo {
      assert BodyParts(isBody, items, lo, hi) == [];
    }
  }

  /** Gathers one section's text: the inline content of its label item,
      then the body items up to the next start. */
  method GatherParts(inlineOf: string -> Option<string>, isBody: string -> bool, items: seq<string>,
                     starts: seq<Start>, k: nat) returns (parts: seq<string>)
    requires k < |starts| && InRange(starts, |items|)
    ensures parts == SectionParts(inlineOf, isBody, items, starts, k)
  {
    var start := starts[k].index;
    var end := if k + 1 < |starts| then starts[k + 1].index else |items|;
    parts := [];
    var inline := inlineOf(items[start]);
    if inline.Some? {
      parts := parts + [inline.value];
    }
    var body := GatherBody(isBody, items, start + 1, end);
    parts := parts + body;
  }

  /** Start `k` opens field `f` and gathered some text. */
  predicate Fills(inlineOf: string -> Option<string>, isBody: string -> bool, items: seq<string>,
                  starts: seq<Start>, k: nat, f: nat)
    requires k < |starts| && InRange(starts, |items|)
  {
    starts[k].heading.field == Some(f) && SectionParts(inlineOf, isBody, items, starts, k) != []
  }

  /** The `sections` dictionary after the first `n` starts: a numbered
      section that gathered text stores it joined with spaces, replacing
      what an earlier section of the same number stored. */
  function SectionsUpTo(inlineOf: string -> Option<string>, isBody: string -> bool, items: seq<string>,
                        starts: seq<Start>, n: nat): map<nat, string>
    requires n <= |starts| && InRange(starts, |items|)
  {
    if n == 0 then map[]
    else
      var before := SectionsUpTo(inlineOf, isBody, items, starts, n - 1);
      var field := starts[n - 1].heading.field;
      var parts := SectionParts(inlineOf, isBody, items, starts, n - 1);
      if field.Some? && parts != [] then before[field.value := Join(parts, " ")] else before
  }

  /** The aggregation loop over the sorted starts. */
  method CollectSections(inlineOf: string -> Option<string>, isBody: string -> bool, items: seq<string>,
                         starts: seq<Start>) returns (sections: map<nat, string>)
    requires InRange(starts, |items|)
    ensures sections == SectionsUpTo(inlineOf, isBody, items, starts, |starts|)
  {
    sections := map[];
    for k := 0 to |starts|
      invariant sections == SectionsUpTo(inlineOf, isBody, items, starts, k)
    {
      var field := starts[k].heading.field;
      if field.None? {
        continue;
      }
      var parts := GatherParts(inlineOf, isBody, items, starts, k);
      if parts != [] {
        sections := sections[field.value := Join(parts, " ")];
      }
    }
  }

  /** A field holds the text of the last section of its number that
      gathered any. */
  lemma {:induction false} LastSectionWins(inlineOf: string -> Option<string>, isBody: string -> bool,
                                           items: seq<string>, starts: seq<Start>, n: nat, k: nat, f: nat)
    requires k < n <= |starts| && InRange(starts, |items|)
    requires Fills(inlineOf, isBody, items, starts, k, f)
    requires forall m | k < m < n :: !Fills(inlineOf, isBody, items, starts, m, f)
    ensures f in SectionsUpTo(inlineOf, isBody, items, starts, n)
    ensures SectionsUpTo(inlineOf, isBody, items, starts, n)[f] == Join(SectionParts(inlineOf, isBody, items, starts, k), " ")
  {
    if k < n - 1 {
      LastSectionWins(inlineOf, isBody, items, starts, n - 1, k, f);
      assert !Fills(inlineOf, isBody, items, starts, n - 1, f);
    }
  }

  /** A field that no section filled is missing from the dictionary. */
  lemma {:induction false} UnfilledMissing(inlineOf: string -> Option<string>, isBody: string -> bool,
                                           items: seq<string>, starts: seq<Start>, n: nat, f: nat)
    requires n <= |starts| && InRange(starts, |items|)
    requires forall m | 0 <= m < n :: !Fills(inlineOf, isBody, items, starts, m, f)
    ensures f !in SectionsUpTo(inlineOf, isBody, items, starts, n)
  {
    if n > 0 {
      UnfilledMissing(inlineOf, isBody, items, starts, n - 1, f);
      assert !Fills(inlineOf, isBody, items, starts, n - 1, f);
    }
  }

  /** A label that the skip test finds is one the boundary scan's test
      finds as well. */
  lemma {:induction false} NamedLabelMarks(labels: seq<Label>, key: string, i: nat) returns (k: nat)
    requires i <= |labels| && NamesLabelFrom(labels, TrimEnd(key), i)
    ensures i <= k < |labels| && MarksSection(key, labels[k].name)
    decreases |labels| - i
  {
    var t := TrimEnd(key);
    var w := labels[i].name;
    if t == w {
      k := i;
    } else if StartsWith(t, w + ":") || StartsWith(t, w + ".") {
      var p := if StartsWith(t, w + ":") then w + ":" else w + ".";
      assert key[..|p|] == t[..|p|];
      k := i;
    } else {
      k := NamedLabelMarks(labels, key, i + 1);
    }
  }

  /** An item the body loop would skip as a label is one the boundary scan
      records as a start. */
  lemma LabelItemIsStart(labels: seq<Label>, item: string)
    requires IsLabelItem(labels, item)
    ensures SectionLabel(labels, item).Some?
  {
    var k := NamedLabelMarks(labels, LabelKey(item), 0);
  }

  /** Between two consecutive starts of the boundary scan lies no item that
      is itself a label, so the label skip of the body loop never fires:
      the body of a section is simply its items longer than one
      character. */
  lemma NoLabelInsideSection(items: seq<string>, k: nat, j: nat)
    requires k < |StartsUpTo(LabelOf, items, |items|)|
    requires StartsUpTo(LabelOf, items, |items|)[k].index < j < EndOf(StartsUpTo(LabelOf, items, |items|), k, |items|)
    requires j < |items|
    ensures !IsLabelItem(SectionLabels, items[j])
  {
    NothingBetweenStarts(LabelOf, items, k, j);
    if IsLabelItem(SectionLabels, items[j]) {
      LabelItemIsStart(SectionLabels, items[j]);
    }
  }

  // ---------------------------------------------------------------------
  // Staff considerations

  /** The first item from `i` on that mentions "special handling". */
  function FirstMention(items: seq<string>, i: nat): (r: Option<nat>)
    requires i <= |items|
    ensures r.Some? ==> i <= r.value < |items| && Contains(Lower(items[r.value]), "special handling")
    ensures r.Some? ==> forall k | i <= k < r.value :: !Contains(Lower(items[k]), "special handling")
    ensures r.None? ==> forall k | i <= k < |items| :: !Contains(Lower(items[k]), "special handling")
    decreases |items| - i
  {
    if i == |items| then None
    else if Contains(Lower(items[i]), "special handling") then Some(i)
    else FirstMention(items, i + 1)
  }

  /** The non-empty items among the four after `i`, joined with spaces. */
  function StaffAfter(items: seq<string>, i: nat): (r: Option<string>)
    requires i < |items|
  {
    var upTo := if i + 5 < |items| then i + 5 else |items|;
    var parts := NonEmpty(items[i + 1..upTo]);
    if parts == [] then None else Some(Join(parts, " "))
  }

  /** The staff considerations: found after the first item that mentions
      special handling, and absent when no item does. */
  function StaffOf(items: seq<string>): (r: Option<string>)
  {
    match FirstMention(items, 0)
    case None => None
    case Some(i) => StaffAfter(items, i)
  }

  /** Gathers the non-empty items among the four after `i`. */
  method StaffAfterMention(items: seq<string>, i: nat) returns (staff: Option<string>)
    requires i < |items|
    ensures staff == StaffAfter(items, i)
  {
    var upTo := if i + 5 < |items| then i + 5 else |items|;
    var window := items[i + 1..upTo];
    var parts: seq<string> := [];
    for j := 0 to |window|
      invariant parts == NonEmpty(window[..j])
    {
      NonEmptyAppend(window[..j], window[j]);
      assert window[..j + 1] == window[..j] + [window[j]];
      if window[j] != "" {
        parts := parts + [window[j]];
      }
    }
    assert window[..|window|] == window;
    staff := if parts == [] then None else Some(Join(parts, " "));
  }

  /** The staff-considerations loop: stops at the first mention. */
  method StaffConsiderations(items: seq<string>) returns (staff: Option<string>)
    ensures staff == StaffOf(items)
  {
    staff := None;
    for i := 0 to |items|
      invariant FirstMention(items, 0) == FirstMention(items, i)
    {
      if Contains(Lower(items[i]), "special handling") {
        staff := StaffAfterMention(items, i);
        return;
      }
    }
  }

  /** Filtering an extended list extends the filtered list. */
  lemma {:induction false} NonEmptyAppend(xs: seq<string>, x: string)
    ensures NonEmpty(xs + [x]) == NonEmpty(xs) + (if x != "" then [x] else [])
  {
    if xs != [] {
      assert (xs + [x])[1..] == xs[1..] + [x];
      NonEmptyAppend(xs[1..], x);
    } else {
      assert [] + [x] == [x];
    }
  }

  // ---------------------------------------------------------------------
  // Validation and assembly

  /** What the header scan found in the items. */
  datatype Header = Header(title: Option<string>, requestor: Option<string>, date: Option<string>, email: Option<string>)

  /** `email or requestor`. */
  function RequestorId(header: Header): Option<string> {
    if Truthy(header.email) then header.email else header.requestor
  }

  /** `sections.get(f)` after boilerplate removal. */
  function CleanField(sections: map<nat, string>, f: nat): (r: Option<string>)
    ensures r.Some? ==> IsStripped(r.value) && SingleSpaced(r.value)
    ensures r.Some? <==> f in sections
  {
    if f in sections then Some(Boilerplate.WithoutBoilerplate(sections[f])) else None
  }

  /** Applies `strip_boilerplate` to every stored section. */
  method StripSections(sections: map<nat, string>) returns (cleaned: map<nat, string>)
    ensures cleaned.Keys == sections.Keys
    ensures forall f | f in sections :: cleaned[f] == Boilerplate.WithoutBoilerplate(sections[f])
  {
    cleaned := sections;
    var pending := sections.Keys;
    while pending != {}
      invariant pending <= sections.Keys && cleaned.Keys == sections.Keys
      invariant forall f | f in sections && f !in pending :: cleaned[f] == Boilerplate.WithoutBoilerplate(sections[f])
      decreases |pending|
    {
      var f :| f in pending;
      var s := Boilerplate.StripBoilerplate(sections[f]);
      cleaned := cleaned[f := s];
      pending := pending - {f};
    }
  }

  /** The sections a list of items yields. */
  function SectionsOf(items: seq<string>): map<nat, string> {
    var starts := StartsUpTo(LabelOf, items, |items|);
    StartsAscending(LabelOf, items, |items|);
    SectionsUpTo(InlineOf, IsBody, items, starts, |starts|)
  }

  /** The extraction after conversion. No form when the document has no
      text entries, when no date was found, or when neither an e-mail (or
      Badger ID) nor a requestor was found. Otherwise the form carries the
      date, the e-mail in preference to the requestor, the title, sections
      1, 3, 4 and 5 with the boilerplate removed, the staff considerations,
      and the non-empty items joined with newlines. */
  method ExtractFromItems(texts: seq<Option<string>>, filename: string, header: Header)
    returns (form: Option<PromForm>)
    ensures form.Some? <==> texts != [] && Truthy(header.date) && (Truthy(header.email) || Truthy(header.requestor))
    ensures form.Some? ==>
      var items := seq(|texts|, k requires 0 <= k < |texts| => NormalizeItem(texts[k]));
      var sections := SectionsOf(items);
      form.value == PromForm(
        date := header.date,
        filename := filename,
        requestor := RequestorId(header),
        requestTitle := header.title,
        chemicalsAndProcesses := CleanField(sections, 1),
        requestReason := CleanField(sections, 3),
        processFlow := CleanField(sections, 4),
        amountAndForm := CleanField(sections, 5),
        staffConsiderations := StaffOf(items),
        rawProm := Some(Join(NonEmpty(items), "\n")),
        embeddedString := None)
    ensures form.Some? ==> Truthy(form.value.requestor)
    ensures form.Some? && Truthy(header.email) ==> form.value.requestor == header.email
    ensures form.Some? && !Truthy(header.email) ==> form.value.requestor == header.requestor
  {
    if texts == [] {
      return None;
    }
    var items := NormalizeItems(texts);
    assert items == seq(|texts|, k requires 0 <= k < |texts| => NormalizeItem(texts[k]));
    var starts := FindSectionStarts(items);
    StartsAscending(LabelOf, items, |items|);
    var sections := CollectSections(InlineOf, IsBody, items, starts);
    var staff := StaffConsiderations(items);
    if !Truthy(header.date) {
      return None;
    }
    var requestorId := RequestorId(header);
    if !Truthy(requestorId) {
      return None;
    }
    var cleaned := StripSections(sections);
    form := Some(PromForm(
      date := header.date,
      filename := filename,
      requestor := requestorId,
      requestTitle := header.title,
      chemicalsAndProcesses := if 1 in cleaned then Some(cleaned[1]) else None,
      requestReason := if 3 in cleaned then Some(cleaned[3]) else None,
      processFlow := if 4 in cleaned then Some(cleaned[4]) else None,
      amountAndForm := if 5 in cleaned then Some(cleaned[5]) else None,
      staffConsiderations := staff,
      rawProm := Some(Join(NonEmpty(items), "\n")),
      embeddedString := None));
  }
}
