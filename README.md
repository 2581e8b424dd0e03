# PROM request and e-mail archive pre-processing, modelled in Dafny

The system indexes two kinds of documents about chemical and process
approval requests ("PROM" forms) so that they can be searched later:

* an mbox archive of the approval mailing list, which is cut into
  threads. Each thread is filed under the date and sender of its first
  message (`app/orderEmails.py`). The body of each message is cleaned of
  headers, quoted history, footers and signatures
  (`preprocessing/filter_emails.py`);
* the request forms themselves. Their text entries are split into the
  numbered sections of the form, boilerplate is removed, dates are
  normalised to `MM/DD/YYYY`, and the string to embed is built
  (`preprocessing/promTothread.py`). Duplicates are then filtered out of
  the batch (`preprocessing/prom_pipeline.py`).

This project models that core in Dafny and proves properties of it.

* Archive scanning (`MboxScan`). `parse_mbox_threads` is a method over the
  archive's lines, as `readline` returns them. It is proved equal to a fold
  `Run` of one step per line. Lemmas about the fold cover the following:
  * the references recorded for a message are the ones pending at its
    `Message-ID:` line;
  * the order list holds the message ids in the order they occur;
  * every message's end offset lies between its start offset and the end
    of the file.
* Threads (`Threads`).
  * `parent_emails`, `join_emails_by_root` and the order-position sort.
  * The grouping of `create_dict_of_threads`. It is a method over the
    roots, proved equal to a function that is parametric over "the thread
    of a root" and "the label of a root". A label whose month
    abbreviation `strptime` rejects, or whose display name fails to
    decode, is modelled as the exception it raises.
  * `get_email_by_msgid`. It returns exactly the text slice between the
    recorded offsets.
* Identity lines (`Identity`). `format_identifier_line` and
  `extract_name_from_second_line` are consumers of the line. Round-trip
  lemmas read back the parts of a line built from them.
* Body cleaning (`EmailPatterns`, `BodyCleaner`).
  * The regular expressions of `filter_emails.py` are predicates.
  * `extract_main_message` is a loop whose body applies the rules in
    source order. It is proved to compute `MainMessage`, the fold of a
    step function.
  * Invariants of the output: no leading, trailing or doubled blank
    lines. Every kept line is the cleaned form of an input line.
  * Rule-level lemmas cover headers, quotes, notices and signatures.
* PROM text (`PromDates`, `PromText`, `Boilerplate`).
  * `parse_date_from_text` covers all ten pattern groups, tried in order
    over the cleaned text.
  * `strip_bullets`.
  * `strip_boilerplate`, over a small matcher for the pattern fragment
    its table uses.
  * `build_embed_string`.
* Section extraction (`PromSections`).
  * The part of `extract_prom_unified` that works on the converted text
    entries: normalising the entries, finding the section starts,
    aggregating each section's inline and body content, the staff
    considerations, validation and the final form.
  * The header fields found by the earlier scan are an input.
* Batch steps (`PromPipeline`). `process_file`, with the extractor as a
  parameter, and `filter_duplicates`, with the properties of a
  first-occurrence filter.

`Text` holds the Python string operations the core relies on: `strip`,
`lower`, `splitlines`, `join`, `in`, `re.search` as a leftmost search and
`re.sub` as a left-to-right pass. `Models` holds the `PromForm` record.

## Model

| member | source | states |
|---|---|---|
| MboxScan.MessageIdOf | app/orderEmails.py:10 | a `Message-ID:` line yields a non-empty id without `>` |
| MboxScan.AngleTokensFrom | app/orderEmails.py:13 | every `<...>` token found is non-empty and free of `>` |
| MboxScan.Put | app/orderEmails.py:78-79 | storing a key keeps the dictionary's key list consistent, updates exactly that key, and appends the key to the insertion order only when it is new |
| MboxScan.Scan | app/orderEmails.py:42-49 | one scanned entry per line read |
| MboxScan.ScanOneMore | app/orderEmails.py:44-45 | reading one more line appends its kind at the running character offset, and advances the fold by one step |
| MboxScan.ScanPrefix | app/orderEmails.py:44-45 | scanning a prefix of the archive gives the prefix of the scan, with each line's offset equal to the length of the text before it |
| MboxScan.ParseMboxThreads | app/orderEmails.py:24-86 | the loop returns the references, start and end tables and order list of the fold over all lines, closed at end of file |
| MboxScan.ScanLine | app/orderEmails.py:52-83 | one iteration of the loop body is one step of the fold |
| MboxScan.LastEnvelope | app/orderEmails.py:52-59 | finds the last envelope line, with none after it |
| MboxScan.LastIdLine | app/orderEmails.py:75-80 | finds the last `Message-ID:` line for an id |
| MboxScan.ScanStartsAscend | app/orderEmails.py:44 | line offsets ascend and stay within the text |
| MboxScan.RunTracksOpenMessage | app/orderEmails.py:57-64 | the open message's start is the last envelope's offset (0 before any), and its pending references are those read since |
| MboxScan.OrderIsMessageIdLines | app/orderEmails.py:80 | the order list is the ids of the `Message-ID:` lines in file order |
| MboxScan.RunTablesAgree | app/orderEmails.py:78-80 | every id in the references table has a start and appears in the order list |
| MboxScan.ScanTablesAgree | app/orderEmails.py:24-86 | the same for the whole archive |
| MboxScan.StepKeepsTablesAgree | app/orderEmails.py:52-83 | one step keeps the tables in agreement |
| MboxScan.StepRecordsId | app/orderEmails.py:75-80 | a `Message-ID:` line records a copy of the pending references and the current start (0 if none) |
| MboxScan.StepKeepsEntry | app/orderEmails.py:52-83 | any other line leaves an id's recorded entries unchanged |
| MboxScan.RefsAreSnapshotAtMessageId | app/orderEmails.py:66-80 | an id is recorded iff it has a `Message-ID:` line, and its references and start are those pending at its last such line |
| MboxScan.CurrentIdMeansIdSinceEnvelope | app/orderEmails.py:57-77 | a current id is open iff a `Message-ID:` line was read since the last envelope |
| MboxScan.RunEndsFollowStarts | app/orderEmails.py:36-54 | with one id per message, each recorded end is at or after its start |
| MboxScan.StepKeepsEndsFollowStarts | app/orderEmails.py:52-59 | one step keeps ends after starts |
| MboxScan.ClosedEndsFollowStarts | app/orderEmails.py:46-48 | closing at end of file keeps every end within the file, and gives the open message the end-of-file offset |
| MboxScan.EveryEndFollowsItsStart | app/orderEmails.py:24-86 | for the whole archive, every end lies between its start and the file's end |
| MboxScan.EnvelopeClosesAndOpens | app/orderEmails.py:52-60 | an envelope line closes the open message at the line's offset and opens a fresh one |
| Threads.Filter | app/orderEmails.py:90 | a filtered list is no longer than its input |
| Threads.FilterMembers | app/orderEmails.py:90 | an element is kept iff it is in the input and passes the test |
| Threads.FilterDistinct | app/orderEmails.py:90 | filtering keeps the elements distinct |
| Threads.ParentEmailsAreRoots | app/orderEmails.py:89-90 | the roots are exactly the messages with no references, without repeats |
| Threads.JoinEmailsByRoot | app/orderEmails.py:93-99 | the loop returns the root followed by the replies that reference it |
| Threads.JoinedThreadMembers | app/orderEmails.py:93-99 | a thread starts with its root, holds exactly the root and the messages referencing it, and has no repeats |
| Threads.LastIndex | app/orderEmails.py:115 | the position the comprehension keeps for an id is its last occurrence, and none when absent |
| Threads.Insert | app/orderEmails.py:123 | inserting adds exactly the element |
| Threads.SortByPosition | app/orderEmails.py:123 | the sort is a permutation |
| Threads.SortedSnoc | app/orderEmails.py:123 | appending an element whose position is not smaller keeps the list sorted |
| Threads.InsertSorted | app/orderEmails.py:123 | insertion keeps the list sorted by order position |
| Threads.InsertDistinct | app/orderEmails.py:123 | insertion of a new element keeps the list distinct |
| Threads.SortByPositionSorted | app/orderEmails.py:123 | the sort's result is sorted by position, and distinct when its input is |
| Threads.ThreadOf | app/orderEmails.py:121-123 | a thread is the joined thread, sorted by order position, and contains its root |
| Threads.ThreadFollowsArchiveOrder | app/orderEmails.py:115-126 | a sorted thread has exactly the joined members, each with a start and a position in the order list, in strictly increasing position |
| Threads.ReadLineAt | app/orderEmails.py:128-130 | `readline` at an offset returns the next line of the text, ending at a newline or at the end of the text |
| Threads.ConcatPrefix | app/orderEmails.py:42-45 | the text before a line is a prefix of the archive text |
| Threads.LineInText | app/orderEmails.py:42-45 | each line sits in the archive text at its offset |
| Threads.ReadLineAtLine | app/orderEmails.py:128-130 | reading at a line's offset gives back that line |
| Threads.ReadLineOfShapedLine | app/orderEmails.py:128-130 | reading at the offset of a line-shaped slice gives that slice |
| Threads.MessageStartsAtEnvelope | app/orderEmails.py:57-64 | a message's start is 0 or the offset of an envelope line |
| Threads.Append | app/orderEmails.py:137 | appending to a default-list dictionary adds the thread under its key and changes no other key |
| Threads.GroupThreadsSnoc | app/orderEmails.py:119-139 | grouping one more root is a further visit, unless an earlier root raised |
| Threads.GroupThreadsStep | app/orderEmails.py:119-139 | a root whose visit raises makes the whole grouping raise |
| Threads.GroupThreadsWhole | app/orderEmails.py:119 | grouping over all roots is the grouping of the full slice |
| Threads.GroupThreadsRaisesOn | app/orderEmails.py:119-139 | once a prefix raises, the whole grouping raises |
| Threads.CreateDictOfThreads | app/orderEmails.py:102-143 | the function returns the threads filed by label, the start and end tables and the names, or raises, as the grouping over the scanned archive does |
| Threads.FileThreads | app/orderEmails.py:118-139 | the loop over the roots computes the grouping function |
| Threads.FileRoot | app/orderEmails.py:120-137 | one iteration files one root's thread, and records its name when the label is non-empty and a name was found |
| Threads.GroupThreadsRaises | app/orderEmails.py:119-139 | the grouping raises iff some root with a non-empty thread has a label that raises |
| Threads.SomeRootRaisesSnoc | app/orderEmails.py:119-139 | the raising root is among the earlier ones or is the last |
| Threads.GroupThreadsFiles | app/orderEmails.py:137 | each label holds exactly the threads of the roots filed under it, in root order |
| Threads.GroupThreadsNames | app/orderEmails.py:134-135 | a label has a name iff some root filed under it yields one, and the last such name wins |
| Threads.ThreadStartsAtRoot | app/orderEmails.py:121-126 | on the scanner's tables a root's sorted thread is never empty and its first message has a start offset, so `msg_start[first_msg_id]` never raises |
| Threads.LabelRaisesOnMonth | app/orderEmails.py:125-132 | a thread's label raises iff its first envelope line matches with a month abbreviation outside the calendar, or the month is fine and the display name on the next line fails to decode |
| Threads.LinesRaiseOnMonth | app/orderEmails.py:129-132 | the same for the two lines read, with the first line read before the second |
| Threads.ReadAt | app/orderEmails.py:198-204 | `f.read(n)` after `seek(s)` returns the next `n` characters, capped at the end, or the rest for negative `n` |
| Threads.BracketedIdFindsSameMessage | app/orderEmails.py:189-191 | an id given in angle brackets and padding finds the same message as the bare id |
| Threads.PlainIdIsItself | app/orderEmails.py:189-191 | a stripped id without brackets is used as given |
| Threads.BracketedIdIsUnwrapped | app/orderEmails.py:189-191 | padding and one pair of brackets are removed |
| Threads.UnwrapBrackets | app/orderEmails.py:189-191 | an id that strips to `<id>` normalises to `id` |
| Threads.PaddingStripped | app/orderEmails.py:189 | stripping removes the padding around a stripped id |
| Threads.ReadAtSlice | app/orderEmails.py:203-204 | reading `e - s` characters from `s` is the slice from `s` to `e` |
| Threads.LookupIsSlice | app/orderEmails.py:193-204 | an unknown id gives none, and a known one gives the text between its start and end |
| Threads.ArchiveLookupIsMessageSlice | app/orderEmails.py:188-204 | for a scanned archive, the lookup returns exactly the recorded message's text, or none for an id that was not recorded |
| Identity.SenderFrom | app/orderEmails.py:150 | the sender stage reads non-empty local part and domain |
| Identity.MonthFrom | app/orderEmails.py:150 | the month stage reads a three-letter token |
| Identity.DayFrom | app/orderEmails.py:150 | the day stage reads one or two digits |
| Identity.YearFrom | app/orderEmails.py:150 | the year stage reads four digits |
| Identity.DayYearFrom | app/orderEmails.py:150 | the day and year read are digit strings of the right widths |
| Identity.EnvelopeAt | app/orderEmails.py:149-152 | a match at an offset has well-formed parts |
| Identity.EnvelopeFrom | app/orderEmails.py:150 | a match at the start of a text has well-formed parts |
| Identity.SearchEnvelope | app/orderEmails.py:149-152 | a search result has well-formed parts |
| Identity.MonthNumber | app/orderEmails.py:165 | `strptime("%b")` gives a month number from 1 to 12 |
| Identity.DateKey | app/orderEmails.py:167 | the key is two-digit month, two-digit day and the year, separated by slashes, with the values read |
| Identity.SearchEnvelopeNone | app/orderEmails.py:149-153 | the search fails iff no offset matches |
| Identity.FormatIdentifierLineEmptyIffNoMatch | app/orderEmails.py:153-155 | the empty pair is returned iff the line has no match |
| Identity.FormatIdentifierLineRaises | app/orderEmails.py:160-165 | the function raises iff the matched month is not a month abbreviation |
| Identity.SenderReadsLocal | app/orderEmails.py:150 | the local part of a built line is read back |
| Identity.SenderReadsDomain | app/orderEmails.py:150 | the domain of a built line is read back |
| Identity.SenderReads | app/orderEmails.py:150-157 | local part and domain are read back |
| Identity.MonthReads | app/orderEmails.py:150-160 | the month is read back after the weekday |
| Identity.DayReads | app/orderEmails.py:150-161 | the day is read back |
| Identity.YearReads | app/orderEmails.py:150-162 | the year is read back after the time |
| Identity.DayYearReads | app/orderEmails.py:150 | day and year are read back |
| Identity.DateReads | app/orderEmails.py:150-162 | month, day and year are read back |
| Identity.EnvelopeAtReadsLine | app/orderEmails.py:149-152 | a built envelope line matches at 0 with its own parts |
| Identity.EnvelopeAtFromStages | app/orderEmails.py:150 | the stages compose into the match at 0 |
| Identity.EnvelopeFromStages | app/orderEmails.py:150 | the stages compose into the match of a text |
| Identity.FormatIdentifierLineReadsEnvelope | app/orderEmails.py:148-169 | a built envelope line gives `(MM/DD/YYYY, local@domain)`, or raises when the month is not one |
| Identity.ParenGroup | app/orderEmails.py:174 | the group read is non-empty and free of `)` |
| Identity.Squash | app/orderEmails.py:180 | lower-casing and removing whitespace leaves no space and no capital |
| Identity.RemoveSpaceKeeps | app/orderEmails.py:180 | removing whitespace keeps only characters of the input |
| Identity.ExtractNameFromSecondLine | app/orderEmails.py:172-184 | a name returned has no space and no capital; the function raises only when the line has a `From: … (Name)` match and decoding that name raises |
| Identity.LazySkipsAddress | app/orderEmails.py:174 | the lazy `.*?` skips an address without parentheses |
| Identity.ParenReadsName | app/orderEmails.py:174 | the group of `(name)rest` is `name` |
| Identity.ExtractNameReadsFromHeader | app/orderEmails.py:172-184 | `From: addr (Name)` gives the stripped, lower-cased, space-free name; when it mentions `utf-8` it is decoded first, and a decoding error propagates |
| Identity.NoFromHeaderNoName | app/orderEmails.py:174-176 | a line without `From:` gives the empty name |
| Identity.LazyParenNeedsClose | app/orderEmails.py:174 | the part of the pattern after `From:`, `.*?\(([^)]+)\)`, matches nothing in a text without `)` |
| Identity.NoCloseParenNoName | app/orderEmails.py:174-176 | a line without `)`, such as `From: someone@example.org`, gives the empty name and never calls the decoder |
| EmailPatterns.HeaderKey | preprocessing/filter_emails.py:13 | a header key starts with a letter, uses letters, digits and `-`, and is followed by `:` |
| EmailPatterns.AngleOnWroteIsQuoted | preprocessing/filter_emails.py:21 | an angle-quoted "On ... wrote:" line starts with `>` |
| EmailPatterns.CleanLine | preprocessing/filter_emails.py:316-319 | removing placeholders and mailto links gives a stripped line no longer than the input |
| BodyCleaner.InitialTidy | preprocessing/filter_emails.py:168-178 | the initial loop variables satisfy the output invariant |
| BodyCleaner.NextLine | preprocessing/filter_emails.py:271 | the next line is the stripped following line, or empty at the end |
| BodyCleaner.CountWhere | preprocessing/filter_emails.py:151-154 | the count is at most the window size |
| BodyCleaner.CountWherePositive | preprocessing/filter_emails.py:151-154 | the count is positive iff some line in the window qualifies |
| BodyCleaner.CountWhereTwo | preprocessing/filter_emails.py:151-158 | when the current line qualifies, the count reaches two iff another line in the window does |
| BodyCleaner.IsInlineQuotedHeaderBlock | preprocessing/filter_emails.py:132-158 | the loop says yes iff the line starts with a header keyword and another line within three before or after does too |
| BodyCleaner.NextLinesSayWrote | preprocessing/filter_emails.py:254-258 | the lookahead succeeds iff one of the next two lines is non-empty and contains `wrote:` |
| BodyCleaner.LineSignals | preprocessing/filter_emails.py:316-319 | the signals of a line record whether it is blank and its cleaned form |
| BodyCleaner.AllSignals | preprocessing/filter_emails.py:180 | one signal record per line |
| BodyCleaner.Step | preprocessing/filter_emails.py:180-361 | after a stop nothing changes; the header region ends at the first blank line; each rule keeps the output invariant |
| BodyCleaner.MarkerRules | preprocessing/filter_emails.py:212-234 | the marker rules keep the output invariant |
| BodyCleaner.QuoteRules | preprocessing/filter_emails.py:236-281 | the quote rules keep the output invariant |
| BodyCleaner.FooterRules | preprocessing/filter_emails.py:283-314 | the footer rules keep the output invariant and keep nothing inside a notice |
| BodyCleaner.SignatureRules | preprocessing/filter_emails.py:316-352 | inside a signature a line of at most 80 characters is dropped |
| BodyCleaner.Keep | preprocessing/filter_emails.py:352-361 | a non-empty line is appended; a blank one only after body text and not after another blank |
| BodyCleaner.AppendKeepsPairs | preprocessing/filter_emails.py:360-361 | appending keeps the output free of two blank lines in a row |
| BodyCleaner.StepKeepsTidy | preprocessing/filter_emails.py:180-361 | one line keeps the invariant: no leading blank, no doubled blank, `saw_body` iff output, at most two consecutive inline header lines without a stop |
| BodyCleaner.Run | preprocessing/filter_emails.py:180-361 | the output has at most one line per input line |
| BodyCleaner.RunIsTidy | preprocessing/filter_emails.py:180-361 | the invariant holds after any number of lines |
| BodyCleaner.DropTrailingBlanks | preprocessing/filter_emails.py:364-365 | popping leaves a prefix not ending in a blank, having removed only blanks |
| BodyCleaner.Kept | preprocessing/filter_emails.py:180-365 | the kept lines neither start nor end with a blank and hold no two blanks in a row |
| BodyCleaner.ApplyHeaderRules | preprocessing/filter_emails.py:181-210 | the header rules and the rest of the loop body compute one step |
| BodyCleaner.ApplyMarkerRules | preprocessing/filter_emails.py:212-234 | the statements compute the marker rules |
| BodyCleaner.ApplyQuoteRules | preprocessing/filter_emails.py:236-281 | the statements compute the quote rules |
| BodyCleaner.ApplyFooterRules | preprocessing/filter_emails.py:283-314 | the statements compute the footer rules |
| BodyCleaner.ApplySignatureRules | preprocessing/filter_emails.py:316-361 | the statements compute the signature rules and the keep step |
| BodyCleaner.CleanPass | preprocessing/filter_emails.py:180-361 | the loop computes the fold over all lines |
| BodyCleaner.ScanLine | preprocessing/filter_emails.py:180-361 | one iteration advances the fold by one line |
| BodyCleaner.RunNext | preprocessing/filter_emails.py:180 | the fold over one more line is one more step |
| BodyCleaner.PopTrailingBlanks | preprocessing/filter_emails.py:364-365 | the loop removes the trailing blank lines |
| BodyCleaner.ExtractMainMessage | preprocessing/filter_emails.py:161-367 | the method returns the kept lines joined with newlines |
| BodyCleaner.StopIsFinal | preprocessing/filter_emails.py:181-182 | after a stop, later lines change nothing |
| BodyCleaner.HeaderRegionEndsAtFirstBlank | preprocessing/filter_emails.py:187-191 | the pass is in the header region iff no blank line has been read |
| BodyCleaner.OutputComesFromLines | preprocessing/filter_emails.py:355-361 | every output line is a blank separator or the cleaned form of a line read |
| BodyCleaner.NoticeIsDropped | preprocessing/filter_emails.py:303-314 | inside a confidentiality notice, non-blank lines add nothing and the notice continues |
| BodyCleaner.NoticeLine | preprocessing/filter_emails.py:308-314 | the same for one line |
| BodyCleaner.SignatureIsDropped | preprocessing/filter_emails.py:345-349 | inside a signature, lines of at most 80 cleaned characters add nothing |
| BodyCleaner.SignatureLine | preprocessing/filter_emails.py:345-349 | the same for one line |
| BodyCleaner.PassShape | preprocessing/filter_emails.py:180-365 | the final lines have no leading, trailing or doubled blanks, and each comes from an input line |
| BodyCleaner.KeptFromLines | preprocessing/filter_emails.py:316-365 | each kept line is stripped, and is a blank or the cleaned form of a message line |
| BodyCleaner.CleanedLineFromMessage | preprocessing/filter_emails.py:316-319 | a cleaned signal is a stripped, cleaned message line |
| BodyCleaner.AllSignalsCleaned | preprocessing/filter_emails.py:316-319 | each line's signal carries the cleaning of its stripped text |
| BodyCleaner.MainLinesFromMessage | preprocessing/filter_emails.py:161-367 | every line of the result is stripped and comes from the raw message |
| BodyCleaner.AngleRuleNeverDecides | preprocessing/filter_emails.py:237-248 | the angle "On ... wrote:" rule never changes the outcome, because such a line was dropped as quoted |
| BodyCleaner.AngleReplyIsQuoted | preprocessing/filter_emails.py:21 | a line matching that rule starts with `>` |
| BodyCleaner.EmptyMessageIsEmpty | preprocessing/filter_emails.py:161-367 | an empty message gives the empty body |
| BodyCleaner.RemovableHeaderDropped | preprocessing/filter_emails.py:201-207 | a listed header in the header region is dropped and marks a header |
| BodyCleaner.FoldedHeaderDropped | preprocessing/filter_emails.py:197-199 | a folded continuation after a header is dropped with nothing else changed |
| BodyCleaner.EnvelopeLineDropped | preprocessing/filter_emails.py:193-195 | an mbox envelope line is dropped and leaves every loop variable as it was |
| BodyCleaner.MessageIdLineDropped | preprocessing/filter_emails.py:212-214 | a standalone message-id line past the header rules is dropped; only the header flag is updated |
| BodyCleaner.ForwardedMarkerStartsSkip | preprocessing/filter_emails.py:216-219 | a forwarded-message marker is dropped and turns the forwarded skip on |
| BodyCleaner.OriginalMarkerStops | preprocessing/filter_emails.py:221-224 | an original-message marker is dropped and the state after it is the final state of the pass |
| BodyCleaner.ForwardedHeaderSkipped | preprocessing/filter_emails.py:226-231 | during the forwarded skip, header-like and blank lines are dropped and the skip goes on |
| BodyCleaner.ForwardedSkipEnds | preprocessing/filter_emails.py:226-234 | the first other line turns the skip off and goes on to the quote rules |
| BodyCleaner.ListBoilerplateDropped | preprocessing/filter_emails.py:291-293 | a mailing-list boilerplate line that reaches the footer rules is dropped |
| BodyCleaner.AttachmentDropped | preprocessing/filter_emails.py:295-297 | an attachment marker that reaches the footer rules is dropped |
| BodyCleaner.QuotedLineDropped | preprocessing/filter_emails.py:236-238 | a line starting with `>` adds nothing and does not stop the pass |
| BodyCleaner.LongLineEndsSignature | preprocessing/filter_emails.py:345-357 | a line of over 80 cleaned characters ends a signature and is kept |
| PromDates.Normalize | preprocessing/promTothread.py:52-59 | the cleaned text is stripped |
| PromDates.DigitGroup | preprocessing/promTothread.py:62 | a digit group has the width the pattern allows |
| PromDates.FinalDigits | preprocessing/promTothread.py:62 | the last group is a run of digits of the allowed width |
| PromDates.SearchFromFinds | preprocessing/promTothread.py:62-63 | `re.search` returns the match at the leftmost offset where the pattern matches |
| PromDates.SearchFromFails | preprocessing/promTothread.py:62-63 | the search fails when no offset matches |
| PromDates.MonthOfName | preprocessing/promTothread.py:31-44 | a month name maps to a number from 1 to 12 |
| PromDates.DateText | preprocessing/promTothread.py:67 | formatted dates are `MM/DD/YYY(Y)` |
| PromDates.CenturyYear | preprocessing/promTothread.py:65-66 | a two-digit year gains the prefix `20`, giving three or four digits |
| PromDates.NamedDate | preprocessing/promTothread.py:96-98 | a known month name gives a date-shaped result |
| PromDates.ByNumericMonthFirst | preprocessing/promTothread.py:61-67 | pattern 1 yields a date-shaped result |
| PromDates.ByYearFirst | preprocessing/promTothread.py:69-78 | the year-first patterns yield date-shaped results |
| PromDates.BySpacedMonthFirst | preprocessing/promTothread.py:80-86 | pattern 3 yields a date-shaped result |
| PromDates.ByDayNameYear | preprocessing/promTothread.py:88-98 | pattern 4 yields a date-shaped result |
| PromDates.ByNameDayYear | preprocessing/promTothread.py:100-110 | pattern 5 yields a date-shaped result |
| PromDates.ByCompactDayNameYear | preprocessing/promTothread.py:112-122 | pattern 6 yields a date-shaped result |
| PromDates.ByCompactNameDayYear | preprocessing/promTothread.py:124-132 | pattern 7 yields a date-shaped result |
| PromDates.BySeparatedDayNameYear | preprocessing/promTothread.py:134-144 | pattern 8 yields a date-shaped result |
| PromDates.BySeparatedNameDayYear | preprocessing/promTothread.py:146-156 | pattern 9 yields a date-shaped result |
| PromDates.ByNameYear | preprocessing/promTothread.py:158-165 | pattern 10 yields a date-shaped result |
| PromDates.OrElse | preprocessing/promTothread.py:63-167 | a pattern that matches returns, otherwise the next is tried |
| PromDates.ByMonthNamePatterns | preprocessing/promTothread.py:88-165 | patterns 4 to 10 yield date-shaped results |
| PromDates.ByLaterPatterns | preprocessing/promTothread.py:80-165 | patterns 3 to 10 yield date-shaped results |
| PromDates.ParseCleaned | preprocessing/promTothread.py:61-167 | the cascade over cleaned text yields date-shaped results |
| PromDates.ParseDateFromText | preprocessing/promTothread.py:47-167 | empty text gives none; any result is `MM/DD/` and a year |
| PromDates.ParseCleanedYearFirst | preprocessing/promTothread.py:61-78 | the corrected cascade yields date-shaped results |
| PromDates.ParseDateYearFirst | preprocessing/promTothread.py:47-167 | the corrected parser: empty text gives none, any result is date-shaped |
| PromDates.PlainTextNormalized | preprocessing/promTothread.py:52-59 | text without letters, spaces or commas is left as it is by the cleaning |
| PromDates.PlainTextUnmatched | preprocessing/promTothread.py:53-58 | none of the cleaning substitutions match in such text |
| PromDates.WordsAbsentAt | preprocessing/promTothread.py:53-58 | the word substitutions need a letter where they start |
| PromDates.OrdinalAbsentAt | preprocessing/promTothread.py:54 | the ordinal suffix needs a letter after the digits |
| PromDates.DigitGroupOf | preprocessing/promTothread.py:62 | a group of allowed width followed by a non-digit is read as a group |
| PromDates.SkipSepOf | preprocessing/promTothread.py:62 | a `/`, `-` or `.` separator is consumed |
| PromDates.FinalDigitsOf | preprocessing/promTothread.py:62 | a final group of allowed width is read |
| PromDates.NumericMonthFirstReads | preprocessing/promTothread.py:62 | `m/d/y` is read back as its three groups |
| PromDates.NumericDateNormalized | preprocessing/promTothread.py:52-59 | a numeric date survives the cleaning unchanged |
| PromDates.NumericDateParsed | preprocessing/promTothread.py:61-67 | `m/d/y` gives zero-padded month and day and the year, with `20` before a two-digit year |
| PromDates.NoCalendarCheck | preprocessing/promTothread.py:61-67 | no range check: any two-digit month and day with a four-digit year, such as `13/45/2020`, come back as written |
| PromDates.YearFirstSearchedByPatternOne | preprocessing/promTothread.py:61-63 | on `YYYY-MM-DD` pattern 1 matches at offset 2, taking the year's last two digits as the month |
| PromDates.YearFirstMisread | preprocessing/promTothread.py:61-74 | as written, `YYYY-MM-DD` reads as month = last two digits of the year, day = month, year = `20` + day |
| PromDates.NumericYearFirstReads | preprocessing/promTothread.py:70 | `y-m-d` is read back by pattern 2 |
| PromDates.YearFirstRead | preprocessing/promTothread.py:69-73 | with the year-first pattern tried first, `YYYY-MM-DD` gives `MM/DD/YYYY` |
| PromDates.NumericDateHasNoYearFirst | preprocessing/promTothread.py:62-75 | a month-first date has no year-first match |
| PromDates.YearFirstFailsOn | preprocessing/promTothread.py:70-75 | a year-first pattern needs four digits followed by more text |
| PromDates.YearFirstKeepsNumericDates | preprocessing/promTothread.py:61-78 | the correction reads every month-first date as before |
| PromDates.WordSpaceNumberUnmatched | preprocessing/promTothread.py:53-58 | a word, a space and a number, other than `date` and `of`, meet none of the cleaning substitutions |
| PromDates.WordSpaceNumberNoLabel | preprocessing/promTothread.py:53-55 | nor the `Date` label or `of` |
| PromDates.WordSpaceNumberNormalized | preprocessing/promTothread.py:52-59 | such text is cleaned to itself |
| PromDates.WordSpaceNumberSingleSpaced | preprocessing/promTothread.py:59 | it is stripped and single-spaced |
| PromDates.MonthYearNormalized | preprocessing/promTothread.py:52-59 | `Name YYYY` is cleaned to itself |
| PromDates.WordAtStartOnly | preprocessing/promTothread.py:53-55 | the only word there is the leading one |
| PromDates.DigitLedPatternsFail | preprocessing/promTothread.py:62-144 | patterns that start with digits fail on text whose digits end the text |
| PromDates.DigitRunFails | preprocessing/promTothread.py:62 | a digit group there leaves nothing to read after it |
| PromDates.NothingAfterFails | preprocessing/promTothread.py:62-147 | separators, spaces and letters cannot be read from empty text |
| PromDates.NameLedPatternsFail | preprocessing/promTothread.py:101-147 | patterns 5, 7 and 9 fail on `Name YYYY` |
| PromDates.MonthYearRuns | preprocessing/promTothread.py:62-159 | the shape of every suffix of `Name YYYY` |
| PromDates.MonthYearSearches | preprocessing/promTothread.py:61-165 | on `Name YYYY` only pattern 10 matches, reading the name and year |
| PromDates.MonthYearParsed | preprocessing/promTothread.py:47-167 | `October 2019` gives `10/01/2019`, and an unknown name gives none |
| PromDates.NameYearReads | preprocessing/promTothread.py:159 | pattern 10 reads back name and year |
| PromText.StripBullets | preprocessing/promTothread.py:171-175 | the result is stripped, does not start with a bullet, and is no longer than the input |
| PromText.StripNoLeadingSpace | preprocessing/promTothread.py:175 | stripping text that starts with a non-space keeps its first character |
| PromText.StripBulletsAfterMarkers | preprocessing/promTothread.py:171-175 | bullet markers in front of a stripped item are removed, giving the item |
| PromText.StripBulletsIdempotent | preprocessing/promTothread.py:171-175 | stripping bullets twice is stripping once |
| PromText.Truncate | preprocessing/promTothread.py:273 | `[:600]` is a prefix of at most 600 characters, the whole text when shorter |
| PromText.EmbedParts | preprocessing/promTothread.py:264-273 | at most three parts |
| PromText.BuildEmbedString | preprocessing/promTothread.py:262-276 | the string is empty iff title, chemicals and reason are all empty; it starts with the title line and ends with the truncated reason line when present |
| Boilerplate.MatchLen | preprocessing/promTothread.py:187-238 | a match never runs past the text |
| Boilerplate.Greedy | preprocessing/promTothread.py:187-238 | a greedy repetition's match stays within the text |
| Boilerplate.Reluctant | preprocessing/promTothread.py:187-238 | a lazy repetition's match stays within the text |
| Boilerplate.LineBreakFree | preprocessing/promTothread.py:187-238 | `.` stops at the first newline |
| Boilerplate.PatternAt | preprocessing/promTothread.py:187-238 | the patterns replace a match with nothing |
| Boilerplate.RemovePattern | preprocessing/promTothread.py:254 | removing a pattern never lengthens the text |
| Boilerplate.MatchNeedsLead | preprocessing/promTothread.py:187-238 | a pattern matches only where its leading literal occurs, ignoring case |
| Boilerplate.RemoveAbsent | preprocessing/promTothread.py:254 | a pattern whose leading literal never occurs leaves the text unchanged |
| Boilerplate.RemoveAtStart | preprocessing/promTothread.py:254 | a match at the start is cut and the search continues after it |
| Boilerplate.RemoveFirst | preprocessing/promTothread.py:252-254 | applying the patterns never lengthens the text |
| Boilerplate.RemoveAll | preprocessing/promTothread.py:252-254 | the loop applies every pattern in table order |
| Boilerplate.Tidy | preprocessing/promTothread.py:250-257 | collapsing whitespace and stripping never lengthens the text |
| Boilerplate.RemoveFirstAbsent | preprocessing/promTothread.py:252-254 | text free of every pattern is left unchanged |
| Boilerplate.TidyShape | preprocessing/promTothread.py:257 | the final text is stripped and single-spaced |
| Boilerplate.TidyIdempotent | preprocessing/promTothread.py:250-257 | tidying twice is tidying once |
| Boilerplate.WithoutBoilerplate | preprocessing/promTothread.py:241-259 | empty content is returned as is; any result is stripped, single-spaced and no longer than the content |
| Boilerplate.StripBoilerplate | preprocessing/promTothread.py:241-259 | the method computes the function |
| Boilerplate.CleanTextOnlyTidied | preprocessing/promTothread.py:241-259 | text without boilerplate is only tidied |
| PromSections.TabsToSpaces | preprocessing/promTothread.py:849 | tabs become spaces, with the length kept |
| PromSections.NormalizeItem | preprocessing/promTothread.py:849 | each entry is stripped and tab-free |
| PromSections.MapEntries | preprocessing/promTothread.py:847-850 | the loop maps every entry in order |
| PromSections.NormalizeItems | preprocessing/promTothread.py:847-850 | the text items are the normalised entries, one per entry |
| PromSections.NonEmpty | preprocessing/promTothread.py:889-892 | the raw parts are non-empty items of the input |
| PromSections.NonEmptyAppend | preprocessing/promTothread.py:889-892 | one more item adds it iff it is non-empty |
| PromSections.InlineNames | preprocessing/promTothread.py:1041 | the names tried are the section labels followed by the field names |
| PromSections.TrimEnd | preprocessing/promTothread.py:997 | `rstrip(':').rstrip('.')` gives a prefix |
| PromSections.FirstLabelFrom | preprocessing/promTothread.py:999-1015 | the first label in table order that marks the item, and none before it |
| PromSections.SectionLabel | preprocessing/promTothread.py:999-1015 | the matched label is a table entry |
| PromSections.MatchLabel | preprocessing/promTothread.py:999-1015 | the loop finds the first matching label |
| PromSections.LabelOf | preprocessing/promTothread.py:985-1015 | an item's label is one of the section labels |
| PromSections.StartAt | preprocessing/promTothread.py:1013-1014 | an item adds one start iff it has a label, carrying its index and label |
| PromSections.FindSectionStarts | preprocessing/promTothread.py:982-1016 | the loop records the starts of all items |
| PromSections.StartsAscending | preprocessing/promTothread.py:1018 | the starts come out in strictly ascending index order, so the sort leaves them as they are |
| PromSections.StartsExact | preprocessing/promTothread.py:985-1015 | an index is recorded iff its item has a label, and is recorded with that label |
| PromSections.RecordedExtend | preprocessing/promTothread.py:1014 | starts of later items leave an index's record unchanged |
| PromSections.RecordedLast | preprocessing/promTothread.py:1014 | the start just appended is the record for its index |
| PromSections.NothingBetweenStarts | preprocessing/promTothread.py:1025-1029 | no item strictly between a start and the next has a label |
| PromSections.LineStartAtOrBefore | preprocessing/promTothread.py:1042 | the last non-newline position at or before an offset |
| PromSections.InlineMatch | preprocessing/promTothread.py:1042 | the inline group is non-empty and within one line |
| PromSections.KeptGroup | preprocessing/promTothread.py:1044-1046 | inline content is kept stripped when longer than three characters |
| PromSections.InlineContent | preprocessing/promTothread.py:1041-1047 | any inline content is stripped and longer than three characters |
| PromSections.InlineContentFirstMatch | preprocessing/promTothread.py:1041-1047 | the first name that matches decides, even when its content is too short |
| PromSections.InlineContentNone | preprocessing/promTothread.py:1041-1047 | no matching name gives no inline content |
| PromSections.InlineOf | preprocessing/promTothread.py:1034-1047 | the inline content of a label item is longer than three characters |
| PromSections.BodyParts | preprocessing/promTothread.py:1049-1063 | every body part passes the body test |
| PromSections.GatherBody | preprocessing/promTothread.py:1049-1063 | the loop gathers the body parts |
| PromSections.GatherParts | preprocessing/promTothread.py:1025-1063 | the parts of a section are its inline content and then its body |
| PromSections.CollectSections | preprocessing/promTothread.py:1020-1066 | the loop computes the sections of every numbered start |
| PromSections.LastSectionWins | preprocessing/promTothread.py:1065-1066 | a field holds the joined parts of its last filling section |
| PromSections.UnfilledMissing | preprocessing/promTothread.py:1065-1066 | a field no section fills is absent |
| PromSections.NamedLabelMarks | preprocessing/promTothread.py:1003-1011 | a label named exactly by the item marks it |
| PromSections.LabelItemIsStart | preprocessing/promTothread.py:1057-1061 | an item the body test rejects as a label is a section start |
| PromSections.NoLabelInsideSection | preprocessing/promTothread.py:1049-1063 | the body test's label check never fires inside a section |
| PromSections.FirstMention | preprocessing/promTothread.py:1069-1070 | the first item mentioning `special handling`, ignoring case |
| PromSections.StaffAfterMention | preprocessing/promTothread.py:1071-1076 | the loop joins the non-empty items among the next four |
| PromSections.StaffConsiderations | preprocessing/promTothread.py:1068-1077 | the loop computes the staff considerations |
| PromSections.CleanField | preprocessing/promTothread.py:1089-1102 | a field is present iff its section was found, and is then stripped and single-spaced |
| PromSections.StripSections | preprocessing/promTothread.py:1089-1091 | every section is replaced by its text without boilerplate, with the same keys |
| PromSections.ExtractFromItems | preprocessing/promTothread.py:842-1107 | a form is returned iff there are entries, a date, and an e-mail or requestor; it holds the e-mail in preference to the requestor, cleaned sections 1, 3, 4 and 5, the staff considerations and the non-empty items joined by newlines |
| PromPipeline.ProcessFile | preprocessing/prom_pipeline.py:36-48 | exactly one of form and path is returned; a form only for a `.docx` path the extractor reads |
| PromPipeline.KeyOf | preprocessing/prom_pipeline.py:61-64 | a form has a key iff date, requestor and title are present |
| PromPipeline.KeysAppend | preprocessing/prom_pipeline.py:64-71 | one more form adds its key, if any |
| PromPipeline.FilterDuplicates | preprocessing/prom_pipeline.py:51-76 | the loop keeps the first form of each key |
| PromPipeline.UniqueIsSubsequence | preprocessing/prom_pipeline.py:51-76 | the kept forms are a subsequence of the input |
| PromPipeline.UniqueKeysDistinct | preprocessing/prom_pipeline.py:51-76 | every kept form has a key, and no two share one |
| PromPipeline.UniqueKeepsKeys | preprocessing/prom_pipeline.py:51-76 | every key of the input survives |
| PromPipeline.FirstOccurrenceKept | preprocessing/prom_pipeline.py:60-71 | a form is kept iff it has a key not seen before |
| PromPipeline.UniqueOfDistinct | preprocessing/prom_pipeline.py:51-76 | a batch of keyed forms with distinct keys is kept whole |
| PromPipeline.FilterIsIdempotent | preprocessing/prom_pipeline.py:51-76 | filtering twice is filtering once |

## Left out

- Files, `open`, `seek`, `tell` and `readline` are not modelled. The archive is the list of lines `readline` returns, and an offset is the number of characters before a line. In text mode `f.tell()` gives an opaque position, not a character count. The two differ for non-ASCII text, and also for a CRLF archive, whose universal-newline reading turns each `\r\n` into one `\n` character. For such archives `get_email_by_msgid` (app/orderEmails.py:203-204) seeks to the recorded position `s` and reads `e - s` characters. The gap `e - s` counts bytes, so the read runs past the message's end into the next message. `Threads.ArchiveLookupIsMessageSlice` holds for character offsets only and does not show that overrun.
- The `\w`, `\d` and `lower()` of the patterns are ASCII only. `re.IGNORECASE` folds only ASCII letters. Unicode word characters, digits and case folding are not modelled.
- RFC 2047 decoding (`decode_header`/`make_header`) is the `decode` parameter of `Identity.ExtractNameFromSecondLine`. It returns an `Outcome`, so a header-parse or Unicode error raised there is `Raises` and aborts the grouping.
- Timing (`time.perf_counter`), `print` and the duplicate counter have no effect on the results and are left out. The debug output of the extractor is left out too.
- The docling and docx conversion of a document into text entries is outside the model. Entries reach `PromSections.ExtractFromItems` as optional strings, where `None` stands for a missing `text` key.
- The header scan of `extract_prom_unified` (preprocessing/promTothread.py:888-980) is not modelled. It finds the title, requestor, date and e-mail. Its results enter `PromSections.ExtractFromItems` as the `Header` parameter. Only its collection of the non-empty items into the raw text is modelled.
- PromSections.ExtractFromItems: sections 6 and 7 (storage and disposal) are gathered like the others, but the form does not store them.
- PromPipeline.ProcessFile: `extract_prom_from_docx` is the `extract` parameter.
- PDF handling in `process_file` is a skip and is modelled as no form.
- Embeddings, the language model, the database and the async pipeline are network and I/O code. These are `embed_concat_json`, `embed_pipeline` and `run_prom_pipeline`.
- `section_starts.sort` is the identity in the model. `PromSections.StartsAscending` proves the starts are already in ascending order, so the sort has nothing to do.
- The regular expressions are modelled as deterministic consumers for the shapes that occur here. Where backtracking could change which substring a pattern matches, the model takes the match Python's engine takes first.
- BodyCleaner.MainLinesFromMessage: states that every kept line comes from an input line after `strip` and the placeholder/mailto removal. It does not state that no `[image: ...]` placeholder or `<mailto:...>` link remains, because one pass of `re.sub` can join the pieces around a removed match into a new one.
- EmailPatterns.CleanLine: states that the result is stripped and no longer than its input. It does not state the absence of placeholders and links afterwards, for the same reason.
- The file-listing and database drivers are not modelled. This includes the per-thread concatenation in preprocessing/email_pipeline.py:46-50, which puts a newline in front of every thread.
- Concurrency is not modelled: the multiprocessing pool and the asyncio code of the pipeline. Each file and each form is handled as the sequential code does.

## Findings

| source | as written | input that shows it | evidently intended | confidence | as-written member | corrected member |
|---|---|---|---|---|---|---|
| preprocessing/promTothread.py:61-74 | pattern 1 (`MM/DD/YYYY`) is searched before the year-first pattern 2, and it matches inside an ISO date starting at the year's third digit | `2019-10-05` gives `19/10/2005` | `10/05/2019`, as the comment on pattern 2 describes | not executed | PromDates.YearFirstMisread | PromDates.YearFirstRead |
