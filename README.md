# Tip-report bot: extractors, message buffer and batch drain

This project models the core of `tasty_tg_bot.py`, a Telegram bot that turns
shift reports posted as text into rows of a Google sheet. It has two parts.

- **Extractors** (`extract_name`, `extract_date_shift`, `extract_creator`,
  `extract_vip_tips`, `extract_ppvs`, `extract_total_gross_sale`,
  `extract_total_net_sale`). Each is a pure function from the report text
  to an optional string. Each runs one case-insensitive `re.search` or
  `re.findall`, followed by `strip()` or `', '.join(...)`.
- **Message buffer and drain.** `handle_message` appends every text to the
  module-level `message_queue`. `process_queue` takes a snapshot of the
  whole queue, clears it, and then, text by text, builds a nine-cell row
  and appends it to the sheet. An append that raises is caught, and the
  loop goes on with the next text.

Modules, one per layer:

- `Chars` (chars.dfy): the character classes `\d`, `\w`, `\s` and `.`; ASCII
  case folding; case-insensitive literals; greedy runs (`SpanEnd`); and
  Python's `str.strip()`.
- `Patterns` (patterns.dfy): the seven regular expressions, written as four
  pattern shapes. Each shape has a deterministic single-attempt scanner
  (`MatchAt`) and a declarative statement of what a match looks like
  (`IsHit`). `MatchAtIsHit` proves that the two agree. No pattern needs
  backtracking. A repeat is followed by a piece that cannot start with a
  character of its class (`\d+` before "AM", `\s*` before `\d+`), so a
  shorter run fails at that piece; or it is followed by `(.*)`, which
  always succeeds; or it ends the pattern. In each case Python's engine
  keeps its first, greedy attempt. `DateFitGreedy` proves the first case
  for the date pattern, and `TaggedOptional` proves that taking `(from )?`
  whenever it is present is never wrong.
- `Scanning` (scanning.dfy): `re.search` is the leftmost start at which an
  attempt succeeds. `re.findall` resumes at the end of each match. Its
  result is characterised by the predicate `Scanned`, and that result is
  proved unique, ordered and non-overlapping.
- `Extract` (extract.dfy): the seven extractors. Each states what the code
  returns: when it returns None, and the shape of the value otherwise.
- `Ingest` (ingest.dfy): the row layout, a `Sheet` class for
  `append_row`, and a `Bot` class holding `message_queue` with
  `HandleMessage` and `ProcessQueue`.

The sheet's appends may fail. `Sheet.failing` fixes which calls raise,
numbered from 0. `attempts` records every call and `rows` every call that
succeeded. `Kept` is the specification of what the per-row `try`/`except`
loop writes.

Behaviour of the code worth knowing, all proved:

- `extract_total_gross_sale` and `extract_total_net_sale` return None
  whenever their label is absent. They also return None when the label is
  present but not followed by optional whitespace, `$`, optional whitespace
  and digits. So "None" means "no full match", not "no label".
- The name and creator fields are None exactly when their label is absent.
  Otherwise the value is one line without edge whitespace. The `\s*` after
  the label also crosses line ends. So when the label's own line is empty
  after it, the value is the next non-blank line: "Creator :" followed by a
  line break and "X" gives the creator "X". The value is empty exactly when
  nothing but whitespace follows the leftmost label up to the end of the
  text.
- The date field is the exact matched text. It ends in "PST" in some letter
  case.
- The two list fields are None exactly when nothing matches. Otherwise they
  are nonempty digit runs joined by ", ", in document order, taken from
  non-overlapping matches. Splitting at ", " gives back exactly the groups
  that findall captured.

## Model

| member | source | states |
|---|---|---|
| Chars.SpanEnd | tasty_tg_bot.py:27 | a greedy repeat such as `\s*` or `.*` ends where the run of its class ends: all characters before are in the class and the next one is not |
| Chars.IsSpace | tasty_tg_bot.py:27 | `\s` holds for the six ASCII whitespace characters and never for a `\w` character |
| Chars.Fold | tasty_tg_bot.py:27 | `re.IGNORECASE` folding maps each upper-case ASCII letter to a lower-case letter and leaves every other character unchanged |
| Chars.FoldLower | tasty_tg_bot.py:27 | each upper-case ASCII letter folds to its own lower-case letter |
| Chars.Strip | tasty_tg_bot.py:29 | the result is the input with its leading and trailing whitespace removed, so no whitespace is left at either end |
| Chars.StripKeepsInner | tasty_tg_bot.py:29 | `strip()` leaves a string without edge whitespace unchanged |
| Chars.StripIdempotent | tasty_tg_bot.py:29 | stripping twice is the same as stripping once |
| Chars.LitAtEnd | tasty_tg_bot.py:33 | a slice that stops where a literal occurrence stops ends with that literal, ignoring case |
| Patterns.MatchAt | tasty_tg_bot.py:26-66 | one match attempt stays inside the text, puts the group inside the match, and always consumes at least one character for the seven patterns |
| Patterns.LabelLineAt | tasty_tg_bot.py:27 | an attempt of `label\s*(.*)` succeeds exactly when the label is at that position, and its group lies after the label and runs to the end of the match |
| Patterns.LabelAmountAt | tasty_tg_bot.py:57 | a successful attempt of `label\s*\$\s*(\d+)` starts with the label, has `$` at its mark after the label, and has a nonempty group of digits after the `$` that ends the match |
| Patterns.SequenceAt | tasty_tg_bot.py:33 | a successful attempt of the date pattern captures the whole match as the group, with one mark per step |
| Patterns.TaggedAt | tasty_tg_bot.py:45-51 | a successful attempt of `\$(\d+)keyword(from )?@\w+` starts with `$`, its group is a nonempty run of digits right after it, and after the group comes `@` at its mark, then word characters up to the end of the match, at least one |
| Patterns.RunThenMax | tasty_tg_bot.py:33 | `cls{min,}lit` at i gives position j exactly when i..j is a maximal run of at least min class characters and the literal follows at j |
| Patterns.RunThenIs | tasty_tg_bot.py:45 | when the literal cannot start with a class character, that maximality condition can be dropped |
| Patterns.MatchAtIsHit | tasty_tg_bot.py:26-66 | for each of the seven patterns, the scanner returns a hit exactly when the text at that position has the pattern's shape, and the hit it returns is that one |
| Patterns.LabelLineHit | tasty_tg_bot.py:26-42 | `label\s*(.*)` matches at i exactly when the label is there, and the group is the maximal non-newline run after the maximal whitespace run |
| Patterns.LabelAmountHit | tasty_tg_bot.py:56-66 | `label\s*\$\s*(\d+)` matches at i exactly when the label, whitespace, `$`, whitespace and a nonempty maximal digit run follow one another; the group is those digits |
| Patterns.LabelAmountSound | tasty_tg_bot.py:56-66 | what the label-amount scanner reports has that shape |
| Patterns.LabelAmountComplete | tasty_tg_bot.py:56-66 | text of that shape is what the scanner reports |
| Patterns.SequenceHit | tasty_tg_bot.py:32-36 | the date-shift pattern matches at i exactly when its six runs and literals fit there, each run maximal; the group is the whole match |
| Patterns.RunStepsFit | tasty_tg_bot.py:33 | the step scanner reports literal positions m exactly when the text fits the steps at m |
| Patterns.RunStepsSound | tasty_tg_bot.py:33 | positions the step scanner reports fit the steps |
| Patterns.RunStepsComplete | tasty_tg_bot.py:33 | positions that fit the steps are the ones the step scanner reports |
| Patterns.FitAnyIsGreedy | tasty_tg_bot.py:33 | when no step's run can end early, the text fits the steps with runs of any length exactly when it fits them with maximal runs |
| Patterns.DateFitGreedy | tasty_tg_bot.py:33 | a fit of `\w+ \d+, \d+:\s*\d+AM-\d+AM PST` at any position, with runs of any length, is exactly the greedy fit the scanner finds |
| Patterns.StepsFitLast | tasty_tg_bot.py:33 | in a fit, the last literal starts at the last position, which is not before the match start |
| Patterns.TaggedHit | tasty_tg_bot.py:44-54 | `\$(\d+)keyword(from )?@\w+` matches at i exactly when `$`, digits, the keyword, the optional text taken if present, `@` and a nonempty maximal word run follow one another; the group is the digits |
| Patterns.TaggedSound | tasty_tg_bot.py:44-54 | what the tagged-amount scanner reports has that shape |
| Patterns.TaggedComplete | tasty_tg_bot.py:44-54 | text of that shape is what the scanner reports |
| Patterns.TaggedOptional | tasty_tg_bot.py:51 | the greedy `(from )?` needs no backtracking: whenever a match puts `@` after the optional group or without it, taking the group when it is present lands on that `@` |
| Scanning.Search | tasty_tg_bot.py:27 | `re.search` returns the leftmost start where an attempt succeeds, and that attempt's match; it returns None exactly when no attempt succeeds |
| Scanning.FindAll | tasty_tg_bot.py:45 | `re.findall` produces a left-to-right scan in which each match is the first one after the previous match ends, and nothing matches after the last |
| Scanning.ScannedUnique | tasty_tg_bot.py:45 | a text has only one such scan |
| Scanning.ScannedMatch | tasty_tg_bot.py:45 | every scanned match is a real match inside the text, at or after where scanning began |
| Scanning.ScannedOrdered | tasty_tg_bot.py:45 | scanned matches are in document order and do not overlap |
| Scanning.ScannedEmpty | tasty_tg_bot.py:46 | findall is empty exactly when no position holds a match |
| Scanning.SearchFindsLeftmost | tasty_tg_bot.py:27 | a position with the pattern's shape and no match before it is what search reports |
| Extract.Join | tasty_tg_bot.py:47 | `', '.join(parts)` of a nonempty list starts with the first part and is as long as all parts plus one separator between each pair of neighbours |
| Extract.SplitJoin | tasty_tg_bot.py:47 | splitting `', '.join(parts)` at ", " gives the parts back when no part contains a comma |
| Extract.JoinAmountsAlphabet | tasty_tg_bot.py:47 | joining digit runs with ", " gives only digits, commas and spaces |
| Extract.SearchGroup | tasty_tg_bot.py:27-30 | `re.search(...)`, then `.group(1).strip()`, is None exactly when no position holds a match, and otherwise has no whitespace at either end |
| Extract.JoinGroups | tasty_tg_bot.py:45-48 | `findall` followed by `', '.join` when matches were found is None exactly when no position holds a match |
| Extract.SearchGroupLeftmost | tasty_tg_bot.py:27-29 | an extractor's value is the stripped group of the leftmost match |
| Extract.SearchShape | tasty_tg_bot.py:27 | the match search reports has the pattern's shape |
| Extract.LabelLineAbsent | tasty_tg_bot.py:26-30 | a label-line search fails exactly when the label occurs nowhere, ignoring case |
| Extract.LabelLineGroup | tasty_tg_bot.py:29 | the stripped group of a label-line match has no newline and no edge whitespace |
| Extract.LabelLineFacts | tasty_tg_bot.py:38-42 | a label-line extractor is None exactly when the label is absent; otherwise it is one line without edge whitespace |
| Extract.LineGroupEmpty | tasty_tg_bot.py:27-29 | the stripped group of a `label\s*(.*)` match is empty exactly when only whitespace follows the label to the end of the text |
| Extract.LabelLineEmpty | tasty_tg_bot.py:38-42 | the label-line value is empty exactly when only whitespace follows the leftmost label to the end of the text |
| Extract.CreatorTakesNextLine | tasty_tg_bot.py:38-42 | the creator of "Creator :" followed by a line break and "X" is "X": the field takes the next line |
| Extract.LabelAmountGroup | tasty_tg_bot.py:57-59 | the group of a label-amount match is a nonempty digit run that strip leaves unchanged |
| Extract.LabelAmountFacts | tasty_tg_bot.py:56-66 | a label-amount extractor is None exactly when nothing matches, and is None whenever the label is absent; otherwise it is the digits of the first match |
| Extract.SequenceGroup | tasty_tg_bot.py:33-35 | the group of a date-shift-style match is the whole match, strip leaves it unchanged, and it ends with the last literal |
| Extract.EdgesKept | tasty_tg_bot.py:35 | strip leaves a text unchanged when it starts with a letter or digit and ends with a non-whitespace literal character |
| Extract.SequenceFacts | tasty_tg_bot.py:32-36 | a sequence extractor is None exactly when nothing matches; otherwise it is the exact text of the first match, ending with the last literal |
| Extract.DateShiftFacts | tasty_tg_bot.py:32-36 | the date-shift value is None exactly when nothing matches; otherwise it is the exact matched text and ends in "PST" |
| Extract.TaggedGroup | tasty_tg_bot.py:45 | the group of a tagged match is a nonempty digit run without commas |
| Extract.TaggedFacts | tasty_tg_bot.py:44-54 | a list extractor is None exactly when nothing matches; otherwise it is exactly `', '.join` of findall's groups, each nonempty digits, splits back into those groups at ", ", and holds only digits, commas and spaces |
| Extract.ExtractName | tasty_tg_bot.py:26-30 | None exactly when "Summary of Tips and VIPs for" is absent, ignoring case; otherwise one line without edge whitespace |
| Extract.ExtractDateShift | tasty_tg_bot.py:32-36 | None exactly when the date-shift pattern matches nowhere; otherwise the exact leftmost matched text, ending in "PST" |
| Extract.ExtractCreator | tasty_tg_bot.py:38-42 | None exactly when "Creator :" is absent, ignoring case; otherwise one line without edge whitespace |
| Extract.ExtractVipTips | tasty_tg_bot.py:44-48 | None exactly when no tip matches; otherwise exactly `', '.join` of the tip amounts in findall order, each nonempty digits, which splitting at ", " gives back |
| Extract.ExtractPpvs | tasty_tg_bot.py:50-54 | None exactly when no PPV matches; otherwise exactly `', '.join` of the amount groups (never the optional "from ") in findall order, each nonempty digits, which splitting at ", " gives back |
| Extract.ExtractTotalGrossSale | tasty_tg_bot.py:56-60 | None exactly when nothing matches and whenever the label is absent; otherwise the nonempty digits of the first match, without `$` |
| Extract.ExtractTotalNetSale | tasty_tg_bot.py:62-66 | the same for "TOTAL NET SALE:" |
| Ingest.ReportRow | tasty_tg_bot.py:100 | a row has nine cells, the third is always "Shift (8 hours)", and the net sale fills the last two |
| Ingest.ReportRowFormat | tasty_tg_bot.py:87-100 | every row has the sheet's format, cell by cell; name and creator are empty exactly when their labels are missing; the sale cells are empty when theirs are |
| Ingest.Rows | tasty_tg_bot.py:86-100 | a batch gives one row per text |
| Ingest.Kept | tasty_tg_bot.py:99-104 | the per-row try/except loop writes at most as many rows as it attempts |
| Ingest.KeptSnoc | tasty_tg_bot.py:99-104 | one more attempt adds its row to what is written unless that call raises |
| Ingest.KeptAll | tasty_tg_bot.py:99-104 | when no call raises, every row is written, in order |
| Ingest.KeptIncludes | tasty_tg_bot.py:103-104 | a row whose own append succeeds is written at its own place, between what the calls before it and after it write, whatever happens to the other rows |
| Ingest.KeptSkipsOne | tasty_tg_bot.py:103-104 | with one failing call, exactly that call's row is missing and the others keep their order |
| Ingest.Sheet.AppendRow | tasty_tg_bot.py:101 | one append is recorded as attempted, and it adds its row exactly when the call does not raise |
| Ingest.Sheet.AppendRows | tasty_tg_bot.py:86-104 | the loop attempts every row once, in order, and writes what Kept says |
| Ingest.Bot.HandleMessage | tasty_tg_bot.py:73-78 | the text is added at the tail of the queue and nothing else in the queue changes |
| Ingest.Bot.ProcessQueue | tasty_tg_bot.py:80-104 | an empty queue changes nothing; otherwise the queue ends empty, the snapshot's rows are attempted in FIFO order, and the written rows are those whose append did not raise |
| Ingest.DrainInOrder | tasty_tg_bot.py:80-86 | three buffered texts are attempted in arrival order by one drain, and a second drain right after attempts nothing |
| Ingest.LateTextWaits | tasty_tg_bot.py:73-83 | a text that arrives after a drain took the queue is attempted by the next drain and is not lost |
| Ingest.MiddleFailure | tasty_tg_bot.py:99-104 | when the second of three appends raises, all three are attempted and the first and third are written |

Proof helpers with no row of their own, because they model no source line:
`Chars.FoldSpace`, `Chars.EndsWithSuffix`, `Chars.SpanEndUnique`,
`Patterns.LitCharIs`, `Patterns.DateStepsGiveNothingBack`,
`Scanning.NoHitExtend`, `Extract.DateStepsEnds`, `Extract.PstSuffix`, `Extract.IndexOf` and
`Ingest.CellsFormat`.

## Left out

- Google Sheets setup and the network call inside `sheet.append_row`
  (tasty_tg_bot.py:16-20, 101) are foreign library I/O. The sheet is the
  class `Sheet`, whose `failing` set says which calls raise.
- How the sheet library writes a None cell is not modelled. Rows carry
  `Option<string>` cells.
- The Telegram application, handler registration, polling, `main` and the
  `/start` reply (tasty_tg_bot.py:69-71, 106-123) are transport and
  bootstrapping code.
- `job_queue.run_repeating`, `max_instances=3` and `asyncio.to_thread`
  (tasty_tg_bot.py:101, 117-119) are scheduling and concurrency. Nothing
  awaits between the snapshot and the clear (lines 82-83), so the drain is
  one method and the model has no interleaving.
- Ingest.Bot.ProcessQueue is atomic in the model. The source awaits each
  append (line 101), and `max_instances=3` (line 119) lets a later
  `process_queue` run while an earlier one is still appending. The rows of
  two batches can then interleave in the sheet, and the call numbers in
  `Sheet.failing` count the calls of both. The model's promise that each
  batch's written rows form one block after the earlier rows holds only
  under the atomic drain.
- Logging (tasty_tg_bot.py:11-14, 75, 96, 102, 104) has side effects only.
- `\d` and `\w` are ASCII only (`[0-9]`, `[A-Za-z0-9_]`). Case-insensitive
  matching folds ASCII letters only. Python also matches Unicode digits and
  letters here, and folds a few non-ASCII letters (such as the Kelvin sign)
  to ASCII ones.
- `\s` and `strip()` use Python's `str.isspace` set exactly.
- Ingest.Bot.ProcessQueue builds the rows of the whole snapshot (`Rows`)
  before its append loop, instead of inside it. Extraction is pure and
  cannot raise, so the same rows are attempted in the same order. The
  interleaving of extraction with appends is not represented.
