# log-processing, modelled in Dafny

This project models the parsing core of `log-processing`, a set of Python
tools that read application-server logs and turn them into records.

- **Structured log reconstruction** (`structuredlog.py`). Header lines of the form
  `TIMESTAMP LEVEL [SOURCE] (THREAD) MESSAGE` open a `LogEntry`.
  - A header whose message starts with a tab, on a thread that already has an
    entry, is joined to that thread's entry instead.
  - Any other line is a continuation of the newest entry.
  - Entries whose message contains `Exception` are exception entries. Their
    exception text is the message plus every `Caused by` continuation.
- **Aspen log reconstruction** (`aspenlog.py`). The
  `TIMESTAMP LEVEL: [SOURCE] [LOGTYPE] REMAINDER` dialect, with the optional
  `ABC-12345:` message id split off the remainder. Several files are merged
  and sorted by timestamp.
- **Exception clustering** (`exception_entry.py`). Exception entries are grouped
  by exception text. The groups are ranked by size, then by text, largest first.
- **Tool markers** (`tool_entry.py`). `TOOL START: {json}` and
  `TOOL FINISH: {json}` entries are decoded. Every entry is stamped with the
  running balance of starts over finishes.
- **Perfmon blocks** (`perfmon2csv.py`). A perfmon4j header line opens a block.
  The block then reads a counter name, a sample range, and `name. value extra`
  counter lines, up to the closing separator line.
- **Access-log durations** (`aspenp95.py`). Response lines give a duration in ms
  and a request path. The path is normalised (session id, object ids and
  folders cut down) and the durations are grouped under `"all"` and, on
  request, per path.

Each source file is one module: `StructuredLog`, `AspenLog`, `Exceptions`,
`Tools`, `Perfmon` and `AspenP95`. Two helper modules support them: `Text`
(string scanning, character classes, `rstrip`/`lstrip`, lexicographic
order) and `Wrappers` (`Option`, `Result`).

Each regular expression is a deterministic scanner. For the two log-header
patterns, a lemma shows the scanner accepts a line exactly when the line is a
well-formed header laid out with whitespace runs where the pattern has `\s+`,
and that the fields it captures are then that header's. Rendering a header
with single blanks and parsing it back is the identity.

The structure of each model follows its source:

- Objects the source mutates are classes whose methods are proved against a
  function on values:
  - `LogEntry.lines` and `concurrent_jobs`;
  - the entry list and thread map of `process_line`;
  - `ExceptionEntry.log_entries`;
  - the fields of `PerfmonEntry`.
- Loops are methods with invariants.
- The rest is functions and lemmas.

### Behaviour of the code worth knowing

- `LogEntry.__init__` only ever classifies a message as Exception or Plain.
  Request and Response are never produced (`structuredlog.py:36-39`).
- The exception text is not normalised. It is the message followed by
  `"\n\t" + line` for each `Caused by` continuation
  (`structuredlog.py:44-50`). No GUIDs are replaced.
- `process_line` joins a *header* line whose message starts with a tab to its
  thread's entry (`structuredlog.py:83-84`). Non-header lines always go to the
  newest entry. Non-header lines before the first entry are dropped silently
  (`structuredlog.py:88-90`). Only `aspenlog.py:57-58` reports them.
- A tool entry that does not decode raises out of the marking loop
  (`tool_entry.py:47`). Entries before it are already stamped. Entries after
  it are left alone.

## Model

| member | source | states |
|---|---|---|
| StructuredLog.ParseHeader | structuredlog.py:10 | a match captures a well-formed header: timestamp of the fixed shape, upper-case level, source without `]`, thread without `)`, message on one line |
| StructuredLog.ParseHeaderLayout | structuredlog.py:10 | a line matches exactly when it is a well-formed header's timestamp, a whitespace run, level, a whitespace run, `[source]`, a whitespace run and `(thread) message`, the message ending the line or followed by a final line break; the captures are that header |
| StructuredLog.HeaderPieces | structuredlog.py:10 | a matched line is laid out in that shape around its captures |
| StructuredLog.HeaderAccepts | structuredlog.py:10 | a line laid out in that shape around a well-formed header is matched with exactly that header captured |
| StructuredLog.ParseRender | structuredlog.py:10 | every well-formed header, rendered as a line, is matched by the header pattern with exactly its fields captured |
| StructuredLog.MessageAt | structuredlog.py:10 | the message group runs to the end of the line and the `$` anchor refuses a line break inside it |
| StructuredLog.Classify | structuredlog.py:36-39 | the kind is Exception exactly when the message contains `Exception`, and never Request or Response |
| StructuredLog.CausedBy | structuredlog.py:52-55 | keeps at most the lines it was given |
| StructuredLog.CausedByMembers | structuredlog.py:52-55 | a line is a cause exactly when it is a continuation line containing `Caused by` |
| StructuredLog.CausedByConcat | structuredlog.py:55 | filtering keeps the order: the causes of a concatenation are the concatenated causes |
| StructuredLog.CausedByAppend | structuredlog.py:55 | one more continuation adds itself to the causes exactly when it contains `Caused by` |
| StructuredLog.JoinCausesConcat | structuredlog.py:48-49 | joining causes with `"\n\t"` distributes over concatenation |
| StructuredLog.ExceptionTextShape | structuredlog.py:44-50 | the exception text is empty exactly for non-exception entries, and otherwise starts with the message |
| StructuredLog.ExceptionTextAppendCause | structuredlog.py:48-49 | adding a `Caused by` line to an exception entry extends its text by `"\n\t"` and that line |
| StructuredLog.ExceptionTextAppendOther | structuredlog.py:52-55 | adding any other line leaves the exception text unchanged |
| StructuredLog.ExceptionTextAppend | structuredlog.py:44-55 | both cases in one: how the exception text changes when a continuation is added |
| StructuredLog.LastIndexWithThread | structuredlog.py:87 | the index found holds a record of that thread |
| StructuredLog.LastIndexWithThreadIsLast | structuredlog.py:87 | that record is the last one of its thread, and `None` means the thread has no record; this is what `thread_entries` holds |
| StructuredLog.StepTabContinuation | structuredlog.py:83-84 | a tab-led header on a known thread is added to that thread's last record; nothing else changes and no thread's last record moves |
| StructuredLog.StepNewRecord | structuredlog.py:85-87 | any other header appends a fresh record, which becomes its thread's last record; other threads are unaffected |
| StructuredLog.StepJoins | structuredlog.py:80-84 | on a raw line that parses as a tab-led header of a known thread, the step is that join |
| StructuredLog.StepContinuation | structuredlog.py:88-90 | a non-header line extends the newest record only, and is dropped when there is none |
| StructuredLog.StepOnlyAppends | structuredlog.py:79-90 | a step adds at most one record, only for a header, and otherwise only lengthens existing records' line lists |
| StructuredLog.ReplaySnoc | structuredlog.py:98-101 | replaying one more line is one more step numbered from 1 |
| StructuredLog.ReplayLineNumbers | structuredlog.py:98-101 | records come out in strictly increasing line order, each carrying the fields of the header on its own line |
| StructuredLog.ReplayEmptyIffNoHeader | structuredlog.py:79-90 | no records come out exactly when no line is a header |
| StructuredLog.NoHeaderMeans | structuredlog.py:81 | "no header" means no line matches the pattern |
| StructuredLog.ReplayAccountsForEveryLine | structuredlog.py:93-103 | every line is a record, a continuation held by a record, or a dropped leading line |
| StructuredLog.LogEntry.constructor | structuredlog.py:28-39 | the new entry holds the captured fields, its line number, the classified kind, no lines, and no concurrent jobs |
| StructuredLog.LogEntry.CausedByLines | structuredlog.py:52-55 | returns the `Caused by` lines of the entry's continuations, in order |
| StructuredLog.LogEntry.GetException | structuredlog.py:44-50 | the loop builds exactly the exception text of the entry's current value |
| StructuredLog.LogEntry.AddLine | structuredlog.py:75-76 | the line is appended and nothing else changes |
| StructuredLog.Reconstruction.constructor | structuredlog.py:94-96 | starts with no entries and an empty thread map |
| StructuredLog.Reconstruction.ProcessLine | structuredlog.py:79-90 | the entries' values after the call are one `Step` on their values before, and the thread map stays the map of each thread's last entry |
| StructuredLog.Reconstruction.Place | structuredlog.py:83-87 | a parsed header is either joined to its thread's entry or opened as a new entry, as `Step` prescribes |
| StructuredLog.Reconstruction.AppendTo | structuredlog.py:84 | appending to one entry changes only that record's lines |
| StructuredLog.Reconstruction.Open | structuredlog.py:86-87 | the new entry is appended and becomes its thread's entry |
| StructuredLog.ProcessFile | structuredlog.py:93-103 | the entries returned have exactly the values of `Reconstruct` on the stripped, numbered lines, and all of them are new |
| AspenLog.ParseAspenHeader | aspenlog.py:7 | a match captures a well-formed header that starts the line |
| AspenLog.ParseAspenHeaderLayout | aspenlog.py:7 | a line matches exactly when it is a well-formed header's timestamp, one whitespace character, `level:`, a whitespace run, `[source]`, a whitespace run, `[logtype]`, one whitespace character and the remainder, followed by nothing or by text from a line break on; the captures are that header |
| AspenLog.AspenHeaderPieces | aspenlog.py:7 | a matched line is laid out in that shape around its captures |
| AspenLog.AspenHeaderAccepts | aspenlog.py:7 | a line laid out in that shape around a well-formed header is matched with exactly that header captured |
| AspenLog.ParseRenderAspen | aspenlog.py:7 | every well-formed header, rendered as a line, is matched with exactly its fields captured |
| AspenLog.TimestampEndPrefix | aspenlog.py:7 | the captured timestamp has the `\d+-\d+-\d+ \d+:\d+:\d+ .\d+` shape |
| AspenLog.SplitMessageId | aspenlog.py:28-34 | the id is empty or has the `ABC-12345` shape; without an id prefix the remainder is the message |
| AspenLog.SplitMessageIdMatch | aspenlog.py:9 | with an id prefix, the id is its first nine characters and the message is the rest after the colon and any whitespace |
| AspenLog.SplitJoinMessageId | aspenlog.py:9 | an id, `": "` and a message split back into that id and message |
| AspenLog.FromMatch | aspenlog.py:21-36 | the entry copies the header fields, splits the id off the remainder and starts with no lines |
| AspenLog.ReplaySnoc | aspenlog.py:49-58 | reading one more line is one more step |
| AspenLog.ReplayOpensOnePerHeader | aspenlog.py:51-54 | one entry per header line, in order, with that header's fields |
| AspenLog.StepEffect | aspenlog.py:51-58 | a header appends its entry; any other line is added after the last entry's lines, leaving its header fields, earlier entries and the count alone, or is counted when there is no entry |
| AspenLog.ReplayGroupsContinuations | aspenlog.py:55-56 | each entry holds exactly the non-header lines between its header line and the next, in order |
| AspenLog.ReplayKeepsContinuations | aspenlog.py:55-56 | the entries' lines, concatenated, are the continuation lines in order |
| AspenLog.ReplayReportsLeadingLines | aspenlog.py:57-58 | one diagnostic per non-header line before the first header |
| AspenLog.ReplayAccountsForEveryLine | aspenlog.py:45-60 | every line is an entry, a continuation or a diagnostic |
| AspenLog.LinesPartition | aspenlog.py:51-58 | the header lines, the continuations and the leading lines partition the input |
| AspenLog.ProcessFile | aspenlog.py:45-60 | the loop returns exactly the entries and diagnostic count of `ReadFile` |
| AspenLog.InsertIsPermutation | aspenlog.py:71 | insertion adds exactly the one entry |
| AspenLog.SortIsPermutation | aspenlog.py:71 | sorting is a permutation of the entries |
| AspenLog.InsertKeepsSorted | aspenlog.py:71 | insertion keeps the entries ordered by timestamp |
| AspenLog.SortIsSorted | aspenlog.py:71 | the sorted entries are ordered by timestamp |
| AspenLog.InsertKeepsTies | aspenlog.py:71 | insertion puts a new entry after those with the same timestamp |
| AspenLog.SortKeepsTies | aspenlog.py:71 | the sort is stable: entries with equal timestamps keep their input order |
| AspenLog.ProcessAspenlog | aspenlog.py:62-72 | the result is all files' entries, in file order, sorted stably by timestamp, and is a sorted permutation of them; no files give no entries |
| Exceptions.KeyLessIrreflexive | exception_entry.py:12-15 | `__lt__` is irreflexive |
| Exceptions.KeyLessTransitive | exception_entry.py:12-15 | `__lt__` is transitive |
| Exceptions.KeyLessTotal | exception_entry.py:12-15 | two different (size, text) keys are always ordered one way or the other |
| Exceptions.KeyLessAsymmetric | exception_entry.py:12-15 | `__lt__` is asymmetric |
| Exceptions.KeyLeqTransitive | exception_entry.py:12-15 | "not less than" is transitive |
| Exceptions.ExceptionEntry.constructor | exception_entry.py:8-10 | a cluster starts with its first entry and that entry's exception text |
| Exceptions.ExceptionEntry.AddLog | exception_entry.py:17-18 | the entry is appended to the cluster |
| Exceptions.TextsDistinct | exception_entry.py:22-30 | each text appears once; a text is listed exactly when some entry carries it, and then it has members |
| Exceptions.MembersCarryText | exception_entry.py:27-30 | every member of a cluster is an input entry with that text |
| Exceptions.ClusterSizesAddUp | exception_entry.py:24-30 | the cluster sizes add up to the number of exception entries |
| Exceptions.FirstMemberCreates | exception_entry.py:30 | a cluster's first member is the first entry with its text |
| Exceptions.NoMembersBefore | exception_entry.py:27 | a text no entry carries has no members |
| Exceptions.NoMembers | exception_entry.py:27 | a text that is not listed has no members |
| Exceptions.PrefixStep | exception_entry.py:24-30 | one more entry adds its text if it is new, and itself to its text's members |
| Exceptions.InsertIsPermutation | exception_entry.py:32-33 | insertion adds exactly the one cluster |
| Exceptions.SortIsPermutation | exception_entry.py:32-33 | sorting is a permutation of the clusters |
| Exceptions.InsertKeepsDescending | exception_entry.py:33 | insertion keeps the clusters in descending key order |
| Exceptions.SortIsDescending | exception_entry.py:33 | `sorted(..., reverse=True)` leaves keys in descending order |
| Exceptions.InsertKeepsDistinct | exception_entry.py:33 | insertion keeps texts distinct |
| Exceptions.SortKeepsDistinct | exception_entry.py:33 | sorting keeps texts distinct |
| Exceptions.StrictlyDescending | exception_entry.py:12-15 | with distinct texts, descending keys are strictly descending |
| Exceptions.StrictOrderUnique | exception_entry.py:33 | two strictly descending orders of the same clusters are equal, so the ranking does not depend on dictionary order |
| Exceptions.SortFacts | exception_entry.py:32-33 | the sorted clusters are the same clusters, with distinct texts, strictly descending |
| Exceptions.SortKeepsClusters | exception_entry.py:32-33 | no cluster is lost by the sort |
| Exceptions.SortedClusters | exception_entry.py:32-33 | the returned list has the same clusters as the dictionary, ranked by size and then text, largest first |
| Exceptions.TextsCovered | exception_entry.py:32 | every listed text has a returned cluster |
| Exceptions.KeyedDistinct | exception_entry.py:27-30 | the dictionary's clusters have distinct texts |
| Exceptions.IndexedKept | exception_entry.py:27-28 | an entry with a known text, or no text, adds no cluster |
| Exceptions.IndexedGrows | exception_entry.py:29-30 | an entry with a new text adds one cluster under that text |
| Exceptions.Collect | exception_entry.py:22-30 | the loop builds one new cluster per distinct text, in first-appearance order, each holding exactly the entries with its text |
| Exceptions.AddToCluster | exception_entry.py:27-28 | adding an entry to its text's cluster keeps every cluster equal to its members so far |
| Exceptions.NewCluster | exception_entry.py:29-30 | opening a cluster for a new text keeps every cluster equal to its members so far |
| Exceptions.GetExceptions | exception_entry.py:21-33 | one new cluster per distinct exception text, each holding exactly the entries with that text, ranked by size and then text, largest first |
| Tools.SplitOnce | tool_entry.py:18 | `split(': ', 1)` cuts at the first `": "`, leaving the text whole when there is none |
| Tools.TypeByName | tool_entry.py:19 | the type is START or FINISH exactly when the chunk, with leading `T`, `O`, `L` and blanks stripped, names it; otherwise a lookup error |
| Tools.StripToolWord | tool_entry.py:19 | `lstrip("TOOL ")` removes the `TOOL ` word along with any further such characters |
| Tools.StartName | tool_entry.py:19 | `"TOOL START"` names START |
| Tools.FinishName | tool_entry.py:19 | `"TOOL FINISH"` names FINISH |
| Tools.ParseToolEntry | tool_entry.py:16-26 | a decoded entry keeps its log entry, and its type and payload come from the two chunks |
| Tools.MarkerSplits | tool_entry.py:18 | a colon-free head and `": "` split into that head and the payload |
| Tools.StartMarkerParses | tool_entry.py:16-36 | a `TOOL START: ` entry is a tool entry and decodes to START with its payload, or fails on a bad payload |
| Tools.FinishMarkerParses | tool_entry.py:16-36 | a `TOOL FINISH: ` entry is a tool entry and decodes to FINISH with its payload, or fails on a bad payload |
| Tools.NoSeparatorRaises | tool_entry.py:18-20 | a message without `": "` cannot be decoded |
| Tools.ToolRecords | tool_entry.py:40 | an entry is selected exactly when it is an input entry that `is_tool` accepts |
| Tools.ToolRecordsConcat | tool_entry.py:40 | the selection keeps input order: the tool entries of a concatenation are the concatenated tool entries |
| Tools.GetToolsSucceeds | tool_entry.py:39-40 | `get_tools` succeeds exactly when every tool entry decodes |
| Tools.GetToolsFollowsMarkers | tool_entry.py:39-40 | on success, one decoded entry per tool entry, in order |
| Tools.Balance | tool_entry.py:44-50 | the running balance never exceeds the number of entries in either direction |
| Tools.BalanceSkipsOrdinary | tool_entry.py:46 | ordinary entries do not move the balance |
| Tools.BalanceCanGoNegative | tool_entry.py:49 | a lone FINISH drives the balance to -1 |
| Tools.FirstFailure | tool_entry.py:45-47 | the first tool entry that fails to decode; every tool entry before it decodes |
| Tools.MarkStep | tool_entry.py:45-50 | one more entry extends the tool list and moves the balance by +1 for START and -1 for FINISH |
| Tools.StopsAtFailure | tool_entry.py:47 | the first undecodable tool entry's error is the result |
| Tools.StampStep | tool_entry.py:50 | stamping entry i keeps all earlier stamps and the untouched later entries |
| Tools.StampEntry | tool_entry.py:50 | the entry's `concurrent_jobs` becomes the running count |
| Tools.MarkConcurrentJobs | tool_entry.py:42-51 | returns `get_tools`'s result; every entry up to the first failure is stamped with the balance up to and including itself; entries after it are untouched; lines never change |
| Perfmon.ParseHeader | perfmon2csv.py:10 | a match captures a `####-##-##` date and a `##:##:##,` time with digits |
| Perfmon.HeaderFields | perfmon2csv.py:10 | what the header scanner returns are the date and time groups at the start of the line |
| Perfmon.FractionWithLevel | perfmon2csv.py:10 | with a level word after them, `\d+` takes all the digits |
| Perfmon.FractionWithoutLevel | perfmon2csv.py:10 | without one, backtracking leaves the last digit to `\w+` |
| Perfmon.LogTime | perfmon2csv.py:32 | replacing `,` with `.` keeps the length and removes every comma |
| Perfmon.ParseSampleRange | perfmon2csv.py:15 | matches exactly when the line starts with `hh:mm:ss:mmm -> hh:mm:ss:mmm`, capturing both times |
| Perfmon.CounterFields | perfmon2csv.py:22 | the last `". "` ends the name; the name loses its trailing dots, the value is the numeral and the rest is extra |
| Perfmon.NewBlock | perfmon2csv.py:30-38 | a new block has the date, the time with `.` for `,`, no name, no range, no entries and no lifetime mark |
| Perfmon.AddCounter | perfmon2csv.py:68-76 | records `name` and `name_extra` in `names`, their values in `entries`, and changes nothing else |
| Perfmon.StepSeparator | perfmon2csv.py:51-52 | the separator changes nothing and ends the block exactly when it has values |
| Perfmon.StepCounterName | perfmon2csv.py:53-55 | the first other line becomes the counter name |
| Perfmon.StepNeedsRange | perfmon2csv.py:56-62 | the next line must be a sample range, else the step raises; on success the range is set |
| Perfmon.StepKeepsValues | perfmon2csv.py:63-80 | a `Lifetime` line or a line that is not a counter leaves the values alone |
| Perfmon.StepKeepsWellFormed | perfmon2csv.py:50-80 | a step keeps entries' keys equal to `names`, with the name and range set once values exist |
| Perfmon.AddCounterKeepsWellFormed | perfmon2csv.py:66-76 | adding a counter keeps that invariant |
| Perfmon.ToDict | perfmon2csv.py:40-48 | the five fixed keys plus the entries, with an entry winning over a fixed key of the same name |
| Perfmon.PerfmonEntry.constructor | perfmon2csv.py:30-38 | the fields equal the new block |
| Perfmon.PerfmonEntry.Process | perfmon2csv.py:50-80 | the fields and the result are `Step`'s; on an error nothing changes |
| Perfmon.PerfmonEntry.Record | perfmon2csv.py:68-76 | the fields become `AddCounter`'s block |
| Perfmon.ProcessLogLine | perfmon2csv.py:96-100 | no entry exactly when the line is not a perfmon header; otherwise a new entry for its date and time |
| Perfmon.OutsideBlockSkipped | perfmon2csv.py:115-116 | outside a block, a line that is not a header is skipped |
| Perfmon.ReadLinesStep | perfmon2csv.py:109-116 | reading one more line is one more step on the stripped line |
| Perfmon.FirstErrorStops | perfmon2csv.py:59 | the first error ends the whole file with that error |
| Perfmon.ReadLinesWellFormed | perfmon2csv.py:105-118 | every block returned is well formed, has values, a name and a range |
| Perfmon.ReadInto | perfmon2csv.py:111-116 | one pass of the loop mirrors `ReadLine` on the objects |
| Perfmon.ProcessFile | perfmon2csv.py:105-118 | the entries returned hold exactly the blocks of `ReadBlocks`, or its error |
| Perfmon.InsertNameSorted | perfmon2csv.py:125 | insertion keeps the names sorted and distinct, adding only the new name |
| Perfmon.ListCountersSortedDistinct | perfmon2csv.py:124-127 | the listed names are sorted, distinct, and exactly the blocks' counter names |
| AspenP95.VerbEnd | aspenp95.py:8 | the method group matched one of the five verbs, followed by a tab |
| AspenP95.HitAt | aspenp95.py:8 | a match at a tab has digits, `ms\t`, a status field and a request of at least one character within the line |
| AspenP95.StatusFrom | aspenp95.py:8 | after the agent, a tab, three digits, a tab, a verb and a tab; the request runs to the first `?`, tab or end of line |
| AspenP95.HitDigits | aspenp95.py:8 | the duration group is all digits |
| AspenP95.RequestHasNoQuery | aspenp95.py:8 | the request group holds no `?` and no tab |
| AspenP95.LastHit | aspenp95.py:8 | greedy `.*` backtracks from the right: the hit found is a hit, in range |
| AspenP95.LastHitIsLast | aspenp95.py:8 | and it is the last one: no later position matches |
| AspenP95.FindHit | aspenp95.py:8 | a match starts with a `####-##-##` date and has no line break before its tab |
| AspenP95.ParseResponse | aspenp95.py:8 | a line is a response exactly when the pattern matches; the duration and request are its groups |
| AspenP95.ResponseLine | aspenp95.py:8 | every line of the response shape is matched with exactly its duration and request |
| AspenP95.SubSession | aspenp95.py:15 | without `jsessionid=` the request is unchanged |
| AspenP95.SessionTruncates | aspenp95.py:41 | on one line, everything from the first `jsessionid=` is replaced by `jsessionid` |
| AspenP95.SessionGone | aspenp95.py:41 | afterwards, no `jsessionid=` is left |
| AspenP95.SessionIdempotent | aspenp95.py:41 | the substitution is idempotent |
| AspenP95.SubOid | aspenp95.py:42 | the object-id substitution never lengthens the request |
| AspenP95.NoOidUnchanged | aspenp95.py:42 | a request with no object id is unchanged |
| AspenP95.LoneOidReplaced | aspenp95.py:42 | a single id between slash-free parts becomes `/*OID*/` |
| AspenP95.SharedSlash | aspenp95.py:42 | two ids sharing a slash: only the first is replaced, because matches do not overlap |
| AspenP95.OtherAt | aspenp95.py:17 | at a position, which folder of `banner`, `assignments`, `submissions` starts there, if any |
| AspenP95.FirstOther | aspenp95.py:43 | the leftmost folder occurrence; none earlier |
| AspenP95.SubOther | aspenp95.py:43 | without a folder the request is unchanged |
| AspenP95.OtherTruncates | aspenp95.py:43 | on one line, from the first folder on, the rest becomes `/name/*OID*` |
| AspenP95.Append | aspenp95.py:44-46 | `defaultdict(list)` append: one key gains the duration, the others keep their lists |
| AspenP95.GetDurations | aspenp95.py:19-27 | the loop collects exactly the durations of the response lines, in order |
| AspenP95.GetSplitDurations | aspenp95.py:29-48 | the loop builds exactly `SplitDurations` |
| AspenP95.SplitStep | aspenp95.py:32-46 | one more line is one more `FileLine` step |
| AspenP95.AllKeyPresent | aspenp95.py:44 | `"all"` is a key exactly when some line is a response |
| AspenP95.AllHoldsEveryDuration | aspenp95.py:44 | `"all"` holds every duration, in order, when no path is itself `"all"` |
| AspenP95.UnsplitOnlyAll | aspenp95.py:45 | without split, `"all"` is the only key |
| AspenP95.SplitByPath | aspenp95.py:45-46 | with split, a path is a key exactly when it has durations, and it holds exactly its durations in order |
| AspenP95.PathListed | aspenp95.py:46 | every response's normalised path has durations |
| AspenP95.MatchedPathIsKey | aspenp95.py:46 | every response's normalised path is a key besides `"all"` |
| AspenP95.DistinctOnce | aspenp95.py:48 | each distinct path is counted once |
| AspenP95.CountsAddUp | aspenp95.py:44-46 | over distinct paths covering all responses, the per-path counts add up to the total |
| AspenP95.SumLengthsOfSplit | aspenp95.py:48 | the per-path list lengths of the result are the per-path counts |
| AspenP95.AllIsSumOfPaths | aspenp95.py:44-48 | the length of `"all"` is the sum of the per-path lengths |
| Text.RStrip | structuredlog.py:99 | `rstrip()` removes exactly the trailing whitespace |
| Text.LStripChars | tool_entry.py:19 | `lstrip(chars)` removes exactly the leading run of those characters |
| Text.IndexOf | aspenp95.py:15 | the first occurrence, and none before it; found exactly when the text contains it |

## Left out

- Regular-expression classes `\d` and `\w` are ASCII only. Python's `re` also accepts other Unicode digits and letters for them. The explicit ranges such as `[A-Z]` and `[a-zA-Z0-9]` are ASCII in Python as well. `\s` and `rstrip()` use Python's full `str.isspace` set.
- File I/O and argument parsing are left out: `process`, `process_perfmon`, `process_aspenlog`'s `open`, `main`. Files are given as sequences of lines.
- `print` output is left out. The "Whups" message of `aspenlog.process_file` is a diagnostic count, and the `print('bad', line)` of `PerfmonEntry.process` is a line left alone.
- `AspenLogEntry` is a pydantic model. It is modelled as a value, since nothing aliases it during reading.
- `json.loads` and the payload fields of `ToolEntry` are an abstract `decode` parameter. A payload that does not decode, or lacks a field, is an error.
- `ToolLocationType`, `is_start` and `is_finish` are folded into the decoded type.
- `float()` on counter values and `dateutil.parser.parse` on sample times are left out. Values are kept as the matched numerals, and sample times as `date hh:mm:ss` text. In the source, `float()` raises `ValueError` on numerals that `[0-9.-]*` accepts but `float` rejects, such as `-`, `.`, `1.2.3` or `1-2` (`perfmon2csv.py:73`). `parse` raises on times the pattern accepts but that are not clock times, such as `25:61:00` (`perfmon2csv.py:60-61`). Either error aborts `process_file`, while `Perfmon.Step` and `Perfmon.AddCounter` record the value and go on.
- `PerfmonEntry.lifetime_entries` is a flag. The source sets it to an empty dict and never reads it.
- `StructuredLog.LogEntry.constructor`: `concurrent_jobs` starts at 0. In the source the attribute exists only after the marking pass.
- `dump`, `print_csv_header`, `print_csv`, `perfmon_to_dataframe`, `get_dataframe`, `show_exceptions`, `print_percentile`, `output_results`, percentiles, medians and sums are left out. They are reporting over pandas and numpy.
- `grablog.py`, `logweb.py` and `log_analysis.py` are not part of this model.
- `numpy.array` wrapping of the duration lists is left out. The lists are kept as sequences.
- `AspenP95.ParseResponse`: lines are not stripped before matching, as in the source. A request that runs to the end of its line keeps the trailing line break, and so does its key.
- `AspenP95.SessionTruncates`, `AspenP95.OtherTruncates`, `AspenP95.SessionGone`, `AspenP95.SessionIdempotent`: stated for one line (no line break before the last character), since `.` stops at a line break and requests come from single lines.
- `AspenP95.VerbEnd`: the `(GET|POST|HEAD|DELETE|PATCH)\t` alternation is written as a run of capitals followed by a tab and looked up in the verb set. This is the same language, because no verb is a prefix of another followed by capitals.
- `AspenP95.SubOid`: only specific shapes are stated (no id, one id, two ids sharing a slash), not a general characterisation of `re.sub`.
- `Perfmon.ParseHeader`: regex backtracking is modelled only between `\d+` and `\w+`. That is the only place where the header pattern can backtrack.
- `Tools.GetToolsSucceeds`: stated in terms of each tool entry decoding. Which Python exception is raised is reduced to an error value.
