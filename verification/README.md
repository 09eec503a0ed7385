# Nagios check receiver, verified

A Dafny model of the Nagios check receiver: a collector component that reads check results
from a rotating perfdata file, from the Nagios JSON CGI or from a Livestatus socket, drops
checks that have not run since they were last emitted, and turns the others into metrics.
`dafny verify dfyconfig.toml` checks the whole project.

## What is modelled

The file mode is followed from bytes to metrics.

* **Tailing** (`FileTailer.dfy`, `TailerStart.dfy`, `TailerDelivery.dfy`, `TailerLoss.dfy`,
  `FileSource.dfy`). The tailer is a
  transition system whose steps are single system calls (start, seek, read, stat, drain, close,
  open, read), interleaved with anything a writer and a rotation tool do: appending, moving the
  file away, unlinking it, publishing a new one under the path. A file *generation* has an inode
  number, which may be taken again once its file is neither linked nor held open. A run is any
  sequence of such actions; an action that is not possible changes nothing. The objects
  `TrackedFile` and `Tailer` perform the same calls on mutable fields, and each of their methods
  is proved to be a run of the transition system.
* **Line formats and performance data** (`LineFormats.dfy`, `Tokenizer.dfy`, `Perfdata.dfy`,
  `Numerals.dfy`, `Values.dfy`, with `PerfdataRoundTrip.dfy` and `Framing.dfy`). The three tab-delimited
  framings, the quote-aware tokenizer, the value and unit splitter and the range reader, each
  against a printer of the format that the Nagios Plugin Development Guidelines define
  ("Performance data", "Threshold and ranges"). A number is the exact decimal its
  text denotes, and is worth what its digits are worth at their places.
* **De-duplication and emission** (`Scraper.dfy`, `MetricsBuilder.dfy`, `Deduplication.dfy`,
  `EmittedContent.dfy`, `EmittedFields.dfy`, `PrintedMetrics.dfy`). The scrape loop with its cache, and the metrics builder with nine
  buffers that are filled for one check, moved into a resource, possibly filtered away, and
  emptied. The de-duplication is stated over the whole stream of results ever collected.
* **End to end** (`Pipeline.dfy`, `Receiver.dfy`, `Scenarios.dfy`). What a receiver of one service
  file emits is determined by the text written to the file since it started, whatever the polling
  schedule, and by the list of results that Nagios wrote, when the text is theirs. Stat and open
  calls may fail at any time: a failure delays, and the only thing ever lost is what was in hand
  when an open failed.
* **The other two modes** where they do not depend on the network: the Livestatus row
  (`LineFormats.dfy`) and the map loops behind JSON decoding (`ApiClient.dfy`, `ApiOrder.dfy`).

Clock readings, the success of stat and open calls, the writer's actions between system calls
and the iteration order of Go maps are inputs. Attribute filters are arbitrary predicates.

## Where the code does not do what it may seem to

Each of these is a theorem, with the exact condition under which the code does.

* A default-format line without visible perfdata is dropped: collecting trims the line, the
  trimming removes the empty last field, and the line then has too few fields
  (`LineFormats.DefaultLineCollected`).
* A label survives the round trip if and only if it is not empty and holds neither `'` nor `=`.
  The Guidelines write a quote inside a label twice; the parser strips quotes at the ends and never undoubles
  them (`PerfdataRoundTrip.PerfdataRoundTrips`).
* A unit that begins with a character numbers may hold, such as `E`, is lost
  (`Perfdata.UnitSurvives`).
* When reopening the service file fails with anything but "not found", what was read in that collect
  is lost, although later collects succeed. Every record that is written and not seen by a scrape was
  in hand at such a moment, and none is lost if and only if none was ever in hand when an open failed
  (`Pipeline.StreamHasAllLines`, `Pipeline.EverythingDelivered`; `Scenarios.RecordLost` is a run in
  which any given record is the one written and the one lost). Host lines are kept in that case
  (`Pipeline.HostRecordsDelivered`).
* Apart from that, text is lost if and only if someone writes to a file after its last drain or takes
  a file with something in it away from the path before it was opened (`TailerLoss.ReadsAllIffLossless`).
* The comment on `readNewLinesFromTracker` (file_tailer.go:158-159) speaks of complete lines; the
  code returns an unterminated tail as a line. A text read in two parts yields its lines if and
  only if the first part ends a line or the second is empty (`FileTailer.LinesOfParts`).
* A cache key identifies its check if and only if neither host name nor description holds a NUL
  (`Deduplication.KeyIdentifies`); `Deduplication.KeysAreChecks` says exactly which pairs collide.
* The cache after an API scrape is independent of the map iteration order if and only if entries
  of one key that carry a check time agree on it (`ApiClient.CacheOrderIndependence`); the resources
  emitted are, whatever was seen before, if and only if such entries emit alike and, unless they emit
  nothing, agree on it (`ApiOrder.EmittedOrderIndependence`).

## Model

| member | source | states |
|---|---|---|
| `FileTailer.Conservation` | file_tailer.go:60-209 | In every interleaving of writer, rotation tool and tailer, what was read is the concatenation over the generations opened, in order and once each, of one stretch of each; stretches start at byte 0 except for the file present at start, whose stretch starts at its end then |
| `TailerStart.StartsAtEnd` | file_tailer.go:61-77 | Where the first stretch starts was fixed by a seek, at which it was the length of the file then held |
| `TailerStart.OldTextSkipped` | file_tailer.go:70-77 | What that file held at the seek is neither read nor counted as written since the start; what was appended to it later, and all of every later file, is |
| `TailerStart.FreshStart` | file_tailer.go:61-68 | Without a file at start, every file is read from its first byte, and all their text counts |
| `TailerStart.FirstAtStart` | file_tailer.go:61-68 | The generations that count begin with the one at the path when the tailer starts, or with the next to come |
| `FileTailer.RotationDetected` | file_tailer.go:213-234 | In every reachable state with a held file, the inode comparison reports a rotation exactly when the path is absent or names another generation, although inode numbers are reused |
| `FileTailer.RotationExact` | file_tailer.go:227-233 | The reason: a held file's inode number cannot be taken by another file |
| `Scenarios.InodeRecycled` | file_tailer.go:229-233 | Once the file is closed the guarantee is gone: a run in which the first file was opened and is no longer held, and the next file at the path carries the first one's inode number, which the tailer remembers, so that only the test for a held file makes it open the path |
| `FileTailer.StepKeeps` | file_tailer.go:160-209 | Every single action keeps the invariant: distinct inode numbers in use, sessions in order and within their files, consumed text as recorded, and a path that moves on once a file is given up |
| `FileTailer.EnvKeeps` | file_tailer.go:160-209 | Whatever writer and rotation tool do between two system calls keeps that invariant |
| `FileTailer.LinesOfParts` | file_tailer.go:257-264 | Scanning a text in two parts gives the lines of the whole if and only if the first part ends at the end of a line or the second is empty |
| `FileTailer.ScanConcat` | file_tailer.go:257-264 | Lines of consecutive reads add up when the first read ends a line |
| `FileTailer.LineEnds` | file_tailer.go:257-264 | A line ends at its first newline, and one carriage return before it goes too |
| `TailerDelivery.CollectDelivers` | file_tailer.go:160-209 | No loss: if no file is rotated away before it was opened and none is written after its last drain, each finished collect whose own stat and open succeeded, whatever failed before, has read, of every generation that existed when it began, all bytes it had then; no collect fails if no open does |
| `TailerDelivery.CaughtUpReadsAll` | file_tailer.go:160-209 | In such a run, when the latest collect began after the last write and met no failure, the text read is all text written since the start: earlier failures of stat and open only delayed it |
| `TailerDelivery.QuietCollectReadsAll` | file_tailer.go:160-209 | From every state of such a run, wherever a collect may be and whatever failed before, finishing it and one more collect read all text written since the start, if nothing happens in between |
| `TailerDelivery.HistoryFromTrace` | file_tailer.go:60-79 | What was written since the start is determined by what writers and rotation tools did and when the tailer started, not by its collects or their failures |
| `TailerLoss.ReadsAllIffLossless` | file_tailer.go:160-209 | No loss, exactly: in any run whatever, a tailer that caught up has read all text written since the start if and only if nobody wrote to a file that was given up and no file was taken away from the path with something in it before it was opened |
| `TailerLoss.StepLost` | file_tailer.go:160-209 | Step by step: a generation is lost for good exactly by such an action, and by no step of the tailer, failing or not |
| `TailerLoss.ReadsAllWhenSettled` | file_tailer.go:160-209 | In any reachable state, the text read is all that was written if and only if every generation since the start is read to its end or empty |
| `TailerLoss.GentleIsLossless` | file_tailer.go:178-206 | Runs with spaced rotations and no writes after the last drain lose nothing |
| `TailerLoss.QuietLosslessReadsAll` | file_tailer.go:160-209 | From every state of a run without loss, finishing the collect under way and one more read all that was written |
| `TailerDelivery.LinesOfText` | file_tailer.go:257-264 | With whole-line appends, the lines of all collects are the lines of the text read, however the reads fell |
| `TailerDelivery.StepDelivers` | file_tailer.go:160-209 | Every single action, a failing stat or open included, keeps what no-loss rests on: generations opened consecutively, each read to its end when given up |
| `FileSource.TrackedFile.InitTracker` | file_tailer.go:60-79 | Opening the file, when it exists, and seeking to its end is the start of a run, after which the offset is the length of the file; other failures change nothing |
| `FileSource.TrackedFile.ReadLines` | file_tailer.go:257-264 | The scanner loop returns the lines of everything from the offset to the end of the file and moves the offset there |
| `FileSource.TrackedFile.FindRotation` | file_tailer.go:163-176 | Reading the held file and examining the path are steps of the transition system; a failing stat counts as no rotation |
| `FileSource.TrackedFile.DrainAndClose` | file_tailer.go:179-185 | Draining and closing are steps; the drained lines join the collect in progress |
| `FileSource.TrackedFile.Reopen` | file_tailer.go:187-206 | Opening and reading the new file are steps; a missing path ends the collect without failure, another error with failure |
| `FileSource.TrackedFile.ReadNewLines` | file_tailer.go:160-209 | One call is a run of the transition system with arbitrary interference before each system call, and returns the lines and the failure that the run records |
| `FileSource.Tailer.Collect` | file_tailer.go:94-141 | The records of the new service lines, then of the new host lines; a failure of the service file drops its lines and leaves the host file unread, a failure of the host file does not |
| `LineFormats.CollectLines` | file_tailer.go:107-118 | The collecting loop: trimmed lines that are neither blank nor unreadable, parsed, in order |
| `LineFormats.ParseLinesConcat` | file_tailer.go:107-118 | Parsing is line by line: batching does not matter |
| `LineFormats.DefaultLinesAccepted` | file_tailer.go:268-297 | A default service or host line is accepted exactly when it starts with its tag and holds at least six, or five, tabs |
| `LineFormats.DefaultLineReads` | file_tailer.go:268-286 | A service line reads back as its record, for any texts that are read as its state and its time |
| `LineFormats.DefaultHostLineReads` | file_tailer.go:290-308 | A host line reads back as its record under the description `Host Check`, for any texts that are read as its state and its time |
| `LineFormats.NagiosWordings` | file_tailer.go:385-402 | The words Nagios writes are such texts: OK, WARNING, CRITICAL and UNKNOWN for services, UP, DOWN and UNREACHABLE for hosts, and the time in digits |
| `LineFormats.DefaultLineCollected` | file_tailer.go:107-117 | After the trimming that collecting does, a service line is accepted exactly when it has visible perfdata, which then loses only trailing spaces |
| `LineFormats.DefaultHostLineCollected` | file_tailer.go:126-136 | The same for host lines |
| `LineFormats.ParsePNP4NagiosFields` | file_tailer.go:372-383 | The loop over the parts computes the field map |
| `LineFormats.FieldMapMeaning` | file_tailer.go:372-383 | For any line, the map binds exactly the keys in front of some part's first `::`, each to the value in the last part with that key |
| `LineFormats.FieldsReadBack` | file_tailer.go:372-383 | Printing distinct keys free of colons and tabs, with tab-free values that may hold `::`, and reading them back gives the same bindings and no others |
| `LineFormats.PnpLinesAccepted` | file_tailer.go:312-351 | A PNP4Nagios line is accepted exactly when some part binds each required key |
| `LineFormats.PnpLineReads` | file_tailer.go:312-342 | A service line with a host name and a description reads back as its record, whatever the field order and further fields; every other field may be missing and then reads as empty; command arguments are cut |
| `LineFormats.PnpHostLineReads` | file_tailer.go:345-370 | The same for host lines, in which only the host name is needed |
| `LineFormats.PnpLineCollected` | file_tailer.go:107-112 | The trimming that collecting does costs a PNP4Nagios line only the trailing spaces of its last value |
| `LineFormats.StatesRecognised` | file_tailer.go:385-396 | A field reads as a known state exactly when it is some spaces, one of that state's words with each letter in either case, and some spaces; as unknown exactly when it is no such text |
| `LineFormats.TimetReads` | file_tailer.go:399-402 | Every 64-bit time reads back as itself |
| `LineFormats.UnreadableTimes` | file_tailer.go:398-402 | A time that is missing or has no digit reads as 0 |
| `LineFormats.FileRecordsUntimed` | file_tailer.go:278-285 | Records read from files, in any format, have execution time and latency 0 |
| `LineFormats.LivestatusLineReads` | livestatus_client.go:124-156 | A printed row reads back as its record: perfdata semicolons and spaces survive, command arguments are cut |
| `LineFormats.LivestatusLinesAccepted` | livestatus_client.go:124-135 | A row is accepted exactly when it has at least nine columns and its state column is a 64-bit integer |
| `Tokenizer.Tokenize` | perfdata_parser.go:69-94 | The loop over `inQuote`, `current` and `tokens` computes the tokens |
| `Tokenizer.TokensSpecification` | perfdata_parser.go:69-94 | For every text, unbalanced quotes included: tokens are non-empty and hold no separating space, all but the last are quote-balanced, they spell the text without its separating spaces, and joined by spaces they are tokenized into themselves |
| `Tokenizer.TokensHomomorphism` | perfdata_parser.go:74-91 | Tokenizing `a`, a space and `b` gives the tokens of `a` and those of `b`, for every quote-balanced `a` and every `b` |
| `Tokenizer.TokensArePieces` | perfdata_parser.go:69-94 | However a text is cut at all its separating spaces, its tokens are the non-empty pieces |
| `Tokenizer.PiecesCover` | perfdata_parser.go:74-91 | Every text has such a cut |
| `Tokenizer.SomeToken` | perfdata_parser.go:89-91 | A text with anything but spaces has a token |
| `Perfdata.ParseValueAndUOM` | perfdata_parser.go:149-181 | The scanning loop takes exactly the leading run of number characters |
| `Perfdata.UnitSurvives` | perfdata_parser.go:156-178 | Number and unit are split apart again if and only if the unit does not begin with a character that numbers may hold |
| `Perfdata.TokenErrors` | perfdata_parser.go:97-108 | A token is refused for want of an equals sign exactly when it has none, and for an empty label exactly when only quotes stand before its first one |
| `Perfdata.RangeSpelled` | perfdata_parser.go:183-186 | The printer of ranges writes start, colon, end, `~` for an infinite start and `@` in front |
| `Perfdata.ThresholdReadsUpperBound` | perfdata_parser.go:186-210 | For every range in the grammar, reading its printed form gives the upper bound when there is one and nothing otherwise |
| `Perfdata.OptionalFloatReads` | perfdata_parser.go:213-223 | An optional field is read as its number, or as absent when it is empty |
| `Perfdata.ParsePerfdata` | perfdata_parser.go:41-65 | The parsing loop collects successes and failures in token order |
| `Perfdata.PartialFailures` | perfdata_parser.go:41-65 | What parses is returned in order and the rest skipped; an error is reported exactly when there is something to parse and none of it parses; a text with content has a token |
| `PerfdataRoundTrip.TokenRoundTrip` | perfdata_parser.go:97-146 | A printed sample reads back as what it means if and only if its label is not empty and holds neither a quote nor an equals sign |
| `PerfdataRoundTrip.PrintedTokens` | perfdata_parser.go:69-94 | The tokens of a printed list are its printed samples, whatever their labels hold |
| `PerfdataRoundTrip.SampleSpelled` | perfdata_parser.go:38-40 | The printer of samples writes label, equals sign, value and unit, warning, critical, minimum and maximum, in this order |
| `PerfdataRoundTrip.PerfdataRoundTrips` | perfdata_parser.go:38-146 | A printed list, trailing absent fields optionally dropped, is parsed back to exactly what it means if and only if every label is clean |
| `PerfdataRoundTrip.KnownUnitsInjective` | perfdata_parser.go:25-36 | The unit table is injective, so the round trip also returns units |
| `PerfdataRoundTrip.UnitNames` | perfdata_parser.go:25-36 | Byte units gain a `y`, seconds and percent keep their names, counters are `{count}`, no unit and unknown units are `1` |
| `Numerals.ParseFloatMeaning` | perfdata_parser.go:171-174 | A text is accepted exactly when it spells a decimal numeral, and yields the number it denotes |
| `Values.ParseFloatWorth` | perfdata_parser.go:171-174 | The number read is worth, as a real number, the digits before the point at their places plus the digits after it at theirs, times its sign and the power of ten of its exponent; and such a number is read exactly when the text is such a spelling |
| `Values.OneDigitMore` | perfdata_parser.go:171-174 | A digit more after the point adds that digit over the power of ten of its place |
| `Numerals.ReadSpelled` | perfdata_parser.go:171-174 | Texts and spellings correspond one to one |
| `Numerals.NumeralSpelled` | perfdata_parser.go:171-174 | The printer of numbers writes sign, digits, point, digits, exponent mark, sign, digits |
| `Numerals.ParseFormattedInt` | file_tailer.go:399-402 | Every 64-bit integer is read back from its decimal form |
| `Numerals.DigitsThenOther` | file_tailer.go:399-402 | Digits followed by another character saturate when they overflow 64 unsigned bits, since the overflow is met first, and read as 0 otherwise |
| `Framing.LivestatusSamples` | livestatus_client.go:124-156 | Samples printed into a row come back with the whole record; they mean the same if and only if their labels are clean |
| `Framing.DefaultLineSamples` | file_tailer.go:268-286 | The same through a default service line and the trimming; without samples the line is dropped |
| `Framing.DefaultHostLineSamples` | file_tailer.go:290-308 | The same for host lines |
| `Framing.PnpLineSamples` | file_tailer.go:312-342 | The same through a trimmed PNP4Nagios line, wherever the perfdata field stands |
| `Framing.PnpHostLineSamples` | file_tailer.go:345-370 | The same for host lines |
| `Framing.FileArrives` | file_tailer.go:94-137 | The records read from the text of a whole service or host perfdata file, whatever words its lines use for state and time, are those written to it, in order, without those that have no visible perfdata |
| `Framing.LinesArrive` | file_tailer.go:107-118 | Scanning and parsing a text of lines is parsing the lines, carriage returns included |
| `Framing.PnpFileArrives` | file_tailer.go:94-137 | The records read from the text of a whole PNP4Nagios service or host file are all those written to it, in order, each line with its own field order, missing fields and words |
| `Deduplication.KeysAreChecks` | scraper.go:120 | For any two results: their cache keys are equal exactly when they are of one check, or one text cut at two different NULs; without NUL in host names, exactly when they are of one check |
| `Deduplication.KeyIdentifies` | scraper.go:120 | A key is shared with no other check if and only if neither host name nor description holds a NUL |
| `Deduplication.KeysCollide` | scraper.go:120 | Two concrete checks that share a key |
| `Deduplication.CacheIsLatest` | scraper.go:119-125 | The cache binds exactly the keys that occur with a check time, each to its latest one |
| `Deduplication.EmittedWithoutRepeats` | scraper.go:113-125 | Over the whole stream, what is emitted is what was collected without the timed results that repeat the check time of their key's previous timed result |
| `Deduplication.PerCheckDestuttered` | scraper.go:113-125 | Per key, adjacent equal check times are removed and nothing else, a time that goes backwards included; results without a check time are all emitted |
| `Deduplication.BatchingInvariance` | scraper.go:113-189 | One batch or two: the same cache and the same output |
| `Deduplication.ScrapesFollowStream` | scraper.go:99-190 | Any sequence of scrapes, failed and empty ones included, ends with the cache and emits the results that de-duplicating the whole stream at once does, each under the clock of some scrape |
| `Deduplication.StampsByPolls` | scraper.go:111-132 | Those clocks are the readings of scrapes in the order of the scrapes |
| `MetricsBuilders.MetricsBuilder.RecordDataPoint` | internal/metadata/generated_metrics.go:472-482 | A data point goes to its own buffer, and nowhere if the metric is disabled |
| `MetricsBuilders.MetricsBuilder.EmitMetric` | internal/metadata/generated_metrics.go:492-498 | A buffer's points move out and the buffer is empty; other buffers are untouched |
| `MetricsBuilders.MetricsBuilder.EmitForResource` | internal/metadata/generated_metrics.go:706-741 | All nine buffers are empty afterwards, also when a filter drops the resource; the output grows by the recorded points as one resource or not at all |
| `MetricsBuilders.MetricsBuilder.Emit` | internal/metadata/generated_metrics.go:746-751 | The trailing emission adds no resource when the buffers are empty |
| `Scraper.NagiosScraper.Record` | scraper.go:127-175 | Recording one result into empty buffers leaves in each exactly the points that result determines |
| `Scraper.NagiosScraper.RecordSamples` | scraper.go:159-174 | The samples of a result add to each perfdata buffer the points of those that carry its field, in order |
| `Scraper.NagiosScraper.ScrapeResult` | scraper.go:113-187 | One turn of the loop starts and ends with nine empty buffers; a repeated check changes nothing, another is remembered and adds the resource that it alone determines |
| `Scraper.NagiosScraper.Scrape` | scraper.go:99-190 | A failed collect changes nothing; otherwise cache, output and perfdata errors are those of the whole batch, in order |
| `EmittedContent.EmittedIsOwn` | scraper.go:127-187 | An emitted resource has its check's attributes and, for each enabled metric with points, exactly that check's points, each metric once and in the builder's order, all points under one timestamp |
| `EmittedFields.CheckMetrics` | scraper.go:127-145 | An emitted resource reports the state with its name, the execution time, the latency and, exactly when there is one, the check time, each as one point under its own metric if enabled, stamped with the check time in nanoseconds or else the clock |
| `EmittedFields.SampleMetrics` | scraper.go:158-175 | It reports the value, warning, critical, minimum and maximum of the samples, each under its own metric if enabled: one point for every sample that has the field, in order, with the field's value and the sample's label and unit |
| `EmittedFields.AttributesIdentify` | scraper.go:178-184 | Its attributes are the enabled ones of host, description, source and, when known, command, with the check's values, and no others |
| `EmittedContent.EmittedWhen` | internal/metadata/generated_metrics.go:723-740 | A check is emitted exactly when the filters pass its resource and some enabled metric has a point |
| `EmittedFields.EmittedIff` | internal/metadata/generated_metrics.go:726-740 | Spelled out: exactly when every include filter on an attribute it has matches, no exclude filter does, and some enabled metric has something to report |
| `EmittedFields.FilteredOut` | internal/metadata/generated_metrics.go:726-735 | One attribute that its exclude filter matches, or its include filter does not, drops the check |
| `EmittedFields.ErrorsReported` | scraper.go:148-157 | A scrape reports one error for each check, in order, whose perfdata holds something and none of whose tokens parses; it names all of them |
| `EmittedContent.SamplePointsInOrder` | scraper.go:159-174 | A perfdata metric holds one point for each sample that carries its field, at the position that the number of earlier such samples gives |
| `EmittedContent.AllValuesCarried` | scraper.go:160 | Every sample has a value point |
| `EmittedContent.TimedIgnoresClock` | scraper.go:127-132 | A check with a check time is emitted alike whenever it is scraped |
| `EmittedContent.NanosExact` | scraper.go:131 | Its timestamp is exact if and only if its nanoseconds fit into 64 bits |
| `ApiClient.ParseServiceList` | api_client.go:176-202 | The nested map loops yield the results of all entries and no others, host by host, each entry once, in some such order; each result has its entry's host, description, output, perfdata, execution time and latency, the state of its status bit, the whole seconds between its check time and zero, and no command |
| `ApiClient.OrderIndependence` | api_client.go:176-200 | For distinct checks, every iteration order ends with the same cache and emits the same multiset of resources |
| `ApiClient.CacheOrderIndependence` | api_client.go:176-200 | The cache is the same for all orders that nested iteration can produce if and only if entries that share a key agree on their check time |
| `ApiClient.MoveLast` | api_client.go:177-178 | Any entry can come last in nested iteration: its host last, and it last among its host's entries |
| `ApiOrder.EmittedOrderIndependence` | api_client.go:176-200 | The emitted multiset of resources is the same for all orders, whatever was seen before, if and only if entries that share a key and carry check times emit alike and, unless they emit nothing, agree on the time |
| `ApiClient.ApiStates` | api_client.go:149-187 | Each known state comes from its own status bit alone; every other mask is unknown |
| `ApiClient.TruncatesTowardsZero` | api_client.go:195 | Milliseconds turn into the whole seconds between them and zero |
| `Pipeline.StreamHasAllLines` | file_tailer.go:103-106 | In every run, the records of the lines read fall into one stretch for each collect, in order: those of the collects that did not fail are what the scrapes see, the others what was in hand whenever an open failed; the scrapes see all if and only if no record was ever in hand when an open failed |
| `Scenarios.RecordLost` | file_tailer.go:103-106 | For any result with visible perfdata, a run in which it alone is written, an open fails once after it was read, the next collect succeeds and catches up, and the scrapes see nothing |
| `Pipeline.FairRunsAbound` | file_tailer.go:160-209 | Every run with whole-line appends and without loss, failing calls included, extends to one that the end-to-end theorems are about, by leaving the tailer alone for the rest of a collect and one more; no more records are dropped in between |
| `Pipeline.EverythingDelivered` | file_tailer.go:94-118 | In a run with whole-line appends, without loss and with a smooth last collect after the last write, the scrapes see the records of the text written since the start, in order, but for the stretches in hand whenever an open failed; they see them all if and only if there was no record in those |
| `Pipeline.HostRecordsDelivered` | file_tailer.go:121-137 | Of a host file, all records written since the start are collected, whatever failed before |
| `Pipeline.RunFollowsText` | scraper.go:99-190 | Such a run in which no failing open dropped a record emits what its text determines: its records de-duplicated as one stream, each under the clock reading of some scrape, in the order of the scrapes |
| `Pipeline.PollingIndependence` | file_tailer.go:94-118 | Two such runs over the same text, whatever their rotations, schedules and failures, end with the same cache and emit the same resources but for timestamps; with check times everywhere the outputs are equal |
| `Pipeline.SchedulesAgree` | file_tailer.go:94-118 | In particular two schedules over the same doings of writers and rotation tools |
| `Pipeline.OnlyUntimedClocks` | scraper.go:127-132 | Only the clock readings of checks without a check time can matter |
| `Pipeline.ClocksOnlyDate` | scraper.go:127-132 | And those change nothing but timestamps |
| `Pipeline.WrittenIsEmitted` | scraper.go:99-190 | When the text is what Nagios writes for a list of results, the run emits those with visible perfdata that do not repeat their check's previous check time, in order and once each |
| `Pipeline.ReportsAreEmitted` | scraper.go:99-190 | The same for the text of a PNP4Nagios file, in which every result arrives, however few fields its line has |
| `Pipeline.SampleBecomesPoint` | scraper.go:158-175 | Each field of a sample written becomes the value of a point of its metric, labelled with the sample's name and unit, at the position that the number of earlier samples with that field gives |
| `PrintedMetrics.PrintedSampleMetrics` | scraper.go:158-175 | Samples printed with clean labels are emitted field by field: values, upper bounds of warning and critical ranges, minima and maxima each under their own metric, in order, labelled with the names and units printed |
| `Receiver.FileReceiver.Poll` | scraper.go:99-190 | One scrape of the receiver object, collect included: cache and output so far stay those of all scrapes taken together |
| `Receiver.EmittedFollowsText` | scraper.go:99-190 | What the object has emitted once it caught up is determined by the text written since it started, unless a failing open dropped a record |

## Left out

- HTTP, retries and back-off, sockets, dialling, deadlines, and the scanner loop over a Livestatus response: network plumbing; only the row parser is modelled.
- JSON decoding and the envelope checks: the API model starts at the decoded nested map.
- Configuration, its validation and the factory.
- Floating point: numbers are exact decimals, so rounding, overflow to infinity, the cap on very long exponents and the spellings `inf`, `nan`, hexadecimal and with underscores are not modelled.
- Bytes: text is a sequence of Unicode characters, so invalid UTF-8 and the byte-wise scanning of multi-byte characters are not modelled; upper-casing covers the characters that can become ASCII letters.
- Read errors, the scanner's line length limit, failing seeks and closes.
- In-place truncation, linking an old generation under the path again, rotation across file systems: a generation only grows and never returns to the path.
- A receiver of both files: the end-to-end output theorems are about one service file. The host file has its own tailer, its records are delivered (Pipeline.HostRecordsDelivered), but how the two streams interleave in one cache is stated only as scrapes of any results (Deduplication.ScrapesFollowStream).
- Logging, shutting down, metric names and descriptions, schema and scope, slice capacities, pattern matching inside resource filters, the start time override.
- What the scraper controller does with metrics that come together with perfdata errors.
- FileSource.TrackedFile.ReadNewLines: interference happens before system calls other than the first of a collect; what happens before the first one belongs to the time between collects.
- TailerDelivery.CollectDelivers: speaks of bytes; lines follow with whole-line appends (TailerDelivery.LinesOfText), and without them only as far as FileTailer.LinesOfParts allows.
- EmittedContent.NanosExact: the conversion is taken modulo 2^64, as Go's arithmetic performs it, although Go's documentation leaves times after the year 2262 undefined.
