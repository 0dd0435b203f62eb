# haversine: instrument and json-parser, modelled in Dafny

This project models the sequential core of two crates of the `haversine`
workspace and proves properties of the model.

- **instrument** measures code.
  - The *repetition tester* runs a block again and again. It brackets each
    iteration with `begin`/`end`. It keeps the count, total, maximum and
    minimum of the CPU ticks an iteration took, and page faults. It stops once
    no new minimum has been seen for `try_for_time` ticks.
  - The *profiler* keeps a log of entries and a stack of open entries.
    `print_results` prints one line per entry.
  - `estimate_cpu_frequency` busy-waits 100 ms of OS time and scales the CPU
    ticks that passed to one second.
  - `page_faults.rs` reads the fault count out of the text that `top` prints.
    It also caches the output of `pagesize`, with 0 meaning not yet known.
- **json-parser** reads JSON documents.
  - A reader hands out characters decoded from zero-padded four-byte chunks of
    UTF-8.
  - A tokenizer turns those characters into tokens.
  - A parser builds `Value`s from the tokens.

Clocks, page-fault counts and the output of external commands are
parameters of the model. The `static mut` singletons of the profiler and of
the page-size cache become objects. A Rust panic becomes an
`Outcome.Panic(reason)` value, or a `Panicked` status, carrying the panic
message. A `u64` subtraction that would underflow panics, as it does in a
debug build.

Layout, one module per source file:

- `common.dfy`: `Option`, `Result`, `Outcome`, `u64` constants, the checked subtraction.
- `decimal.dfy`: `str::parse` for `u64`/`i64`, the `f64` syntax the tokenizer can hand over, decimal printing.
- `utf8.dfy`: UTF-8 encoding and decoding after RFC 3629, sections 3 and 4. `Decode` succeeds exactly where `std::str::from_utf8` does.
- `repetition.dfy`: the repetition tester, as a class whose methods are specified by functions on a `Tester` value.
- `profiler.dfy`: the profiler, as a class whose methods are specified by functions on a `Profile` value.
- `cpu_timer.dfy`: the frequency estimate.
- `page_faults.dfy`: the `top` output parse and the page-size cache.
- `value.dfy`: `Number` and `Value`.
- `reader.dfy`: the chunk reader.
- `tokens.dfy`: the tokenizer, as a class looping over the stream. It is specified by the function `Scan`.
- `parser.dfy`: the parser, as functions from tokens to (value, tokens left).
- `syntax.dfy`: JSON syntax trees with their text (`Print`), their tokens (`Emit`) and their value (`Meaning`).
- `tokenize_text.dfy`, `parse_tokens.dfy`: the tokenizer and the parser on printed documents.
- `reader_chunks.dfy`: where the reader's chunks fall on nine ASCII characters followed by four three-byte characters, the layout of the `parse_utf8_json` input.
- `truncated_text.dfy`: the tokenizer and the parser on a document cut inside its first string value.
- `samples.dfy`: the whole pipeline, the documents of the crate's unit tests, and corner cases.

## Model

| member | source | states |
|---|---|---|
| Common.CheckedSub | instrument/src/cpu_timer.rs:33 | a `u64` difference succeeds exactly when it does not underflow, and then adds back to the minuend |
| Decimal.ParseU64Show | instrument/src/page_faults.rs:31-33 | `str::parse::<u64>` reads back the decimal text of every `u64` |
| Decimal.ParseI64ShowInt | json-parser/src/tokens.rs:103-107 | `str::parse::<i64>` reads back the decimal text of every `i64` |
| Decimal.ParseU64 | instrument/src/page_faults.rs:31-34 | a parsed `u64` is at most `u64::MAX` and comes from text starting with a digit or `+` |
| Decimal.ParseI64 | json-parser/src/tokens.rs:103-107 | a parsed `i64` lies in the `i64` range, and a negative one comes from text starting with `-` |
| Utf8.DecodeEncode | json-parser/src/reader.rs:88-89 | decoding the UTF-8 encoding of any string gives the string back |
| Utf8.EncodeDecode | json-parser/src/reader.rs:88-89 | every byte sequence that `from_utf8` accepts is the encoding of the characters it yields |
| Utf8.DecodeAscii | json-parser/src/reader.rs:88-89 | ASCII bytes decode one character per byte |
| Utf8.EncodeAppend | json-parser/src/reader.rs:88-89 | the encoding of two strings one after the other is the first's encoding followed by the second's |
| Utf8.EncodeAsciiLength | json-parser/src/reader.rs:88-89 | ASCII text encodes to one byte per character |
| Utf8.ThreeByteChar | json-parser/src/reader.rs:88-89 | a character from U+0800 to U+FFFF encodes to a lead byte E0 to EF and two continuation bytes |
| Repetition.RepetitionTester.constructor | instrument/src/repetition.rs:53-71 | starts in Testing with every counter and accumulator zero, `try_for_time` = frequency × seconds (10 when none), and the default results with `min_time = u64::MAX` |
| Repetition.RepetitionTester.NewWave | instrument/src/repetition.rs:73-90 | sets Testing, then Error (with a message) for each of the byte target and the frequency that changed; recomputes `try_for_time` and `tests_started_at` |
| Repetition.NewWaveKeepsResults | instrument/src/repetition.rs:73-90 | a new wave keeps the results and the stored target and frequency; it is Testing exactly when neither changed and never Completed; it emits one message per change |
| Repetition.RepetitionTester.Begin | instrument/src/repetition.rs:92-98 | adds one open block and subtracts the timer and fault readings from the accumulators |
| Repetition.RepetitionTester.End | instrument/src/repetition.rs:100-106 | adds one closed block and adds the timer and fault readings to the accumulators |
| Repetition.RepetitionTester.CountBytes | instrument/src/repetition.rs:108-110 | adds to the byte accumulator only |
| Repetition.BalancedBlocks | instrument/src/repetition.rs:92-106 | after balanced begin/end pairs, the time and fault accumulators have grown by the sum of the (end − begin) readings; both block counts by the number of pairs; nothing else changed |
| Repetition.RepetitionTester.Error | instrument/src/repetition.rs:112-115 | sets Error and records the message; nothing else changes |
| Repetition.RepetitionTester.ResetAfterIteration | instrument/src/repetition.rs:169-175 | zeros the block counts and the three accumulators only |
| Repetition.RepetitionTester.LoopTest | instrument/src/repetition.rs:118-223 | the panic, the return value, the new state and the messages of `loop_test`, as the validation, the recording (with the printing of a new minimum) and the completion (with the printing of the summary, given the outcome of `get_page_size()`) define them |
| Repetition.RepetitionTester.CheckIteration | instrument/src/repetition.rs:124-134 | sets Error with its message for unbalanced blocks and for a byte count that misses the target |
| Repetition.RepetitionTester.RecordIteration | instrument/src/repetition.rs:136-158 | folds the iteration into the results when still Testing, or reports the panic of an elapsed time or fault count that `u64::try_from` rejects (below zero or above `u64::MAX`), or of a new minimum whose `Duration` cannot be formed (frequency 0, or frequency 1 and at least 2^64 − 1024 ticks) |
| Repetition.RepetitionTester.FinishIteration | instrument/src/repetition.rs:161-166 | completes the run and prints the summary when more than `try_for_time` ticks passed since `tests_started_at`, panicking when the summary does; returns whether it is still Testing |
| Repetition.RepetitionTester.PrintResults | instrument/src/repetition.rs:201-223 | prints minimum, maximum, average (total / count), page faults and page size; panics, in this order, on a zero test count, on a `Duration` that cannot be formed from any of the three times (instrument/src/stats.rs:62), on a failing `get_page_size()`, and on a page size × faults product above `u64::MAX` |
| Repetition.LoopTestWhenNotTesting | instrument/src/repetition.rs:118-121 | outside Testing, `loop_test` returns false and changes and prints nothing |
| Repetition.RejectedIteration | instrument/src/repetition.rs:124-223 | an iteration with unbalanced blocks or the wrong byte count prints an error first; it leaves results, accumulators and counters as they were; the state ends up Completed (overriding Error) when the time is up, else Error; the return value is false; the call panics exactly when the clock went backwards, or when the time is up and the summary panics |
| Repetition.AcceptedIteration | instrument/src/repetition.rs:136-223 | a valid iteration whose time and fault count fit a `u64` panics exactly when a new minimum cannot be converted to a `Duration` for printing, the clock went backwards, or the time is up and the summary of the updated results panics; it adds one test and its elapsed time to the total and takes the max; it lowers the min (restarting the clock) only on a strictly smaller time; it records faults only after exactly one `begin`; it zeros the accumulators and counters; it returns true exactly when the time is not up |
| Repetition.UnconvertibleIterationPanics | instrument/src/repetition.rs:140-145 | an accumulated fault count (one `begin`) or time below zero or above `u64::MAX` makes `loop_test` panic, with the matching message |
| Repetition.ZeroFrequencyPanics | instrument/src/repetition.rs:150-154 | at timer frequency 0 a valid iteration that lowers the minimum panics when printing it, and every summary of at least one test panics |
| Repetition.NoBlockKeepsResults | instrument/src/repetition.rs:124 | an iteration with no block opened changes nothing but, possibly, the state |
| Repetition.CompletionRule | instrument/src/repetition.rs:161-166 | whenever `loop_test` returns, it returns true exactly when still Testing, and it is Completed exactly when more than `try_for_time` ticks passed; a completed run's last message is the summary of its results |
| Repetition.CompletingWithoutTestsPanics | instrument/src/repetition.rs:206-209 | completing before any iteration was accepted divides by zero in the average |
| Repetition.AcceptAllStats | instrument/src/repetition.rs:146-152 | after accepting e1..ek from the default results: count k, total Σe, max of the e, min of the e (`u64::MAX` when k = 0), faults 0 |
| Repetition.MaxOf | instrument/src/repetition.rs:148 | the maximum bounds every element and is one of them |
| Repetition.MinOf | instrument/src/repetition.rs:150-151 | the minimum is below every element and is one of them |
| Repetition.SummaryOfAccepted | instrument/src/repetition.rs:201-218 | the summary of accepted times at frequency ≥ 2 with a known page size holds their min, max and integer mean, and the mean lies between min and max |
| Repetition.SumBounds | instrument/src/repetition.rs:146-152 | k·min ≤ Σe ≤ k·max |
| Repetition.AcceptAllBounds | instrument/src/repetition.rs:146-152 | for accepted results, count·min ≤ total ≤ count·max |
| Profiler.Top | instrument/src/profiler.rs:160 | the last element of the index stack, None exactly when it is empty |
| Profiler.Pop | instrument/src/profiler.rs:137 | the stack without its last element; an empty stack stays empty |
| Profiler.ComputeRuntime | instrument/src/profiler.rs:143-149 | `end − start` when the entry has ended no earlier than it started; a panic naming the entry when it has no end |
| Profiler.GlobalProfiler.constructor | instrument/src/profiler.rs:26-32 | start 0, no end, empty log and empty stack |
| Profiler.GlobalProfiler.Init | instrument/src/profiler.rs:153-163 | new entry data: no end, index 0, parent the top of the stack (None when empty) |
| Profiler.GlobalProfiler.Start | instrument/src/profiler.rs:35-39 | sets only the start; log and stack are kept |
| Profiler.GlobalProfiler.End | instrument/src/profiler.rs:41-47 | sets the end, then prints the report |
| Profiler.GlobalProfiler.Push | instrument/src/profiler.rs:49-58 | appends the entry as given (its index not yet set) to the log, pushes the old log length, and hands back the entry with that index |
| Profiler.GlobalProfiler.EndEntry | instrument/src/profiler.rs:124-141 | stamps the end on the logged entry at the entry's index only and pops the stack once, without checking what it pops; an index outside the log panics and leaves the profile unchanged |
| Profiler.GlobalProfiler.PrintResults | instrument/src/profiler.rs:60-85 | prints the report of the current profile and reports its panic |
| Profiler.FailureSticks | instrument/src/profiler.rs:69-82 | the first entry whose runtime panics stops the printing; no later entry is printed |
| Profiler.ReportLines | instrument/src/profiler.rs:60-85 | with the end set and every entry finished: one line per logged entry in log order, tab-prefixed exactly when it has a parent, then the line with `end − start` |
| Profiler.AllLines | instrument/src/profiler.rs:69-82 | every finished entry gives its own line, in log order |
| Profiler.ReportBeforeEnd | instrument/src/profiler.rs:64-66 | printing before `end` panics and prints nothing |
| Profiler.NestedSpan | instrument/macros/src/lib.rs:153-167 | a properly nested profiled call (init, push of a `CodeBlock` entry, inner calls, end) never panics, leaves the stack, start and end as they were, keeps the earlier log and appends exactly the independently defined `Entries`: every call in pre-order, each ended at its own end time, with index 0, and with its enclosing call (or the entry open before the outer call) as its parent |
| Profiler.NestedSpans | instrument/src/profiler.rs:136-138 | a sequence of sibling calls keeps the stack and the earlier log, and appends the `Entries` of each sibling in turn |
| Profiler.EntriesSize | instrument/src/profiler.rs:52 | a call adds one log entry per profiled call in its tree |
| Profiler.SpanParents | instrument/src/profiler.rs:153-163 | of the entries a call leaves, all are finished `CodeBlock`s, the first has the parent open before the call, and every later one has as its parent an entry of the same call logged before it |
| Profiler.SpansParents | instrument/src/profiler.rs:153-163 | the entries of sibling calls are finished `CodeBlock`s whose parent is the common parent or an earlier entry of the siblings |
| CpuTimer.EstimateCpuFrequency | instrument/src/cpu_timer.rs:19-46 | the busy-wait loop over the OS readings, then the guarded scaling, compute `EstimateFrequency` |
| CpuTimer.WaitExit | instrument/src/cpu_timer.rs:31-34 | the loop exits with an elapsed time of at least the wait; that time is taken from the first reading that far after the start; every earlier reading lies in [start, start + wait) |
| CpuTimer.EstimateFormula | instrument/src/cpu_timer.rs:36-45 | a positive wait that ends gives OS frequency × (CPU end − CPU start) / (exit reading − OS start), for the exit reading |
| CpuTimer.SlowTimerGivesZero | instrument/src/cpu_timer.rs:29-45 | an OS timer below 10 Hz gives a zero wait and the estimate 0, with no division; the CPU subtraction panics if that clock went backwards |
| CpuTimer.FrozenClock | instrument/src/cpu_timer.rs:31-34 | with a positive wait and an OS clock that never moves, no number of readings ends the loop |
| CpuTimer.ClockBackwardsPanics | instrument/src/cpu_timer.rs:33 | an OS reading before the start panics in the subtraction |
| PageFaults.TrimStart | instrument/src/page_faults.rs:30 | removes exactly the leading Unicode whitespace |
| PageFaults.TrimEnd | instrument/src/page_faults.rs:30 | removes exactly the trailing Unicode whitespace |
| PageFaults.Trim | instrument/src/page_faults.rs:30 | the result neither starts nor ends with whitespace |
| PageFaults.FaultsWindow | instrument/src/page_faults.rs:25-26 | `skip(11).take(2)`: lines 12 and 13, as many of them as exist |
| PageFaults.FaultsCountCases | instrument/src/page_faults.rs:20-38 | non-UTF-8 output is InvalidData; success exactly with at least 13 lines, line 12 trimming to `FAULTS` and line 13 trimming to a `u64`, which is returned; a bad number is InvalidData; every other shape is InvalidInput |
| PageFaults.LaterLinesIgnored | instrument/src/page_faults.rs:23-27 | whatever follows line 13 does not matter |
| PageFaults.JoinLines | instrument/src/page_faults.rs:24 | `str::lines` splits text made of `\n`-terminated lines back into those lines |
| PageFaults.FaultsReport | instrument/src/page_faults.rs:20-34 | the report `top` prints (11 header lines, then `FAULTS` and the count padded by blanks, then anything) gives back the count |
| PageFaults.PageSizeCache.constructor | instrument/src/page_faults.rs:41 | the cache starts at 0, meaning unknown |
| PageFaults.PageSizeCache.GetPageSize | instrument/src/page_faults.rs:43-55 | returns the cached size without probing when it is nonzero; otherwise it probes, stores and returns the parsed size, or panics in an `unwrap` |
| PageFaults.CachedPageSize | instrument/src/page_faults.rs:45-47 | after a nonzero result, every later call returns it again whatever the command would print |
| PageFaults.ZeroPageSizeReprobes | instrument/src/page_faults.rs:45-51 | a probe that yields 0 leaves the cache unset, so the next call probes again |
| PageFaults.PageSizeOutput | instrument/src/page_faults.rs:49-53 | `pagesize` printing a positive number and whitespace fills the cache with that number |
| PageFaults.ProbeNumber | instrument/src/page_faults.rs:49-51 | a number followed by whitespace parses to that number |
| PageFaults.ProbeText | instrument/src/page_faults.rs:49-51 | the probe returns the trimmed output parsed as a `u64`, and panics when it does not parse |
| Reader.JsonReader.FromBytes | json-parser/src/reader.rs:69-74 | the reader starts with all input unread and an empty queue |
| Reader.Chunk | json-parser/src/reader.rs:85-86 | the buffer is four bytes: the next input bytes, zero past the end of the input |
| Reader.ValidUpTo | json-parser/src/reader.rs:92 | the longest well-formed prefix of a chunk |
| Reader.ValidUpToIsLongest | json-parser/src/reader.rs:92 | no longer prefix of the chunk is well formed |
| Reader.JsonReader.Next | json-parser/src/reader.rs:80-95 | pops the queue when it is not empty, reading nothing; otherwise it consumes up to four bytes; if the zero-padded chunk is valid UTF-8, its characters are queued in order and the first returned, else None with an empty queue |
| Reader.ChunkSplitsCharacter | json-parser/src/reader.rs:88-94 | on well-formed input of at least four bytes, `next` returns None exactly when the chunk's valid prefix is shorter than four bytes, and then well-formed bytes holding at least one character remain unread |
| Reader.SplitCharacterExample | json-parser/src/reader.rs:88-94 | the bytes E0 A0 84 E0 A0 80 decode to U+0804 U+0800, yet their first chunk is not well formed (valid up to 3) |
| Reader.FullChunk | json-parser/src/reader.rs:85-86 | with at least four bytes left, the chunk is exactly the next four bytes |
| Reader.ChunkEndsInLead | json-parser/src/reader.rs:88-94 | a chunk holding a three-byte character and the lead byte of the next does not decode |
| Reader.ChunkStartsInside | json-parser/src/reader.rs:88-94 | a chunk that starts at a continuation byte does not decode |
| ReaderChunks.LeadingWindows | json-parser/src/reader.rs:80-86 | after nine ASCII characters and four three-byte characters, the first five chunks are the encodings of four, four, and one ASCII characters plus the first wide character, then the second wide character with the third's lead byte, then the third's continuation bytes with the first two bytes of the fourth |
| ReaderChunks.LeadingChunks | json-parser/src/reader.rs:80-94 | on that layout the first three chunks decode to the ASCII characters and the first wide one, and the fourth and the fifth do not decode |
| Reader.ShortChunkDecodes | json-parser/src/reader.rs:85-90 | the last, short chunk of well-formed input decodes to its characters followed by `'\0'` padding |
| Reader.DecodeZeros | json-parser/src/reader.rs:85-90 | at the end of the input the zeroed buffer decodes to four `'\0'` |
| Reader.ChunkSplit | json-parser/src/reader.rs:92 | cutting well-formed input after a chunk's valid prefix loses no character: the prefix's characters, then the rest's, are the input's (plus padding) |
| Reader.JsonReader.NextResuming | json-parser/src/reader.rs:80-95 | on well-formed input, returns the decoded characters in order, then `'\0'` for ever, because each refill hands the bytes after the chunk's valid prefix back to the input |
| Tokens.StringEnd | json-parser/src/tokens.rs:56-62 | the position of the first `"`, with no `"` before it |
| Tokens.NumberPrefix | json-parser/src/tokens.rs:72-86 | the longest run of `-`, digits and `.` |
| Tokens.NumberOf | json-parser/src/tokens.rs:96-108 | text with a `.` gives an `f64` when it is float syntax; other text gives an `i64` when it parses; otherwise the conversion fails |
| Tokens.JsonTokenizer.FromChars | json-parser/src/tokens.rs:43-50 | no tokens, the whole character stream unread |
| Tokens.JsonTokenizer.ParseString | json-parser/src/tokens.rs:53-65 | the characters up to the next `"`, which is consumed too; without one, the rest of the stream; no escapes |
| Tokens.JsonTokenizer.ParseNumber | json-parser/src/tokens.rs:68-109 | consumes the number characters; panics on any other character but a terminator; returns the converted number, or `Err` |
| Tokens.JsonTokenizer.Step | json-parser/src/tokens.rs:113-190 | one turn of the loop emits what `Scan` accounts for and shrinks the stream, or ends the call as `Scan` says |
| Tokens.JsonTokenizer.TokenizeJson | json-parser/src/tokens.rs:112-194 | appends `Scan`'s tokens to those of earlier calls and leaves the characters `Scan` leaves |
| Tokens.ScanStructural | json-parser/src/tokens.rs:126-149 | each of `{ } [ ] , :` emits its one token and consumes one character |
| Tokens.ScanString | json-parser/src/tokens.rs:115-125 | a closed string emits `Quotes, String(s), Quotes` and goes on after the closing `"` |
| Tokens.ScanUnterminatedString | json-parser/src/tokens.rs:56-64 | an unclosed string takes the rest of the stream |
| Tokens.ScanKeyword | json-parser/src/tokens.rs:155-182 | `n` and `t` emit their tokens and skip 4 characters, `f` 5, without looking at the letters |
| Tokens.ScanNumber | json-parser/src/tokens.rs:150-153 | a number followed by a terminator or the end emits its token, or ends the call with `Err` when it does not convert |
| Tokens.ScanNumberPanics | json-parser/src/tokens.rs:90-92 | any other character inside a number panics |
| Tokens.ScanNul | json-parser/src/tokens.rs:154 | `'\0'` stops the call and is left unread |
| Tokens.ScanWhitespace | json-parser/src/tokens.rs:183-186 | whitespace outside a string is never consumed: the loop is stuck on it |
| Tokens.ScanUnexpected | json-parser/src/tokens.rs:187-188 | any other character panics with its message |
| Tokens.ScanRestIsSuffix | json-parser/src/tokens.rs:113 | what a call leaves unread is a suffix of its stream |
| Tokens.ScanAgain | json-parser/src/tokens.rs:112-193 | after a call that stopped, another call emits nothing and stops the same way |
| TokenizeText.ScanDocument | json-parser/src/tokens.rs:112-194 | the text of a well-formed document scans to exactly its tokens and consumes it all |
| ParseTokens.ArrayItems | json-parser/src/parser.rs:77-100 | `process_array` on the tokens of the elements and `ArrayClose` collects their values in order |
| ParseTokens.ObjectMembers | json-parser/src/parser.rs:14-73 | `process_object` on the tokens of the members and `CurlyClose` inserts each key with its value in order; a later key overwrites |
| ParseTokens.ObjectValue | json-parser/src/parser.rs:21-68 | after a key and its colon a value is stored under the key; a nested object keeps the key set, every other value clears it |
| ParseTokens.ArraySkip | json-parser/src/parser.rs:95 | `process_array` skips `,` `}` quotes and `:` |
| ParseTokens.ObjectSkip | json-parser/src/parser.rs:32 | `process_object` ignores quotes and `ArrayClose` |
| ParseTokens.ObjectMode | json-parser/src/parser.rs:33-35 | `Colon` leaves key mode and `Comma` enters it |
| ParseTokens.ObjectKey | json-parser/src/parser.rs:36-38 | a string in key mode becomes the current key |
| ParseTokens.ObjectClose | json-parser/src/parser.rs:29-31 | `CurlyClose` ends the object |
| ParseTokens.TopSkip | json-parser/src/parser.rs:153-157 | separators leave the top-level value alone |
| ParseTokens.ParseDocument | json-parser/src/parser.rs:132-162 | parsing the tokens of a document gives the document's value |
| ParseTokens.LastDocumentWins | json-parser/src/parser.rs:137-158 | with two top-level documents the last one wins |
| ParseTokens.SeparatorsOnly | json-parser/src/parser.rs:135 | separator tokens alone give `Null` (whatever was there before) |
| Samples.Pipeline | json-parser/src/parser.rs:116-121 | tokenizing the text of a well-formed document finishes with exactly its tokens, and they parse to its value |
| Samples.TestTokenizer | json-parser/src/tokens.rs:206-276 | the text of `test_tokenizer` scans completely to the tokens the test lists |
| Samples.ParsedJson | json-parser/src/tokens.rs:280-309 | the text of `parsed_json` scans completely and parses to the object the test expects |
| Samples.ParseUtf8Json | json-parser/src/tokens.rs:312-323 | the characters of the `parse_utf8_json` document, handed straight to the tokenizer with the reader bypassed, scan completely and parse to the two members the test expects: the tokenizer and the parser pass multi-byte characters through unchanged |
| TruncatedText.ScanTruncatedValue | json-parser/src/tokens.rs:115-125 | `:"v`, with `v` never closed, scans to `Colon`, then the quotes around `v`, and the scan finishes |
| TruncatedText.ScanOpenKey | json-parser/src/tokens.rs:115-129 | `{"k"` in front of any text adds `CurlyOpen` and the quotes around `k` to what that text scans to |
| TruncatedText.ScanTruncatedMember | json-parser/src/tokens.rs:112-154 | the document `{"k":"v`, cut inside its first string value, scans completely to the tokens of one member `k: "v"` |
| TruncatedText.ParseTruncatedMember | json-parser/src/parser.rs:14-48 | those eight tokens, without a closing `CurlyClose`, parse to an object holding `k: "v"` and nothing else |
| TruncatedText.TruncatedDocument | json-parser/src/parser.rs:116-121 | the cut document tokenizes and parses to that one-member object |
| Samples.Utf8TextChunks | json-parser/src/tokens.rs:315-316 | the reader's first five chunks of the `parse_utf8_json` input: `{"ke`, `y1":` and `"` U+0804 decode, and the chunks at bytes 12 and 16, which cut U+0806 and U+0804, do not |
| Samples.Utf8JsonAsWritten | json-parser/src/tokens.rs:312-323 | the `parse_utf8_json` test through the reader as written: the characters handed out before the first None are `{"key1":"` U+0804, and they scan completely and parse to an object with only `key1`, holding the one-character string U+0804, not the two members the test asserts |
| Samples.DuplicateKeyLastWins | json-parser/src/parser.rs:39-48 | a later member with the same key replaces the earlier one |
| Samples.NestedObjectKeepsKey | json-parser/src/parser.rs:21-27 | after a nested object the key stays set, so a stray value overwrites the nested object |
| Samples.TopLevelNumberPanics | json-parser/src/tokens.rs:87-92 | a top-level number is followed by the reader's `'\0'` padding, which does not end a number, so tokenizing `1` panics |

## Left out

- Timer reads (`read_cpu_timer`, `read_os_timer`, `os_timer_frequency`) and all of `instrument/src/os_timer.rs`. They are hardware intrinsics and OS calls. Their readings are parameters.
- The `top` and `pagesize` commands. Their output is a parameter (`None` when the command could not run).
- `begin`/`end` of the repetition tester take the page-fault count as a parameter. The `unwrap` of `get_absolute_page_faults_count` inside them is not modelled.
- The formatting of `print_new_stats` and `print_results`, which is terminal control, `RunTime`, `Throughput` and `f64` arithmetic. `instrument/src/stats.rs` is not part of this model. The printing is recorded as events. The summary keeps the times in ticks, the page size as a number and leaves out the megabytes. Of the `Duration` conversions only whether they panic is modelled. The `unwrap`s on writes to standard output are I/O and not modelled.
- The repetition tester's `get_page_size()` is a parameter: its outcome, a size or the panic of `PageFaults.PageSizeCache.GetPageSize`. The cache update it makes is modelled there, not inside the tester.
- Repetition.RepetitionTester.NewWave: the source does not store the new target or frequency, and neither does the model. So a wave with a changed target keeps failing.
- Overflow of `u64` additions and multiplications: `try_for_time`, the totals of the results, and the products in `estimate_cpu_frequency`. The model's integers are unbounded. The one product checked is page size × faults in `print_results`. The `i128` accumulators cannot overflow for `u64` readings; their conversions back to `u64` are modelled, with both failure sides.
- CpuTimer.EstimateCpuFrequency: the OS readings are a finite sequence. A run that needs more ends in `ReadingsExhausted`. In the source the loop would go on, so it does not terminate exactly where the model runs out.
- The profiler's `static mut` globals, and their aliasing, become one object. The accessors `identifier`, `index`, `inner`, `inner_mut` and `parent`, and `RepetitionTester::results`, are field reads.
- The `Debug` text of entries in panic messages does not escape the identifier.
- `instrument/macros/src/lib.rs`, the procedural macro, as code generation. The calls it emits (a `CodeBlock` entry, `push`, the body, `end`) are modelled as the call trees of `Profiler.RunSpan`. Its `data_expression` form calls `ProfilerEntryData::init_with_throughput`, which `profiler.rs` does not define, so that form is not modelled.
- `f64` parsing: an `F64` keeps the text it was read from. Its conversion succeeds exactly on the float syntax that `-`, digits and `.` can form. Rust compares `f64` by value; the model compares the texts.
- Tokens.ScanWhitespace: where the source spins for ever on whitespace, the model ends the call with the status `Stuck`.
- `JsonTokenizer::new` and `JsonReader::new` over a file, and the `BufReader` short reads. The reader is modelled on its bytes, and each read fills as much of the chunk as there is input. The generic `JsonReader<T>` that `tokens.rs` names does not match the reader in `reader.rs`, so the tokenizer consumes a character sequence and the reader is modelled separately.
- `JsonParser::parse` and `parse_from_bytes` are modelled by `Samples.Pipeline` on printed documents. At the level of tokens they are `TokenizeJson` followed by `TokensToValue`. The reader and the tokenizer are joined only for the `parse_utf8_json` input, in `Samples.Utf8JsonAsWritten`.
- PageFaults.UnwrapMessage: the panic messages of the `unwrap`s in `page_faults.rs` stop before the `: ` and the `Debug` form of the error (an `io::Error`, a `Utf8Error` or a `ParseIntError`), which depends on the error's details. The repetition tester's conversion panic keeps its fixed suffix `TryFromIntError(())`.
- The haversine formula, the point generators and the binaries of the workspace are not part of this model. They are floating-point code, random generation and I/O drivers.

## Findings

| source | as written | input that shows it | evidently intended | confidence | as-written member | corrected member |
|---|---|---|---|---|---|---|
| json-parser/src/reader.rs:88-94 | when a four-byte chunk ends inside a multi-byte character, `from_utf8` fails and `next` returns None, ending the stream early | the bytes E0 A0 84 E0 A0 80 (U+0804 U+0800): the first chunk E0 A0 84 E0 is not well formed; the `parse_utf8_json` test input stops after `{"key1":"` U+0804, so the test's own assertion fails (Samples.Utf8JsonAsWritten) | keep the valid prefix and give the remaining bytes back to the reader, as the TODO at line 92 says, so every character is read | not executed | Reader.SplitCharacterExample | Reader.JsonReader.NextResuming |
