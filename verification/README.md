# Tysel, modelled and verified in Dafny

Tysel is a TypeScript runtime with its own build and release tool chain. This project models the
parts of it that carry state through loops, walk graphs, interleave, or survive crashes, and proves
what they promise. Each part is a specification in plain mathematical terms, the code in its own
form (loops, mutable objects, in-place buffers) proved against it, and theorems about all inputs,
all runs or all reachable states.

- **Text codecs** (`Unicode`, `TextDecoder`, `TextEncoder`, `Base64`, `FormUrlencoded`): the streaming
  decoder, the chunked and the streaming encoder, `btoa`/`atob` and query strings. The reference for
  UTF-8 is the byte-at-a-time decoder of section 8.1.1 of the WHATWG Encoding Standard and the
  encoding of section 4 of RFC 3629.
- **Abort signals** (`AbortGraph`): the dependency graph of `AbortSignal.any` under any sequence of
  calls, including calls made by listeners while an abort is being dispatched.
- **Durable replay** (`DurableMachine`, `DurableFaithful`, `DurableReplay`, `DurableMismatch`,
  `DurableExact`, `DurableCatching`, `DurableTrack`, `DurableNested`, `DurableNestedExample`,
  `DurableProcess`): workflows recorded in an event log and run again after crashes. A workflow is any
  function from the responses so far to its next durable call. A value is what JSON keeps of it and what
  JSON loses. A replay mismatch is an exception that the workflow can catch.
- **Bundler** (`SourceRewrite`, `SourceMap`, `BundleEmit`, `ModuleGraph`, `ModuleLoader`, `LineIndex`):
  span replacement with line origins, the source map writer and reader, emission, the module worklist,
  the emitted loader, and the line index of diagnostics.
- **Connection pool** (`PostgresPool`): permits, idle stack and sessions as a step system over any number
  of interleaved operations.
- **Release trust and evidence** (`Hex`, `TrustPolicy`, `EvidenceStore`, `Evidence`): forward-only trust
  policies, and the crash-safe publication and the verification of release evidence.
- **Tasks and benchmarks** (`Tasks`, `Benchmarks`): the dependency walk with its cycle check, and the
  pooling of benchmark rounds.

Several of them share `Wrappers` (options and results), `Graphs` (reachability and topological orders) and
`Sets` (sizes of finite sets). `dafny verify dfyconfig.toml` checks everything.

Where a promise does not hold of the code, the code is kept as it is, a lemma shows the failing case,
and another says exactly when the promise does hold:

- A durable boundary whose function throws leaves nothing in the log, so a re-run does not see the
  exception and may ask for another event than the next recorded one. The host then raises a mismatch, the
  position stays, and the program that asked can catch it and go on. For any workflow, any log that can be
  read and any event after it (`DurableExact.LogDecides`): every re-run goes amiss, with a mismatch or with
  events left over, exactly when the state that the log determines asks for something else; and a re-run
  gets through all the same exactly when the programs, handed some number of mismatches, come to ask for
  that event. `DurableExact.CaughtThrow`, `CaughtThrowThenRetry`, `CaughtThrowInCallback` and
  `CaughtBackoff` say what that means at each place where an exception can be caught. A workflow that
  handles every exception alike and goes on to another boundary gets through (`DurableCatching.CatchAndGoOn`,
  with try, catch and clean up in `DurableCatching.CleanupReplays`); one that repeats the boundary and later
  acts on the exception does not (`DurableCatching.RepeatingIsNotEnough`).
- A retry inside a retry's callback loses its number on replay. After a retry, settled by any number of
  attempts, the workflow starts another. A re-run that asks for a retry of that policy again goes amiss if and
  only if the first one's callback had started retries of its own, and it gets through all the same if and
  only if, handed mismatches, it comes to ask for that retry under its number (`DurableNested.NestingLosesCount`). A workflow that starts the
  retry again whenever that throws catches up (`DurableNested.TryingAgainCatchesUp`); one that does not is in
  `DurableNestedExample.NestedRetryDiverges`.
- A read-only query dropped while it waits for `BEGIN READ ONLY` puts a session back on the idle stack
  that is, or is about to be, inside a transaction (`PostgresPool.AbandonedBeginIsRecycled`). At no moment of
  a run is there such a session if and only if the run never does that on a live session it would recycle
  (`PostgresPool.IdleIsOutsideTransactions`).
- Evidence that was written completely is refused by the verifier when the target name is empty or a
  sidecar is larger than the limit only the reader knows, and in no other case
  (`ReleaseEvidence.WrittenIsAccepted`, `ReleaseEvidence.UnnamedTargetIsRefused`).
- Benchmark evidence from systems other than Linux is not checked for missing CPU samples. Throughput
  and CPU are then paired by round exactly when no round without a sample comes before one with a
  sample (`Benchmarks.AlignedIffNoGap`, `Benchmarks.GapMispairs`).
- A policy does not remember the keys it no longer lists, so the status of a key can step back along a
  chain of accepted policies: a retired key past its deadline is dropped, then listed as active and trusted
  again (`TrustPolicies.RetiredKeyReturns`). Between two policies that list a key its status steps back if
  and only if a policy in between does not list it (`TrustPolicies.StepsBackIffForgotten`), and then from
  retired to active, past the deadline (`TrustPolicies.StepBackIsARetiredReturn`). A revoked key never
  returns.
- An import can give back the exports of a module that has not finished. It never does if and only if
  nothing reachable from the entry is missing or imports itself, near or far
  (`ModuleLoader.ImportsAreFinished`).

## Model

| member | source | states |
|---|---|---|
| `Unicode.RunConcat` | runtime-js/web-api/runtime.js:1027 | the standard's decoder run over two inputs in a row is its run over the joined input |
| `Unicode.DecodeEncode` | runtime-js/web-api/runtime.js:1027 | decoding the UTF-8 encoding of any scalar values yields exactly those values, no error among them |
| `TextDecoding.ScanFindsTail` | runtime-js/web-api/runtime.js:1012-1021 | where the backward scan stops, the rest is a proper prefix of a well-formed sequence if and only if the standard's decoder, run over the whole input, is in the middle of one there |
| `TextDecoding.HoldBack` | runtime-js/web-api/runtime.js:1011-1025 | looking at no more than four bytes, the number of bytes held back is that of the sequence the standard's decoder is in after the whole input |
| `TextDecoding.TextDecoder.Decode` | runtime-js/web-api/runtime.js:999-1038 | result, pending bytes and BOM flag after a call are those of the specification of one call, for every state, input, mode and error |
| `TextDecoding.CutItems` | runtime-js/web-api/runtime.js:1011-1024 | cutting before the unfinished tail splits the decoded items exactly, whatever follows |
| `TextDecoding.StreamStep` | runtime-js/web-api/runtime.js:1006-1038 | a streamed call followed by a final one gives the text of one call on both inputs, or fails exactly when that does |
| `TextDecoding.StreamingIsOneShot` | runtime-js/web-api/runtime.js:999-1038 | for every cut of every input into chunks, from any carried state, fatal or not: the joined outputs are those of one call, with one BOM stripped at most; failure if and only if one call fails; the decoder is fresh afterwards |
| `TextDecoding.DecodesEncoded` | runtime-js/web-api/runtime.js:1026-1033 | encoded well-formed text decodes to itself, less one leading BOM unless told to keep it |
| `TextEncoding.ReplaceLoneIsScalars` | runtime-js/web-api/runtime.js:977 | the replacement by pattern turns a string into the one of its scalar values |
| `TextEncoding.EncodeText` | runtime-js/web-api/runtime.js:971-981 | never throws; the bytes are the UTF-8 of the scalar values, lone surrogates as U+FFFD |
| `TextEncoding.GreedyIsMaximal` | runtime-js/web-api/runtime.js:954-970 | the one-shot specification writes the encoding of what it reads, ends between code points, and the next code point would not fit |
| `TextEncoding.ScanAndCopy` | crates/tysel-engine-qjs/src/host.rs:695-738 | copying unchanged runs and patching surrogates in place reads, writes and leaves in the buffer what the one-shot specification says |
| `TextEncoding.NativeEncodeInto` | crates/tysel-engine-qjs/src/host.rs:666-745 | the same for the whole host function with its ASCII shortcut; bytes outside the written part are untouched; an offset past the end fails and changes nothing |
| `TextEncoding.GreedyChunk` | runtime-js/web-api/runtime.js:961-968 | a chunk that cuts no pair either stops where the whole source would or is taken whole and the rest continues from there |
| `TextEncoding.ChunkEnd` | runtime-js/web-api/runtime.js:962-963 | a chunk makes progress, is at most 16384 units, and cuts no surrogate pair while there is room for anything |
| `TextEncoding.ChunkStep` | runtime-js/web-api/runtime.js:964-967 | after a host call that took nothing or not all of its chunk, the whole source has nothing more to write |
| `TextEncoding.EncodeInto` | runtime-js/web-api/runtime.js:954-970 | for every string and capacity the loop's read and written counts and the whole buffer are those of a single unbounded call, and it ends |
| `TextEncoding.TextEncoderStream.Write` | runtime-js/web-api/runtime.js:1046-1056 | state and bytes out are those of the specification of one chunk, a trailing high surrogate held back |
| `TextEncoding.TextEncoderStream.Flush` | runtime-js/web-api/runtime.js:1057-1060 | what was held back is encoded and nothing is held any more |
| `TextEncoding.EncoderStreamIsOneShot` | runtime-js/web-api/runtime.js:1041-1061 | for every list of chunks the stream's bytes are the encoding of the joined string with every lone surrogate replaced |
| `Base64.Btoa` | runtime-js/web-api/runtime.js:477-488 | refuses exactly the strings with a unit over 255, otherwise writes the six-bit groups of the bit string and its padding |
| `Base64.Accumulate` | runtime-js/web-api/runtime.js:495-502 | although the 32-bit accumulator wraps and is never masked, the bytes out are the eight-bit groups of the bit string |
| `Base64.Atob` | runtime-js/web-api/runtime.js:489-503 | for every string: error or bytes as the specification of whitespace, padding, alphabet and length says |
| `Base64.SextetsOfBytes` | runtime-js/web-api/runtime.js:489-503 | decoding and encoding again gives the same groups if and only if the unused bits of the last group are zero |
| `Base64.RoundTrip` | runtime-js/web-api/runtime.js:477-503 | decoding the encoding of any Latin-1 string of any length gives the string back |
| `Base64.CanonicalForm` | runtime-js/web-api/runtime.js:477-503 | for every accepted text, encoding the decoded bytes gives the same text, padded, if and only if the dropped bits were zero |
| `FormUrlencoded.PassesAreFormEncode` | runtime-js/web-api/runtime.js:160-166 | the three replacement passes compute the form-urlencoded serialization of section 5.2 of the WHATWG URL Standard, so an escaped space arises only from a space |
| `FormUrlencoded.FormEncodeSeparated` | runtime-js/web-api/runtime.js:160-166 | a printed component holds no separator |
| `FormUrlencoded.FastPathAgrees` | runtime-js/web-api/runtime.js:137-141 | wherever the engine's decoder accepts, the byte-wise fallback decodes to the same text |
| `FormUrlencoded.CompactInPlace` | runtime-js/web-api/runtime.js:144-155 | reading ahead of its own writes in one buffer, the loop percent-decodes it |
| `FormUrlencoded.DecodeURIComponentSafe` | runtime-js/web-api/runtime.js:137-158 | for every string, by either path, the result is the standard's decoding of the component |
| `FormUrlencoded.ComponentRoundTrip` | runtime-js/web-api/runtime.js:137-166 | decoding a printed component gives the component back |
| `FormUrlencoded.QueryRoundTrip` | runtime-js/web-api/runtime.js:365-369 | for every list of pairs of scalar-value strings, parsing the printed form gives the same list in order |
| `FormUrlencoded.URLSearchParams.Replace` | runtime-js/web-api/runtime.js:267-283 | for every string, lone surrogates included, the pairs after the call are those of the parser's specification on its scalar values |
| `AbortGraph.MarkFollowers` | runtime-js/web-api/runtime.js:1234-1245 | one turn of the worklist adds each unmarked follower once and keeps the list reachable, distinct and unaborted before |
| `AbortGraph.MarkAll` | runtime-js/web-api/runtime.js:1226-1246 | the worklist ends with exactly the signals reachable through followers, each once, the root first, all marked with one reason |
| `AbortGraph.UnlinkAll` | runtime-js/web-api/runtime.js:1247-1256 | after the second pass no marked signal has links or followers and no one follows through a marked signal |
| `AbortGraph.AfterKeepsLinked` | runtime-js/web-api/runtime.js:1226-1256 | followers and links stay two views of the same edges, between unaborted signals only |
| `AbortGraph.AfterKeepsExact` | runtime-js/web-api/runtime.js:1226-1256 | after an abort every dependent is aborted if and only if one of its sources is |
| `AbortGraph.StepKeepsInv` | runtime-js/web-api/runtime.js:1177-1258 | making, combining, aborting and dispatching, at top level or inside a listener, keep the graph exact and every aborted signal booked for one event |
| `AbortGraph.DependentsExact` | runtime-js/web-api/runtime.js:1177-1258 | in every run, at every moment, a dependent is aborted if and only if one of the signals it was made from is |
| `AbortGraph.OneEventEach` | runtime-js/web-api/runtime.js:1231-1257 | in every run no signal gets two events, and when a listener runs everything made from its signal is already marked |
| `AbortGraph.AllEventsDispatched` | runtime-js/web-api/runtime.js:1257 | when no dispatch is under way exactly the aborted signals have had their event |
| `AbortGraph.AbortIsFinal` | runtime-js/web-api/runtime.js:1226-1233 | once aborted, a signal stays aborted with the same reason |
| `AbortGraph.AbortRuntime.AnySignal` | runtime-js/web-api/runtime.js:1177-1200 | the loop over the distinct sources is a step of the model, with an aborted source the abort of the new signal; an argument that is no signal fails and changes nothing |
| `AbortGraph.AbortRuntime.AbortSignal` | runtime-js/web-api/runtime.js:1226-1256 | mark, unlink and open the dispatch loop: a step of the model |
| `AbortGraph.AbortRuntime.DispatchNext` | runtime-js/web-api/runtime.js:1257 | one turn of the innermost dispatch loop: a step of the model |
| `DurableFaithful.StepKeepsFaithful` | runtime-js/durable/runtime.js:85-236 | whatever the outside world answers, a process whose state is the one its log determines keeps to it: no mismatch is raised and it does not end with events left |
| `DurableReplay.RunKeepsLog` | runtime-js/durable/runtime.js:115-127 | a run never changes the history it was given and only appends |
| `DurableReplay.ReplayIsFaithful` | runtime-js/durable/runtime.js:85-236 | for every workflow that goes on as it would with the responses of its log, after any number of crashes at any points: the next run keeps the log it finds, adds only at its end, meets no mismatch and never ends early |
| `DurableReplay.ReplayCallsNothing` | runtime-js/durable/runtime.js:115-127 | while history is left no step depends on the outside world, so no boundary's function is called |
| `DurableReplay.ReplayReturnsRecorded` | runtime-js/durable/runtime.js:115-127 | a recorded boundary gives back its recorded payload and records nothing |
| `DurableReplay.CallbackReturnsRecorded` | runtime-js/durable/runtime.js:195-236 | the same for a boundary inside a retry's callback |
| `DurableReplay.OutcomesArePassed` | runtime-js/durable/runtime.js:207-218 | the state a log determines is past every attempt whose outcome the log holds |
| `DurableReplay.RecordedOutcomeSkipsCallback` | runtime-js/durable/runtime.js:207-218 | a callback runs only for an attempt with no recorded outcome, and at most maxAttempts times |
| `DurableReplay.ReplayProgresses` | runtime-js/durable/runtime.js:85-236 | every replay step brings the process closer to the end of its history |
| `DurableReplay.ReplayReachesEnd` | runtime-js/durable/runtime.js:85-236 | replay gets through any history in a bounded number of steps |
| `DurableReplay.CompletedRunReplays` | runtime-js/durable/runtime.js:85-236 | a workflow that completes, also with the responses of its log, is run again over the log: the same result, nothing recorded, no mismatch |
| `DurableMismatch.PastIffMeets` | crates/tysel-durable/src/lib.rs:120-139 | wherever a process is in its history: some run gets past the next event if and only if its programs, handed mismatches in a row, come to ask for it |
| `DurableMismatch.AmissIffNotAsked` | crates/tysel-engine-qjs/src/host.rs:364-368 | with one event left, a mismatch is raised or the workflow ends with the event left over if and only if something else is asked for first |
| `DurableMismatch.RunForward` | crates/tysel-durable/src/lib.rs:120-139 | neither the position nor a raised mismatch is ever taken back, and behind the history none is raised |
| `DurableExact.LogDecides` | runtime-js/durable/runtime.js:85-236 | for any workflow, any log it can read and any event behind it but an outcome of a retry begun there: every re-run long enough goes amiss if and only if the state the log determines asks for another event, and a re-run gets through if and only if the programs come to ask for it |
| `DurableExact.AmissIffNoMeaning` | runtime-js/durable/runtime.js:85-236 | every re-run long enough goes amiss if and only if no run can have left the log with that event |
| `DurableExact.CaughtThrow` | runtime-js/durable/runtime.js:115-127 | after any number of caught exceptions the next boundary is recorded; every re-run over that log goes amiss if and only if with the responses of the log the workflow asks for something else, and gets through if and only if, handed mismatches, it comes to ask for that boundary |
| `DurableExact.CaughtThrowThenRetry` | runtime-js/durable/runtime.js:195-208 | the same when the workflow goes on to a retry |
| `DurableExact.CaughtThrowInCallback` | runtime-js/durable/runtime.js:219-228 | the same inside a retry's callback whose outcome is not recorded yet; if the callback ends the mismatch leaves the retry |
| `DurableExact.CaughtBackoff` | runtime-js/durable/runtime.js:231-232 | the same after the wait between two attempts has failed, before or after it was recorded |
| `DurableCatching.CatchAndGoOn` | runtime-js/durable/runtime.js:115-127 | a workflow that handles every exception alike and goes on to another boundary is replayed to the end of its log, hearing mismatches where it heard exceptions |
| `DurableCatching.CleanupReplays` | runtime-js/durable/runtime.js:115-127 | a concrete try, catch and clean up: the re-run over the log of the cleanup catches the mismatch and completes, recording nothing |
| `DurableCatching.RepeatingIsNotEnough` | runtime-js/durable/runtime.js:115-127 | a concrete workflow that repeats the boundary that threw, then acts on the exception: no re-run gets through its log |
| `DurableTrack.RetryIsSkipped` | runtime-js/durable/runtime.js:207-218 | a re-run jumps over every recorded attempt of a retry to its settled response, running no callback and counting no retry inside |
| `DurableNested.WorkIsTraced` | runtime-js/durable/runtime.js:195-236 | whatever retries a callback starts and however many attempts there are, the events a retry records form attempts from start to outcome with the waits in between |
| `DurableNested.NestingLosesCount` | runtime-js/durable/runtime.js:195-236 | after a retry settled by any number of attempts, the next recorded retry: every re-run goes amiss if and only if retries were started inside the first or another policy is asked for, and gets through if and only if, handed mismatches, it comes to ask for that retry under that number |
| `DurableNested.MeetsCounts` | runtime-js/durable/runtime.js:198 | to meet a retry's number as many mismatches are needed as numbers were lost |
| `DurableNested.TryingAgainCatchesUp` | runtime-js/durable/runtime.js:195-236 | a workflow that starts the retry again whenever that throws gets through, whatever retries were inside the one before |
| `DurableNestedExample.NestedRetryDiverges` | runtime-js/durable/runtime.js:198 | a concrete workflow with a retry inside a retry whose re-run meets a mismatch and ends with events left over |
| `DurableProcess.Process.ConsumeEvent` | crates/tysel-durable/src/lib.rs:120-139 | moves one event on exactly when the next one matches; otherwise reports the end or a mismatch and stays |
| `DurableProcess.Process.ConsumeThrough` | crates/tysel-durable/src/lib.rs:144-150 | moves behind the first matching event ahead, or stays where it is |
| `DurableProcess.Process.Boundary` | runtime-js/durable/runtime.js:115-127 | a boundary entered while another is active is refused before it touches the log; otherwise it replays the recorded reading, records what JSON keeps, rethrows or raises the mismatch, a sleep being recorded before it waits, and the flag is always given back |
| `DurableProcess.Process.RetryLookupOrRecord` | runtime-js/durable/runtime.js:85-97 | the same for the retry events |
| `DurableProcess.Process.Advance` | runtime-js/durable/runtime.js:130-236 | the process runs to its next await exactly as the machine steps, a mismatch being thrown into the workflow |
| `DurableProcess.Process.AdvanceRetry` | runtime-js/durable/runtime.js:207-234 | one leg of the attempt loop is one step of the machine's retry frame, a mismatch leaving the retry as its exception |
| `SourceRewrite.PosAt` | crates/tysel-build/src/bundle.rs:560-573 | the line is the number of newlines before the offset, the column the UTF-16 units since the last one, for any offset |
| `SourceRewrite.SortSorts` | crates/tysel-build/src/bundle.rs:522 | the edits come out in order of their starts, the same edits, and those with one start keep their order |
| `SourceRewrite.ApplyReplacements` | crates/tysel-build/src/bundle.rs:518-558 | fails exactly when ordered edits overlap or leave the source; otherwise returns the text and the line origins of the output in which every character carries its source position |
| `SourceRewrite.OneOriginPerLine` | crates/tysel-build/src/bundle.rs:529-540 | there is exactly one origin per line of the output, the position of the line's first character: that of a copied character, or of the start of the replaced span |
| `SourceRewrite.IdentityIsNoRewrite` | crates/tysel-build/src/bundle.rs:349-356 | the origins of an untouched module are those a rewrite without edits would give |
| `SourceMaps.EncodeVlq` | crates/tysel-package/src/sourcemap.rs:255-270 | the loop writes the sign-folded value in five-bit groups, low first |
| `SourceMaps.ReadVlq` | crates/tysel-package/src/sourcemap.rs:304-320 | the loop reads what the recursive definition reads, or fails where it fails |
| `SourceMaps.VlqReads` | crates/tysel-package/src/sourcemap.rs:255-320 | a number written anywhere in a string is read back, whatever follows |
| `SourceMaps.VlqIsShort` | crates/tysel-package/src/sourcemap.rs:255-320 | differences of 32-bit positions take at most seven digits and stay far inside the reader's 64-bit integer |
| `SourceMaps.SourceMapWriter.EndLine` | crates/tysel-package/src/sourcemap.rs:207-211 | the mappings string stays the text of the lines closed so far and the open one |
| `SourceMaps.SourceMapWriter.Add` | crates/tysel-package/src/sourcemap.rs:213-236 | the same, with one mapping more on the open line |
| `SourceMaps.MapRoundTrip` | crates/tysel-package/src/sourcemap.rs:272-302 | for every sequence of additions and line ends, parsing the written string gives every mapping back on its line |
| `SourceMaps.LookupOnLine` | crates/tysel-package/src/sourcemap.rs:139-149 | a lookup in a parsed map searches exactly the mappings of the line asked for |
| `BundleEmit.JsStringIsOneLine` | crates/tysel-build/src/bundle.rs:606-608 | a string literal never spans lines |
| `BundleEmit.OriginalIsSource` | crates/tysel-build/src/bundle.rs:673-681 | the one-based lookups and the saturating subtractions cancel: a line's original is what the transpiler's map says, or the origin itself |
| `BundleEmit.Bundle.PushUnmapped` | crates/tysel-build/src/bundle.rs:683-690 | every newline written closes one line of the map; the map's line count is always the number of newlines in the text |
| `BundleEmit.Bundle.PushFactoryLine` | crates/tysel-build/src/bundle.rs:643-652 | one indented line of text and one line of the map with its mapping |
| `BundleEmit.Bundle.PushModule` | crates/tysel-build/src/bundle.rs:634-658 | a header line, the factory's lines or one blank line, a closing line, in text and map alike |
| `BundleEmit.Bundle.PushTail` | crates/tysel-build/src/bundle.rs:659-666 | the closing lines, the entry line written in three pieces included |
| `BundleEmit.EmitBundle` | crates/tysel-build/src/bundle.rs:630-671 | text and map are those of one list of rows, as many map lines as newlines |
| `BundleEmit.RowIsLine` | crates/tysel-build/src/bundle.rs:630-671 | the row a mapping is filed under is that line of the emitted text |
| `BundleEmit.OnlyFactoryLinesMapped` | crates/tysel-build/src/bundle.rs:630-671 | a line of the bundle with a mapping is a line of a module's factory |
| `BundleEmit.OriginsCoverFactory` | crates/tysel-build/src/bundle.rs:91-136 | JSON, plain and rewritten modules all have one origin for every line of their factory |
| `BundleEmit.EveryFactoryLineMapsBack` | crates/tysel-build/src/bundle.rs:630-690 | the emitted map, parsed again, sends every position of a factory line to its module and the original position of that line |
| `BundleEmit.RewrittenLinesMapBack` | crates/tysel-build/src/bundle.rs:518-690 | end to end for a rewritten module: looking a bundle line up gives the true source position of the character that begins it, or of the span it replaces |
| `ModuleGraph.ModuleIdInjective` | crates/tysel-build/src/bundle.rs:610-616 | paths without backslashes have different ids |
| `ModuleGraph.CompileOne` | crates/tysel-build/src/bundle.rs:86-136 | a module compiles exactly when none of the ways to fail applies, and then yields the ids its imports ask for and the files it refers to |
| `ModuleGraph.Collect` | crates/tysel-build/src/bundle.rs:73-140 | the worklist ends; it fails if and only if the entry is missing, a reachable module does not compile or more than 2048 are reachable; otherwise it returns exactly the reachable modules, each once |
| `ModuleGraph.BundleIsClosed` | crates/tysel-build/src/bundle.rs:117-136 | every id a rewritten import or re-export asks for is defined in the bundle, and so is the entry |
| `ModuleLoader.Loader.Require` | crates/tysel-build/src/bundle.rs:28-39 | the recursive loader with its cache ends for every graph and does what the specification of a load says |
| `ModuleLoader.LoadOnce` | crates/tysel-build/src/bundle.rs:32-38 | no factory is called twice, whatever factories do and throw |
| `ModuleLoader.LoadFinds` | crates/tysel-build/src/bundle.rs:28-31 | with closed definitions no load reports a missing module |
| `ModuleLoader.BundleLoads` | crates/tysel-build/src/bundle.rs:20-140 | for every collected bundle, cycles included: loading the entry runs it, calls no factory twice and reports nothing missing |
| `ModuleLoader.RunsTheReachable` | crates/tysel-build/src/bundle.rs:28-39 | with imports at top level, exactly the modules reachable from the entry run, each once |
| `ModuleLoader.ImportsAreFinished` | crates/tysel-build/src/bundle.rs:28-39 | for every graph and entry: every import gives back a finished module if and only if everything reachable from the entry is defined and on no cycle |
| `ModuleLoader.CycleSeesUnfinished` | crates/tysel-build/src/bundle.rs:32-38 | on a cycle of two, a module that uses its imports at once fails and one that does not loads |
| `LineIndexes.NaiveMeans` | crates/tysel-build/src/diagnostic.rs:160-173 | the linear scan gives the greatest end of a scalar value not past the offset, one plus the line feeds before it, one plus the scalar values since the last |
| `LineIndexes.Boundaries` | crates/tysel-build/src/diagnostic.rs:162-164 | between two ends of scalar values no byte offset is a character boundary |
| `LineIndexes.LineIndex.constructor` | crates/tysel-build/src/diagnostic.rs:154-158 | the table holds zero and the offset after every line feed, in order |
| `LineIndexes.LineIndex.Locate` | crates/tysel-build/src/diagnostic.rs:160-173 | for every UTF-8 source and every offset the indexed lookup gives the position of the linear scan |
| `PostgresPool.StepKeepsBound` | crates/tysel-cap-postgres/src/lib.rs:85-131 | every step keeps permits free plus permits held at four, and idle sessions plus sessions in hand or being opened at four or fewer |
| `PostgresPool.NeverTooMany` | crates/tysel-cap-postgres/src/lib.rs:24-131 | so in every interleaving of any number of operations, with lost connections, failed opens, discards and operations dropped anywhere |
| `PostgresPool.NeverShared` | crates/tysel-cap-postgres/src/lib.rs:85-131 | in every interleaving no session is in two hands, or in a hand and on the stack |
| `PostgresPool.StepKeepsReadOnly` | crates/tysel-cap-postgres/src/lib.rs:137-162 | in a read-only pool every step but dropping a pending BEGIN on a live session keeps idle sessions outside transactions and marks those inside as not to be recycled |
| `PostgresPool.IdleIsOutsideTransactions` | crates/tysel-cap-postgres/src/lib.rs:70-162 | no idle session is inside a transaction at any moment of a run if and only if the run has no such drop |
| `PostgresPool.OnlyAbandoningBegin` | crates/tysel-cap-postgres/src/lib.rs:142-146 | a step puts a session inside a transaction on the stack if and only if it drops an operation awaiting BEGIN on a live session |
| `PostgresPool.AbandonedBeginIsRecycled` | crates/tysel-cap-postgres/src/lib.rs:102-111 | such a run, from an empty pool |
| `PostgresPool.RowsOnlyAfterBegin` | crates/tysel-cap-postgres/src/lib.rs:137-147 | in a read-only pool every row is fetched after BEGIN READ ONLY succeeded on that session since it was taken |
| `PostgresPool.CollectRows` | crates/tysel-cap-postgres/src/lib.rs:178-204 | all rows come back, or an error if and only if one is bad, there are over 10000, or they count for over a mebibyte; the saturating sum hides nothing |
| `PostgresPool.SharedPool.PopIdle` | crates/tysel-cap-postgres/src/lib.rs:125-130 | taking from the stack, with a closed session replaced, is the model's step |
| `PostgresPool.SharedPool.AfterBegin` | crates/tysel-cap-postgres/src/lib.rs:142-147 | discard on failure, otherwise no recycling from here: the model's step |
| `PostgresPool.SharedPool.AfterExecute` | crates/tysel-cap-postgres/src/lib.rs:58-68 | a failed command discards the session: the model's step |
| `PostgresPool.SharedPool.AfterCollect` | crates/tysel-cap-postgres/src/lib.rs:70-83 | on to the close in a read-only pool, otherwise done, with a discard on failure: the model's step |
| `PostgresPool.SharedPool.AfterClose` | crates/tysel-cap-postgres/src/lib.rs:149-161 | recycling again after a successful close, discard otherwise: the model's step |
| `PostgresPool.SharedPool.DropCheckout` | crates/tysel-cap-postgres/src/lib.rs:102-111 | the session goes back before the permit does: the model's step |
| `Hex.DecodeHex` | crates/tysel-build/src/signing.rs:484-501 | decoding n bytes succeeds on exactly the encodings of n bytes, upper case refused |
| `Hex.EncodeHex` | crates/tysel-build/src/signing.rs:474-482 | the loop writes the two digits of every byte |
| `Hex.EncodeInjective` | crates/tysel-build/src/signing.rs:474-501 | no two byte strings are written alike |
| `TrustPolicies.ValidateTrustPolicy` | crates/tysel-build/src/signing.rs:266-292 | comparing each id with the one before, the loop accepts exactly the policies with a non-empty validity of at most 90 days whose keys are well-formed, match their ids and are all in order |
| `TrustPolicies.ValidateTransition` | crates/tysel-build/src/signing.rs:296-366 | the two loops accept exactly the successors that are later and in which, for every id, the key moves forward |
| `TrustPolicies.TrustedReleaseKey` | crates/tysel-build/src/signing.rs:418-447 | a key comes back if and only if the policy is valid and current and lists it, not revoked and in its window for both times |
| `TrustPolicies.IssueTimesIncrease` | crates/tysel-build/src/signing.rs:302-305 | along any chain of accepted transitions issue times strictly increase |
| `TrustPolicies.StayingKeyEvolves` | crates/tysel-build/src/signing.rs:331-354 | along any chain, while a key stays its identity, inception and any deadline once set are fixed and its status never steps back |
| `TrustPolicies.RevokedForever` | crates/tysel-build/src/signing.rs:324-348 | along any chain a revoked key stays, revoked |
| `TrustPolicies.RevokedIsNeverTrusted` | crates/tysel-build/src/signing.rs:418-447 | so no later policy stands for it at any times |
| `TrustPolicies.GoneOnlyAfterDeadline` | crates/tysel-build/src/signing.rs:307-329 | along any chain a key that is gone was retired at its last appearance, and the policy that dropped it was issued after its deadline |
| `TrustPolicies.StepsBackIffForgotten` | crates/tysel-build/src/signing.rs:307-364 | along any chain, between two policies that list a key its status steps back if and only if a policy in between does not list it |
| `TrustPolicies.StepBackIsARetiredReturn` | crates/tysel-build/src/signing.rs:307-364 | where it stepped back it was retired, is active, and was dropped by a policy issued after its deadline |
| `TrustPolicies.RetiredKeyReturns` | crates/tysel-build/src/signing.rs:316-364 | for any hash and any two keys, a chain of three accepted policies in which a retired key is dropped and comes back active and trusted |
| `EvidenceStore.Stage` | crates/tysel-build/src/evidence.rs:343-362 | whatever fails, only temporary files change at any moment; on success one new file holds the contents under a name not taken before |
| `EvidenceStore.Commit` | crates/tysel-build/src/evidence.rs:364-374 | at every moment the destination is as before, gone (on Windows) or new, and nothing else but the temporary file changes |
| `EvidenceStore.CommitIndex` | crates/tysel-build/src/evidence.rs:145-149 | given the four files in place, every state up to and after the last rename has no index or this build's |
| `EvidenceStore.Publish` | crates/tysel-build/src/evidence.rs:139-151 | for every pattern of failures and a stop at any moment: an index on the disk is this build's with this build's four files beside it; success leaves all five and no temporary file |
| `ReleaseEvidence.FindInventory` | crates/tysel-build/src/evidence.rs:284-303 | the scan finds an inventory if and only if the stub embeds exactly one valid one |
| `ReleaseEvidence.WriteEvidence` | crates/tysel-build/src/evidence.rs:90-151 | nothing happens if the old index cannot be removed; from its removal on every state of the disk is truthful about the artifact, however the rest goes; success means all five files are in place |
| `ReleaseEvidence.VerifySupplyChain` | crates/tysel-build/src/evidence.rs:192-235 | accepts exactly the documents the index names that say what the artifact implies; the cross-checks after that comparison never fail |
| `ReleaseEvidence.VerifyEvidence` | crates/tysel-build/src/evidence.rs:153-236 | accepts if and only if the index and every part of it agree with the artifact and the files beside it |
| `ReleaseEvidence.WrittenIsAccepted` | crates/tysel-build/src/evidence.rs:90-256 | after a completed write on an unchanged artifact the verifier accepts, with the index written, if and only if the target is named and every sidecar fits the reader's limit |
| `ReleaseEvidence.UnnamedTargetIsRefused` | crates/tysel-build/src/evidence.rs:171 | evidence written for an empty target is complete and refused |
| `Tasks.Visitor.Visit` | crates/tysel-manifest/src/lib.rs:653-676 | on success everything visited is in an order with dependencies first; on failure there is a task that depends on itself |
| `Tasks.ValidateTasks` | crates/tysel-manifest/src/lib.rs:497-573 | accepts if and only if every task has dependencies or steps, every dependency is a task, none is listed twice and there is no cycle |
| `Tasks.Runner.Execute` | crates/tysel-cli/src/task.rs:47-81 | the recursive walk ends on every acyclic closed graph; what ran is a dependency-first order of completed tasks, plus on failure the steps of the failed task up to the failing one |
| `Tasks.Runner.RunTask` | crates/tysel-cli/src/task.rs:22-81 | succeeds if and only if every step of every reachable task does; then exactly the reachable tasks ran, each once, after their dependencies |
| `Tasks.DependentsDoNotRun` | crates/tysel-cli/src/task.rs:56-78 | after a failure no task that depends on the failed one, near or far, has run a step |
| `Benchmarks.FullMeansAligned` | crates/tysel-bench-compare/src/lib.rs:776-781 | as many samples as rounds if and only if every round has one, and then each is at its round's place |
| `Benchmarks.AlignedIffNoGap` | crates/tysel-bench-compare/src/lib.rs:799-805 | the zip pairs every sample with its own round if and only if no round without a sample comes before one with a sample |
| `Benchmarks.GapMispairs` | crates/tysel-bench-compare/src/lib.rs:799-805 | two rounds, the first without CPU: its throughput is paired with the second's CPU |
| `Benchmarks.AddRounds` | crates/tysel-bench-compare/src/lib.rs:731-772 | fails exactly when the report disagrees with its rounds or memory kinds differ; otherwise the lists are those of all rounds so far |
| `Benchmarks.AddWorkload` | crates/tysel-bench-compare/src/lib.rs:711-773 | one turn of the loop succeeds if and only if the workloads so far are acceptable together, and then every key holds all its rounds |
| `Benchmarks.PoolAll` | crates/tysel-bench-compare/src/lib.rs:667-774 | the nested loops succeed if and only if all inputs have the same workloads and these are acceptable, and then every key holds all its rounds in order |
| `Benchmarks.Aggregate` | crates/tysel-bench-compare/src/lib.rs:665-805 | exact success condition, on Linux evidence with every round measured in full; the samples are those of the zipped lists, and each is one round's throughput over that same round's CPU on Linux evidence and wherever there is no gap |

## Left out

- Text decoders for encodings other than UTF-8, the label check of the constructor and the conversion of arguments to buffers and strings.
- Record and iterable arguments of `URLSearchParams`, and its update callback.
- Garbage collection of abort signals: every signal is treated as live, and weak references always resolve. Timeouts of signals are plain aborts.
- `TextEncoding.NativeEncodeInto`: a detached buffer, which is an error, is not modelled.
- `AbortGraph.AbortRuntime.AnySignal`: an argument that is not iterable, which is an error, is not modelled.
- `DurableExact.AmissIffNoMeaning`: leaves out the start of a retry that meets a callback asking for a retry of its own, of which the meaning of a log knows nothing; `DurableExact.LogDecides` covers it.
- `DurableCatching.CatchAndGoOn`: about workflows without retries and without sleeps that fail after they were recorded.
- The texts of exceptions: a program hears whose exception it is and of a mismatch which events it is about.
- Waiting for a durable signal that has not been delivered ends the model's process like a crash; the wakeup times of sleeps, the clock values recorded with events and the limits on durations are not modelled, nor is a storage failure of the log.
- Keys of retry events are structured values; that their colon-joined text tells them apart is not proved. Numbers are reals, so the rounding of retry delays is not modelled.
- `SourceRewrite.ApplyReplacements`: offsets count characters, not bytes; a byte offset inside a character, which the original would reject by stopping, is not modelled.
- The 32-bit width of lines and columns in the bundler and of positions in diagnostics, and the reader's behaviour on source maps with numbers beyond 64 bits.
- `SourceMaps.LookupOnLine`: a partition point is the number of leading entries that satisfy the test, which is what binary search gives on the ordered tables of parsed maps; transpiler maps with unordered columns are outside this.
- `BundleEmit.EmitBundle`: the text of the loader is a parameter that ends with a newline; file names and contents in the map's JSON are not modelled.
- Parsing, transpilation, resolution and the JavaScript meaning of rewritten modules; `require` calls of plain CommonJS files keep their literal argument and are outside the closure property.
- `ModuleGraph.Collect`: files do not change while the bundle is made, so a canonical path is its own canonical path.
- What a module exports: the loader's model tells finished, unfinished and failed modules apart and nothing more.
- `PostgresPool.NeverTooMany`: counts sessions; a client found closed on the stack no longer has one, although its memory is kept until its replacement is open. Replacing the pool by `configure` starts a new one, to which the bound applies separately.
- SQL parameters, value conversion and error texts of the Postgres capability.
- Ed25519 and SHA-256: the hash is any function, and signatures are not modelled. The claims about trusted keys are about which key is handed to the signature check.
- JSON and the package format: any functions whose reading inverts their writing. Names of sidecar and temporary files are distinct values; that the file names are distinct is not proved.
- Concurrent writers of the same evidence files, and what a file system loses of renames that were not yet flushed to disk.
- Task names, step commands and their arguments, with the manifest's checks of their text, and the output of commands; a step succeeds or fails.
- Floating point in benchmarks (reals instead), percentiles, confidence intervals, the comparison with baselines, and the checks that inputs stem from one system, commit and tool chain.
- The streams polyfill, fetch, WebSocket, timers and Web Crypto of the Web API, the other capabilities, the command line, the website and the component SDKs.
