# Sovereign Engine: a verified model of its hard core

This project models the state machines, parsers and translators of the proxy of Sovereign Engine, and proves what
they are for. `dafny verify dfyconfig.toml` checks all of it.

| Area | Files | What the code does |
|---|---|---|
| Stream translation | `StreamLines`, `StreamModel`, `StreamGrammar`, `StreamSafety`, `StreamContent`, `StreamTranslator` | Turns an OpenAI chat stream, cut into arbitrary chunks, into an Anthropic event stream with indexed content blocks |
| Message translation | `Messages`, `MessageLaws` | Turns Anthropic requests into OpenAI messages, and OpenAI responses into Anthropic blocks |
| GGUF metadata | `Bytes`, `Utf8`, `GgufFormat`, `GgufReader`, `GgufWork`, `GgufRoundTrip`, `GgufMisread`, `GgufFile` | Reads typed key/value entries, nested arrays included, from the head of a model file (ggml `docs/gguf.md`, section "File Structure") |
| KV-cache estimate | `KvCache` | Sums bytes per token over the layers at ingestion, and estimates the cache size from the two sums |
| Disk admission | `MapSum`, `DiskAdmission` | Admits a download when it and everything in flight fit on the disk |
| Reservations | `Timestamps`, `Reservations`, `ReservationInstants` | Books half-hour slots by text comparison in SQL, and keeps the active one in memory |
| Container lifecycle | `Lifecycle`, `TornModels`, `AppState` | Starts, stops, deletes and restarts containers statement by statement, and recovers after a crash of the proxy |
| Rate limiter | `RateLimit` | Allows five calls in a window that starts with a call and lasts 60 seconds |
| Query encoding | `UrlEncoding` | Percent-encodes query parameters |

## How the model is built

Code that works by changing things step by step is a class or a method with loops (`Translator`, `File`, `Downloads`,
`Service`, `AppState`, `RateLimiter`, `ComputeKvAggregates`, the message loops, `Urlencode`). Each is proved equal to a
specification function on values, and the main results are proved about that function over every input or run. The
fold `StreamModel.Fold`, the reader functions on the remaining bytes, the step functions `Next` and `Handle` and the
statement lists of `Lifecycle` are these specifications.

What comes from outside is a parameter: the parser of a stream line, the JSON parser and printer, random ids, the
clock, the parser of request times, how many events a client takes before it disconnects, whether Docker answers,
and whether the disk can be read. Text is decoded text. JSON text is read and written by a parser and a printer; where
a result needs it, what the parser produces survives being printed and parsed (`Lossless`).

Three results are about inputs on which the code does not do what it is for:

* A non-empty `head_count_kv` array of a non-integer type is skipped twice. The round trip excludes exactly these
  values, `HeadCountKvRoundTripIff` shows that no others fail, and `MisreadFile` what becomes of the file, wherever the
  entry stands: `MisreadFileFails` gives a condition on the name that comes next under which the file is rejected.
* The raw text of a request time is stored and compared, not the time it was parsed to. `NeverDoubleBookedIff` gives
  the exact condition on the parser under which no instant is booked twice; `StrictParserIsSafe` shows that insisting
  on canonical text meets it, and `UnpaddedDaysCollide` that reading an unpadded day does not.
* A crash between the last two statements of a stop leaves a model loaded that recovery does not see.
  `LoadedWithoutGateIff` shows that these are exactly the models left behind, and `CutStopIsNotRecovered` that there
  are some.

Where the comments of the source say otherwise, the model follows the code: the order in which the reader tests key
suffixes does not matter (`FieldOfIsItsSuffix`), and the minimum duration of a reservation needs no check of its own
(`MinimumDurationIsImplied`).

## Model

| member | source | states |
|---|---|---|
| `StreamLines.UnsplitOfSplit` | proxy/src/api/anthropic.rs:726-729 | The lines taken out of a buffer and its tail, joined with newlines, are the buffer again; no line and no tail contains a newline |
| `StreamLines.SplitOfUnsplit` | proxy/src/api/anthropic.rs:726-729 | Newline-free lines and a newline-free tail are found again: no other cut of the text exists |
| `StreamLines.SplitOfConcat` | proxy/src/api/anthropic.rs:724-729 | Text that arrives after some text was already split yields exactly the lines of the concatenation |
| `StreamLines.IncrementalIsSplitOfReceived` | proxy/src/api/anthropic.rs:713-729 | Over any chunks, up to the first read error, the incremental buffer yields exactly the newline-terminated lines of all text received; an unterminated tail is dropped |
| `StreamLines.ChunkingIndependence` | proxy/src/api/anthropic.rs:713-729 | Any two ways of cutting the same text into chunks yield the same lines |
| `StreamModel.EventsDependOnTextOnly` | proxy/src/api/anthropic.rs:713-949 | Any two ways of cutting the same text into chunks yield the same events |
| `StreamModel.FoldExtends` | proxy/src/api/anthropic.rs:752-892 | No operation takes back an event that was emitted |
| `StreamGrammar.BookkeepingHolds` | proxy/src/api/anthropic.rs:776-916 | The recogniser's open and used indices are those the positions of starts and stops give, for every event sequence it has not rejected, and every delta and stop in it is anchored |
| `StreamGrammar.GrammarMeaning` | proxy/src/api/anthropic.rs:691-949 | The recogniser accepts a stream if and only if it is message_start, ping, block events, message_delta, message_stop, where no index starts twice, every delta and stop comes after the one start of its index with the block still open, kinds match, and no block is open before message_delta |
| `StreamSafety.FoldKeepsInvariant` | proxy/src/api/anthropic.rs:664-895 | Every operation keeps the flags, the tool table and the emitted stream in agreement: open blocks are those of the text flag and the started table entries, indices are distinct and below the next one |
| `StreamSafety.ClosingIsAccepted` | proxy/src/api/anthropic.rs:897-949 | From every state that satisfies the invariant, the closing events complete a grammatical stream |
| `StreamSafety.StreamIsGrammatical` | proxy/src/api/anthropic.rs:664-949 | Every run emits a grammatical stream, for any chunks, any read error and any parser of lines |
| `StreamContent.TextIsConserved` | proxy/src/api/anthropic.rs:767-792 | The text deltas received, concatenated, are the content of all deltas in order |
| `StreamContent.ToolArgumentsAreConserved` | proxy/src/api/anthropic.rs:795-890 | For every tool index seen there is one block of its own; its argument deltas, concatenated, are all argument fragments from the delta at which the name became non-empty; a named call is announced with its id and name |
| `StreamContent.AllArgumentsArriveIff` | proxy/src/api/anthropic.rs:844-888 | All argument fragments of a call arrive if and only if its name comes no later than its first non-empty fragment |
| `StreamContent.BlocksAreNotShared` | proxy/src/api/anthropic.rs:817-827 | Two tool indices never share a block |
| `StreamContent.AtMostTwoTextBlocks` | proxy/src/api/anthropic.rs:770-815 | A message has at most two text blocks |
| `StreamContent.BlocksAppearUnlessNameless` | proxy/src/api/anthropic.rs:846-932 | A message has a block if and only if some text or named tool call was received, or no tool call at all |
| `StreamContent.EndingReportsLast` | proxy/src/api/anthropic.rs:752-764 | message_delta and message_stop come last and report the last finish reason and the last completion count received, or end_turn and zero |
| `StreamTranslator.Translator.SendEvent` | proxy/src/api/anthropic.rs:676-689 | An event reaches the client, or the client is gone and nothing changes |
| `StreamTranslator.Translator.OnText` | proxy/src/api/anthropic.rs:767-792 | Opens a text block when none is open and sends the text delta, or stops with a prefix of that |
| `StreamTranslator.Translator.FindOrCreate` | proxy/src/api/anthropic.rs:799-829 | Finds the table entry of an index, or closes the text block before the first tool call and appends an entry with the next block index |
| `StreamTranslator.Translator.OnToolDelta` | proxy/src/api/anthropic.rs:795-889 | One tool delta: entry, id, name and arguments merged, start announced once the name is known, arguments sent |
| `StreamTranslator.Translator.OnLine` | proxy/src/api/anthropic.rs:728-893 | One line: trimmed, [DONE] and unparsable lines ignored, a parsed chunk carried out |
| `StreamTranslator.Translator.OnDecoded` | proxy/src/api/anthropic.rs:722-894 | Appends text to the buffer and carries out every complete line in it |
| `StreamTranslator.Translator.ReadChunks` | proxy/src/api/anthropic.rs:713-895 | Carries out the lines of all chunks up to the first read error |
| `StreamTranslator.Translator.CloseBlocks` | proxy/src/api/anthropic.rs:897-916 | Closes the open text block and every started tool block |
| `StreamTranslator.Translator.Close` | proxy/src/api/anthropic.rs:897-949 | The closing events, with the empty pair when there was no block |
| `StreamTranslator.Translator.Run` | proxy/src/api/anthropic.rs:661-954 | The client receives exactly the transcript, or, when it disconnects after some number of events, that many first events of it |
| `Messages.ContentText` | proxy/src/api/anthropic.rs:223-239 | The loop over content blocks computes the concatenated text |
| `Messages.TranslateAssistantToolUse` | proxy/src/api/anthropic.rs:265-328 | The loop over the blocks of an assistant turn computes its text and its calls |
| `Messages.TranslateUserToolResult` | proxy/src/api/anthropic.rs:333-396 | The loop with pending text computes the messages of a user turn with tool results |
| `Messages.TranslateRequest` | proxy/src/api/anthropic.rs:399-425 | The loop over all turns computes the system message and the translation of every turn, in order |
| `Messages.TranslateOpenAIResponse` | proxy/src/api/anthropic.rs:517-579 | Computes the content blocks of a response: text, tool calls, never empty |
| `MessageLaws.UserTurnIsPreserved` | proxy/src/api/anthropic.rs:333-396 | A user turn with tool results becomes the same sequence of tool results and text, in maximal non-empty text runs, and it is the only such sequence of messages |
| `MessageLaws.MaximalRunsAreUnique` | proxy/src/api/anthropic.rs:344-395 | Two sequences of maximal runs with the same content are equal |
| `MessageLaws.ConversationIsPreserved` | proxy/src/api/anthropic.rs:413-425 | For any list of turns, the messages say, in order, every character under its role, every tool result and every call with id, name and argument value, given that the inputs of the tool calls survive being printed and parsed |
| `MessageLaws.RequestIsPreserved` | proxy/src/api/anthropic.rs:399-425 | The translated request says the system text, if any, and then the whole conversation, under the same condition |
| `MessageLaws.CallBlocksKeepCalls` | proxy/src/api/anthropic.rs:540-570 | Calls survive the translation into blocks if and only if every id is non-empty and all arguments parse |
| `MessageLaws.ResponseRoundTrip` | proxy/src/api/anthropic.rs:517-579 | A backend message turned into blocks and sent back is one assistant message; it has the same text and the same calls if and only if every call had an id and arguments that parse, given that parsed values survive being printed and parsed |
| `GgufReader.SkipLeavesSuffix` | proxy/src/api/hf.rs:1612-1648 | Skipping a value on arbitrary bytes terminates, and on success leaves a proper suffix of the input |
| `GgufReader.SkipManyLeavesSuffix` | proxy/src/api/hf.rs:1637-1639 | Skipping any number of elements terminates, and on success leaves a suffix of the input |
| `GgufReader.SkipWorkIsBounded` | proxy/src/api/hf.rs:1612-1648 | The array elements begun while skipping, over all nesting levels, number no more than the bytes remaining, whatever counts the headers claim |
| `GgufReader.SkipManyWorkIsBounded` | proxy/src/api/hf.rs:1637-1639 | The same for the element loop; on success it begins at least the claimed count and at most the bytes consumed |
| `GgufReader.ReadIntsConsumes` | proxy/src/api/hf.rs:1557-1566 | The integer-array loop consumes a prefix of at least one byte an element, or fails |
| `GgufReader.ReadBoolsConsumes` | proxy/src/api/hf.rs:1603-1607 | The bool-array loop consumes a prefix of at least one byte an element, or fails |
| `GgufReader.ReaderConsumesPrefix` | proxy/src/api/hf.rs:1452-1746 | On arbitrary bytes the reader fails or consumes a prefix of at least 24 bytes |
| `GgufWork.IntsWorkIsBounded` | proxy/src/api/hf.rs:1557-1566 | Whatever count the header claims, the integer-array loop begins, nested skips included, at most as many elements as it consumes bytes, and when it fails at most one more than there were bytes |
| `GgufWork.BoolsWorkIsBounded` | proxy/src/api/hf.rs:1603-1607 | The same for the bool-array loop |
| `GgufWork.EntryWorkIsBounded` | proxy/src/api/hf.rs:1669-1743 | Reading one entry begins fewer elements than it consumes bytes, and when it fails at most as many as there were bytes |
| `GgufWork.MetadataWorkIsBounded` | proxy/src/api/hf.rs:1452-1746 | On arbitrary bytes, whether the read succeeds or fails, its loops begin in all at most as many rounds, over entries and over elements at every nesting level, as the file has bytes |
| `GgufRoundTrip.SkipEncoded` | proxy/src/api/hf.rs:1612-1648 | Skipping an encoded value of any of the thirteen types, at any nesting depth, consumes exactly its encoding |
| `GgufRoundTrip.IntOrArrayRoundTrip` | proxy/src/api/hf.rs:1541-1575 | Reading an encoded value as scalar or array gives maximum and full array of integers, and consumes arrays and integers exactly |
| `GgufRoundTrip.MaxOfIsMaximum` | proxy/src/api/hf.rs:1559 | The maximum kept is an element and an upper bound, and is absent only for the empty array |
| `GgufRoundTrip.HeadCountKvRoundTripIff` | proxy/src/api/hf.rs:1680-1692 | A head_count_kv value is consumed exactly, with maximum and array stored, if and only if it is not a non-empty array of a non-integer type |
| `GgufRoundTrip.FieldOfIsItsSuffix` | proxy/src/api/hf.rs:1652-1732 | A key names a field if and only if it ends with that field's suffix: no key ends with two of the twelve, so the order of the tests is irrelevant |
| `GgufRoundTrip.EntryRoundTrip` | proxy/src/api/hf.rs:1669-1743 | Reading one encoded entry applies its effect and stops at its end, unless it is the misread kind |
| `GgufRoundTrip.EntriesRoundTrip` | proxy/src/api/hf.rs:1669-1743 | Reading encoded entries gives, for every suffix, the last usable value, and stops exactly at their end |
| `GgufRoundTrip.FileRoundTrip` | proxy/src/api/hf.rs:1452-1746 | For every list of at most 10000 well-typed entries without a misread one, reading the encoded file gives the last usable value of each of the twelve suffixes and leaves what follows untouched |
| `GgufMisread.MisreadSkipsFollowing` | proxy/src/api/hf.rs:1684-1688 | Reading a misread entry, a non-empty head_count_kv array of a non-integer type, leaves the metadata as it was and skips an array in the bytes that follow the entry, or fails if there is none |
| `GgufMisread.MisreadOverruns` | proxy/src/api/hf.rs:1684-1688 | So it fails or consumes at least twelve bytes of what follows |
| `GgufMisread.MisreadFile` | proxy/src/api/hf.rs:1669-1743 | A misread entry at any position of a file: the read goes on with the remaining number of entries from wherever the second skip ends, and fails if that skip does |
| `GgufMisread.MisreadFileFails` | proxy/src/api/hf.rs:1669-1743 | Such a file is rejected when at most eleven bytes follow the entry, or when what follows begins with a name of more than twelve bytes: the key of the next entry or the name of the first tensor |
| `GgufMisread.MisreadBeforeLongKeyFails` | proxy/src/api/hf.rs:1669-1743 | In particular when the next entry has such a key, whatever comes after it |
| `GgufMisread.StringArrayHeadCountFails` | proxy/src/api/hf.rs:1557-1571 | The deviation on a concrete family of files: a head_count_kv array of one string, for any architecture name, then a tensor with a long name |
| `GgufFile.File.SkipValue` | proxy/src/api/hf.rs:1612-1648 | Advances the cursor as skipping the remaining bytes does |
| `GgufFile.File.ReadIntOrArray` | proxy/src/api/hf.rs:1541-1575 | Advances the cursor, and begins elements, as the reader function does, and returns maximum and array |
| `GgufFile.File.ReadBoolArrayValue` | proxy/src/api/hf.rs:1580-1609 | Advances the cursor, and begins elements, as the reader function does, and returns the bools |
| `GgufFile.File.ReadAllEntries` | proxy/src/api/hf.rs:1669-1743 | The loop over the entries updates the metadata and the cursor, and begins rounds, as the reader function does |
| `GgufFile.File.Read` | proxy/src/api/hf.rs:1452-1746 | The whole read of a file agrees with the reader function, in metadata and in final cursor position, and begins at most as many rounds as the file has bytes |
| `KvCache.ComputeKvAggregates` | proxy/src/api/hf.rs:1392-1429 | The loop with two accumulators computes the aggregates, including the wrap-around of u32 and i64 |
| `KvCache.PerLayerSplitsByKind` | proxy/src/api/admin.rs:1366-1394 | The sum over layers splits into a global and a sliding part, each a sum of heads times dims times the cached tokens |
| `KvCache.LayerSumsExact` | proxy/src/api/hf.rs:1408-1418 | Under explicit bounds on layers, heads and dims no u32 or i64 step of the loop wraps: the two sums are exact |
| `KvCache.EstimateIsPerLayerSum` | proxy/src/api/admin.rs:1377-1394 | Under explicit bounds the estimate is the floor, in MB, of parallel times the sum over the layers of heads, dims, two bytes and the cached tokens of the layer's kind |
| `KvCache.EstimateIsMonotone` | proxy/src/api/admin.rs:1377-1394 | The estimate is monotone in context, window and parallelism, saturation included; an absent window counts as the largest |
| `KvCache.EstimateScalesWithParallel` | proxy/src/api/admin.rs:1390-1393 | Below saturation k times the estimate for one slot is at most the estimate for k slots, which exceeds it by less than k |
| `KvCache.HomogeneousEqualsLegacy` | proxy/src/api/hf.rs:1422-1428 | On homogeneous metadata with explicit dims, below overflow, the aggregate path and the legacy path give the same estimate |
| `DiskAdmission.StepConserves` | proxy/src/api/hf.rs:546-611 | Every step keeps: what admitted running downloads may still write fits into the free space, and, when positive, leaves the disk below 95 percent |
| `DiskAdmission.AdmissionConservesSpace` | proxy/src/api/hf.rs:546-611 | The same over every interleaving of begin, set-total, validate, chunk, cancel, fail, finish and delete steps, from an empty table |
| `DiskAdmission.NoDownloadVanishes` | proxy/src/api/hf.rs:425-476 | No step takes a download out of the table |
| `DiskAdmission.NoChunkFindsDiskFull` | proxy/src/api/hf.rs:702-718 | In such a run no chunk of an admitted running download finds the disk full |
| `DiskAdmission.ChunkMovesBytes` | proxy/src/api/hf.rs:716-723 | A chunk within the reported size moves bytes from owed to used |
| `DiskAdmission.ChunkConservesIff` | proxy/src/api/hf.rs:716-723 | A chunk of any size keeps the balance if and only if there is room for what it writes beyond the reported size |
| `DiskAdmission.UnreadableDiskIff` | proxy/src/api/hf.rs:552-555 | Admission without a disk reading keeps the balance if and only if there was room |
| `DiskAdmission.Downloads.OtherInFlight` | proxy/src/api/hf.rs:557-563 | The loop sums what all other running downloads still have to write |
| `DiskAdmission.Downloads.ValidateDiskSpace` | proxy/src/api/hf.rs:546-611 | Admits exactly when the disk cannot be read or the download and everything in flight fit below both limits, and records a failure otherwise |
| `DiskAdmission.Downloads.WriteChunk` | proxy/src/api/hf.rs:702-724 | Drops a cancelled download, fails on a full disk, else writes and counts the chunk |
| `DiskAdmission.Downloads.StreamResponseToFile` | proxy/src/api/hf.rs:681-744 | The chunk loop is a run of chunk steps; when it completes, progress is the offset plus the bytes of the file; otherwise the task has ended with a recorded error (file not created, stream broken off, chunk not written), or cancelled and with the file removed |
| `DiskAdmission.Downloads.SetTotalBytes` | proxy/src/api/hf.rs:1015-1022 | Records the total of a listed download, and ignores an unknown one |
| `DiskAdmission.Downloads.CancelDownload` | proxy/src/api/hf.rs:448-476 | Cancels exactly the downloads that are running |
| `DiskAdmission.Downloads.SetDownloadError` | proxy/src/api/hf.rs:1257-1264 | Marks the download failed, whatever its state, and ignores an unknown one |
| `DiskAdmission.Downloads.CompleteDownload` | proxy/src/api/hf.rs:1141-1146 | Marks the download complete, and ignores an unknown one |
| `Timestamps.FieldOrderIsChronological` | proxy/src/api/reservation.rs:78-80 | Comparing year, month, day, hour, minute, second in turn is comparing instants of the Gregorian calendar |
| `Timestamps.TextOrderIsChronological` | proxy/src/api/reservation.rs:150-161 | For zero-padded 19-character timestamps the text order is the chronological order |
| `Timestamps.OverlapTestIsExact` | proxy/src/api/reservation.rs:150-161 | For canonical timestamps the SQL test finds a row exactly when the half-open intervals share an instant |
| `Timestamps.UnpaddedMonthsMisorder` | proxy/src/api/reservation.rs:78-80 | Without zero padding the order breaks, in every year |
| `Timestamps.MinimumDurationIsImplied` | proxy/src/api/reservation.rs:128-138 | Between half-hour boundaries a later time is at least half an hour later: the minimum-duration check never fires |
| `Reservations.Service.CreateReservation` | proxy/src/api/reservation.rs:93-198 | Adds a pending row with the raw request times exactly when all checks pass, the length of the reason included |
| `Reservations.Service.CancelOwnReservation` | proxy/src/api/reservation.rs:219-250 | Cancels exactly an own pending or approved row |
| `Reservations.Service.ApproveReservation` | proxy/src/api/reservation.rs:381-463 | Approves a pending row that overlaps no other booked row, unless the note is too long |
| `Reservations.Service.RejectReservation` | proxy/src/api/reservation.rs:466-499 | Rejects exactly a pending row, unless the note is too long |
| `Reservations.Service.ForceActivateReservation` | proxy/src/api/reservation.rs:502-561 | Activates an approved row, and the cache, exactly when the cache is empty |
| `Reservations.Service.ForceDeactivateReservation` | proxy/src/api/reservation.rs:564-592 | Completes an active row and clears the cache |
| `Reservations.Service.DeleteReservation` | proxy/src/api/reservation.rs:595-636 | Deletes exactly a row that is not active |
| `Reservations.Service.QueryDue` | proxy/src/scheduler/reservation.rs:114-124 | Finds an earliest approved row whose start has come, or that there is none |
| `Reservations.Service.TickReservations` | proxy/src/scheduler/reservation.rs:83-171 | Completes what is over, activates the due row when nothing is active, cancels stale requests |
| `Reservations.Service.RecoverActiveReservation` | proxy/src/scheduler/reservation.rs:174-199 | Fills the cache of a new process with the active row, if there is one |
| `Reservations.HandlerKeepsSafe` | proxy/src/api/reservation.rs:93-636 | Every handler, the tick and a restart keep: booked intervals pairwise disjoint, start before end, cache and table in agreement |
| `Reservations.ReachableIsSafe` | proxy/src/api/reservation.rs:93-636 | All three hold in every reachable state: in particular no row is active and the cache is empty, or one row is active and the cache holds its id, user and end |
| `ReservationInstants.BookingsNeverShareAnInstant` | proxy/src/api/reservation.rs:150-161 | With any parser that reads canonical text, in every reachable state two booked rows with canonical times share no instant |
| `ReservationInstants.ConflictIsSharedInstant` | proxy/src/api/reservation.rs:150-161 | On canonical times the conflict query finds a row if and only if some instant of the request is booked |
| `Reservations.TickLeavesNothingOver` | proxy/src/scheduler/reservation.rs:91-100 | After a tick no pending request has started, and no row but the one just activated is active past its end |
| `Reservations.TickActivatesWhatIsDue` | proxy/src/scheduler/reservation.rs:111-145 | After a tick an approved row waits past its start only while the cache holds a reservation, which is another, active row whenever the cache agreed with the table before the tick (an invariant, by `ReachableIsSafe`) |
| `ReservationInstants.BothBookedIff` | proxy/src/api/reservation.rs:409-440 | Two valid requests for an empty calendar, made and approved one after the other, are both booked if and only if their texts do not overlap |
| `ReservationInstants.NeverDoubleBookedIff` | proxy/src/api/reservation.rs:150-161 | For every parser of request times: no reachable state has an instant booked twice if and only if any two requests the handler accepts that share an instant overlap as text |
| `ReservationInstants.StrictParserIsSafe` | proxy/src/api/reservation.rs:78-80 | A parser that accepts canonical text only, with its meaning, never lets an instant be booked twice |
| `ReservationInstants.UnpaddedDaysCollide` | proxy/src/api/reservation.rs:150-161 | A parser that also reads an unpadded day fails: four plain requests, with no tick, book an instant twice |
| `Reservations.AdmissionFollowsTable` | proxy/src/api/openai.rs:125-141 | In every reachable state a non-internal request is admitted if and only if no active row belongs to someone else |
| `Reservations.StatusesOnlyMoveForward` | proxy/src/api/reservation.rs:219-592 | A request changes neither owner nor times of a row, and its status by at most one move along pending, approved, active, completed, or to rejected or cancelled |
| `Reservations.AtMostThreeChangesPerRow` | proxy/src/api/reservation.rs:93-636 | Over any run there are at most three status changes for every row created |
| `Lifecycle.ProgramFits` | proxy/src/api/common.rs:414-454 | A handler that begins between handlers may run on, have its Docker call fail, or be cut at any statement, and gate, rows and supervision end up in agreement |
| `Lifecycle.EventKeepsInv` | proxy/src/api/common.rs:414-580 | Every event (a statement, a container death, a Docker error, a crash, a boot, a probe) keeps the invariant of all models |
| `Lifecycle.RecoveryRestoresGates` | proxy/src/main.rs:463-535 | After recovery, for every model: a gate, and supervision, exactly if its container was found alive; then it is loaded and the gate has max(1, persisted) slots; every loaded model with a secrets row has one |
| `Lifecycle.ListedWasSeenAlive` | proxy/src/main.rs:484-525 | Whatever recovery lists as alive, a probe since the last crash saw alive |
| `TornModels.MendedIff` | proxy/src/api/common.rs:414-504 | A loaded model without a secrets row stays so under every event, until a statement of its own writes a secret, clears loaded or deletes its rows |
| `TornModels.NothingMendsBeforeServing` | proxy/src/main.rs:463-535 | While the proxy is down or recovers, no event does so |
| `TornModels.TornIff` | proxy/src/api/common.rs:492-504 | In every reachable state a model is loaded without a secrets row if and only if it is loaded and in the middle of its stop, or a crash cut its stop between deleting the secret and clearing loaded, and no such statement was carried out since |
| `TornModels.LoadedWithoutGateIff` | proxy/src/main.rs:463-535 | When recovery is over, a model is loaded without a gate if and only if a crash cut its stop there and no such statement was carried out since |
| `TornModels.CutSurvivesRecovery` | proxy/src/main.rs:463-535 | From a cut to the end of the next recovery, through further crashes and interrupted recoveries, the model ends loaded, without a gate and without a handler |
| `TornModels.CutStopIsNotRecovered` | proxy/src/api/common.rs:492-504 | The cut does occur, and a recovery after it leaves the model loaded and without a gate |
| `Lifecycle.IdleModelsAgree` | proxy/src/api/common.rs:414-504 | While the proxy serves, a model without a handler at work has a gate exactly if it is loaded and has a secrets row, of the persisted size, and supervised |
| `AppState.AppState.StartContainer` | proxy/src/api/common.rs:309-460 | A start changes rows, gate and supervision as its statements do; when Docker fails, only supervision |
| `AppState.AppState.StopContainer` | proxy/src/api/admin.rs:1107-1131 | A stop changes rows, gate and supervision as its statements do, and nothing when Docker fails |
| `AppState.AppState.PostStopCleanup` | proxy/src/api/common.rs:492-504 | The cleanup after a stop, statement by statement |
| `AppState.AppState.ReconcileState` | proxy/src/api/common.rs:557-580 | The reconciliation of a dead backend, statement by statement |
| `AppState.AppState.DeleteModel` | proxy/src/api/admin.rs:628-754 | A deletion is refused while active tokens pin the model, unless overridden; it stops a loaded model, cleans up even when Docker fails, removes secret and model row, and leaves no token pinned to it or active |
| `AppState.AppState.HandleCrash` | proxy/src/supervisor/restart.rs:152-264 | After a crash: reconciliation, then a restart with the persisted slots when the backend had served |
| `AppState.AppState.QueryRows` | proxy/src/main.rs:464-478 | The recovery query: every loaded model with a secret once |
| `AppState.AppState.RecoverGateState` | proxy/src/main.rs:463-535 | The loop over the rows recovers every model as its probe says, and returns exactly the ids found alive |
| `AppState.RecoveredIsConsistent` | proxy/src/main.rs:493-525 | Recovery makes the state a crash left consistent, with a gate exactly for what was found alive |
| `AppState.HandlerKeepsConsistent` | proxy/src/api/common.rs:414-504 | A handler that runs to its end leads from one consistent state between handlers to the next |
| `RateLimit.RateLimiter.CheckRateLimit` | proxy/src/auth/oidc.rs:60-80 | Updates count and window start of one client as the decision function says, and no other client's |
| `RateLimit.AtMostNinePerWindow` | proxy/src/auth/oidc.rs:58-80 | In any half-open interval of 60 seconds at most nine calls of one client are allowed |
| `RateLimit.NineIsAttained` | proxy/src/auth/oidc.rs:58-80 | Nine are attained by a non-decreasing sequence of calls |
| `RateLimit.RefusedIffFiveAllowed` | proxy/src/auth/oidc.rs:69-79 | A call is refused if and only if it comes within 60 seconds of the window start and exactly five calls were allowed since then |
| `RateLimit.ClientsAreIndependent` | proxy/src/auth/oidc.rs:62-66 | The decisions about a client are those of a run with its own calls only |
| `UrlEncoding.Urlencode` | proxy/src/api/hf.rs:1748-1762 | The nested loops compute the encoding |
| `UrlEncoding.FormDecodeUndoesUrlencode` | proxy/src/api/hf.rs:1748-1762 | Form-decoding the encoding gives the UTF-8 bytes of every string (section 5.1 of the WHATWG URL Standard) |
| `UrlEncoding.UrlEncodedIsInjective` | proxy/src/api/hf.rs:1748-1762 | Different strings have different encodings |
| `UrlEncoding.UrlEncodedIsQuerySafe` | proxy/src/api/hf.rs:1752-1757 | The output has only unreserved characters, '+', and '%' with two upper-case hex digits (sections 2.1 and 2.3 of RFC 3986) |
| `Utf8.DecodeOfEncode` | proxy/src/api/hf.rs:1755 | Decoding the UTF-8 encoding of a string gives the string (RFC 3629) |
| `Utf8.EncodeOfDecode` | proxy/src/api/hf.rs:1504 | Bytes that decode are the encoding of what they decode to |

## Left out

- HTTP routing, CORS, TLS, cookies, tokens, Docker's own API, `df`, GPU probing, the database engine and the user
  interface: I/O and foreign code.
- Parsing of stream lines and of JSON text: parameters, as above.
- The lossy decoding of each chunk: a multi-byte character cut in two by a chunk boundary becomes replacement characters
  in the code, so that chunking independence is about decoded text.
- The machine width of tool indices and block counters of a stream, which no stream is long enough to overflow.
- The usage totals the caller reads after a disconnect are only shown to equal the totals so far.
- Fields of requests and responses other than messages, system text and content blocks: copied through unchanged.
- KvCache.ComputeKvAggregates: models the wrap-around of a release build; a debug build stops on overflow instead.
- Memory reserved for arrays and strings before their elements are read.
- The values of floating-point GGUF entries: kept as bit patterns, which the reader only skips.
- DiskAdmission.StepConserves: assumes that validation and each chunk are atomic, that streams stay within the listed
  sizes (a file without a listed size counts as zero), and that nothing else writes to the disk. `ChunkConservesIff` and
  `UnreadableDiskIff` say exactly when the balance holds without the second assumption or a disk reading.
- The percentage of disk use is exact here; the code rounds it to a double.
- Reservations.ReachableIsSafe: assumes that handlers and ticks are atomic and SQL statements succeed; the code treats a
  failing overlap query as no overlap.
- The leniency of the library that parses request times: the parser is a parameter, and results about instants ask for
  canonical text or state a condition on the parser.
- The text of notes and reasons of reservations, of which only the length is checked, listings, and notifications.
- Lifecycle.RecoveryRestoresGates: assumes one handler at a time for each model and no SQL failure.
- API keys, user ids of containers and the launch configuration; a second start of a running container stores a new
  secrets row, and only its slots are modelled.
- The map of backends that have served, quarantine, crash logs, health probing and the supervisor's state machine:
  whether the supervisor sees a crash, and whether it restarts, are parameters.
- The concurrency gate's counting, the request queue and fair-use priorities: a gate is its number of slots.
- The client key of the rate limiter, and clocks that go backwards.
- Configuration, runtime overrides, file selection, period mapping, secret encryption and content security policy: small
  functions whose properties would be easy.
