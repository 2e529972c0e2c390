# Verified models of the gateway daemon and the event bus

This project models the parts of the Gateway v2 daemon, the event bus and their adapters whose
correctness is hard to see from one function body, and proves properties of the models: a strict JSON
parser against the grammar of RFC 8259, a hash-chained journal with crash recovery and tamper evidence,
log readers against their batch view, serialised writers as step machines, idempotent RPC dispatch, nonce
replay, a crash-safe file migration, an egress guard with an IPv6 text parser, an approval adapter under
every interleaving, a transcript projection and deep redaction.

`dafny verify dfyconfig.toml` checks everything.

## How it is built

- Where the program updates state, the model is a class whose methods follow the program's branches. Each
  method is tied by its contract to a function on plain values (a `State`, a `Step`, a parse function), and
  the results are lemmas about those functions over every run, every input or every crash point.
- An asynchronous function is cut at its awaits. A step is what runs between two awaits; a run is any
  sequence of steps and of things the environment does. A step that cannot happen is skipped.
- A commit, a transport, a clock, a resolver, a handler or a disk may answer anything it can answer at all;
  its answers are inputs of the step.
- SHA-256 is an uninterpreted function. Results that rest on it are stated as "or these two lines collide"
  instead of assuming a function without collisions.

| file | models |
|---|---|
| `options.dfy`, `sequences.dfy`, `texts.dfy`, `decimals.dfy` | optional values, equalities of sequences, ASCII digits and case, decimal strings |
| `json_values.dfy` | JSON values with ordered members |
| `strict_json_grammar.dfy` | sections 2 to 7 of RFC 8259 as concrete syntax trees, with printer and meaning |
| `strict_json_derivation.dfy`, `strict_json.dfy` | the recursive descent as a function, and the `Parser` class proved to follow it |
| `strict_json_rules.dfy` | the wire rules on trees: surrogates, distinct names, finite numbers, depth |
| `strict_json_soundness.dfy`, `strict_json_completeness.dfy`, `strict_json_surrogates.dfy` | what the descent finds is right, everything right is found, and what well-formed texts say about surrogates |
| `strict_json_proofs.dfy`, `strict_json_repeats.dfy` | the parser is exact and unambiguous; the one error that names a field |
| `lines.dfy` | bytes cut at line feeds: the batch view |
| `journal_markers.dfy`, `journal.dfy`, `journal_proofs.dfy` | commit markers, the journal object, crash recovery and tamper evidence |
| `journal_failures.dfy`, `journal_answers.dfy` | appends whose write fails while the process lives on, and what a verification answers for any file |
| `tail_reader.dfy` | the incremental JSONL reader |
| `subscription_stream.dfy` | the windowed subscription read and the SSE poll loop |
| `event_bus.dfy` | `LatticeBus` |
| `audit_lane.dfy` | `AuditReceiptWriter` |
| `dispatch.dfy` | the RPC pipeline |
| `peer_nonces.dfy` | peer proofs and the two nonce stores |
| `config_migration.dfy` | the v1 to v2 configuration migration on a filesystem that can crash |
| `egress_addresses.dfy`, `egress_texts.dfy`, `egress_fetch.dfy`, `egress_policy.dfy` | address policy, address texts, redirect loop, and the policy stated over what it forbids |
| `bits.dfy`, `address_parts.dfy` | bit operations, and splitting as the inverse of joining, for the files before |
| `approval_adapter.dfy`, `approval_buses.dfy`, `approval_causes.dfy` | the VekInbox adapter, the bus of each side effect, and the cause of each approval |
| `transcript.dfy` | the transcript projection |
| `redaction.dfy` | deep redaction |

## What turned out not to hold

Each of these comes with a lemma that says exactly when the property holds, for all inputs or runs, and, unless
that condition is itself the input, with a lemma at an input or run where it fails.

- An append that throws with bytes in the file keeps its old head, and the next append corrupts the journal
  unless a verification or a restart comes first (`JournalFailures.FailedAppendCorrupts`, exactly in
  `JournalFailures.CorruptIff`).
- A surrogate pair split between a raw half and an escaped half is rejected although the decoded string is
  well formed (`StrictJsonProofs.MixedPairRejected`). It cannot happen in a byte body, whose decoded text is
  itself well formed: there acceptance is exactly the standard's (`StrictJsonProofs.AcceptsExactly`).
- The tail reader loses the remaining lines of a chunk when the handler throws
  (`TailReader.ThrowLosesALine`), and only then (`TailReader.HandledExactly`).
- A subscription with 4096 consecutive rows that do not match is stuck for good
  (`SubscriptionStream.StuckLog`, exactly in `SubscriptionStream.StuckIff`). A stream resumed from a retained
  event of a lane with a lower ordinal than the earliest event's is refused as gone
  (`SubscriptionStream.RetainedButGone`, `SubscriptionStream.RefusedIff`).
- With a ring capacity below 1 the ring outgrows it (`EventBus.RingBoundedIff`). With `persist_fail` "throw",
  the default, an event kept out of the ring whose append fails is never reported by a `bus_overflow`
  (`EventBus.ThrowLeavesNoReport`, exactly in `EventBus.DropReportedIff`).
- The audit chain forks if a commit becomes durable, still reports failure, and another event follows before a
  restart (`AuditLane.LateFailureForks`, exactly in `AuditLane.ChainIff` and `AuditLane.HeadIsTail`).
- Without an idempotency lookup or a port that records the method, or when the commit is lost, the identical retry of a
  mutation runs the service again (`Dispatch.RetryRunsAgainIff`). A peer that may consume nothing may query
  or subscribe to an empty topic list (`Dispatch.EmptyTopicListNeedsNoScope`).
- The purging nonce store forgets what a clock that steps back asks about again
  (`PeerNonces.ClockBackDisagrees`, exactly in `PeerNonces.DisagreeIff`). The code reads the clock twice per
  request: a proof checked just before its token runs out and looked up just after is accepted a second time,
  by either store (`PeerNonces.StraddledReplay`, exactly in `PeerNonces.ReplayIff`).
- The IPv4 table compares two octets and denies more than the ranges its comments name
  (`EgressAddresses.BroaderThanNamed`, exactly in `EgressAddresses.TableCoversRanges`).
- A restart of the approval adapter between an approval and its side effects sends those to the new run's
  bus (`ApprovalBuses.EffectOnAnotherBus`, exactly in `ApprovalBuses.EffectBusIff`).
- An entry named `__proto__` swallows the redactions below it, so that the stamp counts entries the result
  does not have (`Redaction.PrototypeEntryDiffers`, exactly in `Redaction.StampIdempotentIff`).

## Model

| member | source | states |
|---|---|---|
| `StrictJsonProofs.ParsesExactly` | packages/gateway-daemon/src/net/strict-json.ts:82-374 | For every text, depth bound and candidate syntax tree: the descent ends at the end of the text with that tree if and only if the tree prints to the text, is grammatical (RFC 8259), has no duplicate decoded names, finite numbers, nesting within the bound and every surrogate pair in one form. Soundness and completeness in one. |
| `StrictJsonProofs.AcceptsExactly` | packages/gateway-daemon/src/net/strict-json.ts:55-374 | For well-formed UTF-16 texts: accepted with a value exactly when the text is some RFC 8259 rendering of that value and the value has unique names, bounded nesting, finite numbers and well-formed strings; escaping and whitespace do not matter. |
| `StrictJsonProofs.Unambiguous` | packages/gateway-daemon/src/net/strict-json.ts:127-374 | No text has two admissible readings. |
| `StrictJsonSurrogates.InForm` | packages/gateway-daemon/src/net/strict-json.ts:241-340 | The parser's per-form surrogate rule implies well-formed strings in the value, and inside a well-formed text is implied by it. |
| `StrictJsonProofs.MixedPairRejected` | packages/gateway-daemon/src/net/strict-json.ts:241-340 | A raw high half followed by an escaped low half is rejected though the decoded string is well formed. |
| `StrictJsonSoundness.SoundAny` | packages/gateway-daemon/src/net/strict-json.ts:137-160 | Whatever value is read, the text read is its rendering followed by the rest, and it is admissible at the remaining depth. |
| `StrictJsonSoundness.SoundItems` | packages/gateway-daemon/src/net/strict-json.ts:213-239 | The same for the elements of an array up to its bracket. |
| `StrictJsonSoundness.SoundFields` | packages/gateway-daemon/src/net/strict-json.ts:170-211 | The same for the members of an object, with decoded names distinct from each other and from those already seen. |
| `StrictJsonSoundness.SoundChars` | packages/gateway-daemon/src/net/strict-json.ts:241-274 | The characters read print back to the text up to the quotation mark, with every surrogate paired in one form. |
| `StrictJsonCompleteness.CompleteAny` | packages/gateway-daemon/src/net/strict-json.ts:137-160 | Every rendering of an admissible value, before anything that cannot continue a number, is read back to exactly that tree, stopping at its end. |
| `StrictJsonCompleteness.CompleteItems` | packages/gateway-daemon/src/net/strict-json.ts:213-239 | The same for element lists with any whitespace. |
| `StrictJsonCompleteness.CompleteFields` | packages/gateway-daemon/src/net/strict-json.ts:170-211 | The same for member lists with unique decoded names. |
| `StrictJsonCompleteness.CompleteChars` | packages/gateway-daemon/src/net/strict-json.ts:241-340 | The same for strings, in any mixture of raw characters and escapes. |
| `StrictJsonCompleteness.CompleteNumeral` | packages/gateway-daemon/src/net/strict-json.ts:342-374 | The same for numbers with fraction and exponent. |
| `StrictJson.Parser.Any` | packages/gateway-daemon/src/net/strict-json.ts:137-160 | The method on `pos` and `depth` follows the derivation function: same value, same end, same failing field, depth restored on success. |
| `StrictJson.Parser.Elements` | packages/gateway-daemon/src/net/strict-json.ts:213-239 | The array loop reads exactly the derivation's elements. |
| `StrictJson.Parser.Entries` | packages/gateway-daemon/src/net/strict-json.ts:170-211 | The object loop with its set of seen names reads exactly the derivation's members, or fails with the duplicate name. |
| `StrictJson.Parser.String` | packages/gateway-daemon/src/net/strict-json.ts:241-274 | The string loop, which copies runs of raw units, yields the decoded units of the derivation. |
| `StrictJson.Parser.Escape` | packages/gateway-daemon/src/net/strict-json.ts:295-340 | Short escapes, `\u` escapes and escaped surrogate pairs as in the derivation. |
| `StrictJson.Parser.HexFour` | packages/gateway-daemon/src/net/strict-json.ts:276-293 | Four hexadecimal digits of either case, or failure. |
| `StrictJson.Parser.Document` | packages/gateway-daemon/src/net/strict-json.ts:127-135 | One value with whitespace around it and nothing behind it. |
| `StrictJson.DecodedIff` | packages/gateway-daemon/src/net/strict-json.ts:55-80 | A body has a text exactly when it is a string, or bytes that do not begin with EF BB BF and that the strict decoder decodes, and that text, which is the one passed to the parser, does not begin with a byte-order mark. |
| `StrictJson.ParseStrictJson` | packages/gateway-daemon/src/net/strict-json.ts:380-401 | For every body, without naming the parser: the answer is the meaning of a syntax tree if one prints to the text of the body, is admissible and, where required, is an object; it is a refusal in every other case; and when all that is wrong are repeated names it is a refusal that names the first. |
| `StrictJsonRepeats.RepeatReported` | packages/gateway-daemon/src/net/strict-json.ts:170-211 | A text that meets every rule but that on names is refused with the first name, in reading order, that repeats one of its object. |
| `Lines.SplitJoins` | packages/gateway-daemon/src/store/journal.ts:353-361 | Cutting at line feeds loses nothing and yields lines. |
| `Lines.SplitAppend` | packages/bus/src/watch.ts:84-88 | Cutting piecewise with a kept remainder equals cutting at once. |
| `Lines.SplitOfJoin` | packages/gateway-daemon/src/store/journal.ts:353-361 | Lines and a remainder are cut back into themselves. |
| `Decimals.PrintOfValue` | packages/gateway-daemon/src/store/util.ts:27-34 | A canonical decimal string is determined by its value. |
| `Decimals.ValueOfPrint` | packages/gateway-daemon/src/store/journal.ts:214-216 | Printing a transaction number and reading it back is the identity. |
| `Markers.MarkerRoundTrip` | packages/gateway-daemon/src/store/journal.ts:131-152 | A marker is accepted from its own JSON if and only if it is well formed, and then unchanged. |
| `Markers.ParsedIsWellFormed` | packages/gateway-daemon/src/store/journal.ts:131-152 | Whatever the closed schema accepts is well formed, records and objects included. |
| `Journal.JsonCodecIsFaithful` | packages/gateway-daemon/src/store/journal.ts:389-402 | Over any JSON printer without raw line feeds and its inverse parser on JavaScript values, whose objects have each name once, lines written for markers read back. |
| `Journal.Journal.NextMarker` | packages/gateway-daemon/src/store/journal.ts:202-225 | The next marker has the head's tx plus one and the head's hash, or the head is unknown. |
| `Journal.Journal.AppendSync` | packages/gateway-daemon/src/store/journal.ts:279-318 | Refused for an unknown head, read-only, chain mismatch or a malformed marker, in this order, changing nothing; otherwise the line is appended and becomes the head, or the write throws with some of its bytes in the file and the head stays. |
| `Journal.Journal.Append` | packages/gateway-daemon/src/store/journal.ts:231-270 | The same after verifying first when the head is unknown. |
| `Journal.Journal.Verify` | packages/gateway-daemon/src/store/journal.ts:339-458 | A torn tail goes from the file to quarantine, complete lines are judged in order, and head, evidence and answer follow from the verdict. |
| `Journal.Journal.Scan` | packages/gateway-daemon/src/store/journal.ts:380-445 | The loop computes the verdict on the lines and the hashes of those that passed. |
| `Journal.Journal.CheckLine` | packages/gateway-daemon/src/store/journal.ts:389-441 | Every fault with its position and the verified prefix it leaves. |
| `Journal.Journal.FailReadOnly` | packages/gateway-daemon/src/store/journal.ts:460-472 | The head falls back to the verified prefix and the evidence is kept. |
| `JournalProofs.ChainVerifies` | packages/gateway-daemon/src/store/journal.ts:380-458 | A file built by appends verifies, with every marker read back. |
| `JournalProofs.NeverCorrupt` | packages/gateway-daemon/src/store/journal.ts:231-458 | After any run of appends, verifications and crashes that cut the file at any byte, verification answers OK with a gap-free chain of the complete lines; no crash is taken for corruption. |
| `JournalFailures.CorruptIff` | packages/gateway-daemon/src/store/journal.ts:231-472 | Over every run of appends that succeed or fail after any number of bytes, verifications and crashes at any byte: verification answers OK, with a gap-free chain, if and only if no line feed was written behind the bytes of a failed append before a verification or a restart, or a crash has since cut the file before it. |
| `JournalFailures.FailedAppendCorrupts` | packages/gateway-daemon/src/store/journal.ts:252-265 | A first append that fails with bytes in the file, then another append: verification answers READ_ONLY. |
| `JournalFailures.ReadOnlyRefuses` | packages/gateway-daemon/src/store/journal.ts:231-318 | From a verification that answers READ_ONLY until the next verification or restart, whatever becomes of writes: every append of either form is answered with READ_ONLY and the file stays as it is. |
| `JournalAnswers.VerifiesIff` | packages/gateway-daemon/src/store/journal.ts:380-445 | Lines verify with some markers if and only if line by line they read as those, the first has tx 1 and names the genesis hash, and any other has a greater tx and the hash of the line before. |
| `JournalAnswers.EvidenceNamesTheBreak` | packages/gateway-daemon/src/store/journal.ts:389-472 | For every file that does not verify: everything before some first line verifies, the fault says in which way that line breaks the chain, and the evidence names the first line not vouched for: the broken one, or the one before it when the link itself is broken. |
| `JournalAnswers.TornIsQuarantined` | packages/gateway-daemon/src/store/journal.ts:339-380 | For every file: exactly the bytes behind the last line feed go from the file to quarantine, and an OK answer carries them. |
| `JournalAnswers.VerifiedIsWritable` | packages/gateway-daemon/src/store/journal.ts:279-318 | For every file that is not empty: after an OK answer, even if the journal was read-only before, the marker that follows the verified ones is appended. |
| `JournalProofs.StepSound` | packages/gateway-daemon/src/store/journal.ts:231-458 | Each step keeps a known head equal to the chain's; lines are only added at the end, or lost from it by a crash. |
| `JournalProofs.AppendSound` | packages/gateway-daemon/src/store/journal.ts:279-318 | On a sound journal an append goes ahead if and only if the marker is well formed and extends the head, and adds exactly one line; otherwise it is a chain mismatch if the marker does not extend the head, and malformed if it does. |
| `JournalProofs.CrashRecovery` | packages/gateway-daemon/src/store/journal.ts:339-458 | For a chain cut at any byte: exactly the markers of the complete lines, kept bytes followed by quarantined bytes are the cut file, and the next marker extends the chain. |
| `JournalProofs.VerifyTwice` | packages/gateway-daemon/src/store/journal.ts:339-458 | On any file a second verification answers the same and changes nothing. |
| `JournalProofs.TamperEvident` | packages/gateway-daemon/src/store/journal.ts:380-472 | Replacing one non-final line of a verified file by another line makes verification fail with a strict prefix of the original markers, or the two lines collide. |
| `JournalProofs.HeadDeterminesFile` | packages/gateway-daemon/src/store/journal.ts:380-458 | Two verified files with the same head hash have identical lines, or their lines exhibit a collision or one that hashes to genesis. |
| `TailReader.Reader.ReadNew` | packages/bus/src/watch.ts:44-52 | A notification starts a pass, or queues another behind the running one, or does nothing once closed. |
| `TailReader.Reader.OnStat` | packages/bus/src/watch.ts:57-71 | What follows the size of the file: restart after truncation, loop or end when nothing is new, else a read. |
| `TailReader.Reader.OnRead` | packages/bus/src/watch.ts:72-102 | What follows the bytes: lines handled in order, remainder kept, and another pass when one is queued. |
| `TailReader.Reader.Handle` | packages/bus/src/watch.ts:88-98 | The line loop emits, counts or skips, up to a handler that throws. |
| `TailReader.TailEqualsBatch` | packages/bus/src/watch.ts:44-103 | Over every interleaving of appends, notifications and passes: at most one pass, lines handled are exactly the complete lines of the first `offset` bytes, once each in order, and the buffer is the rest. |
| `TailReader.HandledExactly` | packages/bus/src/watch.ts:88-98 | With handlers that throw, that holds if and only if no chunk had lines left after a throw. |
| `TailReader.ThrowLosesALine` | packages/bus/src/watch.ts:88-102 | Two events in one read and a handler that throws on the first: the second is never handled. |
| `TailReader.QueuedGoesAgain` | packages/bus/src/watch.ts:48-102 | A notification during a pass makes the pass go round again, unless the read or the handler throws. |
| `TailReader.NoNotificationLost` | packages/bus/src/watch.ts:44-103 | Whenever no pass runs, every line that was complete at the last notification has been handled. |
| `TailReader.RunDelivers` | packages/bus/src/watch.ts:84-98 | Over every such run: the handler has got, once each and in order, the events of exactly those complete lines that parse to one without their line feed, and the lines that do not parse are counted. |
| `TailReader.ClosedForGood` | packages/bus/src/watch.ts:44-82 | Over every run: after a close nothing is handled, emitted or counted any more and no pass starts. |
| `TailReader.TruncatedStartsOver` | packages/bus/src/watch.ts:64-98 | A file shorter than the offset is read again from its start: all its complete lines are handled, as those of a new file, and the rest is kept. |
| `SubscriptionStream.Source.Scan` | packages/gateway-daemon/src/adapters/bridge-state.ts:166-192 | The batched, windowed scan equals: the first `limit` matches among the first 4096 rows after the cursor. |
| `SubscriptionStream.Source.ReadAfter` | packages/gateway-daemon/src/adapters/bridge-state.ts:153-220 | That answer, a stale cursor, or nothing without a subscription; the delivered mark never goes back. |
| `SubscriptionStream.Server.Poll` | packages/gateway-daemon/src/net/sse.ts:156-202 | One turn of the loop: frames written one by one, the cursor on the last of them, cut wherever the stream closes. |
| `SubscriptionStream.StreamRefinesFilter` | packages/gateway-daemon/src/net/sse.ts:156-202 | For every schedule of commits, polls and closes, the frames passed to the writer are a prefix of the topic-filtered log after the start cursor. |
| `SubscriptionStream.FramesTellRows` | packages/gateway-daemon/src/adapters/bridge-state.ts:166-192 | For every schedule: up to some place of the log, exactly the rows asked for have been sent; each frame has cursor, topic, profile and hash of one of them, and each of them has its frame. |
| `SubscriptionStream.DeliveredIs` | packages/gateway-daemon/src/adapters/bridge-state.ts:193-220 | The delivered mark becomes the order of the last row sent, unless it was beyond that. |
| `SubscriptionStream.ClosesIff` | packages/gateway-daemon/src/net/sse.ts:156-202 | A poll closes the stream if and only if its cursor stands for nothing any more, and then sends nothing, or the client goes while frames are written. |
| `SubscriptionStream.ResumeContinues` | packages/gateway-daemon/src/net/sse.ts:108-202 | A stream resumed from where an earlier one stopped continues the prefix without gap or repetition. |
| `SubscriptionStream.OrderStays` | packages/gateway-daemon/src/adapters/bridge-state.ts:243-260 | Later commits do not change what a resolvable cursor stands for. |
| `SubscriptionStream.EmptyReadIff` | packages/gateway-daemon/src/adapters/bridge-state.ts:166-192 | A read is empty if and only if none of the first 4096 rows after the cursor matches. |
| `SubscriptionStream.StuckIff` | packages/gateway-daemon/src/adapters/bridge-state.ts:166-192 | An open stream never sends anything, whatever is committed and however often it polls, if and only if at least 4096 rows follow its cursor and none of the first 4096 matches. |
| `SubscriptionStream.StuckForever` | packages/gateway-daemon/src/adapters/bridge-state.ts:166-192 | Its cursor then stays where it is. |
| `SubscriptionStream.StuckLog` | packages/gateway-daemon/src/adapters/bridge-state.ts:166-192 | A log of 4096 events of another topic and one of the subscribed topic behind them, which is never sent. |
| `SubscriptionStream.RetainedButGone` | packages/gateway-daemon/src/net/sse.ts:116-124 | The cursor of an event that is retained and was sent can be refused as gone. |
| `SubscriptionStream.OpensWhereAsked` | packages/gateway-daemon/src/net/sse.ts:108-124 | A stream begins at the cursor the client names, or else at its last acknowledgement, and is refused exactly when that precedes the earliest event in lane order. |
| `SubscriptionStream.RefusedIff` | packages/gateway-daemon/src/net/sse.ts:217-223 | A retained event is refused exactly when its lane ordinal is below the earliest event's. |
| `EventBus.LatticeBus.Persist` | packages/bus/src/bus.ts:159-186 | The head of the queue up to its first suspension: closed, oversize, dropped (waiting or not) or kept. |
| `EventBus.LatticeBus.OnAppend` | packages/bus/src/bus.ts:188-239 | What follows an append: the error to the emitter, the overflow and rotation diagnostics in order, or the end. |
| `EventBus.LatticeBus.WriteDiagnostic` | packages/bus/src/bus.ts:241-267 | A diagnostic takes the next number and enters the ring, pushing out the first if it is full. |
| `EventBus.RunInv` | packages/bus/src/bus.ts:144-267 | Over every interleaving of emits, append outcomes and close: numbers without gaps, log and ring ascending with issued events only, outcomes naming the right event, emits served in call order. |
| `EventBus.StepInv` | packages/bus/src/bus.ts:144-267 | Each step keeps all of that. |
| `EventBus.LogHasEveryNumber` | packages/bus/src/bus.ts:159-267 | While appends succeed the log is exactly 1, 2, ... up to `seq()`, but for the event being appended. |
| `EventBus.DropReportedIff` | packages/bus/src/bus.ts:177-217 | For every configuration and interleaving: an event kept out of the ring and no longer in progress is followed at the next number by a `bus_overflow` naming it if and only if its own append did not throw to the emitter. |
| `EventBus.EveryDropReported` | packages/bus/src/bus.ts:177-217 | With `persist_fail` "log" every dropped event is so reported, even if appends fail; only the drop in progress is owed one. |
| `EventBus.ThrowLeavesNoReport` | packages/bus/src/bus.ts:188-197 | With `persist_fail` "throw" a failed append of an event that found the ring full ends the emit and leaves no report. |
| `EventBus.RingBoundedIff` | packages/bus/src/bus.ts:179-251 | The ring stays within its capacity in every run if and only if the capacity is at least 1. |
| `EventBus.OversizeChangesNothing` | packages/bus/src/bus.ts:160-175 | Over every run: without its oversize emits and their turns the bus has the same sequence number, ring, log, issued events and progress, and every other emit has the same outcome. |
| `EventBus.OversizeIsRefused` | packages/bus/src/bus.ts:160-175 | In every run an oversize emit ends as too large, or as closed, never with a number. |
| `EventBus.TurnAfterClose` | packages/bus/src/bus.ts:150-186 | Over every run: a turn taken after the close ends as closed and leaves no other trace; before it, an oversize envelope is refused, and any other takes the next number and enters the ring if there is room. |
| `EventBus.RotationFollows` | packages/bus/src/bus.ts:199-237 | Over every run and continuation: an append that rotates the log is followed by a `bus_overflow` for the rotation that names its event, at the next number, or behind the report of a drop, unless the append of that report throws to the emitter or is not over. |
| `EventBus.RingIsRecent` | packages/bus/src/bus.ts:179-251 | Over every run: the ring holds the last of the events that entered it, in order, up to its capacity. |
| `EventBus.LogTakesTheLastIssued` | packages/bus/src/bus.ts:188-267 | Over every run: the log takes the event issued last whenever its append puts a line in the file, even one that then throws, and nothing else. |
| `AuditLane.AuditReceiptWriter.Resume` | packages/gateway-daemon/src/runtime.ts:195-209 | A fresh writer takes its head from the last record of the lane. |
| `AuditLane.AuditReceiptWriter.RunNext` | packages/gateway-daemon/src/runtime.ts:224-268 | The next job is sealed at the current head and handed to the store. |
| `AuditLane.AuditReceiptWriter.OnCommitted` | packages/gateway-daemon/src/runtime.ts:269-272 | The head moves to the sealed event and the receipt points at it. |
| `AuditLane.RunInv` | packages/gateway-daemon/src/runtime.ts:191-319 | Over every interleaving of submissions, commits that succeed or fail, before or after they are durable, and restarts at any point: until the lane forks, one gap-free chain, and every receipt and idempotency row points at the event of its action. |
| `AuditLane.RunOrder` | packages/gateway-daemon/src/runtime.ts:225-319 | Over every run, forked or not: no action is sealed twice, and actions are sealed in the order of submission. |
| `AuditLane.ReportedIsBound` | packages/gateway-daemon/src/runtime.ts:243-308 | Over every run: when a commit reports success the row of its job is there, under its key, with its request hash and the pointer to its event, which is also the receipt. |
| `AuditLane.SealedAsSubmitted` | packages/gateway-daemon/src/runtime.ts:224-268 | Over every run: what is on the lane and what waits are actions as they were submitted. |
| `AuditLane.ChainIff` | packages/gateway-daemon/src/runtime.ts:225-272 | Over every run: the lane is one chain if and only if after a commit that was durable and refused no event became durable before the next restart. |
| `AuditLane.HeadIsTail` | packages/gateway-daemon/src/runtime.ts:195-272 | Over every run: whenever no job runs, the head in memory is the lane's tail if and only if no durable event was refused since the head last caught up; seq and lamport then count the events of an unforked lane. |
| `AuditLane.LaneGrows` | packages/gateway-daemon/src/runtime.ts:191-319 | What is on the lane stays there. |
| `AuditLane.LateFailureForks` | packages/gateway-daemon/src/store/store.ts:330-346 | A run in which the first commit is durable and refused: the second event repeats its number and the lane is no chain. |
| `Dispatch.Dispatcher.Run` | packages/gateway-daemon/src/rpc/dispatch.ts:494-612 | The stages in their order of precedence, then replay, conflict or execution. |
| `Dispatch.Dispatcher.Execute` | packages/gateway-daemon/src/rpc/dispatch.ts:614-745 | The service once; FAILED record, or SUCCEEDED record with the binding, or the binding alone; nothing disclosed before it is durable. |
| `Dispatch.OneCall` | packages/gateway-daemon/src/rpc/dispatch.ts:494-745 | A call adds at most one record and runs the service at most once; refusals and replays change nothing. |
| `Dispatch.ServiceRunsIff` | packages/gateway-daemon/src/rpc/dispatch.ts:519-578 | A service runs, once and under the call's own key, if and only if it is available and the method is known, the principal authenticated, of this workspace, with one of the method's roles and within its grant, no mutation while draining, and a mutation can be bound and is not on record. |
| `Dispatch.RefusalIsAnswered` | packages/gateway-daemon/src/rpc/dispatch.ts:485-612 | A call that neither reaches the service nor replays is refused for the first thing that is wrong, in order, with its own code and field. |
| `Dispatch.ServiceIsAnswered` | packages/gateway-daemon/src/rpc/dispatch.ts:614-745 | For every call that reaches the service: its result is answered with status 200, the request's id and the headers of its method once what had to be recorded is committed; otherwise STORAGE_UNAVAILABLE; an error of the service is answered with its own code and field, its FAILED record and the receipt of that. |
| `Dispatch.ErrorsAreLabelled` | packages/gateway-daemon/src/rpc/dispatch.ts:362-380 | Over every run: an error has the status of its code, is retryable if it says so itself and otherwise if its code is, and names a time to retry exactly then. |
| `Dispatch.FirstOkDecides` | packages/gateway-daemon/src/rpc/dispatch.ts:585-612 | After the first OK answer to a guarded mutation, whatever calls follow, an admitted mutation under the same key runs nothing: the same request gets the saved status and body and no headers, another one IDEMPOTENCY_CONFLICT, and so does a damaged row. |
| `Dispatch.ReplayIsOriginal` | packages/gateway-daemon/src/rpc/dispatch.ts:585-612 | Over every run: an OK answer without a service run is that of an earlier call under the same key with the same binding, and carries the result the service returned there. |
| `Dispatch.RetryRunsAgainIff` | packages/gateway-daemon/src/rpc/dispatch.ts:585-737 | After a mutation under a new key has run its service, the identical retry runs it again if and only if the service threw, the ports do not record or look up the method, or the commit was lost; the first answer is OK if and only if the service returned and whatever had to be recorded was committed. |
| `Dispatch.FreshReceiptIsCommitted` | packages/gateway-daemon/src/rpc/dispatch.ts:694-719 | An OK answer of a receipt-bearing method carries as receipt the record just committed for this call. |
| `Dispatch.ReceiptsAreSealed` | packages/gateway-daemon/src/rpc/dispatch.ts:585-737 | In every run, a receipt in an OK answer, fresh or replayed, points at a committed SUCCEEDED record of the same principal and request id. |
| `Dispatch.BindingDependsOn` | packages/gateway-daemon/src/rpc/dispatch.ts:430-455 | Two requests bind alike if and only if the bound members agree. |
| `Dispatch.PairingBinds` | packages/gateway-daemon/src/rpc/dispatch.ts:430-455 | Registrations and pairing proposals bind alike if and only if pair, key, profiles, interfaces and capabilities agree, whatever else they carry. |
| `Dispatch.RenewBindsTokenHash` | packages/gateway-daemon/src/rpc/dispatch.ts:430-449 | Renewals of one peer bind alike exactly when their refresh tokens have the same hash. |
| `Dispatch.MoreScopesAllowMore` | packages/gateway-daemon/src/rpc/dispatch.ts:312-358 | Adding scopes to a grant never takes a permission away. |
| `Dispatch.GrantNeeded` | packages/gateway-daemon/src/rpc/dispatch.ts:296-358 | What scope a peer's grant must hold, method by method, in terms of the params; any other method needs none. |
| `Dispatch.EmptyTopicListNeedsNoScope` | packages/gateway-daemon/src/rpc/dispatch.ts:327-334 | A peer without a consuming scope may query or subscribe to exactly the empty topic list. |
| `PeerNonces.InMemoryPeerTokenStore.NonceSeen` | packages/gateway-daemon/src/rpc/auth.ts:230-243 | The purge loop and the lookup equal: forget what has run out, then test and set. |
| `PeerNonces.InMemoryPeerTokenStore.ResolvePeerPrincipal` | packages/gateway-daemon/src/rpc/auth.ts:298-388 | The checks in order, then the nonce, then the signature; a nonce is spent even if the signature fails. |
| `PeerNonces.PrecheckIff` | packages/gateway-daemon/src/rpc/auth.ts:298-345 | The checks let through exactly a granted token that is neither revoked nor over, with both epochs, safe timestamps, a life of at most 60000 ms, issued at most 5000 ms ahead, not over and within the token's life, and a canonical nonce; revoked comes before expired, and both before anything else. |
| `PeerNonces.AcceptedIff` | packages/gateway-daemon/src/rpc/auth.ts:298-388 | Over every run and either store: a call is accepted if and only if it presents all that, is signed, and its nonce is not held beyond the store's reading of the clock; and which refusal it gets otherwise. |
| `PeerNonces.PresentedIsSpent` | packages/gateway-daemon/src/rpc/auth.ts:346-360 | A call that presents all that spends its nonce until the end of the token, signed or not; any other leaves the store alone. |
| `PeerNonces.StoresAgree` | packages/gateway-daemon/src/adapters/store-ports.ts:698-711 | For every call sequence with a clock that does not go back, the purging store answers exactly as the durable one. |
| `PeerNonces.KeyDetermines` | packages/gateway-daemon/src/adapters/store-ports.ts:698-711 | The document key determines peer and nonce. |
| `PeerNonces.DisagreeIff` | packages/gateway-daemon/src/rpc/auth.ts:230-243 | For every call sequence and any clock: the stores answer differently somewhere if and only if at some call the clock is back before the end of a nonce last stored under it, and that peer asked anything after that end in between. |
| `PeerNonces.ClockBackDisagrees` | packages/gateway-daemon/src/rpc/auth.ts:230-243 | Three calls with a clock that steps back on which the stores disagree. |
| `PeerNonces.RunsAgree` | packages/gateway-daemon/src/rpc/auth.ts:298-351 | For every run whose clock readings are in order, two per call, authentication goes alike over either store. |
| `PeerNonces.ReplayStraddles` | packages/gateway-daemon/src/rpc/auth.ts:298-351 | For every run whose clock readings are in order: if a token and nonce are accepted twice, the token ran out between the two readings of the second call. |
| `PeerNonces.ReplayIff` | packages/gateway-daemon/src/rpc/auth.ts:298-351 | Exactly when an accepted token and nonce are accepted again, by either store and whatever calls lie between: the call presents what it must, is signed, and reads the clock for the store no earlier than the token's end. |
| `PeerNonces.NoReplay` | packages/gateway-daemon/src/rpc/auth.ts:298-351 | In every run whose clock readings are in order, a call whose two readings are the same is never a replay, by either store. |
| `PeerNonces.NoReplayDurably` | packages/gateway-daemon/src/adapters/store-ports.ts:1268-1275 | With the durable store, whatever the clock does, no token and nonce are accepted twice unless a token ends between the two readings of some call. |
| `PeerNonces.StraddledReplay` | packages/gateway-daemon/src/rpc/auth.ts:314-351 | With two readings per call, one on each side of the expiry, a proof is accepted twice. |
| `ConfigMigration.Disk.WriteExclusive` | packages/config/src/migrate-file.ts:70-82 | A new file with exactly the data, flushed; an existing one is not touched; every state in between shows at most one incomplete new file. |
| `ConfigMigration.Migration.Migrate` | packages/config/src/migrate-file.ts:100-229 | Every state the disk goes through is safe against a crash; a dry run, a failed validation or an existing backup changes nothing; each verdict has its error; v2 goes live only after its recheck; success answers the backup's name, the old and the new hash, and leaves v2 and the backup durable; and if no call fails and the names are free, it succeeds. |
| `ConfigMigration.Migration.Replace` | packages/config/src/migrate-file.ts:174-210 | Backup before temporary file before rename, with every call allowed to fail; a failed recheck leaves the original in place at every crash point and no temporary file behind. |
| `ConfigMigration.SafeImages` | packages/config/src/migrate-file.ts:84-99 | Whatever a crash leaves of a safe state, the configuration is the original, or v2 with a complete backup of the original. |
| `ConfigMigration.RenameSafe` | packages/config/src/migrate-file.ts:209-210 | The rename keeps a state safe because backup and new file are complete and flushed. |
| `ConfigMigration.GrownUntouched` | packages/config/src/migrate-file.ts:170-200 | Writing other files leaves the original in place at every crash point. |
| `EgressAddresses.TableCoversRanges` | packages/gateway-daemon/src/net/egress.ts:49-74 | The table denies every range it names, and exactly which further addresses. |
| `EgressAddresses.BroaderThanNamed` | packages/gateway-daemon/src/net/egress.ts:56-61 | 192.1.1.1 is denied though no named range holds it. |
| `EgressAddresses.ReadIPv6` | packages/gateway-daemon/src/net/egress.ts:80-110 | The parser with its lists and loop computes the parse function. |
| `EgressAddresses.ParsedIsEightGroups` | packages/gateway-daemon/src/net/egress.ts:80-110 | Every accepted text yields exactly eight groups below 65536. |
| `EgressAddresses.OctetsOfGroup` | packages/gateway-daemon/src/net/egress.ts:90-128 | Two octets packed by shift and or come apart again by shift and mask. |
| `EgressAddresses.MaskIsBlock` | packages/gateway-daemon/src/net/egress.ts:132-134 | Comparison under a mask is membership in a block of addresses. |
| `EgressAddresses.IPv6DeniedBlocks` | packages/gateway-daemon/src/net/egress.ts:112-136 | Outside the IPv4-mapped block the policy denies exactly `::`, `::1` and the named prefixes, as ranges. |
| `EgressAddresses.MappedPolicy` | packages/gateway-daemon/src/net/egress.ts:121-128 | The policy for an IPv4-mapped address is that of the IPv4 address. |
| `EgressTexts.EveryFormParses` | packages/gateway-daemon/src/net/egress.ts:80-110 | Every text form of section 2.2 of RFC 4291 (full, `::` for any zero run, dotted tail, either case) of any groups parses to exactly those groups. |
| `EgressTexts.FullFormRoundTrip` | packages/gateway-daemon/src/net/egress.ts:80-110 | Every address has a form that reads back as itself. |
| `EgressTexts.MappedTextPolicy` | packages/gateway-daemon/src/net/egress.ts:80-136 | `::ffff:` in front of any dotted quad is treated exactly as the quad itself. |
| `EgressFetch.CheckResolvedAddresses` | packages/gateway-daemon/src/net/egress.ts:215-240 | The loop over resolved addresses finds a denied one if there is one. |
| `EgressFetch.EgressFetch` | packages/gateway-daemon/src/net/egress.ts:261-295 | The redirect loop makes exactly the specified calls with the specified outcome. |
| `EgressFetch.EveryCallIsGuarded` | packages/gateway-daemon/src/net/egress.ts:162-295 | For every transport and resolver: at most `maxRedirects` + 1 calls, each to a URL that passed the URL policy and the address policy, sensitive headers only to the initial origin. |
| `EgressPolicy.NoForbiddenUrl` | packages/gateway-daemon/src/net/egress.ts:138-179 | For every transport and resolver: no URL called has another scheme than https, carries userinfo, or has as its host a quad in a forbidden range, a bracketed address in any form in a forbidden block, or a name that is or is below one of the local suffixes. |
| `EgressPolicy.QuadHost` | packages/gateway-daemon/src/net/egress.ts:138-179 | An https URL without userinfo whose host is a dotted quad is allowed if and only if the quad is in no forbidden range. |
| `EgressPolicy.BracketedHost` | packages/gateway-daemon/src/net/egress.ts:112-179 | The same for an address in brackets, in any text form. |
| `EgressPolicy.NameHost` | packages/gateway-daemon/src/net/egress.ts:138-160 | The same for a name and the suffixes. |
| `EgressPolicy.UnreadableIsDenied` | packages/gateway-daemon/src/net/egress.ts:112-160 | What has brackets or a colon and does not parse as an address is denied, and so is a resolver's answer that does not parse. |
| `EgressPolicy.ResolvedAddress` | packages/gateway-daemon/src/net/egress.ts:211-240 | An address a resolver answers, with or without brackets and in any form, is denied exactly when it is forbidden. |
| `EgressPolicy.HopsEnd` | packages/gateway-daemon/src/net/egress.ts:261-295 | Only the five redirect statuses are followed, and the outcome is that of the last answer, or of what stops the next call. |
| `EgressPolicy.StartIsCalled` | packages/gateway-daemon/src/net/egress.ts:261-279 | A start that is allowed and cleared is called with all its headers; any other is refused without a call. |
| `EgressFetch.OtherHeadersArrive` | packages/gateway-daemon/src/net/egress.ts:273-279 | No other header is withheld, and the initial origin gets all of them. |
| `EgressFetch.HopsSafe` | packages/gateway-daemon/src/net/egress.ts:261-295 | Each call goes where the answer before it redirects. |
| `EgressFetch.CaseAndDotIrrelevant` | packages/gateway-daemon/src/net/egress.ts:138-155 | Case and a trailing dot make no difference to the host policy. |
| `ApprovalAdapter.Adapter.TakeFixture` | packages/adapters/vekinbox/src/index.ts:419-438 | Takes the first usable row with the event's key, else the first usable row. |
| `ApprovalAdapter.Chosen` | packages/adapters/vekinbox/src/index.ts:419-438 | A row with the event's key is preferred, none is chosen only if none is usable. |
| `ApprovalAdapter.Adapter.OnEvent` | packages/adapters/vekinbox/src/index.ts:511-558 | An event is acted on once: a fixture row, or a request to the API. |
| `ApprovalAdapter.Adapter.Resume` | packages/adapters/vekinbox/src/index.ts:376-414 | What each suspended closure does when its reply, its timer or its emission is over. |
| `ApprovalAdapter.Adapter.HandleIngest` | packages/adapters/vekinbox/src/index.ts:560-598 | Answers 503, 401 or 400 when not started, not signed or without a string key, changing nothing; otherwise the webhook resolves its request. |
| `ApprovalAdapter.AtMostOneApproval` | packages/adapters/vekinbox/src/index.ts:342-598 | Over every interleaving of events, replies, timers, webhooks, failing emissions and restarts: since the last start at most one approval per key and one use per fixture row; receipts and compensations only behind their approval. |
| `ApprovalAdapter.StepInv` | packages/adapters/vekinbox/src/index.ts:342-598 | Each step keeps that. |
| `ApprovalCauses.ApprovalCaused` | packages/adapters/vekinbox/src/index.ts:342-598 | Over every run: every approval is granted on a started adapter, by a signed webhook or a reply that reports its request, with that id and key, approved; by a created request or a failure under automatic approval; or by an approved row of the fixtures of that start. |
| `ApprovalCauses.MarkHasCause` | packages/adapters/vekinbox/src/index.ts:342-475 | Over every run: a key is marked only by an approval since the last start, its own or that of a fixture row for its event. |
| `ApprovalCauses.RequestGranted` | packages/adapters/vekinbox/src/index.ts:342-374 | Over every run: a request reported approved, or created under automatic approval, is granted at once on a started adapter unless its key is marked, with exactly the side effects it carries still to come. |
| `ApprovalCauses.SyntheticGranted` | packages/adapters/vekinbox/src/index.ts:486-558 | Likewise a creation that fails, or an approval whose emission fails, under automatic approval. |
| `ApprovalCauses.EventGranted` | packages/adapters/vekinbox/src/index.ts:419-558 | Likewise an event not seen since the start: the approved row left that has its key, else any, and without fixtures a request. |
| `ApprovalCauses.PollingGoesOnIff` | packages/adapters/vekinbox/src/index.ts:376-414 | A poller goes on exactly while the reply fails or says pending or escalated, the adapter is up, the key unmarked and the time not up. |
| `ApprovalCauses.CreatedIff` | packages/adapters/vekinbox/src/index.ts:511-558 | Over every run: exactly the events taken since the last start are not acted on again. |
| `ApprovalCauses.UsedHasCause` | packages/adapters/vekinbox/src/index.ts:416-438 | Over every run: a fixture row is used up only by an event since the last start. |
| `ApprovalCauses.EffectCaused` | packages/adapters/vekinbox/src/index.ts:376-484 | Over every run: a side effect is emitted only for an approval whose request or row carries it. |
| `ApprovalBuses.EffectBusIff` | packages/adapters/vekinbox/src/index.ts:342-484 | Over every run: a side effect goes to the bus of its approval if and only if no start happened between the approval and the step that looked up the bus for it: its own step for a fixture row, the first side effect's for a request. |
| `ApprovalBuses.EffectOnAnotherBus` | packages/adapters/vekinbox/src/index.ts:342-374 | A restart between an approval and its receipt puts the receipt on the new bus. |
| `Transcript.ProjectTranscript` | packages/adapters/viscompile/src/project.ts:143-211 | The loops compute the projection function. |
| `Transcript.OrderIrrelevant` | packages/adapters/viscompile/src/project.ts:143-154 | For one run's events with distinct seqs the document is the same in every input order. |
| `Transcript.VersionOneErases` | packages/adapters/viscompile/src/project.ts:159-184 | The v1 list is the v2 list with the beliefs erased. |
| `Transcript.OneTerminalAtEnd` | packages/adapters/viscompile/src/project.ts:188-198 | Exactly one terminal entry, at the end; an error if and only if the run has a child error. |
| `Transcript.NoBeliefAfterError` | packages/adapters/viscompile/src/project.ts:155-184 | The first child error cuts the entries in two: everything before it, tool calls only behind it. |
| `Transcript.EntriesTellEvents` | packages/adapters/viscompile/src/project.ts:108-198 | For all events: before the last entry there is one for each tool call and, in version 2, each belief up to the first child error, in order, with the event's own name and arguments or belief; the last entry carries the message of that error, or the last output recorded by the last session that has one. |
| `Transcript.InOrderIs` | packages/adapters/viscompile/src/project.ts:143-154 | What is projected are exactly the events of the first event's run, in ascending order. |
| `Transcript.ChildErrorIs` | packages/adapters/viscompile/src/project.ts:84-105 | A child error is an adapter error whose cause or message mentions one of three words. |
| `Transcript.SortedUnique` | packages/adapters/viscompile/src/project.ts:149-152 | A sort by distinct seqs has one possible result. |
| `Redaction.Redactor.RedactUnknown` | packages/bus/src/redact.ts:26-49 | The recursion with its shared list of hits computes value and hits. |
| `Redaction.ResultIsMarked` | packages/bus/src/redact.ts:26-49 | Every entry under a selected key, at any depth of the result, holds the marker. |
| `Redaction.RestSurvives` | packages/bus/src/redact.ts:26-49 | For every value: what is under no selected name keeps, at every depth, its name, its place among the entries written, and its value; items keep their number and place. |
| `Redaction.ValueIdempotent` | packages/bus/src/redact.ts:26-67 | Redacting the result again gives the same value, for every value. |
| `Redaction.StampIdempotentIff` | packages/bus/src/redact.ts:51-67 | The stamps agree if and only if no redaction was lost to an entry named `__proto__`. |
| `Redaction.PatternHitsCount` | packages/bus/src/redact.ts:51-67 | Unless a redaction was lost to an entry named `__proto__`, `pattern_hits` is the number of marked entries of the result and `keys` lists exactly their names, each once; otherwise the number is too large and every such name is still listed. |
| `Redaction.UniqueInOrder` | packages/bus/src/redact.ts:51-67 | `keys` lists the names in the order in which they were found first, each once. |
| `Redaction.PrototypeEntryDiffers` | packages/bus/src/redact.ts:36-47 | An entry named `__proto__` with a selected entry inside makes the stamps differ. |

## Left out

- HTTP servers, sockets, static files, user interfaces, command line and process spawning: input and output.
- The registry, lanes and recovery of the store and the protocol core: a commit is atomic, but may be durable and still fail (its idempotency row is then in the operations table at once, though the table may lag until a restart), `eventsAfter` gives the first rows above an order, cursors name one row, and envelope validation, authentication and the method table are inputs of a dispatch.
- UTF-8: the strict parser takes the fatal decoder's text as given; the tail reader works on bytes, so that a character split between two reads, which the program decodes piecewise, is not modelled; reads of the tail reader are not short.
- Numbers: `Number(text)` is not interpreted; a number is its lexeme, and `Number.isFinite` is a parameter. Canonical JSON, HMAC, Ed25519 and URL parsing are parameters as well.
- The order in which a JavaScript object lists names that look like array indices: members keep the order in which they were written.
- Concurrent dispatches under one id: lookup and binding are separated by an await, so idempotency is stated for dispatches taken one at a time.
- That JSON is what `JournalFailures.CorruptIff` needs of it is a hypothesis (`SpliceProof`): a text that begins like a marker and ends with a whole marker is no marker, because the object its first brace opens is never closed. A `writeSync` that writes fewer bytes than asked without throwing is not modelled.
- A crash of the journal's repair between quarantining and truncating, which would quarantine the same tail twice.
- Credit counting and the slow-consumer timer of the stream: closing is allowed after any frame. Frames above the size cap are passed to the writer, which drops them.
- Progress of a stream: only when a read is empty and when it stays so.
- Subscribers of the bus and the text of its events: an emit is its id and its length. A rotated log counts as one log.
- File modes, and a write call that reports no progress, in the migration. A backup that could not be completed stays behind and makes the next attempt refuse; this follows from the contract of `ConfigMigration.Migration.Replace`.
- Body arrays, header maps and the text of errors in the redirect loop.
- Fixture parsing, metadata parsing and durations of the approval adapter: whether a request carries a usable receipt or compensation is an input.
- `scrubParams`, `mapThrown` and the observer of the dispatcher; session expiry; the outbox; `DurableBridgeSessions`; schemas, catalogues and health probes: easy members.
