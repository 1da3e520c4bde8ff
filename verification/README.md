# Nowledge: verified model

A Dafny model of the parts of Nowledge that carry protocol state or arithmetic, and proofs of what they
promise. `dafny verify dfyconfig.toml` checks the whole project.

## What is modelled

**The provider text stream** (`Sse`, `SseEncoding`, `Responses`, `Decoder`, `Certified`, `DecoderTraces`,
`CodexBatch`, `Stream`, `Settlement`, `TextStream`, `Honest`, `HonestCaller`, `CodexHonest`).
Bytes arrive in arbitrary chunks, an incremental server-sent-events parser turns them into messages, a strict
state machine turns messages into text deltas and one terminal response, a source redacts and queues them, and a
single-use wrapper meters bytes, settles the budget and records one outcome. The classes
`IncrementalSseDecoder`, `ResponsesSseDecoder`, `ProviderSource` and `LlmTextStream` update their fields as the
source does; each method is proved against a function on values, and the theorems are about those functions. The
central one, `TextStream.CallerReadsCertifiedText`, spans all of them: whatever the chunking, clock, budget and
redactor, a caller that reads `Completed` has read what the redactor makes of pieces that concatenate to exactly the
text the terminal event certifies. Where the redactor finds nothing to change in them, that is the certified text
itself; where it works character by character, as the program's does, it is the redaction of the certified text,
however that was cut. Its converse is `HonestCaller.HonestCallerCompletes`: whatever a well-behaved provider sends, in
whatever chunks, a caller with room and budget reads the redaction of it whole, and then `Completed`.

**Admission windows** (`RateLimiter`, `Budget`, `Settlement`, `Denial`, over `Clock`). Three fixed-window machines
with lazy cleanup and saturating 64-bit arithmetic. Time is a natural number of nanoseconds.

**Concurrent protocols** (`Capacity`, `CapacityProgress`, `Dispatcher`, `DispatcherBooks`, `DispatcherOutcomes`,
`DispatcherProgress`). Request permits and ingest jobs are step machines: every move of a task, a handler, the expiry
timer or shutdown is one atomic action, and a run is any interleaving of enabled actions. The invariants hold in every
reachable state; the progress modules say what an ordinary request, submission, job and shutdown get.

**The document fragmenter** (`Fragmenter`, `FragmentWindows`, `FragmentProperties`, `FragmentVolume`,
`FragmentRefinement`, `BlockOrder`, `Blocks`). The loops of the linear fragmenter, what they guarantee for every
document and policy, exactly for which policies they reproduce the quadratic implementation they replaced and exactly
for which their windows advance by a full quarter, and block documents in their stable reading order.

**Analysis candidates** (`Analysis`, `AnalysisProperties`, `AnalysisExactly`, `AnalysisUris`). Validation and redaction
of an untrusted provider's proposals, with first-valid-wins deduplication in both passes; exactly which candidates are
kept, and with which values.

**Token payloads** (`Base64`). The lenient base64 decoder against an encoder laid out as in sections 4 and 5 of
RFC 4648.

## What stays open

JSON parsing, UTF-8 decoding, SHA-256, streaming redaction, the field redactors and slugging are parameters. The
theorems assume of them only what their statements name: that the digest is injective, that white space around a JSON
text does not change its value, that a redactor does not care how its text is cut (`Stream.CharacterwiseIsSeamless`
proves that of every redactor that works character by character). Nothing is assumed of the analysis redactors and of
slugging. Times, network chunks, the concurrent use of the budget and the store's answers are inputs.

## Where the code and its documentation differ

- The fragmenter's test asserts, for any policy, an emitted volume of at most four times the text plus one maximal
  chunk. The step is a quarter of the window rounded down, so up to three characters a fragment escape that bound:
  `FragmentVolume.QuarterRoundsDown` is a text that exceeds it. Exactly the settings of
  `FragmentVolume.QuartersSuffice`, the defaults among them, let every window of every document below the fragment cap
  advance by a full quarter (`AllQuartersExactly`); for them the volume is at most four times the text, without any rest
  (`TightVolume`). For all others `FragmenterGuarantees` bounds it with three characters a fragment, and
  `SolidVolumeIsExact` computes what rounding adds on solid text, and `SolidTextExceeds` when that breaks the asserted
  bound.
- The fragmenter's comment says fragments match the previous implementation whenever the progress floors do not
  bind. `FragmentRefinement.RefinesOldExactly` decides for which settings that is.
- Canonicalising a candidate URI strips one layer suffix only and can cut into the scheme, so it is not idempotent:
  it is stable exactly on URIs that do not end in two layer suffixes and are not a bare layer behind the scheme
  (`AnalysisUris.StableExactly`). `DoubledLayerIsUnstable` and `BareLayerCutsTheScheme` are instances of each.
- The doubled budget limit per minute fails when a limit is the largest 64-bit value, where the saturated sum never
  exceeds it: `Budget.BoundHoldsExactly`. For tokens that is within reach of reported usage; for requests it is a
  statement about the charge function's own parameters, since callers charge their few attempts.
- The rate limiter reads the time before taking its lock. A call older than the latest cleanup can find its live
  window gone: `RateLimiter.LateCallDiffers`. After any timely run the next call is answered as by a never-cleaned
  counter exactly unless it is older than the cleanup that dropped an exhausted window still live for it
  (`RateLimiter.NextCallExactly`).
- The batch extractor compares only the last `done` text with the terminal text, so it rejects some multi-part
  bodies that the incremental decoder accepts: `CodexBatch.ExtractorAgrees` says exactly which, and
  `CodexHonest.HonestExtraction` that every well-behaved stream with text before its last listed part is one.

## Model

| member | source | states |
|---|---|---|
| Sse.FeedConcat | src/llm.rs:1299-1313 | Feeding two byte strings one after the other is feeding their concatenation: same state, same messages, same failures. |
| Sse.FeedLine | src/llm.rs:1302-1310 | A line is decoded, with a trailing carriage return dropped, and folded exactly when its line feed arrives. |
| Sse.CarriageReturnIsDropped | src/llm.rs:1302-1310 | A line that ends in a carriage return and a line feed is read as one that ends in the line feed alone. |
| Sse.OneSpaceIsDropped | src/llm.rs:1326-1338 | The value of a data or event line is what follows the colon, without one leading space. |
| Sse.SilentLines | src/llm.rs:1323-1338 | Comments and lines under other names change and dispatch nothing. |
| Sse.BlankLineDispatches | src/llm.rs:1315-1322 | A blank line dispatches the pending data lines, joined, if there are any, and starts over. |
| Sse.IncrementalSseDecoder.Push | src/llm.rs:1300-1313 | Buffering a chunk and draining whole lines computes what a byte-at-a-time automaton computes, and fails exactly when it does; the buffer never keeps a line feed between pushes. |
| Sse.IncrementalSseDecoder.ProcessLine | src/llm.rs:1315-1339 | One line sets the event name, adds a data line, is ignored, or, when empty, dispatches the collected data lines and clears the pending message. |
| Sse.IncrementalSseDecoder.Finish | src/llm.rs:1341-1348 | End of stream is accepted exactly when no partial line, event name or data line is pending. |
| Sse.FeedIsFoldOfLines | src/llm.rs:1299-1339 | On a body that ends at a line boundary the incremental parser dispatches what folding the body's lines dispatches. |
| Responses.FinalPartsOrdered | src/llm.rs:1722-1758 | The terminal parts come in strictly ascending (output index, content index) order, at or after the starting item, and their texts concatenate to the response's output text. |
| Responses.KeysExhaust | src/llm.rs:1657-1671 | Equal counts and membership one way force the streamed keys and the terminal keys to be the same list. |
| Decoder.ResponsesSseDecoder.Push | src/llm.rs:1453-1462 | A chunk's messages are processed in order and yield their non-empty deltas; the push is accepted exactly when every message is. |
| Decoder.ResponsesSseDecoder.ProcessMessage | src/llm.rs:1464-1552 | One message moves the decoder as the value-level step says, in every accepted case, and is rejected exactly when that step is. |
| Decoder.ResponsesSseDecoder.TextPartIdentity | src/llm.rs:1554-1600 | The part a message addresses: indexed and legacy addressing never mix, and an output index keeps the item identifier it was first seen with. |
| Decoder.ResponsesSseDecoder.ObservePartOrder | src/llm.rs:1602-1622 | Parts are visited in ascending order, and a later part is opened only after the previous one is done. |
| Decoder.ResponsesSseDecoder.ObserveDelta | src/llm.rs:1491-1513 | A delta is absorbed by the open part it addresses; a part that is done takes none. |
| Decoder.ResponsesSseDecoder.ObserveDone | src/llm.rs:1514-1531 | A part is closed once, by a text whose fingerprint is that of the deltas absorbed so far, if there were any. |
| Decoder.ResponsesSseDecoder.FinalResponseTextParts | src/llm.rs:1722-1758 | The nested loops collect the terminal output's text parts with their indices and item identifiers, or reject a malformed output. |
| Decoder.ResponsesSseDecoder.ValidateCompletedParts | src/llm.rs:1624-1707 | The terminal response is accepted exactly when the value-level check accepts it, per addressing mode and for the empty-output dialect. |
| Decoder.ResponsesSseDecoder.Finish | src/llm.rs:1709-1719 | The terminal is handed over once, only with nothing half-read and every streamed part done. |
| Decoder.PushConcat | src/llm.rs:1453-1462 | Two successive pushes accept, deliver and end as one push of both chunks. |
| Decoder.ChunkingIndependence | src/llm.rs:1453-1462 | If one split of a byte stream is accepted, every split is, with the same deltas and the same final decoder state. |
| Honest.MisnamedIsRejected | src/llm.rs:1480-1488 | In every state a message whose event name is present, not empty, not `message` and not the wire name of its type is rejected. |
| Honest.NamesAreChecked | src/llm.rs:1480-1488 | Every other name passes the check: none, the empty one, `message`, and the type's own wire name. |
| DecoderTraces.EventsAgree | src/llm.rs:1491-1622 | In an accepted run any two text events agree: both indexed or both not, in key order, one item per output, and none after its own part's `done`. |
| DecoderTraces.PartsCloseInTurn | src/llm.rs:1602-1622 | Before an event of one part, every part with an earlier event has had its `done`. |
| DecoderTraces.EveryMessageIsWelcome | src/llm.rs:1464-1490 | No message of an accepted run is an end mark, unreadable, misnamed or a failure. |
| DecoderTraces.StreamedPartsAreListed | src/llm.rs:1684-1707 | A terminal response that lists its output lists every part an indexed event was about, under that event's item. |
| DecoderTraces.LegacyItemIsListed | src/llm.rs:1684-1707 | In an accepted stream without indices the terminal response lists one part, and it names no other item than any event did. |
| Certified.RunTracks | src/llm.rs:1464-1552 | Over any accepted run the parts, in ascending order of their keys, hold exactly the delivered text, piece by piece, and the fingerprints of the `done` texts so far. |
| Certified.CompletedIsLast | src/llm.rs:1471-1473 | A terminal message is the last message of an accepted run, and the terminal check passed in the state before it. |
| Certified.FinalsAreStreamed | src/llm.rs:1642-1707 | If the terminal parts pass the check, their texts are the `done` texts in order, and the delivered deltas, if any, spell their concatenation. |
| Certified.CertifiedByResponse | src/llm.rs:1624-1682 | A response that passes the terminal check certifies the deltas, or else the fallback, by its own text; with empty output, by the single part's `done` text. |
| Certified.DeliveredTextIsCertified | src/llm.rs:1464-1719 | Every run accepted through end of stream delivers exactly the certified text: the deltas in arrival order, or the fallback when none arrived, equal the terminal parts concatenated (or the one `done` text), and contain a visible character. |
| SseEncoding.SentIsReceived | src/llm.rs:1299-1348 | Round trip: encoding any messages as event streams and parsing the bytes dispatches those messages, and leaves nothing pending. |
| SseEncoding.MessageArrives | src/llm.rs:1315-1339 | The lines of one message, its name, its data split at line feeds and the blank line, dispatch exactly that message. |
| Honest.PartIsTaken | src/llm.rs:1491-1531 | A part that is next in order is taken whole: any deltas that spell its text, then its `done`; what is kept and delivered is that text. |
| Honest.PartsAreTaken | src/llm.rs:1464-1622 | So is a whole stream: indexed parts in key order with one item per output, or one legacy part without indices, however the texts are cut into deltas. |
| Honest.NoiseIsIgnored | src/llm.rs:1549-1551 | Events of other kinds strewn in before the end change neither acceptance, state nor deltas. |
| Honest.TerminalIsAccepted | src/llm.rs:1624-1707 | After such parts the terminal response that lists them passes the check, as does an empty one in the dialect that allows it. |
| Honest.HonestMessagesAreAccepted | src/llm.rs:1464-1719 | A well-behaved message sequence, indexed or legacy, streamed or with fallback, in both dialects, is accepted through end of stream and delivers the terminal text. |
| Honest.HonestStreamCompletes | src/llm.rs:1453-1901 | From bytes: however the encoded stream of a well-behaved provider is cut into chunks, the response is accepted, its source does not fail, and the terminal text is delivered. |
| HonestCaller.ReadsWhole | src/llm.rs:459-511 | A caller with room for the text, a budget that settles and enough reads gets every event of a source that does not fail. |
| HonestCaller.HonestCallerCompletes | src/llm.rs:459-574 | The caller of a well-behaved provider's stream, with room for what the redactor lets through, reads exactly the redaction of pieces that concatenate to the terminal text, one `Completed` and nothing more, and one success is on record; for any redactor. |
| HonestCaller.UnredactedCallerCompletes | src/llm.rs:459-574 | Where the redactor changes none of this stream's pieces, the caller reads the terminal text itself. |
| HonestCaller.SeamlessCallerCompletes | src/llm.rs:459-574 | With a redactor that does not care about cuts, the caller reads the redaction of the terminal text, the same for every way to stream it. |
| CodexBatch.ExtractCodexSseText | src/llm.rs:3706-3797 | The extractor's loop over body lines computes its line-by-line specification, with the same rejections. |
| CodexBatch.LinesAsMessages | src/llm.rs:3715-3766 | With one data line per message, reading `data:` lines is reading the parser's messages. |
| CodexBatch.BatchFollows | src/llm.rs:3728-3766 | On any run the decoder accepts, the extractor collects the same deltas, the last `done` text and the terminal text. |
| CodexBatch.LastIsAll | src/llm.rs:3768-3778 | The last `done` text is the whole text exactly when no earlier part has text. |
| CodexBatch.ListedTextExactly | src/llm.rs:3706-3778 | On a body whose one terminal response lists its output the extractor yields that output's visible, completed text exactly if every event can be taken and the last `done` text and the deltas, if any, are that text. |
| CodexBatch.OneTerminalIsNeeded | src/llm.rs:3741-3768 | A body with no terminal event, or with two, is rejected. |
| CodexBatch.ExtractorAgrees | src/llm.rs:3706-3797 | On a body the incremental Codex decoder accepts, one data line per message, the extractor yields the same text, except that it rejects exactly when the terminal output lists its text and a part before the last is non-empty. |
| CodexHonest.HonestExtraction | src/llm.rs:3706-3797 | On any well-behaved Codex stream with one data line per message the decoder delivers the terminal text, and the extractor yields it too, except that it rejects exactly the streams whose listed output has text before its last part. |
| CodexHonest.RejectionExists | src/llm.rs:3768-3778 | Whatever the encoding and the digest, there is a body the decoder accepts and the extractor rejects. |
| Stream.PollIsHead | src/llm.rs:1844-1901 | Polling the source walks down one list of events, an event a poll; a failure is reported once and leaves the source dead. |
| Stream.DrainedIsWhole | src/llm.rs:1844-1901 | A source ends in `Completed` exactly when every chunk arrived and the decoder accepted the whole body; otherwise it yields deltas and one error. |
| Stream.WholeText | src/llm.rs:1864-1890 | The deltas of a completed source spell what the redactor makes of the decoder's deltas and fallback, its held-back tail included, and end in the one `Completed`. |
| Stream.AcceptedIsCertified | src/llm.rs:1453-1719 | A response accepted chunk by chunk delivers the text that the messages of its concatenated bytes certify. |
| Stream.CompletedStreamIsCertified | src/llm.rs:1844-1901 | A source that completes had its whole body accepted, and its deltas spell the redaction, by any redactor, of pieces that concatenate to the certified text. |
| Stream.CutsAreScriptedAlike | src/llm.rs:1844-1901 | Two cuts of the same bytes are accepted alike, and then make the source yield the same events. |
| Stream.CharacterwiseIsSeamless | src/util.rs:414-436 | A redactor that takes its text a character at a time answers two pieces in turn as it answers their concatenation. |
| Stream.SeamlessText | src/util.rs:414-436 | Such a redactor lets the same text through for every way to cut a text into pieces. |
| TextStream.ProviderSource.NextEvent | src/llm.rs:1844-1901 | The polling loop returns what the value-level source returns and ends in its state; after an error everything is dropped. |
| TextStream.ProviderSource.FinishResponse | src/llm.rs:1869-1893 | Clean end of body: validate, release the redactor's tail, queue `Completed` last. |
| TextStream.ProviderSource.QueueDeltas | src/llm.rs:1825-1834 | Each delta is pushed through the redactor and queued if anything visible is released. |
| TextStream.ProviderSource.Abort | src/llm.rs:1807-1818 | Aborting drops the response, the redactor and everything queued. |
| TextStream.LlmTextStream.NextEvent | src/llm.rs:459-511 | The wrapper's step: the size limit, the budget settlement before `Completed`, one recorded outcome, and failure on an early end; a `Completed` with a reservation charges the reservation's principal its excess and nobody else, a refusal moves no total, and every other read leaves the budget alone. |
| TextStream.NextKeepsBooks | src/llm.rs:459-511 | The same of the value-level step, in the budget's books; a reservation is settled once. |
| TextStream.NextIsDue | src/llm.rs:459-511 | What a read answers, case by case: the delta if it fits, the size limit if not, `Completed` if the settlement has room, its refusal if not, the source's failure, and nothing after the end; the last read drops the source on failure and records the outcome. |
| TextStream.LlmTextStream.Drop | src/llm.rs:566-574 | Dropping records a failure exactly if no outcome was recorded before. |
| TextStream.NextFollows | src/llm.rs:459-511 | One read yields the source's next delta within the limit, or ends the stream with `Completed` (its budget settled) or one error. |
| TextStream.StreamFollowsProtocol | src/llm.rs:459-574 | Every run is deltas, then at most one `Completed` or error, then nothing; emitted bytes stay within the limit; the outcome recorded is that of the end. |
| TextStream.CallerReadsCertifiedText | src/llm.rs:459-574 | End to end, for every chunking, clock, budget and redactor: the protocol above, exactly one outcome on record after the drop, and a caller that reads `Completed` has read the redaction of pieces that concatenate to the text the body's terminal event certifies; that text itself if they pass unchanged, and the redaction of it as a whole if the redactor does not care about cuts. |
| TextStream.CutsReadAlike | src/llm.rs:459-511 | Two callers that read `Completed` over two cuts of the same bytes have read the same events and the same text, whatever the redactor, limits, budgets and clocks. |
| RateLimiter.FixedWindowRateLimiter.CheckAt | src/http_boundary.rs:150-195 | The in-place check decides and updates as the value-level limiter does: cleanup, renewal of an expired window, count or Retry-After. |
| RateLimiter.CleanupDropsExactlyExpired | src/http_boundary.rs:146-180 | After any calls in any time order, cleanup drops the expired windows and no others, because every window started before the next cleanup is due. |
| RateLimiter.SameAsNeverCleaned | src/http_boundary.rs:150-195 | On every run whose calls are no older than the latest cleanup, each key is answered exactly as by a counter of its own that is never cleaned. |
| RateLimiter.NondecreasingIsTimely | src/http_boundary.rs:146-149 | Nondecreasing call times are such a run. |
| RateLimiter.FreshKeyAdmits | src/http_boundary.rs:163-195 | Of a fresh key's calls within a window's length of its first, exactly the first `max` are admitted. |
| RateLimiter.LiveWindowAdmits | src/http_boundary.rs:163-195 | In a live window exactly as many more calls are admitted as are left of the limit. |
| RateLimiter.KeyStartsOver | src/http_boundary.rs:163-180 | A window's length after the first call of a window the key is treated as fresh. |
| RateLimiter.CleanupIsDue | src/http_boundary.rs:152-162 | A call a window's length after the latest cleanup leaves no expired window behind; an earlier call drops none; neither touches a window that stays. |
| RateLimiter.NextCallExactly | src/http_boundary.rs:150-195 | The call after a timely run, at any time, is answered as by a never-cleaned counter exactly unless an exhausted window still live for it was cleaned away; then the call is older than that cleanup, and admitted where the counter refuses. |
| RateLimiter.LateCallDiffers | src/http_boundary.rs:146-180 | A concrete out-of-order run on which the cleaned limiter admits and the never-cleaned counter refuses. |
| RateLimiter.AtMostTwiceTheLimit | src/http_boundary.rs:150-195 | With nondecreasing times a key is admitted at most twice the limit in any half-open interval of one window length. |
| RateLimiter.RetryAfterIsExact | src/http_boundary.rs:181-195 | After a refusal, a call up to one second before the announced delay is refused, and one at or after it is admitted exactly if the limit is positive. |
| RateLimiter.RetryAfterOnLimiter | src/http_boundary.rs:150-195 | The same on the whole limiter, whatever calls for other keys come in between. |
| RateLimiter.RetryAfterOnRuns | src/http_boundary.rs:150-195 | The same after every run from the start with nondecreasing times. |
| Budget.ProviderBudget.ChargeAt | src/llm.rs:257-295 | The in-place charge decides and updates as the value-level budget does: expired windows dropped, both limits checked on saturating sums, totals moved only on success. |
| Budget.ProviderBudget.ReconcileActualTokens | src/llm.rs:297-315 | Only usage beyond the reservation is charged, as a charge of tokens alone. |
| Budget.ProviderBudget.ReconcileStream | src/llm.rs:388-402 | A stream's settlement charges the conservative actual usage when any was reported. |
| Settlement.ChargeInBooks | src/llm.rs:257-295 | A charge is granted exactly if the principal's live totals and the amounts, capped at the largest 64-bit value, stay within both limits; it then adds just them, in the window that was live or a new one; a refusal moves no total and announces the rest of the window in whole seconds; other principals' windows are untouched. |
| Settlement.UsageIsBooked | src/llm.rs:297-402 | A stream's settlement adds to the reservation's principal what (attempts - 1) estimates plus the reported usage exceed the reserved attempts by, or nothing, or is refused for lack of room. |
| Budget.EveryWindowWithinLimits | src/llm.rs:257-295 | No window ever exceeds either limit, in whatever time order charges arrive. |
| Budget.RefusalChangesNoTotals | src/llm.rs:272-286 | A refused charge leaves every principal's totals unchanged, now and later; at most it opens an empty window for its own key. |
| Budget.PrincipalsAreIsolated | src/llm.rs:257-295 | With nondecreasing times a principal's decisions are those of a budget fed only its own calls. |
| Budget.GrantedWithinAllowance | src/llm.rs:257-295 | From any state, what a principal is granted within a minute is bounded by the rest of its live window plus at most one more. |
| Budget.AtMostTwiceEachLimit | src/llm.rs:257-295 | Any minute grants at most twice each limit, for nondecreasing times and limits below the largest 64-bit value. |
| Budget.BoundHoldsExactly | src/llm.rs:272-286 | That bound holds for all runs exactly when both limits are below the largest 64-bit value. |
| Budget.CallIsChargedTheMaximum | src/llm.rs:2268-2291 | A finished call whose reservation and settlement were granted is charged the larger of the reservation and (attempts - 1) estimates plus the actual usage, and never refunded, exactly when neither total saturates; below the largest 64-bit limit none does. |
| Denial.DenialRate.AdmitDenial | src/audit_service.rs:205-269 | The in-place admission decides and updates as the value-level one does, keeps the books, and never takes the bucket-capacity drop. |
| Denial.AdmitKeepsAccounts | src/audit_service.rs:223-269 | One admission keeps the books: the authenticated count is the sum of the buckets and within the limit, buckets are between one and half the limit, the unauthenticated count is within half the limit. |
| Denial.ReachableIsAccounted | src/audit_service.rs:205-269 | The books hold after any calls at any times, and the next call never meets the bucket-capacity drop. |
| Denial.DenialIsRecordedExactly | src/audit_service.rs:205-269 | A denial is recorded exactly if its class has quota left: an anonymous one up to half the limit, an identified one up to the limit for all and half of it for its principal; it then counts once, for its class and principal, and a minute after the window began all counts start from zero. |
| Denial.OnePrincipalCannotStarveOthers | src/audit_service.rs:240-269 | From limit two up, while only one principal has used the window, any other principal's denial is still admitted. |
| Denial.AdmittedWithinAllowance | src/audit_service.rs:205-269 | With a clock that never runs back, any minute admits at most what is left of the current window plus one more window's quota. |
| Capacity.StepKeepsBalance | src/http_boundary.rs:276-425 | Every atomic move keeps permit conservation in both lanes and each request's bookkeeping. |
| Capacity.PermitsAreConserved | src/http_boundary.rs:276-425 | In every reachable state of every interleaving, free plus held permits equal the configured maximum in both lanes. |
| Capacity.PermitsReturnOnce | src/http_boundary.rs:322-358 | Over any run a request takes each lane's permit at most once, and has either given back what it took, once, or still holds it. |
| Capacity.NothingOutlivesExpiry | src/http_boundary.rs:322-351 | Once the expiry task has finished or the body is gone, a request holds nothing beyond what another task is just handing back. |
| Capacity.ExpiryAloneReleases | src/http_boundary.rs:323-339 | At the deadline of a body nobody polls, the expiry task's own moves are enabled and return every permit. |
| CapacityProgress.ResponseKeepsPermits | src/http_boundary.rs:366-425 | Over any run, while less than the configured time has passed since its response and its body neither ended, failed nor was dropped, a request keeps every permit, its frames are handed on, and its expiry cannot wake. |
| CapacityProgress.TimeoutReleases | src/http_boundary.rs:322-345 | Once the configured time has passed since the response, the expiry's own moves return every permit of an unpolled body. |
| CapacityProgress.LatePollReleases | src/http_boundary.rs:370-383 | From then on any poll of the body becomes a release that returns every permit. |
| CapacityProgress.EndedBodyReleases | src/http_boundary.rs:347-388 | In every reachable state a body that ends, fails or is dropped returns every permit by its own moves; a dropped one is then gone, any other can still be polled. |
| CapacityProgress.DroppedIsLeftAlone | src/http_boundary.rs:347-351 | In no run is a body polled or dropped once it was dropped. |
| CapacityProgress.NoPermitNoRequest | src/http_boundary.rs:276-294 | Without a free permit a request is shed and leaves no trace. |
| CapacityProgress.AdmissionTakesOne | src/http_boundary.rs:291-304 | With one, a request takes it and no other request changes; a sync request asks for the second lane first. |
| CapacityProgress.SyncNeedsBothLanes | src/http_boundary.rs:291-303 | A sync request with room in both lanes holds a permit of each; without, it is refused and the first permit is back. |
| CapacityProgress.CancelGivesBack | src/http_boundary.rs:291-304 | A handler that is cancelled returns what it holds by its own moves. |
| DispatcherBooks.StepKeepsBooks | src/app.rs:125-358 | Every move of a submitter, task, dispatcher or shutdown keeps all the books below. |
| DispatcherBooks.BooksAlwaysBalance | src/app.rs:125-358 | In every reachable state the depth counts the live leases, slots stay within the channel, running tasks within the limit, tracked tasks are the unjoined ones, and each sent job is in exactly one place. |
| DispatcherBooks.EveryJobSettledOnce | src/app.rs:211-318 | A dispatcher that returns before its deadline has given every job ever sent exactly one outcome, and leaves no queued job, slot or lease. |
| DispatcherOutcomes.EveryOutcomeIsDue | src/app.rs:211-358 | That outcome is what the job's task came to: ran exactly if its task finished well, failed exactly if it finished badly or panicked, interrupted exactly if it was never spawned. |
| DispatcherProgress.SubmissionReachesQueue | src/app.rs:125-192 | From every reachable state a new submission through open gates with a free slot ends with its job last in the queue, the depth up by one and nothing else changed. |
| DispatcherProgress.RefusalsLeaveNothing | src/app.rs:125-192 | Closed gates, a full or closed channel, a gate closed since, a closed runtime and a failed admission each end a submission with slot and lease back and nothing sent. |
| DispatcherProgress.QueuedJobStarts | src/app.rs:211-318 | A dispatcher below its limit takes the first queued job, releases its lease and starts it as a tracked task. |
| DispatcherProgress.EndedTaskIsTold | src/app.rs:320-358 | A running task that ends is joined and its job told: ran if it finished well, failed if it did not or panicked, interrupted if it was cancelled. |
| DispatcherProgress.ShutdownCloses | src/app.rs:194-201 | Shutdown is possible in every state and closes the submitters' gates. |
| DispatcherProgress.GatesStayClosed | src/app.rs:194-201 | No move ever opens a gate again. |
| DispatcherProgress.ServesWhileOpen | src/app.rs:194-260 | As long as the queue is open, in every reachable state, the dispatcher is in its main loop with its receiver open, no deadline has passed and no job was lost. |
| DispatcherProgress.IdleDispatcherReturns | src/app.rs:211-318 | Asked to drain with no task running, the dispatcher interrupts every queued job in order, closes the channel and returns. |
| DispatcherProgress.DeadlineSweeps | src/app.rs:270-318 | Past the deadline a waiting dispatcher stops waiting, interrupts every tracked job, and can return. |
| DispatcherProgress.UnmarkedIsLost | src/app.rs:258-318 | A record is given up only past the deadline and never while serving; its job is then lost, and the dispatcher goes on with the tasks, the sweep or its return. |
| Fragmenter.PoliciesAreClamped | src/fragmenter.rs:61-79 | The settings a policy can produce are exactly the clamped ones. |
| Fragmenter.RequestedSettings | src/fragmenter.rs:50-79 | A requested size is taken as it is where it is allowed and else the nearest allowed one; missing ones get the defaults. |
| Fragmenter.MinStepFor | src/fragmenter.rs:311-313 | The step is the smallest positive one that keeps the document within the fragment cap. |
| Fragmenter.NewBreakpoints | src/fragmenter.rs:269-299 | The two scans collect exactly the heading, paragraph and sentence positions, each defined by the characters around it. |
| Fragmenter.LineHasOneHeading | src/fragmenter.rs:274-281 | Within a line only its start can be a heading, and trimming the line decides it. |
| Fragmenter.TrimRange | src/fragmenter.rs:315-325 | The two index loops reach the range from the first to one past the last visible character. |
| Fragmenter.WindowBounds | src/fragmenter.rs:105-135 | A window is non-empty and at most a chunk long; the next start moves by the smallest step and by a quarter of the window rounded down, and never past the window's end. |
| Fragmenter.EndsNeverDecrease | src/fragmenter.rs:301-309 | A later start never yields an earlier end, although headings beat later paragraphs and sentences. |
| FragmentWindows.FragmentsFollowCuts | src/fragmenter.rs:89-138 | On the characters: windows run from start to end, each cut at the last heading in reach, else the last paragraph break, else the last sentence end, else at full length; the next one steps back by the overlap but gains a quarter and the step; every window that is not blank is emitted once, trimmed, in order, with its token estimate. |
| FragmentWindows.CutIsUnique | src/fragmenter.rs:301-306 | That cut is determined by the characters. |
| FragmentWindows.EndIsRight | src/fragmenter.rs:105-113 | The fragmenter ends each window at that cut, or at the end of the text if in reach. |
| Fragmenter.FragmentWithMinStep | src/fragmenter.rs:89-138 | The fragmenting loop produces the trimmed visible windows, numbered in order. |
| Fragmenter.FragmentDocument | src/fragmenter.rs:81-83 | A document is fragmented with the step its length calls for. |
| FragmentProperties.WindowsChain | src/fragmenter.rs:105-138 | Windows run from the start to the end of the text, starts strictly increase, ends never decrease, and consecutive windows leave no gap. |
| FragmentProperties.FragmenterGuarantees | src/fragmenter.rs:61-138 | For any document and policy: at most 10,000 fragments, numbered from zero, well formed, with nondecreasing starts and ends, within the volume bound, and every visible character inside some fragment. |
| FragmentProperties.CoversVisible | src/fragmenter.rs:105-138 | Every visible character from a window start on is inside some emitted fragment. |
| FragmentProperties.FragmentsAreShort | src/fragmenter.rs:105-117 | No fragment is longer than a chunk. |
| FragmentProperties.VolumeBound | src/fragmenter.rs:105-135 | Under any settings fragment lengths sum to at most four times the text and three characters a fragment. |
| FragmentVolume.EveryLengthExactly | src/fragmenter.rs:132-134 | Every window length the settings allow advances by a quarter or more exactly when the shortest length that rounding can hurt does. |
| FragmentVolume.AllQuartersExactly | src/fragmenter.rs:105-135 | Every window of every document below the cap starts a quarter or more after the one before, exactly under these settings; all others have a short document where one does not. |
| FragmentVolume.TightVolume | src/fragmenter.rs:105-135 | Under these settings any document, with any step, is emitted at most four times over, with no rest. |
| FragmentVolume.LongMinimumSuffices | src/fragmenter.rs:132-134 | A minimum chunk that exceeds its own quarter, rounded up, by the overlap is such a setting. |
| FragmentVolume.DefaultsSuffice | src/fragmenter.rs:50-58 | The default settings are too. |
| FragmentVolume.SolidVolumeIsExact | src/fragmenter.rs:105-135 | On solid text that overlap leaves to the quarter, k windows emit exactly four times the text, plus the rounding loss of k - 1 steps, less three chunks. |
| FragmentVolume.SolidTextExceeds | src/fragmenter.rs:589-597 | Such a text exceeds four times itself and one maximal chunk exactly when the rounding loss outweighs three chunks and that maximal chunk. |
| FragmentVolume.QuarterRoundsDown | src/fragmenter.rs:132-134 | A text and settings whose fragments exceed four times the text plus one maximal chunk. |
| FragmentRefinement.RefinesOld | src/fragmenter.rs:488-520 | Settings whose floor never binds reproduce the previous implementation's fragments on every document below the cap. |
| FragmentRefinement.EndsAgree | src/fragmenter.rs:499-506 | The previous implementation's choice of a window's end, by scans from the right, is the fragmenter's. |
| FragmentRefinement.LongMinimumNeverBinds | src/fragmenter.rs:132-134 | A minimum chunk that exceeds its own quarter by the overlap is such a setting. |
| FragmentRefinement.DefaultsNeverBind | src/fragmenter.rs:50-58 | The default settings are too. |
| FragmentRefinement.WitnessDiffers | src/fragmenter.rs:488-520 | Settings whose floor can bind have a short document on which the two implementations differ. |
| FragmentRefinement.RefinesOldExactly | src/fragmenter.rs:488-520 | So the two agree on all documents below the cap exactly for the settings whose floor never binds. |
| Blocks.VisibleBodies | src/fragmenter.rs:173-186 | The blocks with visible text are kept in order, with the total length that sets the shared step. |
| Blocks.PushBlock | src/fragmenter.rs:189-237 | A long paragraph appends its fragments and any other block one chunk, numbered on from the chunks before. |
| Blocks.OnlyLongParagraphsAreSplit | src/fragmenter.rs:189-237 | A paragraph longer than a chunk is split into chunks that are not; every other body is one chunk. |
| Blocks.NoBlocksNoMetadata | src/fragmenter.rs:154-161 | A document without blocks is chunked as its text is fragmented. |
| BlockOrder.BodyIsVisible | src/fragmenter.rs:356-448 | Whatever fields a block's text is assembled from, each part of it is visible, and so is the text if there is any. |
| BlockOrder.MainPartsAre | src/fragmenter.rs:356-433 | Which fields a block shows, by its type, and which stand in for missing ones. |
| BlockOrder.BodyPartsAre | src/fragmenter.rs:435-450 | After them come a caption that is not among them already and a footnote, and nothing else. |
| BlockOrder.PartsStandInBody | src/fragmenter.rs:452 | Each of these parts stands in the block's body. |
| BlockOrder.OrderIs | src/fragmenter.rs:165-171 | One block comes before another by reading order, then page, a missing one last, then identifier, character by character. |
| BlockOrder.SortIsStable | src/fragmenter.rs:164-171 | Blocks are brought into order by reading order, page (last if missing) and identifier, all of them, those with one key as they stood. |
| BlockOrder.StableSortIsUnique | src/fragmenter.rs:164-171 | There is only one such arrangement, so any stable sort by that key yields it. |
| Blocks.FragmentBlocks | src/fragmenter.rs:153-240 | The loop over the ordered, non-blank block texts produces the document's chunks on one shared step; without blocks the document's own text is fragmented. |
| Blocks.ChunkBudget | src/fragmenter.rs:184-186 | Chunks beyond one per block, times the shared step, stay within the total length. |
| Blocks.BlocksInOrder | src/fragmenter.rs:188-240 | Chunks run through the blocks in order, each block's contiguous and at least one, numbered consecutively; each carries the stretch of the body its range names, and together they show every visible character of it. |
| Blocks.BlockDocumentGuarantees | src/fragmenter.rs:153-240 | A block document yields at most 10,000 chunks plus one per visible block, numbered from zero, through the blocks in stable reading order, showing every visible character of every block. |
| Analysis.NormalizeTags | src/analysis.rs:561-584 | The loop keeps the first occurrence of each trimmed tag and reports the first bad tag. |
| Analysis.Tags | src/analysis.rs:561-584 | Accepted tags are pairwise distinct, trimmed, non-empty, bounded and free of control characters. |
| Analysis.UrisFrom | src/analysis.rs:450-463 | Accepted evidence URIs are pairwise distinct, all authorised, and present. |
| Analysis.ValidateInsightCandidate | src/analysis.rs:432-475 | The validation of one insight, with its evidence loop, computes its specification, first error first. |
| Analysis.OneMore | src/analysis.rs:252-281 | A set of identities seen so far is enough to decide, candidate by candidate, what is kept and what is rejected with which code. |
| Analysis.ValidateAnalysisOutput | src/analysis.rs:214-318 | Parsing limits first, then both loops: kept links, kept insights and rejections are those of the first-valid-wins specification. |
| Analysis.RedactTags | src/analysis.rs:373-386 | Redacted tags that are still usable are kept once, in order. |
| Analysis.RedactValidatedAnalysisOutput | src/analysis.rs:328-371 | The redaction pass rewrites links in place and filters insights by their redacted identity, as specified. |
| AnalysisProperties.ValidationAccountsForEveryCandidate | src/analysis.rs:206-318 | Per kind, every candidate index is kept or rejected exactly once, in provider order, with distinct identities, each duplicate repeating an earlier kept one; everything kept is bounded and cites authorised URIs only. |
| AnalysisProperties.DuplicateExactly | src/analysis.rs:262-316 | A candidate is rejected as a duplicate exactly when it is valid and an earlier valid candidate has its identity. |
| AnalysisProperties.FirstValidSurvives | src/analysis.rs:206-213 | Every identity of a valid candidate is carried by a kept one no later than it. |
| AnalysisProperties.ValidLink | src/analysis.rs:403-430 | A valid link joins two different authorised URIs by an allowed relation, with bounded text, tags and score. |
| AnalysisProperties.ValidInsight | src/analysis.rs:432-475 | A valid insight has bounded texts, scores in range and distinct authorised evidence. |
| AnalysisExactly.LinkIsKeptExactly | src/analysis.rs:403-430 | A link candidate is valid, as a given link, exactly if its ends canonicalise to that link's two different authorised ends and every other field is the candidate's own, trimmed, within its bounds. |
| AnalysisExactly.InsightIsKeptExactly | src/analysis.rs:432-475 | The same for an insight candidate: each text, each score, the canonical evidence and the tags. |
| AnalysisExactly.LinkFaultsAreReal | src/analysis.rs:403-430 | A link's diagnostic names what is wrong with it, the URIs' faults first. |
| AnalysisExactly.TagsExactly | src/analysis.rs:561-584 | Tags are valid exactly if there are at most 64 and each is usable, and each is kept where it first stands. |
| AnalysisExactly.RelationExactly | src/analysis.rs:505-522 | A relation is valid exactly if it is one of the two allowed, in any ASCII case. |
| AnalysisExactly.UriExactly | src/analysis.rs:477-503 | Which URIs are accepted, and with which canonical form. |
| AnalysisExactly.ResponseExactly | src/analysis.rs:214-246 | A response is validated exactly if it is small enough, an envelope, and within both candidate limits; which error it gets otherwise. |
| AnalysisExactly.LinkIdentity | src/analysis.rs:264-270 | Two links are duplicates exactly when source, target and relation are equal. |
| AnalysisExactly.InsightIdentity | src/analysis.rs:395-401 | Two insights are duplicates exactly when they are projected to one context URI. |
| AnalysisExactly.RedactedRationaleExactly | src/analysis.rs:332-341 | A redacted rationale is kept exactly if it is still visible, short and plain. |
| AnalysisExactly.RedactedTagsExactly | src/analysis.rs:373-386 | Redacted tags are the usable ones, each where it first stands. |
| AnalysisExactly.RedactedInsightExactly | src/analysis.rs:344-368 | A redacted insight survives exactly if its three texts are still bounded; only they and the tags change. |
| AnalysisProperties.RedactionKeepsGuarantees | src/analysis.rs:328-371 | For any redaction functions: links keep number, order and identity; surviving insights are a subsequence with their evidence, still bounded, with pairwise distinct identities, the first of each surviving. |
| AnalysisProperties.AcceptedOutputIsSafe | src/analysis.rs:214-371 | Validation then redaction: within the candidate limits, everything bounded and authorised, link and insight identities pairwise distinct. |
| AnalysisUris.AcceptedShape | src/analysis.rs:477-503 | An accepted URI is a non-empty prefix of the trimmed one without white space or control characters, at most one layer shorter. |
| AnalysisUris.StableExactly | src/analysis.rs:491-502 | Canonicalising an accepted URI again changes nothing exactly when the URI does not end in two layer suffixes and is not a bare layer suffix behind the scheme's slash. |
| AnalysisUris.BareLayerCutsTheScheme | src/analysis.rs:491-502 | The canonical form of `ctx://detail` is `ctx:/`, which is no acceptable URI. |
| AnalysisUris.LayersResolve | src/analysis.rs:388-392 | Each layer view of a canonical URI canonicalises to that URI. |
| AnalysisUris.DoubledLayerIsUnstable | src/analysis.rs:491-497 | An authorised URI whose canonical form is not itself citable. |
| AnalysisUris.EveryLayerIsCitable | src/analysis.rs:150-161 | Once a URI that is its own canonical form is authorised, the URI and every layer view of it canonicalise to an authorised URI. |
| Base64.AbsorbStaysSmall | src/llm.rs:2847-2867 | With fewer than eight pending bits and no value beyond them, one more symbol cannot overflow the 32-bit buffer, and every output is an octet. |
| Base64.DecodeBase64Url | src/llm.rs:2846-2869 | The bit-buffer loop decodes as specified, never leaving that range. |
| Base64.RoundTrip | src/llm.rs:5508-5525 | Decoding the encoding of any octet string, in either alphabet, padded or not, returns it. |
| Base64.FailsOnForeignByte | src/llm.rs:2850-2859 | Decoding fails exactly when a byte outside both alphabets comes before any padding. |
| Base64.PaddingEnds | src/llm.rs:2850-2853 | Nothing after the first padding byte is looked at. |
| Base64.SymbolsAre | src/llm.rs:2850-2859 | A byte has a value exactly if one of the two tables of RFC 4648 lists it, and then its value is its place there. |
| Text.TrimShape | src/llm.rs:1679-1681 | Trimming yields the empty string exactly for a text without visible characters, and neither starts nor ends with white space. |
| Text.TrimIsInner | src/llm.rs:1679-1681 | Trimming takes white space off both ends and nothing else. |
| Text.JoinedLinesSplit | src/llm.rs:1316-1321 | Joining data lines by line feeds loses none of them. |

## Left out

- The state of a decoder after a failed push: its caller drops it, and the messages already parsed from that chunk with it, so claims are about accepted runs.
- CodexBatch.ExtractorAgrees: covers bodies with one data line per message, because the parser joins several data lines while the extractor reads each line alone.
- JSON parsing, UTF-8 decoding and SHA-256: parameters; `DeliveredTextIsCertified` and what builds on it assume an injective digest, `ExtractorAgrees` a parser that ignores surrounding white space.
- Byte counts of deltas are unbounded naturals; a part of 2^64 bytes or more is rejected by the source's checked addition, which the decoder's delta step keeps.
- The streaming redactor, the field redactors and slugging: arbitrary functions; of `src/util.rs` the model uses only that the streaming redactor takes its text character by character, and that only where a statement says so.
- Text stream sources other than the provider source, and the setters that attach a size limit, a reconciliation and metrics after construction: they are constructor arguments here.
- Provider requests, retries between attempts, timeouts and error mapping: HTTP, with no property of their own.
- The second expiry test in the budget's charge: it cannot fire after the retention pass, and the model asserts that instead of repeating it.
- Overflow of the clock arithmetic and of `Instant`: times are natural numbers.
- Denial metric labels, the in-flight semaphores of audit writes and the writes themselves.
- The result of marking a failed or interrupted job in the store: the model counts the mark as the job's outcome.
- The runtime supervisor's own abort of the dispatcher task, and jobs lost after the shutdown deadline: the deadline is an action after which only conservation, not settlement, is claimed.
- A task manager dropped without a shutdown, which also ends the dispatcher's main loop (src/app.rs:224-228): here shutdown alone does.
- Capacity and dispatcher as objects: their tasks are interleaved atomic moves on values, so memory ordering of the atomics and lock poisoning are not captured.
- Analysis.ValidateAnalysisOutput: takes the parsed response, because schema decoding belongs to the JSON library; a candidate that does not fit the schema is a missing value.
- Rounding of scores to single precision: scores stay real numbers.
- FragmentVolume.AllQuartersExactly: the converse is proved window by window. For whole documents it stays open which other settings have a text beyond four times its length, because the fragment cap limits the total rounding to 30,000 characters and how often a short window can recur depends on the interleaving of the three breakpoint kinds; `SolidVolumeIsExact` decides it for solid text.
- RateLimiter.NextCallExactly: decides one call after a timely run; once an untimely call has opened a window of its own, limiter and counter hold different windows, and no condition is stated for what follows.
- Checksums, section paths, bounding boxes, asset references and the other metadata a chunk copies from its block.
- The store, the operation journal, the document parser, vector matching, configuration and authentication.
