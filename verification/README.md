# Desktop service model

A Dafny model of the parts of the desktop service that carry state, concurrency
and parsing, with proofs about every input, every run or every reachable state.
`dafny verify dfyconfig.toml` checks all of it.

Four parts of the service are modelled.

**Lease window state.** A lease keeps a live list of windows, a staged list, a
pending flag and a counter, and writes events to its client. `Lease` is the
state machine, `Mirror` proves that a client folding the bytes holds the same
lists, `Observed` relates the acknowledgement of an operation to what the client
sees and `Acknowledged` says it operation by operation, `Announced` proves what
the client is told and what is stored, `Fence` what the number handed to a caller
means, and `LeaseObject` is the code that rewrites the lists in place.

**KWin channel.** `Relay` is the transition system of many threads over one
socket: each critical section is a step, waiting is explicit, wakeups may be
spurious. `Envelope`, `EnvelopeText` and `Numerals` are the text grammar,
`JobQueue` and `JobTable` the job queue as a value with its history and as a
table in place, `Bus` and `BusObject` the session daemon's callbacks.
`RelayReturns` says exactly what a call returns, `BusHistory` whose each job is and
whose words each answer, `BusProgress` that nobody who can be served is refused or
left waiting, `RequestWords` how the script reads a job's text.
`BusyHonesty` and `AnswerHonesty` join relay and daemon by their socket.
`RelayRefs` counts the references to relays.

**Wire layer.** `Bytes`, `Frames`, `Assembly`, `Client`, `ScopeCache`, `Response`,
`StateWire`, `WireBuffer`, `Json`, `JsonGrammar` and `Utf8`. `ScopeCache` compares the
scopes a client caches with those the wire announced.

**Admission, budgets and grants.** `Budget` has the usage tables, the worker
pool and the memory budgets; `Grants` the cached permissions and the checks
before and after an operation.

Where the source changes state in place there is a class whose methods are
proved equal to a function on values, and the properties are proved of runs of
that function.

What the proofs found, besides what holds:

- A fence number can be used again although the source opens with BEGIN: if the
  lease swallows it while monitoring is off and monitoring then returns, END is
  written under the old number (`Fence.SwallowedBegin`). `Fence.FenceReusedExactly`
  says exactly which steps use a number again.
- A change whose record does not fit a copy clears its slot in the lease without an
  event (`Mirror.TornExactly`). Until the connection's loop notices, the lease
  acknowledges things the client does not show, unless the loss cannot be noticed
  (`Fence.TornFence`, `Fence.AcknowledgedExactly`). A lost item leaves the live half
  of the mirror whole and, the snapshot being pending, no number is handed out.
- A grant event that waited in the client's queue sets the cached scopes back when
  it is delivered (`Client.CacheGoesBack`), and a revocation that arrived behind it
  then stays undone until the next one. `Client.CacheExactly` says exactly when the
  cache is right.
- A refresh that fails empties the cached grants of a lease, and at an unchanged
  generation no later refresh fills them again, although the store still gives them
  (`Grants.StarvedThoughGiven`). `Grants.CacheExactly` says exactly when the cache is
  what the store gave.
- A report that names one dispatched job twice passes the first check, finishes
  the job and is then refused (`JobQueue.TwiceNamed`), so the answer waits for the
  next accepted report.
- The comment on `ksd_operation_result` says exactly one of tail and descriptor
  is set; the code also leaves both unset. The model follows the code: never both.
- The public header says that BEGIN, items and END share a number. A delta between
  them raises it, so END may carry a higher one (`Fence.SnapshotNumbersDiffer`).
  `Fence.SnapshotSharesExactly` says exactly when they share it.

Assumptions: allocation succeeds; fewer than 2^64 events, requests, sequences and
ids are used (stated where it matters); the permission store answers with the
grants of the generation it reports, and every change of it bumps the generation.

## Model

| member | source | states |
|---|---|---|
| `Mirror.ClientMirrorsLease` | src/authorityd.c:1995-2108 | over every run, a client that decodes and folds the bytes written (BEGIN empties staging, ITEM upserts it, END swaps it in, DESTROY removes, any other delta upserts) holds exactly the lease's live list, each handle once, if and only if the run lost no record from it, and the same of the staged list, each whatever happened to the other |
| `Mirror.RunMirroredBut` | src/authorityd.c:2002-2108 | every run mirrors but for the one slot it left cleared, because the loop that reads the sources stops at the first loss |
| `Mirror.ClearedDiffers` | src/authorityd.c:2057-2058 | a list whose records all say their place in the stack and that loses one of them is never again the client's map |
| `Mirror.RunMirrored` | src/authorityd.c:2002-2108 | the same refinement from any mirrored state, step by step |
| `Mirror.SuppressedChangesNothing` | src/authorityd.c:2036-2042 | an accepted event that emits nothing leaves the whole lease state as it was |
| `Mirror.TornExactly` | src/authorityd.c:2040-2058 | a record is lost if and only if its texts leave no room for its fixed part and it is an item of a pending snapshot, or a change that would alter the live list; its slot is left cleared, nothing else changes, and the connection's loop is told to stop |
| `Announced.SourceRelayed` | src/authorityd.c:2002-2062 | from every reachable state that listens: what is written for a source's event carries the lease's epoch, the counter as its number and the record as it came, but for a missing place in the stack, which is the one the client already shows the window at, or above every window it shows if none is at the highest order of all; nothing is written and the lease goes on exactly when the client already shows that record, or the end is of a window it does not show |
| `Announced.LossTold` | src/authorityd.c:2855-2866 | the end of a source is told to a subscriber as a RESET under the next number and the lease's epoch, or is the end of the lease |
| `Announced.SubscriptionWaits` | src/authorityd.c:2119-2122 | over every run from a subscription on, no operation is acknowledged to a client that still subscribes before the end of a snapshot has been written to it |
| `Announced.RevokedSilent` | src/authorityd.c:1336-1344 | a lease that is told it may no longer watch windows writes nothing about them, whatever it is granted later, until it subscribes again |
| `Announced.SourceWritten` | src/authorityd.c:2002-2062 | from every reachable state that listens on an active lease: an event is written exactly if it is delivered, the client does not show it already, an item or end is of a pending snapshot, and there is room for it |
| `Announced.RunDenied` | src/authorityd.c:1200-1221 | over every run, a lease that has ended, on its own or because an event could not be written, has no permission left |
| `Announced.ClosedForGood` | src/authorityd.c:1200-1221 | a lease that is closed stays closed, writes nothing more and hands out no number |
| `Announced.RunTruthful` | src/authorityd.c:2045-2056 | over every run, each event written is true of the windows its reader shows when it reads it: CREATE exactly of a window not shown, SHOW and HIDE exactly of one whose visibility turned, else ACTIVE, GEOMETRY, TITLE exactly as that is the first thing that differs, CHANGED otherwise, DESTROY only of a window that is shown |
| `Announced.DeltaStored` | src/authorityd.c:2027-2058 | the record a change leaves in the handle's slot, or in a new one at the end, is the event's own, with the slot's old place in the stack or the top if the event gives none; every other slot is as it was |
| `Announced.ItemStored` | src/authorityd.c:2024-2058 | the same of an item and the staged list |
| `Announced.TopIsOnTop` | src/authorityd.c:2032-2034 | the scan puts a window above all others exactly when none is at the highest order, and no higher than it takes |
| `Lease.EffectFramed` | src/authorityd.c:2002-2062 | an event moves the counter by one, or by none for ITEM and END, and touches neither the log, the epoch nor the active flag before it is written |
| `Fence.NumbersConsecutive` | src/authorityd.c:2002-2062 | over every run consecutive window events carry the same number (only for ITEM and END) or the next one |
| `Fence.NumberedPair` | src/authorityd.c:2002-2062 | neighbouring events in a numbered log differ by zero or one, zero only before ITEM and END |
| `Fence.SharedNumber` | src/authorityd.c:2002-2062 | two events of a numbered log share a number if and only if everything from the one to the other is an item or an end |
| `Fence.MovesExactly` | src/authorityd.c:2002-2062 | the counter moves by one exactly at a beginning, at a change that alters the live list, and at the end of a source |
| `Fence.SnapshotSharesExactly` | src/authorityd.c:2002-2062 | from any state, a BEGIN that is written and an ITEM or END that is written after it share a number if and only if no step between them moves the counter |
| `Fence.SnapshotNumbersDiffer` | include/keysharp_desktop/client.h:378-380 | counterexample, from a new lease: a window that appears between BEGIN and END makes END carry the next number |
| `Fence.FenceExactly` | src/authorityd.c:2324-2367 | at every reachable state that hands out its number, and for every future, all numbers handed out mean what they promise (nothing later carries n, the events numbered at most n are exactly those already written, and the windows folded from them show the effect) if and only if no record that can be missed was lost from the live list and no later step writes an item or an end of a pending snapshot while the counter still stands at n |
| `Fence.FenceSound` | src/authorityd.c:2324-2367 | one number, one request: the promise holds whenever the past lost nothing that can be missed and no step of the future reuses the number |
| `Fence.AcknowledgedExactly` | src/authorityd.c:2234-2302 | the lease acknowledges only what the client's windows show, for every request and prior record, if and only if the run lost no record from the live list that can be missed |
| `Fence.FenceReusedExactly` | src/authorityd.c:2324-2367 | in any future at all the number is carried again if and only if some step of it is a delivered, fitting ITEM or END at a state that is active, subscribed, monitored and pending with the counter unmoved |
| `Fence.DisciplinedNeverReuses` | src/authorityd.c:2010-2022 | no step reuses a number as long as the first window event that reaches the lease after each subscription is a BEGIN |
| `Fence.SwallowedBegin` | src/authorityd.c:2094-2099 | counterexample: the source does open with BEGIN, the lease swallows it while monitoring is off, and END is then written under a number already handed out |
| `Fence.TornFence` | src/authorityd.c:2057-2058 | counterexample: for every lost change that can be missed there is a request the lease acknowledges although the client does not show its effect |
| `Fence.TornFenceReachable` | src/authorityd.c:2057-2058 | the state that counterexample starts from is reached by a concrete run, and its change is an event of MAX_TEXT_BYTES + 6 bytes, which the sources let through |
| `Acknowledged.SwitchDone` | src/authorityd.c:2276-2287 | in the bytes of the request: visible, above and decorated are acknowledged exactly when the window the client shows has the field and the flag is on just if the value is not zero, opacity exactly when it is the value |
| `Acknowledged.StateDone` | src/authorityd.c:2288-2299 | in the bytes of the request, each state exactly when the minimized and maximized flags say so and the fields it needs are there |
| `Acknowledged.TitleDone` | src/authorityd.c:2270-2275 | exactly when the title shown is the text of the request, of the length it declares |
| `Acknowledged.FrameDone` | src/authorityd.c:2255-2269 | exactly when each of x, y, width and height was left alone, is what was asked for, or is no longer what it was before |
| `Acknowledged.FrameProgresses` | src/authorityd.c:2304-2325 | short of that, exactly when something that was asked to change has changed |
| `Acknowledged.StackDone` | src/authorityd.c:2244-2252 | raise and lower exactly when nothing shown stands above, or below, or the window has moved since |
| `Acknowledged.PlainDone` | src/authorityd.c:2239-2254 | close and kill exactly when the window is gone, focus when it is active, any operation that is not listed when it is there |
| `Acknowledged.ShortDone` | src/authorityd.c:2234-2302 | a request that names a window but is too short for what it asks is never acknowledged |
| `Acknowledged.PendingOrUnnamed` | src/authorityd.c:2237-2238 | nothing is acknowledged while a snapshot is pending, and otherwise whatever names no window |
| `Observed.ListObservedIsVisible` | src/authorityd.c:2234-2302 | the scan over the lease's list depends on nothing but the map of windows the client holds, for every request and every order of the list; what it answers is said, operation by operation, in the rows above |
| `Observed.OperationObserved` | src/authorityd.c:2234-2302 | the loops over the list compute that answer |
| `Observed.HonestExactly` | src/authorityd.c:2234-2302 | over a list with one cleared slot, whatever is acknowledged is visible if and only if the loss is hidden: a window the client never saw while it shows one under handle zero, or the window under handle zero when its place in the stack tells nothing |
| `Observed.LossMisleads` | src/authorityd.c:2234-2302 | otherwise a close of the lost window, a request for handle zero, or a raise or lower of it is acknowledged and not visible |
| `LeaseObject.AuthorityLease.SourceEvent` | src/authorityd.c:2064-2108 | the method that rewrites the lists in place moves the lease exactly as one step of the run model |
| `LeaseObject.AuthorityLease.Send` | src/authorityd.c:1200-1221 | an event is stamped, encoded and appended to what was written, or the lease is closed |
| `LeaseObject.AuthorityLease.ApplyItem` | src/authorityd.c:2024-2061 | staging an item, in place |
| `LeaseObject.AuthorityLease.ApplyDelta` | src/authorityd.c:2028-2061 | applying a delta to the live list, in place |
| `LeaseObject.AuthorityLease.SourceEnded` | src/authorityd.c:2855-2866 | the end of a source writes a RESET under the next number, or closes the lease |
| `LeaseObject.AuthorityLease.Subscribe` | src/authorityd.c:2119-2122 | a subscription sets the pending flag and leaves the counter alone |
| `LeaseObject.AuthorityLease.Sync` | src/authorityd.c:2324-2367 | the number handed to the caller is the fence of the run model, and past the deadline a move that was only partly followed succeeds without one |
| `LeaseObject.WindowSlot` | src/authorityd.c:1995-2000 | the first slot of the handle, or the end of the list |
| `LeaseObject.FrameProgress` | src/authorityd.c:2304-2325 | the comparison of requested, prior and present frames computes that |
| `StateWire.EventRoundTrip` | src/state_wire.c:302-335 | every well-formed event survives encoding and decoding |
| `StateWire.DecodeCanonical` | src/state_wire.c:317-335 | whatever decodes is the one encoding of a well-formed event |
| `StateWire.DecodeEncode` | src/state_wire.c:302-335 | an encodable event decodes to itself exactly when it is well formed |
| `StateWire.EncodeInjective` | src/state_wire.c:302-315 | two encodable events never share an encoding |
| `StateWire.WindowCopyExact` | src/state_wire.c:347-354 | copying a record through its encoding returns it unchanged exactly when it is well formed and its encoding fits, and fails otherwise |
| `StateWire.WriteEvent` | src/state_wire.c:302-315 | the encoder appends exactly that encoding, or refuses |
| `StateWire.ReadEvent` | src/state_wire.c:317-335 | the decoder computes the specified decoding |
| `WireBuffer.Buffer.Reserve` | src/protocol_io.c:399-421 | room is made exactly when the maximum allows it, and the capacity never passes the larger of 64 and the maximum |
| `WireBuffer.Buffer.Append` | src/protocol_io.c:423-431 | all of the bytes or none, and nothing else changes |
| `Json.StringRoundTrip` | src/state_wire.c:140-180 | reading an escaped string gives the original, or its Latin-1 transcoding, exactly when it is NUL-free text shorter than the limit, and is refused otherwise |
| `Json.SpanOfQuoted` | src/state_wire.c:16-64 | the span of an escaped string inside any bytes is exactly that string |
| `Json.SpanStable` | src/state_wire.c:16-64 | the span found for a value does not depend on what follows it, unless it is a bare word that runs to the end of the input |
| `Json.ScalarEscapeReads` | src/state_wire.c:131-180 | every Unicode scalar value escaped as \u, as a surrogate pair where it needs one, in either case, reads as its UTF-8 encoding |
| `Json.TranscodeValid` | src/protocol_io.c:454-487 | the Latin-1 reading of bytes is NUL-free valid UTF-8 if and only if the bytes have no NUL |
| `JsonGrammar.SpanExact` | src/state_wire.c:16-64 | the scanner accepts a value from here to there exactly when what stands there is the text of a string, a bare word, or an array or object of such values, white space anywhere between, nested no deeper than 64, and a bare word ends there |
| `Json.WriteString` | src/protocol_io.c:454-487 | the escaping loop appends exactly the specified text, or refuses |
| `Json.ValueSpan` | src/state_wire.c:16-64 | the recursive scanner terminates on every input, stays inside it and finds the specified span |
| `Json.ReadString` | src/state_wire.c:140-180 | the unescaping loop computes the specified text |
| `Utf8.ValidIsText` | src/protocol_io.c:585-628 | bytes are accepted if and only if they are a concatenation of encodings of Unicode scalar values, with U+0000 only if allowed |
| `Utf8.Validate` | src/protocol_io.c:585-628 | the loop decides that |
| `Utf8.EncodeAllInjective` | src/protocol_io.c:585-628 | a text spells one sequence of scalar values |
| `Utf8.Truncate` | src/operation_result.c:45-56 | the shortening loop gives the longest text under the cap, and loses at most three bytes more than the cap does when the diagnostic is text |
| `Frames.UnpackPack` | src/protocol_io.c:259-311 | every acceptable frame survives packing and unpacking |
| `Frames.PackUnpack` | src/protocol_io.c:278-311 | whatever unpacks is the packing of an acceptable frame |
| `Frames.CutOfPacked` | src/client.c:179-208 | a stream of packed frames and part of another is cut back into exactly those |
| `Frames.CutPrefix` | src/client.c:179-208 | what has been cut from a stream stays cut when more arrives |
| `Assembly.WriteRequest` | src/client.c:792-827 | the loop over the offset sends exactly the split of the payload |
| `Assembly.SplitCompletes` | src/protocol_io.c:527-583 | the frames of every payload over 4096 bytes and up to 4 MiB are pending until the last completes, with the same opcode, id and bytes |
| `Assembly.CompleteIsSplit` | src/protocol_io.c:527-583 | whatever completes is exactly the split of what it delivers |
| `Assembly.RequestAssembly.Take` | src/protocol_io.c:527-559 | one frame is accepted, refused or completes as specified, in place |
| `Assembly.RequestAssembly.Finish` | src/protocol_io.c:561-583 | a complete request is returned once, whole, and the assembly is idle again |
| `Assembly.Session.HandleFrame` | src/authorityd.c:2664-2713 | at every frame boundary a reservation is held exactly while an assembly is active, and a request is passed on only whole |
| `Assembly.Session.Close` | src/authorityd.c:2886-2889 | the end of the connection returns what an unfinished request holds |
| `Assembly.HandleChunked` | src/authorityd.c:2679-2713 | a chunked request fed through a session comes out once, whole, with the reservation returned |
| `Response.ErrorUnderstood` | src/client.c:645-688 | an error reply is understood, with status, detail and message, if and only if its status is the protocol's and it is not split |
| `Response.ParseExact` | src/client.c:645-688 | a frame is taken for a given reply exactly when it has the opcode and id asked for, is a response and no event, and its payload spells that reply |
| `Response.RefusalIsErrorBody` | src/client.c:645-688 | whatever is understood as an error is the body the authority builds from what was read |
| `Response.Build` | src/authorityd.c:1037-1081 | a reply is built exactly when it may be, and is read back as its status, detail, longest fitting message or tail |
| `Response.ParseResponse` | src/client.c:645-688 | the reading with a cursor computes the specified reply |
| `Response.ReportError` | src/operation_result.c:33-56 | a failing operation reaches the client as its status, detail and the longest text that begins the diagnostic and fits 255 bytes, through both shortenings |
| `Response.LongestTwice` | src/authorityd.c:1046-1053 | shortening for the result and again for the reply is shortening once for the reply |
| `Response.OperationResult.Error` | src/operation_result.c:33-56 | an error carries neither tail nor descriptor, and every descriptor ever taken is held or closed once |
| `Response.OperationResult.Take` | src/operation_result.c:58-73 | a tail replaces whatever was carried |
| `Response.OperationResult.TakeDescriptor` | src/operation_result.c:75-94 | a descriptor is consumed whether or not it is accepted, and replaces whatever was carried |
| `Client.Connection.ReceiveEventFrame` | src/client.c:179-208 | for any schedule of partial receives the input stays within the current frame and frames come out whole and acceptable; a failure names the malformed frame, and when the rest of the stream arrives without a hitch the next acceptable frame of it does come out |
| `Client.Connection.QueueEvent` | src/client.c:137-157 | an event is queued exactly within 256 events and 16 MiB, and the counters are the queue's length and bytes |
| `Client.Connection.TakeEvent` | src/client.c:159-176 | the oldest event leaves, and the counters follow |
| `Client.Connection.ReadResponse` | src/client.c:734-790 | events ahead of a reply are queued or applied in order, the cached scopes are what those events make of them, the reply is the last frame read, and the number a mutating operation ends with is taken off its tail; when the stream arrives without a hitch and holds a good reply behind events that are absorbed, that reply is what is returned |
| `Client.Connection.StateNext` | src/client.c:2140-2226 | the oldest queued event or the next to arrive is delivered, once, and sets the cached scopes if it is about grants; taken from the queue of a connection whose cache is current, it leaves the cache current if and only if it announces no scopes, or those of the last queued grant less what was revoked since |
| `Client.SettleAppended` | src/client.c:780-787 | an operation number appended to the tail of a mutating operation's success comes back as the tail and the number |
| `Client.CacheExactly` | src/client.c:137-157 | over every run of reading replies and taking events, the cached scopes are what the wire says if and only if they are the last grant event still queued less all that was revoked since it arrived, or, with none queued and so whenever the queue is drained, if no revocation behind the last grant event took one of them |
| `Client.CacheGoesBack` | src/client.c:2222-2224 | counterexample, run on the connection itself: a grant of two scopes and then a grant of one, or a revocation of the other, arrive ahead of a reply; reading it leaves the cache at one, taking the first event sets it back to two while the wire says one, and after the revocation the queue is empty and it stays so |
| `ScopeCache.CurrentExactly` | src/client.c:627-643 | the same of the frames taken out, those delivered and those waiting, for any of them |
| `ScopeCache.HeadCurrentExactly` | src/client.c:2203-2226 | taking the oldest queued event leaves a current cache current if and only if that event is not about grants or announces what the last queued grant does, less what was revoked since |
| `ScopeCache.WireIsLastLess` | src/client.c:627-643 | applying every event once in order of arrival gives the last announcement less everything revoked behind it |
| `ScopeCache.OvertakenYetCurrent` | src/client.c:2203-2226 | an announcement that another has overtaken is still what the wire says when a revocation has undone the difference |
| `ScopeCache.ScopesOfInjective` | src/client.c:627-643 | two masks that hold the same scopes are equal, so the sets of scopes say what the masks do |
| `Client.SegmentationIndependent` | src/client.c:179-208 | two connections that have received the same bytes, however cut, hold the same frames and the same remainder |
| `Client.FramesOfStream` | src/client.c:179-208 | an open connection has exactly the frames of what it has received |
| `Client.DeliveredInOrder` | src/client.c:2140-2191 | the state events delivered and queued are those of the stream, in wire order, none lost and none twice |
| `Numerals.DecimalExact` | src/kwin_envelope.c:56-76 | a token is read as v if and only if it is the one spelling of v and v is within the limit |
| `Numerals.ParseDecimal` | src/kwin_envelope.c:56-76 | the digit loop with its overflow guard decides that |
| `Numerals.FormatDecimal` | src/kwin_envelope.c:264-284 | the backward digit loop and the reversal print the one spelling |
| `Numerals.HexInjective` | src/kwin_jobs.c:42-52 | fixed-width hexadecimal printing is injective |
| `Numerals.FormatHex` | src/kwin_envelope.c:247-259 | the digit loop prints the fixed-width spelling |
| `Envelope.WordsExact` | src/kwin_envelope.c:30-45 | a line has given words if and only if it is those words with single spaces and perhaps one space more at its end |
| `Envelope.ItemExact` | src/kwin_envelope.c:106-240 | words say an item if and only if they are its own words and its fields are within their limits |
| `Envelope.ParseExact` | src/kwin_envelope.c:106-240 | a poll or report is accepted as a message if and only if it is the magic line, lines for the fields gathered, in any order and each at most once, a line end, and the bodies, the header within 8192 bytes |
| `Envelope.ReportShape` | src/kwin_envelope.c:172-240 | an accepted report has 1 to 9 entries, each with its own body of the declared length, within 4 MiB in all |
| `Envelope.SlicesCover` | src/kwin_envelope.c:196-210 | the bodies are consecutive, in order, and exactly cover the bytes behind the header |
| `Envelope.ReportRoundTrip` | src/kwin_envelope.c:172-240 | every report within the limits is read back from its canonical form |
| `Envelope.PollRoundTrip` | src/kwin_envelope.c:106-170 | every poll within the limits is read back from its canonical form |
| `Envelope.ReplyRoundTrip` | src/kwin_envelope.c:314-372 | a poll reply obeys the rules the parsers enforce: read by the same grammar it gives back its jobs and bodies |
| `Envelope.ReplyFits` | src/kwin_envelope.c:314-372 | the length of a reply is bounded by its jobs and the size of their bodies |
| `EnvelopeText.ParseReport` | src/kwin_envelope.c:172-240 | the scanning loop decides the specified grammar for reports |
| `EnvelopeText.ParsePoll` | src/kwin_envelope.c:106-170 | the scanning loop decides the specified grammar for polls |
| `EnvelopeText.FormatPollReply` | src/kwin_envelope.c:314-372 | the serialiser writes the specified text exactly when names, batch size and buffer allow it |
| `JobQueue.RunSound` | src/kwin_jobs.c:101-201 | over every run of fewer than 2^64 submissions: occupied slots have distinct tickets that their sequences spell, each lane is handed out in strictly increasing ticket order, nothing is handed out twice, finished twice or finished before it was handed out, and what expires was never handed out |
| `JobQueue.TakeBatch` | src/kwin_jobs.c:152-183 | a batch is no longer than its limit, of one lane, recorded as sent, and stops short only when the lane is empty |
| `JobQueue.ReportAllOrNothing` | src/kwin_jobs.c:251-277 | a report is applied whole or not at all if and only if it fails the first check or names no job twice |
| `JobQueue.TwiceNamed` | src/kwin_jobs.c:261-275 | counterexample: a report naming one dispatched job twice finishes that job and is then refused |
| `JobQueue.ReportAnswers` | src/kwin_jobs.c:251-303 | an accepted report answers each job it names with its own status and body, and no other job |
| `JobQueue.ExpireExact` | src/kwin_jobs.c:351-370 | expiry frees exactly the queued jobs past their deadline and records them as dropped; a dispatched job is never touched |
| `JobQueue.ReleaseExact` | src/kwin_jobs.c:402-416 | releasing frees the slot of the sequence, in whatever state it is, and nothing else |
| `JobQueue.IssuedOnce` | src/kwin_jobs.c:101-150 | a sequence issued is never issued again, whatever happens in between |
| `JobQueue.ApplySound` | src/kwin_jobs.c:101-416 | every operation of the queue keeps all of the above |
| `JobTable.Queue.Submit` | src/kwin_jobs.c:101-150 | the scan for a free slot and the new job, in place |
| `JobTable.Queue.Take` | src/kwin_jobs.c:152-183 | the nested scans take the oldest jobs of the lane, in place |
| `JobTable.Queue.Complete` | src/kwin_jobs.c:310-349 | one dispatched job is finished, or nothing changes |
| `JobTable.Queue.Report` | src/kwin_jobs.c:251-277 | the two passes over a report, in place |
| `JobTable.Queue.Release` | src/kwin_jobs.c:402-416 | the slot of the sequence is freed in whatever state it is |
| `JobTable.Queue.Expire` | src/kwin_jobs.c:351-370 | the scan over the table, in place |
| `JobTable.Queue.Result` | src/kwin_jobs.c:287-303 | the answer of a finished job |
| `JobTable.Queue.CountPhase` | src/kwin_jobs.c:372-384 | the number of jobs in a state |
| `JobTable.CountIsNumber` | src/kwin_jobs.c:372-384 | and that is how many slots are in it |
| `Bus.RunAgreed` | src/kwin_bus.c:181-353 | after any sequence of callbacks: waiting requests and occupied slots correspond one to one by sequence; each request received is waiting or was answered once; a lane with a parked poll has nothing queued; every job marked dispatched was in a reply; every call of the script is parked or was completed once |
| `BusHistory.AnswersTold` | src/kwin_bus.c:132-198 | over every run, the answer to a request that became a job passes on the status and body that a report taken up gave that job (a failure as it is, a success with its translation, or INTERNAL if there is none that fits), and the answer to one that did not refuses it, as malformed or as BUSY |
| `BusHistory.AppliedOnce` | src/kwin_jobs.c:251-277 | over every run no job is given two results: the report and the entry it comes from are the only ones that apply to it |
| `BusHistory.RepliesCarry` | src/kwin_jobs.c:185-207 | over every run, each job in a poll reply, read back, has the sequence of its request's ticket, that request's operation, text and lane, and the time left of two seconds from its arrival |
| `BusHistory.RunAddressed` | src/kwin_bus.c:217-353 | over every run, a reply with jobs or without goes to a good poll of this session, of the lane that poll was for, and says to come back after eight seconds exactly if it has no job |
| `BusHistory.RunRecorded` | src/kwin_bus.c:132-198 | what these rest on is kept by every callback |
| `BusProgress.TakenInExactly` | src/kwin_bus.c:648-725 | a request becomes a job exactly when it is well formed and fewer than 128 are waiting |
| `BusProgress.PollExactly` | src/kwin_bus.c:318-353 | a poll is refused exactly if it is no good one of this session; a good one is answered at once with jobs exactly if its lane has one queued, and is parked otherwise, the one parked there before being answered without |
| `BusProgress.ReportDrains` | src/kwin_bus.c:181-198 | an accepted report leaves exactly those requests waiting whose jobs have not been reported |
| `BusProgress.ReportAnswersAll` | src/kwin_bus.c:300-310 | every request whose job an accepted report names is answered in the same callback |
| `RequestWords.TextReads` | src/kwin_bus.c:481-547 | every request an operation takes becomes a text from which the script, splitting at spaces, reads its handle, x, y, width, height or value, in that order and with their signs |
| `RequestWords.OnlyAsks` | src/kwin_bus.c:481-547 | no other payload becomes a text |
| `Bus.RequestTextShort` | src/kwin_bus.c:481-547 | every request text is at most 66 bytes, so it fits its 160-byte buffer |
| `Bus.ReplyWritten` | src/kwin_jobs.c:209-249 | a batch of a lane with bodies under 160 bytes always fits the 65536-byte reply, so no job is marked dispatched without being sent |
| `Bus.ReadableAgreed` | src/kwin_bus.c:648-725 | taking in a relayed request keeps the agreement |
| `Bus.DrainAgreed` | src/kwin_bus.c:181-198 | answering finished jobs keeps the agreement, one answer each |
| `Bus.PollAgreed` | src/kwin_bus.c:318-353 | a poll, answered, parked or replacing a parked one, keeps the agreement |
| `Bus.ReportAgreed` | src/kwin_bus.c:300-310 | a report, accepted or refused, keeps the agreement |
| `BusObject.Channel.RelayReadable` | src/kwin_bus.c:648-725 | the callback on the tables in place moves the daemon as the run model does |
| `BusObject.Channel.RelayDrain` | src/kwin_bus.c:181-198 | the loop over the waiting requests, in place |
| `BusObject.Channel.ReleasePark` | src/kwin_bus.c:217-244 | the one path that ends a park, in place |
| `BusObject.Channel.Poll` | src/kwin_bus.c:318-353 | the Poll branch, in place |
| `BusObject.Channel.Report` | src/kwin_bus.c:300-310 | the Report branch, in place |
| `Relay.NextSound` | src/kwin_relay.c:118-408 | every step of every thread keeps what the following rows promise |
| `Relay.Demultiplexed` | src/kwin_relay.c:195-232 | under every interleaving an answered call returns the first response of its own id read since it began, and no other call ever has that id |
| `RelayReturns.ReturnsExactly` | src/kwin_relay.c:342-408 | from every reachable state: a call returns only at a turn of its own, and then the first response of its id read since it began if there is one, and otherwise BUSY or TIMEOUT as its write was not, or was, begun; never UNAVAILABLE |
| `RelayReturns.ReturnsWhen` | src/kwin_relay.c:342-369 | at its turn a call returns exactly if its answer has been read, its write failed, its time is up or the channel is broken |
| `RelayReturns.BeginsExactly` | src/kwin_relay.c:281-308 | a call is refused with UNAVAILABLE exactly on a broken channel, with BUSY exactly when it is whole and all slots are taken, and otherwise lives under an id no call has had |
| `RelayReturns.WritesExactly` | src/kwin_relay.c:318-339 | a call that asks to write waits exactly while another writes on a whole channel, becomes the writer exactly if there is none, the channel is whole and there is time, and goes on unsent otherwise |
| `RelayReturns.ReadsExactly` | src/kwin_relay.c:342-369 | a turn that does not return makes the call the reader if there is none, and otherwise has it wait for the one at work |
| `RelayReturns.SlotsGivenBack` | src/kwin_relay.c:288-304 | over every interleaving a slot in use is a live call's, under that call's id, so what a call took it gave back when it returned |
| `RelayReturns.CallAnswered` | src/kwin_relay.c:268-408 | any request and any plain response of its id: there is a run in which the call, alone on a whole channel, writes the one, reads the other and returns it |
| `Relay.IdsDistinct` | src/kwin_relay.c:288-308 | the ids in use are distinct and below the next to be issued |
| `Relay.HandHolding` | src/kwin_relay.c:195-232 | a response goes to the live call of its id that has had none, and changes no other call's slot |
| `Relay.OneOfEach` | src/kwin_relay.c:318-364 | at most one thread writes and at most one reads |
| `Relay.OutputFramed` | src/kwin_relay.c:318-339 | what was sent is whole frames and at most one more, and just whole frames when nobody writes and the channel is not broken |
| `Relay.InputAtBoundary` | src/kwin_relay.c:142-247 | with nobody reading and the channel not broken, what was read is whole frames |
| `Relay.BrokenStays` | src/kwin_relay.c:318-339 | a broken channel stays broken and no write begins on it |
| `Relay.NotStranded` | src/kwin_relay.c:318-369 | a thread blocked without a wakeup waits for a writer, or a reader, that is at work on a channel that is not broken |
| `Relay.WakesAll` | src/kwin_relay.c:118-136 | the end of a write, the end of a read and the retirement leave no waiter asleep |
| `Relay.OnlyThese` | src/kwin_relay.c:318-369 | no other step ends a write or a read or breaks the channel |
| `Relay.BusyUnsent` | src/kwin_relay.c:294-301 | a call told BUSY never had a byte of its request sent |
| `Relay.AttemptedTimesOut` | src/kwin_relay.c:396-408 | a call whose write was attempted is answered or times out, and is never told BUSY by the relay |
| `Relay.FindVacant` | src/kwin_relay.c:288-293 | the search for a free slot |
| `Relay.StoreAnswer` | src/kwin_relay.c:195-232 | the search for the slot of a response, and the answer stored in it alone |
| `BusyHonesty.BusyIsHonest` | src/kwin_relay.c:396-408 | end to end, over every run of authority, relay and daemon joined by their socket: a caller told BUSY, by the authority's count, by the relay or in an answer, has no request that became a job, unless the script itself reported BUSY for it |
| `BusyHonesty.EveryRequestOwned` | src/authorityd.c:2474-2480 | every request the daemon has received is exactly one caller's, so a caller the authority refused has none |
| `BusyHonesty.HandedOutIsAsked` | src/kwin_bus.c:698-725 | every job in a poll reply is the job of exactly one request |
| `BusyHonesty.ResponsesAreAnswers` | src/kwin_bus.c:132-177 | the responses the relay has read are the first answers the daemon gave |
| `AnswerHonesty.AnswerIsScripts` | src/kwin_bus.c:132-198 | end to end, over every run of authority, relay and daemon: a call that is answered has the daemon's answer to the very operation and payload it asked with, and that is what the script reported of the job it became, or a refusal without one |
| `AnswerHonesty.RequestIsCalls` | src/kwin_relay.c:310-318 | the request the daemon received under a call's id is the one that call made |
| `RelayRefs.CountIsHolders` | src/authorityd.c:622-857 | over every interleaving of registering, unregistering, snapshots, spawning, reuse, forgetting and release, a relay's count is the registry fields and threads that hold it, it is retired at most once, and it is freed exactly at zero |
| `RelayRefs.NeverDangling` | src/kwin_relay.c:84-136 | whatever a thread or the registry holds has not been freed |
| `RelayRefs.ReleaseEnabled` | src/kwin_relay.c:93-103 | a thread that holds a reference can always release it: the count is not zero |
| `RelayRefs.FieldsAreHome` | src/authorityd.c:834-857 | over every interleaving, whoever looks in a slot finds only relays made for the registration it has now, however long a worker took to start and whoever registered in between |
| `RelayRefs.PublishExactly` | src/authorityd.c:834-857 | a worker that was spawned is installed exactly if its registration is still there and nobody was faster; the thread then holds what the field holds, and retires what was not installed |
| `RelayRefs.ForgetExactly` | src/authorityd.c:754-780 | forgetting a relay empties the slot's display fields of it, and of nothing else |
| `RelayRefs.PublishSound` | src/authorityd.c:834-857 | publishing a spawned worker, losing the race and finding the registration gone all keep the counts |
| `RelayRefs.ForgetSound` | src/authorityd.c:754-780 | taking a failed worker out of its slot keeps the counts |
| `RelayRefs.UnregisterSound` | src/authorityd.c:622-652 | ending a registration keeps the counts |
| `Budget.FoundTally` | src/authorityd.c:204-215 | the count read from the slot that is found is the number of holders of the key, and no slot is found only with 128 holders |
| `Budget.AddedRecords` | src/authorityd.c:217-221 | recording one more holder keeps the table exact and keys unique |
| `Budget.ReleasedRecords` | src/authorityd.c:223-229 | releasing a holder keeps the table exact and keys unique |
| `Budget.PoolLimits` | src/authorityd.c:2898-2946 | over every run the worker counter is the number of connections and the sum of the table, and kept ordinary connections never exceed 120 in all or 32 of a uid |
| `Budget.RegistrationAdmitted` | src/worker_pool.c:3-32 | a connection is turned away if and only if all 128 slots are taken, and a registration always keeps its slot |
| `Budget.AcceptsExactly` | src/worker_pool.c:3-32 | over every run a connection is taken in on a general slot exactly while fewer than 120 are there and fewer than 32 of its uid, and on a reserved one otherwise |
| `Budget.KeepsExactly` | src/authorityd.c:2898-2917 | a registration is always kept, anything else exactly on a general slot, and is closed otherwise |
| `Budget.ReserveSound` | src/authorityd.c:2143-2223 | an assembly, or a KWin request, is admitted exactly while the bytes and the count of its key allow it |
| `Budget.CaptureLimits` | src/authorityd.c:2175-2207 | over every run at most 4 captures are held, 2 of a uid and 1 of a process, and the bytes and tables are theirs |
| `Budget.SecondUserCaptures` | src/authorityd.c:2175-2196 | a uid below its own cap is refused by the global limit only while at least two other uids hold captures |
| `Budget.ReserveCaptureSound` | src/authorityd.c:2175-2196 | a capture is reserved if and only if fewer than four are held and neither the uid nor the process is at its cap |
| `Budget.QuotaLimits` | src/authorityd.c:2143-2232 | over every run at most 16 requests are assembled, 4 of a uid, and at most 4 KWin requests of a process are under way |
| `Budget.UsageTable.FindSlot` | src/authorityd.c:204-215 | the scan of the table |
| `Budget.UsageTable.Return` | src/authorityd.c:223-229 | the release, in place |
| `Budget.WorkerPool.ReserveWorker` | src/authorityd.c:2931-2946 | admission as specified by the counts, in place |
| `Budget.WorkerPool.Leave` | src/authorityd.c:2920-2926 | the end of a connection, in place |
| `Budget.CaptureBudget.ReserveMemory` | src/authorityd.c:2175-2196 | the reservation, in place |
| `Budget.CaptureBudget.ReleaseMemory` | src/authorityd.c:2198-2207 | the release, in place |
| `Budget.UsageTable.Admit` | src/authorityd.c:2143-2154 | one more holder of a key below its cap, in place |
| `Budget.QuotaBudget.ReserveFor` | src/authorityd.c:2209-2223 | the reservation of an assembly, or of a KWin request, in place |
| `Budget.QuotaBudget.ReleaseBy` | src/authorityd.c:2225-2232 | its release by a holder, in place |
| `Grants.GrantContinuity` | src/authorityd.c:2427-2432 | for any interleaving with revocations and other sessions, a scoped operation passes its second check only if the store has not changed since the first and grants the whole scope |
| `Grants.UnchangedPasses` | src/authorityd.c:2564-2567 | the converse: while the store does not change and nothing fails, no refresh or authorization by other sessions makes the operation fail |
| `Grants.CacheExactly` | src/authorityd.c:1312-1348 | over every run of a new lease: while it is active it holds exactly what the store gave of all that was ever asked for, at the generation it notes, unless a refresh failed and nothing has been asked for again since; then it holds nothing |
| `Grants.StarvedThoughGiven` | src/authorityd.c:1319-1332 | counterexample: one identity check that fails leaves the lease with nothing however often it refreshes, although the store never changed and still gives it all |
| `Grants.RefreshesExactly` | src/authorityd.c:1312-1348 | a refresh in which nothing fails leaves what the store gives now of what was asked for if the generation moved, and what was there otherwise; one in which something fails leaves nothing; the session has what the lease has |
| `Grants.AuthorizesExactly` | src/authorityd.c:1739-1770 | completing an authorization leaves what the store gives now of all that was ever asked for, or an ended lease |
| `Grants.BeginsExactly` | src/authorityd.c:2427-2432 | an operation is admitted exactly when nothing fails and its scope is among what the refresh leaves |
| `Grants.RunSound` | src/authorityd.c:1312-1348 | over every run cached grants are among those the store gave at the generation they are cached under, for the lease and for every session |
| `Grants.CachesBacked` | src/authorityd.c:1232-1252 | over every run of a new lease, what it and its sessions cache is what the store gave at the generation they note |
| `Grants.RefreshSound` | src/authorityd.c:1312-1348 | a refresh, whatever fails in it, keeps the cache backed and never moves the generation back |
| `Grants.AuthorizeSound` | src/authorityd.c:1739-1770 | so does completing an authorization |
| `Grants.LeaseRecord.Refresh` | src/authorityd.c:1312-1348 | the refresh of the record in place leaves exactly that, and revokes exactly what was held and is no longer |
| `Grants.LeaseRecord.CompleteAuthorization` | src/authorityd.c:1739-1770 | the completion on the record in place leaves exactly that, and says whether each scope just asked for is granted |

## Left out

- The clipboard, keyboard, display and grant domains of the lease: their events are passed through without a list behind them.
- `ksd_state_window_json`, `field` and `number`: the reading of window records out of JSON objects; spans and strings are modelled, the lookup of named members is not.
- Blocking reads of the RPC role, descriptors passed with frames, memfd seals and mapped captures.
- Sockets, poll, timers and clocks: receives, deadlines and failures are arbitrary choices; real-time bounds are not stated.
- Allocation failure, except where it is a refusal the code returns.
- `queue->parked` in `src/kwin_jobs.c`: only its tests read it; parking is stated over the bus.
- `ksd_kwin_response_payload`: the translation of a script's body is an arbitrary function of opcode and body; the status it leads to is modelled.
- `relay_failed` in `src/kwin_bus.c`: a failed transfer ends the daemon, so runs are those up to that point.
- Hello, Event and the check of the caller's name in `handle_call`: they answer without touching the queue.
- Sessions without a lease in `session_refresh`, consent dialogs, identity and the permission store itself.
- The view of an X11 child window that `x11_child_sync` puts in place of the lease's list, and the wait and the refresh requests of `operation_sync`: the decision at its end is modelled.
- The unpacking of a relayed answer into an operation result at the end of `ksd_kwin_relay_call`: a call returns the response frame.
- Process spawning, capture workers, pixel conversion, portal capture, provider calls and installation mode.
- Client.CacheExactly: the connection starts behind HELLO, so the scopes of the HELLO reply are an arbitrary initial value; a reply to an authorization request, which also sets the cached scopes, is read like any other reply and does not.
- Relay.Demultiplexed: a response that carries a descriptor is a frame like any other; the descriptor itself is not modelled.
- Grants.GrantContinuity: is about scoped operations; an operation without a scope is checked only for a successful refresh.
