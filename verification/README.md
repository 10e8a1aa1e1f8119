# Liaison: verified models of the hard parts

Liaison exposes services behind an edge connector: an AI gateway that translates
between chat protocols, native database and HTTP entries, an SSH gateway that
audits commands, a cache client, a network scanner, and a desktop client that
supervises the edge process. This project models the parts of it whose
correctness is not visible from reading one function, and proves what they
promise over every input, every stream, every pattern of failures and every
interleaving.

`dafny verify dfyconfig.toml` checks the whole project (Dafny 4.11).

## How the project is laid out

| files | what they model |
|---|---|
| `Json`, `Streams`, `Folds` | parsed JSON and Go's decoding rules; usage records, `emit` and outcomes; where a fallible loop can stop |
| `Relay`, `RelayTheorems`, `StreamAgreement` | `RelaySSE` and `RewriteJSON`: no invented success, the exact language of complete streams, streaming agrees with non-streaming |
| `Framing` | both relays' event framing against the standard |
| `EventShapes` | what a JSON object must hold to be an event, and that the decoders read exactly that |
| `NativeRelay` | `RelayMessagesSSE`: an exact transducer with exact token sums |
| `Ollama` | record streams against the single-record rewrite |
| `Prepare` | model scopes and request translation |
| `Steps` | runs of a step system and what every run keeps |
| `DbGateway`, `HttpShutdown` | listener lifecycle and session slots; connection tracking against `stop` |
| `Registry`, `Supervisor`, `Traffic` | session generations; the edge supervisor; byte conservation across two layers |
| `Text`, `PromptWindow`, `Terminal` | UTF-8 and trimming; the bounded prompt window; the one-pass command collector |
| `Decimals`, `Memcached`, `DestinationFrame`, `Cidr`, `Maps` | byte-level codecs and CIDR enumeration; iteration over maps |

Code that changes state is a class or a method with loops, proved against a
specification function of the old state, and the theorems are about those
functions. Concurrent components are step systems: one step per locked region,
channel operation or atomic operation, a run is any sequence of steps, and every
invariant is proved for every run. The methods of such a component share the
functions of its locked regions with the step system. The contracts of the
gateway, the HTTP proxy and the supervisor handle state that their methods take
its steps; those of the metered connection state that no byte is lost, and those
of the accumulator give the functions the steps use.
The caller's `emit` is a function from the number of delivered frames to whether
the next one is taken, which ranges over all failure patterns. A stream is the
sequence of lines its scanner yields and how the scan ends.

## Where a plausible property is false of the code

- **CIDR enumeration can stop early.** A 16-byte block that holds the IPv4-mapped
  range in its midst is left at `::ffff:0:0`, because `IPNet.Contains` shortens
  mapped addresses to four bytes. `Cidr.WholeBlockIsListed` proves that the loop ends
  with every address of the block that the skip rule keeps listed if and only if the
  block does not hold that range and is not all of IPv4, and `Cidr.MappedHalfIsMissed` gives the block
  `::fffe:0:0/95`.
- **The enumeration need not end.** `Cidr.ExitsExactly` proves that the loop exits if
  and only if the network is not IPv4 with prefix length zero.
- **Streaming and non-streaming usage can differ.** A counter reported validly and
  later overlaid by a malformed report keeps its value in a stream and is unknown
  in the merged message; `StreamAgreement.StreamAgreesWithMessage` proves that usage
  agrees if and only if no counter is spoiled that way, and
  `StreamAgreement.SpoiledCounter` gives two such reports.
- **Generations are 64 bits wide.** The generations of an id strictly increase if and
  only if it was registered fewer than 2^64 times
  (`Registry.GenerationsIncreaseExactly`). The registry stays exact if and only if no
  stale closure runs while it carries the live registration's generation
  (`Registry.HistoryIsExact`), which is possible first with 2^64 + 1 registrations:
  every history with at most n registrations is exact if and only if n is at most
  2^64 (`Registry.BoundIsExact`).
- **A destination of 2^32 bytes or more is truncated in its header**:
  `DestinationFrame.FrameRoundTrip` is an if-and-only-if. The two writers that
  ignore the count of a write send a whole frame exactly when both writes took
  everything (`DestinationFrame.WriteFrameInTwo`).
- **Event framing differs from section 9.2.6 of the WHATWG HTML Living Standard.**
  For a block of lines within the frame limit, the text of the relay's frame is the
  standard's data if and only if the block has at most one data line, or its first
  value is not empty and no line is the bare word `data` (`Framing.FramingIsStandard`);
  the native relay's is that data with a newline behind it if and only if no line is
  the bare word and none has a space behind its colon
  (`Framing.NativeFramingIsStandard`). The relay does not see an event whose data
  trims to nothing: it sees the standard's event if and only if there is none, or its
  data does not trim to nothing and nothing was dropped from it
  (`Framing.EventIsStandard`). On an event whose data is the empty string the relay
  goes on (`Framing.RelaySkipsEmptyData`), and the native relay fails if and only if
  the event has a `data:` line and goes on when it is a bare word
  (`Framing.NativeOnEmptyData`).

## Model

| member | source | states |
|---|---|---|
| Streams.ObserveUsage | pkg/liaison/manager/aigateway/codec.go:169-185 | each counter is replaced only by a present, non-negative int64 of the protocol's own field; anything else leaves it as it was, never zero |
| Streams.Sink.Emit | pkg/liaison/manager/aigateway/codec.go:264-270 | a frame is appended when the callback accepts it and nothing changes when it fails |
| Relay.RelayRun.SendChunk | pkg/liaison/manager/aigateway/codec.go:264-270 | a chunk carries the current id and the alias; a failed emit is returned and delivers nothing |
| Relay.RelayRun.FinishStream | pkg/liaison/manager/aigateway/codec.go:370-374 | usage is complete only after the final mark was taken |
| Relay.RelayRun.DispatchOpenAi | pkg/liaison/manager/aigateway/codec.go:276-306 | refines the specified dispatch of an OpenAI-compatible frame, error paths and usage included |
| Relay.RelayRun.DispatchAnthropic | pkg/liaison/manager/aigateway/codec.go:307-377 | refines the specified translation of one decoded Anthropic event |
| Relay.RelayRun.DispatchFrame | pkg/liaison/manager/aigateway/codec.go:271-378 | refines the specified dispatch; a blank frame does nothing |
| Relay.RelaySse | pkg/liaison/manager/aigateway/codec.go:254-405 | the scan loop gives the outcome, usage and delivered frames of the specification, for any starting usage, on every line sequence and emit pattern |
| Relay.RewriteJson | pkg/liaison/manager/aigateway/codec.go:198-249 | a whole Anthropic message becomes the completion of its concatenated text blocks, or is refused with the usage seen so far |
| RelayTheorems.ScanDispatchesFrames | pkg/liaison/manager/aigateway/codec.go:379-404 | scanning line by line is cutting the stream into frames first and dispatching each, stopping at the first error or completion |
| RelayTheorems.UnfinishedFrameIsDropped | pkg/liaison/manager/aigateway/codec.go:379-404 | lines after the last blank line never become a frame, whatever they hold |
| Framing.DataLines | pkg/liaison/manager/aigateway/codec.go:391-395 | the standard reads data from exactly the lines the relay buffers, with the same value, and from the bare word `data` besides |
| Framing.BlockIsOneFrame | pkg/liaison/manager/aigateway/codec.go:379-399 | a block of lines ended by a blank one becomes exactly one frame, before what follows is framed, unless some prefix outgrows the limit, which ends the framing |
| Framing.FramingIsStandard | pkg/liaison/manager/aigateway/codec.go:379-399 | the text of that frame is the standard's data iff at most one data line, or a non-empty first value and no bare `data` line |
| Framing.NativeBlockIsOneFrame | pkg/liaison/manager/aigateway/anthropic_native.go:176-193 | the same for the native relay and its own size test |
| Framing.NativeFramingIsStandard | pkg/liaison/manager/aigateway/anthropic_native.go:186-191 | its frame is the standard's data with a newline iff no bare `data` line and no space behind a colon |
| Framing.BlockIsDispatched | pkg/liaison/manager/aigateway/codec.go:271-275 | scanning a block that fits dispatches its one frame and goes on with the rest; a frame that trims to nothing changes nothing |
| Framing.EventIsStandard | pkg/liaison/manager/aigateway/codec.go:271-275 | the relay sees the standard's event iff there is none, or its data does not trim to nothing and no empty or bare line was dropped |
| Framing.RelaySkipsEmptyData | pkg/liaison/manager/aigateway/codec.go:272-275 | on every block without data or with the empty string as data the relay goes on with the rest, in every open state |
| Framing.NativeOnEmptyData | pkg/liaison/manager/aigateway/anthropic_native.go:110-117 | on every such block the native relay fails iff some line begins with `data:`, and else goes on |
| EventShapes.DecodedExactly | pkg/liaison/manager/aigateway/codec.go:311-377 | an object is decoded as an event iff its members are those of that event: type, id, text, stop reason and usage |
| EventShapes.EventRoundTrip | pkg/liaison/manager/aigateway/codec.go:311-377 | every event is read back from what the protocol writes for it |
| EventShapes.StreamIsRead | pkg/liaison/manager/aigateway/codec.go:271-377 | a stream whose frames hold events, blank ones between them, is that sequence of events to the relay |
| EventShapes.MessageRead | pkg/liaison/manager/aigateway/codec.go:220-237 | a message of text blocks is decoded to its id, its stop reason and its texts in order |
| EventShapes.FinishReasonTable | pkg/liaison/manager/aigateway/codec.go:186-197 | which stop reason becomes which finish reason; any other is refused |
| EventShapes.CounterIsSet | pkg/liaison/manager/aigateway/codec.go:169-185 | a report sets a counter iff it has it as an integer from 0 to 2^63 - 1 |
| EventShapes.NativeKinds | pkg/liaison/manager/aigateway/anthropic_native.go:118-163 | the kind of a native event is its type, and it is delivered under that name |
| EventShapes.NativeEnds | pkg/liaison/manager/aigateway/anthropic_native.go:141-153 | an event ends the content iff it is a message_delta whose delta has a non-empty stop reason |
| EventShapes.NativeDeltaRead | pkg/liaison/manager/aigateway/anthropic_native.go:145-150 | which deltas are refused |
| EventShapes.NativeMessageRead | pkg/liaison/manager/aigateway/anthropic_native.go:91-95 | a message is an assistant's, with a non-empty id and a list as its content |
| RelayTheorems.EventIsHonest | pkg/liaison/manager/aigateway/codec.go:315-377 | one Anthropic event keeps "a final mark exists iff complete, once and last" |
| RelayTheorems.DispatchIsHonest | pkg/liaison/manager/aigateway/codec.go:271-378 | one frame of either protocol keeps that invariant, and completing implies success |
| RelayTheorems.NoInventedSuccess | pkg/liaison/manager/aigateway/codec.go:251-405 | for all lines, endings and emit failures: nil is returned iff usage is complete iff exactly one final mark was delivered, and it is the last frame |
| RelayTheorems.CompletionIsReached | pkg/liaison/manager/aigateway/codec.go:379-404 | success means that some prefix of the frames reaches a complete state, that state is the final one, and what was delivered is always that of a dispatched prefix |
| RelayTheorems.OpenAiReach | pkg/liaison/manager/aigateway/codec.go:276-306 | a prefix of frames is taken iff it is blank frames and chunks with at most one final mark, last and after a chunk, and the client takes every frame |
| RelayTheorems.OpenAiUsage | pkg/liaison/manager/aigateway/codec.go:287-296 | after any frames taken, each counter is the last valid one their chunks report |
| RelayTheorems.OpenAiStreamExact | pkg/liaison/manager/aigateway/codec.go:251-405 | an OpenAI-compatible stream succeeds iff it begins with a whole stream, with the usage its chunks last report; delivered are the upstream chunks in order with only the model replaced, also when it fails |
| RelayTheorems.OpenAiUsageOfEveryRun | pkg/liaison/manager/aigateway/codec.go:287-296 | for every run, failed ones included: each counter is the last valid one of the chunks taken, or what the frame it failed on reports |
| RelayTheorems.ApplyEventExact | pkg/liaison/manager/aigateway/codec.go:315-377 | an event is taken iff the grammar allows it there and the client takes its frames; flags, id, usage and output then follow from the event sequence |
| RelayTheorems.AnthropicReach | pkg/liaison/manager/aigateway/codec.go:307-378 | a prefix of frames is taken iff its events are orderly and accepted, and the state is the one the events determine |
| StreamAgreement.AnthropicStreamExact | pkg/liaison/manager/aigateway/codec.go:254-405 | an Anthropic stream succeeds iff it begins with an orderly event sequence ended by message_stop; delivered is the translation of the dispatched events |
| StreamAgreement.CompletionNeedsStartAndReason | pkg/liaison/manager/aigateway/codec.go:318-374 | completion needs a message_start, later a message_delta with an accepted stop reason, later message_stop |
| StreamAgreement.ChunksCarryIdAndAlias | pkg/liaison/manager/aigateway/codec.go:264-270 | every delivered chunk carries the id of message_start and the alias, and nothing is delivered before a start |
| StreamAgreement.AssembledFromEvents | pkg/liaison/manager/aigateway/codec.go:315-377 | a client that puts the chunks together has the text of the blocks, the last accepted reason, the id and the alias |
| StreamAgreement.MergedUsage | pkg/liaison/manager/aigateway/codec.go:169-185 | observing reports one after the other equals observing their overlay, iff no valid counter is spoiled by a later mention |
| StreamAgreement.SpoiledCounter | pkg/liaison/manager/aigateway/codec.go:178-184 | a concrete pair of reports for which the two differ |
| StreamAgreement.StreamAgreesWithMessage | pkg/liaison/manager/aigateway/codec.go:198-405 | every completed stream assembles to `RewriteJSON` of the message it carries; the usage agrees iff its counters are settled |
| StreamAgreement.EverySplitAgrees | pkg/liaison/manager/aigateway/codec.go:198-405 | for every text message and every stream whose frames hold it as JSON, its text split anyhow into block starts and deltas with pings interleaved: the client has exactly the message's id, text and finish reason under the alias, and so has the rewrite of the message; the usage agrees iff the message's counters are the last the stream reports |
| StreamAgreement.CompletionTotals | pkg/liaison/manager/aigateway/codec.go:243-245 | a completion states both counters and their sum iff both are known; the sum is exact below 2^63 and wraps around by 2^64 else |
| NativeRelay.NativeUsage | pkg/liaison/manager/aigateway/anthropic_native.go:202-235 | the loop accounts a report as specified: all counters valid and the sum within int64, else refused |
| NativeRelay.AccountExact | pkg/liaison/manager/aigateway/anthropic_native.go:200-235 | a report is accepted iff it is well formed; input becomes the exact sum of the three counters when input_tokens is present and is untouched otherwise |
| NativeRelay.NativeMessage | pkg/liaison/manager/aigateway/anthropic_native.go:86-101 | a message is accepted iff it is an assistant message with an id and a content list and good usage; only its model is replaced |
| NativeRelay.NativeRun.DispatchFrame | pkg/liaison/manager/aigateway/anthropic_native.go:110-175 | refines the specified dispatch of a native event |
| NativeRelay.RelayMessagesSse | pkg/liaison/manager/aigateway/anthropic_native.go:105-198 | the scan loop gives the specified outcome, usage and delivered events |
| NativeRelay.ScanDispatchesFrames | pkg/liaison/manager/aigateway/anthropic_native.go:176-197 | scanning is framing followed by dispatching each frame |
| NativeRelay.ApplyExact | pkg/liaison/manager/aigateway/anthropic_native.go:122-174 | one event is taken iff the grammar allows it there and the client accepts; it is then delivered and accounted exactly |
| NativeRelay.AfterExact | pkg/liaison/manager/aigateway/anthropic_native.go:110-193 | a prefix of frames is taken iff its events are orderly and accepted, and the state is the one the events determine |
| NativeRelay.WholeStreamSucceeds | pkg/liaison/manager/aigateway/anthropic_native.go:103-198 | on every stream of the grammar the relay succeeds, has delivered its events in order with only message_start's model replaced, and has accounted the last input sum and the last output |
| NativeRelay.OnlyWholeStreamsSucceed | pkg/liaison/manager/aigateway/anthropic_native.go:103-198 | success, or complete usage, implies that the frames begin with a stream of the grammar |
| NativeRelay.UsageIsNeverGuessed | pkg/liaison/manager/aigateway/anthropic_native.go:200-235 | however a run ends, a known counter is what some upstream frame reports, input the exact sum of its three counters, within int64; what nobody reports stays unknown |
| NativeRelay.UsageOfEveryRun | pkg/liaison/manager/aigateway/anthropic_native.go:200-235 | for every run, failed ones included: each counter is the last that the events taken report, or what the frame it failed on reports |
| NativeRelay.NativeStreamExact | pkg/liaison/manager/aigateway/anthropic_native.go:103-198 | success iff complete iff the frames begin with a stream of the grammar the client takes |
| Ollama.OllamaPayload | pkg/liaison/manager/aigateway/ollama.go:114-141 | the payload of a record, usage replaced only by a done record, refused when the token total would overflow |
| Ollama.RewriteOllamaJson | pkg/liaison/manager/aigateway/ollama.go:142-157 | one done record becomes a completion; anything else is refused and usage is incomplete |
| Ollama.RelayLine | pkg/liaison/manager/aigateway/ollama.go:170-191 | one line refines the specified step, both emits and every error included |
| Ollama.RelayOllama | pkg/liaison/manager/aigateway/ollama.go:161-197 | the loop gives the specified outcome, usage and frames |
| Ollama.AfterExact | pkg/liaison/manager/aigateway/ollama.go:169-192 | a prefix of lines is taken iff its records are well formed, fit and only the last is done, and the client takes every frame |
| Ollama.WholeStreamSucceeds | pkg/liaison/manager/aigateway/ollama.go:159-197 | every stream of that language succeeds with exactly its translation and the last record's counters |
| Ollama.OllamaStreamExact | pkg/liaison/manager/aigateway/ollama.go:159-197 | success iff complete usage iff the lines begin with a whole stream |
| Ollama.ParsedExactly | pkg/liaison/manager/aigateway/ollama.go:98-113 | a line is decoded as a record iff it is an object with the members of that record: model, role, text, thinking, no tools or images, done, an accepted reason, counts from 0 to 2^63 - 1 |
| Ollama.PayloadOfRecord | pkg/liaison/manager/aigateway/ollama.go:114-141 | the payload of a record that fits, member by member |
| Ollama.RecordRoundTrip | pkg/liaison/manager/aigateway/ollama.go:83-113 | a record rendered as a response object parses back to itself |
| Ollama.StreamAgreesWithRecord | pkg/liaison/manager/aigateway/ollama.go:98-197 | every completed record stream assembles to the rewrite of the one record it folds into: id, alias, text, thinking, reason, usage; a delivered total is the exact sum and fits int64 |
| Prepare.ValidModelExactly | pkg/liaison/manager/aigateway/keys.go:29-33 | a model name has 1 to 256 bytes and holds no control or space |
| Prepare.LengthInUtf8 | pkg/liaison/manager/aigateway/keys.go:30 | where its bytes are those of its UTF-8 encoding |
| Prepare.AllowedModels | pkg/liaison/manager/aigateway/keys.go:29-47 | exactly the aliases that are in the scope, mapped, and valid on both sides, each with its own mapping |
| Prepare.BaseExactly | pkg/liaison/manager/aigateway/codec.go:56-72 | what every request needs, in plain JSON: an allowed alias, a boolean stream flag if any, 1 to 1000 messages; and what its alias and flag are |
| Prepare.MessageExactly | pkg/liaison/manager/aigateway/codec.go:96-104 | a chat message is an object of a role and a text and nothing else |
| Prepare.JoinedInOrder | pkg/liaison/manager/aigateway/codec.go:122-124 | system texts are joined in order with an empty line between them |
| Prepare.NumberInExactly | pkg/liaison/manager/aigateway/codec.go:125-133 | which numbers are in bounds |
| Prepare.StopListExactly | pkg/liaison/manager/aigateway/codec.go:141-150 | a stop parameter is one string or a list of them |
| Prepare.AnthropicAccepts | pkg/liaison/manager/aigateway/codec.go:82-150 | an Anthropic request is accepted iff its fields are the seven supported ones within their bounds |
| Prepare.ConvertMessages | pkg/liaison/manager/aigateway/codec.go:92-120 | succeeds iff the messages are system messages followed by turns whose first and last are the user's; gives every text in order |
| Prepare.PrepareAnthropic | pkg/liaison/manager/aigateway/codec.go:82-154 | succeeds iff every field is supported and in bounds; every field of the body is the specified one |
| Prepare.AnthropicBodyIsLossless | pkg/liaison/manager/aigateway/codec.go:121-150 | a reader recovers from the body alone the model, the turns, the joined system text, the stream flag, the sampling fields, the token limit and the stop list of the request; the body holds nothing else |
| Prepare.EqualBodiesAskTheSame | pkg/liaison/manager/aigateway/codec.go:121-150 | requests with equal bodies agree in all of these |
| Prepare.OllamaAccepts | pkg/liaison/manager/aigateway/ollama.go:17-61 | each Ollama request field is accepted iff it is a supported one within its bounds |
| Prepare.ConvertOptions | pkg/liaison/manager/aigateway/ollama.go:16-61 | in whatever order the fields are visited: refused iff some field is unsupported, else exactly the options of the request |
| Prepare.PrepareOllama | pkg/liaison/manager/aigateway/ollama.go:15-81 | succeeds iff fields and messages are supported; the messages pass through unchanged |
| Prepare.OllamaBodyIsLossless | pkg/liaison/manager/aigateway/ollama.go:15-81 | a reader recovers from the body alone the model, messages, stream flag, temperature, top_p, token limit, seed and stop list |
| Prepare.EqualOllamaBodiesAskTheSame | pkg/liaison/manager/aigateway/ollama.go:15-81 | requests with equal bodies agree in all of these |
| Prepare.StreamOptionsAreNotCarried | pkg/liaison/manager/aigateway/ollama.go:49-57 | stream_options is the field that is accepted and leaves no trace in the body |
| Prepare.PrepareRequest | pkg/liaison/manager/aigateway/codec.go:53-160 | exact conditions for denial, refusal and success; the upstream model is the mapping of the named alias; the OpenAI-compatible body differs only in its model |
| Prepare.PrepareForKey | pkg/liaison/manager/controlplane/ai_gateway.go:460 | with the models a key is granted, a request goes out only for an alias in the key's scope, to the model it is mapped to; other aliases are denied |
| Prepare.ModelOnly | pkg/liaison/manager/aigateway/codec.go:73-77 | replacing the model changes nothing else any conversion reads |
| DbGateway.Gateway.ReserveEntry | pkg/entry/dbgateway/gateway.go:58-70 | an entry is reserved only when open and free; takes the create step of every state it shows |
| DbGateway.Gateway.WithdrawEntry | pkg/entry/dbgateway/gateway.go:76-78 | the entry of the id is deleted unconditionally |
| DbGateway.Gateway.RemoveEntryIfCurrent | pkg/entry/dbgateway/gateway.go:203-207 | the entry is deleted only while it is that of the awaited listener |
| DbGateway.Gateway.CloseAndSnapshot | pkg/entry/dbgateway/gateway.go:214-221 | the gateway is closed and the snapshot is exactly the listeners it knows; takes the close step |
| DbGateway.Gateway.TryTakeSlot | pkg/entry/dbgateway/gateway.go:106-122 | a slot is taken iff fewer than 1024 are; takes the accept step, in which a session of the listener begins or nothing changes |
| DbGateway.Gateway.ReleaseSlot | pkg/entry/dbgateway/gateway.go:111 | takes the step in which a session gives its slot back |
| DbGateway.StepKeepsInv | pkg/entry/dbgateway/gateway.go:48-228 | every step of every create, accept loop, session, delete and close keeps entry ownership, slot counting, drained `done` and close snapshots |
| DbGateway.EntryIsOwned | pkg/entry/dbgateway/gateway.go:72-81 | in every reachable state an entry goes away only by its own create's failure path or, after its `done`, by a delete; never by another create |
| DbGateway.OneOwnerPerId | pkg/entry/dbgateway/gateway.go:64-69 | at most one create per id is between reservation and withdrawal or `done` |
| DbGateway.CreatedWhenFree | pkg/entry/dbgateway/gateway.go:58-70 | a create gets its entry iff the gateway is open and nobody has the id |
| DbGateway.DeletedIsGone | pkg/entry/dbgateway/gateway.go:193-208 | a delete that returns without error leaves no entry of the listener it awaited and touches no other id |
| DbGateway.WaitersHaveCancelled | pkg/entry/dbgateway/gateway.go:193-228 | in every reachable state whoever waits for a listener has cancelled it, and one on its way out is cancelled |
| DbGateway.SlotsMatchSessions | pkg/entry/dbgateway/gateway.go:101-123 | in every reachable state the tokens equal the sessions holding one, at most 1024 |
| DbGateway.AcceptedWhileRoom | pkg/entry/dbgateway/gateway.go:101-123 | in every reachable state a client of a serving listener gets a session iff fewer than 1024 sessions hold a slot, else nothing changes |
| DbGateway.DoneMeansNoSessions | pkg/entry/dbgateway/gateway.go:88-95 | a closed `done` implies that all sessions of the listener have ended |
| DbGateway.CloseIsComplete | pkg/entry/dbgateway/gateway.go:214-228 | once `Close` has returned, and whatever happens afterwards, no accept loop or session is live, no slot is taken and no create can start one |
| HttpShutdown.HttpProxy.TrackConnection | pkg/entry/http/server.go:232-241 | takes the tracking step of an accept loop that holds the connection: it goes on to check it iff the proxy is not stopping, else to refuse it |
| HttpShutdown.HttpProxy.ReleaseConnection | pkg/entry/http/server.go:243-248 | takes the last two steps of a handler, after which the connection is nowhere tracked or awaited |
| HttpShutdown.HttpProxy.BeginStop | pkg/entry/http/server.go:252-263 | takes the stop step: the first call alone gets what is tracked, which is what `stop` has yet to close |
| HttpShutdown.StepKeepsInv | pkg/entry/http/server.go:232-392 | every step of the accept loop, a handler or `stop` keeps the wait count, single ownership, closing and snapshot invariants |
| HttpShutdown.WaitCounts | pkg/entry/http/server.go:232-248 | in every reachable state the wait count is the live serve loop plus the tracked connections plus the releases in progress |
| HttpShutdown.TrackedUnlessStopping | pkg/entry/http/server.go:232-241 | an accepted connection is tracked and counted iff the proxy is not stopping, else refused |
| HttpShutdown.NothingAddedAfterStopping | pkg/entry/http/server.go:235-237 | after `stopping`, in every run, the tracked connections and the wait count only shrink |
| HttpShutdown.StopClosesAccepted | pkg/entry/http/server.go:250-272 | once `stop` has returned every connection ever accepted is closed, but for one the loop has just accepted and is about to refuse |
| HttpShutdown.ShutdownIsComplete | pkg/entry/http/server.go:250-392 | when the wait ends, loop and handlers are gone and every connection ever accepted has been closed |
| HttpShutdown.WorkDescends | pkg/entry/http/server.go:348-392 | once `stop` has returned every step of the loop or a handler leaves less to do |
| HttpShutdown.WaitEnds | pkg/entry/http/server.go:250-392 | and while anything is waited for some such step is possible, so the wait ends |
| HttpShutdown.WaitStaysZero | pkg/entry/http/server.go:348-392 | after that, no run adds to the count or accepts again |
| Registry.Registry.Register | pkg/liaison/manager/accesssession/registry.go:113-141 | refused iff the descriptor is incomplete; else the id's generation advances by one in 64 bits and the session replaces the previous one |
| Registry.Registry.Unregister | pkg/liaison/manager/accesssession/registry.go:132-139 | the session is deleted only while its generation is the closure's own |
| Registry.Registry.Resolve | pkg/liaison/manager/accesssession/registry.go:143-166 | the session iff id, user, access, application, protocol and generation are all its own; not found iff the id has no session |
| Registry.Registry.Describe | pkg/liaison/manager/accesssession/registry.go:171-188 | no session, not theirs, or the facts |
| Registry.CounterIsCount | pkg/liaison/manager/accesssession/registry.go:124-126 | in every history the registry's counter of an id is its number of registrations modulo 2^64 |
| Registry.GenerationIsStamped | pkg/liaison/manager/accesssession/registry.go:124-129 | the generation of a registration is the one the registry stamped on the session when it was made |
| Registry.GenerationsIncreaseExactly | pkg/liaison/manager/accesssession/registry.go:110-141 | in every history the generations of an id strictly increase iff it was registered fewer than 2^64 times |
| Registry.GenerationsDiffer | pkg/liaison/manager/accesssession/registry.go:124-128 | up to and including 2^64 registrations no two of an id share a generation |
| Registry.StaleClosureAfterWrap | pkg/liaison/manager/accesssession/registry.go:124-139 | the bound is needed: of an id registered 2^64 + 1 times, the closure of the first deletes the live last one |
| Registry.AfterUnregister | pkg/liaison/manager/accesssession/registry.go:132-139 | running a closure leaves the registry exact iff it is not a stale one with the live registration's generation |
| Registry.HistoryIsExact | pkg/liaison/manager/accesssession/registry.go:113-141 | for every history of any length: at every moment the registry holds for the id exactly its live registration, iff no closure clashed |
| Registry.BoundIsExact | pkg/liaison/manager/accesssession/registry.go:124-139 | every history with at most n registrations of an id leaves the registry exact iff n is at most 2^64 |
| Registry.ResolveIsExact | pkg/liaison/manager/accesssession/registry.go:110-166 | without a clash a request resolves iff user, access, application, protocol and generation are those the latest registration of its id was made with and that was not unregistered; it resolves to that session; not found iff none is live, a mismatch else |
| Registry.DescribeIsExact | pkg/liaison/manager/accesssession/registry.go:168-188 | without a clash a user gets the facts iff the session is live and theirs, and they are those of its registration |
| Registry.StaleUnregisterExact | pkg/liaison/manager/accesssession/registry.go:132-139 | a stale closure changes nothing iff it does not clash |
| Registry.StaleUnregisterIsHarmless | pkg/liaison/manager/accesssession/registry.go:132-139 | then running it any number of times changes nothing |
| Registry.StaleUnregisterWithinBound | pkg/liaison/manager/accesssession/registry.go:132-139 | in particular with up to 2^64 registrations of the id |
| Supervisor.SupervisorHandle.SetIntended | desktop-client/src-tauri/src/edge_supervisor.rs:161-163 | takes the step that publishes the intent, also for an equal value: afterwards the loop has a change it has yet to see |
| Supervisor.SupervisorHandle.Pause | desktop-client/src-tauri/src/lib.rs:349-363 | takes the two steps of a pause: the loop has a change to see and the tray shows Paused |
| Supervisor.SupervisorHandle.Resume | desktop-client/src-tauri/src/lib.rs:370-385 | likewise for a resume and Connecting |
| Supervisor.SupervisorHandle.ReportTunnelOnline | desktop-client/src-tauri/src/edge_supervisor.rs:188-194 | promotes Connecting only |
| Supervisor.SupervisorHandle.ReportTunnelOffline | desktop-client/src-tauri/src/edge_supervisor.rs:197-203 | demotes Online only |
| Supervisor.StepKeepsInv | desktop-client/src-tauri/src/edge_supervisor.rs:271-385 | every step of the loop, the callers, the poller and the child keeps the intent, child and backoff invariants |
| Supervisor.NoIntentIsLost | desktop-client/src-tauri/src/edge_supervisor.rs:271-385 | whenever the loop is blocked with no unseen change, Stopped means waiting without a child and a child wait means Running with exactly one child |
| Supervisor.AtMostOneChild | desktop-client/src-tauri/src/edge_supervisor.rs:329-374 | in every run at most one child is alive, and none when one is spawned |
| Supervisor.LoopShows | desktop-client/src-tauri/src/edge_supervisor.rs:276-351 | the loop shows Paused before it waits to be resumed, Connecting before it spawns, an error before it sleeps |
| Supervisor.OnlineOnlyFromConnecting | desktop-client/src-tauri/src/edge_supervisor.rs:186-203 | the tray becomes Online only from Connecting and only by the poller |
| Supervisor.BackoffTable | desktop-client/src-tauri/src/edge_supervisor.rs:25-26 | after n failures in a row the backoff is 2, 4, 8, 16, then 30 seconds |
| Supervisor.BackoffIsBounded | desktop-client/src-tauri/src/edge_supervisor.rs:331-357 | in every run the backoff is that of the failures since the last healthy run, within 2 to 30 seconds |
| Supervisor.BackoffChanges | desktop-client/src-tauri/src/edge_supervisor.rs:337-356 | it changes only when a sleep ends: reset after a healthy run, else doubled up to the cap |
| Supervisor.NotStuck | desktop-client/src-tauri/src/edge_supervisor.rs:275-377 | while a stop is intended and not yet realised the loop can always take a step |
| Supervisor.StopIsRealised | desktop-client/src-tauri/src/edge_supervisor.rs:271-385 | from any reachable state a lasting stop settles within ten loop steps, without a child |
| Supervisor.RunningNotStuck | desktop-client/src-tauri/src/edge_supervisor.rs:275-377 | while running is intended the loop can always take a step, unless it waits on the one child it has |
| Supervisor.ResumeIsRealised | desktop-client/src-tauri/src/edge_supervisor.rs:271-385 | from any reachable state a lasting Running intent spawns a child within five loop steps |
| Supervisor.SettledShowsPaused | desktop-client/src-tauri/src/lib.rs:349-387 | in every run whose callers set the intent and force the tray under one lock, a settled loop shows Paused |
| Supervisor.WithoutLockTrayLies | desktop-client/src-tauri/src/lib.rs:349-387 | the lock is needed: a run without it settles showing Connecting |
| Traffic.KeyInjective | pkg/entry/transport/gatekeeper.go:307 | two pairs with the same decimal "proxy:application" key are the same pair |
| Traffic.MeteredConn.Read | pkg/trafficconn/trafficconn.go:59-68 | for every pair, what is counted or recorded grows by exactly the bytes read, out and for this pair only; a failed read leaves nothing uncollected |
| Traffic.MeteredConn.Write | pkg/trafficconn/trafficconn.go:70-79 | the same for the bytes written, in |
| Traffic.MeteredConn.Flush | pkg/trafficconn/trafficconn.go:107-114 | the counters are zero afterwards, what they held is recorded, and no pair gains or loses a byte |
| Traffic.Accumulator.RecordTraffic | pkg/entry/transport/gatekeeper.go:298-319 | the entry of the pair grows by the counts, others stay |
| Traffic.Accumulator.TakeBatch | pkg/entry/transport/gatekeeper.go:338-359 | every entry is copied exactly once and the accumulator is empty |
| Traffic.RecordAdds | pkg/entry/http/server.go:274-295 | recording adds its share to its own pair and to no other |
| Traffic.BatchHolds | pkg/entry/http/server.go:315-336 | a batch holds for every pair exactly what the accumulator held |
| Traffic.StepConserves | pkg/trafficconn/trafficconn.go:59-114 | every read, write, swap, record, batch and report keeps the balance of every pair and direction |
| Traffic.TrafficIsConserved | pkg/entry/transport/gatekeeper.go:298-368 | with a collector, in every interleaving: transferred = reported + in batches + accumulated + swapped but unrecorded + still counted |
| Traffic.OnlyUncollectedIsDropped | pkg/entry/transport/gatekeeper.go:358-367 | in general the only other place a byte can be is a batch whose report found no collector |
| Traffic.NothingDropped | pkg/entry/transport/gatekeeper.go:361-367 | from the moment a collector is set, in every run, nothing is dropped, also of batches taken before |
| PromptWindow.OutputHasSensitivePrompt | pkg/entry/sshgateway/gateway.go:601-609 | true iff the trimmed, lower-cased text contains some marker |
| PromptWindow.Utf8RoundTrip | pkg/entry/sshgateway/gateway.go:601-609 | every text of scalar values is read back from its UTF-8 encoding |
| PromptWindow.PhraseIsDetected | pkg/entry/sshgateway/gateway.go:601-609 | output that anywhere holds the encoding of a text that lower-cases to one of the eight phrases is detected, whatever bytes surround it |
| PromptWindow.SpelledPhraseIsDetected | pkg/entry/sshgateway/gateway.go:601-609 | so is every phrase with its ASCII letters in either case |
| PromptWindow.PhrasesAreMarkers | pkg/entry/sshgateway/gateway.go:603 | the eight phrases are what is searched for, and nothing else |
| PromptWindow.DetectedIsMatch | pkg/entry/sshgateway/gateway.go:601-609 | equivalently: some byte position spells a marker, so neither trimming nor a broken UTF-8 sequence before it can hide one |
| PromptWindow.WindowSize | pkg/entry/sshgateway/gateway.go:576-581 | the window is the last 256 bytes, or all while there are no more |
| PromptWindow.WindowShowsAll | pkg/entry/sshgateway/gateway.go:571-587 | with no marker so far, the last 256 bytes and the chunk show one iff all output does |
| PromptWindow.WindowIsExact | pkg/entry/sshgateway/gateway.go:571-587 | for every chunking, bounded and unbounded search raise on exactly the same chunks |
| Terminal.ShellCommandCollector.Enable | pkg/entry/sshgateway/gateway.go:503-510 | collecting is enabled and nothing else changes |
| Terminal.ShellCommandCollector.ConsumeEscape | pkg/entry/sshgateway/gateway.go:549-569 | a rune is consumed iff inside an escape sequence, and only the escape state moves |
| Terminal.ShellCommandCollector.FlushLine | pkg/entry/sshgateway/gateway.go:589-599 | the line is emitted trimmed and sanitised unless blank or suppressed; the suppression is used up |
| Terminal.ShellCommandCollector.FeedRune | pkg/entry/sshgateway/gateway.go:522-542 | one rune moves the collector as the one-pass machine |
| Terminal.ShellCommandCollector.Feed | pkg/entry/sshgateway/gateway.go:512-547 | one chunk of bytes, decoded by itself, moves the collector as the one-pass machine and returns its commands in order; nothing before it is enabled |
| Terminal.ShellCommandCollector.ObserveOutput | pkg/entry/sshgateway/gateway.go:571-587 | one output chunk updates the window and raises suppression as specified |
| Terminal.OnePassIsTwoStages | pkg/entry/sshgateway/gateway.go:512-599 | for every stream of runes and prompts, one pass equals stripping escape sequences and then editing line by line |
| Terminal.EditAt | pkg/entry/sshgateway/gateway.go:526-541 | each position of an edited line holds the printable rune that was written there and never taken back |
| Terminal.SurvivorIsKept | pkg/entry/sshgateway/gateway.go:526-541 | and every such rune is left, at its position |
| Terminal.PlainTyping | pkg/entry/sshgateway/gateway.go:537-540 | up to 4096 printable runes are left as typed |
| Terminal.EraseTakesBack | pkg/entry/sshgateway/gateway.go:531-534 | backspace and delete take back the rune before |
| Terminal.KillForgets | pkg/entry/sshgateway/gateway.go:535-536 | Ctrl-C, Ctrl-U, Ctrl-X and Ctrl-Z forget the line so far |
| Terminal.NothingElseEdits | pkg/entry/sshgateway/gateway.go:526-541 | other control runes, prompts, erasing nothing and typing past the limit leave the line |
| Terminal.ShortSequence | pkg/entry/sshgateway/gateway.go:553-559 | ESC takes the one rune after it unless that opens a longer sequence |
| Terminal.LongSequence | pkg/entry/sshgateway/gateway.go:554-564 | ESC with `[` or `O` takes everything up to and with the first rune from 0x40 to 0x7e |
| Terminal.TypedLineIsEmitted | pkg/entry/sshgateway/gateway.go:512-599 | a printable line ended by CR or LF is emitted as typed, trimmed and sanitised, or not at all when blank |
| Terminal.PromptedLineIsNot | pkg/entry/sshgateway/gateway.go:589-595 | with a prompt anywhere in it that line, and no other, is not emitted |
| Terminal.SanitizedExactly | pkg/entry/sshgateway/gateway.go:611-620 | a command is redacted as a whole iff it holds one of the twelve secret words in any case, and is else only trimmed |
| Terminal.CollectorRefinesSpecification | pkg/entry/sshgateway/gateway.go:503-609 | for every session, chunking and interleaving, the emitted commands are those of the two-stage specification with prompts found by unbounded search; one prompt suppresses exactly its line |
| PromptWindow.DecodeAppend | pkg/entry/sshgateway/gateway.go:522 | decoding two chunks by themselves is decoding them together, where the second does not begin with a continuation byte |
| Terminal.CutsDoNotMatter | pkg/entry/sshgateway/gateway.go:512-547 | so wherever a chunk of input is cut without cutting a UTF-8 sequence, the whole session, state and commands, is the same |
| Terminal.BufferIsBounded | pkg/entry/sshgateway/gateway.go:537-540 | the buffer never exceeds 4096 runes |
| Terminal.CommandsAreClean | pkg/entry/sshgateway/gateway.go:611-620 | every command of the specification is non-empty, trimmed and free of the sensitive markers, the redaction text included |
| Terminal.SessionIsClean | pkg/entry/sshgateway/gateway.go:512-620 | so is every command emitted in any session |
| Memcached.Validate | pkg/liaison/manager/cacheaccess/memcached.go:39-67 | accepts exactly the valid commands, per operation, with key, size and expiry limits |
| Memcached.EncodedText | pkg/liaison/manager/cacheaccess/memcached.go:95-108 | the requests as the protocol writes them, word by word |
| Memcached.RequestRoundTrip | pkg/liaison/manager/cacheaccess/memcached.go:93-108 | a tokenizer recovers operation, key, flags, expiry and value of every valid command and leaves what follows |
| Memcached.EncodingIsUnique | pkg/liaison/manager/cacheaccess/memcached.go:93-108 | two encoded commands with anything behind them are equal only if the commands are |
| Memcached.GetRoundTrip | pkg/liaison/manager/cacheaccess/memcached.go:121-151 | every value up to 1 MiB comes back from its rendered response, also one that contains an END line |
| Memcached.GetIsSound | pkg/liaison/manager/cacheaccess/memcached.go:121-151 | a value is returned only for a response framed by the key, its length and the END line, and it is that value with those flags |
| Memcached.GetParsedExactly | pkg/liaison/manager/cacheaccess/memcached.go:121-151 | so for the key of a valid command a response yields a value iff it is such a response |
| Memcached.GetMissingExactly | pkg/liaison/manager/cacheaccess/memcached.go:122-124 | the key is missing iff the response begins with the END line |
| Memcached.GetCutShortExactly | pkg/liaison/manager/cacheaccess/memcached.go:137-140 | a value counts as cut short iff its line is good and the stream ends before the value does |
| Memcached.StatusExactly | pkg/liaison/manager/cacheaccess/memcached.go:171-180 | which answers a write may get |
| Memcached.AddLine | pkg/liaison/manager/cacheaccess/memcached.go:156-164 | a line adds its pair, or is refused, as specified |
| Memcached.ReadStats | pkg/liaison/manager/cacheaccess/memcached.go:152-170 | the loop parses as specified, within its bounds |
| Memcached.StatsExact | pkg/liaison/manager/cacheaccess/memcached.go:152-170 | a rendered list parses to exactly its pairs iff no name repeats, at most 1024 pairs and 256 KiB of lines; else it is refused |
| Memcached.StatsIsSound | pkg/liaison/manager/cacheaccess/memcached.go:152-170 | a parsed response is a list of STAT lines with new names within the bounds, then END, and the result is its pairs |
| Memcached.StatsParsedExactly | pkg/liaison/manager/cacheaccess/memcached.go:152-170 | so a response parses iff it is one |
| Memcached.PairsAreListed | pkg/liaison/manager/cacheaccess/memcached.go:161-164 | the parsed map holds every listed pair and no other name |
| Memcached.ReadsLine | pkg/liaison/manager/cacheaccess/memcached.go:183-192 | a line that fits the buffer is read back without its end, the rest untouched |
| Memcached.Execute | pkg/liaison/manager/cacheaccess/memcached.go:72-181 | nothing is sent for an invalid command or an unauthorised write; otherwise the reply is the parse of the response, a value cut short kept apart from a malformed one |
| DestinationFrame.BigEndianRoundTrip | pkg/edge/proxy/proxy.go:36-42 | the header gives the length back modulo 2^32 |
| DestinationFrame.MostSignificantFirst | pkg/edge/proxy/proxy.go:36-42 | the header has the most significant byte first |
| DestinationFrame.FrameRoundTrip | pkg/entry/dbgateway/gateway.go:169-177 | payload and following bytes come back iff the payload is shorter than 2^32 |
| DestinationFrame.WriteAll | pkg/entry/dbgateway/gateway.go:230-242 | under every pattern of short writes a prefix is sent, everything on success, and success whenever the stream makes progress |
| DestinationFrame.WriteFrameAtOnce | pkg/entry/dbgateway/gateway.go:173-177 | on success exactly the encoded frame was sent |
| DestinationFrame.WriteFrameInTwo | pkg/entry/transport/gatekeeper.go:150-175 | succeeds iff neither write fails; then the same bytes were sent iff both writes took everything |
| DestinationFrame.ReadFull | pkg/edge/proxy/proxy.go:43-48 | fills the buffer for every chunking iff the stream holds enough, and leaves the rest |
| DestinationFrame.ReadFrame | pkg/edge/proxy/proxy.go:34-48 | reads exactly the specified payload and leaves what follows, or fails iff the stream is too short |
| DestinationFrame.FrameArrives | pkg/edge/proxy/proxy.go:34-48 | end to end over any progressing writer and any read chunking, the edge has the payload and the following bytes are untouched iff the payload is shorter than 2^32 |
| Cidr.Inc | pkg/edge/scanner/scanner.go:329-337 | the in-place byte-carry loop leaves the specified successor bytes |
| Cidr.IncrementAddsOne | pkg/edge/scanner/scanner.go:329-337 | that successor is addition of one modulo 256^n |
| Cidr.MaskedIsBitwiseAnd | pkg/edge/scanner/scanner.go:318 | masking is byte by byte the bitwise and with the mask of leading ones |
| Cidr.MaskedValue | pkg/edge/scanner/scanner.go:318 | and rounds the address down to a multiple of the block size |
| Cidr.ContainsExact | pkg/edge/scanner/scanner.go:318 | the network contains exactly the addresses of its block that are IPv4-mapped iff it is |
| Cidr.Enumerate | pkg/edge/scanner/scanner.go:317-324 | on every network but IPv4 with prefix length zero the loop ends, also at the top address, and lists the kept addresses up to its stop |
| Cidr.KeptExact | pkg/edge/scanner/scanner.go:317-351 | listed are exactly the addresses of the range that the skip rule keeps |
| Cidr.KeptAscends | pkg/edge/scanner/scanner.go:317-324 | each once, in ascending order |
| Cidr.SkippedInNumbers | pkg/edge/scanner/scanner.go:340-351 | left out are the addresses whose number is 0 or 255 modulo 256, in IPv4 blocks of /24 and longer only |
| Cidr.Slash24IsListed | pkg/edge/scanner/scanner.go:303-351 | so of a /24 block exactly the 254 addresses between its first and its last are listed |
| Cidr.WholeBlockIsListed | pkg/edge/scanner/scanner.go:303-351 | the loop ends with every address of the block that the skip rule keeps listed iff the block does not hold the IPv4-mapped range in its midst and is not all of IPv4; nothing else is ever listed |
| Cidr.MappedHalfIsMissed | pkg/edge/scanner/scanner.go:318 | a concrete block that does, and an address of it that is never listed |
| Cidr.ExitsExactly | pkg/edge/scanner/scanner.go:318 | incrementing from the base reaches an address outside the network iff it is not IPv4 with prefix length zero |
| Cidr.HostsFromTargets | pkg/edge/scanner/scanner.go:303-327 | all hosts in request order, single addresses as written, or an error iff some entry is malformed |

## Left out

- JSON text: values are already parsed and objects are maps, so duplicate keys and the case-insensitive matching of struct fields are not modelled; parsing and trimming are arbitrary functions the results hold for.
- Floating-point rounding of request parameters: numbers are exact reals, and an accepted number is carried as it is.
- `created` timestamps, random completion ids, constant members of frames and `json.Marshal` errors: frames are kept as values without them.
- The OpenAI-compatible branch of `RewriteJSON`, `IncludeStreamUsage`, `PrepareMessages`, `RewriteMessagesJSON`, `ModelAliases`, `KeyDigest` and `NewKey`: not part of the model.
- Relay protocols other than the named ones: `RelaySSE` treats every unknown protocol as Anthropic, and the model has no third case.
- Relay.RewriteJson: claims no bound for `total_tokens`, whose sum wraps around in the source and in the model.
- How a stream is split into lines, and the scanner's own limit on the length of one: a stream is the lines it yields, and exceeding the limit is one of the ways a scan may end in an error.
- Definition checks before a reservation, the listening socket, firewall policy and the relay inside a database session: the listener and session steps happen in any order the source allows.
- HTTP request parsing, keep-alive and WebSocket handling: a handler runs until it closes its connection.
- Gatekeeper.Close, the HTTPS listen branch, and rproxy: not part of the model.
- Registry: request contexts, a nil registry and `DescribeReference`; the protocol handlers of a session are three flags.
- Supervisor: configuration files, logging, the broadcast channel, elapsed time (a run is healthy or not by choice of the environment); dropping a child kills it at once; a stop on logout or exit holds the application's lock while it sets the intent.
- Traffic: counters are unbounded, so int64 overflow is not modelled; a byte counts as transferred when it is added to the counter; ticks and the once-guarded close are flushes at any time.
- Terminal.ShellCommandCollector.Feed: the unreachable fourth escape state is left out.
- `unicode.ToLower` is an arbitrary function that agrees with ASCII and fixes spaces and U+FFFD; substring search is on runes, which equals the search on bytes for valid UTF-8.
- Memcached.Execute: write errors, contexts, timeouts and a nil connection are not modelled.
- Cidr.Enumerate: requires that the network is not IPv4 with prefix length zero, on which the source never returns; text forms of addresses and networks are not modelled.
- DestinationFrame: the marshalled destination is an arbitrary byte sequence; deadlines and the copying after the frame are not modelled.
- Generated code, the web console, the desktop user interface, firewall rules, routing, configuration, authentication and storage.
