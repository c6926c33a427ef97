# Terminal relay: a verified model

The system relays a terminal. A program runs on a PTY inside a container. The PTY bridge reads its output,
keeps the last mebibyte for HTTP polls and broadcasts every chunk to its WebSocket clients. A local proxy (or, in
production, a worker) carries the output on to an SSH relay, which writes it to the user's SSH session. Keystrokes
go the other way. This project models the concurrent protocol between these parts and proves what it delivers:
no byte is invented or repeated, every byte is accounted for, streams are contiguous, exit comes after the output it
ends, and where the programs do not keep such a promise, a concrete run shows it and a condition says exactly when.

`dafny verify dfyconfig.toml` checks everything.

## How the model is built

Every concurrent part is a step system: a `State`, a set of `Action`s, when one is `Enabled`, what it does
(`Apply`), and runs as lists of actions (`Exec`, `Play`). A step is one critical section, one channel operation or
one call that can block, so a run is one interleaving. Theorems are about all runs, of any length, with any number
of requests, clients, writers or connect calls.

| file | models |
|---|---|
| `OutputBuffer.dfy` | the output buffer as a class over a Go slice (backing array, offset, length), and the reader's loop over one reused array |
| `Bridge.dfy`, `BridgeInvariants.dfy`, `BridgeTrace.dfy`, `BridgeTheorems.dfy`, `BridgeExit.dfy` | the whole PTY bridge as a step system: reader goroutine, the goroutine that waits for the process, any number of `/init`, `/read`, `/write` and `/writeread` requests, any number of WebSocket clients; its invariant, what a state says about the run that led to it, and what follows |
| `PtySession.dfy` | the session object; its ghost field is a reachable state of the bridge's step system, which every method moves by the actions it stands for |
| `Base64.dfy`, `Json.dfy`, `Messages.dfy`, `Framing.dfy` | base64, JSON as Go and JavaScript write it, the message structs with omitted zero fields, newline-delimited bodies and both splitters, as concrete functions |
| `WireFormat.dfy` | which keys and values the lines hold that the programs write |
| `LocalProxy.dfy` | the local proxy's two loops as methods, and how they share `done` |
| `OutputPath.dfy`, `LostReply.dfy`, `OutputHole.dfy`, `OutputArrival.dfy` | bridge, proxy and relay stepped together: output to SSH, what a lost response costs, when the output has a hole, and that everything can arrive |
| `InputPath.dfy`, `InputOrder.dfy` | the same three the other way: keystrokes to the PTY, and when they can change places |
| `StreamPath.dfy` | the streaming path: bridge, worker and relay |
| `Worker.dfy`, `WorkerBroadcast.dfy` | the worker's stream to the bridge between its `await`s, the object with those fields, and the loops that broadcast a response body |
| `SafeConn.dfy`, `RelaySession.dfy`, `RelayFinish.dfy` | the relay's guarded connection, the session with its four goroutines, `done` and the wait group, and that it can always come to its end |
| `RepoParser.dfy`, `WorkDir.dfy` | the GitHub reference patterns with Go's first-match meaning, the work directory and the clone URL |
| `Bytes.dfy`, `Wrappers.dfy` | bytes, 64-bit integers, the last part of a sequence; `Option` |

Some fields are history, read by theorems and by nothing else: all chunks buffered so far, everything that left the
buffer and how (`segments`), every frame offered to a client (`sends`), how much was buffered when the process was
marked stopped (`stopMark`) and when `done` was closed (`doneMark`).

Assumptions, all visible in the steps: session initialisation succeeded where a theorem speaks of output; writing
one frame to one client is atomic; a response that arrives is complete, though it may be lost as a whole; in the
end-to-end theorems there is one polling session per container. What a network or a platform decides (which writes
succeed, which sends throw) is an argument, so the theorems hold for every such decision and no method makes it up.
Nothing is claimed about time or fairness; of progress, that it stays possible (`AllCanArrive`,
`SessionCanAlwaysFinish`).

## Where the programs do less than one might think

- Exit is not the last WebSocket frame: one chunk can follow it, never two (`DataCanFollowExit`,
  `BoundedTailAfterExit`). It can exactly while the reader is inside a read or holds a chunk it has not sent that
  client (`DataCanFollowIff`).
- The local proxy can close `done` twice (`DoneCanCloseTwice`). After the first close a second one can follow exactly
  when the other goroutine is past its `select` (`CanCloseAgainIff`).
- A poll whose response is lost takes the bytes it drained with it, and SSH goes on with a hole
  (`LostReplyLeavesHole`). Bytes go missing in three steps only, each with a guard (`WholeStep`): a chunk that does not
  fit under the cap, a drain for a request that was given up, and giving up a response that carries bytes. A session
  that goes on can then show a hole, with nothing more going missing, exactly when bytes are missing already
  (`HoleCanShowIff`).
- Keystrokes can change places when the proxy gives up a post whose handler still waits for the lock
  (`AbandonedPostReorders`). They can, without another post given up, exactly when such an abandoned post still has
  bytes to give and a later item with bytes is written, waits too, or can still be accepted (`OrderCanBreakIff`).
- One underlying write can start after the relay's connection was flagged closed (`LateWriteHappens`), exactly when the
  holder of the mutex had passed the second check (`LateWriteIff`).
- One chunk of input can be forwarded after the relay's `done` was closed (`LateInputHappens`), exactly when the input
  goroutine was inside its read (`LateInputIff`).
- The worker can be left with two live streams, or drop a live one on a late close event. `SingleStreamStep` says
  exactly which steps do that, `OrderlyRunsHaveOneStream` how to avoid them.
- `getWorkDir` gives two directories for one repository whose name itself ends in `.git` (`SpellingsAgreeIff`).
- `ensureRepo` passes an owner that starts with `http` or `git@` on as if it were a URL, and the GitHub URL it builds
  can lose a trailing `.git` or a trailing space. `GitGetsUrlIff` says exactly when git gets the repository's URL.
- When initialisation fails, its first caller gets the error; later callers find no session and panic
  (`OneProcessOneVerdict`).
- The parser's comment lists `user/repo`; the bare pattern keeps a trailing `.git`, unlike the others, so only the
  work directory makes the spellings meet.

## Model

| member | source | states |
|---|---|---|
| `OutputBuffers.Append` | packages/container/pty-bridge/main.go:57 | Go's append: old bytes then the new ones, into the same array while it has room, otherwise into a fresh one, and never into the source |
| `OutputBuffers.OutputBuffer.Write` | packages/container/pty-bridge/main.go:54-62 | the buffer is the last mebibyte of what it held plus the new bytes, and never shares the writer's array |
| `OutputBuffers.OutputBuffer.Read` | packages/container/pty-bridge/main.go:64-70 | hands out everything and keeps nothing, so the caller owns the array |
| `OutputBuffers.BoundedTailRefinement` | packages/container/pty-bridge/main.go:54-62 | truncating after every write equals truncating once: the last min(n, 1048576) bytes of all that was written |
| `OutputBuffers.ChunkingIrrelevant` | packages/container/pty-bridge/main.go:54-62 | the same bytes leave the same buffer however they were cut into writes |
| `OutputBuffers.ReadPtyOutput` | packages/container/pty-bridge/main.go:393-410 | the buffering of the reader's loop: over any bursts, through one reused 32 KiB array, the buffer is left with the last mebibyte of everything read |
| `OutputBuffers.DrainThenKeepWriting` | packages/container/pty-bridge/main.go:57-69 | a drained slice still shows the drained bytes after any later writes, and shares no array with the buffer |
| `BridgeInvariants.InvKept` | packages/container/pty-bridge/main.go:321-420 | every step of every goroutine, request and client keeps the whole invariant |
| `BridgeInvariants.BufferChunkKept` | packages/container/pty-bridge/main.go:54-62 | buffering keeps released plus buffered equal to everything buffered so far, evicted bytes included |
| `BridgeTheorems.Conservation` | packages/container/pty-bridge/main.go:54-70 | drains and evictions in order, then the live buffer, then the chunk in the reader's hands, are exactly what the PTY's reads returned in any run that leads here; each release is its own stretch, so no byte is in two drains, and each drain answers its own request |
| `BridgeTraces.OutputIsRead` | packages/container/pty-bridge/main.go:399-410 | over every run: all that was buffered so far, and the chunk in the reader's hands, is all that the PTY's reads returned, byte for byte |
| `BridgeTraces.CodeIsReaped` | packages/container/pty-bridge/main.go:367-377 | over every run: the code the session ends with is one the process was reaped with |
| `BridgeTraces.InputIsGiven` | packages/container/pty-bridge/main.go:439-454 | over every run: the PTY was given what WebSocket clients sent and the written fronts of what requests arrived with, in the order of the writes; a write is accepted, and a combined request goes on to its read, only once all its input was written |
| `BridgeTraces.RejectedIff` | packages/container/pty-bridge/main.go:428-454 | over every run: a request is refused exactly when it came before there was a session, or with input after it had stopped, or its body was no good, or the PTY cut its input short |
| `BridgeTraces.ClientsAreAdded` | packages/container/pty-bridge/main.go:107-119 | over every run: a connection is registered exactly when it was added, and live until it is removed |
| `BridgeTraces.EveryClientIsTold` | packages/container/pty-bridge/main.go:380-381 | every client that is live when the announcement of exit begins has been sent its exit, once, when it is over |
| `BridgeTraces.HaltIsLast` | packages/container/pty-bridge/main.go:383-385 | over every run: after the container's exit nothing happens any more |
| `BridgeTraces.ErrorEndsReading` | packages/container/pty-bridge/main.go:399-405 | over every run: once a read of the PTY has failed, none follows |
| `BridgeTheorems.BufferIsTail` | packages/container/pty-bridge/main.go:54-70 | in every reachable state the buffer is the last mebibyte buffered since the last drain |
| `BridgeTheorems.FlagBeforeDrain` | packages/container/pty-bridge/main.go:486-510 | a response with exit comes with a drain by which everything buffered before the process was marked stopped had left the buffer |
| `BridgeTheorems.OneProcessOneVerdict` | packages/container/pty-bridge/main.go:366-381 | at most one child; all callers of init agree on success, and after a failure one gets the error and the others panic; every exit on HTTP or WebSocket carries the one code, which is the one the process was reaped with, and only after the process was marked stopped; one exit frame per client |
| `BridgeTheorems.VerdictIsFinal` | packages/container/pty-bridge/main.go:374-378 | once marked stopped a session never runs again, keeps its code and starts no child, over every continuation |
| `BridgeTheorems.BoundedTailAfterExit` | packages/container/pty-bridge/main.go:374-416 | after `done` is closed at most one more chunk of at most 32 KiB is buffered, and each client sees at most one chunk after its exit frame |
| `BridgeExits.OneMoreBroadcast` | packages/container/pty-bridge/main.go:394-416 | once `done` is closed every client, registered before or after, is sent at most one more chunk, before or after its exit |
| `BridgeExits.DataCanFollowIff` | packages/container/pty-bridge/main.go:380-416 | a live client that has its exit, and no data since, can still be sent data exactly while the reader is inside a read or holds a chunk it has not sent that client |
| `BridgeTheorems.DataCanFollowExit` | packages/container/pty-bridge/main.go:380-416 | a reachable state in which a client did get a chunk after its exit frame |
| `BridgeTheorems.ContiguousStreams` | packages/container/pty-bridge/main.go:89-119 | each client is offered one contiguous run of chunks, each once and in order; without write errors it receives exactly that stretch of the output |
| `BridgeTheorems.NoGapHandover` | packages/container/pty-bridge/main.go:108-112 | a drain taken while a client is registered, and the frames the client gets from then on, leave no gap; they overlap by one chunk at most |
| `BridgeTheorems.HistoryGrows` | packages/container/pty-bridge/main.go:392-420 | along any run chunks, drains and frames are only added to, and a verdict once given stays |
| `PtySessions.PTYSession.constructor` | packages/container/pty-bridge/main.go:352-360 | a new session is the step system after the child started |
| `PtySessions.PTYSession.BufferOutput` | packages/container/pty-bridge/main.go:408-410 | the reader's write: the object's buffer and the step system's move together, by the buffering step |
| `PtySessions.PTYSession.Broadcast` | packages/container/pty-bridge/main.go:89-105 | every registered client is written to exactly once, with the answer of its own connection, whatever the others answer, and no other client is |
| `PtySessions.PTYSession.HandleChunk` | packages/container/pty-bridge/main.go:406-416 | the chunk enters the buffer and goes to every registered client once |
| `PtySessions.PTYSession.MarkStopped` | packages/container/pty-bridge/main.go:374-377 | flag and code change in one step |
| `PtySessions.PTYSession.AddClient` | packages/container/pty-bridge/main.go:108-112 | registers the client with nothing sent yet, and only that |
| `PtySessions.PTYSession.RemoveClient` | packages/container/pty-bridge/main.go:115-119 | ends the registration, and only that |
| `PtySessions.PTYSession.ReadFlag` | packages/container/pty-bridge/main.go:486-490 | flag and code as they are now, by the snapshot step |
| `PtySessions.PTYSession.DrainReply` | packages/container/pty-bridge/main.go:492-510 | whatever happened since the flag was read: everything buffered by now is drained, and the messages are those bytes, if any, and exit exactly when the flag was down then |
| `PtySessions.PTYSession.HandleRead` | packages/container/pty-bridge/main.go:470-517 | the answer of a whole read request, and the drain it leaves on record with the same bytes and code |
| `PtySessions.PTYSession.NothingLost` | packages/container/pty-bridge/main.go:73-119 | in every valid state of the object: drained or evicted plus buffered is the whole output, and each client was sent one run of chunks |
| `Base64.RoundTrip` | packages/ssh-relay/internal/session/handler.go:173-174 | decoding an encoding gives the bytes back, for all byte strings (section 4 of RFC 4648) |
| `Base64.DigitIsTable` | packages/ssh-relay/internal/session/handler.go:173 | the digits are those of Table 1 of RFC 4648, and no other character has a value |
| `Base64.EncodeIsStandard` | packages/container/pty-bridge/main.go:415 | each group of four digits holds the same 24 bits as its three bytes; a short last group is filled with zero bits and one padding character for each missing byte (section 4 of RFC 4648) |
| `Base64.DecodesIff` | packages/container/pty-bridge/main.go:441-445 | line breaks count for nothing, and a text without any decodes exactly when it is whole quads of the alphabet with padding at the end only |
| `Json.ObjectRoundTrip` | packages/worker/src/protocol.ts:58-68 | what Go or JavaScript writes reads back as the same members in the same order, whatever the characters (section 7 of RFC 8259) |
| `Json.SurrogatesRead` | packages/ssh-relay/internal/proxy/protocol.go:86-92 | a character outside the basic plane that is escaped as two surrogates reads as itself (section 7 of RFC 8259) |
| `Json.ShortEscapeReads` | packages/ssh-relay/internal/proxy/protocol.go:86-92 | each of the eight short escapes reads as what section 7 of RFC 8259 says |
| `Json.LoneSurrogateReads` | packages/ssh-relay/internal/proxy/protocol.go:86-92 | half a surrogate pair with no matching half behind it reads as the replacement character |
| `Json.EscapeTable` | packages/container/pty-bridge/main.go:92 | what each writer puts for quotes, controls, HTML's characters and line separators |
| `Json.NumberReads` | packages/ssh-relay/internal/proxy/protocol.go:86-92 | a written integer reads as itself whatever follows, and is refused exactly when that makes it a fraction or gives it an exponent |
| `Json.SpacedObjectReads` | packages/worker/src/protocol.ts:58-64 | an object reads as its members however its tokens are spaced; with anything but white space behind it the whole is refused |
| `Messages.DecodeReadsLast` | packages/ssh-relay/internal/proxy/protocol.go:86-92 | for every list of members: decoding into the struct fails exactly on a value its field cannot take; otherwise a field is the last value that is for it, nulls and unknown keys being passed over |
| `Messages.FieldOfIff` | packages/container/pty-bridge/main.go:37-46 | a key is for a field exactly when it is the field's name, in whatever case |
| `Messages.MarshalRoundTrip` | packages/ssh-relay/internal/proxy/protocol.go:81-92 | a message written with zero fields omitted reads back equal, code 0 included, by any struct that has its nonzero fields |
| `Messages.GoRoundTrips` | packages/container/pty-bridge/main.go:37-46 | bridge and relay read each other's messages, though their structs differ |
| `Messages.HopRoundTrip` | packages/worker/src/protocol.ts:58-68 | parsing and writing again in the worker changes neither members nor order, as long as numbers are exact in JavaScript |
| `Framing.SplitJoins` | packages/local-proxy/main.go:114 | for every text: the parts hold no newline, and joined by newlines they are the text |
| `Framing.JsSpaceIff` | packages/worker/src/container-manager.ts:319-322 | what the worker trims is ECMAScript's white space and line ends, and nothing else |
| `Framing.SplitRoundTrip` | packages/local-proxy/main.go:114-117 | the proxy's and the worker's splitter both recover exactly the lines that were written |
| `Framing.FramingRoundTrip` | packages/container/pty-bridge/main.go:513-517 | any list of frames, rendered, split and read by the relay, gives the same bytes and codes in order |
| `Framing.HopFramingRoundTrip` | packages/worker/src/container-manager.ts:319-325 | the same through the worker's parse and reserialise |
| `Framing.AssignedKeeps` | packages/worker/src/protocol.ts:58-68 | for every list of members: the worker's parser keeps each key once, where it first stands, with the value that comes last, which the local proxy's map holds too |
| `Framing.NoticesRead` | packages/ssh-relay/internal/session/handler.go:219-226 | what the relay shows of error and status messages, whatever their text |
| `Framing.RelayIgnores` | packages/ssh-relay/internal/session/handler.go:198-230 | a line that is no message, data that is no base64 and messages of any other type show nothing and end nothing |
| `Framing.LineTypeIsKind` | packages/local-proxy/main.go:125-127 | the proxy's map and the relay's struct see the same type in every message the programs write |
| `Framing.LookupField` | packages/local-proxy/main.go:158-178 | a map decoded from a written message holds a field's value unless the field was omitted as zero |
| `Framing.ProxySeesFrame` | packages/local-proxy/main.go:124-131 | the proxy takes a line for exit exactly when it is an exit frame |
| `WireFormats.MessageObject` | packages/ssh-relay/internal/proxy/protocol.go:20-35 | every message of bridge or relay: its type, then its nonzero fields, each under its own key |
| `WireFormats.FrameObject` | packages/container/pty-bridge/main.go:37-46 | the keys and values of every bridge line; empty data and a zero exit code are left out |
| `WireFormats.ItemObject` | packages/ssh-relay/internal/proxy/protocol.go:20-78 | the keys and values of the relay's keystrokes, window changes and pings |
| `WireFormats.BridgeReadsItem` | packages/container/pty-bridge/main.go:217-234 | the bridge reads them as what they were: these bytes, these columns, these rows |
| `WireFormats.PongReadsBack` | packages/local-proxy/main.go:176-183 | the proxy's pong carries the ping's own timestamp, or a null |
| `WireFormats.ResizeReadsBack` | packages/local-proxy/main.go:185-197 | the window change an init is turned into has the init's columns and rows |
| `LocalProxies.ForwardBody` | packages/local-proxy/main.go:114-134 | each due line is tried once, in order and verbatim, up to the first exit or the first line the socket refuses; it gives up exactly when the socket refused one |
| `LocalProxies.ReplyIsDueWhole` | packages/container/pty-bridge/main.go:494-510 | stopping at exit cuts nothing off a reply of the bridge, and it stops exactly when the reply carries exit |
| `LocalProxies.PollOutput` | packages/local-proxy/main.go:96-138 | over any run of polls, failed ones included: every line of every response is tried once and in order, up to the first exit, the first line the socket refuses or a closed `done`; the socket counts as lost exactly when it refused one |
| `LocalProxies.EffectOfMessage` | packages/local-proxy/main.go:165-203 | for every message the relay can write, with numbers a float holds exactly: data and resize are posted verbatim, a ping is answered with its timestamp, an init with both sizes becomes a resize, anything else is passed over |
| `LocalProxies.ForwardOne` | packages/local-proxy/main.go:165-203 | each effect is one post tried, one pong tried or nothing, whatever the two ends accept |
| `LocalProxies.ForwardInput` | packages/local-proxy/main.go:145-207 | over any messages: every post and every pong is tried once and in order, and what arrives is exactly those that the container and the socket accept |
| `LocalProxies.TakenAllIff` | packages/local-proxy/main.go:167-172 | what arrives is all of it exactly when nothing was refused |
| `LocalProxies.EachTurnLooks` | packages/local-proxy/main.go:95-154 | over every run: each goroutine looks at `done` before each of its turns, and does nothing more after a lost socket, an exit or a failed read |
| `LocalProxies.CanCloseAgainIff` | packages/local-proxy/main.go:99-154 | once `done` is closed, a second close can follow exactly when the other goroutine is past its `select` |
| `LocalProxies.DoneCanCloseTwice` | packages/local-proxy/main.go:128-154 | a run in which that happens |
| `LocalProxies.OnlyLateTurnsClose` | packages/local-proxy/main.go:99-148 | once both goroutines are back at their `select` after the first close, none closes again |
| `OutputPath.ProgramCodecIsFaithful` | packages/container/pty-bridge/main.go:494-517 | what the end-to-end argument needs of the text formats holds of the programs' own |
| `OutputPath.EndToEndAccount` | packages/local-proxy/main.go:96-138 | in every run: bytes on SSH, then on the wire, then in the proxy's hands, are exactly the drained output whose responses arrived, in order |
| `OutputPath.EndToEnd` | packages/ssh-relay/internal/session/handler.go:188-217 | with nothing evicted or lost, SSH has a prefix of what the PTY's reads returned; once the relay sees exit, it has everything buffered before the process was marked stopped, and the code the process was reaped with |
| `OutputPath.RunIsShown` | packages/container/pty-bridge/main.go:367-410 | in the stepped system as in the bridge alone: what was buffered is what the PTY returned in this run, and the code is one the process was reaped with in it |
| `OutputPath.EndsAreFinal` | packages/local-proxy/main.go:98-100 | over every run: a relay that hung up shows nothing more, a poll loop that saw `done` closed polls no more |
| `OutputArrivals.AllCanArrive` | packages/ssh-relay/internal/session/handler.go:188-217 | from every reachable state of a session that goes on, for any last burst of up to 32 KiB and any exit code: the run can go on so that SSH shows all that was not lost before, all that bridge and reader still held, and the burst, and the relay sees the code; with nothing lost SSH then has all the PTY ever returned |
| `OutputHoles.WholeStep` | packages/local-proxy/main.go:102-109 | with nothing missing before, a step leaves something missing exactly when its guard says so: a chunk that overflows the cap, a drain with bytes for a request that was given up, or giving up a response that carries bytes |
| `OutputHoles.WholeIffNothingTaken` | packages/container/pty-bridge/main.go:54-70 | over every run: nothing is missing exactly when no step's guard held |
| `OutputHoles.HoleCanShowIff` | packages/ssh-relay/internal/session/handler.go:205-212 | in every reachable state of a session that goes on: SSH can come to show what is no prefix of the output, with no more bytes going missing, exactly when bytes are missing already |
| `OutputHoles.NoHoleWhenWhole` | packages/ssh-relay/internal/session/handler.go:205-212 | with nothing missing it cannot, whether or not the session goes on |
| `OutputPath.KeptIsAllIffWhole` | packages/container/pty-bridge/main.go:58-61 | what the history keeps is everything it released exactly when every evicted or lost segment is empty |
| `LostReplies.LostReplyLeavesHole` | packages/local-proxy/main.go:102-106 | a run in which the PTY wrote 1 and 2, the response with 1 was lost, and SSH shows 2 |
| `StreamPaths.StreamEndToEnd` | packages/worker/src/container-manager.ts:243-255 | what the worker passes on from its stream socket carries one contiguous, chunk-aligned stretch of the PTY output; however many lines have arrived, SSH shows the stretch from its start, and once all have, up to the exit message, or all of it before one |
| `StreamPaths.HandoverEndToEnd` | packages/worker/src/container-manager.ts:411-418 | the worker's read over HTTP after connecting: the drained bytes and the end of the stream leave no gap in the output |
| `StreamPaths.StreamCarries` | packages/worker/src/container-manager.ts:243-255 | the lines that reach the relay carry exactly the chunks the worker's socket received |
| `InputPath.ProgramCodecIsFaithful` | packages/ssh-relay/internal/session/handler.go:172-176 | keystrokes survive base64, JSON, the proxy's look at the type and the bridge's decoding |
| `InputPath.KeystrokeOrder` | packages/container/pty-bridge/main.go:439-454 | every post gives the PTY the front of its chunk and never twice; unless a pending post is given up, in the order they were typed |
| `InputOrders.OrderCanBreakIff` | packages/local-proxy/main.go:167-173 | in every reachable ordered state: the order of the PTY's bytes can break, without another pending post given up, exactly when a post that was given up still waits with bytes and a later item with bytes is written, waits too, or can still be accepted |
| `InputOrders.OrderCanBreakWhileTyping` | packages/local-proxy/main.go:167-173 | while the user types to a running process, exactly when a post that was given up still waits with bytes |
| `InputOrders.OrderIsSafe` | packages/local-proxy/main.go:167-173 | without such a post it cannot |
| `InputOrders.LateWriteIsAbandoned` | packages/local-proxy/main.go:167-173 | a write that comes after a later item's always belongs to a post the proxy had given up while it was pending |
| `InputPath.KeystrokePrefix` | packages/local-proxy/main.go:142-174 | while no post fails, the PTY has received a prefix of what was typed in this run |
| `InputPath.MissedIffFailed` | packages/local-proxy/main.go:168-174 | over every run: nothing counts as missed exactly when no post failed to arrive, was given up or was answered with an error |
| `InputPath.TypesUntilEnded` | packages/ssh-relay/internal/session/handler.go:164-179 | over every run: the relay reads keystrokes until a read or a write of a chunk fails |
| `InputPath.SentIsTyped` | packages/ssh-relay/internal/session/handler.go:164-179 | over every run: the relay sends each chunk as it was read, and its other messages, in order |
| `InputPath.AbandonedPostReorders` | packages/local-proxy/main.go:168-172 | a run in which an abandoned post makes the PTY read 2 before 1 |
| `SafeConns.WritesAreSafe` | packages/ssh-relay/internal/session/handler.go:29-54 | any number of writers and closers: one underlying write at a time, one at most starts after the flag is set, and the flag is set before the underlying connection is closed |
| `SafeConns.LateWriteHappens` | packages/ssh-relay/internal/session/handler.go:41-44 | that one late write does occur |
| `SafeConns.LateWriteIff` | packages/ssh-relay/internal/session/handler.go:35-54 | with the flag set, an underlying write can still start exactly when the holder of the mutex had passed the second check |
| `SafeConns.ClosedRefuses` | packages/ssh-relay/internal/session/handler.go:35-43 | after the flag is set, a caller not yet past the second check never writes, and is told so |
| `SafeConns.LateCallerNeverLocks` | packages/ssh-relay/internal/session/handler.go:36-38 | a caller that comes after the flag is set never holds the mutex, over every continuation |
| `SafeConns.SafeConn.WriteMessage` | packages/ssh-relay/internal/session/handler.go:35-45 | one call on its own is a run of the step system; it sends unless closed |
| `SafeConns.SafeConn.Close` | packages/ssh-relay/internal/session/handler.go:51-54 | sets the flag, then closes the underlying connection |
| `RelaySessions.Lifecycle` | packages/ssh-relay/internal/session/handler.go:128-259 | every interleaving: `done` is closed once at most, and exactly when the output goroutine has left; the wait group counts the live goroutines; exit only with `done` closed and all gone; one more chunk of input at most after that |
| `RelaySessions.LeavesIffGaveUp` | packages/ssh-relay/internal/session/handler.go:137-254 | over every run: a goroutine has left exactly when `done` or its channel was found closed, its read ended or its write failed; it never resumes |
| `RelaySessions.LateInputIff` | packages/ssh-relay/internal/session/handler.go:160-179 | once `done` is closed, one more chunk of input can still be forwarded exactly when the input goroutine is inside its read |
| `RelaySessions.LateInputHappens` | packages/ssh-relay/internal/session/handler.go:160-179 | a run in which it is |
| `RelayFinishes.SessionCanAlwaysFinish` | packages/ssh-relay/internal/session/handler.go:128-259 | no interleaving is a dead end: from every reachable state, whatever writes are in progress, some continuation ends the session and closes the connection |
| `RelaySessions.NoWriteAfterClose` | packages/ssh-relay/internal/session/handler.go:116-259 | the connection is closed only after every writer has returned, so no write starts after it; at its end the session has closed it |
| `Workers.ReadyHasStream` | packages/worker/src/container-manager.ts:209-273 | at every await of every interleaving, ready implies a non-null stream whose listeners are on |
| `Workers.EachMessageOnce` | packages/worker/src/container-manager.ts:278-291 | no client message, each under its own id, is handled twice; each socket was sent init, then exactly the messages streamed to it, in order |
| `Workers.ReceivedIsHandledOrWaiting` | packages/worker/src/container-manager.ts:389-436 | every message received is handled, as the kind of message it is, or still waits, and no other is |
| `Workers.OneOfThree` | packages/worker/src/container-manager.ts:421-436 | exactly one of stream, `/write` and `/writeread`, decided by ready and the send alone |
| `Workers.ReadyLostIff` | packages/worker/src/container-manager.ts:209-285 | a ready stream is lost exactly to a close, a new connect call, one that ends badly, or a send that threw; not to a reconnect on init, which leaves a ready one alone |
| `Workers.SingleStreamStep` | packages/worker/src/container-manager.ts:224-273 | the listening socket stays the current stream under a step exactly unless a connect ends while there is a stream, or an old socket's close event comes |
| `Workers.OrderlyRunsHaveOneStream` | packages/worker/src/container-manager.ts:211-265 | without overlapping connects and late close events there is one stream at most |
| `Workers.OverlapLeavesTwoStreams` | packages/worker/src/container-manager.ts:211-237 | a run that ends with two listening sockets |
| `Workers.StaleCloseDropsStream` | packages/worker/src/container-manager.ts:257-261 | a run in which an old socket's close event drops the new stream |
| `Workers.ContainerManager.CloseContainerWs` | packages/worker/src/container-manager.ts:58-66 | the fields move as the step system's do; the old socket is closed |
| `Workers.ContainerManager.FinishConnect` | packages/worker/src/container-manager.ts:216-272 | each way the fetch can end takes the fields through the step system's own function; init is tried once on an accepted socket, which is connected exactly when that send did not throw |
| `Workers.ContainerManager.OnCloseEvent` | packages/worker/src/container-manager.ts:257-261 | a close event clears the fields, whichever socket it is of |
| `Workers.ContainerManager.SendToContainerWs` | packages/worker/src/container-manager.ts:278-291 | with a ready stream the frame is tried on it once, and the message is posted to `/write` exactly when that send throws; without one it is posted |
| `Workers.ContainerManager.OnClientMessage` | packages/worker/src/container-manager.ts:421-436 | streamed exactly when the stream is ready and the send does not throw, `/writeread` exactly for data without a ready stream, `/write` otherwise |
| `WorkerBroadcasts.BroadcastToWebSockets` | packages/worker/src/container-manager.ts:370-379 | every open socket gets the text once, whichever of the others throw |
| `WorkerBroadcasts.BroadcastBody` | packages/worker/src/container-manager.ts:319-331 | every open socket gets every line that parses, written again, in order; the parser and writer are an argument |
| `WorkerBroadcasts.WorkerHopReserialises` | packages/worker/src/protocol.ts:58-68 | the worker's parse and write, as a total function, is what the theorems about the worker ask for |
| `WorkerBroadcasts.ReplyThroughWorker` | packages/worker/src/container-manager.ts:351-362 | through the worker's fallback the relay reads the bridge's reply: same bytes, same code |
| `RepoParser.ParseRepoRefinesStrip` | packages/ssh-relay/internal/github/parser.go:8-52 | for every string, the four lazy patterns with first-match meaning equal: take off a known prefix, a closing slash where allowed, then one `.git` if something remains |
| `RepoParser.BareCharIff` | packages/ssh-relay/internal/github/parser.go:13 | the class of the bare pattern is the letters, the digits and `_.-`, spelled out, and nothing else |
| `RepoParser.IsSpaceIff` | packages/ssh-relay/internal/github/parser.go:26 | what is trimmed is Unicode's white space, spelled out, and nothing else |
| `RepoParser.TrimSpaceIs` | packages/ssh-relay/internal/github/parser.go:26 | for every text: white space around it goes, what it starts and ends with inside stays, and the parser does not see the difference |
| `RepoParser.ParsedShape` | packages/ssh-relay/internal/github/parser.go:25-52 | a non-empty result has exactly one slash with something on both sides |
| `RepoParser.TryFinds` | packages/ssh-relay/internal/github/parser.go:10-13 | the backtracking matcher takes the first end from which the rest matches |
| `RepoParser.CaptureHttps` | packages/ssh-relay/internal/github/parser.go:10 | the HTTPS pattern, its optional `s` included, captures what stripping either prefix leaves |
| `RepoParser.CaptureBare` | packages/ssh-relay/internal/github/parser.go:13 | the bare pattern matches exactly a pair of names over its alphabet, and captures all of it |
| `WorkDirs.JoinPlain` | packages/container/pty-bridge/main.go:667 | joining a slash-free name under the base: empty and dot stay, two dots go up, anything else goes below |
| `WorkDirs.WorkDirIs` | packages/container/pty-bridge/main.go:655-668 | for every text: the directory is that of what follows its last slash, less one `.git`; without a repository it is `/root/dev` |
| `WorkDirs.SpellingInvariance` | packages/container/pty-bridge/main.go:663-667 | every spelling of a bare-alphabet repository not ending in `.git` gives the directory of its name |
| `WorkDirs.SpellingsAgreeIff` | packages/ssh-relay/internal/github/parser.go:25-52 | all spellings give one directory exactly when the name does not end in `.git` |
| `WorkDirs.GitGetsUrlIff` | packages/container/pty-bridge/main.go:682-685 | for every input: git is given the HTTPS URL of the parsed repository exactly when it starts like no URL and ends in nothing that a URL loses |
| `WorkDirs.CloneUrlParsesBack` | packages/container/pty-bridge/main.go:682-685 | for every input: the text git is given, a URL or not, parses back to the repository exactly when a check on the repository says so |
| `WorkDirs.BareClonesBack` | packages/container/pty-bridge/main.go:682-685 | the same over the bare alphabet: exactly when the owner starts with `http`, so that the text is passed through, or no `.git` is dropped from the name |

## Left out

- OutputPath.EndToEnd: speaks of runs with nothing evicted or lost; `EndToEndAccount` says what arrives in all others.
- Messages.HopRoundTrip: integers beyond 2^53 lose digits in JavaScript; they are excluded, not modelled.
- PtySessions.PTYSession.HandleRead: the handler run without interruption; its two halves, `ReadFlag` and `DrainReply`, hold whatever runs between them.
- Framing.HopFramingRoundTrip: exit codes beyond 2^53 are excluded, as JavaScript numbers are not exact there; no process has one.
- WorkerBroadcasts.ReplyThroughWorker: exit codes beyond 2^53 are excluded for the same reason.
- StreamPaths.StreamEndToEnd: speaks of a socket with no write errors and an exit code below 2^53; it says nothing of what other sockets add to the same client.
- StreamPaths.HandoverEndToEnd: what the drained response and the stream bring; in which order the relay shows the two is left to the worker's network.
- OutputHoles.HoleCanShowIff: speaks of sessions that go on; once the process was marked stopped an exit line may already be on its way, and whether a hole can still show depends on which bytes are left. `NoHoleWhenWhole` holds of all.
- LocalProxies.EffectOfMessage: the proxy decodes numbers as 64-bit floats, so timestamps and sizes beyond 2^53 come out rounded; pings and inits with such numbers are excluded.
- WorkerBroadcasts.WorkerHopReserialises: `WorkerHop` writes numbers beyond 2^53 as they were read, where JavaScript rounds them; the theorems do not rely on it there.
- OutputArrivals.AllCanArrive: says that the rest can arrive, not that it will; losses, lost sockets and hang-ups are other continuations.
- RelayFinishes.SessionCanAlwaysFinish: the same; no step claims that the output ever stops.
- WorkerBroadcasts.BroadcastBody: the worker's parser and writer are an argument; `ReplyThroughWorker` puts the program's in.
- WorkDirs.CloneUrlParsesBack: counts a text that is passed through as parsing back, though git gets no URL; `GitGetsUrlIff` does not.
- WorkDirs.BareClonesBack: the same.
- Json.ObjectRoundTrip: flat objects of strings, integers, booleans and null, which is all the protocol uses.
- LocalProxies.CanCloseAgainIff: stated after the first close; how often `done` is closed in all is `ClosedTwiceIff`.
- SQLite key registry and public-key handler: thin wrappers that would add only map facts.
- Worker routing, health and status pages, CORS, status texts: no state worth an invariant.
- Container start-up, ping, storage, hibernation and activity timeouts: platform code, nondeterministic at the awaits.
- Worker client sockets coming and going: a broadcast is proved for any fixed list of them.
- Process spawning, `git`, file-system checks, window-size ioctls, environment and flags: only their string computations.
- Time: tickers, deadlines and the half second before the container exits are steps that may or may not come.
- WebSocket and HTTP wire formats; raw concurrent writes inside the WebSocket library, except in `SafeConn.dfy`.
- JSON beyond the protocol: nested values, fractions, exponents, keys that look like integers (JavaScript moves them to the front); what Go fills in beside a field of the wrong type.
- Text is a sequence of characters: UTF-8 encoding and invalid UTF-8 are not modelled.
- The text of error messages: the relay prints the `error` field while the producers fill `message`.
- The relay's SSH read is not woken by `done`; no step claims it is.
- Rejected and not-yet-initialised requests answer with an error line that carries no output; its text is not modelled.
- Shell scripts, Dockerfiles, compose, service and configuration files.
