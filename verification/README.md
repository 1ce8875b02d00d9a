# RemoteAgent, verified

RemoteAgent keeps PTY sessions in a host process, proxies them through a daemon and a relay, and
redraws the terminal in a browser. This Dafny 4.11 project models the parts of that path where the
order of events decides what is right, and proves what they keep over every run.

- `SessionStream`, `Terminal`: a session from the reader thread to the screen. The reader's three
  steps (ring push, counter bump, send) interleave freely with an attach (subscribe, copy, load).
  The browser filters by sequence number and buffers until a terminal is mounted.
- `HubLocks`, `Hub`, `HubHello`, `RelayHub`: the relay's hub twice, at lock granularity and with atomic
  hub calls under the connection lifecycle, the outcome of a hello, and the hub's methods as a class.
- `Crypto`, `RelayClient`, `Handshake`, `Viewer`, `ViewerSends`: the end-to-end layer with symbolic keys, the
  daemon's authentication gate and kick timer, the two ends over FIFO channels, and the browser's
  connection object with its numbered requests.
- `HostMux`, `HostAnswers`, `PingText`: requests and pushed events multiplexed over the host connection,
  what the host answers, and which request lines it takes for its keep-alive.
- `EndToEnd`: one session through all of these links at once, from the host's wire to the screen.
- `Utf8`, `Ansi`, `Detector`, `DetectorRuns`, `DetectorReports`, `DetectorOccurrences`,
  `DetectorOlder`, `LiveDetector`: the agent detector, the last as the object with its fields.
- `ProcessTree`, `SplitCommand`, `RecentList`: three self-contained algorithms.
- `Common`, `Protocol`: shared sequence facts and the message types.

Code that works step by step is a class or a method with loops, proved against a function of the
old state; the theorems over runs are about those functions. A run is a list of actions; an action
that is not enabled in a state does nothing, so a theorem about all lists is about all schedules.

Where the code does less than its comments say, the project follows the code and states exactly
what holds:

- a snapshot may already contain the chunk whose counter has not been bumped, and the browser then
  shows it twice: `SeamExactly` says when, `SeamCanRepeat` and `SeamScreen` give a run;
- an exit before the terminal is mounted discards buffered text: `DeferredMountRefinesImmediate` says
  exactly when the screen differs, `ExitBeforeMountLosesText` gives a run;
- the hub's mutex is released before the room's is taken, so a room can be occupied and unlisted.
  `UnlistsExactly` names the two kinds of step that cause it: a late registration fills a room that
  was unlisted meanwhile, or a late unregistration finds its old room empty and unlists the device's
  new one. `UnlistedRoomCanBeOccupied` and `OccupiedRoomCanBeUnlisted` give a run of each,
  `UnlistedRoomFillsExactly` says which unlisted rooms can be filled, and `InTurnAllListed` that it
  cannot happen while calls for one device do not overlap;
- quoting empty words is not undone by the splitter: `SplitUndoesQuoting` is an equivalence;
- a request line that contains "host.ping" in quotes is taken for a keep-alive, and the host never
  answers it: `ContainsExactly` and `MentionsPingExactly` say which requests these are,
  `OnlyPingsGoUnanswered` that there are no others, `PingCommandIsNotAnswered` gives a run. The caller
  gets its own timeout in the end, which is not part of this model;
- a character split between two output chunks is replaced, and the stripped text is then not the
  stripped output: `ChunkingDoesNotMatter` is an equivalence, `SplitCharacterIsLost` an example;
- a feed of the detector panics when its cut lands inside a character. `PanicsExactly` says that no
  other slice can panic, `RunPanicsExactly` which runs are free of it, for any output and with or
  without an agent, and `CutCanSplitACharacter` gives an input;
- a later feed can apply an occurrence older than one already applied, and put the status back:
  `OlderPositionExactly` says exactly when, `OlderPositionApplied` gives a run.

## Model

| member | source | states |
|---|---|---|
| Terminal.TerminalApp.Snapshot | web/src/TerminalApp.tsx:295-304 | a snapshot sets the baseline and replaces the terminal's text, or the whole buffer of an unmounted one |
| Terminal.TerminalApp.Output | web/src/TerminalApp.tsx:305-318 | an output at or below the baseline is dropped; otherwise it is written, or buffered before the mount |
| Terminal.TerminalApp.Exited | web/src/TerminalApp.tsx:329-333 | an exit discards the session's buffer and nothing else |
| Terminal.TerminalApp.HostCallback | web/src/TerminalApp.tsx:411-436 | mounting replays the buffered chunks in order and clears the buffer, once |
| Terminal.ViewStep | web/src/TerminalApp.tsx:295-333 | what a session shows depends on mounting only through an exit of an unmounted one |
| Terminal.ImmediateShowsAccepted | web/src/TerminalApp.tsx:295-318 | a terminal that existed from the start shows exactly the last snapshot and the outputs accepted since |
| Terminal.DeferredMountLaw | web/src/TerminalApp.tsx:411-436 | for every history over any sessions, a terminal that existed from the start shows the bytes lost to early exits followed by what the buffered one shows; the lost bytes are told from the events alone |
| Terminal.DeferredMountRefinesImmediate | web/src/TerminalApp.tsx:429-436 | for every history with a mount, deferred mounting gives the text immediate mounting would if and only if no exit came before the first mount while accepted bytes were buffered, with no snapshot after it |
| Terminal.NothingLost | web/src/TerminalApp.tsx:329-333 | with no exit before the first mount the two texts are equal |
| Terminal.ExitBeforeMountLosesText | web/src/TerminalApp.tsx:329-333 | output, exit, mount: the text is gone, so that condition is needed |
| Terminal.MountedHasNoBuffer | web/src/TerminalApp.tsx:411-436 | over every history a mounted session has no buffer |
| SessionStream.Session.PushRing | daemon/src/session.rs:131-138 | the ring stays the last 200 KiB of all chunks pushed, the new one included |
| SessionStream.Session.SetSubscriber | daemon/src/session.rs:117-119 | a channel becomes the subscriber; ring, counter and queue stay |
| SessionStream.Session.Snapshot | daemon/src/session.rs:126-129 | the bytes are the last 200 KiB of all chunks pushed; the number counts all of these chunks, or all but the last one, as the counter stands |
| SessionStream.Session.ReadOnce | daemon/src/session.rs:265-283 | one turn of the reader is push, bump, agent report, send, in that order |
| SessionStream.RingStep | daemon/src/session.rs:131-138 | every step keeps the ring equal to the last 200 KiB of all chunks read, whichever thread takes it |
| SessionStream.OutputsStep | daemon/src/session.rs:265-283 | the outputs in the pipe are always consecutively numbered and end at the last chunk sent |
| SessionStream.RunInv | daemon/src/session.rs:117-138 | in every reachable state the counter is the number of chunks read or one less, and each snapshot on the wire holds the ring over the first m chunks, is numbered m or m-1, and is covered by the outputs that follow it |
| SessionStream.ReplayOutputs | web/src/TerminalApp.tsx:305-318 | consecutively numbered outputs above and below a baseline add exactly the chunks above it |
| SessionStream.ScreenFromSnapshot | daemon/src/host_server.rs:192-203 | for every interleaving, every browser state before and any frames of other sessions in between, the screen after a snapshot is the ring over chunks 1..m and then chunks q+1..n with q = m or m-1: no gap, no reordering, at most one chunk twice |
| SessionStream.NothingMissingWhenQuiet | daemon/src/host_server.rs:88-118 | once the reader is idle and the queue drained, the screen goes to the last chunk read |
| SessionStream.SeamExactly | daemon/src/session.rs:126-129 | the seam repeats a chunk exactly when the counter is loaded between push and bump; the repeated chunk has at most 32 KiB and ends the snapshot |
| SessionStream.SeamCanRepeat | daemon/src/session.rs:272-275 | a run whose wire carries a snapshot numbered 0 with chunk 1 in it, then output 1 |
| SessionStream.SeamScreen | web/src/TerminalApp.tsx:295-318 | the browser shows that chunk twice |
| SessionStream.AgentReportsExactly | daemon/src/session.rs:276-281 | for every interleaving the agent frames on the wire are the first of the reports detected since there was a subscriber, field by field and in order, and all of them once the queue is drained |
| HubLocks.RunInv | relay/hub.go:82-219 | every mutex is held by exactly the operation inside its section, and every room object has at most one viewer |
| HubLocks.RoomsExclude | relay/hub.go:94-95 | no two operations are ever inside the same room |
| HubLocks.SlotsChangeInTurn | relay/hub.go:96-101 | a room's daemon slot changes only from empty to the registering connection and from the unregistering connection to empty, by the operation holding the room |
| HubLocks.SomeoneCanGo | relay/hub.go:195-219 | whenever an operation is unfinished, some operation can step, although unregister waits for the hub's mutex while holding a room |
| HubLocks.EveryScheduleFinishes | relay/hub.go:134-155 | every schedule is at most as long as the work left, and a state where nobody can step has all operations finished |
| HubLocks.ReachableNeverStuck | relay/hub.go:82-131 | for any number of goroutines and any history, no reachable state is stuck |
| HubLocks.UnlistsExactly | relay/hub.go:94-100 | in every reachable state where every occupied room is listed, a step breaks this if and only if it is a registration filling an empty, unlisted room, or an unregistration unlisting a device whose listed room is occupied |
| HubLocks.UnlistedRoomFillsExactly | relay/hub.go:86-100 | in every reachable state an empty, unlisted room is occupied in some continuation if and only if a registration that looked it up still waits for it or is inside it; it is unlisted in every continuation |
| HubLocks.InTurnAllListed | relay/hub.go:195-219 | in every run in which calls for one device do not overlap, every occupied room is listed |
| HubLocks.AloneIsAtomic | relay/hub.go:82-219 | an operation nobody interferes with does to map and rooms what it does as one step |
| HubLocks.UnlistedRoomCanBeOccupied | relay/hub.go:86-94 | a run in which a late registration leaves a daemon in a room the map does not list |
| HubLocks.OccupiedRoomCanBeUnlisted | relay/hub.go:213-218 | a run in which a kicked viewer, unregistering late, unlists the room its daemon has reconnected to |
| RelayHub.RelayHub.SendMsg | relay/hub.go:33-43 | a message is queued, or the full connection is shut down and the message lost; nobody else is touched |
| RelayHub.RelayHub.BroadcastToClients | relay/hub.go:222-226 | every viewer of the room, and nobody else, is sent the message |
| RelayHub.RelayHub.RegisterDaemon | relay/hub.go:82-106 | wrong key and occupied slot are refused without any change; otherwise the slot is filled and the viewers told (which hellos are refused, and with what, is HubHello.HelloExactly) |
| RelayHub.RelayHub.JoinClient | relay/hub.go:111-131 | absent daemon and taken viewer slot are refused without any change |
| RelayHub.RelayHub.Forward | relay/hub.go:134-155 | a daemon's bytes go to the room's viewers, a viewer's to its daemon, or an error back to it |
| RelayHub.RelayHub.KickClients | relay/hub.go:159-178 | the viewer slot is freed and the viewers are told, then shut down |
| RelayHub.RelayHub.Unregister | relay/hub.go:195-219 | the leaver's slot is freed, a daemon's viewers are told, an empty room is deleted |
| RelayHub.RelayHub.TakeHello | relay/main.go:107-138 | every malformed hello gets its own error, any other the hub call of its role; map and slot invariant kept |
| RelayHub.RelayHub.AnswerHello | relay/main.go:139-144 | the answer is sent; an error ends the connection's reading; map and slot invariant kept |
| RelayHub.RelayHub.ReadFrame | relay/main.go:153-173 | pings are answered, kicks honoured from daemons only, repeated hellos and non-text ignored, all else forwarded; map and slot invariant kept |
| RelayHub.RelayHub.CleanUp | relay/main.go:82-85 | the deferred end unregisters, then shuts the queue; map and slot invariant kept, and the connection is in no slot |
| RelayHub.RelayHub.ReadPump | relay/main.go:81-175 | one connection alone, from its hello to its cleanup: map and slot invariant kept, and the connection is in no slot |
| Hub.RunSlots | relay/hub.go:82-219 | in every reachable state the map holds non-empty rooms only and each slot is held by a live connection of that device and role, whatever comes between a hello and its answer and whenever a socket breaks |
| HubHello.HelloExactly | relay/main.go:107-144 | in every reachable state a hello is answered hello_ack if and only if it meets nine checks on the envelope and the room, among them the relay's key, and then its connection fills its slot and no other room changes; otherwise it gets the error of the first check it fails and no room changes |
| HubHello.DaemonSlotNeedsKey | relay/hub.go:82-106 | for every run, whoever fills a device's daemon slot came with that device's well-formed daemon hello, and with the relay's key as its token whenever the relay has one |
| HubHello.ViewerSlotNeedsHello | relay/hub.go:111-131 | for every run, whoever fills a viewer slot came with that device's well-formed client hello |
| Hub.MapIsOccupiedRooms | relay/hub.go:213-218 | a device is in the map if and only if some looping connection of that device fills a slot |
| Hub.OneSlotEach | relay/hub.go:96-101 | a connection fills at most one slot, only under its own device and role |
| Hub.OneSlot | relay/hub.go:96-101 | the same wherever the invariant holds, which the methods of RelayHub keep |
| Hub.CleanupOutsideSlots | relay/hub.go:195-219 | the cleanup of a connection outside every slot leaves the map and all other connections unchanged |
| Hub.LateCleanupIsHarmless | relay/main.go:82-85 | a connection that is out of its slot stays out over every continuation, and its cleanup at any later time changes nobody else |
| Hub.RejectedAndKickedAreOut | relay/hub.go:159-178 | rejected connections are outside every slot, and a daemon's kick puts its viewers outside and closes them |
| Hub.StepExtends | relay/hub.go:33-43 | each step appends to a connection exactly the message addressed to it, in order, and loses it only by shutting the connection down |
| Hub.FifoPipe | relay/hub.go:134-155 | the payloads a connection was given are a prefix of what the other side of its room forwarded while it held its slot, in order and once each, and all of it unless it was shut down |
| Hub.PayloadsStayInDevice | relay/main.go:146-174 | every payload delivered anywhere has sender and receiver with the same, non-empty device |
| Hub.PresenceIsTrue | relay/hub.go:96-103 | in every reachable state a joined viewer's last presence, or "online" if it had none, says whether the room has a daemon |
| Crypto.E2EClient.ProofMessage | web/src/lib/e2e.ts:39-45 | a new secret is kept and the proof made with it verifies under the same token |
| Crypto.E2EClient.Finish | web/src/lib/e2e.ts:48-65 | it succeeds exactly when a secret is pending and the MAC is the token's over that public key; then the secret is used up and the key is the shared secret's, salted daemon first; otherwise nothing changes |
| Crypto.E2EClient.SealText | web/src/lib/e2e.ts:68-73 | without a key nothing is sealed; what is sealed opens to the same text, and under no key but the established one |
| Crypto.E2EClient.OpenText | web/src/lib/e2e.ts:76-82 | a frame opens exactly when it was sealed under the established key, and sealing the result again gives the frame |
| RelayClient.Connection.OnAuthCheck | daemon/src/relay_client.rs:121-128 | a kick goes out exactly when no key exists past the deadline, and the next window runs from the clock's reading after it |
| RelayClient.Connection.OnHostEvent | daemon/src/relay_client.rs:129-147 | an event goes out sealed when a key exists |
| RelayClient.Connection.OnProof | daemon/src/relay_client.rs:198-227 | a good proof is answered before the new key is installed; a bad one gets an error and leaves the key |
| RelayClient.Connection.OnInbound | daemon/src/relay_client.rs:148-256 | one inbound frame through envelope, gate, ping, proof and request |
| RelayClient.GateLetsThroughExactlyOpened | daemon/src/relay_client.rs:165-248 | for every history `host.request` receives exactly the texts of envelopes sealed under the key current on arrival, other than proofs and pings, in order; the key is that of the last accepted proof |
| RelayClient.NothingBeforeProof | daemon/src/relay_client.rs:234-244 | with no verified proof, nothing reaches the host |
| RelayClient.KeyIsNeverRemoved | daemon/src/relay_client.rs:198-225 | once a key exists no history removes it, failed proofs included |
| RelayClient.SealedUnderKey | daemon/src/relay_client.rs:129-147 | after any history with an accepted proof, each session frame a further event adds is sealed under that key, an answer appears exactly for an accepted proof, and no kick is asked for |
| RelayClient.InboundExactly | daemon/src/relay_client.rs:148-256 | after any history, with or without a key, a frame that is passed over changes nothing, and any other adds to the sink exactly the answer its text and the key demand: protocol_error, auth.ok, auth_failed, pong, auth_required or the sealed replies |
| RelayClient.EventExactly | daemon/src/relay_client.rs:129-147 | after any history an event adds itself, in the clear without a key and sealed under the key with one |
| RelayClient.KicksAreTimely | daemon/src/relay_client.rs:106-128 | with checks at most 5 s apart and no accepted proof, each kick comes more than 30 s and at most 35 s after its window opened, which is when the previous kick had been sent |
| RelayClient.TrafficDoesNotMoveKicks | daemon/src/relay_client.rs:108-128 | kicks and deadline are those of the history with everything but the checks removed |
| Handshake.RunInv | web/src/lib/daemon.ts:82-118 | the in-flight invariant of the handshake over every interleaving, the relay injecting forged frames at any time |
| Handshake.KeyAgreement | web/src/lib/e2e.ts:48-65 | with equal tokens, once the proof is accepted, the key the viewer will hold after everything in flight is the key the daemon holds |
| Handshake.SealedFramesOpen | web/src/lib/daemon.ts:148-157 | every frame sealed after the answer opens to its own text at the viewer, and every frame sealed after readiness opens to its own text at the daemon |
| Handshake.DeliveredExactly | web/src/lib/daemon.ts:82-119 | in every reachable state, what the viewer makes of the next frame: early envelopes, envelopes under another key and opened ones are told apart, and an answer makes it ready exactly when it is its own token's and a proof is pending |
| Handshake.HandshakeCompletes | daemon/src/relay_client.rs:198-213 | with nothing in flight the viewer holds the daemon's key if and only if it has sent its proof; before that both hold what they started with |
| Handshake.DifferentTokensInstallNothing | daemon/src/crypto.rs:57-66 | with different tokens no interleaving installs a key at either end |
| Handshake.ForgedIsRefused | web/src/lib/e2e.ts:52-54 | a frame without a MAC of the viewer's token over the public key it names changes neither key nor pending secret, and never makes the viewer ready |
| Handshake.ViewerKeyIsGenuine | web/src/lib/daemon.ts:110-119 | for every run, with equal tokens or not and whatever forged frames the relay injects, the viewer's key is the one left over or comes from its own secret and an answer of the daemon made with the viewer's token |
| Viewer.DaemonConnection.SendMessage | web/src/lib/daemon.ts:148-157 | nothing is sent on a socket that is not open; under a key all but hellos, pings and proofs are sealed |
| Viewer.DaemonConnection.RequestReply | web/src/lib/daemon.ts:159-165 | a request draws the next id, waits, and is sent if the socket is open (what was sent over a run is ViewerSends.EverythingSaidIsSent) |
| Viewer.DaemonConnection.Dispatch | web/src/lib/daemon.ts:82-146 | a frame is opened, proves, finishes the handshake or resolves the waiting request with its id |
| Viewer.DaemonConnection.OnClose | web/src/lib/daemon.ts:72-78 | the close of the current socket drops every waiting request |
| Viewer.EachRequestHasOneFate | web/src/lib/daemon.ts:139-145 | for every run, reconnects and stale frames included, a request is resolved at most once, by the first message let through that carries its id after it was asked, and waits exactly until then or until a close |
| Viewer.WithId | web/src/lib/daemon.ts:159-165 | the message carries the id it drew and asks for what was asked |
| Viewer.SealedEverAfter | web/src/lib/daemon.ts:148-157 | once a key is established it stays, and everything sent later but hellos, pings and proofs is sealed under the key held at that moment |
| ViewerSends.EverythingSaidIsSent | web/src/lib/daemon.ts:148-165 | for every run, what went to the socket is exactly what was said while it was open, told from the actions alone: hellos, pings, requests with their ids, messages and proofs, in order and once each, in the clear or sealed under the key held |
| Viewer.HostAnswerResolvesItsRequest | daemon/src/host_server.rs:162-266 | whatever the request and the host's sessions, the host's sealed answer resolves that request and no other |
| HostMux.SessionHost.Route | daemon/src/host_client.rs:136-184 | frames with an id go to the waiting request, the end delivers them, all else is broadcast |
| HostMux.HostServer.ServeLine | daemon/src/host_server.rs:119-148 | a request's answers are written as one block followed by its end |
| HostAnswers.SessionsAreLive | daemon/src/host_server.rs:162-266 | for every run the host's sessions are exactly those its frames show as created and neither killed nor exited since |
| HostAnswers.EveryAnswerIsRight | daemon/src/host_server.rs:119-148 | for every run and every request taken, the answer is the right one for the sessions live by the frames written before, and stands there as one block with its end: attach, kill, list, create, input and resize, each with its errors |
| HostAnswers.OnlyLiveAttachesRedraw | daemon/src/host_server.rs:192-211 | an answer holds a snapshot if and only if it answers an attach of a live session |
| HostMux.RepliesCarryOwnId | daemon/src/host_server.rs:162-266 | a request with an id is answered by exactly one frame with an id, its own; any other by none |
| HostMux.RunInv | daemon/src/host_client.rs:194-240 | at most one answer is in flight, its frames between events, and the gate's holder has collected its prefix |
| HostMux.RequestsGetTheirOwnReplies | daemon/src/host_client.rs:212-240 | for every interleaving the k-th gated request returns exactly the id-carrying frames the host produced for it, in order |
| HostMux.BroadcastIsWireOrder | daemon/src/host_client.rs:136-184 | the broadcast carries every other frame, snapshots included, in exactly the order the host wrote them |
| EndToEnd.SinkCarriesSession | daemon/src/relay_client.rs:129-147 | under a key that stays, what the loop sends opens to exactly the session's messages it took from the broadcast, in order, among others |
| EndToEnd.PipeCarriesFrames | relay/hub.go:134-155 | the viewer's connection is given a prefix of the daemon's frames, and all of them unless it was shut down |
| EndToEnd.OneKey | daemon/src/relay_client.rs:198-213 | after any run of the handshake past its accepted proof, a viewer that has consumed what was in flight holds the daemon's key |
| EndToEnd.ViewerHears | web/src/lib/daemon.ts:82-101 | a viewer that holds the key hears of a session what the frames open to, whatever it does in between and whatever the relay itself sends it |
| EndToEnd.HeardIsTaken | web/src/lib/daemon.ts:82-132 | what the viewer heard of a session is a prefix of what the loop took of it from the broadcast |
| EndToEnd.SessionEndToEnd | web/src/TerminalApp.tsx:295-318 | from a handshake on, for every run of every link and any part of the relay's queue received so far, the screen from any snapshot the viewer heard is the host's seamless text up to the last chunk that reached it |
| HostMux.OnlyPingsGoUnanswered | daemon/src/host_server.rs:119-133 | a caller waits with nothing in flight exactly when its line was taken for a keep-alive, and such a line the host never answers |
| HostMux.PingCommandIsNotAnswered | daemon/src/host_server.rs:127-130 | creating a session with the command host.ping: the host writes a pong and nothing else |
| PingText.ContainsExactly | daemon/src/host_server.rs:127 | the JSON text of a string contains a plain word in quotes if and only if the string is the word or ends with it after a quote |
| PingText.MentionsPingExactly | daemon/src/protocol.rs:9-45 | a request is taken for a keep-alive if and only if one of its string fields is host.ping or ends with it after a quote |
| PingText.FieldsExactly | daemon/src/protocol.rs:9-45 | the same told field by field for each kind of request |
| Ansi.StripAnsi | daemon/src/detector.rs:164-204 | the loop over a chunk is the automaton run from the kept state |
| Ansi.StripConcat | daemon/src/detector.rs:164-204 | stripping piece by piece strips the whole |
| Ansi.StrippedIsClean | daemon/src/detector.rs:164-204 | the stripped text has no ESC and no CR and nothing that was not in the input |
| Ansi.PlainTextPasses | daemon/src/detector.rs:169-177 | text without ESC and CR passes unchanged |
| Ansi.PlainDropsReturns | daemon/src/detector.rs:169-177 | text without ESC passes but for its carriage returns |
| Ansi.InsertionIsInvisible | daemon/src/detector.rs:164-204 | inserting a control sequence (ECMA-48 section 5.4), an operating system command or a two-byte escape where the automaton is in plain text leaves the stripped text unchanged |
| Ansi.CsiEnds | daemon/src/detector.rs:164-204 | a control sequence is silent and ends at its first final byte |
| Ansi.OscEnds | daemon/src/detector.rs:164-204 | a command is silent and ends at its first BEL, or backslash with an ESC anywhere before it |
| Utf8.LossyIsWellFormed | daemon/src/detector.rs:203 | lossy decoding gives well-formed UTF-8 (RFC 3629 section 4), and is the identity exactly on well-formed input |
| Utf8.LossyReplaces | daemon/src/detector.rs:203 | one replacement character stands for each longest piece that begins a character without completing it, and for each byte that begins none |
| Utf8.SplitAtBoundary | daemon/src/detector.rs:105-113 | a cut at a character boundary leaves well-formed parts |
| LiveDetector.AgentDetector.AppendText | daemon/src/detector.rs:103-113 | text is appended, then the window cut on the left and every cursor moved with it; or the cut panics, exactly when it is inside a character, and nothing moved |
| LiveDetector.AgentDetector.TakeHits | daemon/src/detector.rs:121-132 | each marker is searched once past its cursor, which moves past the hit; every search starts on a character boundary |
| LiveDetector.AgentDetector.Feed | daemon/src/detector.rs:103-161 | for every chunk: a feed panics exactly when one of its slices is inside a character, which is exactly when its cut is; otherwise the new detector is valid and, with the snapshot, that of the specification |
| LiveDetector.AgentDetector.ApplyHits | daemon/src/detector.rs:137-155 | the hits are applied in order of position, each detail sliced on boundaries, with the outcome of the specification (which hits count is DetectorReports.FeedReportsExactly) |
| Detector.SortedIsSort | daemon/src/detector.rs:138 | the hits are applied in order of position, none added or dropped |
| DetectorRuns.FeedKeepsValid | daemon/src/detector.rs:103-161 | a feed whose cut lands on a boundary keeps the window well-formed and every cursor on a boundary |
| DetectorRuns.PanicsExactly | daemon/src/detector.rs:105-153 | of a valid detector's slices, namely the cut, the starts of the searches and both ends of each detail, some is off a boundary if and only if the cut is |
| DetectorRuns.RunPanicsExactly | daemon/src/detector.rs:104-113 | for every run, with or without an agent, no feed panics if and only if at no time the byte 16 KiB before the end of the text so far is inside a character |
| DetectorRuns.RunValid | daemon/src/detector.rs:103-161 | the same over every run |
| DetectorRuns.DetailIsOk | daemon/src/detector.rs:147-153 | a detail is well-formed, starts with the whole marker, newlines as spaces, and ends at the last boundary at most 60 bytes past it |
| DetectorRuns.FeedStatus | daemon/src/detector.rs:121-155 | after a feed in which some marker is found past its cursor the status is that of the one found at the greatest position; when none is found nothing changes and nothing is reported |
| DetectorRuns.FeedDetail | daemon/src/detector.rs:137-161 | a snapshot is reported exactly when a detail was written; that detail is the window's text at a marker found in this feed whose status is the final one, up to the last character boundary at most 60 bytes past it |
| DetectorReports.FeedReportsExactly | daemon/src/detector.rs:137-161 | a feed reports if and only if some marker found is news: working, or unlike the marker found next before it, or for the first unlike the status before; the detail is the text of the last such marker, and otherwise stays |
| DetectorRuns.WindowIsEndOfStream | daemon/src/detector.rs:104-113 | for every run the window is the last 16 KiB of everything appended and the automaton is where the whole output leaves it |
| DetectorRuns.ChunkingDoesNotMatter | daemon/src/detector.rs:164-204 | the text appended is the stripped output, however chunked, if and only if every chunk strips to well-formed text |
| DetectorRuns.SingleByteOutput | daemon/src/detector.rs:104-113 | for single-byte output the window is the last 16 KiB of the stripped output, and no cut can panic |
| DetectorRuns.SplitCharacterIsLost | daemon/src/detector.rs:203 | one character in two chunks becomes two replacement characters |
| DetectorRuns.CutCanSplitACharacter | daemon/src/detector.rs:105-108 | a two-byte character and 16383 single bytes: the first feed panics |
| DetectorOccurrences.RunMarkers | daemon/src/detector.rs:103-132 | what every run keeps of each marker: real, disjoint occurrences below base plus cursor |
| DetectorOccurrences.FiredAreDistinctOccurrences | daemon/src/detector.rs:121-132 | the positions fired for a marker are strictly increasing, disjoint, real occurrences in the whole stripped text; none fires twice |
| DetectorOccurrences.CursorsNeverRetreat | daemon/src/detector.rs:105-113 | no continuation of a run, window slides included, moves base plus cursor back or takes back a fired position |
| DetectorOccurrences.GreedyUntilFirstSlide | daemon/src/detector.rs:121-132 | until the window first slides, what fired is a prefix of the greedy left-to-right occurrences, the rest being those from the cursor on, however the output was chunked |
| DetectorOlder.OlderPositionExactly | daemon/src/detector.rs:121-132 | for every run, next chunk and two markers: the next feed fires the one below a position already fired for the other if and only if the window holds, past its cursor and not cut away, an occurrence of it that begins below |
| DetectorOlder.NextIsFired | daemon/src/detector.rs:124-132 | what the next feed fires is what the run's list of positions gains |
| DetectorOlder.OlderPositionApplied | daemon/src/detector.rs:3 | ERROR ERROR tokens used, then a dot: the status is finished and then error again |
| ProcessTree.Doomed | daemon/src/session.rs:406-415 | for every table, cyclic and repeated rows included, the worklist ends and lists exactly the pids other than the root reachable from it, each once |
| ProcessTree.ClosedHoldsPath | daemon/src/session.rs:406-415 | a set with the root that is closed under children holds everything reachable |
| SplitCommand.SplitWords | daemon/src/session.rs:429-448 | the words are those of the scan, none empty, and together they are the input minus quotes and unquoted whitespace |
| SplitCommand.SplitKeepsText | daemon/src/session.rs:429-448 | the same for the scan, for every input |
| SplitCommand.WordsAreStretches | daemon/src/session.rs:429-448 | for every input the words are the longest parts without unquoted whitespace, in order, without their quotes, and those only that hold more than quotes |
| SplitCommand.SplitUndoesQuoting | daemon/src/session.rs:429-448 | words in quotes joined by spaces split back to themselves if and only if none is empty or holds a quote |
| RecentList.ClientRelays.AddClientRelay | web/src/lib/relays.ts:25-33 | blank urls change nothing; otherwise the trimmed record comes first, older ones of its url go, eight are stored, the uncut list is returned |
| RecentList.ClientRelays.Persist | web/src/lib/relays.ts:21-23 | the first eight records are stored |
| RecentList.TrimExactly | web/src/lib/relays.ts:26-29 | what is stored of a url or name is the text from its first to its last character that is not blank |
| RecentList.NameExactly | web/src/lib/relays.ts:29 | a name is stored, trimmed, if and only if it is given and not blank |
| RecentList.ClientRelays.Remembered | web/src/lib/relays.ts:21-33 | after add-only use the stored relays are the first eight distinct urls of the reversed history |
| RecentList.SavedConns.SaveConn | web/src/Connect.tsx:35-39 | the saved connection comes first, older ones of its url go, eight are stored |
| RecentList.CutBeforeAdd | web/src/lib/relays.ts:21-33 | cutting before an add loses nothing of the cut list after it |
| RecentList.StoredIsCut | web/src/lib/relays.ts:21-33 | the list cut at every write is the unbounded list cut once |
| RecentList.UnboundedIsFirstOfEach | web/src/Connect.tsx:35-39 | the unbounded list is the first record of each url in the reversed history |
| RecentList.StoredIsLatestEight | web/src/Connect.tsx:35-39 | the stored list is the first eight distinct urls of the reversed history, each with its latest record |

## Left out

- Sockets, TLS, JSON text and base64: messages are datatypes, connections are FIFO queues, and a field that does not decode is an option.
- Real X25519, HMAC, HKDF and AES-GCM, nonces, and secrecy: keys are symbolic and only agreement is stated.
- Host timeouts, retries and reconnection (daemon/src/host_client.rs:196-204, 232-259): old reader tasks are not cancelled, so nothing is claimed across host connections. A second host connection or subscriber of a session is not modelled, nor is clearing the subscriber.
- Broadcast lag (daemon/src/relay_client.rs:132-136): the broadcast loses nothing here.
- The order of exit events relative to output: exits come from a waiter thread; in SessionStream a session's own exit does not appear.
- SessionStream.Session.ReadOnce: one turn without interference; the interleavings are those of the state machine in the same module.
- SessionStream.RunInv: the sequence number is unbounded where the source counts in 64 bits.
- RelayHub.RelayHub.SendMsg: a send to a connection already shut down is a no-op; the relay does not guard it, so a shut-down connection here only steps to its cleanup.
- RelayHub.RelayHub.ReadPump: read deadlines, size limits and a socket that breaks are left out, and the method runs with no other connection in between; the interleavings and the breaking socket are those of Hub.
- EndToEnd.SessionEndToEnd: one viewer connection and one accepted proof; each link is a run of its own, and the premises say that what one link takes in is some of what the previous one put out, in order, and that the viewer has first consumed what was in flight when the proof was accepted.
- PingText.MentionsPingExactly: speaks of the fields' texts; that keys and punctuation never put the word between quotes is read off the message types.
- Hub and RelayHub keep rooms and connections as values in maps; two operations holding the same room object appear in HubLocks only, which in turn carries no queues.
- The presence query over HTTP only reads; it appears in HubLocks as an operation and nowhere else.
- Handshake.RunInv: one viewer connection with no kick in it; a proof or answer of an earlier connection still in flight is not modelled, only keys left over from one.
- The daemon's kick window is per relay connection and stops once any key exists: nothing is claimed of a window for each viewer.
- A failed send ends the daemon's relay loop; back-off, settings reload and reconnecting are not part of this model.
- Viewer.DaemonConnection.Dispatch: the handlers for output, snapshots, presence and status are in Terminal; creation of sockets and the keep-alive timer are actions of the state machine.
- HostMux.SessionHost.Route: the gate and the pending slot are fields; the mutexes around them and the token check of the host connection are not.
- HostMux.HostServer.ServeLine: what the operating system makes of a request is a parameter.
- LiveDetector.AgentDetector.Feed: what a panic does to the threads around the detector is left out, as are recognising an agent from the command, a constructor argument here, and the exit of the process.
- ProcessTree.Doomed: takes the (pid, parent) table; reading it and terminating the processes are system calls.
- RecentList.StoredIsLatestEight: add-only histories from an empty list; removing records and repairing corrupted storage are easy and left out.
- Settings, identity, URL normalising, autostart, caching headers, pages, notifications, gestures and the desktop and mobile shells.
