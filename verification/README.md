# Oxmux: a Dafny model of its protocols and session machinery

Oxmux carries terminal bytes between a browser and tmux, through a server over SSH or through an
agent. This project models the parts where that can go wrong and proves what they promise: the
control-mode parser and the octal decoders, the layout grammar, the wire framing, the keystroke
commands, the pane listing, the session manager run whole and interleaved, the client's terminal
registry and message routing, and the agent's subscriptions and resizes.

| file | what it models |
|---|---|
| `Text.dfy` | the Rust string operations the others share |
| `Machines.dfy` | running a state machine over a list of inputs |
| `Encoding.dfy` | UTF-8, written as Rust writes it and read back from bytes |
| `Octal.dfy` | the two decoders of tmux's octal escapes |
| `ControlMode.dfy` | the line-driven control-mode parser, and the lines tmux prints for it |
| `ControlStream.dfy` | the reader task that cuts data messages into lines |
| `Layout.dfy` | the tmux layout grammar |
| `Framing.dfy` | length-prefixed framing in both directions |
| `SendKeys.dfy` | the `send-keys -H` text built by agent and server |
| `PaneListing.dfy` | the listing rebuilt into sessions, windows and panes |
| `WindowTree.dfy` | the agent's sorted window tree against the server's grouping |
| `RouteIndex.dfy` | the index from panes to sessions, and its history |
| `SessionManager.dfy` | the session manager with every call run to completion |
| `Interleaving.dfy` | connect, disconnect and refresh interleaved at their await points |
| `TerminalRegistry.dfy` | reference-counted terminals with delayed disposal |
| `PaneRouting.dfy` | routing by qualified pane id in the browser |
| `EndToEnd.dfy` | input from the browser through the server's routes |
| `AgentPanes.dfy` | the agent's subscriptions and resize tracking |

`dafny verify dfyconfig.toml` checks everything.

Code that updates state is a class or a loop, proved equal to a function of its inputs or old state;
the theorems are lemmas about those functions. A few conventions hold throughout:

* What a call cannot decide itself (a database write, a transport's answer, a timer, the presence of
  tmux's control stdin) is a parameter, and the theorems hold for every value of it.
* A run is a list of steps of any length. In `Interleaving.dfy` a step is what a call does between two
  awaits, by any call on any session; `log` and `recorded` are history the code does not have.
* Where a promise fails for some inputs, the code is kept as it is, a lemma shows the failure, and the
  promise is proved under the exact condition: `Octal.DecodersAgreeExactly` (escapes tmux does not
  write), `Layout.PlainRoundTrip` (a leading size of four characters is taken for a checksum),
  `Layout.BalancedIffTailIs` (brackets after the end of the first node are never read),
  `ControlMode.FeedBodyIff` (reply lines that look like block ends), `Framing.SurviveIffShort` (2^32
  bytes and more), `SendKeys.SameTextIffBytes` (no bytes),
  `PaneListing.FieldsRoundTripIff` and `PaneRouting.ParseInvertsQualify` (texts that run into the
  separator), `PaneListing.FlattenRestoresIffContiguous` (scattered rows),
  `Interleaving.LeftConnectingIff` (writes that fail), `Interleaving.RoutesOutliveDisconnectIff`
  (listings that finish after a disconnect has started), `TerminalRegistry.CountsAreExactIff` and
  `TerminalRegistry.AttachedTerminalSurvivesIff` (components that detach without having mounted),
  `EndToEnd.InputReachesIff` (sessions that number their panes alike, without a link),
  `AgentPanes.RecordedSizeIsTmuxSizeIff` and `AgentPanes.OneRedrawInRunIff` (resizes lost for want of
  control stdin).
* The layout code and its comments read `COLSxROWS` (`server/src/tmux/layout.rs:46`,
  `server/src/tmux/layout.rs:114-119`); the unit test at `server/src/tmux/layout.rs:141-142` expects the
  opposite order. The model follows the code.
* What a function stands for is said without it: a printer spells its own text, a reader works from
  bytes or words alone, a state is described by the history of calls and answers.
* The prefix tests of the control-mode parser are one table searched in order, which is what the chain
  of tests does; `%exit` alone is no prefix of any other notice.

## Model

| member | source | states |
|---|---|---|
| `Text.DecDigits` | agent/src/quic/server.rs:465-472 | a number is printed with its decimal digits, most significant first and without leading zeros |
| `Text.ParseOfDec` | server/src/tmux/layout.rs:114-132 | a printed number parses to itself if it fits the type and to nothing if it does not |
| `Text.ParseForms` | server/src/tmux/layout.rs:114-132 | a plus sign may come first; no digits, or any other first character, is no number |
| `Encoding.Utf8RoundTrip` | server/src/tmux/control.rs:208-210 | every character is read back from its UTF-8 by a reader that knows only lead bytes, continuation bytes and shortest forms |
| `Octal.RawTextIsRead` | agent/src/quic/server.rs:383-386 | text without a backslash, of any language, leaves both decoders as bytes that read as that text |
| `Octal.EscapeIs` | server/src/tmux/control.rs:188-204 | an escape is a backslash and three octal digits, most significant first |
| `Octal.DecodeOnServer` | server/src/tmux/control.rs:184-214 | the server's peeking loop computes the decoding function and its output never exceeds the capacity it reserved, on any text |
| `Octal.DecodeOnAgent` | agent/src/quic/server.rs:354-390 | the agent's peek-and-collect loop computes its decoding function |
| `Octal.OutputFitsReserve` | server/src/tmux/control.rs:185 | on any text at all the decoded bytes are no more than the UTF-8 length of the text |
| `Octal.DecodeDistributes` | server/src/tmux/control.rs:188-211 | decoding distributes over cutting the text wherever the decoder stops between two escapes |
| `Octal.DecodersReadStream` | agent/src/quic/server.rs:354-390 | on every well-formed stream, raw characters as UTF-8 and bytes as three octal digits, both decoders return exactly the bytes meant, whatever follows |
| `Octal.EscapeRoundTrip` | server/src/tmux/control.rs:182-214 | every byte sequence under every choice of escapes that covers backslash and non-ASCII comes back unchanged from both decoders |
| `Octal.TurnsAgreeExactly` | server/src/tmux/control.rs:189-206 | one turn of the two loops takes and produces the same if and only if the text starts with a raw character, a valid escape, or a backslash before a character that is neither octal nor a backslash |
| `Octal.DecodersAgreeExactly` | agent/src/quic/server.rs:354-390 | on any text the two decoders return the same bytes if and only if all of its turns start that way: differences never cancel out |
| `Octal.DecodersDiffer` | agent/src/quic/server.rs:372-381 | a doubled backslash, a lone final backslash, a short escape and one over 255 are read differently |
| `ControlMode.ControlModeParser.FeedLine` | server/src/tmux/control.rs:54-173 | the open block and the emitted events after a line, for every line and both states |
| `ControlMode.FeedBodyIff` | server/src/tmux/control.rs:59-79 | inside a block any lines are kept as they are, in order, if and only if none starts with an end marker or ends in a carriage return |
| `ControlMode.MissingSecondField` | server/src/tmux/control.rs:90-119 | a notice lacking its second field gives no event, except a created session, which gets an empty name |
| `ControlMode.ParserReadsPrinter` | server/src/tmux/control.rs:54-180 | any list of notices, replies, failed replies and unknown lines, each spelled as tmux prints it, is read back as exactly its events in order with no block left open |
| `ControlStream.ReaderTask.OnData` | server/src/session/ssh_transport.rs:407-419 | after a data message the parser has been fed every complete line and the buffer holds no newline |
| `ControlStream.ChunkingIsIrrelevant` | server/src/session/ssh_transport.rs:403-420 | every way of cutting the text into messages gives the same events and the same residual, free of newlines |
| `ControlStream.TaskReadsTmux` | server/src/session/ssh_transport.rs:407-419 | printed output with any carriage returns before each newline, cut anyhow, makes the parser emit exactly the printed events and leaves an empty buffer |
| `ControlStream.NothingEarlyOrWrong` | server/src/session/ssh_transport.rs:398-428 | at any point in such a stream the events so far are a prefix of the printed ones |
| `ControlStream.TaskHandlesUpToExit` | server/src/session/ssh_transport.rs:402-448 | in every run of the task's loop the events handled are a prefix of those printed up to the first exit, and all of them once that exit is handled or nothing is left to arrive or wait |
| `Layout.SplitHeader` | server/src/tmux/layout.rs:88-107 | the comma-counting loop cuts the text at the header's end |
| `Layout.ParseNodeByLoop` | server/src/tmux/layout.rs:45-69 | the parser terminates on every text and computes the grammar's parse |
| `Layout.ParseChildrenByLoop` | server/src/tmux/layout.rs:71-86 | the children loop terminates on every text and computes the grammar's list parse |
| `Layout.NodeRoundTrip` | server/src/tmux/layout.rs:45-69 | a printed tree of any depth and width, followed by any rest that does not lengthen its last number, parses to that tree and that rest |
| `Layout.LeafWithoutId` | server/src/tmux/layout.rs:124-129 | a final leaf may leave out its pane id, which is then 0 |
| `Layout.ReparseIsStable` | server/src/tmux/layout.rs:45-86 | printing what any text parsed to and parsing again gives the same tree |
| `Layout.ChecksumRoundTrip` | server/src/tmux/layout.rs:30-42 | with any four letters and digits in front, and any blanks around, every printed tree parses back |
| `Layout.SplitPrinted` | server/src/tmux/layout.rs:52-63 | braces are around panes side by side, brackets around stacked ones |
| `Layout.PlainRoundTrip` | server/src/tmux/layout.rs:30-42 | without a checksum a printed tree parses back exactly when its leading size is not four characters long, and is an error otherwise |
| `Layout.NodeConsumes` | server/src/tmux/layout.rs:45-86 | what a successful parse takes off the text has every bracket matched by its own kind |
| `Layout.NodeReturnsSuffix` | server/src/tmux/layout.rs:45-86 | a success returns a strictly shorter suffix of its input |
| `Layout.UnclosedNeverParses` | server/src/tmux/layout.rs:50-61 | an opening bracket after the header that is never closed, or closed wrongly, is an error |
| `Layout.ParseStopsAtNodeEnd` | server/src/tmux/layout.rs:45-86 | a successful parse stops exactly at the bracket matching the one after the header, or after the pane id's digits where there is none |
| `Layout.CloserEndIsFirst` | server/src/tmux/layout.rs:71-86 | that bracket is the first place where the brackets opened since balance, if there is any |
| `Layout.BalancedIffTailIs` | server/src/tmux/layout.rs:30-42 | an accepted layout has all its brackets matched if and only if the text after the end of its first node, read off the text, has |
| `Layout.StrayBracketIsAccepted` | server/src/tmux/layout.rs:41 | a closing bracket after any tree is accepted, although it matches nothing |
| `Framing.BigEndianRoundTrip` | agent/src/quic/server.rs:401 | a length survives its four big-endian bytes modulo 2^32 |
| `Framing.BytesAreBigEndian` | agent/src/quic/server.rs:401 | the first of them is the most significant |
| `Framing.AgentStream.OnRead` | agent/src/quic/server.rs:206-217 | one read delivers every complete frame of buffer and chunk, in order, and keeps the rest |
| `Framing.AgentStream.SendRaw` | agent/src/quic/server.rs:399-405 | the bytes written are the payload's frame |
| `Framing.ClientStream.OnRead` | client/src/composables/useQuic.ts:65-84 | the browser's loop computes the same deliveries and remainder as the agent's |
| `Framing.ClientStream.Send` | client/src/composables/useQuic.ts:92-99 | the array filled is the payload's frame |
| `Framing.ReadsAreOneRead` | client/src/composables/useQuic.ts:70-84 | any cutting into reads delivers what a single read would, with the same remainder |
| `Framing.FramesSurviveChunking` | agent/src/quic/server.rs:206-217 | payloads under 2^32 bytes come out whole and in order under every chunking, ending at a frame boundary |
| `Framing.NothingTornOrReordered` | agent/src/quic/server.rs:206-217 | midway, what is delivered is a prefix of what was sent and what is held is a strict prefix of the next frame |
| `Framing.Reassemble` | agent/src/quic/server.rs:209-212 | for any bytes, the frames of what was delivered followed by the remainder are the bytes received |
| `Framing.SurviveIffShort` | agent/src/quic/server.rs:399-405 | under every chunking the payloads sent come out intact if and only if each is shorter than 2^32 bytes |
| `SendKeys.PaneIdIff` | agent/src/quic/server.rs:784-787 | a pane id is a percent sign and one or more decimal digits, and nothing else |
| `SendKeys.SendTmuxInput` | agent/src/quic/server.rs:796-823 | the loop builds the agent's command, and nothing for no bytes or an invalid pane |
| `SendKeys.SameTextIffBytes` | server/src/session/ssh_transport.rs:496-501 | for a valid pane the agent's and the server's texts are equal exactly when there are bytes to send |
| `SendKeys.BothTextsReadBack` | agent/src/quic/server.rs:802-810 | either text is one line ending in its only newline and is read back as exactly the pane and the bytes |
| `PaneListing.ParsePaneListing` | server/src/session/ssh_transport.rs:123-188 | the find-or-create loop computes the grouping of the listing's rows |
| `PaneListing.ListingRoundTrip` | server/src/session/ssh_transport.rs:126-154 | the listing tmux prints for rows whose fields hold no newline, no three bars in a row and no bar at the end is read back as those rows, every field in its place, with either line ending |
| `PaneListing.NumbersDefault` | server/src/session/ssh_transport.rs:136-141 | numbers that do not parse count as 0, or 80 and 24 for a pane's size |
| `PaneListing.FieldsCount` | server/src/session/ssh_transport.rs:127-130 | a line is a row exactly when it has more than eleven fields; the twelfth tells the active pane and later ones make no difference |
| `PaneListing.ContainsIff` | server/src/session/ssh_transport.rs:144 | a command is taken for Claude's exactly when the word occurs somewhere in it |
| `PaneListing.FieldsRoundTripIff` | server/src/session/ssh_transport.rs:127 | any joined fields are split where they were joined if and only if no separator can be found elsewhere |
| `PaneListing.GroupIsGood` | server/src/session/ssh_transport.rs:156-184 | session ids are distinct, window ids are distinct within a session, and no node is empty |
| `PaneListing.GroupHoldsRows` | server/src/session/ssh_transport.rs:156-184 | each window holds exactly its rows' panes in input order under the first row's metadata, and no other window exists |
| `PaneListing.SessionNameIsFirst` | server/src/session/ssh_transport.rs:156-167 | a session is in the tree exactly when a row names it, under the name in its first row |
| `PaneListing.GroupConservesPanes` | server/src/session/ssh_transport.rs:123-188 | for rows in any order no pane is lost, made up or moved to another window |
| `PaneListing.FlattenRestoresIffContiguous` | server/src/session/ssh_transport.rs:123-188 | flattening the tree gives back the rows in order exactly when sessions and windows are contiguous |
| `WindowTree.LessIff` | agent/src/quic/server.rs:875 | the map's order is that of the first character that differs, a prefix first |
| `WindowTree.BuildWindowTree` | agent/src/quic/server.rs:873-888 | the sorted map's windows, each with its first row's metadata and all its rows |
| `WindowTree.TreesAgree` | agent/src/quic/server.rs:873-888 | on one session's rows the agent's windows are the server's, with the same metadata and panes, in ascending order of id |
| `RouteIndex.IndexFollowsHistory` | server/src/session/manager.rs:207-239 | after any listings and drops a pane is routed to a session exactly when that session was the last to list it, or owned it first, and nothing has displaced it since |
| `SessionManager.SessionManager.CreateSession` | server/src/session/manager.rs:116-139 | sessions, routes, rows and reply after create |
| `SessionManager.SessionManager.ConnectSession` | server/src/session/manager.rs:191-236 | sessions, routes, rows and reply after connect, for every outcome of transport and writes |
| `SessionManager.SessionManager.DisconnectSession` | server/src/session/manager.rs:238-257 | the same for disconnect, which drops routes even when it then fails |
| `SessionManager.SessionManager.DeleteSession` | server/src/session/manager.rs:169-189 | the same for delete |
| `SessionManager.SessionManager.RefreshTmuxState` | server/src/session/manager.rs:285-307 | the same for refresh |
| `SessionManager.SessionManager.RouteListing` | server/src/session/manager.rs:207-213 | the nested loops route exactly the panes of the listing |
| `SessionManager.SessionManager.SendInputToPane` | server/src/session/manager.rs:259-272 | which session's transport gets the input, if any |
| `SessionManager.SessionsFollowHistory` | server/src/session/manager.rs:116-307 | after any completed calls, which sessions and rows exist and everything they hold (name, status, error, panes, stored status and error) is what the calls and their answers say: panes from the last listing, none after a failed one or a disconnect; the error of the last connect; a row from insert to removal |
| `SessionManager.PaneIdsIff` | server/src/session/manager.rs:207-213 | the panes of a listing are those of all windows of all its sessions |
| `SessionManager.RoutedPanesHaveSessions` | server/src/session/manager.rs:263-272 | after any completed calls every routed pane's session exists, so input to it always reaches a transport |
| `SessionManager.RoutesFollowHistory` | server/src/session/manager.rs:169-307 | a pane is routed to a session if and only if that session was the last to list it and has not been disconnected or deleted since |
| `Interleaving.QuietIsSerial` | server/src/session/manager.rs:191-307 | in every interleaving, once no call is in flight each session is what its calls leave when run one after the other in lock order: in memory always, in the database when the last outcome's write succeeded, and otherwise the row of the last write that did |
| `Interleaving.QuietMemoryIs` | server/src/session/manager.rs:191-307 | in every interleaving, once no call is in flight, status, error and panes in memory are what the transports' answers in the run, in their order, leave |
| `Interleaving.ConnectAnnounces` | server/src/session/manager.rs:197-200 | a connect shows as Connecting in memory when it starts, then in the database |
| `Interleaving.NeverLeftConnecting` | server/src/session/manager.rs:191-257 | then, if the latest write of this session's outcome succeeded, memory and database both hold the outcome of the last connect or successful disconnect to hold the lock, never Connecting |
| `Interleaving.StoredRowIsLastWrite` | server/src/session/manager.rs:200-254 | at any point of any interleaving the stored row is that of the last successful write to it |
| `Interleaving.LeftConnectingIff` | server/src/session/manager.rs:200-230 | the stored status is left Connecting if and only if the last successful write was an announcement, or there was none and it was so before |
| `Interleaving.RoutesFollowSteps` | server/src/session/manager.rs:207-301 | at any point of any interleaving a pane is routed to a session if and only if the last step to list it was that session's and no disconnect of it has started since |
| `Interleaving.RoutesOutliveDisconnectIff` | server/src/session/manager.rs:238-252 | once a disconnect has started, the session is left with exactly the routes its own connects and refreshes have listed since and nothing has displaced |
| `Interleaving.EveryRunQuiesces` | server/src/session/manager.rs:202-246 | from any point, whatever transports and database answer, a run without new calls is bounded, and while a call is in flight one can go on: the locks never deadlock |
| `Interleaving.EveryRunCanQuiesce` | server/src/session/manager.rs:202-246 | under every environment the calls in flight can be scheduled to their ends |
| `Interleaving.EffectsAreCompletedCalls` | server/src/session/manager.rs:191-307 | the serial meaning of a call is what the completed call does to its session |
| `Interleaving.FailedWriteLeavesConnecting` | server/src/session/manager.rs:200-230 | when the outcome's write fails the stored status can stay Connecting |
| `Interleaving.RefreshCanRestoreRoutes` | server/src/session/manager.rs:238-252 | a refresh holding the lock can route panes to a session that then ends Disconnected |
| `TerminalRegistry.TerminalStore.Mount` | client/src/composables/useTerminal.ts:102-313 | registry and handlers after a mount, new or reattaching |
| `TerminalRegistry.TerminalStore.Detach` | client/src/composables/useTerminal.ts:333-358 | count, observer and timer after a detach |
| `TerminalRegistry.TerminalStore.FireTimer` | client/src/composables/useTerminal.ts:348-354 | a timer disposes its pane's entry only at count zero |
| `TerminalRegistry.CountsAreExactIff` | client/src/composables/useTerminal.ts:333-358 | in every run a pane's count stays that of its attached components if and only if no component detaches from its entry without having mounted; the count is never too high, and at zero a timer is pending |
| `TerminalRegistry.ShownTerminalsAreKeptIff` | client/src/composables/useTerminal.ts:333-358 | in every run no terminal of a pane is disposed while a component shows it if and only if, whenever a timer of the pane fires on a shown terminal, its components outnumber the unmounted ones that have detached from it |
| `TerminalRegistry.AttachedTerminalSurvivesIff` | client/src/composables/useTerminal.ts:348-354 | a component that stays attached has the same terminal at the end of a run if and only if the timers fired so, whatever timers were stale and other components did |
| `TerminalRegistry.AttachedTerminalSurvives` | client/src/composables/useTerminal.ts:348-354 | so it always does where no unmounted component detaches from the pane |
| `TerminalRegistry.NothingLeaks` | client/src/composables/useTerminal.ts:45-56 | in every run, once all components have detached and all timers have fired no entry and no handler remains |
| `TerminalRegistry.StrayDetachDisposesShownTerminal` | client/src/composables/useTerminal.ts:103 | a component whose mount was skipped still detaches and can dispose a terminal another one shows |
| `PaneRouting.ParseInvertsQualify` | client/src/utils/paneId.ts:19-37 | parse after qualify is the identity if and only if the session id has no double colon and does not end in a colon |
| `PaneRouting.QualifyIsInjective` | client/src/utils/paneId.ts:19-21 | such sessions never share a qualified id |
| `PaneRouting.TmuxStore.SendMessage` | client/src/stores/tmux.ts:471-510 | the message sent and its channel |
| `PaneRouting.TmuxStore.UnsubscribePane` | client/src/stores/tmux.ts:769-778 | the handler is gone and the raw pane is unsubscribed on the session's channel |
| `PaneRouting.TmuxStore.HandleServerOutput` | client/src/stores/tmux.ts:524-532 | the handler called, if any |
| `PaneRouting.TmuxStore.OnWsOutput` | client/src/stores/tmux.ts:244-254 | WebSocket output is dropped while any link exists |
| `PaneRouting.TmuxStore.CleanupSession` | client/src/stores/tmux.ts:733-740 | all links and handlers are gone |
| `PaneRouting.TmuxStore.DisconnectSessionCleanup` | client/src/stores/tmux.ts:694-703 | link and handlers of the session are gone, all others stay |
| `PaneRouting.NoCrossSessionDelivery` | client/src/stores/tmux.ts:471-531 | over every run with sessions sharing raw pane ids the store uses the channels and handlers that one keyed by session and pane does; on the WebSocket the message itself no longer names the session |
| `PaneRouting.EachMessageOnce` | client/src/stores/tmux.ts:471-531 | link output reaches only the handler last registered for that session and pane; WebSocket output, without links, only the one of the session it names or else the focused one; a data message goes out once, with the raw pane, on the session's link or else the WebSocket |
| `PaneRouting.OthersGoToWs` | client/src/stores/tmux.ts:495-510 | any message but the five kinds of data, and data naming no session, goes to the WebSocket unchanged |
| `EndToEnd.InputReachesIff` | server/src/ws/session_handler.rs:81-86 | for every client run and server history, input for a session's pane goes out at most once; on the session's link it reaches that session, on the WebSocket it reaches a session, meant or not, if and only if that one was the last to list the raw pane and is not disconnected or deleted since |
| `EndToEnd.InputCanReachOtherSession` | server/src/session/manager.rs:259-272 | two sessions numbering their panes alike: without a link, input for the first reaches the second |
| `AgentPanes.AgentClient.OnResize` | agent/src/quic/server.rs:451-492 | a size that fits is recorded as asked, and the text written reads back as that size for window and pane, columns first, with a forced redraw exactly for a repeated size |
| `AgentPanes.ResizeIs` | agent/src/quic/server.rs:451-479 | the same for the specification the runs use |
| `AgentPanes.ResizeWraps` | agent/src/quic/server.rs:453-455 | only the low 16 bits of a size count, and a size without any, or a pane that is none, changes nothing |
| `AgentPanes.LastResizeHolds` | agent/src/quic/server.rs:451-492 | whatever came before, the last resize of a pane is its size in tmux and in the record |
| `AgentPanes.CommandsSurviveText` | agent/src/quic/server.rs:467-479 | the resize text, read word by word, is exactly the commands meant |
| `AgentPanes.ForwardsExactlyWanted` | agent/src/quic/server.rs:223-255 | over every run the outputs forwarded are exactly those arriving while the pane's latest subscription message was sub, in order |
| `AgentPanes.RecordedSizeIsTmuxSize` | agent/src/quic/server.rs:451-492 | with control stdin there, a recorded size is tmux's size from the pane's first resize on |
| `AgentPanes.RecordedSizeIsTmuxSizeIff` | agent/src/quic/server.rs:451-492 | over every run, stdin there or not, the recorded size is tmux's if and only if the size last asked for is the one last delivered |
| `AgentPanes.OneRedrawPerResize` | agent/src/quic/server.rs:456-479 | with control stdin there, each accepted resize after the first causes exactly one redraw, and the first one exactly when it changes the size |
| `AgentPanes.OneRedrawInRunIff` | agent/src/quic/server.rs:456-479 | over every run a later resize causes exactly one redraw if and only if control stdin is there and the size was the last delivered just when it was the last asked for |
| `AgentPanes.LostResizeRedrawsTwice` | agent/src/quic/server.rs:488-490 | a resize lost for want of control stdin leaves record and tmux apart and makes its repetition redraw twice |

## Left out

- ControlStream.ReaderTask.OnData: takes a data message as text; the lossy UTF-8 conversion of each message (server/src/session/ssh_transport.rs:408) is not modelled, so for raw bytes the chunking results speak of cuts that split no character.
- ControlMode.ControlModeParser.FeedLine: events go to an unbounded sequence; the limit of 512 slots on the channel that the reader task both fills and drains is not modelled.
- Framing.AgentStream.OnRead: starts at the main loop with an empty buffer; the read of the agent's first message drops what arrives after it.
- SessionManager.SessionManager.ConnectSession: calls on the transport and the database are answers given as parameters; ephemeral keys, session updates and loading a user's sessions are not modelled.
- Interleaving.QuietIsSerial: create, delete and load do not interleave, and calls are never cancelled.
- TerminalRegistry.TerminalStore.Mount: the terminal, the fit addon, resize debouncing and the redraw-settling flags are not modelled, nor are disposeAllTerminals and the removal of handlers when a session disconnects.
- PaneRouting.NoCrossSessionDelivery: message payloads are opaque; stale close callbacks and the re-subscription of panes after a link comes or goes are not modelled.
- AgentPanes.RecordedSizeIsTmuxSize: tmux is taken to accept every size, with one pane per window and no other resizer.
- AgentPanes.ForwardsExactlyWanted: forwarding an output always succeeds; the choice between data channel and stream is not modelled.
- Transports, encryption, authentication and MessagePack: calls into libraries; payloads are byte sequences.
- The Claude event accumulator, agent deployment and registry, configuration, database schema, pane grid and views: folds and plumbing with little to get wrong beyond what is here.
- The local transport (server/src/session/local.rs): the same grouping with another separator.
