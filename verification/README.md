# Serial-to-TCP bridge: a verified model

A bridge shares one serial device over one TCP port. TCP clients, the GUI's own terminal, a linger timer, receiver
threads and reconnect threads act on one device handle; the console cuts the byte streams into lines and colours
them; a registry of mappings is changed by API requests and saved to a file. This project models those parts and
proves what they promise, over every input, every run and every interleaving.

## How it is built

| files | subject |
|---|---|
| `SerialPort.dfy`, `SerialPortTheorems.dfy`, `SerialPortObject.dfy` | the device handle: opens, closes, epochs, receivers, reconnect threads, sending |
| `PortService.dfy`, `PortServiceInvariant.dfy`, `PortServiceTheorems.dfy`, `PortServiceSchedules.dfy`, `PortServiceRaces.dfy`, `PortServiceRuns.dfy`, `PortServiceObject.dfy` | one session of a service, from the listener being up to the end of `stop` |
| `FanOut.dfy` | data from the device to every client, and from the clients to the device |
| `LineSplitter.dfy`, `ConsoleLog.dfy` | the streaming console line splitter and the bounded history |
| `Ansi.dfy`, `AnsiColours.dfy` | escape handling and colours |
| `TelnetFilter.dfy`, `CharMaps.dfy`, `LogEntry.dfy` | the byte transformers of the command line service |
| `PortConfig.dfy`, `Registry.dfy`, `RegistryTheorems.dfy`, `RegistryExact.dfy`, `RegistryAnswers.dfy`, `RegistryObject.dfy` | configurations, the mapping registry, its request queue, and what callers are told |

Shared state is a datatype and one atomic step is a function `Next`; `Inv` is inductive and the theorems speak of
every run that `Legal` admits. Beside each such state machine stands a class whose fields are the attributes of the
original object and whose methods are its methods; every method's contract equates the object's new state with the
functions of the state machine applied to the old one. The methods of `PortService` and the broadcast of `SerialServer`
also name the legal run of steps that they are, so that what holds of all runs holds of them. The text and byte
transformers are loops proved equal to recursive functions, and the theorems are about those functions.

## Granularity and assumptions

Modelled step by step, with anything else happening in between:

- leaving the client set, reading the client count, reading the terminal flag and arming the timer (four steps);
- clearing the terminal flag, reading the client count and arming the timer (three steps);
- setting the terminal flag or joining the client set, cancelling the timer and opening the port (three steps);
- arming and cancelling under the linger lock; firing of a timer and the run of its function (a timer that has fired
  can no longer be cancelled);
- each part of `stop`; the listener being up and the running flag being set; every locked write of the port's flags.

Taken as one step each, because the code checks outside the lock there: the guard of `ensure_open` with the open; the
close flag with the locked close; a receiver's exit decision; one round of a reconnect thread; the linger decision with
its close; one poll; stopping the server with respect to its accept loop; a queued request, together with the states
that its answer reports. The control methods run on one thread.

Assumed: closing the handle succeeds, opening raises nothing but SerialException, callbacks do not raise, the clock
(in milliseconds) does not go back, live clients have distinct addresses, and the `+=` on a counter is atomic.

## What the proofs found

- A client that comes and goes after the listener is up but before the running flag is set has its close declined, and
  the port stays open with no timer: `BootWindowLeaks`. `NoLeakedPort` shows that this is the only way.
- A timer that has fired but not yet run closes the port although a later client has since left and armed its own timer
  (`StaleTimerClosesEarly`); so does a slow disconnect callback that arms the timer while the next client is already
  attached (`SlowDepartureClosesEarly`). In both the port closes before a full linger time has passed since the last
  departure. `LingerLasts` shows that there is no third way. When each departure and its scheduling are one step,
  `LingerAfterWholeDepartures` says exactly when it happens: if and only if the armed timer is not due yet.
- The overtaken timer also makes the service forget the newer one, which a client that comes then no longer calls off:
  `ForgottenTimerSurvives`. `CancelReachesEveryTimer` says exactly when cancelling reaches all timers, and `OneTimerStep`
  that nothing else makes the service forget one.
- A connect callback that is still under way when `stop` closes the port reopens it, and leaves a stopped service with an
  open port: `StoppedAndOpen`. `StopIsFinal` says exactly when the port stays closed.
- A partial line of more than 4096 bytes is flushed as a line of its own, so that a line that goes on in the next chunk is
  shown as two: `FlushBreaksLine`. `ChunkIndependence` says exactly when the chunks make no difference.
- Telnet commands and two-byte sources of character maps that are cut by a block boundary are not recognised:
  `StripInBlocks`, `PairDistributes` and `BlockwiseMaps` say exactly when working block by block is right.
- "A request that is answered with an error has changed nothing" is false in two cases. A caller that stops waiting is
  answered 503, and its request still runs: `AbandonedIsDone`, and whoever then repeats a new mapping is told that its
  port is taken, by its own first request: `AskingAgainConflicts`. And a mapping from the file that violates the request
  model can be stopped, but its state cannot be reported, and the answer is 500: `InvalidFromFile`. `ErrorYetDone` says
  exactly when an error is answered to a request that was carried out.
- A PATCH is answered 500 exactly if the merged configuration violates the request model, which only a configuration from
  the file can cause: `PatchAccepts`.

## Model

| member | source | states |
|---|---|---|
| SerialPorts.StepKeepsInv | serialtcp/serial_port.py:45-152 | every step of every thread keeps: connected means open, a closed-on-request port is not open, an open port has its receiver, a wanted port is served or retried, epochs are unique, connects equal the epoch |
| SerialPorts.RunKeepsInv | serialtcp/serial_port.py:45-152 | the same over whole runs, in which the epoch never goes back |
| SerialPorts.EnsureOpenKeepsInv | serialtcp/serial_port.py:49-79 | after `ensure_open` the port is wanted: open and served, or being retried |
| SerialPorts.ReceiverExitKeepsInv | serialtcp/serial_port.py:126-138 | a receiver that ends never leaves a wanted port unserved and unretried |
| SerialPorts.RetryKeepsInv | serialtcp/serial_port.py:140-152 | a round keeps the invariant, and ends the reconnect thread if and only if the port is open or was closed on request |
| SerialPortTheorems.EpochStep | serialtcp/serial_port.py:34-39 | a step keeps the epoch and starts no receiver, or raises it by one and starts the only receiver that carries it |
| SerialPortTheorems.SupersededReceiverIsHarmless | serialtcp/serial_port.py:126-129 | a receiver left behind by a newer open, whenever it ends, changes nothing but its own presence |
| SerialPortTheorems.ReceiverDiscipline | serialtcp/serial_port.py:34-39 | in every run no two live receivers share an epoch, an open port has the receiver of its epoch, a wanted port is served or retried |
| SerialPortTheorems.OpensAndCloses | serialtcp/serial_port.py:45-152 | exactly which steps open a closed port and which close an open one |
| SerialPortTheorems.WhoRetries | serialtcp/serial_port.py:75-79 | exactly which steps start a reconnect thread, and which end one |
| SerialPortTheorems.CloseFlag | serialtcp/serial_port.py:45-47 | the close flag is set exactly by a close and cleared exactly by a consumer who finds the port closed |
| SerialPortTheorems.ClosedReceiverEnds | serialtcp/serial_port.py:112-138 | a receiver whose port has been closed can end without any failure, and changes nothing else if the port was told to close |
| SerialPortTheorems.ConnectionAccounting | serialtcp/serial_port.py:59-92 | in every run: disconnect callbacks equal losses of the connection, and plus one while connected they equal the number of times it was gained, which is the epoch; connected equals handle open |
| SerialPortTheorems.Recovery | serialtcp/serial_port.py:130-152 | in an infinite run that is benign from some point on, with reconnect threads scheduled, the port becomes open and stays open |
| SerialPortTheorems.FewReconnectThreads | serialtcp/serial_port.py:75-79 | in every run at most one reconnect thread is alive, plus one for each connection that was lost and each thread that was forgotten while the known reconnect thread was still alive |
| SerialPortTheorems.ManyReconnectThreads | serialtcp/serial_port.py:130-135 | for every number of such losses a run that attains this bound |
| SerialPortTheorems.StrayStep | serialtcp/serial_port.py:77-79 | only a receiver that finds its connection lost, or a close that forgets the thread, loses track of a reconnect thread, of one at most, and only of a live one |
| SerialPortObject.SerialPort.constructor | serialtcp/serial_port.py:8-42 | a new port is closed, not connected, at epoch 0, without threads |
| SerialPortObject.SerialPort.OpenUnderLock | serialtcp/serial_port.py:59-79 | the locked open, and exactly when it raises |
| SerialPortObject.SerialPort.CloseUnderLock | serialtcp/serial_port.py:82-92 | the locked close; the disconnect callback runs exactly if the port was connected |
| SerialPortObject.SerialPort.EnsureOpen | serialtcp/serial_port.py:45-57 | a connected port is left alone, any other is opened with the close flag cleared |
| SerialPortObject.SerialPort.Close | serialtcp/serial_port.py:94-97 | the close flag and the locked close |
| SerialPortObject.SerialPort.ReceiverExit | serialtcp/serial_port.py:126-138 | the decision at the end of a receiver thread |
| SerialPortObject.SerialPort.ReconnectRound | serialtcp/serial_port.py:140-152 | one round of a reconnect thread |
| SerialPortObject.SerialPort.SendChars | serialtcp/serial_port.py:155-166 | exactly the bytes the device accepts are written, in order; the echo wait ends |
| SerialPortObject.SerialPort.Send | serialtcp/serial_port.py:168-177 | character mode and bulk mode write the same bytes, up to the first refused write |
| PortServices.StepIsPortStep | serialtcp/service.py:220-291 | each step of a service is one permitted step of its port |
| PortServiceTheorems.RunIsPortRun | serialtcp/service.py:220-348 | each run of a service is a run of its port |
| PortServiceInvariant.StepKeepsInv | serialtcp/service.py:220-348 | every step of every thread keeps the session invariant |
| PortServiceInvariant.RunKeepsInv | serialtcp/service.py:220-348 | the same over whole runs |
| PortServiceInvariant.ArrivalKeeps | serialtcp/service.py:325-330 | a client on its way in keeps it, whatever departures are in flight |
| PortServiceInvariant.DepartureKeeps | serialtcp/service.py:332-337 | a client on its way out keeps it, step by step |
| PortServiceInvariant.DisconnectKeeps | serialtcp/service.py:251-258 | clearing the terminal flag before reading the count keeps it |
| PortServiceInvariant.LingerKeeps | serialtcp/service.py:275-282 | the function of a fired timer keeps it, whichever timer it is |
| PortServiceInvariant.StopKeeps | serialtcp/service.py:220-236 | each part of `stop` keeps it |
| PortServiceTheorems.NoLostReconnect | serialtcp/service.py:162-168 | a consumer whose connect callback has finished has an open port with a live receiver of the current epoch, or a live reconnect thread; under status `reconnecting` somebody retries |
| PortServiceTheorems.NoLeakedPort | serialtcp/service.py:251-282 | a running service without consumers and without a callback in flight has an armed and live timer for a port still wanted open, unless a close was declined before the running flag was set, and then it has none |
| PortServiceTheorems.NotMissed | serialtcp/service.py:267-270 | no close is ever declined if no client reaches the arming of the timer before the running flag is set |
| PortServiceTheorems.LingerSparesConsumers | serialtcp/service.py:275-282 | a running service closes an open port only after a device failure, or by a timer while nobody is attached |
| PortServiceTheorems.LingerLasts | serialtcp/service.py:52-56 | a timer closes at least SERIAL_LINGER after it was armed, and with no callback in flight at least SERIAL_LINGER after the last departure, unless a newer timer is waiting |
| PortServiceTheorems.CalmKeepsEpoch | serialtcp/service.py:275-282 | a run without device loss and stop, in which no timer finds the port deserted, uses one open epoch |
| PortServiceSchedules.LingerAfterWholeDepartures | serialtcp/service.py:52-56 | in every run in which each departure is one block, a timer closes the port of a running service earlier than SERIAL_LINGER after the last departure if and only if the armed timer is not due yet, which then is a newer one |
| PortServiceSchedules.DesertedPortIsClosed | serialtcp/service.py:261-282 | a running service that is deserted with its port open closes it after SERIAL_LINGER if nobody comes |
| PortServiceSchedules.GapStep | serialtcp/service.py:261-291 | while the current gap between consumers is short no timer can take a step, and all waiting timers belong to that gap |
| PortServiceSchedules.ShortGapsNeedNoTimer | serialtcp/service.py:52-56 | in every run in which each departure is one block and each gap, from a departure to the next consumer's cancel, is shorter than SERIAL_LINGER, no timer ever fires |
| PortServiceSchedules.OneEpochForAll | serialtcp/service.py:52-56 | any series of consumers with such departures and gaps, without device loss and stop, uses one open epoch throughout |
| PortServiceSchedules.ConsumersKeepItOpen | serialtcp/service.py:275-282 | while somebody is served and nobody stops the service, no step closes the port on purpose |
| PortServiceSchedules.ConsumersRecover | serialtcp/service.py:162-168 | in an infinite run in which from some point on the device opens and does not fail, somebody is served, nobody stops the service and the reconnect threads are scheduled, the service becomes connected, stays so, and is never again shown as reconnecting |
| PortServiceTheorems.OneTimerStep | serialtcp/service.py:261-291 | a step keeps the armed timer the only one that can still be cancelled, if and only if it is not a fired timer running while another one is armed |
| PortServiceTheorems.CancelReachesEveryTimer | serialtcp/service.py:284-291 | in every run a client or the terminal on its way in, and stop, call off every timer that has not fired if and only if the armed timer is the only such one; it is, unless some timer has been overtaken |
| PortServiceTheorems.NoTimerAfterStop | serialtcp/service.py:267-273 | once the running flag is cleared no timer is armed any more |
| PortServiceTheorems.StaysClosed | serialtcp/service.py:220-236 | after the close in `stop` no later step opens or connects the port while no connect callback is pending |
| PortServiceTheorems.LateConnectReopens | serialtcp/service.py:325-330 | a pending connect callback has a continuation that opens the port |
| PortServiceTheorems.StopIsFinal | serialtcp/service.py:220-236 | after the close in `stop` no run ever opens the port again if and only if no client is in its connect callback |
| PortServiceTheorems.RetryRate | serialtcp/service.py:301-310 | the attempt counter grows by at most one per RECONNECT_INTERVAL since its reset; after a loss with consumers even the first attempt waits one interval |
| PortServiceTheorems.StatusExact | serialtcp/service.py:162-168 | in every run the status is stopped exactly while the running flag is clear, reconnecting exactly while the service runs with the port closed and a client in the set or the terminal attached, and running otherwise |
| PortServiceTheorems.AttemptExact | serialtcp/service.py:301-348 | which steps reset the attempt counter and which count an attempt: connect callbacks, losses with somebody attached and the end of `stop`; polls under the condition for reconnecting, two seconds after the last attempt or loss |
| PortServiceTheorems.CounterIsAttempts | serialtcp/service.py:301-348 | in every run the counter is the number of attempts counted since the last reset |
| PortServiceRaces.BootWindowLeaks | serialtcp/service.py:209-214 | a concrete run with a port left open and no timer |
| PortServiceRaces.StaleTimerClosesEarly | serialtcp/service.py:284-291 | a concrete run in which a fired timer closes right after a later departure |
| PortServiceRaces.SlowDepartureClosesEarly | serialtcp/service.py:332-337 | a concrete run in which the armed timer predates the last departure |
| PortServiceRaces.ForgottenTimerSurvives | serialtcp/service.py:275-291 | a concrete run after which a client's cancel leaves a waiting timer alive |
| PortServiceRaces.StoppedAndOpen | serialtcp/service.py:220-236 | a concrete run in which a client is in its connect callback when `stop` closes the port, and one that ends with the service stopped and the port open |
| PortServiceObject.PortService.constructor | serialtcp/service.py:177-209 | a session begins with the listener up and the running flag clear |
| PortServiceObject.PortService.ClientCount | serialtcp/service.py:146-150 | the size of the client set while running, zero otherwise |
| PortServiceObject.PortService.HasConsumers | serialtcp/service.py:157-160 | a TCP client counts while running, the terminal always |
| PortServiceObject.PortService.Status | serialtcp/service.py:162-168 | stopped, reconnecting or running, by the running flag, the connection, the client set and the terminal |
| PortServiceObject.PortService.CancelLinger | serialtcp/service.py:284-291 | the armed timer is forgotten, and cancelled unless it has fired |
| PortServiceObject.PortService.ScheduleSerialClose | serialtcp/service.py:261-273 | the old timer is cancelled and a new one armed, the latter only while running |
| PortServiceObject.PortService.LingerClose | serialtcp/service.py:275-282 | the port is closed exactly if the service runs and nobody is attached |
| PortServiceObject.PortService.ConnectLocal | serialtcp/service.py:238-249 | flag, cancel, open, in this order |
| PortServiceObject.PortService.DisconnectLocal | serialtcp/service.py:251-258 | flag, count, and a timer exactly if no TCP client is seen |
| PortServiceObject.PortService.Stop | serialtcp/service.py:220-236 | all parts of `stop` in order |
| PortServiceObject.PortService.Poll | serialtcp/service.py:301-310 | one more attempt exactly if reconnecting and the interval has passed |
| PortServiceObject.PortService.NoteDisconnect | serialtcp/service.py:343-348 | the counter is reset exactly if the service runs and has consumers |
| PortServiceObject.PortService.OnClientConnect | serialtcp/service.py:325-330 | cancel, then open |
| PortServiceObject.PortService.OnClientDisconnect | serialtcp/service.py:332-337 | count, terminal flag, and a timer exactly if neither is seen |
| PortServiceObject.PortService.RemoveClient | serialtcp/server.py:26-30 | the client leaves the set before its disconnect callback runs |
| PortServiceObject.PortService.AcceptClient | serialtcp/server.py:41-42 | the client joins the set before its connect callback runs |
| PortServiceRuns.ConnectRun | serialtcp/service.py:238-249 | connecting the terminal is a legal run of its three steps |
| PortServiceRuns.DisconnectRun | serialtcp/service.py:251-258 | so is disconnecting it, with the arming of the timer exactly if no TCP client is seen |
| PortServiceRuns.StopRun | serialtcp/service.py:220-236 | `stop` is a legal run of its six steps |
| PortServiceRuns.DepartRun | serialtcp/service.py:332-337 | the disconnect callback is a legal run of one, two or three steps, by what it sees |
| PortServiceRuns.RemoveRun | serialtcp/server.py:26-30 | leaving the client set and the callback after it are one legal run |
| FanOut.EachClientGetsItsPart | serialtcp/server.py:76-83 | in every run each client has been sent exactly the contiguous part of the stream broadcast from its arrival to its departure, and the receive counter is the length of the stream |
| FanOut.ClientHasWhatWasBroadcast | serialtcp/server.py:76-83 | in every run a client that came and has not left has been sent exactly what the run broadcast since, but for what it is still to be sent of the current broadcast; the receive counter is the length of all that was broadcast |
| FanOut.GoneClientHadWhatWasBroadcast | serialtcp/server.py:76-83 | a client that came and left has been sent exactly what the run broadcast in between, but for what it was still to be sent when it left |
| FanOut.LineIsAMerge | serialtcp/service.py:313-317 | in every run the serial line carries whole client chunks, of each client exactly those that the run says it sent, in order, except for the one being written; the transmit counter is the summed length of all chunks that the run says were sent |
| FanOut.SerialServer.SendToAll | serialtcp/server.py:76-83 | the loop over the copied client set is a legal run of the hub that begins with the broadcast, whoever comes and goes meanwhile; who stays is sent the data exactly once, who leaves at most once, nobody else any |
| FanOut.BroadcastDelivers | serialtcp/server.py:81-83 | a completed broadcast has delivered its data in this sense, whatever steps it took |
| LineSplitter.FirstTerm | serialtcp/service.py:38 | the first terminator, or the end |
| LineSplitter.EachTerminatorEndsALine | serialtcp/service.py:38 | a line followed by CR, by LF or by CRLF is shown as that line |
| LineSplitter.CutPairEndsOneLine | serialtcp/service.py:351-372 | so is one whose CRLF is cut between two calls |
| LineSplitter.UnfinishedLine | serialtcp/service.py:366-372 | a line that has not ended is kept up to 4096 bytes, and flushed as it is beyond |
| LineSplitter.NoTerminatorIsLeft | serialtcp/service.py:358-372 | no completed line and no pending byte string holds a CR or an LF |
| LineSplitter.TermEnd | serialtcp/service.py:38 | CRLF is one terminator |
| LineSplitter.PiecesTile | serialtcp/service.py:358-366 | completed lines with their terminators and the remainder are the buffer |
| LineSplitter.PiecesAreWellCut | serialtcp/service.py:351-357 | each piece is a line with exactly one terminator, and no CRLF is cut |
| LineSplitter.ScanIsPieces | serialtcp/service.py:351-366 | cutting at CRLF, CR and LF shows the lines that reading byte by byte finds |
| LineSplitter.FeedAllCounts | serialtcp/service.py:367-372 | each flush that breaks a line adds exactly one line to those of the whole stream |
| LineSplitter.ChunkIndependence | serialtcp/service.py:351-372 | the lines shown over any chunks are those of the whole stream if and only if each flushed partial line was followed directly by its terminator |
| LineSplitter.FlushBreaksLine | serialtcp/service.py:366-371 | a chunk that is one over-long partial line, followed by a chunk in which its line goes on, is not shown as the whole stream would be |
| LineSplitter.ShortLinesAreChunkIndependent | serialtcp/service.py:58-60 | the lines do not depend on the chunks if no terminator-free run exceeds the cap, also when CRLF is cut between two chunks |
| LineSplitter.FeedConserves | serialtcp/service.py:358-372 | one call loses nothing but CR and LF bytes, and keeps the order |
| LineSplitter.StreamIsConserved | serialtcp/service.py:358-372 | over any stream and chunks, shown bytes and pending bytes are the stream with only CR and LF missing; pending bytes are at most 4096 and hold neither |
| ConsoleLog.TextsAreChunkIndependent | serialtcp/service.py:358-366 | the texts shown for a stream of short lines do not depend on its chunks |
| ConsoleLog.StreamsAreIndependent | serialtcp/service.py:358-372 | what is shown for one direction is what its own chunks alone give, however the directions interleave |
| ConsoleLog.ConsoleConserves | serialtcp/service.py:361-371 | the raw bytes of the events of a stream, with the pending bytes, are the stream with only CR and LF missing |
| ConsoleLog.LineIsShown | serialtcp/service.py:361-364 | a terminated line is shown as one event with its text and its bytes |
| ConsoleLog.LastIsNewest | serialtcp/service.py:129 | the newest entries are kept, in order |
| ConsoleLog.LastAppend | serialtcp/service.py:129 | a bounded history fed in portions holds the last entries of the whole |
| ConsoleLog.Console.constructor | serialtcp/service.py:127-129 | a new console has no partial lines and no history |
| ConsoleLog.Console.Emit | serialtcp/service.py:436-449 | the event is appended and the oldest one dropped beyond the bound |
| ConsoleLog.Console.SplitLines | serialtcp/service.py:359-366 | the loop shows the completed lines of the buffer, in order |
| ConsoleLog.Console.BufferLines | serialtcp/service.py:351-372 | one call shows and keeps what the splitter says, for its own direction only |
| ConsoleLog.Console.ClearLog | serialtcp/service.py:379-382 | nothing is retained |
| Ansi.MatcherIsPattern | gui/serialtcp_gui/ansi.py:8-9 | the explicit matcher ends exactly where the ordered choice of the pattern does |
| Ansi.ApplySgr | gui/serialtcp_gui/ansi.py:41-52 | the loop over the codes of an escape computes the fold over all of them |
| Ansi.LastCodeWins | gui/serialtcp_gui/ansi.py:44-52 | the colour is that of the last code that resets or names one |
| Ansi.ParseAnsi | gui/serialtcp_gui/ansi.py:29-56 | the loop returns the chunks of the specification |
| Ansi.ParseRefinesPaint | gui/serialtcp_gui/ansi.py:29-56 | chunks are non-empty, concatenate to the text with exactly the escapes erased, and give each character the colour of all earlier escapes |
| Ansi.PaintInPieces | gui/serialtcp_gui/ansi.py:37-56 | a text may be coloured in two parts, handing on the colour, if no escape straddles the cut |
| Ansi.ParseInPieces | gui/serialtcp_gui/ansi.py:29-56 | the same for the chunks that are returned |
| Ansi.CutEscapeLeavesText | gui/serialtcp_gui/ansi.py:8-9 | one such cut, of an escape that resets the colour, leaves text behind |
| Ansi.HalvesMayBeEscapes | gui/serialtcp_gui/ansi.py:8-9 | another one leaves nothing behind, because both halves are escapes |
| AnsiColours.CodeRoundTrip | gui/serialtcp_gui/ansi.py:44-48 | reading a code written in decimal gives the number back |
| AnsiColours.PaddedCode | gui/serialtcp_gui/ansi.py:44-46 | blanks around it do not matter |
| AnsiColours.NoCode | gui/serialtcp_gui/ansi.py:45-48 | a parameter with any other character is skipped |
| AnsiColours.SgrIsMatched | gui/serialtcp_gui/ansi.py:8-9 | an escape with any list of codes is matched whole, whatever follows |
| AnsiColours.SgrTakesEffect | gui/serialtcp_gui/ansi.py:41-56 | a text behind an escape with any list of codes is coloured as if they had been applied one by one, and nothing of the escape is shown |
| AnsiColours.EscapeDecides | gui/serialtcp_gui/ansi.py:49-52 | a text behind an escape is painted in the default colour if the last deciding code is 0, 39 or empty, and in the colour of the table if it is one of its codes, whatever was active before |
| AnsiColours.ResetResets | gui/serialtcp_gui/ansi.py:44-50 | the escape without parameters, and those with 0, 39 or an empty last parameter, give the default colour back |
| AnsiColours.OtherCodesChangeNothing | gui/serialtcp_gui/ansi.py:49-52 | an escape whose codes decide nothing leaves the colour as it was |
| AnsiColours.OtherEscapesChangeNothing | gui/serialtcp_gui/ansi.py:41-42 | so do escapes that are not SGR sequences |
| AnsiColours.PlainTextIsOneChunk | gui/serialtcp_gui/ansi.py:54-55 | a text without escapes is one chunk in the active colour |
| AnsiColours.ColourAndReset | gui/serialtcp_gui/ansi.py:29-56 | a red text, a reset and another text come out in red and in the default colour |
| TelnetFilter.StripTelnetCommands | serialtcp/tcp_server.py:72-82 | the loop returns what the specification keeps |
| TelnetFilter.StripInvertsNegotiation | serialtcp/tcp_server.py:72-82 | from any interleaving of data without 0xff and complete commands, exactly the data is kept |
| TelnetFilter.StripRemovesTriples | serialtcp/tcp_server.py:72-82 | on any input the removed length is a multiple of 3, and nothing is removed if and only if there is no command |
| TelnetFilter.StripInBlocks | serialtcp/tcp_server.py:84-90 | stripping two blocks separately equals stripping them together if and only if no command is cut |
| TelnetFilter.StraddleDiffers | serialtcp/tcp_server.py:77 | a cut command leaves other bytes behind |
| CharMaps.ApplyMapsInOrder | serialtcp/tcp_server.py:30-33 | the maps are applied one after the other |
| CharMaps.ReplaceIsCutAndJoin | serialtcp/tcp_server.py:32 | replacing is cutting at the occurrences of the source from left to right and joining with the destination |
| CharMaps.MapsInOrder | serialtcp/tcp_server.py:30-33 | a list of maps followed by another is the one applied after the other |
| CharMaps.TableRoundTrip | serialtcp/tcp_server.py:15-33 | the table's ONLCRNL and then its OCRNLNL, as one list of maps, is the identity |
| CharMaps.NewlineRoundTrip | serialtcp/tcp_server.py:21-22 | ONLCRNL and then OCRNLNL is the identity on all byte strings |
| CharMaps.SingleByteDistributes | serialtcp/tcp_server.py:30-33 | a map with a one-byte source works block by block |
| CharMaps.PairDistributes | serialtcp/tcp_server.py:30-33 | one with a two-byte source does if and only if the cut does not split an occurrence |
| CharMaps.BlockwiseMaps | serialtcp/tcp_server.py:15-27 | which maps of the table work block by block on every stream |
| CharMaps.MapsChunkwise | serialtcp/tcp_server.py:30-33 | any list of one-byte maps may be applied chunk by chunk |
| LogEntry.ReadsBack | serialtcp/tcp_server.py:36-40 | every field of a log line can be read back: time stamp, direction, length, the bytes from the hex field, and the text field, which has one printable character per byte |
| PortConfigs.FromDict | gui/serialtcp_gui/config.py:81-84 | known fields are taken over, missing ones defaulted, others ignored |
| PortConfigs.LoadConfigs | gui/serialtcp_gui/config.py:98-113 | the complete entries, in order |
| PortConfigs.DocumentForms | gui/serialtcp_gui/config.py:101-108 | a list of entries and a mapping that holds it load alike, everything else loads nothing |
| PortConfigs.OneEntry | gui/serialtcp_gui/config.py:110-112 | which entries are loaded |
| PortConfigs.DefaultsAre | serialtcp/service.py:66-81 | what the fields are that an entry does not mention |
| PortConfigs.SaveLoadRoundTrip | gui/serialtcp_gui/config.py:132-141 | saving and loading is the identity if and only if every configuration has a device and a TCP port |
| PortConfigs.StripIsExact | gui/serialtcp_gui/api.py:363-369 | stripping the device takes away the white space at both ends, all of it, and nothing else |
| PortConfigs.ToConfig | gui/serialtcp_gui/api.py:360-370 | an accepted configuration is the model with the device stripped, valid and complete |
| PortConfigs.ConfigsAccepted | gui/serialtcp_gui/api.py:360-370 | which models are accepted |
| PortConfigs.ModelValidExact | gui/serialtcp_gui/api.py:86-101 | what the request model demands of each field |
| Registries.Lookup | gui/serialtcp_gui/api.py:312-316 | the first service on the port, or none |
| RegistryTheorems.HandleKeepsInv | gui/serialtcp_gui/api.py:237-309 | every request keeps ports unique, services and cards in bijection, the selection a member, and the file up to date |
| RegistryTheorems.RunKeepsInv | gui/serialtcp_gui/api.py:237-309 | the same over every sequence of queued requests |
| RegistryTheorems.OpenedInv | gui/serialtcp_gui/app.py:259-275 | a file with distinct TCP ports opens into such a registry, whichever services start automatically |
| RegistryTheorems.ReopeningGivesTheSame | gui/serialtcp_gui/app.py:591-594 | after any requests, opening the saved file gives the current configurations |
| RegistryTheorems.RejectionChangesNothing | gui/serialtcp_gui/api.py:237-309 | a request that is refused in its turn changes nothing, the file included |
| RegistryAnswers.ErrorYetDone | gui/serialtcp_gui/api.py:324-350 | for every job in every queue: an error is answered to a request that was carried out if and only if it was acceptable in its turn and its caller had stopped waiting or the reported states violate the request model; the latter never happens while all configurations satisfy it; every other error means that nothing has changed |
| RegistryAnswers.HandleAccepts | gui/serialtcp_gui/api.py:237-309 | which requests are accepted, request by request |
| RegistryAnswers.PatienceDoesNotMatter | gui/serialtcp_gui/app.py:424-429 | which callers give up makes no difference to the registry and its file |
| RegistryAnswers.AbandonedIsDone | gui/serialtcp_gui/app.py:424-426 | a concrete queue whose only request is answered 503 and adds a mapping, in the file, too |
| RegistryAnswers.AskingAgainConflicts | gui/serialtcp_gui/api.py:237-246 | a new mapping that is answered 503 and asked for again is answered 409, and is there |
| RegistryAnswers.InvalidFromFile | gui/serialtcp_gui/api.py:332-350 | a concrete file whose mapping can be stopped with answer 500, and to which every empty PATCH is answered 500 without effect |
| RegistryAnswers.FailuresAreTheStopped | gui/serialtcp_gui/api.py:291-301 | `start_all` reports exactly the services that it leaves stopped |
| RegistryTheorems.CreateAccepts | gui/serialtcp_gui/api.py:237-246 | a mapping is added if and only if its model is acceptable and its port is free |
| RegistryTheorems.PatchAccepts | gui/serialtcp_gui/api.py:248-261 | a PATCH with a valid body is accepted if and only if the mapping exists, the merged configuration is acceptable, and its port is free or its own; it is answered 500 if and only if the merged configuration violates the request model |
| RegistryTheorems.PatchIsExact | gui/serialtcp_gui/api.py:248-261 | an accepted PATCH changes exactly its non-null fields of one service, stripping the device; it runs afterwards if it ran before and its port can be bound |
| RegistryTheorems.MergeIsPatch | gui/serialtcp_gui/api.py:353-357 | explicit nulls are ignored and all other fields kept |
| RegistryTheorems.PatchUpdates | gui/serialtcp_gui/api.py:248-261 | a PATCH changes nothing, or updates one service to a valid configuration, whose port no other one has if ports were unique |
| RegistryExact.CreateIsExact | gui/serialtcp_gui/app.py:431-436 | an accepted new mapping is added at the end, stopped, with the model's fields and the device stripped, and nothing else changes |
| RegistryExact.DeleteIsExact | gui/serialtcp_gui/app.py:459-475 | an accepted DELETE removes exactly the first service on the port and its card; all others stay as they are and in order, nothing is left on the port, and the selection changes only if it was removed, to the first one left or none |
| RegistryExact.StartStopExact | gui/serialtcp_gui/api.py:271-289 | an accepted start or stop sets the running flag of the service on the port and changes nothing else |
| RegistryExact.AllExact | gui/serialtcp_gui/api.py:291-309 | which services run after `start_all` and `stop_all`, and that nothing else changes |
| RegistryExact.PatchMovesCard | gui/serialtcp_gui/app.py:446-453 | after a PATCH the card of the mapping is the last one, and the others keep their order |
| RegistryExact.FileStays | gui/serialtcp_gui/app.py:591-597 | the file is left alone if it cannot be written, and by starting and stopping |
| RegistryExact.OpenedIsExact | gui/serialtcp_gui/app.py:259-275 | one service and one card for each loaded configuration, in order, running exactly if it asks for it and its port can be bound; the first one is selected |
| RegistryExact.RepliesExact | gui/serialtcp_gui/api.py:237-322 | the reply to every request, by its number, from the registry before it |
| RegistryExact.AnswerExact | gui/serialtcp_gui/api.py:324-350 | what the caller is told, 503 and 500 included |
| RegistryTheorems.DeleteUndoesCreate | gui/serialtcp_gui/api.py:263-269 | deleting a mapping that was just added restores services, cards and selection |
| RegistryTheorems.RemovedPair | gui/serialtcp_gui/app.py:459-475 | removing a service and its card keeps the bijection and removes no other |
| RegistryTheorems.MovedCard | gui/serialtcp_gui/app.py:446-453 | replacing a card keeps the bijection |
| RegistryObject.App.constructor | gui/serialtcp_gui/app.py:259-275 | the application after loading its file and starting the services that ask for it |
| RegistryObject.App.Find | gui/serialtcp_gui/api.py:312-322 | the index of the service that a request means |
| RegistryObject.App.AddPortConfig | gui/serialtcp_gui/app.py:431-436 | service and card are appended and the file saved |
| RegistryObject.App.UpdatePortConfig | gui/serialtcp_gui/app.py:438-457 | stop, replace, restart if it ran, move the card, save |
| RegistryObject.App.RemovePortConfig | gui/serialtcp_gui/app.py:459-475 | card and service go, the first one left is selected if the selected one went, save |
| RegistryObject.App.CreatePort | gui/serialtcp_gui/api.py:237-246 | the whole request, with its error replies |
| RegistryObject.App.UpdatePort | gui/serialtcp_gui/api.py:248-261 | the whole request, with its error replies |
| RegistryObject.App.DeletePort | gui/serialtcp_gui/api.py:263-269 | the whole request, with its error reply |
| RegistryObject.App.StartPort | gui/serialtcp_gui/api.py:271-280 | running afterwards, or 409 and unchanged |
| RegistryObject.App.StopPort | gui/serialtcp_gui/api.py:282-289 | not running afterwards |
| RegistryObject.App.StartAllPorts | gui/serialtcp_gui/api.py:291-301 | every service that can be started runs, and those that do not are reported |
| RegistryObject.App.StopAllPorts | gui/serialtcp_gui/api.py:303-309 | no service runs |
| RegistryObject.App.CallOnMain | gui/serialtcp_gui/app.py:402-429 | on the main thread the request runs at once and its reply is returned; elsewhere it is queued behind the others, unless it is refused before |
| RegistryObject.App.GiveUp | gui/serialtcp_gui/app.py:425-426 | a caller that stops waiting leaves its request in the queue |
| RegistryObject.App.Turn | gui/serialtcp_gui/app.py:416-429 | one request, and what its caller is told |
| RegistryObject.App.Tick | gui/serialtcp_gui/app.py:523-530 | the queue is drained, one request after the other, in order, and each caller is answered |

## Left out

- Starting a service again: a run is one session, and threads left over from an earlier session are not part of it.
- The joins with their timeouts at the end of `close` and `stop`.
- Finer interleavings than listed above, such as a second opener between the guard of `ensure_open` and its open.
- NoLeakedPort: the case of a client that comes and goes before the running flag is set is excluded by its condition, because the property is false there (`BootWindowLeaks`).
- LingerLasts: with a disconnect callback in flight, or for a timer that a newer one has overtaken, only the time since arming is claimed, because the stronger claim is false there (`StaleTimerClosesEarly`, `SlowDepartureClosesEarly`); the exact condition is in `LingerAfterWholeDepartures`.
- SerialPortObject.SerialPort.OpenUnderLock: without `keep_active=False`, which no caller uses.
- SerialPortObject.SerialPort.ReceiverExit: without `keep_active=False`, which no caller uses.
- PortServiceObject.PortService.constructor: begins when `start` has built the port and bound the server; that binding can fail is part of the registry only.
- ConsoleLog.Console.Emit: without time stamps, the log file, and an event callback that raises, which the original catches.
- RegistryObject.App.Turn: the states that an answer reports are read right after the request's turn; in the original another request may come between.
- StopIsFinal: clients in their connect callback are excluded by its condition, because the property is false for them.
- Recovery: that the reconnect threads are scheduled, and that the device is present from some point on, are assumptions.
- EachClientGetsItsPart: sends succeed while the client is there, one receiver broadcasts at a time, and nobody recalls history; overlapping receivers around a reconnect may duplicate or reorder chunks and are not modelled.
- LineIsAMerge: writing to the device succeeds; `SerialPort.Send` says what a refused write leaves out.
- SerialPortObject.SerialPort.SendChars: the contents of the echoes and the real time spent waiting are arbitrary; only the bytes written, their order and termination are claimed.
- The TCP client's own thread (`serialtcp/client.py`): its order of connect callback, data and disconnect callback is the order of the client steps here; error counting and history recall are not modelled.
- UTF-8 decoding: the decoder is a parameter that yields no text exactly for no bytes. Time stamps of events and log lines are parameters or dropped.
- The log file, the logging setup, exceptions of the event callback, uptime, health and state queries.
- `clean`, labels and other display helpers, widgets, cards' drawing, dialogs and their validation, and reloading from the menu.
- ReopeningGivesTheSame: the file can be written throughout, and the logging and API sections of the file are dropped.
- YAML text and its typing: files are dictionaries; a `ports` key that holds null or a scalar, and booleans or floats in place of a TCP port that Python would take for equal to an integer, are not modelled.
- Conversions that the request model makes before validation, such as numeric strings to integers.
- Codes of more than 4300 digits in a colour escape, which the original ignores and the model reads.
- The limit of five seconds on queued calls: any caller may stop waiting at any time before its answer.
- A running service inside the registry is a flag: binding succeeds or fails by the environment, and its threads are the subject of the session model.
- The command line service's wiring, its immediate close on the last disconnect, and its `exit` sequence.
