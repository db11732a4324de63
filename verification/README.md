# Models of the hard cores of the Ext library

Models of code where a change of one line breaks a promise far away: a request protocol over shared
memory, a vectorised UUID printer and parser, a one-pass format scanner, loops over occurrences in a string,
the framing of streams, the matching of responses to callers, and the start-up handshakes of services and
modules. Each model has the branches, constants and edge cases of the code it cites, and its main results are
statements about all inputs, all interleavings or all runs. `dafny verify dfyconfig.toml` checks everything.

| file | what it is about | source |
|---|---|---|
| `IpcData.dfy` | the shared structure, the queue, and each critical section in place | `IPC/EXIPC_unix.cpp`, `IPC/EXIPC_unix.h`, `Util/ExDataStruct.hpp` |
| `IpcProtocol.dfy` | conservation, callbacks at most once, routing of answers, channel names | `IPC/EXIPC_unix.cpp`, `IPC/EXIPC.cpp` |
| `IpcRouting.dfy` | exactly when an answer goes to the call that asked for it, whatever the names | `IPC/EXIPC_unix.cpp`, `IPC/EXIPC.cpp` |
| `IpcOutcomes.dfy` | how attempts and calls end, told from the actions: budgets, drops, channels, stops | `IPC/EXIPC_unix.cpp`, `IPC/EXIPC.cpp` |
| `IpcLocks.dfy` | semaphores with scoped guards: order, no deadlock, progress | `IPC/EXIPC_unix.cpp`, `IPC/EXIPC_unix.h` |
| `Uuid.dfy` | `m128itos` and `stom128i`, intrinsic by intrinsic, against plain hex text | `Util/UUID/uuid_v4.h` |
| `Format.dfy` | `format_trans` against a grammar of segments and its documented meaning | `String/EXFormat.hpp` |
| `Strings.dfy` | `count`, `split` and `replaceAll` against one definition of a cutting | `String/EXString.cpp` |
| `Correlation.dfy` | the pending promises of `SendAndWait` and the receive thread | `Network/EXNetwork.cpp` |
| `ServiceHandshake.dfy` | start-up and controls of a Windows service | `External/qtservice/qtservice_win.cpp` |
| `ModuleLifecycle.dfy` | the four life-cycle calls of a module, with hooks that fail or call back | `Module/EXModuleBase.cpp` |
| `CommandStream.dfy` | CR LF commands out of chunked socket data | `External/qtservice/qtservice_unix.cpp` |
| `Frames.dfy` | the `Send` and `Receive` loops over partial transfers | `Network/include/Socket/TCPClient.cpp`, `TCPServer.cpp` |
| `Packets.dfy` | `convertSendMsg` and `convertReceiveMsg` | `Network/EXNetwork.cpp` |
| `Wrappers.dfy` | an optional value | |

## How to read the models

Code that changes fields, arrays or strings step by step is a class or a method with the same loop, and its
contract ties the new state to a function of the old one; the theorems are about those functions. Concurrent
code is a state machine whose steps are the critical sections (or, in `IpcLocks.dfy` and
`ServiceHandshake.dfy`, the single semaphore, mutex and condition operations). A run is a list of actions; an
action that is not possible changes nothing, so a statement about all lists is a statement about all
interleavings. System calls that may fail are actions with a free outcome.

Where a promise fails, the code is modelled as it is, the failing case is a lemma of its own, and the exact
condition is proved:

- `IpcRouting`: a running call that is alone under its name can take the answer to another call's request exactly
  when it has attempts left, its channel is there and such a request is outstanding under the name: with a worker,
  answered in the channel or, while the server is not stopped, in the slot or in the queue. So calls of one process that follow each other are routed right, even under the one name
  of `EXIPC_unix.cpp`, as long as the earlier ones returned true or never posted; after a call that timed out its
  late answer can go to the next one. The names of `EXIPC.cpp` are distinct exactly up to 2^32 calls of one process.
- `Uuid`: hex digits are parsed right exactly when none is in upper case; each such digit counts seven too much.
- `Format`: the loop runs for ever exactly when it reaches a slot that is not swallowed and has a stray character, or
  that has no type and an index that wraps below -1 as a short. When every slot has its argument, the documented
  text is printed for all arguments exactly when no printing slot is the next slot after an indexed boolean one, the
  list does not end in a slot of an unknown type, and all indices and the argument cursor fit a short. An untyped slot
  with a number from 32768 to 65534 never ends, and 65535 stands for the first argument.
- `Strings`: `count` and `replaceAll` test for an empty pattern; `split` does not, and with an empty separator it
  finds the same place for ever.
- `Correlation`: the map is right in every run. A promise can come to break, before any other call draws an id,
  exactly when two running calls drew a multiple of 2^32 apart and one of them has its promise in the map or has yet
  to put it there (or a promise is lost already, which needs such a pair earlier in the run). With fewer than 2^32
  draws during any call there is no such pair; one draw more is enough for one.
- `ServiceHandshake`: a call of `handler` is woken by its own event exactly when no event was pending as it posted,
  and while the event loop runs a waiting call can come to report its state before its own callback ran exactly when
  one was. After the event loop nobody is woken.
- `CommandStream`: chunking is irrelevant exactly when no complete line but the last is empty, because an empty
  line ends a round as a missing one does.
- `Frames`: under any chunks and failures, a frame is read right exactly when no `recv` fails and the calls reach the
  frame's end; the latter depends on the length read through signed chars, with old bytes of the buffer in it when
  the first read is short. With a whole first read it means that the last three length bytes stay below 128. A failing
  `recv` counts as minus one byte, so that each failure costs the stream one byte more. Without a failure, bytes are
  stored outside the caller's buffer exactly when the calls reach further than it, whatever the stream is.
- `Packets`: both lengths are cast to 32 bits, so a body comes back whole exactly when it fits after the casts.

The header comment of `TCPClient.cpp` and the code of `Receive` count the eight header bytes in the length, while
`convertSendMsg` writes the length of the body alone. Each side is proved against its own contract, and nothing is
claimed about the two together.

`IpcData.Data` has one field that the source does not have: `tag` numbers the requests in posting order and
travels with the copies, so that the theorems can say whose bytes they are. `ahead` and
`wokenBy` in `ServiceHandshake.Call` are of the same kind, as are `routes` and `received` in `Correlation.State`.

## Model

| member | source | states |
|---|---|---|
| IpcData.CopiesAreExact | IPC/EXIPC_unix.cpp:702-706 | the request and response bytes read from the shared buffers are those written, whatever the buffers held before |
| IpcData.EventQueue.EnQueue | IPC/EXIPC_unix.h:59-65 | appends at the back, stop flag unchanged |
| IpcData.EventQueue.DeQueue | Util/ExDataStruct.hpp:25-39 | takes the front; a stopped queue returns a blank item and keeps its contents |
| IpcData.EventQueue.Stop | Util/ExDataStruct.hpp:49-53 | raises the flag and drops nothing |
| IpcData.SharedData.TryPost | IPC/EXIPC_unix.cpp:669-710 | posts exactly when the slot is initialised and free; the whole new slot, the response area untouched; a refused attempt changes nothing |
| IpcData.SharedData.Clear | IPC/EXIPC_unix.cpp:413-416 | frees the slot and leaves the payload bytes where they are |
| IpcData.SharedData.Poll | IPC/EXIPC_unix.cpp:393-417 | a request of a living sender is queued as an exact copy, one of a dead sender is dropped, and either way the slot is free |
| IpcData.SharedData.Answer | IPC/EXIPC_unix.cpp:494-531 | the client's slot after an inline answer, the request area untouched |
| IpcData.SharedData.TryReceive | IPC/EXIPC_unix.cpp:732-760 | succeeds exactly when an answer is there, and returns its bytes |
| IpcProtocol.Conservation | IPC/EXIPC_unix.cpp:389-418 | in every run the dequeued, queued and slotted requests are, in posting order, exactly those posted and not dropped for a dead sender, each with the bytes and the name posted |
| IpcProtocol.AtMostOnce | IPC/EXIPC_unix.cpp:421-466 | in every run each request reaches the callback at most once, after it was dequeued, with exactly the bytes posted; no two workers hold one request |
| IpcProtocol.TakenExactly | IPC/EXIPC_unix.cpp:425-466 | until the server stops, the dequeued requests are exactly those given to the callback and those a worker is about to give to it |
| IpcProtocol.Routing | IPC/EXIPC.cpp:271-316 | in every run a channel or a finished call holds only the callback's answer to a request that was posted under that channel's name |
| IpcProtocol.PostsAtMostOnce | IPC/EXIPC.cpp:485-587 | a call posts at most once, and waits or succeeds only if it posted (its budget is the subject of `IpcOutcomes.BudgetKept`) |
| IpcProtocol.AnsweredOwnRequest | IPC/EXIPC.cpp:591-673 | with distinct names a call that returned true posted once, was dequeued, reached the callback and returns the answer to its own bytes |
| IpcProtocol.ChannelHoldsOwnAnswer | IPC/EXIPC.cpp:591-651 | with distinct names a client's slot holds only the answer to that client's own request |
| IpcProtocol.NamesDiffer | IPC/EXIPC.cpp:461 | two names are equal exactly for equal process and, with a counter, equal counter value |
| IpcProtocol.NamesDistinctExactly | IPC/EXIPC.cpp:461 | the names of a run are distinct exactly when no process made more calls than 2^32 (one, without the counter) |
| IpcProtocol.MisroutedByProcess | IPC/EXIPC_unix.cpp:337-340 | with names by process there is a run in which the late answer to a timed-out call makes the next call return true with it |
| IpcRouting.StepOutstanding | IPC/EXIPC_unix.cpp:389-534 | nothing comes back into play: what is outstanding after a step was so before it or is posted by it |
| IpcRouting.RoutedAlone | IPC/EXIPC_unix.cpp:630-777 | a call that runs alone under its name, with no request of another call outstanding there, returns true only with the answer to its own bytes, however names are formed |
| IpcRouting.BringAnswer | IPC/EXIPC_unix.cpp:389-534 | from every reachable state, stopped or not, the threads of the server alone can bring an outstanding request of a replying callback to its answer in the channel |
| IpcRouting.ForeignTaken | IPC/EXIPC_unix.cpp:728-772 | a request of another call that is outstanding under the name can make a posting or waiting call return true with its answer |
| IpcRouting.MisroutingExactly | IPC/EXIPC_unix.cpp:337-340 | for every running call that is alone, some continuation hands it the answer to another call exactly when it has attempts left, its channel is there and such a request is outstanding under its name |
| IpcRouting.AlwaysAnsweredOnce | IPC/EXIPC_unix.cpp:494-532 | in every run a request is answered at most once, and an answer that a call took back lies in no channel |
| IpcRouting.SequenceIsRouted | IPC/EXIPC_unix.cpp:630-777 | calls of one name that follow each other are routed right as long as the earlier ones returned true or never posted |
| IpcOutcomes.BudgetKept | IPC/EXIPC_unix.cpp:665-768 | with failed attempts counted in the actions of a run: they keep within the budget of the call, and a call that timed out has failed exactly so often as its budget allows |
| IpcOutcomes.TimesOutExactly | IPC/EXIPC.cpp:465-669 | an attempt ends a call without success exactly when the failures that count have reached its budget: those of both loops in `EXIPC.cpp`, those of the loop it is in for `EXIPC_unix.cpp`, which starts anew at line 726 |
| IpcOutcomes.PostsExactly | IPC/EXIPC_unix.cpp:669-710 | in every run an attempt with budget left posts exactly when the slot can be opened and is free, and then the slot has the bytes, the name and the process of the call |
| IpcOutcomes.ReceivesExactly | IPC/EXIPC_unix.cpp:728-772 | in every run an attempt with budget left succeeds exactly when the channel can be opened and holds an answer, takes its bytes and closes the channel |
| IpcOutcomes.AnswersExactly | IPC/EXIPC_unix.cpp:482-531 | in every run a worker answers exactly when the channel is there, can be opened, and the callback left data or nothing at all; no other channel changes |
| IpcOutcomes.DroppedExactly | IPC/EXIPC_unix.cpp:398-406 | in every run the dropped requests are exactly those that stood in the slot as it was polled with a dead sender |
| IpcOutcomes.DroppedIsGone | IPC/EXIPC_unix.cpp:400-405 | such a request never reaches the queue, a worker or the callback |
| IpcOutcomes.PollIsSection | IPC/EXIPC_unix.cpp:396-417 | a step of the polling thread does to slot and queue what the polling section does |
| IpcOutcomes.ChannelsKept | IPC/EXIPC_unix.cpp:512-531 | only an answer changes what a channel holds, and only the end of a call of its name closes it |
| IpcOutcomes.ChannelWhileRunning | IPC/EXIPC_unix.cpp:636-776 | with distinct names a channel is there exactly while its call runs |
| IpcOutcomes.NothingTakenAfterStop | IPC/EXIPC_unix.cpp:423-428 | after a stop nothing is dequeued, and only what was dequeued before can still reach the callback |
| IpcOutcomes.StopEndsWorkers | IPC/EXIPC_unix.cpp:423-428 | a worker that sees the stop leaves without running the callback |
| IpcOutcomes.NamesInFull | IPC/EXIPC.cpp:461 | the names of channels, spelled out |
| IpcLocks.AlwaysSound | IPC/EXIPC_unix.h:24-31 | in every run the count plus the holders of each semaphore object, replaced ones included, is 1, and the live guards are those of the place of each thread |
| IpcLocks.NestingOrder | IPC/EXIPC_unix.cpp:669-697 | a nested acquisition is always the server's data semaphore under the server's, or a client's data semaphore under a client's, for a call of SendIPC its own |
| IpcLocks.CallbackHoldsNothing | IPC/EXIPC_unix.cpp:465-466 | the callback runs with no semaphore held |
| IpcLocks.NoDeadlock | IPC/EXIPC_unix.cpp:494-519 | in no run do threads wait for each other in a circle of any length |
| IpcLocks.ChainToMover | IPC/EXIPC_unix.cpp:732-748 | whoever waits is at most four links away from a thread that can move |
| IpcLocks.Progress | IPC/EXIPC_unix.h:24-31 | as long as a thread is unfinished, some thread has a step that changes the state |
| IpcLocks.MutualExclusion | IPC/EXIPC_unix.cpp:393-395 | in every run no two threads are in the server's slot at once, nor in its data area, nor in the slot or data area of one client |
| IpcLocks.SendPath | IPC/EXIPC_unix.cpp:630-777 | in every run a call keeps to its own semaphores, receives exactly after a success in the server's slot, and ends with an answer or with its budget used up |
| IpcLocks.WorkerPath | IPC/EXIPC_unix.cpp:421-534 | in every run a worker calls back each dequeued request once, unless it is large and cannot be read, and ends every answer it begins |
| IpcLocks.LargeWaitsForData | IPC/EXIPC_unix.cpp:511-519 | a data semaphore is waited for exactly for a large request or answer |
| Uuid.DigitLanesCorrect | Util/UUID/uuid_v4.h:36-49 | the vector steps yield the 32 lower-case hex digits in byte order, whatever the cast leaves in the upper half |
| Uuid.DashLanesCorrect | Util/UUID/uuid_v4.h:53-57 | the lane shuffle and the dash constant place the first 32 characters except exactly positions 16 and 17 |
| Uuid.M128ItoS | Util/UUID/uuid_v4.h:31-62 | the three stores write the 36 characters of the plain 8-4-4-4-12 text and nothing else |
| Uuid.GatherDigitsCorrect | Util/UUID/uuid_v4.h:70-75 | one shuffle and two inserts gather the 32 digit characters |
| Uuid.CharValuesCorrect | Util/UUID/uuid_v4.h:78-94 | the offsets turn lower-case hex digits into their values |
| Uuid.PackNibblesCorrect | Util/UUID/uuid_v4.h:82-98 | unweaving, variable shift, horizontal add and permute pack 32 nibbles into 16 bytes without a carry |
| Uuid.ParserRefinesPlainForm | Util/UUID/uuid_v4.h:68-101 | on lower-case hex digits the parser is plain hex reading, whatever stands at the dash positions |
| Uuid.ParseOfPrint | Util/UUID/uuid_v4.h:31-101 | parsing the printed text gives back every 128-bit value |
| Uuid.PrintOfParse | Util/UUID/uuid_v4.h:31-101 | printing a parsed text gives it back exactly when it is lower-case hex with dashes in place |
| Uuid.PackNibblesAt | Util/UUID/uuid_v4.h:82-98 | the first pair of any numbers to exceed 15 still makes its own byte, as no carry comes from below |
| Uuid.FirstUpperMisread | Util/UUID/uuid_v4.h:78-98 | the first byte with an upper-case hex digit is read with 7 too much for each such digit, modulo 256, and so is wrong |
| Uuid.ReadRightExactly | Util/UUID/uuid_v4.h:68-101 | hex digits in either case are read right exactly when none is in upper case |
| Uuid.StampedBytes | Util/UUID/uuid_v4.h:255-258 | the masks set the version nibble of byte 6 and the two variant bits of byte 8 and keep all other bits (sections 4.1.1 and 4.1.3 of RFC 4122) |
| Uuid.GeneratedText | Util/UUID/uuid_v4.h:253-261 | a generated text has 4 at index 14 and 8, 9, a or b at index 19, with all other bits random (section 4.4 of RFC 4122) |
| Uuid.UuidGenerator.GetUuid | Util/UUID/uuid_v4.h:253-261 | draws two words and stamps them, in either order of evaluation |
| Uuid.Value.FromStr | Util/UUID/uuid_v4.h:146-149 | overwrites the bytes with the parsed value, whose text is the input exactly when that is canonical |
| Uuid.Value.Str | Util/UUID/uuid_v4.h:198-211 | the text of the value, which parses back to it |
| Format.FormatTrans | String/EXFormat.hpp:117-304 | for every format string and argument list the loop returns the text of the staged scan, or runs for ever or past the terminator exactly where the scan says so |
| Format.MovesOrStays | String/EXFormat.hpp:130-301 | an iteration consumes at least one character or changes nothing at all |
| Format.CursorNeverMinusOne | String/EXFormat.hpp:170-232 | the 16-bit argument cursor may wrap but never reads before the arguments |
| Format.ScanOfPrinted | String/EXFormat.hpp:117-304 | on every list of literals, escapes and slots, with indices of any size, stray characters and any number of automatic slots, and for all arguments, the scan is a segment-wise meaning |
| Format.ScanEnds | String/EXFormat.hpp:130-301 | on the grammar the loop runs for ever exactly when it reaches a slot that is not swallowed and has a stray character or, without a type, an index wrapped below -1; otherwise it reads past the terminator exactly when the last segment falls through |
| Format.WrappedFits | String/EXFormat.hpp:272-279 | the index of the loop is the written number as long as that fits a short |
| Format.CleanScan | String/EXFormat.hpp:117-304 | where no printing slot is the next slot after an indexed boolean one and all numbers fit a short, the text is the documented rendering unless the last segment falls through |
| Format.FaithfulExactly | String/EXFormat.hpp:41-44 | with enough arguments the documented text is printed for all of them exactly when the list is clean, does not end in an ignored slot, and all its indices and cursor positions fit a short |
| Format.SwallowedSlot | String/EXFormat.hpp:187-194 | the slot after an indexed boolean one disappears |
| Format.NegativeIndexHangs | String/EXFormat.hpp:226-260 | wherever the slot stands, the closing brace of a slot without a type stops the loop when the index is below -1 |
| Format.OverflowExample | String/EXFormat.hpp:272-283 | {32768} never ends, {65536} shows the first argument, and {32768:b} prints nothing and goes on |
| Format.UnknownCharacterHangs | String/EXFormat.hpp:261-286 | wherever the slot stands, an unknown character in a slot without a type stops the loop |
| Format.ValueOfDecimal | String/EXFormat.hpp:272-279 | reading the decimal text of a number gives the number back |
| Format.NumberedSlot | String/EXFormat.hpp:244-279 | a slot with the decimal text of n shows argument n or nothing for n up to 32767, never ends up to 65534, and shows the first argument for 65535 |
| Format.BooleanSlot | Util/EXUtil.hpp:87 | with the type b or B a slot shows true exactly for Y, y, True, TRUE and 1 |
| Format.OtherType | String/EXFormat.hpp:207-214 | a slot of any other type shows nothing |
| Format.StrayAlone | String/EXFormat.hpp:261-286 | a character that is no digit, brace or colon stops the loop in a slot |
| Format.AutomaticSlots | String/EXFormat.hpp:228-242 | k empty slots show the first k arguments in order, for k up to 32768 |
| Format.PlainText | String/EXFormat.hpp:288-300 | a text without an opening brace is copied, up to the terminator |
| Format.DocumentedExample | String/EXFormat.hpp:43 | the example of the documentation comes out as documented |
| Format.BraceInSlot | String/EXFormat.hpp:132-151 | an opening brace in a slot, whatever the slot holds, turns it into a brace of the text |
| Format.BraceAndClose | String/EXFormat.hpp:132-151 | and it takes one closing brace with it, or makes the escape with two |
| Format.BraceAtEnd | String/EXFormat.hpp:130-151 | at the end of the format such a brace is lost, and with one closing brace the terminator is passed |
| Format.UnclosedSlot | String/EXFormat.hpp:130-160 | a last slot that is not closed shows nothing, wherever it begins |
| Strings.FindIsLeftmost | String/EXString.cpp:112-124 | a search finds the leftmost occurrence at or after its start, or there is none |
| Strings.CuttingIsUnique | String/EXString.cpp:165-185 | a string has exactly one cutting at leftmost occurrences |
| Strings.CuttingReconstructs | String/EXString.cpp:165-185 | pieces, each followed by the separator, and the tail make up the string, and none of them contains the separator |
| Strings.Count | String/EXString.cpp:102-127 | counts the pieces of the cutting; nothing for an empty pattern |
| Strings.CountIsMaximal | String/EXString.cpp:102-127 | no choice of disjoint occurrences has more members |
| Strings.Split | String/EXString.cpp:165-185 | delivers the pieces without the tail, or never ends when the separator is empty |
| Strings.SplitReconstructs | String/EXString.cpp:165-185 | the pieces with the separator and the undelivered tail are the string |
| Strings.ReplaceAll | String/EXString.cpp:187-200 | the loop over the string it changes ends with each piece followed by the replacement, then the tail, without looking into inserted text |
| Strings.ReplacedLength | String/EXString.cpp:187-200 | the length changes by the count times the difference of lengths, and replacing a pattern by itself changes nothing |
| Strings.EmptySeparatorStays | String/EXString.cpp:173-182 | an empty separator is found again at every place, so split would not move |
| Correlation.PendingRequests.DrawId | Network/EXNetwork.cpp:317 | delivers the next 32-bit id and wraps |
| Correlation.PendingRequests.Register | Network/EXNetwork.cpp:321-328 | an id already in the map keeps its promise |
| Correlation.PendingRequests.Erase | Network/EXNetwork.cpp:332-337 | removes the id and nothing else |
| Correlation.PendingRequests.Claim | Network/EXNetwork.cpp:414-424 | hands out the promise under the id and removes it, or finds none |
| Correlation.AlwaysConsistent | Network/EXNetwork.cpp:306-430 | in every run each received packet is routed once, in order, to one promise or to the handler; no promise is set twice; every map entry belongs to a waiting call with that id |
| Correlation.TrueResultsAreOwn | Network/EXNetwork.cpp:341-345 | a true result carries a received packet with the call's own id, and no other packet went to that call |
| Correlation.AnswerArrives | Network/EXNetwork.cpp:339-345 | from every reachable state a packet with the id of an outstanding call can come to be what that call returns true with |
| Correlation.RoutedIsReturned | Network/EXNetwork.cpp:332-352 | in every run a call that returned without a failed send or a timeout returned true with exactly the packet routed to it, or threw with none routed |
| Correlation.EndsExplained | Network/EXNetwork.cpp:332-352 | in every run false comes only from a failed send or a timeout, and the other results only from the promise |
| Correlation.PhasesExactly | Network/EXNetwork.cpp:306-353 | what each step does to each call |
| Correlation.ReceivesForOutstanding | Network/EXNetwork.cpp:407-430 | a received packet goes to the outstanding call with its id, and to the handler exactly when there is none |
| Correlation.SameIdExactly | Network/EXNetwork.cpp:317 | two draws give one id exactly when a multiple of 2^32 lies between them |
| Correlation.PendingExactly | Network/EXNetwork.cpp:306-353 | in every run the map holds exactly the ids of the calls that are registered and neither resolved, erased nor about to be resolved, each with its own promise |
| Correlation.PromiseBreaksExactly | Network/EXNetwork.cpp:317-345 | from every reachable state, without another call drawing, some call can come to throw exactly when a promise is lost already or two running calls drew a multiple of 2^32 apart, one of them stored or still to be stored |
| Correlation.LossNeedsClash | Network/EXNetwork.cpp:317-337 | a promise is lost only after two such calls clashed at an earlier point of the run |
| Correlation.AtRiskExactly | Network/EXNetwork.cpp:317-345 | over a whole run no promise is ever at risk exactly when no two calls ever clash |
| Correlation.NothingLostInWindow | Network/EXNetwork.cpp:317-345 | with fewer than 2^32 draws during any call, ids of calls in progress differ, no two clash and no promise is lost |
| Correlation.OneDrawTooMany | Network/EXNetwork.cpp:317-328 | with one draw more the next call finds its id taken and its wait throws |
| ServiceHandshake.HandshakeHolds | External/qtservice/qtservice_win.cpp:766-829 | events posted before the loop is left have a receiver, events without one come only after its deletion, and the arguments are read only when complete |
| ServiceHandshake.WokenByOwnExactly | External/qtservice/qtservice_win.cpp:550-636 | a call of handler is woken by its own event exactly when none was pending as it posted, otherwise by another call's; a call not yet woken has its event still to come |
| ServiceHandshake.ReportsAreTrue | External/qtservice/qtservice_win.cpp:584-611 | a call that posted with no event pending reports its state only after its own callback ran, so the start-up call reports RUNNING after start |
| ServiceHandshake.EarlyReportExactly | External/qtservice/qtservice_win.cpp:550-611 | while the event loop runs, some continuation makes a waiting call report its state before its own callback ran exactly when an event was ahead of its own |
| ServiceHandshake.OneInFlightIsAlone | External/qtservice/qtservice_win.cpp:579-636 | with one call of handler in flight at a time nothing is ever ahead of a call |
| ServiceHandshake.OneInFlightReportsTrue | External/qtservice/qtservice_win.cpp:586-591 | with one call in flight every state reported after a wait follows its own callback |
| ServiceHandshake.CallbacksAsked | External/qtservice/qtservice_win.cpp:550-572 | in every run each callback was asked for by exactly one call: start for 256, stop for 1 and 5, pause for 2, resume for 3, and the command code - 128 for 128 to 255 |
| ServiceHandshake.ControlsRan | External/qtservice/qtservice_win.cpp:554-571 | a call whose event has been dealt with ran the callback of its own control, by the same table |
| ServiceHandshake.PostsExactly | External/qtservice/qtservice_win.cpp:585-629 | a call past its lock has posted an event exactly for the controls of that table |
| ServiceHandshake.StatusExactly | External/qtservice/qtservice_win.cpp:585-629 | the state shown changes only as a call posts, as it wakes and as the application ends, to the state of its control |
| ServiceHandshake.ReportsTell | External/qtservice/qtservice_win.cpp:586-611 | in every run Paused is reported only for a pause, and Running only for the start-up or a continue |
| ServiceHandshake.WokenEnds | External/qtservice/qtservice_win.cpp:631-636 | a woken call takes the mutex, reports what its control asks for and ends |
| ServiceHandshake.CallsBeginExactly | External/qtservice/qtservice_win.cpp:532-538 | in every run a call begins exactly with the start-up, or with a control below 256 once the handler is registered |
| ServiceHandshake.GivesUpExactly | External/qtservice/qtservice_win.cpp:784-805 | the main thread gives up exactly on a timeout, a failed dispatcher or a missing application |
| ServiceHandshake.StartGoesOn | External/qtservice/qtservice_win.cpp:784-799 | complete arguments let the main thread go on with them, and a failed dispatcher makes it give up |
| ServiceHandshake.FailureGivesUp | External/qtservice/qtservice_win.cpp:689-702 | when the dispatcher cannot start, the main thread gets to know and gives up |
| ServiceHandshake.NothingAfterGivingUp | External/qtservice/qtservice_win.cpp:784-805 | a main thread that gave up never has a call, an event or a callback |
| ServiceHandshake.WaitEnds | External/qtservice/qtservice_win.cpp:550-577 | while the event loop runs, from every reachable state of the others a waiting call can be brought to its wake-up, with nothing between the wake-up and the call |
| ServiceHandshake.WakeableExactly | External/qtservice/qtservice_win.cpp:574-576 | a waiting call can still be woken exactly while the event loop runs |
| ServiceHandshake.RunningBeforeStart | External/qtservice/qtservice_win.cpp:586-604 | a run with two calls in flight in which RUNNING is reported while only the pause callback ran |
| ServiceHandshake.LateControlHangs | External/qtservice/qtservice_win.cpp:592-597 | a stop control after the end is posted to no receiver and its call waits for good |
| ModuleLifecycle.Module.ModuleInit | Module/EXModuleBase.cpp:21-49 | refused while a hook runs or the module is alive, otherwise enters the hook and moves on whatever it returns |
| ModuleLifecycle.Module.ModuleStart | Module/EXModuleBase.cpp:51-79 | the same for start, allowed from initialised or stopped |
| ModuleLifecycle.Module.ModuleStop | Module/EXModuleBase.cpp:81-109 | the same for stop, allowed from started and again from stopped |
| ModuleLifecycle.Module.ModuleFinal | Module/EXModuleBase.cpp:111-133 | the same for final, allowed from stopped only |
| ModuleLifecycle.ReentryChangesNothing | Module/EXModuleBase.cpp:27-28 | calls from inside a hook, nested to any depth, change nothing and return false |
| ModuleLifecycle.CallEntersOneHook | Module/EXModuleBase.cpp:21-133 | a call that is not refused enters one hook, moves the state even when the hook fails, and reports the hook's result |
| ModuleLifecycle.TracesExactly | Module/EXModuleBase.cpp:21-133 | the hook traces of runs are exactly the beginnings of (init, (start, stop+)+, final)*, whatever the hooks return and call |
| ModuleLifecycle.InitsMinusFinals | Module/EXModuleBase.cpp:21-133 | inits minus finals is 0 or 1, and 1 exactly while the module is alive |
| ModuleLifecycle.FinalFollowsStop | Module/EXModuleBase.cpp:120-121 | a final comes right after a stop, a stop after a start or a stop, and an init first or after a final |
| CommandStream.CommandServer.GetCommand | External/qtservice/qtservice_unix.cpp:332-341 | cuts off the first complete line; an empty line and a missing one look alike |
| CommandStream.CommandServer.Handle | External/qtservice/qtservice_unix.cpp:291-321 | the effects a command has under the service flags, then one reply |
| CommandStream.CommandServer.SlotReady | External/qtservice/qtservice_unix.cpp:285-324 | one round handles the commands up to the first empty line, with effects and replies in order, and leaves other sockets alone |
| CommandStream.StreamConserved | External/qtservice/qtservice_unix.cpp:285-341 | however the stream is chunked, the lines removed are its first lines, and with their CR LF and the cache they are all that was received |
| CommandStream.AllLinesHandled | External/qtservice/qtservice_unix.cpp:285-324 | with no empty line before the last, every chunking removes all lines and keeps the tail |
| CommandStream.ChunkingIrrelevantExactly | External/qtservice/qtservice_unix.cpp:285-341 | every chunking into non-empty chunks, also between CR and LF, handles the same commands and leaves the same cache as one delivery exactly when no complete line but the last is empty |
| CommandStream.SocketsAreSeparate | External/qtservice/qtservice_unix.cpp:287-289 | with deliveries interleaved, each socket has the cache and the replies of its own chunks alone |
| CommandStream.HandledOfSocket | External/qtservice/qtservice_unix.cpp:285-341 | of each socket exactly the lines are handled that its own chunks complete, without the empty ones |
| CommandStream.LinesObeyed | External/qtservice/qtservice_unix.cpp:291-314 | for all deliveries the service is paused, resumed and stopped as often as handled lines ask for it and the flags allow it, every number is processed in order, and each reply follows its command at once |
| CommandStream.RepliesTell | External/qtservice/qtservice_unix.cpp:291-322 | each line of a socket gets one reply, in order, and it is true exactly for what was allowed |
| Frames.DecodedLengthExactly | Network/include/Socket/TCPClient.cpp:362-370 | the length read through signed chars is right exactly when each byte from 128 on lies below bytes of all ones, and is otherwise too large |
| Frames.Connection.Receive | Network/include/Socket/TCPClient.cpp:336-420 | the header reads and the body loop leave in the caller's buffer and on the wire exactly the reading that the lemmas below pin down, for buffers of any size, failures and overflow of the count included |
| Frames.Connection.ReceiveBody | Network/include/Socket/TCPServer.cpp:420-449 | the body loop, failures and the peer's shutdown included |
| Frames.Connection.Send | Network/include/Socket/TCPServer.cpp:454-475 | emits a beginning of the buffer and reports as the lemma below pins down; unconnected or empty, it emits nothing |
| Frames.SendsExactly | Network/include/Socket/TCPClient.cpp:301-319 | success is reported exactly when no call fails and the size fits an int, and then the whole buffer went out once; a failure leaves less than all of it |
| Frames.BodyExactly | Network/include/Socket/TCPClient.cpp:387-417 | when no call fails, the body loop moves a number of bytes that does not depend on the chunks, or leaves the buffer |
| Frames.BodyAccounts | Network/include/Socket/TCPClient.cpp:387-419 | under any grants the count that the loop returns is where it began plus the bytes it took minus the calls that failed |
| Frames.BodyWithFailures | Network/include/Socket/TCPClient.cpp:387-419 | under any grants, while bytes last and the count stays positive, the loop returns the size and has taken one byte more for each failure |
| Frames.RefusedUnread | Network/include/Socket/TCPClient.cpp:336-347 | an empty buffer gives 0 and a missing connection -1, and nothing is read |
| Frames.ReceivesNothing | Network/include/Socket/TCPClient.cpp:357-382 | a stream that ends within the header gives 0 |
| Frames.OneBodyRead | Network/include/Socket/TCPClient.cpp:387-417 | without bReadFully there is exactly one read of the body |
| Frames.ZeroLength | Network/include/Socket/TCPClient.cpp:352-373 | a length of zero asks for as much as the buffer holds |
| Frames.ShortBuffer | Network/include/Socket/TCPClient.cpp:357-365 | a buffer of less than four bytes is left at once |
| Frames.LeavesBufferExactly | Network/include/Socket/TCPClient.cpp:387-389 | for any stream and chunks without a failure, bytes are stored outside the caller's buffer exactly when the calls reach further than it |
| Frames.ReceiveExactly | Network/include/Socket/TCPClient.cpp:353-419 | under any grants, short header reads included, a frame is stored at the front of the buffer and reading stops at the next one exactly when no call fails and the calls reach the end of the frame |
| Frames.FrameExactly | Network/include/Socket/TCPClient.cpp:353-419 | with a whole first read and any other chunks, a frame is read right exactly when no call fails and its last three length bytes stay below 128 or nothing follows it; without a failure another one is read beyond its end |
| Frames.FramesInTurnExactly | Network/include/Socket/TCPServer.cpp:385-451 | under any grants, calls of Receive take the frames of a stream one by one and leave what follows exactly when no call of recv fails and each call, begun where the last one ended, reaches the end of its frame |
| Frames.FramesInTurn | Network/include/Socket/TCPServer.cpp:385-451 | when each call gets the length field in its first read and the last three length bytes stay below 128, the same holds exactly when no call of recv fails, whatever the other chunks |
| Frames.FrameOf200 | Network/include/Socket/TCPClient.cpp:362-373 | a frame of 200 bytes is read one byte too far |
| Frames.FailureTakesNextByte | Network/include/Socket/TCPClient.cpp:389-415 | the bytes that one failure after a chunk leaves: one of the frame is lost and one of the next is taken |
| Packets.AssembledIsValue | Network/EXNetwork.cpp:31-34 | the shifts read four bytes as a big-endian number, and writing it gives the bytes back |
| Packets.AssembledOfBytes | Network/EXNetwork.cpp:68-81 | the shifts and masks write a number in base 256, and reading gives it back |
| Packets.SizeIsLength | Network/EXNetwork.cpp:68 | the cast keeps the length of the body modulo 2^32 |
| Packets.ConvertSendMsg | Network/EXNetwork.cpp:66-86 | the size, the id and the body, byte by byte |
| Packets.TakeWord | Network/EXNetwork.cpp:23-34 | moves four bytes out of the front, and a missing byte is an exception |
| Packets.ConvertReceiveMsg | Network/EXNetwork.cpp:17-64 | the whole conversion, error case included |
| Packets.ReceiveOfSend | Network/EXNetwork.cpp:17-86 | a sent message followed by any padding comes back with its id and size, and whole exactly when it fits the buffer's length after the casts |
| Packets.SendOfReceive | Network/EXNetwork.cpp:17-86 | a received message sends again as the front of the buffer exactly when the buffer holds as much as its header says |
| Packets.RefusedExactly | Network/EXNetwork.cpp:17-34 | a buffer is refused exactly when it is shorter than eight bytes |

## Left out

- Payloads over 512 bytes and `nCheckIPC`: the data area outside the slot can be overwritten once the slot is free, so nothing of the kind proved here holds of it. `IpcLocks` does include the semaphores of that area.
- The wait of the Windows server for `isDone` (`IPC/EXIPC.cpp:331-369`): it does not advance its counter.
- The answer to a callback that leaves neither size nor data: `IpcProtocol` answers with no bytes, as `EXIPC_unix.cpp` does; `EXIPC.cpp:262` gives no answer then.
- The callback gets `responseData` by value, so it cannot deliver data through it (`IPC/EXIPC_unix.h:114`). The model lets the callback be any function from the request bytes to a size without data or to data.
- IpcData.SharedData.TryPost: asks for a payload of at most 512 bytes, as the data area is left out; larger ones do not go through the slot.
- IpcData.SharedData.Answer: asks for an answer that fits the slot, for the same reason.
- IpcData.SharedData.TryReceive: asks for an answer that fits the slot, for the same reason.
- A client slot is a name that a call creates if it is missing and removes when it ends. That an unlinked mapping lives on for those who have it open and that process numbers are reused is not modelled. `IpcLocks` numbers semaphore objects and not names, so that a semaphore created anew is another one.
- IpcData.EventQueue.DeQueue: does not model the wait itself, which a stop ends in `Util/ExDataStruct.hpp` but not in `IPC/EXIPC_unix.h`; only what happens once the wait is over.
- Formats in which a brace opens inside a slot, other than the escape, or in which the last slot is not closed, are no lists of segments: `Format.BraceInSlot`, `Format.BraceAndClose`, `Format.BraceAtEnd` and `Format.UnclosedSlot` say what the loop does there, for any rest of the format.
- Format types other than b, custom types added by macro, and the conversion of arguments to text.
- Timeouts of `SendAndWait` are one step; the clock is not modelled. A timeout may happen at any time after a successful send.
- Spurious wake-ups of a wait condition, which Qt's conditions guard against, and the closing report of the current state by each call of `handler`, which repeats a status set elsewhere.
- The `quit` after a stop callback: the model lets the application leave its event loop whenever it is idle.
- Whether the service manager holds back controls until RUNNING is reported: the model allows any control once the handler is registered.
- The destructor of a module: it calls hooks that its derived class no longer has. Two threads calling a module at once are not modelled either.
- The conversion of socket bytes to text in `slotReady`, `toInt` of a command number, and the cache of a socket that was closed, which stays under the address of the old socket.
- The retry of `Receive` on WSAENOBUFS. What happens after an int overflows or a byte leaves the buffer is one outcome, Undefined.
- Frames.FramesInTurn: asks that the first read of each call gets its four bytes; `Frames.FramesInTurnExactly` has no such condition.
- Frames.LeavesBufferExactly: asks for a buffer of at least the eight header bytes, and for no failing call, as a failure moves the place of the next byte.
- IpcRouting.MisroutingExactly: lets the polling loop empty the slot after a stop however often, where the real loop does so at most once; without a stop nothing of this kind is assumed.
- ServiceHandshake.LateControlHangs: describes the time from the end of the application to `sysCleanup` (`External/qtservice/qtservice_win.cpp:827`), which deletes the object with the mutex and the condition while `instance` still points to it; what a waiting or later call does after that is undefined and not modelled.
- Controls reach `handler` from the one dispatcher thread of the service, so one at a time; the model lets any number of calls run at once, so that a run which `ServiceHandshake` says is possible may have several. `ServiceHandshake.OneInFlightReportsTrue` is about one call at a time.
- Uuid.ReadRightExactly: says nothing of texts with characters that are no hex digits, beyond what `Uuid.PrintOfParse` and `Uuid.PackNibblesAt` give.
- Operating-system calls, TLS sockets, big-endian byte order, the quality of random numbers, UUID ordering and hashing, singletons, converters, files, databases, sessions and processes.
- The module manager, whose locks and group notification would need a different treatment.
