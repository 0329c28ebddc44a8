# Verification of the raner reactor library

A Dafny model of *raner*, a reactor network library in C++, and proofs about it. It covers what is hard in the
library: state that must survive re-entrant callbacks, queues shared between threads, and byte streams that may be
cut anywhere. `dafny verify dfyconfig.toml` checks everything.

| file | what it holds |
|---|---|
| `FdTable.dfy` | the fd half of the epoll server on values: table, two ready lists, kernel interest set, dispatch pass |
| `Chains.dfy`, `EpollServer.dfy` | the same as it is written: nodes threaded through an intrusive doubly linked list with two heads |
| `Alarms.dfy`, `Timers.dfy` | the time-ordered alarm multimap, its firing loop, and EpollTimer on top of it |
| `AlarmServer.dfy` | the alarm half of the server and EpollTimer as objects |
| `EventLoop.dfy` | the functor queue and wake pipe as interleaved steps of any number of threads, and the queue as an object |
| `Connection.dfy`, `TcpConnection.dfy` | one TCP connection: states, output path, shutdown; on values and as an object |
| `Lifecycle.dfy`, `TcpServer.dfy` | the connections of a server across its accepting loop and any number of I/O loops |
| `Projection.dfy` | that each connection of such a server goes through a run of one connection alone |
| `Endian.dfy`, `ByteBuffer.dfy` | byte order, and the compacting, growing buffer |
| `Codec.dfy` | the length-header codec |
| `Ttcp.dfy`, `TtcpEnds.dfy` | the stop-and-wait throughput program: both ends, and the two of them over a network |
| `ChatServer.dfy` | the copy-on-write connection set of the threaded chat server |
| `Sequences.dfy` | an option type and facts about sequences that several components share |

How things are modelled:

- A user callback is an arbitrary finite script of public API calls, chosen anew for each invocation. The theorems
  hold for all scripts. `OnUnregistration`, `OnRegistration` and `OnModification` do not call back into the server.
- A fatal check or an `assert` of the library is a field `aborted`, and nothing runs after it is set. In the fd half, the
  connection, the server and its loops it is never set. In the alarms, where a user can trip the check for doubly
  registered alarms, a theorem says exactly when it is.
- Each concurrent part is a state machine whose steps are the critical sections, system calls and assignments of the
  source. A run is any sequence of enabled steps, and the theorems are about every run.
- The kernel is an oracle: what `epoll_wait` reports, how many bytes a write takes, what `readv` returns and where the
  network cuts a stream are inputs. A failed `epoll_ctl` is the case of a descriptor being present or absent.
- Nodes of the fd table are values in a map, as they are in the hash set of the source. A pointer to a node carries the
  stamp of its allocation, so that a pointer to an erased or replaced node is told apart from a live one.
- Event masks are sets of bit positions. Bytes are integers from 0 to 255, and machine integers are explicit residues.

Three behaviours that a reader of the headers might not expect are kept, each with a theorem that says exactly when it
occurs. A functor the loop thread queues outside a round gets no wake, so the first wait of a `Loop` returns early only
for what other threads did: `WakeComingIff` says when a wake is coming in any state, `FirstWaitIsWokenIff` what that means
before any wait has returned, `QueuedBeforeLoopIsNotWoken` is an example. A `Quit` is kept exactly when `Loop` is not
entered after it (`QuitIsKeptIff`, `QuitBeforeLoopIsLost`). The header of the server says that the skip set keeps a round
of alarms from going on for ever. It does so for alarms put back by their return value (`RoundFiresPutBackOnce`), but
callbacks that register each other's alarms keep a round going for any number of firings (`RoundHasNoBound`).
`FireLeaves` says exactly what one callback adds to a round, and `RoundFromStart` exactly when a round fires only what was
due when it began.

## Model

| member | source | states |
|---|---|---|
| FdTable.ApplyKeepsInv | raner/epoll_server.cc:189-410 | every public fd call, from anywhere, also inside a running OnEvent, keeps: lists disjoint and duplicate-free, every listed fd has a callback, a node without callback is the one in use, the kernel set equals the live nodes' masks plus ERR and HUP, no epoll_ctl fails |
| FdTable.RegisterKeepsInv | raner/epoll_server.cc:189-220 | registering, replacing, or reviving a node in use keeps the invariant: ADD is issued only for absent fds and MOD only for present ones |
| FdTable.UnregisterKeepsInv | raner/epoll_server.cc:262-294 | unregistering keeps the invariant; the node in use survives without callback and off both lists |
| FdTable.SetMaskKeepsInv | raner/epoll_server.cc:575-595 | changing a mask keeps the kernel mirror |
| FdTable.ScriptKeepsInv | raner/epoll_server.cc:694-701 | any sequence of calls made by a callback keeps the invariant, the running fd's node staying alive |
| FdTable.BeginKeepsInv | raner/epoll_server.cc:683-699 | taking the head off the pass list and pinning it keeps the invariant |
| FdTable.EndKeepsInv | raner/epoll_server.cc:701-711 | unpinning after OnEvent, with the erase, re-queue or leave cases, keeps the invariant |
| FdTable.DrainKeepsInv | raner/epoll_server.cc:674-715 | a whole pass keeps the invariant and empties the pass list |
| FdTable.RunKeepsInv | raner/epoll_server.cc:81-110 | from the constructor on, every run of API calls and polling rounds satisfies the invariant |
| FdTable.InitialEffect | raner/epoll_server.cc:81-110 | the server starts with the wake pipe alone, for reading, and nothing ready |
| FdTable.RegisterEffect | raner/epoll_server.cc:189-220 | afterwards the fd has the given callback and mask, no faked events, is on neither list, and the kernel watches exactly the mask with ERR and HUP; other fds are as before |
| FdTable.UnregisterEffect | raner/epoll_server.cc:262-294 | afterwards the fd is out of the kernel and off both lists, its node there only while it is in use; an fd without callback is left alone |
| FdTable.ModifyEffect | raner/epoll_server.cc:575-595 | a bit is in the kernel mask afterwards iff it was added, is ERR or HUP, or was there and not removed; callback, events, lists and other fds are as before |
| FdTable.ReadyEffect | raner/epoll_server.cc:308-397 | a kernel event or a faked one replaces what was recorded of its kind, and a registered fd on neither list goes to the head of the ready list |
| FdTable.NotReadyEffect | raner/epoll_server.cc:399-404 | withdrawing readiness takes the fd off both lists and changes nothing else |
| FdTable.BeginEffect | raner/epoll_server.cc:683-700 | the first of the pass list is taken off, its events are consumed and its node is in use; nothing else changes |
| FdTable.EndEffect | raner/epoll_server.cc:701-711 | after OnEvent a node without callback goes; one whose callback asked for events has them recorded and is on the ready list; another is left as it is |
| FdTable.DispatchSettles | raner/epoll_server.cc:683-711 | a callback that makes no call on its own fd leaves it with just the events it asked for, at the head of the ready list exactly if it asked for any |
| FdTable.ScriptOnTmp | raner/epoll_server.cc:674-715 | callbacks can only shrink the pass list: what is left is exactly what they did not take off |
| FdTable.PassRunsExpected | raner/epoll_server.cc:674-715 | the fds a pass runs, with their callbacks, are those of a reference that knows no server state: run the first, strike out what its callback removes, go on |
| FdTable.ExpectedFromList | raner/epoll_server.cc:674-683 | an fd that was not on the list at the swap is not run in the pass |
| FdTable.ExpectedNoDup | raner/epoll_server.cc:674-715 | no fd is run twice in a pass |
| FdTable.OmittedWasTakenOff | raner/epoll_server.cc:173-187 | an fd on the list at the swap is left out only if an earlier callback of the pass took it off |
| FdTable.RunWasNotTakenOff | raner/epoll_server.cc:173-187 | an fd that is run was taken off by none of the callbacks before it |
| FdTable.PassDeliversEvents | raner/epoll_server.cc:688-700 | each OnEvent of a pass is told the asserted and faked events recorded at the swap, unless a callback before it recorded others for that fd |
| FdTable.EventsAreFiled | raner/epoll_server.cc:308-323 | filing the results of epoll_wait puts every registered fd on the ready list with its reported events |
| FdTable.RoundDeliversKernelEvents | raner/epoll_server.cc:615-715 | in a polling round a callback that is run is told at least what the kernel reported for its fd, unless an earlier callback of the round recorded something else |
| FdTable.RoundRunsTheReported | raner/epoll_server.cc:615-715 | each registered fd the kernel reports is run in the round, unless a callback of the round takes it off |
| FdTable.RoundLeavesWhatWasAskedFor | raner/epoll_server.cc:615-715 | after a round the pass list is empty and an fd is ready only if a callback of the round asked for it, by its out mask or by a call |
| FdTable.HandOver | raner/tcp_client.cc:194-208 | a callback that unregisters and re-registers its own fd leaves it registered with the new callback and mask, off both lists |
| EpollServers.InsertHeadShape | raner/epoll_server.cc:166-171 | LIST_INSERT_HEAD gives well-formed lists with the node in front, correct back links, no dangling pointer |
| EpollServers.UnlinkShape | raner/epoll_server.cc:173-187 | LIST_REMOVE cuts exactly one node out of whichever list it is on and leaves both well formed |
| EpollServers.EraseShape | raner/epoll_server.cc:284-285 | erasing a node that is on no list leaves no pointer to it behind |
| EpollServers.SwapShape | raner/epoll_server.cc:679-681 | swapping the heads turns the ready list into the pass list, back link of the first node included |
| EpollServers.EpollServer.constructor | raner/epoll_server.cc:81-110 | starts with the wake pipe registered for reading |
| EpollServers.EpollServer.AddToReadyList | raner/epoll_server.cc:166-171 | the pointer manipulation computes the list function; the counter stays the sum of both lengths |
| EpollServers.EpollServer.RemoveFromReadyList | raner/epoll_server.cc:173-187 | the same for removal, from either list; nodes and their data are untouched |
| EpollServers.EpollServer.AddFD | raner/epoll_server.cc:538-552 | adds to the kernel set or dies if present |
| EpollServers.EpollServer.ModFD | raner/epoll_server.cc:556-571 | changes the kernel mask or dies if absent |
| EpollServers.EpollServer.DelFD | raner/epoll_server.cc:522-534 | removes from the kernel set or dies if absent |
| EpollServers.EpollServer.RegisterFD | raner/epoll_server.cc:189-220 | computes the table function on linked nodes and moves no node that is in use |
| EpollServers.EpollServer.UnregisterFD | raner/epoll_server.cc:262-294 | the same; it erases only a node that is unlinked and not in use |
| EpollServers.EpollServer.ModifyFD | raner/epoll_server.cc:575-595 | the same for mask changes |
| EpollServers.EpollServer.HandleEvent | raner/epoll_server.cc:308-323 | the same for filing a kernel event |
| EpollServers.EpollServer.SetFDReady | raner/epoll_server.cc:378-397 | the same for faking readiness |
| EpollServers.EpollServer.SetFDNotReady | raner/epoll_server.cc:399-404 | the same for withdrawing readiness |
| EpollServers.EpollServer.IsFDReady | raner/epoll_server.cc:406-410 | true exactly for a registered fd on one of the lists |
| EpollServers.EpollServer.VerifyReadyList | raner/epoll_server.cc:412-422 | walking both lists always counts ready_list_size_ nodes: the check cannot fail |
| EpollServers.EpollServer.RunScript | raner/epoll_server.cc:694-701 | a callback's calls compute the script function, and nodes in use keep their address |
| EpollServers.EpollServer.CallReadyListCallbacks | raner/epoll_server.cc:674-715 | the loop over linked nodes terminates whatever the callbacks do, computes the pass function and produces its trace |
| EpollServers.EpollServer.Begin | raner/epoll_server.cc:683-699 | takes one node off and pins it; the events handed out are the asserted and faked ones |
| EpollServers.EpollServer.End | raner/epoll_server.cc:701-711 | the pointer kept across OnEvent is still live; the node is unpinned and erased, re-queued or left |
| EpollServers.EpollServer.HandOver | raner/tcp_client.cc:194-208 | the hand-over keeps the very node the dispatch loop holds a pointer to, with its allocation stamp, now with the new callback |
| EpollServers.EpollServer.WaitForEventsAndCallHandleEvents | raner/epoll_server.cc:615-672 | one polling round computes the round function, calls OnEvent as its trace says and keeps the invariant |
| EpollServers.EpollServer.RunActions | raner/epoll_server.cc:81-715 | every run of API calls and rounds on the linked nodes is a run of the functions, and the ready-list check passes after each action |
| Alarms.InsertOk | raner/epoll_server.cc:438-439 | insertion keeps time order with ties in insertion order |
| Alarms.RegisterKeepsInv | raner/epoll_server.cc:431-444 | registering keeps the duplicate set, the tokens and the map in one-to-one agreement |
| Alarms.UnregisterKeepsInv | raner/epoll_server.cc:448-453 | unregistering through a token does too, and never hits the entry being fired |
| Alarms.FireKeepsInv | raner/epoll_server.cc:717-761 | a firing with any callback that does not trip the fatal check leaves the agreement, the fired entry gone |
| Alarms.FireAbortsIff | raner/epoll_server.cc:431-435 | a firing trips the duplicate check exactly when a call registers an alarm in the set by then, or the return value does after the callback registered its own alarm |
| Alarms.FireOnRest | raner/epoll_server.cc:739-757 | after a firing the saved iterator is valid and sees exactly what the reference has left to fire, new registrations included |
| Alarms.RoundIsReference | raner/epoll_server.cc:717-761 | whatever the callbacks do, a round fires exactly what a reference without map, iterators and tokens fires, dies exactly where it does, and otherwise clears the skip set |
| Alarms.RoundInOrder | raner/epoll_server.cc:717-761 | whatever the callbacks do, firings are in time order with ties in insertion order, and none is early |
| Alarms.FireLeaves | raner/epoll_server.cc:717-761 | exactly what one callback adds to the round: what it registers at a time from the fired entry's to now, of alarms not put back in this round, and does not take back itself |
| Alarms.OnlyOldIff | raner/epoll_server.cc:717-761 | nothing registered during a round fires exactly when all that each firing leaves is taken off by a later one before its turn, or the process dies first |
| Alarms.RoundFromStart | raner/epoll_server.cc:717-761 | a round fires the list of what was due when it began, up to and including the first firing that trips the duplicate check if one does, exactly under that condition, which speaks of the scripts, that list and the duplicate set only |
| Alarms.RoundFiresPutBackOnce | raner/epoll_server.cc:748-757 | whatever the callbacks do, an alarm that returns a time at or before now is not fired again in the round |
| Alarms.FireTimes | raner/epoll_server.cc:717-761 | on a plain map from alarms to times a firing is: drop the alarm, make its calls, and if it returns a positive time put it there; a firing that lives does exactly that |
| Alarms.TimesAreQueued | raner/epoll_server.cc:431-453 | each registered alarm is queued once, at its time, and nothing else is |
| Alarms.RoundReschedules | raner/epoll_server.cc:717-761 | after a round that lives the alarms and their times are those of the plain map after the fired callbacks, in order |
| Alarms.ExpectedOrdered | raner/epoll_server.cc:717-761 | firings are in time order, ties in insertion order, each entry at most once |
| Alarms.OmittedWasUnregistered | raner/epoll_server.cc:717-761 | a due alarm fails to fire only if a callback that did fire unregistered it |
| Alarms.FiredWasNotUnregistered | raner/epoll_server.cc:717-761 | an alarm that fires was unregistered by none of the callbacks before it |
| Alarms.RoundHasNoBound | raner/epoll_server.cc:717-761 | without that condition there is no bound: for every n, two callbacks that register each other at now make a round with one due alarm fire n + 1 times |
| Alarms.WaitMeetsFirstAlarm | raner/epoll_server.cc:359-366 | the computed wait overshoots the first alarm exactly when it is less than a millisecond away and something may be waited for |
| Alarms.WaitIsTheShorter | raner/epoll_server.cc:359-634 | the wait is the time left to the first alarm or a shorter timeout, in whole milliseconds, at least one if not zero; none if something is ready; for ever only without alarms and timeout |
| AlarmServers.AlarmServer.constructor | raner/epoll_server.cc:81-110 | starts with no alarms |
| AlarmServers.AlarmServer.RegisterAlarm | raner/epoll_server.cc:431-444 | computes the registration function; a registered alarm dies on the duplicate check |
| AlarmServers.AlarmServer.UnregisterAlarm | raner/epoll_server.cc:448-453 | through a valid iterator, removes exactly that alarm's registration |
| AlarmServers.AlarmServer.UnregisterIfRegistered | raner/epoll_server.cc:788-794 | the token an alarm keeps is a valid iterator whenever it is used |
| AlarmServers.AlarmServer.FireEntry | raner/epoll_server.cc:738-757 | runs one callback, advances the iterator, erases, puts back |
| AlarmServers.AlarmServer.CallAndReregisterAlarmEvents | raner/epoll_server.cc:717-761 | the loop over live iterators computes the round for any finite sequence of callbacks, stopping at the fatal check |
| Timers.TimerOpOk | raner/epoll_timer.cc:25-54 | Set, Cancel and Update keep: set iff registered, with one entry keyed by the deadline; none trips the duplicate check; each is a fixed list of alarm calls |
| Timers.CallsSetDeadlines | raner/epoll_timer.cc:25-54 | after any calls each timer has the deadline the last call on it asked for, zero if that was a cancel |
| Timers.FiringUnsets | raner/epoll_timer.cc:58-65 | a firing leaves its timer unset unless the callback sets it again, and the others as its calls leave them |
| Timers.SetAbortsIffSet | raner/epoll_timer.cc:25-30 | Set dies on the duplicate check exactly when the timer is set |
| Timers.RearmKeepsOk | raner/epoll_timer.cc:67-77 | updating a set timer is a cancel and a set, without a gap in the agreement |
| Timers.CallbackStartsOk | raner/epoll_timer.cc:58-65 | a fired entry's timer is set, to the entry's time; its callback starts unset and unregistered |
| Timers.FireTimerOk | raner/epoll_timer.cc:11-16 | firing keeps the agreement whatever the callback does to its own or other timers, and is one firing of the compiled script |
| Timers.RunKeepsTimersOk | raner/epoll_timer.cc:11-88 | in every run, set timers are exactly the registered alarms, and no callback runs unless its timer was set and neither cancelled nor run since |
| Timers.TimerRound | raner/epoll_timer.cc:11-16 | a round over timers never dies, keeps the agreement, and runs the callbacks of exactly the entries it fires, in that order |
| Timers.TimerRoundFromStart | raner/epoll_timer.cc:11-88 | when no callback leaves a timer set to a time that is due and ahead, unless a later one takes it off in time, a round runs exactly the timers due at its start that no callback took off |
| Timers.RunTimersWereDue | raner/epoll_timer.cc:58-65 | they come in deadline order, each at most once, each set to a time that has come |
| Timers.DueTimerRuns | raner/epoll_timer.cc:32-65 | a timer whose time has come runs in the round unless a callback of it cancels or updates the timer |
| Timers.RunTimerWasNotCancelled | raner/epoll_timer.cc:32-65 | a timer that runs was cancelled or updated by none of the callbacks before it |
| AlarmServers.EpollTimer.constructor | raner/epoll_timer.cc:18-21 | a new timer is not set, also when it is made inside a callback |
| AlarmServers.EpollTimer.Set | raner/epoll_timer.cc:25-30 | sets and registers, outside or inside a firing |
| AlarmServers.EpollTimer.Cancel | raner/epoll_timer.cc:32-39 | unsets and unregisters; does nothing to an unset timer |
| AlarmServers.EpollTimer.Update | raner/epoll_timer.cc:41-54 | ends with the given deadline, registered under it, or cancelled when it is the zero time |
| AlarmServers.EpollTimer.SetImpl | raner/epoll_timer.cc:79-83 | registers under the current deadline |
| AlarmServers.EpollTimer.CancelImpl | raner/epoll_timer.cc:85-88 | unregisters if registered |
| AlarmServers.EpollTimer.UpdateImpl | raner/epoll_timer.cc:67-77 | re-registers under the new deadline, restoring the field it saved |
| AlarmServers.EpollTimer.Fire | raner/epoll_timer.cc:58-65 | runs the callback iff the timer is set; its calls, on any timers, leave deadlines and alarms as the timer functions say |
| AlarmServers.Call | raner/epoll_timer.cc:25-54 | one call on one of several timers of a server changes that timer's deadline and registration only, as the timer function says |
| EventLoops.StepKeepsHistory | raner/event_loop.cc:96-131 | every step of every thread keeps: ran, then taken, then queued is all that was pushed |
| EventLoops.StepKeepsWake | raner/event_loop.cc:61-105 | every step keeps the wake-up invariant |
| EventLoops.RunKeepsInv | raner/event_loop.cc:61-131 | both hold in every reachable state |
| EventLoops.NoLostWakeup | raner/event_loop.cc:96-105 | in every wait after the first round of a Loop a queued functor, and in every wait a quit, has a byte in the pipe or a thread about to write one, for any number of producers |
| EventLoops.WakeComingIff | raner/event_loop.cc:96-105 | in every run, and so in the first wait of every Loop, a wake is coming exactly when a byte was written since the last drain of the pipe or a thread has called and not woken the loop yet |
| EventLoops.FirstWaitIsWokenIff | raner/event_loop.cc:96-105 | before any wait has returned, that is exactly when another thread has queued a functor or called Quit |
| EventLoops.QuitIsKeptIff | raner/event_loop.cc:61-86 | the quit flag is set exactly when someone has called Quit and Loop was not entered after it, however often Loop is entered |
| EventLoops.QueuedBeforeLoopIsNotWoken | raner/event_loop.cc:96-105 | so a functor that only the loop thread has queued before Loop gets no wake |
| EventLoops.QuitBeforeLoopIsLost | raner/event_loop.cc:61-86 | so a quit before Loop is forgotten, whoever made it |
| EventLoops.RunsInEnqueueOrder | raner/event_loop.cc:96-131 | ran, then taken, then queued are all functors that the steps queued, of every thread and in order; with n run steps, the first n of them have run |
| EventLoops.RoundRunsItsBatch | raner/event_loop.cc:118-131 | when a round ends, all that was queued before its swap has run, and nothing queued since |
| EventLoops.RoundHasWhatWasQueued | raner/event_loop.cc:118-131 | during a round, what has run and what is left of the batch is all that was queued before its swap |
| EventLoops.DrainComesToItsEnd | raner/epoll_server.cc:60-70 | each read of the wake pipe takes four bytes, or all if there are fewer, and at least one |
| EventLoops.RoundOnlyShrinks | raner/event_loop.cc:118-131 | no step of any thread adds to a round in progress |
| EventLoops.EventLoop.QueueInLoop | raner/event_loop.cc:96-105 | appends; wakes from another thread or during a round |
| EventLoops.EventLoop.DoPendingFunctors | raner/event_loop.cc:118-131 | runs the batch in order; what is queued meanwhile is left for the next round with a wake each |
| Connections.SendOk | raner/tcp_connection.cc:105-149 | a send keeps kernel bytes plus buffer equal to what was sent, and write interest iff the buffer is not empty |
| Connections.HandleWriteOk | raner/tcp_connection.cc:289-317 | so does an output event; when it empties the buffer of a disconnecting connection, the write half is shut down |
| Connections.StepKeepsInv | raner/tcp_connection.cc:69-333 | every action keeps the invariant of stream, states and shutdown |
| Connections.RunKeepsInv | raner/tcp_connection.cc:69-333 | it holds in every run, about exactly the messages sent in the connected state |
| Connections.StatesInOrder | raner/tcp_connection.cc:248-333 | in every run the assertion of handleClose holds, up is reported at most once, then down at most once, then at most one close |
| Connections.ByteStream | raner/tcp_connection.cc:101-149 | in every run kernel bytes are a prefix of the messages sent while connected, all of it together with the buffer while no write has failed; write interest iff the buffer is not empty |
| Connections.OpenUnlessWriteFails | raner/socket.cc:317-325 | the socket stays open as long as the kernel fails no write |
| Connections.GracefulShutdown | raner/tcp_connection.cc:151-166 | the write half is shut down at most once and only with every byte sent written; after a Shutdown on a connected connection, exactly when everything is written, unless a write fails |
| Connections.CompleteMeansWritten | raner/tcp_connection.cc:118-124 | a write-complete callback is queued only when every byte sent is written |
| Connections.OutputEvent | raner/tcp_connection.cc:289-317 | in every run an output event moves from the buffer to the kernel as many bytes as it takes; exactly when that empties a buffer, interest in writing ends, one write-complete is queued, and a disconnecting connection shuts its write half |
| Connections.FailedOutputEvent | raner/tcp_connection.cc:289-317 | a failed write of a non-empty buffer closes the socket and changes nothing else |
| Connections.SendWrites | raner/tcp_connection.cc:105-149 | with an empty buffer a send hands the kernel as many bytes as it takes, buffers the rest with write interest on, and queues one write-complete exactly if all went; otherwise it appends to the buffer |
| Connections.SendFails | raner/tcp_connection.cc:125-149 | a failed direct write closes the socket; the message is buffered unless the peer is known to be gone |
| Connections.SendAfterFailure | raner/tcp_connection.cc:105-149 | once the socket is closed a send only buffers |
| Connections.SendIgnored | raner/tcp_connection.cc:69-82 | a send outside the connected state does nothing |
| Connections.EndOfInputCloses | raner/tcp_connection.cc:274-333 | the end of the input closes a live connection: unregistered, one down report, one close callback, nothing written after it |
| Connections.InputChangesNothing | raner/tcp_connection.cc:274-287 | other input, also a read error, leaves the connection as it is |
| Connections.EstablishConnects | raner/tcp_connection.cc:239-246 | establishing reports up and registers for reading only |
| Connections.ShutdownTakesEffect | raner/tcp_connection.cc:151-166 | a Shutdown stops sending, and shuts the write half at once exactly if nothing is left to write |
| Connections.ForceCloseCloses | raner/tcp_connection.cc:168-196 | a forced close is queued, and when it runs closes a connection that is still live |
| Connections.LateForceCloseDoesNothing | raner/tcp_connection.cc:190-196 | one that comes after another close does nothing |
| Connections.DestroyReportsDown | raner/tcp_connection.cc:248-256 | destroying a connected connection reports it down once, without a close callback; any other is left alone |
| Connections.NothingAfterShutdown | raner/tcp_connection.cc:151-166 | nothing is accepted or written once the write half is shut down |
| TcpConnections.TCPConnection.constructor | raner/tcp_connection.cc:31-42 | starts connecting, nothing written |
| TcpConnections.TCPConnection.Write | raner/socket.cc:317-325 | a negative result closes the socket; otherwise a prefix goes to the kernel |
| TcpConnections.TCPConnection.Send | raner/tcp_connection.cc:69-82 | computes the action: only a connected connection accepts |
| TcpConnections.TCPConnection.SendInLoop | raner/tcp_connection.cc:105-149 | computes the send function in every state |
| TcpConnections.TCPConnection.Shutdown | raner/tcp_connection.cc:151-158 | computes the action |
| TcpConnections.TCPConnection.ShutdownInLoop | raner/tcp_connection.cc:160-166 | shuts down only with no write interest on an open socket |
| TcpConnections.TCPConnection.ForceClose | raner/tcp_connection.cc:168-175 | computes the action: a close is queued for a live connection |
| TcpConnections.TCPConnection.ForceCloseInLoop | raner/tcp_connection.cc:190-196 | runs a queued close: closes a live connection, does nothing to a closed one |
| TcpConnections.TCPConnection.ConnectEstablished | raner/tcp_connection.cc:239-246 | computes the establishment, or fails its assertion |
| TcpConnections.TCPConnection.ConnectDestroyed | raner/tcp_connection.cc:248-256 | acts only on a connected connection |
| TcpConnections.TCPConnection.OnEvent | raner/tcp_connection.cc:258-272 | reading first, then writing, whatever reading did |
| TcpConnections.TCPConnection.HandleRead | raner/tcp_connection.cc:274-287 | closes on end of file |
| TcpConnections.TCPConnection.HandleWrite | raner/tcp_connection.cc:289-317 | computes the output function |
| TcpConnections.TCPConnection.HandleClose | raner/tcp_connection.cc:319-333 | one down report and one close callback, or a failed assertion |
| TcpConnections.TCPConnection.RunActions | raner/tcp_connection.cc:69-333 | every run of the object is the run of the functions, with its byte-stream and shutdown guarantees |
| Lifecycle.AcceptKeepsInv | raner/tcp_server.cc:112-132 | a new connection starts its life, on either kind of loop |
| Lifecycle.CloseKeepsInv | raner/tcp_connection.cc:319-333 | closing moves a life on and queues its removal once |
| Lifecycle.EstablishKeepsInv | raner/tcp_connection.cc:239-246 | the queued establishment finds the connection connecting |
| Lifecycle.RemoveKeepsInv | raner/tcp_server.cc:139-148 | the queued removal keeps the invariant |
| Lifecycle.RemovalFindsItsEntry | raner/tcp_server.cc:139-148 | a queued removal takes exactly one entry out of the table, its assertion holds, and exactly one destruction is then queued |
| Lifecycle.DestroyKeepsInv | raner/tcp_connection.cc:248-256 | the queued destruction ends the life |
| Lifecycle.ForceTaskKeepsInv | raner/tcp_connection.cc:190-196 | a force-close queued before another close does no second close |
| Lifecycle.UserKeepsInv | raner/tcp_connection.cc:151-175 | Shutdown and ForceClose from any thread at any time keep the invariant |
| Lifecycle.RunKeepsInv | raner/tcp_server.cc:112-148 | the invariant holds in every interleaving of the loops |
| Lifecycle.LifecycleIsOrderly | raner/tcp_server.cc:112-148 | in every interleaving each connection's history is a beginning of inserted, established, up, down, closed, erased, destroyed; it is registered exactly between up and down and then listed; no assertion fails |
| Lifecycle.NoConnectionLeaks | raner/tcp_server.cc:112-148 | when no loop has a task queued, each connection is either registered or has had its whole life |
| Lifecycle.ConnectionsStayOnTheirLoop | raner/tcp_server.cc:112-132 | in every run the n-th accepted connection is number n and is on the loop it was accepted for, for ever |
| Lifecycle.StepPosts | raner/event_loop.cc:96-131 | every step leaves each loop's queue as it was, less the first task if the loop ran it, with what the step posts there behind it: establishment, forced close, removal or destruction |
| Lifecycle.TasksRunInOrder | raner/event_loop.cc:96-131 | in every interleaving what a loop has run, followed by what it has queued, is what was posted to it, in order |
| Projection.EachConnectionIsARun | raner/tcp_connection.cc:151-333 | in every interleaving of the loops each connection is where its own sequence of actions leaves a connection by itself: same state, registration and callbacks |
| TcpServers.TCPServer.constructor | raner/tcp_server.cc:20-34 | starts with an empty table |
| TcpServers.TCPServer.NewConnection | raner/tcp_server.cc:112-132 | adds a connection under a name not in the table |
| TcpServers.TCPServer.RunTask | raner/tcp_server.cc:134-148 | a loop's next task does to the object what the step does; a removal erases exactly its own entry and no assertion fails |
| TcpServers.TCPServer.Run | raner/tcp_server.cc:112-148 | every interleaving on the object: each connection's history is a beginning of one life, and no assertion fails |
| Endian.BswapInvolutive | raner/endian.h:25-33 | swapping reverses the bytes in memory and undoes itself, for every width |
| Endian.StoredBigEndian | raner/endian.h:87-98 | a converted integer is stored most significant byte first on either kind of host |
| Endian.LoadedBigEndian | raner/endian.h:106-108 | and is read back as the integer those bytes denote |
| Endian.MostSignificantFirst | raner/endian.h:87-108 | of the bytes on the wire the first counts most: it is multiplied by the number of values of all that follow |
| Endian.WireForm | raner/byte_buffer.h:107-122 | what is written is big-endian two's complement |
| Endian.RoundTrip | raner/byte_buffer.h:107-173 | any host reads what any host wrote: the signed low bytes of the value, the value itself when in range |
| Endian.MixedRoundTrip | raner/byte_buffer.h:107-173 | any mixed sequence of integers comes back, each narrowed to its width |
| ByteBuffers.ByteBuffer.constructor | raner/byte_buffer.h:32-37 | empty, of the given capacity |
| ByteBuffers.ByteBuffer.Swap | raner/byte_buffer.h:39-43 | exchanges contents |
| ByteBuffers.ByteBuffer.SkipAll | raner/byte_buffer.h:188 | empties |
| ByteBuffers.ByteBuffer.SkipReadBytes | raner/byte_buffer.h:75-81 | drops exactly that many bytes from the front |
| ByteBuffers.ByteBuffer.SkipAsString | raner/byte_buffer.h:85-90 | splits the contents into what is returned and what is left |
| ByteBuffers.ByteBuffer.SkipWriteBytes | raner/byte_buffer.h:92-95 | makes what was put behind the contents part of them |
| ByteBuffers.ByteBuffer.Compact | raner/byte_buffer.h:212-218 | the overlapping forward copy preserves the contents |
| ByteBuffers.ByteBuffer.ExpandCapacity | raner/byte_buffer.h:208-219 | compacts iff that makes room, grows to the write index plus the length otherwise; contents unchanged |
| ByteBuffers.ByteBuffer.EnsureWritableBytes | raner/byte_buffer.h:197-200 | room is made, contents unchanged |
| ByteBuffers.ByteBuffer.Write | raner/byte_buffer.h:97-101 | appends |
| ByteBuffers.ByteBuffer.Shrink | raner/byte_buffer.h:190-195 | contents unchanged, capacity the larger of 1024 and their length |
| ByteBuffers.ByteBuffer.ReadFD | raner/byte_buffer.cc:11-33 | appends exactly the bytes read in order, at most 131071 with the spill buffer; on error nothing changes |
| ByteBuffers.ByteBuffer.WriteInt | raner/byte_buffer.h:107-122 | appends the big-endian two's complement form |
| ByteBuffers.ByteBuffer.PeekInt | raner/byte_buffer.h:148-173 | the signed integer the front bytes denote |
| ByteBuffers.ByteBuffer.ReadInt | raner/byte_buffer.h:124-146 | the same, and drops them |
| ByteBuffers.ByteBuffer.FindCRLF | raner/byte_buffer.h:53-62 | the first occurrence at or after the start, or none exists |
| ByteBuffers.ByteBuffer.FindEOL | raner/byte_buffer.h:64-73 | the first line feed at or after the start, or none exists |
| ByteBuffers.ByteBuffer.Run | raner/byte_buffer.h:75-219 | through every run of operations the contents are those of a plain queue |
| ByteBuffers.FirstInFirstOut | raner/byte_buffer.h:75-101 | what such a run consumed followed by what is left is what was there followed by what was appended |
| Codec.DecodeContinues | examples/chat/codec.h:20-39 | decoding more bytes continues from what was left, for all bytes |
| Codec.FrameBytes | examples/chat/codec.h:42-48 | a frame is the length in four bytes, most significant first, then the message |
| Codec.ChunkingIrrelevant | examples/chat/codec.h:20-39 | deliveries, leftover and error do not depend on how the stream is cut |
| Codec.RoundTrip | examples/chat/codec.h:20-48 | a list of messages comes back exactly, nothing left over, under any chunking, if and only if none is longer than 65536 |
| Codec.CompleteFramesSoFar | examples/chat/codec.h:20-39 | after any chunks precisely the complete frames so far are delivered, the rest is kept |
| Codec.Blocked | examples/chat/codec.h:27-30 | with an over-long header in front nothing is ever delivered again |
| Codec.OverlongBlocks | examples/chat/codec.h:27-30 | the messages before the first over-long one are delivered, and none after |
| Codec.OnMessage | examples/chat/codec.h:20-39 | the loop over the byte buffer computes the decoding function |
| Codec.Send | examples/chat/codec.h:42-48 | the buffer built is the frame of the message |
| Ttcp.OneAck | examples/ttcp/ttcp.cc:62-80 | an acknowledgement sends the next payload, or shuts down after the last |
| Ttcp.WireFormat | examples/ttcp/ttcp.cc:33-53 | a session is the number of payloads, then their length, each in four bytes, most significant first; a payload is its length and then the sixteen digits over and over |
| Ttcp.OnePayload | examples/ttcp/ttcp.cc:129-146 | an incomplete payload waits; a complete one is counted and acknowledged |
| Ttcp.SessionFirst | examples/ttcp/ttcp.cc:120-128 | the session message is taken only whole, and gives number and length |
| Ttcp.SenderStep | examples/ttcp/ttcp.cc:62-80 | any delivery to the transmitter keeps the two-party invariant |
| Ttcp.ReceiverStep | examples/ttcp/ttcp.cc:116-154 | any delivery to the receiver keeps it |
| Ttcp.RunKeepsInv | examples/ttcp/ttcp.cc:33-154 | it holds in every run under any chunking |
| Ttcp.StopAndWait | examples/ttcp/ttcp.cc:33-154 | payloads sent plus unprocessed acknowledgements equal payloads received plus one until the final one; bytes are count times length; a side closes only with both counts at the number |
| Ttcp.NoRunGetsStuck | examples/ttcp/ttcp.cc:33-154 | until both sides have closed, some step is enabled, whatever the chunking so far |
| Ttcp.RunsAreFinite | examples/ttcp/ttcp.cc:33-154 | a run has at most one step per byte to deliver and one per close, so every run that goes on completes |
| TtcpEnds.Transmitter.constructor | examples/ttcp/ttcp.cc:33-43 | one payload counted on connection |
| TtcpEnds.Transmitter.OnMessage | examples/ttcp/ttcp.cc:62-80 | the loop over the buffer computes the transmitter function |
| TtcpEnds.BuildOutput | examples/ttcp/ttcp.cc:41-46 | the payload is built in place behind its length |
| TtcpEnds.ReceivingEnd.constructor | examples/ttcp/ttcp.cc:105-108 | nothing counted, no session |
| TtcpEnds.ReceivingEnd.OnMessage | examples/ttcp/ttcp.cc:116-154 | the loop over the buffer terminates for every session message, also malformed ones, and computes the receiver function |
| ChatServer.CopyTable | examples/chat/server_threaded_efficient.cc:36-38 | copying a shared set keeps every use count exact while other threads may drop theirs |
| ChatServer.ResetTable | examples/chat/server_threaded_efficient.cc:36-39 | putting the copy in place frees the old set exactly when no broadcast holds it any more, and leaves the server's pointer the only one |
| ChatServer.MutateTable | examples/chat/server_threaded_efficient.cc:41-45 | the change is made to the server's own set, use counts exact |
| ChatServer.MembersAreUp | examples/chat/server_threaded_efficient.cc:41-45 | after any changes a connection is a member iff its last change was that it came up |
| ChatServer.UnsharedHasNoHolders | examples/chat/server_threaded_efficient.cc:39-45 | nobody iterates over the set that is about to change |
| ChatServer.SnapshotStep | examples/chat/server_threaded_efficient.cc:59-62 | taking a pointer under the lock records the members at that moment |
| ChatServer.FinishStep | examples/chat/server_threaded_efficient.cc:51-57 | a broadcast finishes having sent to every member of its set |
| ChatServer.FinishKeeps | examples/chat/server_threaded_efficient.cc:51-57 | dropping a pointer frees a set only when it was the last |
| ChatServer.ChangeIsNeverStuck | examples/chat/server_threaded_efficient.cc:31-46 | no step of a change finds its set freed, and the uniqueness assertion holds |
| ChatServer.RunKeepsInv | examples/chat/server_threaded_efficient.cc:31-62 | the invariant holds in every interleaving of changes and broadcasts |
| ChatServer.IteratedSetIsNeverMutated | examples/chat/server_threaded_efficient.cc:31-62 | no step of any thread changes or frees a set while a broadcast iterates over it |
| ChatServer.BroadcastReachesItsSnapshot | examples/chat/server_threaded_efficient.cc:51-57 | a finished broadcast went, once each, to exactly the connections whose last change before its snapshot was that they came up |
| ChatServer.ChangesTakeEffect | examples/chat/server_threaded_efficient.cc:31-46 | in every interleaving the changes made, and the one that holds the lock, are those that took the lock, in order |
| ChatServer.SnapshotSees | examples/chat/server_threaded_efficient.cc:59-62 | a snapshot sees exactly the changes that took the lock before it |
| ChatServer.BroadcastReachesWhoWasUp | examples/chat/server_threaded_efficient.cc:31-62 | in terms of the steps alone: a broadcast is sent, once each, only to connections that were up at its snapshot, and to all of them once it has finished |

## Left out

- Destructors of EpollServer and TCPServer: shutdown erases nodes without unlinking them and ConnectDestroyed ignores a disconnecting connection, so the run invariants do not extend there.
- Socket system calls, name resolution, addresses and TCP info: only a write and a vectored read are modelled, as oracles.
- TCPClient beyond the hand-over of its descriptor: the reconnect and backoff logic.
- Freshness of event masks: asserted events survive SetFDNotReady and a replacing registration, so nothing is claimed about stale bits a dispatch may carry in addition to what was reported.
- FdTable.Apply: callbacks of registration, modification and unregistration are taken not to call back into the server.
- EpollServers.EpollServer: nodes are values in a map with stamped pointers rather than heap objects; the order of writes inside one list macro is kept, aliasing with other objects is not.
- Alarms.State: the multimap is an ordered sequence whose entries carry identities for iterators; the red-black tree is not modelled. The `registered_` and `token_` fields of all alarms sit in one map of the server.
- AlarmServers.EpollTimer.Fire: callbacks keep the demand of Set that the timer is not set; what a Set of a set timer leads to is stated by Timers.SetAbortsIffSet.
- Connections.Action: each check and change of the state is one step, calls come from the loop thread, a failed write is final; the high-water-mark callback, StartRead, StopRead and the delayed force-close are not modelled.
- Lifecycle.Step: each check and change of the state is one step; connection names are their numbers and are never truncated; sockets do not fail.
- EventLoops.Step: the wake pipe has no capacity limit, and the threads that queue functors are not given a program of their own.
- AlarmServers.AlarmServer.CallAndReregisterAlarmEvents: callbacks beyond a finite sequence do nothing, so a round without end is stated as one without bound, by Alarms.RoundHasNoBound.
- Codec.OnMessage: the message callback does not touch the buffer it is called from.
- Ttcp.StopAndWait: number at least one, length not negative, length plus four within 32 bits; the program's other inputs are covered by the functions of the two ends only.
- Time formatting and conversion, logging, event tracing, flags, build files, thread start-up, the thread pool's round robin and the example mains: input and output or easy members.
- The byte-swap fallbacks for compilers without intrinsics: they refer to a variable that is not declared and cannot be built.
