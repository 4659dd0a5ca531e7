# Cinema seat reservation: verified model

This project models a client/server seat reservation system built on POSIX message queues and proves
properties of the model with the Dafny verifier. `dafny verify dfyconfig.toml` checks all of it.

## What is modelled

**The concurrent server.** `Workers` splits `process_request` into micro-steps: one lock operation, one seat
field access or one local stretch per step. Any number of workers interleave over one seat table,
`reservation_mutex_` and `g_log_mutex`. Synchronization and the delay can be on or off, and the methods of
`Seat` are either single steps (`atomicSeat`) or split into their field accesses. The number of workers, the
seat ids and the requests are arbitrary, and a schedule (`Runs`) is any sequence of possible actions.
`Server` puts the worker loop, the bounded request queue with priorities, lock-step clients with one reply
queue each, the `running_` flag, the quit-log mutex and `stop()` around the workers. A worker's receive and its
reply may fail at any step. `Coupling` shows that a run of the whole system is a run of its workers.

**The reference.** `Messages.Apply` says what one request does alone: the new table and the response.
`Processor.RequestProcessor` and `Seats.ReservationTable` are the mutable objects, proved to do what `Apply`
says; the interleaved workers are proved to do what some sequence of `Apply` does.

**Queue handles.** `Kernel` is the kernel's side: the queues with their sizes, the open descriptors, and a plan that
says of every call to come whether it works, is interrupted or fails. Statements hold for every finite plan.
`QueueHandle` is the movable handle, `Handles` a process with any number of handles under any sequence of
operations, `Connections` the client's use of two of them.

**Text.** `Buffers`, `QueueNames`, `Commands`, `Sanitizer` and `Parser` are the fixed buffers, queue names, command
names, input sanitizer and command line parser. Characters are those of the C locale.

**Client.** `SeatMap` is what a client shows of a seat. `Fetching` is `fetch_seat_map` as one client's requests inside a
run of the whole `Server` system, while workers, other clients and `stop()` go on in any interleaving.

## What came out

- With synchronization every run is linearizable in the order in which requests leave the mutex; this order
  respects real time, and with one worker it is the order in which the clients sent.
- CONFLICT is reached with the mutex on, exactly when a client with id 0 asks for a free seat: `Seat::reserve`
  refuses id 0 although the check found the seat free (src/core/seat.cpp:10).
- A failed RESERVE or CANCEL reports status Available and owner 0 whatever the seat's state is, and a LIST
  response carries no seats.
- `stop()` is sure to finish if and only if at least one worker was requested and clients plus requested workers do
  not exceed the queue's capacity. If the capacity is exceeded, a run is constructed in which it is stuck for ever:
  busy workers leave the loop without receiving and nobody drains the full queue. If no worker was requested, the
  pool still has one (src/server/worker_pool.cpp:14), which gets no sentinel: it sleeps in `mq_receive`, and `stop()`
  waits until a client sends a request or the receive fails.
- Besides move assignment and destruction, `open_or_create` can also leak a descriptor: it ignores the result of
  the `mq_close` it makes when an existing queue has other sizes (src/ipc/posix_message_queue.cpp:90). So it is not
  true that descriptors and handles match one to one unless `mq_close` fails in a move assignment or a destruction:
  `LeakInOpenOrCreate` is a run to the contrary. They match exactly unless `mq_close` fails in a create, a move
  assignment or a destruction, and a create can leak exactly when a queue of that name exists already.
- After a failed close, the old reply handle of a client still owns its name, and the close inside the move
  assignment in `connect` may remove the reply queue that was just created under that name
  (src/client/client.cpp:37). Success of `connect` implies that the reply queue exists, whatever fails, exactly for
  clients that owned no reply queue before the call; `ConnectWithoutReplyQueue` gives the run for all others, with any
  existing server queue.
- A command line whose two words are separated by carriage returns only is not understood as that command, because
  sanitizing joins the words: "C" and "LS" then clear the screen. Every other separator works.

## Assumptions

Memory is sequentially consistent. The mode without synchronization is a data race in C++, so statements about
it hold for this model of memory, not for what a C++ compiler may do. Clients have distinct nonzero ids, are
connected, and their sends and receives succeed, as do the sends of `stop()`: a send waits for room but does not
fail. Nobody outside unlinks a queue that a handle owns.

## Model

| member | source | states |
|---|---|---|
| Theorems.Linearizable | src/server/request_processor.cpp:46-261 | with the mutex, for any workers, requests and interleaving, the history is a sequential execution of `Apply` on the fresh table, with each received request at most once, with the answer of every request that is finished and of every request already replied to; its replay is the table whenever the mutex is free |
| Theorems.NoneForgotten | src/server/server.cpp:64-96 | every request received is in the hands of exactly one worker or has been replied to |
| Theorems.RealTimeOrder | src/server/server.cpp:64-96 | a request answered before another is received precedes it in that order, with or without the mutex |
| Theorems.ReceiptOrder | src/server/server.cpp:64-96 | with one worker the order is the order of receipt |
| Theorems.HistoryGrows | src/server/request_processor.cpp:46-261 | later steps never revise the order of requests already answered |
| Fifo.SingleWorkerFifo | src/server/server.cpp:64-96 | with one worker, requests are answered in the order in which the clients sent them |
| Linearizability.StepProgress | src/server/request_processor.cpp:92-219 | each step of the mutex holder brings table and locals exactly one step closer to what `Apply` does |
| Linearizability.KeepsLinear | src/server/request_processor.cpp:46-261 | every action of every worker keeps the history sequential and the table explained by it, up to the holder's progress |
| Discipline.StepTable | src/core/reservation_table.cpp:40-68 | a step changes at most status and owner of the seat its request names, inside the critical section of a RESERVE or CANCEL |
| Discipline.StepLocks | src/server/request_processor.cpp:135-140 | the reservation mutex changes hands only where its scope begins and ends, the log mutex only inside a log call |
| Discipline.StepDelay | src/core/reservation_table.cpp:44-52 | the delay lies between the guard and the update's own test, and is there exactly when it is switched on |
| Discipline.KeepsShape | src/server/request_processor.cpp:22-26 | every action keeps the table's ids in order and each mutex held by exactly the worker inside its scope |
| Discipline.KeepsTickets | src/server/request_processor.cpp:36-41 | every action keeps each received request in the hands of at most one worker and answered at most once, under its own ids |
| Ownership.OwnershipStable | src/core/seat.cpp:9-25 | in a sequential history, after a successful RESERVE and until its owner's CANCEL, every STATUS reports that owner and every RESERVE of the seat fails |
| Ownership.OwnershipStableInRuns | src/server/request_processor.cpp:65-241 | the same for every run of the synchronized server |
| Ownership.OneWinner | src/core/seat.cpp:9-16 | a free seat that nobody cancels goes to the first RESERVE with a valid id, which is the only one to succeed and owns the seat at the end |
| Ownership.OneWinnerInRuns | src/server/request_processor.cpp:135-140 | the same for every run of the synchronized server |
| Ownership.NoTornReads | src/server/request_processor.cpp:51-82 | although fields are copied and written one at a time, every STATUS, CHECK and LIST snapshot under the mutex shows Reserved exactly with a nonzero owner, and the constructor's ids in order |
| Ownership.CheckMeansUpdate | src/server/request_processor.cpp:96-168 | with the mutex RESERVE succeeds exactly when its check found the seat free and the id is nonzero, CANCEL exactly when its check found ownership; a CONFLICT means id 0 on a free seat and conversely |
| Ownership.AnswersTell | src/server/request_processor.cpp:46-261 | with the mutex every answer in every run shows the seat as its request left it, or the defaults on failure, with the right success condition, the effect on the seat and the text that fits |
| Ownership.AnswersInEveryMode | src/server/request_processor.cpp:46-261 | with or without the mutex, a successful RESERVE answers Reserved by its client, a successful CANCEL Available by nobody, a successful STATUS what it copied, and every failure Available and owner 0, with the text that fits |
| Ledger.LedgerConservation | src/core/seat.cpp:9-25 | without the mutex but with atomic `Seat` methods, successful reserves minus cancels of a seat is 1 if reserved and 0 if free, its owner is the last successful reserver, every update is made by a RESERVE or CANCEL request of that seat and client, and a request is answered with success exactly if it made one |
| Ledger.KeepsAttributed | src/core/reservation_table.cpp:40-68 | every action keeps each update tied to a request with that seat, client and command |
| Ledger.ConflictHasCulprit | src/server/request_processor.cpp:153-160 | a CONFLICT of a nonzero id means another request reserved that seat between this one's check and its failed update |
| Ledger.AtomicStep | src/core/seat.cpp:9-25 | with atomic methods a step is a whole legal update or leaves table and ledger alone |
| Ledger.StepMarks | src/server/request_processor.cpp:96-132 | the interval used for a CONFLICT begins with the read of the seat and ends where the update is decided |
| DoubleBooking.EveryoneWins | src/core/seat.cpp:9-16 | without the mutex and with split `Seat::reserve`, for every k some run answers Success to all k clients competing for one seat |
| DoubleBooking.ApproachStep | src/server/request_processor.cpp:96-132 | up to its first write a RESERVE of a free seat changes nothing shared except the log mutex |
| Termination.RunsEnd | src/server/request_processor.cpp:36-264 | a run is at most a fixed number of steps per request received, however the workers interleave |
| Termination.StepDescends | src/server/request_processor.cpp:46-261 | every micro-step reduces the steps a request still needs |
| Termination.DeadlockFree | src/server/request_processor.cpp:22-26 | in every reachable state with an unfinished request some worker can take a step |
| Termination.SomeoneSteps | src/server/request_processor.cpp:135-146 | waiting for a mutex ends within two hops: the worker itself, the mutex holder, or the holder of the log mutex it waits for |
| Coupling.Projection | src/server/server.cpp:64-97 | every run of the whole system contains a run of its workers with the same final worker state |
| Coupling.KeepsCoupled | src/server/server.cpp:75-96 | a worker is inside `process_request` exactly while its loop serves a request, and it is that request |
| Tokens.TokenConservation | src/client/client.cpp:62-124 | a waiting client has exactly one token, queued, in one worker's hand, in its reply queue or lost, and an idle client none; requests are dropped at shutdown only after `running_` has fallen, and if no reply fails nothing is lost before |
| Tokens.ResponsesMatch | src/client/client.cpp:78-96 | a response in a client's queue is the only one and carries the ids of the request just sent; by `Numbering.NotStale` these are not the ids of an older request |
| Numbering.IdsAdvance | src/client/client.cpp:67-68 | after any run each client's counter is one more than the requests it has sent, its n-th request carries that number, both on 32 bits, and the request it waits for is its newest |
| Numbering.IdsDiffer | src/client/client.cpp:67-68 | two requests of one client less than 2^32 sends apart carry different ids |
| Numbering.NotStale | src/client/client.cpp:78-89 | a waiting response carries the id of the client's newest request and of no older one within the range of the counter |
| Numbering.RequestSays | src/client/client.cpp:67-73 | a request carries the counter, the client, the command asked for, the seat as far as it fits and the name of the client's own reply queue |
| Numbering.SentAsAsked | src/client/client.cpp:62-76 | sending puts exactly that request into the queue, with priority 0 |
| Tokens.KeepsConserved | src/server/server.cpp:64-96 | every action of clients, workers and `stop()` keeps the token count of every client |
| Tokens.ReplyTarget | src/server/server.cpp:87-94 | a worker's reply can only go to the queue of the client whose request it answers |
| Answers.ClientAnswer | src/client/client.cpp:98-103 | with the mutex the response a client receives is the answer of its own request, run alone on the table of some moment since it was sent, and tells the truth about that table |
| Shutdown.QueueBound | src/server/server.cpp:111-116 | the request queue never holds more than one message per client and one per sentinel sent |
| Shutdown.ReplyNeverBlocks | src/server/server.cpp:90-95 | in every reachable state a worker about to reply finds its client's queue empty, so the send goes through |
| Shutdown.KeepsSentinels | src/server/server.cpp:75-83 | every sentinel sent is still queued or has taken one worker out of its loop |
| Shutdown.WorkerMoves | src/server/server.cpp:64-97 | a worker still in its loop leads to a possible move of some worker, unless it waits on an empty queue |
| ShutdownTheorems.ExactCondition | src/server/server.cpp:102-121 | the server can move in every reachable state with `stop()` under way, if and only if a worker was requested and clients plus requested workers are at most the capacity |
| ShutdownTheorems.StopTerminates | src/server/server.cpp:102-121 | after `running_` has fallen every run is bounded by a rank, whatever clients and kernel do; so `stop()` cannot go on for ever |
| ShutdownTheorems.StopReturns | src/server/server.cpp:102-121 | under that condition, whenever `running_` has fallen and the server itself cannot move any more, `stop()` has returned |
| ShutdownTheorems.BusyGetsStuck | src/server/server.cpp:65-83 | from any reachable state with all workers busy, if queued messages and sentinels to come exceed the capacity, some run ends with `stop()` blocked |
| ShutdownTheorems.StuckForever | src/server/server.cpp:111-116 | once blocked on a full queue with all workers gone, `stop()` stays blocked over every further run, and the server makes no move in it |
| ShutdownTheorems.NoSentinels | src/server/worker_pool.cpp:13-14 | with zero workers requested the clamped pool has one worker, and some run leaves it asleep, the join waiting and the server without a move |
| ShutdownTheorems.SleepsOn | src/server/server.cpp:67-73 | such a worker sleeps on over every run in which no client sends and its receive does not fail |
| ShutdownTheorems.WokenStops | src/server/server.cpp:67-83 | a client's request or a failed receive lets the worker leave and `stop()` return |
| ShutdownTheorems.StoppedMeansJoined | src/server/worker_pool.cpp:37-46 | when `stop()` has returned every worker has left its loop and no request is half processed |
| MessageQueues.EnqueueOrder | src/ipc/posix_message_queue.cpp:166-183 | sending keeps the highest priority in front, appends within its priority and disturbs no other (POSIX.1-2017, mq_send) |
| MessageQueues.EnqueueSum | src/ipc/posix_message_queue.cpp:166-183 | sending adds exactly the message sent, whatever is counted |
| QueueHandle.PosixMessageQueue.Unlink | src/ipc/posix_message_queue.cpp:204-221 | true exactly for a valid name when the first call not interrupted works, and then the name is gone; otherwise nothing changes |
| QueueHandle.InterruptsRepeated | src/ipc/posix_message_queue.cpp:213-215 | however often the call is interrupted, the first one that is not decides |
| QueueHandle.PosixMessageQueue.Close | src/ipc/posix_message_queue.cpp:138-164 | true exactly when no descriptor and no ownership is left; each half is released exactly if its own call works; only its own descriptor and a name it owned are touched |
| QueueHandle.PosixMessageQueue.CloseUntilDone | src/ipc/posix_message_queue.cpp:138-164 | repeating close until it succeeds, after any number of failures, leaves exactly the descriptor and the owned name released |
| QueueHandle.PosixMessageQueue.OpenOrCreate | src/ipc/posix_message_queue.cpp:66-104 | the handle owns the name exactly when this call created it; it is open exactly when it owns or an existing queue was opened and found to have the wanted sizes; a descriptor leaks exactly when the sizes are not so found and the `mq_close` then fails |
| QueueHandle.LeakCondition | src/ipc/posix_message_queue.cpp:83-94 | some failure makes a create leak if and only if the arguments are valid and the queue exists already; with a working `mq_getattr`, if and only if it also has other sizes |
| QueueHandle.PosixMessageQueue.LeakInOpenOrCreate | src/ipc/posix_message_queue.cpp:83-94 | a run without any move or destruction that ends with a closed handle and one open descriptor |
| QueueHandle.PosixMessageQueue.OpenExisting | src/ipc/posix_message_queue.cpp:106-132 | never owns; opens exactly the existing valid names for which the call works |
| QueueHandle.PosixMessageQueue.MoveConstruct | src/ipc/posix_message_queue.cpp:40-45 | descriptor, name and ownership pass to the new handle; the old one is closed and owns nothing |
| QueueHandle.PosixMessageQueue.MoveAssign | src/ipc/posix_message_queue.cpp:47-64 | self-assignment changes nothing; otherwise the source's fields are taken over, the target's descriptor leaks exactly if its `mq_close` fails, and its owned name is removed exactly if its `mq_unlink` works |
| Handles.Process.Run | src/ipc/posix_message_queue.cpp:29-164 | over any sequence of operations with any failures each operation has its effect on handles and queues, one after another; each name has at most one owner, owned names exist, and open descriptors and handles match one to one except for leaks, of which there are none if and only if no create, move assignment or destruction had its own `mq_close` fail |
| Handles.Process.Step | src/ipc/posix_message_queue.cpp:29-164 | one operation has exactly its effect: what is appended and whether it is open, what passes on in a move, what a close or a destruction releases and unlinks; it leaks exactly if it is a create, a move assignment or a destruction and its own `mq_close` failed |
| Handles.Process.CloseAll | src/ipc/posix_message_queue.cpp:138-164 | closing every handle with no call failing leaves no open descriptor but the leaked ones and no name a handle owned |
| Handles.CloseInTurn | src/ipc/posix_message_queue.cpp:138-164 | after closing the handles in turn without failures each is closed, owns nothing and keeps its name, and the names owned are gone |
| Handles.Process.DoCreate | src/ipc/posix_message_queue.cpp:66-104 | a create keeps the process consistent, owns only a new name, and leaks exactly under the condition of `open_or_create` |
| Handles.Process.DoClose | src/ipc/posix_message_queue.cpp:138-164 | closing leaks nothing, removes a name only from its owner, and closing again changes nothing |
| Handles.Process.DoDestroy | src/ipc/posix_message_queue.cpp:32-38 | the destructor leaks exactly its open descriptor, exactly if `mq_close` fails, and removes at most the name it owned; without failures that name is gone |
| Handles.Process.DoMoveOther | src/ipc/posix_message_queue.cpp:47-64 | move assignment between two handles keeps the whole process consistent, moves exactly the source's fields and leaks exactly the target's descriptor, exactly if its `mq_close` fails |
| Handles.MoveKeeps | src/ipc/posix_message_queue.cpp:47-64 | releasing, abandoning and transferring keep descriptors and handles one to one and names with one owner |
| Handles.DestroyKeeps | src/ipc/posix_message_queue.cpp:32-38 | dropping a handle turns exactly its open descriptor into a leak |
| Connections.Connection.Disconnect | src/client/client.cpp:52-56 | without kernel failures no descriptor and no reply queue of the client is left |
| Connections.Connection.Connect | src/client/client.cpp:24-50 | succeeds exactly when both queues are open, the server's being the default queue for an empty name and the named queue otherwise; without kernel failures exactly when that queue exists, and failing leaves nothing behind; under every failure plan a client that owned no reply queue before has one after success |
| Connections.Connection.ConnectWithoutReplyQueue | src/client/client.cpp:37-50 | for every client that owns a reply queue and every other existing server queue, one failed `mq_unlink` makes connect succeed without a reply queue |
| Fetching.FetchIntervals | src/client/client.cpp:126-149 | in every run of the synchronized system the map lists every seat in order, every answered entry is the seat's state at a moment between start and end of the call, these moments come one after another, and an unanswered seat is shown as free |
| Fetching.QuietFetch | src/client/client.cpp:126-149 | if every STATUS is answered and no RESERVE or CANCEL takes effect during the call, the map is what `get_all_seats` shows, and this is the table itself unless somebody is inside the critical section |
| Fetching.StatusMoment | src/client/client.cpp:98-103 | one STATUS shows the seat as it was at a moment between its own start and end, whatever workers and other clients do meanwhile |
| Fetching.Client.FetchSeatMap | src/client/client.cpp:126-149 | the loop makes exactly the LIST and STATUS requests of the call, in order, and returns the entries their responses give |
| Fetching.Client.Request | src/client/client.cpp:62-103 | one request is one send and one receive of this client, with anything else in between, and returns the response that waits then; a closed queue sends nothing |
| SeatMap.StatusShows | src/client/client.cpp:136-145 | a STATUS answer and the client's fallback together show the seat exactly as the table has it |
| SeatMap.SeatIdSurvives | src/ipc/message.cpp:10-29 | for every NUL-free seat text and every id of at most 6 characters, the server's key equals the id exactly when the text does, and the response's seat reads back as that key |
| SeatMap.CanonicalIdsFit | include/common/constants.hpp:26-28 | the twenty seat ids are distinct and survive the eight-byte field |
| Messages.ApplyFrame | src/server/request_processor.cpp:36-264 | whatever arrives, ids stay in order, status and owner stay in agreement, only the named seat may change, and the response carries the request's ids |
| Messages.ApplyTells | src/server/request_processor.cpp:36-264 | for every table and request: a successful answer about a seat shows its status and owner as the request leaves them, every failure shows Available and owner 0; when each command succeeds; the seat after a success; nothing else changes the table; each text belongs to one command and result; ids and seat text come back |
| Processor.RequestProcessor.ProcessRequest | src/server/request_processor.cpp:36-264 | run alone, every command changes the table and answers as the reference semantics says, and the answer tells the truth about the table found and the table left |
| Processor.RequestProcessor.ReserveOp | src/server/request_processor.cpp:96-133 | succeeds exactly on a free seat with a nonzero id; available but refused means exactly id 0 |
| Processor.RequestProcessor.CancelOp | src/server/request_processor.cpp:177-212 | succeeds exactly when the check found the client to be the owner |
| Processor.RequestProcessor.BlankResponse | src/server/request_processor.cpp:38-44 | the response starts with the request's ids, Failure, the seat text rewritten into a zeroed buffer, Available and owner 0 |
| Seats.Seat.Reserve | src/core/seat.cpp:9-16 | succeeds exactly on a free seat with a nonzero id and then sets both fields; otherwise nothing changes; the fields stay in agreement |
| Seats.Seat.Cancel | src/core/seat.cpp:18-25 | succeeds exactly for the owner and then clears both fields; otherwise nothing changes |
| Seats.Seat.Reset | src/core/seat.cpp:27-30 | the seat becomes free, its id stays |
| Seats.ReservationTable.constructor | src/core/reservation_table.cpp:13-18 | one free seat per id, in order |
| Seats.ReservationTable.FindSeat | src/core/reservation_table.cpp:76-92 | finds the first seat with the id, or nothing when there is none |
| Seats.ReservationTable.GetSeat | src/core/reservation_table.cpp:28-34 | a copy of the seat with the id, if the table has it |
| Seats.ReservationTable.GetAllSeats | src/core/reservation_table.cpp:36-38 | copies of all seats, in order |
| Seats.ReservationTable.ReserveSeat | src/core/reservation_table.cpp:40-53 | succeeds exactly for a known free seat and a nonzero id, and changes that one seat only |
| Seats.ReservationTable.CancelSeat | src/core/reservation_table.cpp:55-68 | succeeds exactly for a known seat held by the client, and changes that one seat only |
| Seats.ReservationTable.ResetAll | src/core/reservation_table.cpp:70-74 | the table is as constructed, with the same ids |
| Buffers.CopyStringToBuffer | src/ipc/message.cpp:10-20 | in place: the text cut to leave room, a terminator, and every other byte untouched |
| Buffers.RoundTrip | src/ipc/message.cpp:10-29 | writing NUL-free text and reading it back gives its longest prefix that fits, whatever the buffer held |
| Buffers.RereadStable | src/server/request_processor.cpp:43-44 | text read from a buffer is NUL-free and survives being written to another one unchanged |
| QueueNames.ReplyQueueNameInjective | src/ipc/queue_names.cpp:11-13 | different client ids never share a reply queue name |
| QueueNames.ReplyQueueNameSound | src/ipc/queue_names.cpp:11-32 | for every 32-bit id the name is valid, differs from the server's and survives the 64-byte field |
| QueueNames.DecimalValue | src/ipc/queue_names.cpp:11-13 | the numeral in a reply queue name reads back as the client id and has no leading zero |
| QueueNames.ValidNames | src/ipc/queue_names.cpp:15-32 | a valid name is a slash followed by one to sixty-two characters that are neither slash nor NUL, and conversely |
| QueueNames.ValidNameFits | src/ipc/posix_message_queue.cpp:206-211 | a valid name survives the 64-byte buffer, so the kernel sees the name that was checked |
| Commands.CommandRoundTrip | include/common/command.hpp:18-53 | the five spellings, and printing and parsing command names are inverse in both directions |
| Sanitizer.SanitizeInput | src/client/terminal_ui.cpp:153-191 | the scan and the two trimming loops terminate and compute the recursive specification |
| Sanitizer.SkipEscape | src/client/terminal_ui.cpp:158-173 | the inner scan ends where the specification says one escape sequence ends |
| Sanitizer.SanitizeProjects | src/client/terminal_ui.cpp:153-191 | the result is a trimmed subsequence without ESC or CR, and sanitizing again changes nothing |
| Sanitizer.ControlSequenceErased | src/client/terminal_ui.cpp:158-169 | a control sequence is deleted exactly, with nothing before or after it |
| Sanitizer.KeySequenceErased | src/client/terminal_ui.cpp:170-172 | ESC, O and one more character are deleted together, with nothing before or after them |
| Sanitizer.LoneControlErased | src/client/terminal_ui.cpp:158-178 | any other ESC, and every carriage return, is deleted alone |
| Sanitizer.CutSequenceErased | src/client/terminal_ui.cpp:160-172 | a sequence cut short by the end of the input is deleted up to the end |
| Parser.ParseLine | src/client/command_parser.cpp:14-80 | the imperative parser computes the meaning of the line's first two words, which `LineUnderstood` characterises |
| Parser.LineUnderstood | src/client/command_parser.cpp:26-79 | for every line: RESERVE, STATUS and CANCEL if and only if the first word, in any letter case, is the name, the initial or the digit and a second word follows, whose small letters are capitalised for the seat; LIST, QUIT, help and clear if and only if it is one of their words, without a seat and with the right flags; nothing else is understood |
| Parser.TwoWordsThere | src/client/command_parser.cpp:20-24 | every line has its first two words somewhere, a word being missing only at its end |
| Parser.ReadWord | src/client/command_parser.cpp:20-24 | extraction skips white space and takes the maximal word behind it |
| Parser.ParseAfterSanitize | src/client/client_repl.cpp:200-206 | sanitizing a line before parsing it makes no difference |
| Parser.ParserInvertsPrinter | src/client/command_parser.cpp:14-80 | a seat command by name, initial or digit, in any case and padding, parses back to the command and the capitalised seat if and only if the separator has a character other than CR; otherwise the joined word means clear if it spells one of its words, and nothing else |

## Left out

- Connections.Connection.Connect: after a kernel failure it does not say which descriptors are left open by a connect that fails.
- Handles.Process.Run: other processes create queues and remove queues that nobody here owns, at any time, but never unlink an owned name; with that a name could vanish under its owner.
- Tokens.TokenConservation: assumes the clients' receives succeed; a client whose receive fails could send a second request before the first is answered.
- Fetching.FetchIntervals: a send that fails with an open queue uses up a request id in the source; here an unanswered request sends nothing and uses none.
- Weak memory: the mode without synchronization is modelled under sequential consistency.
- `WorkerPool` as an object with a vector of threads: its clamp and its join order are part of the `Server` machine.
- `Server::start` before the worker loop, the closing and unlinking of the request queue in `stop()`, and the polling loop of `run()`.
- `send` and `receive` of the handle: their data movement is the queue of the `Server` machine, their retries on interrupts are invisible there.
- errno values beyond the ones the code branches on, and the platform branches without message queues.
- Random delay lengths and sleeping: a delay is one step that can be interleaved.
- Message and log texts: response texts are named constants, and of logging only the lock it takes is kept.
- Foreign or short messages in the queues; only the modelled clients and `stop()` send.
- A client that crashes and restarts with the same id.
- Terminal rendering, the read-eval-print loop, the two main programs and the visualizer.
- Locales other than the C locale for character classes.
