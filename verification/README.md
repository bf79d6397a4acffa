# Protocols and algorithms of a systems-programming course, verified

A Dafny model of the concurrent protocols and algorithms in the repository's C, C++ and
RISC-V programs, with proofs of what they keep over every run and of exactly when they are
right. Check everything with `dafny verify dfyconfig.toml`.

## What is modelled

**Code review (`idz os 2`).** Processes pass tasks through queues guarded by semaphores. The
shared-memory variant and the message-queue variant are state machines whose steps are single
system calls, for any number n >= 2 of processes, any capacity >= n and any schedule; the
random draws are arbitrary. `TokenPassing` is the protocol behind them: every programmer owns one
token. The shared-memory program is proved to refine the message-queue program, and that one the
protocol; the invariant joins semaphore accounting, mutual exclusion and conservation of tokens.
The programs have n = 3, with capacities 50 and 10. `SharedMemoryOffice` holds the same state
machine in place, over a two-dimensional array with the shifting loop, and `MessageQueueOffice`
the other one.

**Picture gallery (`idz os 3/6-7`).** `GalleryServer` is the server for arbitrary clients,
`GalleryBook` what can be known of it from the messages and replies alone, and proved to be all,
`GalleryVisitor` the visitor, `GalleryVisit` any number of visitors together with the server,
`GalleryDesk` both in place. The counters are exact for visitors; for arbitrary clients it is
proved exactly which events spoil them.

**Numbers in a text (`idz os 1/4`).** The scanner and the printer work on arrays with the
C program's buffers; `NumberText` holds the specification, with atoi as the GNU C library
computes it (strtol stops at LONG_MAX, then the conversion to 32 bits).

**Circle through four points (`IDZ2`).** The formulas are computed in IEEE 754 arithmetic
without rounding (`Ieee`): exact reals, infinities and NaN. Zero has no sign in it; the only zero
divisors are differences of equal numbers, which are positive zero. Squared distances are
compared in place of their roots (`CircleTheorem.DecideByDistances`). `CircleInput.Right`
says on the given coordinates for which inputs the program is correct.

**Factorial (`seminar 5`).** The overflow test with wrapping multiplication and the machine's
division, and the loop that relies on it.

**Registry of loggers (`idz os 4/9`).** The table as a list of entries and, in `LoggerDesk`, in
place. The clock and the failing sends are inputs. An address as a text is its one dotted form
or malformed.

**Hotel (`IDZ4/mutexes`).** The threads of the clients, of their stays and of the administrator
as a state machine with both locks; reading the number of rooms and writing it back are separate
steps. The program initialises neither mutex, and POSIX leaves open what a default mutex does when
its holder locks it again. So each mutex is a parameter of one of four kinds: it blocks, refuses or
counts, or it is void and keeps nobody out. Every result says for which kinds it holds;
`HotelRuns.RoomsAndOrder` holds over all sixteen days for every kind of waiters' mutex. Where the
waiters' mutex is void, a push and a pop are still single steps. Main waits for the clients' threads
and the administrator's, not for the stays', and what is still under way when it returns ends with
the process. The mutex of the rooms is a local variable of the administrator's thread; stays that
outlive that thread lock it after its time, where the model lets it go on as before.

## Where the code and its documentation differ

The model follows the code.

- `idz os 2/README.md` says tasks 3 to 5 name the programmer who reviewed; in the code they name
  the author (main.c:176, 183), and the reviewer is the process itself.
- The same text says a full queue is assumed not to happen; that it cannot is
  `SharedMemoryProof.AddIsNeverDropped`.
- `IDZ2/README.md` promises no for three points of one line. For a slanted line the computed centre
  and both distances are infinite, and the answer is yes (`CircleTheorem.DecideRow`). It promises
  yes when a point is given twice; some such inputs get no (`CircleTheorem.DecideDouble`). It promises
  that swapping points avoids lines parallel to the axes; the second pair of swaps can undo the
  first, and a square in walking order is rejected (`CircleTheorem.SquareRejected`).
- `idz os 3/README.md` has the server track the visitors; it does so exactly only when clients follow
  the visitor program (`GalleryCounting.VanishedClientsMiscount`,
  `GalleryHeadcount.WaitingClientCountsOut`).
- `idz os 4/9`: a known logger that missed its heartbeats cannot come back once the registry is
  full, as the capacity is tested before the address (`LoggerRuns.FullOnlyShrinks`).
- `IDZ4/README.md` shows every guest leaving. Main does not wait for that
  (`HotelRuns.LeavesNobodyIff`).
- `IDZ4/README.md` relies on the mutexes for orderly access. The administrator's loop ends holding
  the lock of the waiters and locks it again the next day. If that blocks, the second morning is the
  last (`HotelEnd.ShutForever`); if it does not, a loop that ends for want of clients is still the last
  chance to arrive (`HotelEnd.DesertedForever`). The recorded outputs show otherwise:
  `IDZ4/mutexes/standart_out.txt` has nobody on day 0 and guests checking in on later days.
  After a first loop that finds nobody, such a run takes a mutex that keeps nobody out
  (`HotelRuns.AdmitsAfterDesertionIff`).
- The printer's buffer is sized for 12 characters a number, but the header takes more than the 10
  reserved for it; hence the least sizes in `NumberFormatter.FitsIff`.

## Model

| member | source | states |
|---|---|---|
| TokenPassing.PlayKeepsValid | idz os 2/4-5/main.c:137-180 | Along any sequence of legal decisions nobody ever becomes the reviewer or re-reviewer of his own program. |
| TokenPassing.RejectionSticks | idz os 2/4-5/main.c:170-211 | Once r has rejected the program of p, the program stays a re-review held by r, and only r decides about it, for as long as no decision accepts it; over every sequence of decisions. |
| TokenPassing.DecisionSettles | idz os 2/4-5/main.c:133-212 | What each decision makes of a program: written, it goes to the drawn reviewer, who may be anybody but the author; judged well, first or repeated, its author writes again; judged badly, the same judge keeps it as a re-review. No other program is touched. |
| ReviewDecisions.WriterDraws | idz os 2/4-5/main.c:133-150 | After writing, every reviewer but the author himself can be drawn, and nobody else; the author's number is then on its way to him. |
| ReviewDecisions.ReviewerJudges | idz os 2/4-5/main.c:152-211 | After a review or re-review both verdicts are possible: a write task for the author, or the program to the reviewer himself as a re-review. |
| ReviewDecisions.BlockedIff | idz os 2/4-5/main.c:127-150 | A process is blocked if and only if the semaphore it waits for is down, or it has drawn itself. |
| ReviewDecisions.WriterDrawsInQueues | idz os 2/10/main.c:78-91 | The draw in the queue program: every reviewer but the author, and nobody else. |
| ReviewDecisions.ReviewerJudgesInQueues | idz os 2/10/main.c:92-133 | Both verdicts in the queue program, and where they send what. |
| ReviewDecisions.BlockedInQueuesIff | idz os 2/10/main.c:50-91 | A process of the queue program is blocked if and only if its semaphore is down, its queue empty, the receiver's full, or it has drawn itself. |
| TokenPassing.TokensUnique | idz os 2/4-5/main.c:285-289 | An abstract state of n programmers holds n tokens, no token twice. |
| MessageQueueProof.StartRefines | idz os 2/10/main.c:209-213 | What the initialiser leaves in the queues and semaphores is the protocol's initial state, with queues and semaphores in balance. |
| MessageQueueProof.StepRefines | idz os 2/10/main.c:73-134 | Every single step of any process keeps the refinement: a decision is a legal protocol decision with exactly its effect on the tokens of the whole system, any other step leaves the protocol's state alone. |
| MessageQueueProof.ProgramRefinesProtocol | idz os 2/10/main.c:70-135 | Every run, under every schedule and for every number of processes, is a play of the token-passing protocol and ends in a state that refines the play's. |
| MessageQueueProof.HeldTask | idz os 2/10/main.c:76-112 | In every refining state a task a process holds is in range and is the one its owner's protocol state prescribes: -1 only for an author who is writing, an index only for the reviewer of that program, an index plus n only for its re-reviewer, never the process itself. |
| MessageQueueProof.CallsNeverBlock | idz os 2/10/main.c:50-68 | A receive after its wait finds a message, a send finds fewer than n messages in the queue it goes to, and no queue exceeds n. |
| MessageQueueProof.MessagesBounded | idz os 2/10/main.c:185-192 | At most n messages are present in all queues together. |
| MessageQueueProof.NeverDeadlocked | idz os 2/10/main.c:73-134 | In every refining state some process has an enabled step. |
| MessageQueueProof.EveryReachableState | idz os 2/10/main.c:165-213 | In every state reachable from the initialised queues no receive after its wait and no send blocks, at most n messages are present, and some process can move. |
| MessageQueueOffice.Office.Receive | idz os 2/10/main.c:58-68 | In place: the oldest message, or nothing and no change when the call would block. |
| MessageQueueOffice.Office.Send | idz os 2/10/main.c:50-56 | In place: the message is appended if and only if the queue is not full. |
| MessageQueueOffice.Office.Seed | idz os 2/10/main.c:209-213 | The initialiser's loop reaches the initial state of the state machine. |
| MessageQueueOffice.Office.Step | idz os 2/10/main.c:73-134 | One step in place is the state machine's step, and it fails without a change exactly when that step is blocked. |
| MessageQueueOffice.Office.Decide | idz os 2/10/main.c:78-133 | The branches on the task held send what the state machine sends, to the same process. |
| MessageQueueOffice.Office.Run | idz os 2/10/main.c:70-135 | Any schedule executed in place ends where the state machine's run ends. |
| SharedMemoryProof.StartRefines | idz os 2/4-5/main.c:285-289 | The seeding in main is the protocol's initial state, with the mutex free. |
| SharedMemoryProof.MutualExclusion | idz os 2/4-5/main.c:129-131 | Mutex accounting leaves at most one process between a lock and an unlock. |
| SharedMemoryProof.GetIsNeverSpurious | idz os 2/4-5/main.c:96-133 | get_task never runs on an empty queue, so a -1 it returns is a genuine write task of that programmer. |
| SharedMemoryProof.AddIsNeverDropped | idz os 2/4-5/main.c:69-71 | With capacity at least n, add_task never meets a full queue: the task is appended. |
| SharedMemoryProof.StepSimulates | idz os 2/4-5/main.c:127-150 | Each step is either the same process's step of the message-queue program or invisible there. |
| SharedMemoryProof.RunSimulates | idz os 2/4-5/main.c:125-213 | Every run, with the mutex steps left out, is a run of the message-queue program to the corresponding state. |
| SharedMemoryProof.ProgramRefinesProtocol | idz os 2/4-5/main.c:125-213 | Every run of the shared-memory program is a play of the same token-passing protocol. |
| SharedMemoryProof.NeverDeadlocked | idz os 2/4-5/main.c:125-213 | In every refining state some process has an enabled step, whoever holds the mutex. |
| ReviewRuns.OneTaskEach | idz os 2/4-5/main.c:132-212 | Every programmer owns exactly one task in the whole system: queued, held or about to be added. |
| ReviewRuns.EveryReachableState | idz os 2/4-5/main.c:125-213 | Every state reachable under any schedule has one task for each programmer, no queue beyond n, one process inside the critical section, no get on an empty queue, nobody holding his own program for review, and somebody who can move. |
| ReviewRuns.RejectedProgramStaysWithItsReviewer | idz os 2/4-5/main.c:170-211 | In any run, after r has rejected the program of p and until somebody accepts it, every task about p anywhere is a re-review meant for r, and all decisions about p are r's. |
| ReviewProgress.CanReach | idz os 2/4-5/main.c:125-213 | From every refining state and for every p and q other than p there are schedules that end with somebody accepting the program of p, with p sending it to q, and with q rejecting it. |
| ReviewProgress.NobodyIsLockedOut | idz os 2/4-5/main.c:125-213 | From every reachable state, for every programmer p, there is a schedule that ends with somebody else accepting the program of p. |
| ReviewProgress.AnyReviewerIsPossible | idz os 2/4-5/main.c:137-150 | From every reachable state, for all p and q other than p, there is a schedule that ends with p sending his program to q. |
| ReviewProgress.AnyRejectionIsPossible | idz os 2/4-5/main.c:157-180 | From every reachable state, for all p and q other than p, there is a schedule that ends with q rejecting the program of p. |
| MessageQueueProgress.CanReach | idz os 2/10/main.c:73-134 | The same three ends can be reached in the queue program from every refining state. |
| MessageQueueProgress.NobodyIsLockedOut | idz os 2/10/main.c:70-135 | The queue program too can reach, from every reachable state and for every programmer p, an acceptance of the program of p by somebody else. |
| MessageQueueProgress.AnyReviewerIsPossible | idz os 2/10/main.c:82-91 | From every reachable state of the queue program, for all p and q other than p, p can come to send his program to q. |
| MessageQueueProgress.AnyRejectionIsPossible | idz os 2/10/main.c:97-111 | From every reachable state of the queue program, for all p and q other than p, q can come to reject the program of p. |
| ReviewTurns.DecidedInTurn | idz os 2/4-5/main.c:96-213 | In every run the i-th task in front of a process, counting the one in hand and then the queue, is what its i-th decision from now on is about, whatever the others do and add. |
| ReviewTurns.NobodyIsPassedOver | idz os 2/4-5/main.c:96-213 | From every reachable state, a task in front of a process is decided within that process's next n decisions. |
| ReviewTurns.StepsAccounted | idz os 2/4-5/main.c:125-213 | In every run the steps taken are nine for each decision, up to the exact number of steps under way at either end. |
| ReviewTurns.DecisionsKeepComing | idz os 2/4-5/main.c:125-213 | No livelock: under every schedule a run of the program has at most 4 n steps plus nine for each decision. |
| SharedMemoryOffice.SharedMemory.AddTask | idz os 2/4-5/main.c:48-72 | On the array: appends to queue p unless it is full or does not exist, and leaves every other queue as it was. |
| SharedMemoryOffice.SharedMemory.GetTask | idz os 2/4-5/main.c:75-106 | On the array, with the shift loop: returns and removes the first task, or answers -1; other queues untouched. |
| SharedMemoryOffice.ServedInOrder | idz os 2/4-5/main.c:96-104 | First in, first out: the task at position k is what the (k+1)-th later get returns, whatever is added in between. |
| SharedMemoryOffice.Office.Seed | idz os 2/4-5/main.c:285-289 | The seeding loop on the arrays reaches the initial state of the state machine. |
| SharedMemoryOffice.Office.Step | idz os 2/4-5/main.c:125-213 | One step on the arrays and semaphores is the state machine's step, and it fails without a change exactly when that step is blocked. |
| SharedMemoryOffice.Office.StepDecide | idz os 2/4-5/main.c:133-212 | The decision on the task held: the drawn reviewer, acceptance back to the author, or the rejection to oneself, as the state machine has it. |
| SharedMemoryOffice.Office.Run | idz os 2/4-5/main.c:125-213 | Any schedule executed on the arrays ends where the state machine's run ends, and is refused if and only if that run is. |
| GalleryBook.HandleFollows | idz os 3/6-7/server.c:49-137 | Every message on an open connection is answered as a book kept of messages and replies alone says (ENTER granted below 25 visitors, VIEW below 5 viewers), and changes every counter and every field of the slots as the book says. |
| GalleryBook.ConnectFollows | idz os 3/6-7/server.c:209-214 | A new connection gets the first slot not in use, with what was said there before, or none. |
| GalleryBook.HandleAnnounces | idz os 3/6-7/server.c:32-47 | After a message that is loud (an end, MONITOR, ENTER, EXIT, VIEW of an existing painting, LEAVE_PAINTING at one) every connected monitor is sent the present numbers and nobody else; after another nothing is sent and no counter changes. |
| GalleryBook.ServerFollowsBook | idz os 3/6-7/server.c:139-222 | In every run of arbitrary clients from the start the server's counters, slots and possible events are those of the book, the counters keep within 25 and 5, every open connection that has sent MONITOR has the present numbers, and nothing was sent where nobody ever sent MONITOR. |
| GalleryCounting.CountsStayExactIff | idz os 3/6-7/server.c:54-132 | For any event of arbitrary clients, told from messages and replies: exact painting counters stay exact if and only if the event is neither a connection into a slot with a painting left over nor a granted VIEW by a client still standing somewhere. |
| GalleryCounting.CountsExactIff | idz os 3/6-7/server.c:181-222 | In every run of arbitrary clients from the start, the painting counters are exact after every event if and only if no event is one that spoils them. |
| GalleryCounting.VanishedClientsMiscount | idz os 3/6-7/server.c:209-214 | A concrete run in which the slot of a vanished client is reused and a painting with a client in front of it is counted as empty. |
| GalleryHeadcount.HeadcountStaysExactIff | idz os 3/6-7/server.c:62-131 | For any event of arbitrary clients, told from messages and replies: the exact number of visitors inside stays exact if and only if no client inside is let in again, none outside sends EXIT while the number is positive, and an ending connection is counted out exactly if its client is inside. |
| GalleryHeadcount.HeadcountExactIff | idz os 3/6-7/server.c:181-222 | In every run of arbitrary clients from the start, the number of visitors is exact after every event if and only if no event is one that spoils it. |
| GalleryHeadcount.WaitingClientCountsOut | idz os 3/6-7/server.c:62-96 | A run from the start in which a client is told to wait in front of a full gallery and hangs up: the server counts 24 with 25 inside. |
| GalleryVisitor.ReactConsistent | idz os 3/6-7/client.c:117-141 | Through every reply paintings_to_visit is the number of unvisited paintings. |
| GalleryVisit.NextKeepsInv | idz os 3/6-7/server.c:49-137 | Any step of any number of visitors with the server keeps the counters exact (25 and 5 respected), the slots owned by the visitors sitting in them, and every free slot without a painting. |
| GalleryVisit.OpeningInv | idz os 3/6-7/server.c:143-149 | The initialised server and n visitors outside satisfy that invariant. |
| GalleryVisit.ClampsAreIdle | idz os 3/6-7/server.c:113-128 | No counter is at zero when a visitor it counts leaves, so the clamps never act. |
| GalleryVisit.EveryRequestIsAnswered | idz os 3/6-7/client.c:66-145 | Every message of a visitor but the end is answered: ENTER granted if and only if fewer than 25 visitors are inside, VIEW if and only if fewer than 5 stand at the painting, LEAVE_PAINTING and EXIT always. |
| GalleryVisit.RefusalsChangeNothing | idz os 3/6-7/client.c:105-140 | A refused visitor asks again, with nothing changed but that he is waiting at the door. |
| GalleryProgress.GrantsAreSpent | idz os 3/6-7/client.c:93-145 | A granted reply lowers the number of grants still due by exactly one; no other step changes it. |
| GalleryProgress.WholeDay | idz os 3/6-7/client.c:93-145 | In every run of n visitors the grants given and the grants due add up to 12 n, and the invariant holds at the end. |
| GalleryProgress.SomebodyIsServed | idz os 3/6-7/server.c:90-132 | While a connected visitor is not done, some visitor's next request is granted: the limits never deadlock. |
| GalleryProgress.CanAlwaysFinish | idz os 3/6-7/client.c:93-162 | From every state of the invariant some continuation lets everybody who has not been turned away already see all five paintings and go home, and turns nobody away. |
| GalleryProgress.EverybodyCanBeServed | idz os 3/6-7/client.c:93-162 | For any number of visitors there is a day on which all of them see all paintings and go home, although there are 300 slots only. |
| GalleryProgress.NobodyIsTurnedAway | idz os 3/6-7/server.c:209-214 | With at most 300 visitors a newcomer always finds a free slot. |
| GalleryDesk.Desk.AcceptConnection | idz os 3/6-7/server.c:209-214 | The slot search and its effect on the globals. |
| GalleryDesk.Desk.BroadcastStatus | idz os 3/6-7/server.c:32-47 | The sending loop reaches exactly the connected monitors. |
| GalleryDesk.Desk.HangUp | idz os 3/6-7/server.c:54-73 | A disconnection: counters, slot and broadcast. |
| GalleryDesk.Desk.ObeyCommand | idz os 3/6-7/server.c:90-135 | Each command's effect on the globals and its reply, refusals included. |
| GalleryDesk.Desk.HandleClientMessage | idz os 3/6-7/server.c:49-137 | The whole handler, in place, is the server function about which the results above are proved. |
| GalleryDesk.Tour.Ask | idz os 3/6-7/client.c:99-144 | The visitor's next request from his local variables. |
| GalleryDesk.Tour.Hear | idz os 3/6-7/client.c:105-141 | How the reply changes the visitor's local variables; visited and paintings_to_visit stay consistent. |
| GalleryStatusText.StatusRecovered | idz os 3/6-7/monitor.c:94-98 | Scanning a text that begins with a status line, whatever follows it, recovers the line's numbers. |
| GalleryStatusText.Example | idz os 3/6-7/server.c:34-40 | A status line in full, with a blank after each number. |
| GalleryMonitor.MonitorsSeeThePresent | idz os 3/6-7/server.c:139-222 | In every run of arbitrary clients from the start, every open connection that has sent MONITOR since it began was last sent the present six counters, which keep within 25 and 5. |
| GalleryMonitor.MonitorIsTold | idz os 3/6-7/server.c:81-84 | A connection that sends MONITOR is sent the present numbers at once. |
| GalleryMonitor.MonitorsReadThePresent | idz os 3/6-7/monitor.c:86-98 | What such a connection scans, from the last line it was sent and whatever follows it, are the present number of visitors and the present painting counters. |
| GalleryStatusText.SpaceIsNeeded | idz os 3/6-7/server.c:34-40 | Without the trailing space the last number and the next line's first are read as the one number their digits make together, with nothing left over. |
| NumberText.ValueOfConcatenation | idz os 1/4/main.c:41-66 | Digit strings are numbers in positional notation: the value of two strings together is that of the first, times ten for each digit of the second, plus that of the second. |
| NumberText.LeadingZero | idz os 1/4/main.c:41-66 | A leading zero does not change the value. |
| NumberText.DigitsInOrder | idz os 1/4/main.c:29-29 | The digits 0 to 9 are the characters from '0' to '9' in order. |
| NumberText.AtoiExact | idz os 1/4/main.c:46-66 | atoi of a digit string is its value if and only if the value fits in an int. |
| NumberText.AtoiWraps | idz os 1/4/main.c:46-66 | Otherwise it is the int congruent to the value modulo 2^32, or -1 above the greatest 64-bit number. |
| NumberText.TextLength | idz os 1/4/main.c:102-102 | A decimal text has at most k digits if and only if the number is below 10^k. |
| NumberText.SpansAreMaximalRuns | idz os 1/4/main.c:28-63 | The spans of the functional scan are exactly the digit runs that can be extended on neither side, in increasing order. |
| NumberText.RunsAreSpans | idz os 1/4/main.c:28-63 | The functional scan cuts the text at those spans. |
| NumberScanner.AppendDigit | idz os 1/4/main.c:29-43 | The run buffer gets the digit and stays NUL-terminated, with capacity strictly ahead of the writes. |
| NumberScanner.AppendNumber | idz os 1/4/main.c:45-61 | The value of the open run is stored after the others; the capacity is below twice the count once it exceeds ten. |
| NumberScanner.ScannedSoFar | idz os 1/4/main.c:28-63 | At every position, what has been found and what the open run and the rest will give are the numbers of the whole text. |
| NumberScanner.ScanText | idz os 1/4/main.c:28-63 | The loop over the characters computes that scan state for the whole string. |
| NumberScanner.FindAllNumbers | idz os 1/4/main.c:8-86 | For every NUL-terminated text: the conversions of its digit runs, in order, and the capacity bound. |
| NumberScanner.ScannerExact | idz os 1/4/main.c:28-85 | The numbers returned are the values of the runs if and only if all these fit in an int. |
| NumberFormatter.AppendItem | idz os 1/4/main.c:100-109 | One round of the loop appends the number and the separator that belongs to it, if and only if the buffer has room for them. |
| NumberFormatter.MakeStringFromArray | idz os 1/4/main.c:88-111 | For every int array: the buffer holds the header and the comma-separated numbers as a C string if and only if the text fits; otherwise the program writes past the end. |
| NumberFormatter.Example | idz os 1/4/main.c:98-108 | A printed text in full: header, separators and a minus sign. |
| NumberFormatter.FitsIff | idz os 1/4/main.c:89-92 | The allocated buffer holds the text of every int array of a given size if and only if the size is at least 9. |
| NumberFormatter.FitsIffNonNegative | idz os 1/4/main.c:89-92 | For arrays of non-negative ints: if and only if the size is at least 5. |
| NumberFormatter.NumbersOfFormatted | idz os 1/4/main.c:98-108 | For every int array: scanning what was printed gives one number more than the array has entries, the first being the array's length if and only if that fits in an int, the others the entries' magnitudes as atoi reads them. |
| NumberFormatter.RoundTripIff | idz os 1/4/main.c:8-111 | For every int array: scanning what was printed gives back the length and the array if and only if the length fits in an int and every entry is non-negative or INT_MIN. |
| CircleSolver.PointMemory.DataHandler | IDZ2/program.asm:65-145 | The swaps and stores in memory and the code 0, 1 or 2, as the function the theorems speak of. |
| CircleDecision.BisectorIsExact | IDZ2/geomlib.asm:13-36 | A point lies on the computed perpendicular bisector if and only if it is equidistant from the two points. |
| CircleDecision.BisectorsParallelIff | IDZ2/program.asm:235-254 | The two computed bisectors are parallel if and only if the first three points are collinear. |
| CircleDecision.BisectorVertical | IDZ2/geomlib.asm:15-36 | For a vertical side the computed intercept is NaN. |
| CircleTheorem.CrossingIff | IDZ2/geomlib.asm:41-48 | The computed intersection is the one point on both lines. |
| CircleTheorem.CentreExact | IDZ2/program.asm:216-260 | The computed centre is the one point equidistant from the first three points. |
| CircleTheorem.DecideTriangle | IDZ2/program.asm:216-276 | For p1 sharing no coordinate with p2 or p3 and no collinear triple, yes if and only if some centre is equidistant from all four points; a yes comes with that centre, and there is no other. |
| CircleTheorem.DecideVertical | IDZ2/program.asm:216-276 | With a vertical side left over, the answer is no whatever the points. |
| CircleTheorem.DecideRow | IDZ2/program.asm:256-276 | For three different points of a slanted line, the answer is yes whatever the fourth point. |
| CircleTheorem.DecideDouble | IDZ2/program.asm:256-276 | With the second and third point equal, the answer is no. |
| PlaneGeometry.CentreUnlessRow | IDZ2/README.md:67-68 | The documentation's first two rules, on the side of the specification: three points have an equidistant centre unless they are different and collinear. |
| CircleTheorem.DoubleConcyclicIff | IDZ2/README.md:67-68 | The same rules for four points, on the side of the specification; the program's answer is compared in SolveRightIff. Four points one of which is given twice are concyclic if and only if no three different ones are collinear. |
| CircleTheorem.RectangleConcyclic | IDZ2/program.asm:148-166 | Points that pass is_triangle are concyclic. |
| CircleTheorem.DecideByDistances | IDZ2/program.asm:262-276 | Comparing any roots of the two squared distances, as the program does, gives the decision that is modelled. |
| CircleInput.HandlePermutes | IDZ2/program.asm:65-145 | data_handler leaves the first point where it is and loses none of the others. |
| CircleInput.OnVertical | IDZ2/program.asm:84-110 | With two other points on the first one's vertical, the verdict is two equal points if and only if the first is the third or fourth, or is the second and exactly two are on the vertical; otherwise three on a line. |
| CircleInput.PairComesFirst | IDZ2/program.asm:75-128 | With at most one other point on the vertical and one on the horizontal, an aligned point comes fourth and the two that are not aligned come second and third. |
| CircleInput.SolveRightIff | IDZ2/program.asm:169-308 | For every input: the program's yes or no is correct if and only if the input meets Right, a condition on the coordinates of the points as they are given. |
| CircleInput.SpecialAnswers | IDZ2/program.asm:205-214 | Which inputs are answered as a rectangle and which as repeated points, from their coordinates. |
| CircleInput.NoIff | IDZ2/program.asm:211-292 | Which inputs are answered with no, from their coordinates. |
| CircleInput.PrintedCentre | IDZ2/program.asm:256-288 | A centre that is printed is the only point equidistant from all four points, unless the two points used make a line with the first; then both its coordinates are infinite. |
| CircleTheorem.SolveSortedIff | IDZ2/program.asm:169-308 | The correctness condition in terms of the points as data_handler has arranged them. |
| CircleTheorem.SlantedLineAccepted | IDZ2/program.asm:256-276 | A concrete input with three collinear points that is accepted. |
| CircleTheorem.SquareRejected | IDZ2/program.asm:112-120 | A unit square in walking order is rejected. |
| Factorial.CheckExactIff | seminar 5/max_arg_for_fact8.asm:75-84 | For all pairs of words: the wrapped product divided by the first factor gives the second back exactly when the product fits, if and only if the pair is neither zero with anything but -1, nor -1 with the least word. |
| Factorial.CheckExact | seminar 5/max_arg_for_fact8.asm:75-84 | For a positive first factor the test is exact. |
| Factorial.MulIs | seminar 5/max_arg_for_fact8.asm:76-76 | The product is a word congruent to the true product modulo 2^32. |
| Factorial.DivIs | seminar 5/max_arg_for_fact8.asm:77-77 | The quotient truncates towards zero: what is left over is smaller than the divisor and has the dividend's sign; division by zero gives -1, and the least word divided by -1 itself. |
| Factorial.GreatestMeans | seminar 5/max_arg_for_fact8.asm:37-63 | If the factorial of n fits and the next does not, exactly the arguments up to n have fitting factorials. |
| Factorial.FactorialSearch | seminar 5/max_arg_for_fact8.asm:27-73 | The loop ends and returns 12 and its factorial; a number's factorial fits if and only if the number is at most the one returned. |
| LoggerDesk.Desk.AddLogger | idz os 4/9/server.c:30-63 | Registration on the table in place: the capacity test first, then the search, then a malformed address, then the new entry. |
| LoggerDesk.Desk.RemoveLogger | idz os 4/9/server.c:65-75 | Deactivates the entry with the address, if there is one. |
| LoggerDesk.Desk.SendToLoggers | idz os 4/9/server.c:77-88 | Deactivates exactly the active loggers that cannot be reached. |
| LoggerDesk.Desk.CheckHeartbeats | idz os 4/9/server.c:90-116 | The check in place, when it is due: expiry, failing PINGs and the new time of the check; nothing otherwise. |
| LoggerDesk.Desk.HandleLoggerCommand | idz os 4/9/server.c:118-157 | Each command's effect, by its prefix, and the two numbers of STATUS. |
| LoggerCommands.CommandIff | idz os 4/9/server.c:124-156 | Each of the four commands is recognised if and only if the text begins with its word, and a text is unknown if and only if it begins with none of the four. |
| LoggerCommands.RegisterText | idz os 4/9/server.c:124-126 | After a text that begins with REGISTER the sender is active and heard from now if there are fewer than ten entries, otherwise as before; nobody else's standing changes. |
| LoggerCommands.UnregisterText | idz os 4/9/server.c:127-129 | After a text that begins with UNREGISTER a known sender is inactive; nobody else's standing changes. |
| LoggerCommands.PongText | idz os 4/9/server.c:130-139 | After a text that begins with PONG a known sender was heard from now and is as active as before; nobody else's standing changes. |
| LoggerCommands.OtherText | idz os 4/9/server.c:140-156 | Any other text leaves the registry as it is. |
| LoggerCommands.PortIsKept | idz os 4/9/server.c:51-51 | A port is kept modulo 2^16. |
| LoggerRuns.AtMostTenAllDifferent | idz os 4/9/server.c:27-63 | In every run at most ten entries exist and no address appears twice. |
| LoggerRuns.KnownStaysKnown | idz os 4/9/server.c:30-75 | Over every continuation of every run, known addresses stay known and at their places. |
| LoggerRuns.ActiveWereHeard | idz os 4/9/server.c:90-116 | After every call of check_heartbeats each active logger was heard from at most 88 seconds ago. |
| LoggerRuns.BoundIsMet | idz os 4/9/server.c:94-114 | A run in which a logger silent for 88 seconds is still active, so the bound is the best one. |
| LoggerRuns.LoggersAreIndependent | idz os 4/9/server.c:30-157 | One logger's standing after a step depends on the others only through the registry being full. |
| LoggerRuns.AnsweringKeepsActive | idz os 4/9/server.c:90-140 | A logger that can be reached, does not leave and has answered less than a minute before each check that is due stays active over the whole run. |
| LoggerRuns.RegisterActivatesIff | idz os 4/9/server.c:30-62 | After a REGISTER the logger is active if and only if the registry was not full or it was active already. |
| LoggerRuns.FullOnlyShrinks | idz os 4/9/server.c:32-35 | Once ten entries exist no inactive logger ever becomes active again, whatever is sent. |
| LoggerRuns.StatusCounts | idz os 4/9/server.c:141-149 | The number STATUS reports is the number of active addresses. |
| HotelProof.StepKeepsInv | IDZ4/mutexes/Administration.cpp:15-44 | For mutexes of every kind, every step of every thread keeps the invariant: locks held by who is inside to the depth he locked them, queue and record in agreement; and unless the rooms' mutex is void, the rooms counted. |
| HotelProof.OneAtTheBenches | IDZ4/mutexes/Administration.cpp:24-32 | Unless the waiters' mutex is void, no two threads are between its lock and unlock, so that pushes, tests and pops do not meet. |
| HotelProof.OthersStay | IDZ4/mutexes/Client.cpp:15-56 | A step of a client or guest moves no other thread into or out of a critical section. |
| HotelProof.GuestOccupants | IDZ4/mutexes/Client.cpp:48-51 | Giving a room back lowers the number of occupied rooms by one, at the moment of writing; no other step of a stay changes it. |
| HotelProof.AdminOccupants | IDZ4/mutexes/Administration.cpp:36-38 | The administrator occupies a room exactly when he writes the lowered number back. |
| HotelProof.OccupantsWereAdmitted | IDZ4/mutexes/Administration.cpp:30-39 | There are never more occupants than admissions. |
| HotelRuns.RoomsAndOrder | IDZ4/mutexes/Administration.cpp:19-43 | At every moment of every run, over all sixteen days and for mutexes of every kind, the admitted followed by the waiting are the arrived, nobody twice. Unless the rooms' mutex is void, free rooms are not negative and make thirty with the occupied ones, although they are tested outside the lock and changed by reading and writing back. |
| HotelRuns.RoomsKeptIff | IDZ4/mutexes/Administration.cpp:36-38 | The rooms add up in all runs if and only if their mutex is not void; otherwise two clients suffice to lose an update. |
| HotelRuns.BeginsSecondDayIff | IDZ4/mutexes/Administration.cpp:19-43 | Some run begins a second day's loop if and only if locking the waiters twice does not block. |
| HotelRuns.AdmitsAfterDesertionIff | IDZ4/mutexes/Administration.cpp:24-43 | Some run admits a client after a day's loop that ended for want of clients if and only if the waiters' mutex is void, since that loop keeps the lock. |
| HotelEnd.DesertedForever | IDZ4/mutexes/Administration.cpp:24-43 | With any mutex that is not void, after a loop that ended for want of clients nobody gets onto the benches in any continuation. |
| HotelEnd.ShutForever | IDZ4/mutexes/Administration.cpp:19-43 | With a mutex that blocks when locked twice, from the second morning on nobody is admitted and nobody gets onto the benches. |
| HotelEnd.StuckIff | IDZ4/mutexes/program.cpp:76-84 | For each kind of mutex, no thread can move if and only if main has returned, or all stays are over and main still waits: for a client who cannot get to the benches after the administrator closed, or, if locking twice blocks, for the administrator at the second morning's lock. |
| HotelEnd.MainReturnsIff | IDZ4/mutexes/program.cpp:80-84 | In every reachable state main can return if and only if it has not yet, the administrator has closed and every client's thread is through, whatever the stays are doing. |
| HotelEnd.EveryRunEnds | IDZ4/mutexes/program.cpp:76-84 | A run of n clients has at most 19 n + 82 steps and ends in such a state. Unless the rooms' mutex is void, all rooms are free where main has not returned; unless either is void, clients are left on the benches only after at least thirty admissions. |
| HotelRuns.LeavesNobodyIff | IDZ4/mutexes/program.cpp:80-84 | In all runs nobody has a room when nothing moves any more, if and only if locking the waiters twice blocks: otherwise main, which waits for no stay, may return while a guest stays. |
| HotelHouse.House.MoveClient | IDZ4/mutexes/Client.cpp:15-20 | One step of a client's thread on the shared variables, for any kind of mutex. |
| HotelHouse.House.MoveGuest | IDZ4/mutexes/Client.cpp:41-56 | One step of a stay's thread on the shared variables. |
| HotelHouse.House.BeginLoop | IDZ4/mutexes/Administration.cpp:24-40 | The lock before the loop's test, at the beginning of a day and after each guest: taken, refused, counted or blocking as the mutex has it. |
| HotelHouse.House.Admit | IDZ4/mutexes/Administration.cpp:25-32 | The loop's tests and taking the first client off the queue, on the shared variables. |
| HotelHouse.House.GiveRoom | IDZ4/mutexes/Administration.cpp:36-39 | Lowering the number of free rooms under its lock and starting the stay. |
| HotelHouse.House.MoveMain | IDZ4/mutexes/program.cpp:80-84 | Main returns if and only if every client's thread and the administrator's have. |
| HotelHouse.House.Run | IDZ4/mutexes/Administration.cpp:15-44 | Any schedule of all threads, executed on the shared variables, ends where the state machine's run ends. |

## Left out

- What the C code does after writing past the printer's buffer, which C leaves undefined; the model stops there, and `FitsIff` says for which sizes it cannot happen.
- CircleTheorem.DecideTriangle: rounding is not modelled; the statement is about exact arithmetic.
- ReviewProgress.NobodyIsLockedOut: some schedule accepts the program; that a fair scheduler must is not stated, as every verdict may be a rejection forever.
- GalleryProgress.CanAlwaysFinish: likewise some continuation; which visitor is served next is up to the network.
- MessageQueueOffice: the queues and semaphores belong to the kernel; the model keeps what their calls do, with all messages of one priority.
- Start-up of the message-queue variant while programmers already run; the initialiser is taken as finished.
- Sockets, pipes, shared-memory mapping, select, fork, signals and clean-up handlers: only the effect of a send, receive, wait or post is kept.
- Timeouts, retries and the error path of the gallery client (client.c:24-29, 66-91): a retry sends ENTER again, which breaks exact counting; the results for arbitrary clients still hold.
- Parsing of gallery commands with sscanf: a message is closed, MONITOR, unparsed or a command. The status text and its scanning are modelled, but for plus signs and white space other than blanks, which no status text has.
- Failing allocations in the scanner and printer, and a text without a terminating NUL, as main may pass on (main.c:184-198).
- Durations (usleep, sleep) and probabilities: arbitrary choices.
- The choice of the best proposal and the replies to the suitors in `idz os 4/9/server.c`; a maximum over texts.
- The stack frames of the assembly routines; registers hold what the calling convention saves.
- The printing in the hotel under its output lock, and a queue damaged by a push and a pop at once, which a void mutex would let meet.
- The inputs of the hotel (check-in days, random and file generation) and the reader-writer-lock copy of it.
- Copies of the same programs in neighbouring directories: `idz os 2/6-7`, `8`, `9`; `idz os 3/8`, `9`, `10`; `idz os 1/5` to `10`.
- Monitor screen, echo servers, exercises, `seminar 5/max_arg_for_fact10.asm` and the simple array programs: input and output, or properties too easy to add anything.
