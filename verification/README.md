# Verified models of four systems-programming assignments

This project models the logic of four C programs and proves properties of it with Dafny 4.11.
`dafny verify dfyconfig.toml` checks everything.

**Movie ranking** (`Filtering`, `Titles`, `Bags`, `Ranking`, `SortLibrary`, `ThreadMerge`, `ThreadTree`,
`ProcessTree`). A request selects movies and scores them; the row is split into a fork/join tree, leaves are
selection-sorted by a library routine that also appends a secret to every title, and parents merge. Leaves compare
raw titles and merges compare marked ones. The model has the routines in place on arrays, the thread tree as a state
machine in which any thread may take the next step, and the process tree over shared pointer, text and score tables.
The main results say that every interleaving of threads and of processes leaves one and the same row, and exactly
when that is what one `sort` of the whole row would give.

**Thread library** (`Scheduler`, `SchedulerRuns`, `ThreadBodies`, `ThreadSystem`, `ThreadWaiting`). The scheduler's
pass is a method on its arrays, proved to compute a function on queue values that conserves threads and bounds
waiting. The whole program is a state machine whose environment picks signals and arrivals; each thread prints what
it would print alone, and waits no longer than a bound.

**Booking servers** (`BookingServer`, `BookingRuns`, `BookingService`, `BookingFaults`, `BookingCommand`,
`BookingLoop`). Any number of read and write servers share twenty records and the kernel's lock table (`fcntl()` of
POSIX.1-2017), interleaved at every access to either. The handlers are methods on a server's own tables, proved to be
the model's steps in sequence. A record is protected over a run exactly when the run has none of two kinds of bad
step, and there are runs that show that neither kind is harmless; over protected runs it is settled exactly when a
client is granted a record, and what each of its lines changes.

**Tournament** (`Battle`, `Bracket`, `Tournament`, `TournamentRuns`, `TournamentProgress`, `TournamentEnd`). A tree
of battle and player processes exchanges statuses over pipes; losers re-enter through FIFOs. `Bracket` gives the one
outcome that a set of players has; the process tree is proved to reach it in every interleaving, without deadlock and
within a bound.

## Where the code differs from what one would expect

- `sort` asserts that some score is non-negative, but never looks at the last entry left: it aborts exactly when two
  scores are negative (`SortLibrary.Sort`). A tree of threads aborts only if two fall into one leaf; a tree of
  processes goes on with a blank leaf instead (`ProcessTree.AnyOrder`).
- Appending the secret turns the order of two titles around when one starts the other and the rest sorts below the
  secret, which takes a byte at or below the tab (`Titles.SuffixOrder`). `Ranking.TreeRanks` says exactly which rows
  suffer from that, and `Ranking.ControlByteMisranks` gives one.
- `sort` on an empty range writes in front of it (`SortLibrary.Sort`, `ThreadMerge.Tmerge`). A request gets there
  exactly when its keyword selects nothing (`Filtering.FilteredEmpty`); the runs of both trees start from a nonempty
  row.
- The result of `F_SETLK` is ignored, so two servers may pass the test and then both go on; and a write server that
  sees end of file before an id unlocks record 0. Both are exact conditions in `BookingRuns.StepExact`, and
  `BookingFaults` shows what they lead to.
- `get3Num` looks for the sign of the last number in the third place only, so "-5" reads as 5
  (`BookingCommand.ReadsBackOne`). It touches memory out of bounds on an empty line, and on a line with a digit beyond
  the third field unless something before that digit, or a minus sign at the very end, makes it reject the line first
  (`BookingCommand.Get3Num`).
- `fibonacci` and `max_subarray` with argument 0 never exit, as `ThreadSystem.Noninterference` allows.
- AREAD hands the slot of RUNNING to the last ready thread, so two threads that keep reading can starve a ready one
  (`ThreadWaiting.TwoReadersStarve`). The program cannot get there, since main.c starts at most one reading thread
  (`ThreadWaiting.MainBoundsWaiting`).

## Model

| member | source | states |
|---|---|---|
| `Titles.StrCmpBytes` | hw4_simple-movies-recommendation-system-YuXiangLo/lib.c:77-79 | on byte values: a title comes first if and only if it is a proper beginning of the other one or has the smaller byte where they first differ |
| `Titles.SecretText` | hw4_simple-movies-recommendation-system-YuXiangLo/lib.c:34-51 | a marked title is the title followed by the nineteen characters of the text, a tab first, byte by byte |
| `Titles.SuffixOrder` | hw4_simple-movies-recommendation-system-YuXiangLo/lib.c:34-51 | for every pair of byte strings, `strcmp` of the titles with the secret has the sign of `strcmp` of the raw ones if and only if the pair is not disturbed (neither is a proper prefix of the other with a tail that sorts below the secret) |
| `Titles.SuffixTurns` | hw4_simple-movies-recommendation-system-YuXiangLo/lib.c:34-51 | a disturbed pair is exactly turned around by the secret, and stays distinct |
| `Titles.PrintableOrder` | hw4_simple-movies-recommendation-system-YuXiangLo/lib.c:34-51 | titles whose bytes all lie above the tab are never disturbed: the order of marked and of raw titles agrees |
| `Titles.ControlByteDisturbs` | hw4_simple-movies-recommendation-system-YuXiangLo/lib.c:34-51 | a concrete pair of titles, "A" and "A" followed by byte 1, that the secret does turn around |
| `SortLibrary.ArgMax` | hw4_simple-movies-recommendation-system-YuXiangLo/lib.c:68-84 | the loop returns an entry with a non-negative score that no other entry of the range precedes, ties going to the least title; its assertion fails only when all scores of the range are negative |
| `SortLibrary.PickIsNext` | hw4_simple-movies-recommendation-system-YuXiangLo/lib.c:14-24 | whatever entry no remaining one precedes is the next entry of the unique sorted order of the original row |
| `SortLibrary.PlaceKeeps` | hw4_simple-movies-recommendation-system-YuXiangLo/lib.c:20-22 | a swap and a marking extend the sorted, marked prefix by one and leave the rest a permutation of what is still to come |
| `SortLibrary.Sort` | hw4_simple-movies-recommendation-system-YuXiangLo/lib.c:10-30 | in place: the range ends as its unique sorted permutation with every title marked once, and nothing outside it changes; an empty range leads to a write in front of it; otherwise the program aborts if and only if two scores of the range are negative |
| `SortLibrary.NegativesAbort` | hw4_simple-movies-recommendation-system-YuXiangLo/lib.c:82 | the condition of the abort in numbers: two entries with scores below zero |
| `Ranking.SortedUnique` | hw4_simple-movies-recommendation-system-YuXiangLo/server.c:166-167 | the order (score descending, then `strcmp` ascending) is total: two sorted arrangements of the same entries are equal, so "the result of sorting" is one row |
| `Ranking.RankedOrder` | hw4_simple-movies-recommendation-system-YuXiangLo/server.c:166-167 | the ranking in numbers: the earlier of two entries has the higher score, or the same score and the same title or one that comes first byte by byte |
| `Ranking.MarkAllAt` | hw4_simple-movies-recommendation-system-YuXiangLo/lib.c:22 | the k-th marked entry has the k-th title with the secret behind it, and its score |
| `Ranking.MergeSorts` | hw4_simple-movies-recommendation-system-YuXiangLo/server.c:165-188 | the merge of two sorted rows is sorted |
| `Ranking.MergePermutes` | hw4_simple-movies-recommendation-system-YuXiangLo/server.c:165-188 | a merge keeps every entry as often as both sides hold it |
| `Ranking.MergeMarked` | hw4_simple-movies-recommendation-system-YuXiangLo/server.c:113-121 | merging marked rows gives the marked merge of the raw rows if and only if the ties survive: an entry turned by the secret is met only behind an equal of its partner |
| `Ranking.MergeUnmarks` | hw4_simple-movies-recommendation-system-YuXiangLo/server.c:113-121 | a merge hides no earlier mistake: if its result is sorted by raw titles, both its sides were |
| `Ranking.TreeRanks` | hw4_simple-movies-recommendation-system-YuXiangLo/server.c:146-196 | for every row, leaf threshold and heap-number cutoff, the merge tree gives the row that one `sort` of the whole range gives if and only if ties survive at every split, a condition on the input row |
| `Ranking.SourceLeaves` | hw4_simple-movies-recommendation-system-YuXiangLo/server.c:148 | the source's tree is one leaf if and only if the range has at most 1000 entries, never has more than eight leaves, and has just eight from 4004 entries on |
| `Ranking.PrintableSurvives` | hw4_simple-movies-recommendation-system-YuXiangLo/server.c:146-196 | printable titles meet that condition at every split of every tree |
| `Ranking.ControlByteMisranks` | hw4_simple-movies-recommendation-system-YuXiangLo/server.c:146-196 | and a control byte breaks it under the source's own threshold and cutoff: 500 entries "A" and 501 entries "A" with byte 1, of one score, come out in the wrong order |
| `Ranking.TreePermutes` | hw4_simple-movies-recommendation-system-YuXiangLo/server.c:148-150 | every entry comes out once and with the secret once, whether or not ties survive |
| `ThreadMerge.MergeRange` | hw4_simple-movies-recommendation-system-YuXiangLo/server.c:162-194 | the merge loops over temporaries and the write-back leave in the range exactly the merge of its two halves, and change nothing else |
| `ThreadMerge.MergeWhileBothLast` | hw4_simple-movies-recommendation-system-YuXiangLo/server.c:165-180 | the comparing loop, which stops as soon as one side is used up, has then merged everything but the rest of the other side |
| `ThreadMerge.Tmerge` | hw4_simple-movies-recommendation-system-YuXiangLo/server.c:146-196 | in place, children one after the other: the range ends as the tree's result and nothing outside changes; the program survives if and only if no leaf holds two negative scores; the empty range, and no other, makes it write out of bounds |
| `ThreadMerge.WholeCompletes` | hw4_simple-movies-recommendation-system-YuXiangLo/server.c:148-150 | wherever one `sort` of the whole row would not abort, no tree over it aborts |
| `ThreadTree.NextKeeps` | hw4_simple-movies-recommendation-system-YuXiangLo/server.c:146-196 | every step of any thread of the tree keeps what every node relies on: leaves sort their own range, parents start after both joins, halves never overlap |
| `ThreadTree.NeverStuck` | hw4_simple-movies-recommendation-system-YuXiangLo/server.c:158-161 | an unfinished tree can always move, unless a leaf is about to fail its assertion |
| `ThreadTree.ChildMoves` | hw4_simple-movies-recommendation-system-YuXiangLo/server.c:158-161 | what either child thread can do the tree can do, whatever the other child does: the two run side by side |
| `ThreadTree.AnyInterleaving` | hw4_simple-movies-recommendation-system-YuXiangLo/server.c:146-196 | every finished run of the threads, in any interleaving of the turns of their loops, leaves the same row: each entry once, marked once, equal to one `sort` of the whole row if and only if ties survive every split; and all finished runs take equally many steps |
| `ThreadTree.RunsGoOn` | hw4_simple-movies-recommendation-system-YuXiangLo/server.c:158-161 | if no leaf holds two negative scores no run aborts or gets stuck, and no run at all exceeds a bound known at the start |
| `ProcessTree.NextKeeps` | hw4_simple-movies-recommendation-system-YuXiangLo/server.c:94-144 | every step of any process keeps its node's invariant and touches only its own range of pointers, buffers and scores, so `strcpy` writes of different leaves never overlap |
| `ProcessTree.AnyOrder` | hw4_simple-movies-recommendation-system-YuXiangLo/server.c:94-144 | in every order of the forked processes, the pointer table ends as a permutation of the original buffers, and what is read through it is the threads' result if and only if no leaf met two negative scores |
| `ProcessTree.MappedReads` | hw4_simple-movies-recommendation-system-YuXiangLo/server.c:206-208 | before the first store every position leads to a buffer of its own that reads as an empty text, with score 0 |
| `ProcessTree.ChildMoves` | hw4_simple-movies-recommendation-system-YuXiangLo/server.c:103-109 | what either child can do its parent's tree can do, whatever the other child does |
| `ProcessTree.OutcomeExact` | hw4_simple-movies-recommendation-system-YuXiangLo/server.c:94-102 | a leaf process that aborts leaves blanks that every merge above passes on, so the outcomes differ whenever that happens |
| `ProcessTree.OrdersEnd` | hw4_simple-movies-recommendation-system-YuXiangLo/server.c:103-109 | no order of process steps is endless and none gets stuck in `wait` |
| `ProcessTree.ThreadsAndProcessesAgree` | hw4_simple-movies-recommendation-system-YuXiangLo/server.c:94-196 | a finished run of the threads and one of the processes on the same row leave the same ranking |
| `Filtering.Filter` | hw4_simple-movies-recommendation-system-YuXiangLo/server.c:198-210 | the loops fill the arrays with exactly the wanted titles, in order, each with the sum of the products of both profiles, and leave the other scores zero |
| `Filtering.FilteredExact` | hw4_simple-movies-recommendation-system-YuXiangLo/server.c:199-205 | an entry is in the row if and only if it is the scored form of a movie that the keyword selects |
| `Filtering.WantedExact` | hw4_simple-movies-recommendation-system-YuXiangLo/server.c:200 | a keyword that starts with a star selects every title, any other just those it is a part of |
| `Filtering.DotSymmetric` | hw4_simple-movies-recommendation-system-YuXiangLo/server.c:203 | the score is the same with the two profiles exchanged |
| `Filtering.DotLinear` | hw4_simple-movies-recommendation-system-YuXiangLo/server.c:203 | the score is linear in the request's weights |
| `Filtering.FilteredOneGenre` | hw4_simple-movies-recommendation-system-YuXiangLo/server.c:202-203 | for a request that weights one genre the row gives each selected movie its own weight for that genre as the score |
| `Filtering.FilteredInOrder` | hw4_simple-movies-recommendation-system-YuXiangLo/server.c:199-205 | each movie gives at most one entry, and the entries keep the order of the movies |
| `Filtering.FilteredEmpty` | hw4_simple-movies-recommendation-system-YuXiangLo/server.c:199-205 | the row is empty, which the later `sort` is not made for, if and only if the keyword selects no title |
| `Filtering.FilteredSorts` | hw4_simple-movies-recommendation-system-YuXiangLo/server.c:203 | with non-negative weights no `sort`, of the whole row or of any leaf, aborts |
| `Filtering.RequestRanked` | hw4_simple-movies-recommendation-system-YuXiangLo/server.c:61-70 | for printable titles, non-negative weights and a keyword that selects something: no run aborts, and every finished one leaves the selected movies by score and then title, each marked once |
| `Scheduler.Threads.ThreadSetup` | hw3_thread-library-YuXiangLo/threadtools.h:57-68 | a new thread goes to the end of the ready queue; slots past the sizes stay NULL |
| `Scheduler.Threads.ShiftOut` | hw3_thread-library-YuXiangLo/scheduler.c:37-39 | the inner loop removes exactly entry i and keeps the order of the others |
| `Scheduler.Threads.Wake` | hw3_thread-library-YuXiangLo/scheduler.c:33-41 | the in-place poll loop (append, shift left, step back) ends and is a stable partition: the woken threads follow the ready ones in order, the others stay in order |
| `Scheduler.Threads.Schedule` | hw3_thread-library-YuXiangLo/scheduler.c:24-81 | one pass over the arrays computes the specified pass over queue values and never overruns THREAD_MAX; it returns if and only if no thread is left, resumes RUNNING if and only if that is a ready thread, and otherwise jumps through NULL |
| `Scheduler.PartsInOrder` | hw3_thread-library-YuXiangLo/scheduler.c:34-41 | a poll sends each waiting thread to exactly one side and keeps the order on both |
| `Scheduler.SwitchPlaces` | hw3_thread-library-YuXiangLo/scheduler.c:43-62 | slot by slot: YIELD goes round; AREAD and EXIT let the last ready thread fill the slot of RUNNING and move no other; AREAD alone adds to the waiting threads, at the end |
| `Scheduler.PollComesFirst` | hw3_thread-library-YuXiangLo/scheduler.c:32-51 | the poll comes before the switch: a thread that has just asked to read is not woken in the same pass while another is ready |
| `SchedulerRuns.PassConserves` | hw3_thread-library-YuXiangLo/scheduler.c:33-62 | a pass keeps every live thread exactly as often as before, except that EXIT drops RUNNING once; and the current index stays in range |
| `SchedulerRuns.ReturnsWhenDone` | hw3_thread-library-YuXiangLo/scheduler.c:63-64 | given that the blocking `select` delivers, `scheduler` returns if and only if no thread is left |
| `SchedulerRuns.PassApproaches` | hw3_thread-library-YuXiangLo/scheduler.c:43-62 | a ready thread that is not RUNNING stays ready; AREAD and EXIT never take it further from RUNNING, YIELD brings it nearer |
| `SchedulerRuns.BoundedWaiting` | hw3_thread-library-YuXiangLo/scheduler.c:33-62 | a ready thread is resumed within as many YIELDs as its distance, at most one less than the live threads, however many AREADs, EXITs and wake-ups happen in between |
| `ThreadWaiting.YieldsBoundWaiting` | hw3_thread-library-YuXiangLo/scheduler.c:33-62 | from every reachable state of every program: by the time as many YIELDs have happened as there are threads, less one, every ready thread has been RUNNING |
| `ThreadWaiting.JumpsBoundWaiting` | hw3_thread-library-YuXiangLo/scheduler.c:43-62 | with at most one reading thread, four jumps per thread, of whatever kind, suffice, because between two AREADs of one thread another must YIELD or EXIT |
| `ThreadWaiting.MainBoundsWaiting` | hw3_thread-library-YuXiangLo/main.c:49-56 | so in the program as `init_threads` sets it up every ready thread is RUNNING within twelve jumps |
| `ThreadWaiting.InitThreadsExact` | hw3_thread-library-YuXiangLo/main.c:49-56 | at most three threads are started, Fibonacci before Collatz before the reader, each just when its argument is not negative |
| `ThreadWaiting.TwoReadersStarve` | hw3_thread-library-YuXiangLo/scheduler.c:47-52 | with two reading threads there is no bound without YIELDs: for every n a run of the program has n jumps in which a ready thread is never RUNNING |
| `ThreadBodies.Tcb.FibonacciTurn` | hw3_thread-library-YuXiangLo/threads.c:3-24 | one turn of the loop on the control block, from resume point to checkpoint, is the specified turn |
| `ThreadBodies.Tcb.CollatzTurn` | hw3_thread-library-YuXiangLo/threads.c:26-43 | the same for the Collatz loop |
| `ThreadBodies.Tcb.MaxSubarrayTurn` | hw3_thread-library-YuXiangLo/threads.c:45-61 | the same for the maximum-subarray loop, cut in two at `async_read` |
| `ThreadBodies.FibonacciNumbers` | hw3_thread-library-YuXiangLo/threads.c:6-13 | the numbers printed by the first thread are 1, 1, and from then on the sum of the two before |
| `ThreadBodies.CollatzSteps` | hw3_thread-library-YuXiangLo/threads.c:29-34 | of the iterates an even one is followed by its half and an odd one 2m + 1 by 6m + 4 |
| `ThreadBodies.SumParts` | hw3_thread-library-YuXiangLo/threads.c:50-52 | the sums of the third thread are those of their parts, a single number being its own sum |
| `ThreadBodies.FibonacciTurnFaithful` | hw3_thread-library-YuXiangLo/threads.c:5-22 | after any number of turns the printed numbers are the first Fibonacci numbers, and the thread has exited exactly when its argument (at least 1) is reached |
| `ThreadBodies.CollatzTurnFaithful` | hw3_thread-library-YuXiangLo/threads.c:29-42 | the printed numbers are the Collatz iterates, and the thread has exited exactly at the first 1 |
| `ThreadBodies.EndingGrows` | hw3_thread-library-YuXiangLo/threads.c:51 | `y` stays the largest sum of a nonempty part that reaches the end of what was read |
| `ThreadBodies.PartGrows` | hw3_thread-library-YuXiangLo/threads.c:52 | `x` stays the largest sum of any contiguous part of what was read, the empty one included |
| `ThreadBodies.MaxSubarrayTurnFaithful` | hw3_thread-library-YuXiangLo/threads.c:48-60 | each printed number is the best contiguous sum of what had been read, across any number of switches |
| `ThreadSystem.CreatedSound` | hw3_thread-library-YuXiangLo/main.c:49-56 | the state after all `thread_setup` calls meets the invariant of the whole program |
| `ThreadSystem.JumpAccounts` | hw3_thread-library-YuXiangLo/scheduler.c:24-81 | a jump into `scheduler` leaves the two queues holding exactly the threads that have not exited, each once |
| `ThreadSystem.JumpFeeds` | hw3_thread-library-YuXiangLo/threadtools.h:85-90 | after a jump every thread that is ready inside `async_read` has something to read |
| `ThreadSystem.StepKeeps` | hw3_thread-library-YuXiangLo/scheduler.c:24-81 | every turn, arrival and wake-up keeps the invariant of the whole program |
| `ThreadSystem.PassOfSystem` | hw3_thread-library-YuXiangLo/scheduler.c:63-80 | the jump and the blocking `select` of the whole-program model are together one pass of the scheduler routine |
| `ThreadSystem.Noninterference` | hw3_thread-library-YuXiangLo/threads.c:3-61 | under every schedule of signals and arrivals, each thread prints what it prints alone on the same input, as far as it has got, and it has exited exactly when that is complete |
| `ThreadSystem.RunningIsFit` | hw3_thread-library-YuXiangLo/scheduler.c:80 | in every reachable state RUNNING is a thread that has not been freed and has data if it is about to read; and the program has ended if and only if all threads have exited |
| `ThreadSystem.EnvironmentIsFree` | hw3_thread-library-YuXiangLo/threadtools.h:85-90 | a number can arrive at any time for any thread that has not exited, and a blocked program goes on if and only if a waiting thread has something to read |
| `BookingRuns.ConflictExact` | hw1_csiebooking-YuXiangLo/server.c:86-98 | the test for a lock is exact: it reports a record busy if and only if granting the lock would put two incompatible ones on it |
| `BookingRuns.GrantKeepsCompatible` | hw1_csiebooking-YuXiangLo/server.c:75-84 | a lock set after such a test leaves the locks on every record compatible |
| `BookingLoop.Server.NewConnection` | hw1_csiebooking-YuXiangLo/server.c:216-220 | a new connection starts in READ_ID and changes nothing else |
| `BookingLoop.Server.HandleEof` | hw1_csiebooking-YuXiangLo/server.c:231-241 | the end-of-file handler on the server's own tables does what the interleaved model's step does |
| `BookingLoop.Server.HandleId` | hw1_csiebooking-YuXiangLo/server.c:243-294 | the id handler (length and range check, test, lock, count, show) is the composition of the model's three steps |
| `BookingLoop.Server.HandleReaderLine` | hw1_csiebooking-YuXiangLo/server.c:295-298 | the read server leaves on Exit only, releasing the lock with its last session |
| `BookingLoop.Server.HandleBooking` | hw1_csiebooking-YuXiangLo/server.c:300-342 | the booking handler (parse, read, check, store, release) is the composition of the model's steps, and is undefined if and only if parsing the line goes out of bounds |
| `BookingLoop.OrderOf` | hw1_csiebooking-YuXiangLo/server.c:313-315 | the first number of a line goes to food, the second to concerts, the third to electronics |
| `BookingLoop.Server.Update` | hw1_csiebooking-YuXiangLo/server.c:309-329 | the record becomes the sum if the total is at most 15 and no count is negative, and is otherwise untouched |
| `BookingRuns.StepFootprint` | hw1_csiebooking-YuXiangLo/server.c:231-341 | a step changes no lock of another process, and changes a record only under its own exclusive lock |
| `BookingRuns.StepExact` | hw1_csiebooking-YuXiangLo/server.c:231-341 | from a state in which a record is in order (`vis`, `readCnt`, kernel locks, sessions and file agree), the next state is in order if and only if the step is neither a failing `F_SETLK` nor an early end of file on record 0 in use |
| `BookingRuns.RunExact` | hw1_csiebooking-YuXiangLo/server.c:231-341 | over every interleaving of any number of read and write servers, a record is in order throughout if and only if the run contains no such step for it |
| `BookingRuns.Exclusion` | hw1_csiebooking-YuXiangLo/server.c:260-294 | after any run without such a step: a writer's session excludes every other session of its record in all processes, and every session's process holds the lock it wants |
| `BookingRuns.NoLostUpdate` | hw1_csiebooking-YuXiangLo/server.c:285-329 | after any run without such a step: the record is its initial value plus all stored commands, each session still sees what it was shown, and a pending command was computed from the current record |
| `BookingRuns.LockRightAfterTest` | hw1_csiebooking-YuXiangLo/server.c:261-286 | when nothing comes between test and lock, the lock cannot fail |
| `BookingRuns.UninterruptedProtects` | hw1_csiebooking-YuXiangLo/server.c:260-294 | when no other event comes between a successful test and its lock, every run is free of bad steps for records 1 to 19, and for record 0 if every client of a write server gives an id before it leaves |
| `BookingRuns.ExclusionUninterrupted` | hw1_csiebooking-YuXiangLo/server.c:231-341 | over all such runs, for any number of servers: a writer's session excludes all others, the record is in order in every state, and it is its initial value plus the stored commands |
| `BookingRuns.BoundsHold` | hw1_csiebooking-YuXiangLo/server.c:313-329 | over every run, bad steps included, all counts stay at least 0 and each record's total at most 15 |
| `BookingRuns.ProcessesStayWellFormed` | hw1_csiebooking-YuXiangLo/server.c:194-345 | over every run each process stays well formed, so the model's condition for an event never keeps back one that the event loop would handle |
| `BookingService.GrantedOnRuns` | hw1_csiebooking-YuXiangLo/server.c:251-286 | over every run that is good for a record, with no process between lock and show: the id of the record is granted by a read server if and only if no write server serves or is about to release it, and by a write server if and only if no server does |
| `BookingService.RefusalCloses` | hw1_csiebooking-YuXiangLo/server.c:245-257 | an id line goes on to the lock only with six characters that make a number from 902001 to 902020; otherwise it closes its connection and changes nothing else |
| `BookingService.GrantServes` | hw1_csiebooking-YuXiangLo/server.c:268-294 | what was granted is served with the record as it is in the file |
| `BookingService.ReaderLine` | hw1_csiebooking-YuXiangLo/server.c:297-337 | a reader leaves on Exit, and the lock stays just while others of its server read the record; any other line changes nothing |
| `BookingService.WriterLine` | hw1_csiebooking-YuXiangLo/server.c:301-341 | a writer's line ends its session and gives the record back; an order changes the record, and no other, to the three sums if none is negative and their total is at most 15 |
| `BookingService.EofCloses` | hw1_csiebooking-YuXiangLo/server.c:231-240 | end of file closes the connection in every state and stores nothing |
| `BookingFaults.BothServed` | hw1_csiebooking-YuXiangLo/server.c:279-286 | a run in which two write servers serve the same record at once, because both tests come before both locks |
| `BookingFaults.RaceLosesUpdate` | hw1_csiebooking-YuXiangLo/server.c:279-329 | and its continuation for all acceptable commands: both are stored, the file shows only the second |
| `BookingFaults.EarlyEofFreesRecordZero` | hw1_csiebooking-YuXiangLo/server.c:236-237 | a run in which a client that leaves before giving an id frees record 0 while it is being served, so that another server is granted it |
| `BookingCommand.Get3Num` | hw1_csiebooking-YuXiangLo/server.c:100-120 | a line is accepted if and only if its fields are well formed and nothing follows the third; the numbers are then those of the fields, but for the sign of a last field that is not the third; memory out of bounds is touched if and only if the line is empty, or does not end in a minus sign and has a digit beyond the third field that comes before everything the loop rejects |
| `BookingCommand.FourNumbersStray` | hw1_csiebooking-YuXiangLo/server.c:112-114 | any four one-digit numbers, such as "1 2 3 4", make it write behind `opr` |
| `BookingCommand.ReadableExact` | hw1_csiebooking-YuXiangLo/server.c:105-117 | the grammar character by character: digits and minus signs with at most two spaces before them, and a minus sign at the start of a field with a digit after it |
| `BookingCommand.DigitValues` | hw1_csiebooking-YuXiangLo/server.c:112-114 | the digits are the ten decimal ones, with their values |
| `BookingCommand.ReadsBack` | hw1_csiebooking-YuXiangLo/server.c:100-120 | for all integers a, b, c: reading "a b c" gives exactly a, b and c |
| `BookingCommand.ReadsBackOne` | hw1_csiebooking-YuXiangLo/server.c:118 | on a line with one number, reading gives it back if and only if it is not negative |
| `BookingCommand.ReadsBackTwo` | hw1_csiebooking-YuXiangLo/server.c:118 | on a line with two numbers, reading gives both back if and only if the second is not negative, and 0 for the third |
| `Battle.Fight` | hw2_pvp-championship-YuXiangLo/battle.c:54-82 | the in-place round on the two entries, with its four early returns, is the specified round, and `remain` is written only when somebody falls |
| `Battle.RoundBlows` | hw2_pvp-championship-YuXiangLo/battle.c:54-82 | a round in hit points: a blow takes the attack value, or twice that on the striker's own field; fewer points, then the lower id, strike first; the other side strikes back if it still stands; nothing else changes but flag and battle |
| `Battle.RoundStep` | hw2_pvp-championship-YuXiangLo/battle.c:110-121 | the whole fight is its first round if that decides it, and else the fight of what the round leaves |
| `Battle.SampleBattle` | hw2_pvp-championship-YuXiangLo/battle.c:54-82 | players 0 and 1 of the sample status file: player 0 wins with 4 of 7 points and goes on with 5 |
| `Battle.BattleLoop` | hw2_pvp-championship-YuXiangLo/battle.c:110-121 | the loop ends for all positive attack values and leaves the two statuses and the winner's side of the whole fight |
| `Battle.BattleEnds` | hw2_pvp-championship-YuXiangLo/battle.c:54-82 | a fight ends with exactly one side at or below 0; `remain` names the other, whose points have not grown; both carry the flag and the battle |
| `Battle.BattleSymmetric` | hw2_pvp-championship-YuXiangLo/battle.c:55 | with different ids the outcome does not depend on who sits left and who right |
| `Battle.EqualIdsFavourRight` | hw2_pvp-championship-YuXiangLo/battle.c:55 | why different ids are asked for: two equal ones, which never meet in a tournament, would give the right-hand side the tie that the first blow decides |
| `Battle.RecoveryReadies` | hw2_pvp-championship-YuXiangLo/player.c:68-76 | after half recovery, or a re-entry with the original points, a player enters its next battle with points above 0 and at most the original ones |
| `Battle.RecoveredHalf` | hw2_pvp-championship-YuXiangLo/player.c:69-70 | after a victory half of the lost points come back, rounded down, and nothing else changes but the flag |
| `Bracket.SlotsAndOrigins` | hw2_pvp-championship-YuXiangLo/player.c:15 | slots 8 to 14 and the upper battles correspond one to one through `lose`, and its filler entries belong to no upper battle |
| `Bracket.BattleParents` | hw2_pvp-championship-YuXiangLo/battle.c:14-16 | the tables `left` and `right` are inverse to `papa` of battle.c: the winner of each battle goes to the one it names |
| `Bracket.PlayerParents` | hw2_pvp-championship-YuXiangLo/player.c:16 | and to `papa` of player.c for the fifteen player processes |
| `Bracket.Seats` | hw2_pvp-championship-YuXiangLo/battle.c:14-15 | of two battles or two players the lower one sits left, and a battle left of a player |
| `Bracket.Tables` | hw2_pvp-championship-YuXiangLo/battle.c:17 | the field of every battle as in `ATTR`, the re-entries as in `lose`, and only battles of the upper bracket have one |
| `Bracket.EntersWith` | hw2_pvp-championship-YuXiangLo/player.c:41-77 | with what a side enters: as in the status file, with the first points again after a first loss, or with half of what it has lost so far after a victory |
| `Bracket.EntersAsItself` | hw2_pvp-championship-YuXiangLo/player.c:68-76 | in every battle each player fights with its own attack value and attribute |
| `Bracket.TournamentLosses` | hw2_pvp-championship-YuXiangLo/battle.c:14-15 | for all players: everyone loses exactly twice, less one for the winner of battle B and less one for the champion, and nobody ever meets itself |
| `TournamentRuns.PlayerKeeps` | hw2_pvp-championship-YuXiangLo/player.c:62-83 | every move of a player keeps what its battle relies on; a first loser goes to the re-entry of the battle it lost, with the status the bracket gives that re-entry |
| `Tournament.PlayerAnswers` | hw2_pvp-championship-YuXiangLo/player.c:63-83 | what a player does with each kind of message: send back, recover and go on, exit after the final, re-enter with its first points, or exit |
| `TournamentRuns.FightRound` | hw2_pvp-championship-YuXiangLo/battle.c:110-121 | a round on the two messages read keeps the contest the bracket prescribes, or settles it with the bracket's result |
| `TournamentRuns.RelaysUp` | hw2_pvp-championship-YuXiangLo/battle.c:131-134 | a relay passes on upwards exactly what its winner offers |
| `TournamentRuns.RelaysDown` | hw2_pvp-championship-YuXiangLo/battle.c:135-143 | a relay passes the parent's message down unchanged and stops exactly at a message after which nothing comes back |
| `TournamentRuns.NodeKeeps` | hw2_pvp-championship-YuXiangLo/battle.c:84-148 | every step of any process, in any interleaving, keeps the whole subtree in order: each message is the one the bracket prescribes, each pipe holds at most one, and nobody waits for a process that is gone |
| `TournamentProgress.NodeBalanced` | hw2_pvp-championship-YuXiangLo/player.c:74-83 | every step leaves unchanged how many losers are owed to a re-entry and how many wait for one, except for the one that is sent or received |
| `TournamentProgress.PushMeetsPull` | hw2_pvp-championship-YuXiangLo/player.c:52-54 | a loser at its FIFO always finds the matching re-entry waiting, on the other side of the final |
| `TournamentProgress.NeverStuck` | hw2_pvp-championship-YuXiangLo/battle.c:84-148 | until the final's process has exited, some process can always move: no deadlock among pipes, FIFOs and `wait` |
| `TournamentProgress.StepKeeps` | hw2_pvp-championship-YuXiangLo/battle.c:84-148 | every step of the whole system keeps the invariant, and every waiting re-entry is owed exactly one loser |
| `TournamentProgress.AllServed` | hw2_pvp-championship-YuXiangLo/player.c:52-54 | when the final's process has exited, no re-entry waits any more and no loser is on its way |
| `TournamentEnd.LaunchSystem` | hw2_pvp-championship-YuXiangLo/battle.c:91-102 | the tree of processes as started meets the invariant: one loser is owed to each of the seven re-entries, each of which waits for one |
| `TournamentEnd.StepCheaper` | hw2_pvp-championship-YuXiangLo/battle.c:110-144 | every step lowers a measure on the whole system |
| `TournamentEnd.EveryRunEnds` | hw2_pvp-championship-YuXiangLo/battle.c:84-148 | for all players and every interleaving: no run is longer than a bound fixed at the start, an unfinished one can go on, the champion that the final prints is the bracket's, and in the end each re-entry has received the one loser it was owed |
| `TournamentEnd.TournamentFinishes` | hw2_pvp-championship-YuXiangLo/battle.c:84-148 | whatever has happened so far, the run can be continued until the final's process has exited |

## Left out

- Integer overflow: points, counts, indices and Fibonacci numbers are unbounded.
- Floating point: scores are reals, so rounding, NaN and infinities are not modelled; nor are reading, `strtod` and the normalisation of profiles.
- `malloc`, `mmap`, `fork` and `pthread_create` never fail; freeing is modelled only for control blocks; titles and lines have no maximal length.
- Several requests at once: their rows are disjoint, and one request's row is modelled. `size <= num_of_movies` in `validate` always holds there.
- `usleep` in `sort`, and the output files: each forked process that returns into `main` writes the process version's output file, the root last.
- In the process tree both children appear in one step, and a process sorts its private copy in one step; all uses of shared memory are single steps. A failed assertion in the root itself, which ends the program without output, appears as a finished run with a blank row.
- ProcessTree.NextKeeps: the loops of `Pmerge` are steps of a state machine and not a method on arrays; the same merge loops are methods in `ThreadMerge`.
- ThreadTree.AnyInterleaving: a step is one turn of a loop (a comparison in `argmax`, a swap, a marking, one merged or copied entry), not a single memory access; no two threads ever work on one entry at the same time.
- Battle.BattleLoop: takes players that send every undecided status back unchanged; that they do is part of `TournamentRuns.NodeKeeps`.
- Signal masks and saved environments: a turn ends with YIELD, AREAD, EXIT or goes on; `alarm`, `sleep` and the printed message texts have no state.
- Scheduler.Threads.Schedule: what the two `select` calls report is a parameter. That the blocking one wakes somebody is assumed in `SchedulerRuns.ReturnsWhenDone` and in the whole-program model.
- ThreadSystem.Noninterference: one `async_read` takes one number; splitting and padding five bytes and `atoi` are not modelled.
- Termination of the Collatz iteration.
- Sockets, telnet framing, `select` in the booking server, and message texts: an event is a connection, an id line, a command line or an end of file. The id line is its length and its `atoi` value.
- BookingLoop.Server.HandleId: runs without interruption; the interleavings inside it are those of `BookingRuns`.
- `BookingLoop.Kernel` is the assumed kernel: its methods specify `F_GETLK`, `F_SETLK` and `F_UNLCK` and are no results.
- Accept errors, a second connection on a live descriptor, and servers that stop while others run.
- The tournament's processes all exist from the start; opening and transferring through a FIFO is one step, and so are the two writes after a round and a relay's read and write. Logs are left out.
- Starting statuses: points and attack above 0 and the flag down, as the status file is meant to hold them.
