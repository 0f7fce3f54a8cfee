# A model of Cetus in Dafny

This project models six parts of Cetus, a MySQL proxy, and proves what each of them is for. `dafny verify dfyconfig.toml`
checks all of it.

| files | part of Cetus |
|---|---|
| `Wakeup.dfy` | the wake-up protocol of its event loop: async sends and signals against a loop about to sleep, one shared access at a time |
| `Watchers.dfy`, `Timers.dfy`, `Pending.dfy`, `Periodics.dfy` | the 4-ary heap of time watchers with its back-pointers, timers and their expiry, pending events by priority, periodic watchers after a clock jump |
| `Fds.dfy` | descriptor watchers and the poll table that follows them lazily |
| `JsonText.dfy`, `JsonStrings.dfy`, `JsonParse.dfy`, `JsonReader.dfy`, `JsonPlain.dfy`, `JsonBuffer.dfy`, `JsonMinify.dfy`, `JsonSyntax.dfy`, `Bits.dfy` | the JSON printer with and without a buffer, the parser, the minifier, both against the grammar of RFC 8259, and the arithmetic of bit operations they rest on |
| `Users.dfy` | saving and loading the users file |
| `RingBuffer.dfy` | the ring buffer between the SQL log's writer and its flusher |
| `Dispatcher.dfy`, `ReverseReader.dfy` | the binlog replay dispatcher with its XA sessions, and the reader of log lines from the end |
| `Where.dfy` | re-printing a rewritten WHERE tree |
| `Guid.dfy` | the generator of global ids |

How the model stands to the code:

- What the code updates in place is a class with the same fields, or an array; its methods are proved against functions and
  predicates on values, and the properties are proved about those. Threads are modelled as state machines whose steps are single
  shared accesses, taken in sequentially consistent order.
- C integers are unbounded where the code keeps them small; the counters of the ring buffer and the words of the id generator wrap
  explicitly. Bit operations are defined bit by bit on natural numbers in `Bits.dfy`.
- Times are exact real numbers. Allocation succeeds. C strings hold no NUL.
- The printers' text is defined in front of whatever follows it (`ValueThen(t, depth, fmt, rest)`), which makes the induction over
  nested values direct; `Print` is the case of nothing following.

Six properties turned out to need a condition, which is stated exactly:

- A periodic watcher with an interval below `MIN_INTERVAL` may miss a point of its grid (`Periodics.SmallIntervalMissesTick`); the
  computed time is right if and only if the base of the computation is on the watcher's own grid (`Periodics.RecalculatedIsNext`).
- `rfifo_write` takes the smaller of the message length and the free space with a macro that evaluates the free space twice. A flush
  in between can make the second value exceed the message (`RingBuffer.SecondReadingCanGrow`). A call stores a prefix of its message
  in every order of the two threads if and only if, when it is made, the message is shorter than the free space or not shorter than
  the buffer (`RingBuffer.AcceptsPrefixes`). That the file followed by the buffer is what was stored holds in every run.
- Ids increase if and only if no millisecond sees more calls than the sequence number can count (`Guid.IncreasingIffNoOverflow`,
  with a failing run in `Guid.OneTooMany`).
- An XA COMMIT runs on the session that was given its PREPARE, but that session need not have executed the PREPARE's statements:
  `after_execute` does not look at how the job ended, so a prepare on which a statement failed is taken for prepared, and its commit
  can still be dispatched (`Dispatcher.FailedPrepareIsCommitted`, a run for every such pair in two binlog files). The session has
  executed every statement of the prepare if and only if none of them failed (`Dispatcher.CommitFollowsPrepare`), which is so in
  every run without a failing statement (`Dispatcher.NothingFails`).
- Re-printing a WHERE tree does not keep the meaning of every operand. A unary minus or plus is printed with the number of its own
  node, which the parser leaves 0, so `a = -3` is printed as `a = -0` (`Where.NegativeIsLost`), and of a column name with three parts
  only the first and a period are printed. An operand is printed as what it stands for if and only if a sign node carries the number of what is
  under it and a qualified name has two parts (`Where.ShownIsValue`); a predicate keeps its meaning if and only if its operands do
  (`Where.PredicateKeptIff`), and then so does every tree of such predicates (`Where.PrintedMeansTree`). What the printed text means
  in every case is `Where.PrintedMeansShown`.
- `roundup_pow_of_two` ends if and only if its argument is at most 2^31 (`RingBuffer.RoundupEnds`).

## Model

| member | source | states |
|---|---|---|
| `Wakeup.StepKeepsInvariant` | libev/ev.c:2379-2475 | Every single shared access of a sender (async send or signal) and of the loop, the scan's test and clearing of a mark being two, keeps: each raised flag is covered by a readable pipe, by a skipped write, by a sender still on its way, or by a loop that has not yet looked; each mark is covered by its channel flag, by its sender or by the running scan. |
| `Wakeup.RunKeepsInvariant` | libev/ev.c:3541-3603 | The same over every run, for any number of senders interleaved step by step with the loop, with watchers starting and stopping in between. |
| `Wakeup.NoLostWakeup` | libev/ev.c:3541-3603 | Whenever the loop may be blocked in the backend and every sender has returned, a mark on a signal or an active async watcher implies that the wake pipe is readable. |
| `Wakeup.EveryMarkIsDelivered` | libev/ev.c:3541-3603 | From every reachable state in which every sender has returned, wherever the loop is and whether or not it may block at each step: within a number of steps given by the state every mark that matters is fed and cleared, and until then the loop never sleeps on an empty pipe. |
| `Wakeup.NothingSpurious` | libev/ev.c:2446-2474 | In every run a source is fed at most as often as it was announced, and only while it is marked, which clears the mark. |
| `Wakeup.EveryAnnouncementIsDelivered` | libev/ev.c:2379-2475 | In every run, once every sender has returned, each announcement of a source that matters and whose watcher was not started anew since has been fed, or is fed by the loop alone within a number of steps given by the state. |
| `Wakeup.LoopComesToRest` | libev/ev.c:2422-2475 | From every reachable state in which every sender has returned the loop alone empties the pipe and falls asleep within a number of steps given by the state, and then nothing that matters is marked. |
| `Wakeup.StopRemovesOne` | libev/ev.c:4822-4840 | Moving the last watcher into the slot of a stopped one leaves all other active watchers. |
| `TimeHeap.UpHeap` | libev/ev.c:2273-2292 | Raises one element into place: a valid prefix of the heap grows by that element, and `active` equals the slot for every watcher. |
| `TimeHeap.DownHeap` | libev/ev.c:2193-2235 | Sinks one element: a heap ordered except at one slot becomes a valid heap of the same watchers. |
| `TimeHeap.AdjustHeap` | libev/ev.c:2295-2301 | From a single changed slot, in either direction, the whole heap is valid again: ordered, indexed, of the same watchers. |
| `TimeHeap.ReHeap` | libev/ev.c:2305-2313 | Turns any indexed array into a valid heap of the same watchers. |
| `TimeHeap.RootIsMinimum` | libev/ev.c:3036-3050 | In a valid heap the root is due no later than any watcher of the set it holds. |
| `TimeHeap.Insert` | libev/ev.c:3828-3832 | Appending and raising gives a valid heap of the old watchers and the new one. |
| `TimeHeap.Remove` | libev/ev.c:3849-3861 | Moving the last element into the gap gives a valid heap of the remaining watchers. |
| `TimeHeap.Rekey` | libev/ev.c:3882-3884 | Refreshing one key and adjusting gives a valid heap of the same watchers. |
| `Timers.Loop.Start` | libev/ev.c:3816-3838 | An inactive timer joins the valid heap of exactly the active timers, due its relative time from now; an active one is left alone. |
| `Timers.Loop.Stop` | libev/ev.c:3841-3869 | The timer leaves the active set and the heap and loses its pending event; the heap stays valid and `at` becomes relative. |
| `Timers.Loop.Again` | libev/ev.c:3872-3896 | A repeating timer ends active and due one period from now whether or not it was active; any other ends stopped; the heap stays valid. |
| `Timers.Loop.ExpireAll` | libev/ev.c:3259-3288 | Terminates; collects exactly the timers due before now, each once and in nondecreasing due time; repeating ones are due at or after now, others are stopped; no earlier timer is left; a repeating timer that is not late keeps its phase, due exactly one period after it was due. |
| `Timers.Loop.TimersReify` | libev/ev.c:3259-3293 | The same, and in the history of events expiry only clears, after which each collected timer is fed `EV_TIMER` once, the last first; all are pending afterwards, and of two of one priority that were not pending the earlier one is above the other. |
| `Timers.Loop.RunTimers` | libev/ev.c:3213-3230 | Expiry followed by dispatch, whatever the callbacks feed or clear: the history is that each fired timer is fed `EV_TIMER` once and then the calls are made, each followed by what its callback does; each fired timer that no callback clears is called, exactly once if no callback names it, its first call carries `EV_TIMER`, and timers of one priority, not pending before, are called in nondecreasing due time. |
| `Timers.StackOrderIsDueOrder` | libev/ev.c:1962-1974 | Feeding in reverse and serving from the top of the stack together give nondecreasing due time. |
| `Pending.Queues.FeedEvent` | libev/ev.c:1943-1959 | Pushes or merges an event; stack slot and `pending` index stay mutually inverse, and each entry holds exactly the OR of what was fed since the last call or clear. |
| `Pending.Queues.ClearPending` | libev/ev.c:3725-3739 | Drops exactly the pending events, which it returns; the slot keeps a dummy and the indices stay inverse. |
| `Pending.Queues.FeedReverseDone` | libev/ev.c:1969-1974 | Feeds the collected watchers last first, so the one collected first ends up on top. |
| `Pending.Queues.InvokePending` | libev/ev.c:3213-3230 | For every finite behaviour of callbacks that feed and clear: terminates with all queues empty; each call went to a pending watcher of the highest priority then pending, with exactly the OR of its events; the history grows by the calls, each followed by what its callback feeds and clears, and by nothing else; every watcher is served as `Pending.EveryoneServed` says; within a priority entries are served from the top. |
| `Pending.EveryoneServed` | libev/ev.c:3213-3230 | If a dispatch leaves nothing pending, a pending watcher that no callback clears is called, and a watcher that no callback names is called exactly once with exactly what was fed to it if it is pending, and not at all otherwise. |
| `Pending.CalledOnce` | libev/ev.c:3213-3230 | The latter, for every history and every list of calls. |
| `Pending.UnclearedIsCalled` | libev/ev.c:3213-3230 | The former. |
| `Pending.PendingUntilTouched` | libev/ev.c:3213-3230 | A watcher stays pending until it is called or cleared. |
| `Pending.PushKeeps` | libev/ev.c:1951-1957 | A push keeps slots and indices inverse and the entries equal to what the history says is pending. |
| `Pending.MergeKeeps` | libev/ev.c:1948-1949 | A merge does. |
| `Pending.ClearKeeps` | libev/ev.c:3715-3739 | A clear does. |
| `Pending.PopKeeps` | libev/ev.c:3219-3228 | Taking the top entry does. |
| `Pending.CallKeeps` | libev/ev.c:3219-3228 | The call of the top entry is right by the history (pending, highest priority, exact events) and in order. |
| `Periodics.PeriodicRecalc` | libev/ev.c:3299-3320 | The loop ends at the first point after now that is reached from its base in steps of the interval. |
| `Periodics.RecalculatedIsNext` | libev/ev.c:3299-3320 | That point is the least `offset + k*interval` after now if and only if the base is on the watcher's own grid, which it is for every interval from `MIN_INTERVAL` on. |
| `Periodics.RecalcIsFirstTick` | libev/ev.c:3299-3320 | The exact condition for a grid point within one interval of now to be the first one. |
| `Periodics.SmallIntervalMissesTick` | libev/ev.c:3299-3302 | With an interval of three quarters of `MIN_INTERVAL` the time computed by the code is not the first grid point after now. |
| `Periodics.PeriodicsReschedule` | libev/ev.c:3368-3386 | After a clock jump every interval periodic is at its first grid point after now, a callback decides for its watcher whatever the interval, one-shots keep their time, and the array is a valid heap of the same watchers. |
| `PollTable.Polls.Modify` | libev/ev_poll.c:53-87 | Changes what one descriptor is polled for and nothing else; `pollidxs` stays the inverse of `polls`, also when the last entry moves into the gap. |
| `PollTable.Polls.Remove` | libev/ev_poll.c:77-86 | The swap-with-last removal, as above. |
| `IoWatchers.Unlink` | libev/ev.c:3699-3711 | Unlinking a watcher leaves the chain of the others in order. |
| `IoWatchers.WantedBy` | libev/ev.c:2067-2068 | The walk along a list gives the union of its watchers' masks. |
| `IoWatchers.UnionIsAny` | libev/ev.c:2067-2068 | A bit is in the union if and only if some watcher of the list wants it. |
| `IoWatchers.Loop.FdChange` | libev/ev.c:2084-2095 | Queues a descriptor once, at its first change. |
| `IoWatchers.Loop.Start` | libev/ev.c:3769-3793 | The watcher joins its descriptor's list, the descriptor is queued, lists stay chains of exactly the active watchers. |
| `IoWatchers.Loop.Stop` | libev/ev.c:3796-3812 | The watcher leaves the list, the descriptor is queued, the other lists stay. |
| `IoWatchers.Loop.FdReify` | libev/ev.c:2023-2079 | Afterwards nothing is queued and the poll table asks of every descriptor for exactly the union of what its active watchers want. |
| `JsonStrings.TranscodeIsUtf8` | src/cJSON.c:328-350 | The shifts, masks and marks write the encoding of section 3 of RFC 3629, for every code point. |
| `JsonStrings.CombineIsPair` | src/cJSON.c:318-326 | A surrogate pair combines to the code point it denotes. |
| `JsonStrings.SpelledIsRead` | src/cJSON.c:219-262 | `parse_hex4` reads every spelling of every number below 65536, with capital letters and small ones, as that number. |
| `JsonStrings.PieceIsRead` | src/cJSON.c:290-358 | Every piece of a well-formed literal (section 7 of RFC 8259) is read as what it denotes, whatever follows. |
| `JsonStrings.LiteralIsRead` | src/cJSON.c:268-365 | So is every well-formed literal up to its closing quote. |
| `JsonStrings.LiteralFits` | src/cJSON.c:280-284 | What is written for a well-formed literal fits into the length counted in the first pass. |
| `JsonParse.StringRoundTrip` | src/cJSON.c:268-365 | Reading a printed string gives the string back: control characters, quotes and backslashes included. |
| `JsonParse.NumberRoundTrip` | src/cJSON.c:90-125 | Reading a printed integer gives the integer back. |
| `JsonParse.ValueRoundTrip` | src/cJSON.c:550-582 | Reading a printed value, at any depth, in either layout and in front of any text that cannot continue it, gives the value and that text. |
| `JsonParse.ArrayRoundTrip` | src/cJSON.c:654-690 | The same for arrays. |
| `JsonParse.ObjectRoundTrip` | src/cJSON.c:805-859 | The same for objects. |
| `JsonParse.ParseUndoesPrint` | src/cJSON.c:520-536 | For every well-formed tree, `cJSON_Parse` of the formatted or the unformatted print is the tree, with nothing left over. |
| `JsonReader.SkipFrom` | src/cJSON.c:480-486 | The loop stops at the first character that is not white space. |
| `JsonReader.CountFrom` | src/cJSON.c:280-284 | The counting loop of `parse_string`. |
| `JsonReader.ReadString` | src/cJSON.c:268-365 | Both passes: for every text the decoding loop gives what the reference decoder gives, or fails where it fails; on a well-formed literal the value is what the literal denotes and fits with its terminator into the size counted before. |
| `JsonReader.ReadNumber` | src/cJSON.c:90-125 | The digit loop likewise. |
| `JsonReader.ReadItems` | src/cJSON.c:654-690 | The loop over array elements likewise. |
| `JsonReader.ReadMembers` | src/cJSON.c:805-859 | The loop over object members likewise. |
| `JsonReader.ReadValue` | src/cJSON.c:550-582 | The recursive parser over a text and an index agrees with the reference parser on every text, in value, position and failure. |
| `JsonReader.ParseText` | src/cJSON.c:489-523 | `cJSON_Parse`, which on every printed tree returns that tree. |
| `JsonPlain.PrintString` | src/cJSON.c:369-461 | The text of the string, which with its terminator fits into what was allocated. |
| `JsonPlain.PrintArray` | src/cJSON.c:746-801 | Printing the elements first, adding up a length and putting them together gives the array's text, which fits with its terminator. |
| `JsonPlain.PrintObject` | src/cJSON.c:950-1035 | The same for objects. |
| `JsonPlain.PrintValue` | src/cJSON.c:586-650 | The plain printer gives the reference text of every tree. |
| `JsonBuffer.Pow2gt` | src/cJSON.c:128-137 | The least power of two not below its argument. |
| `JsonBuffer.PowerIsInt` | src/cJSON.c:128-137 | That power is an `int` if and only if the argument is at most 2^30. |
| `JsonBuffer.PrintBuffer.Ensure` | src/cJSON.c:146-170 | Room for the needed bytes at the offset, contents kept. |
| `JsonBuffer.PrintBuffer.Update` | src/cJSON.c:173-180 | The offset moves to the end of the text written. |
| `JsonBuffer.PrintBuffer.PrintString` | src/cJSON.c:369-461 | Buffered: appends the quoted string; every write is inside the ensured length. |
| `JsonBuffer.PrintBuffer.PrintArray` | src/cJSON.c:715-745 | Buffered: appends the array's text. |
| `JsonBuffer.PrintBuffer.PrintObject` | src/cJSON.c:891-949 | Buffered: appends the object's text, although the returned pointer is off for a formatted object. |
| `JsonBuffer.PrintBuffer.PrintValue` | src/cJSON.c:586-623 | Buffered: appends the value's text. |
| `JsonBuffer.PrintBuffered` | src/cJSON.c:539-546 | For every tree, layout and initial size the buffer holds, from the returned index on, exactly what the plain printer returns, terminated; the text has to fit, with a reserve of 20 bytes, into 2^30 bytes or into the initial buffer. |
| `JsonMinify.MinifyOfPrint` | src/cJSON.c:1430-1464 | Minifying the formatted print of any well-formed tree gives its unformatted print. |
| `JsonSyntax.EveryTextParses` | src/cJSON.c:480-523 | Every text of RFC 8259 for a tree of 32-bit integers, with white space anywhere its grammar allows it and any escapes in its strings, is parsed as that tree. |
| `JsonSyntax.TextParsed` | src/cJSON.c:550-582 | The same in front of any text that cannot continue a number. |
| `JsonSyntax.EveryTextMinifies` | src/cJSON.c:1430-1464 | Minifying such a text, with line and block comments in its white space as well, gives the same text without white space and comments, which is parsed as the same tree. |
| `JsonMinify.MinifyInPlace` | src/cJSON.c:1430-1464 | In place on the array, with the write cursor never past the read cursor, the result is the reference minification of the old text. |
| `Users.LoadUndoesSave` | src/cetus-users.c:110-155 | For every map of users and every iteration order of the hash table, loading the saved text gives the same map. |
| `Users.CetusUsers.WriteJson` | src/cetus-users.c:203-237 | The text written loads back to the records. |
| `Users.CetusUsers.ParseJson` | src/cetus-users.c:110-155 | Replaces the records by what the text stands for (last entry of a name wins, one password stands for both), or fails and leaves them: on a syntax error, a missing name or two missing passwords. |
| `Users.NodeIsRecord` | src/cetus-users.c:124-142 | The node written for a user is read as that user, the keys compared without regard to case. |
| `Users.NodeStandsFor` | src/cetus-users.c:124-142 | For every list of members: a node without a name, or without a password, stands for no user; the first member of each name counts, in any spelling of its letters, and a single password is that of both sides. |
| `Users.RecordsAreLast` | src/cetus-users.c:122-142 | For every list of nodes that all stand for users, a user has the passwords of the last node with the name, and there are no others. |
| `Users.RecordsFail` | src/cetus-users.c:124-134 | Loading fails if and only if some node stands for no user. |
| `RingBuffer.RoundupPowOfTwo` | src/chassis-sql-log.c:55-63 | Where it ends: the least power of two not below an argument above 1; 0 for 0 and 2 for 1. |
| `RingBuffer.RoundupEnds` | src/chassis-sql-log.c:58-61 | For a 32-bit argument above 1 the doubling loop ends if and only if the argument is at most 2^31. |
| `RingBuffer.Rfifo.constructor` | src/chassis-sql-log.c:82-100 | An empty buffer whose size is the power of two for the one asked for, and that size itself if it is one; size 0 stays 0. |
| `RingBuffer.Rfifo.Write` | src/chassis-sql-log.c:108-120 | Called alone: appends the longest prefix of the message that fits. |
| `RingBuffer.Rfifo.Flush` | src/chassis-sql-log.c:122-152 | Called alone: moves everything waiting to the end of the file. |
| `RingBuffer.WriterAlone` | src/chassis-sql-log.c:108-120 | A call whose steps are not interleaved is what `Rfifo.Write` specifies: it appends the longest prefix that fits. |
| `RingBuffer.FlusherAlone` | src/chassis-sql-log.c:122-152 | A flush whose steps are not interleaved is what `Rfifo.Flush` specifies: the file grows by everything buffered, and nothing is left. |
| `RingBuffer.MaskIsSlot` | src/chassis-sql-log.c:115-116 | The mask of a wrapped 32-bit counter is the slot of the unbounded one. |
| `RingBuffer.StepKeepsInvariant` | src/chassis-sql-log.c:108-152 | Every single access of writer and flusher keeps: the 32-bit counters are the wrapped counts, the slots between them hold the bytes not yet counted as flushed, and what is being copied behind them is intact. |
| `RingBuffer.FileThenBuffer` | src/chassis-sql-log.c:108-152 | In every interleaving of one writer and one flusher, with counters wrapping as often as they like, the file followed by the buffered bytes is the concatenation of what the finished writes stored, and no more is buffered than the size. |
| `RingBuffer.UnreadIsKept` | src/chassis-sql-log.c:117-118 | No step, also none between the two `pwrite`s of a flush, stores into the slot of an unread byte. |
| `RingBuffer.AcceptsPrefixes` | src/chassis-sql-log.c:114-119 | For every state between calls and every message: in every order in which the two threads can go on the call stores a prefix of its message, if and only if at the call the message is shorter than the free space or not shorter than the buffer. |
| `RingBuffer.UnsafeCallExceeds` | src/chassis-sql-log.c:114-119 | Otherwise: an order of the steps, found for every such state and message, in which more than the message is stored. |
| `RingBuffer.FlusherDrains` | src/chassis-sql-log.c:122-152 | From every state the flusher alone empties the buffer. |
| `RingBuffer.SafeRunStoresPrefixes` | src/chassis-sql-log.c:108-152 | In every run whose calls all meet that condition every write stores a prefix of its message. |
| `RingBuffer.SecondReadingCanGrow` | src/chassis-sql-log.c:114 | A concrete run from the start in which a write stores more than its message. |
| `RingBuffer.PowerTest` | src/chassis-sql-log.c:89 | `size & (size - 1)` is zero exactly for powers of two. |
| `Dispatcher.InterleavedIsOverlap` | dumpbinlog-tool/transaction.py:59-69 | Two transactions are interleaved if and only if their commit intervals share a point; so the relation is symmetric. |
| `Dispatcher.StepKeepsInvariant` | dumpbinlog-tool/executor.py:160-268 | Every step of the dispatcher and of the workers keeps: each job in flight is in exactly one queue and alone on its busy connection; the running transactions are those in flight; a free connection's status and XID match what its session did last; the connection in hand is free and fits. |
| `Dispatcher.CompleteKeeps` | dumpbinlog-tool/executor.py:196-210 | A finished job's transaction is among the running ones when it is removed. |
| `Dispatcher.BusyIffOneJob` | dumpbinlog-tool/executor.py:52-106 | In every run a connection is BUSY if and only if exactly one job in flight holds it, and there are never more jobs in flight than connections nor more connections than `max_connections`. |
| `Dispatcher.CommitFollowsPrepare` | dumpbinlog-tool/executor.py:174-188 | In every run, on every session: a transaction is an XA COMMIT if and only if it directly follows an XA PREPARE, then one with its XID; if that was empty it executes nothing; and the session has executed all statements of the PREPARE if and only if none of them failed. |
| `Dispatcher.FailedPrepareIsCommitted` | dumpbinlog-tool/executor.py:212-227 | For every PREPARE with statements and every COMMIT with its XID in another file: a run in which the session executes none of the PREPARE's statements, because the first fails, and then executes the COMMIT. |
| `Dispatcher.NothingFails` | dumpbinlog-tool/executor.py:68-87 | In a run in which no statement fails no session has a failed entry, so there every COMMIT follows a PREPARE executed in full. |
| `Dispatcher.StatementsAreExecuted` | dumpbinlog-tool/executor.py:60-87 | In every run, on every session: what is executed of a transaction is a prefix of its statements, of none for the COMMIT of an empty PREPARE; once the session has gone on or is free, all were executed if and only if none failed. |
| `Dispatcher.NewJobOverlaps` | dumpbinlog-tool/executor.py:153-158 | In every run a step that puts a job in flight does so when no job is in flight, or one whose commit interval has a point in common with that of the new transaction. |
| `Dispatcher.DispatchedIff` | dumpbinlog-tool/executor.py:259-268 | In every run the transaction in the dispatcher's hands is dispatched if and only if a connection is held for it and no job, or an overlapping one, is in flight. |
| `Dispatcher.ConnectionGiven` | dumpbinlog-tool/executor.py:160-194 | In every run the first look gives a transaction a connection if and only if it may join those in flight and there is one for it: for a COMMIT the one that holds its PREPARE, for any other an idle one or one that can still be opened; a later look, if and only if there is one. |
| `Dispatcher.OneFileInFlight` | dumpbinlog-tool/executor.py:212-227 | In every run in which no drain gives up with jobs still running, jobs of two binlog files are never in flight together. |
| `Dispatcher.ShutdownEnds` | dumpbinlog-tool/executor.py:234-268 | In every run at most one more job is dispatched once the shutdown flag is set, and none from the top of the loop. |
| `Dispatcher.PreparedWaitsForCommit` | dumpbinlog-tool/executor.py:93-99 | In every run a connection holding a prepared transaction is changed by no step but the one that puts the commit with its XID on it, without statements if the prepare was empty. |
| `Dispatcher.FirstFit` | dumpbinlog-tool/executor.py:175-194 | The connection chosen is the first that fits; none is chosen only if none does. |
| `ReverseReader.ReverseReadline` | dumpbinlog-tool/recovery.py:46-76 | For every content and every chunk size from 1 on, the non-empty strings yielded are the non-empty lines in reverse order. |
| `ReverseReader.SplitIsLines` | dumpbinlog-tool/recovery.py:58 | The lines of a text, put together again with line ends, are the text, and no line has a line end in it. |
| `ReverseReader.LinesAreSplit` | dumpbinlog-tool/recovery.py:58 | There is no other way to divide it into lines. |
| `ReverseReader.SplitConcat` | dumpbinlog-tool/recovery.py:58-70 | Splitting a concatenation joins the last line of one part with the first of the other. |
| `ReverseReader.ChunkRead` | dumpbinlog-tool/recovery.py:53-73 | A chunk in front of what was read extends the lines yielded so far to those of the longer tail of the file. |
| `ReverseReader.SegmentAlone` | dumpbinlog-tool/recovery.py:62-69 | A chunk that ends in a line end leaves the segment a line of its own. |
| `Where.GString.AppendExpr` | lib/sql-construction.c:43-222 | Appends the tokens of one node to the buffer. |
| `Where.GString.Traverse` | lib/sql-construction.c:225-267 | Appends the tokens of a tree, with parentheses only for an OR under an AND and for NOT. |
| `Where.OperandRead` | lib/sql-construction.c:46-109 | The tokens printed for a name, a qualified name, a number, a signed number or a string stand for what is shown: the texts of the two parts, the number of the node itself with its sign, the text. |
| `Where.ShownIsValue` | lib/sql-construction.c:80-97 | What is shown is what the operand stands for if and only if a sign node carries the number of what is under it and a qualified name has two parts. |
| `Where.PredicateRead` | lib/sql-construction.c:126-190 | The AND of a BETWEEN, the list of an IN and the pattern and ESCAPE of a LIKE stay inside their predicate. |
| `Where.ConjunctRead` | lib/sql-construction.c:246-266 | A child of an AND, with or without parentheses, adds one conjunct. |
| `Where.DisjunctRead` | lib/sql-construction.c:246-266 | A child of an OR adds one disjunct. |
| `Where.NegationRead` | lib/sql-construction.c:191-195 | A printed NOT negates its whole operand. |
| `Where.PrintedMeansShown` | lib/sql-construction.c:225-267 | For every AND/OR/NOT tree over comparisons, BETWEEN, IN and LIKE and every assignment of three truth values to predicates, the printed tokens, read by the grammar of section 8.12 of ISO/IEC 9075:1992, have the truth value of the tree with its operands as they are shown. |
| `Where.PrintedMeansTree` | lib/sql-construction.c:225-267 | The same with its operands as they are, if all of them are shown as they are. |
| `Where.PredicateKeptIff` | lib/sql-construction.c:74-190 | A single predicate keeps its truth value under every assignment if and only if all its operands are shown as they are. |
| `Where.NegativeIsLost` | lib/sql-construction.c:86-97 | A column compared with a negative number as the parser builds it is printed as compared with -0, and keeps its meaning if and only if the number is 0. |
| `Guid.PackedIsFields` | src/chassis-mainloop.c:387-402 | The shifted fields do not overlap: the ORs are sums. |
| `Guid.FieldsApart` | src/chassis-mainloop.c:387-402 | Second, millisecond, worker and sequence number can be read back from an id. |
| `Guid.Generator.GetNext` | src/chassis-mainloop.c:377-405 | Updates the state as specified and returns the id with the four fields, the second of which is the millisecond of the time given. |
| `Guid.IncreasingIffNoOverflow` | src/chassis-mainloop.c:391-402 | Over every run with a clock that does not go back, successive ids increase strictly if and only if no call has 1024 calls of its millisecond before it. |
| `Guid.OneTooMany` | src/chassis-mainloop.c:391-398 | A run of 1025 calls at one time whose ids do not increase. |
| `Guid.FewCallsIncrease` | src/chassis-mainloop.c:391-402 | With fewer than 1024 calls per millisecond the ids of every run increase strictly. |
| `Guid.WorkersApart` | src/chassis-mainloop.c:389 | Generators whose worker ids differ in the low 12 bits never return the same id. |

## Left out

- Other backends than poll, signalfd, inotify, child and stat watchers, fork handling and embedding in libev: they depend on kernel behaviour.
- Nested runs of the loop and starting or stopping timers from inside a callback: callbacks feed and clear events only.
- IoWatchers.Loop.Stop: does not clear the pending event of the stopped watcher, which `Pending.Queues.ClearPending` models on its own; the order of marking the descriptor and changing its list is the other way round, with no thread in between.
- Pending.Queues.FeedEvent: the `pending` index of the watchers is a map in the queues rather than a field of each watcher.
- Rounding of floating-point times, and the exit from `periodic_recalc` for a step lost to rounding.
- JsonReader.ReadNumber: a fraction or an exponent fails; non-integer numbers, their printing and integers beyond 32 bits are not modelled.
- JsonReader.ReadValue: as `ReadNumber` for the numbers in the value.
- JsonReader.ReadString: where a backslash or a \u escape is cut short by the end of the text the source reads on behind it, and the model fails.
- JsonBuffer.PrintBuffered: for trees whose text, with the 20 bytes that may be asked for beyond a last number, fits into 2^30 bytes or into the initial buffer; for a larger request the power of two is no `int` (`JsonBuffer.PowerIsInt`).
- JsonSyntax.EveryTextParses: numbers are 32-bit integers without fraction and exponent, and the escape of NUL, which ends a C string, is not among the escapes.
- JsonSyntax.EveryTextMinifies: as `EveryTextParses`; a block comment whose text starts with a slash is left out, since the source takes it to end there.
- JsonMinify.MinifyInPlace: for texts whose comments and strings are terminated.
- The linked list of child items with its previous pointers: children are sequences.
- Users.CetusUsers.ParseJson: a name or password that is not a string has no `valuestring`; it counts as empty here.
- Password hashing, authentication and the configuration store behind the users file.
- RingBuffer.RoundupPowOfTwo: arguments above 2^31, for which the loop does not end.
- RingBuffer.Rfifo.Write: a buffer of size 0, which the caller of `rfifo_alloc` rules out by a default.
- Partial or failing `pwrite`, log rotation, and the file offset: the file is the bytes written since it was opened.
- Dispatcher: the thread that feeds the transaction queue, skipping of transactions executed before, and the connection itself; the fields updated in place are components of a state, since the dispatcher's loop waits for other threads and need not end. Pairwise overlap of running transactions, a complete drain at a change of file and distinct worker ids after respawns are not provided by the code.
- ReverseReader.ReverseReadline: file offsets count characters, as they do for single-byte text, and the content has no carriage returns, which reading in text mode translates; the generator is run to its end.
- Where.GString.AppendExpr: EXISTS, functions, subselects and arithmetic, the quoting of strings and the lexer are not modelled; an operand is a name, a qualified name, an integer with signs, or a string; an empty list of a LIKE is a missing one, and a comparison of conditions is not a condition.
- Guid.Generator.constructor: the worker id is a parameter.
- Sharding, connection pooling, plugins, monitoring, configuration and process management.
