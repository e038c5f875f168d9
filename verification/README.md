# evhttp-apiserver: a verified model

This project models the stateful core of the API server and proves what that core keeps over every
input, every driver answer and every interleaving of threads.

- **Request pipeline** (`TaskSlab`, `TaskPool`, `WorkQueue`, `TaskLists`, `Sizing`, `Pipeline`,
  `Ownership`, `Flags`, `Wakeups`, `Shutdown`, `Finish`, `Exhaustion`, `Attained`). A reactor leases a task from a slab, offers it to the
  fast or the slow worker pool, a worker runs it and hands it back through the reactor's completion queue.
  The allocator and the linked queues are classes over arrays and links. Above them `Pipeline` is a
  transition system: one step is one critical section, or one action in the gap between an unlock and the
  signal or eventfd write that follows it. `Legal` and `Exec` make runs; the theorems hold for every legal
  run.
- **Token cache** (`JwtCache`, `SingleFlight`). The critical sections of the login code on a cell, and the
  leader/follower protocol over every run with a monotone clock, spurious wake-ups and invalidations.
- **Logger** (`LogRing`, `LogProtocol`, `VectorWrite`). The buffer pool on arrays, producers and consumer
  over every run, and the partial-write loop.
- **ODBC handles** (`OdbcDriver`, `OdbcSession`). The driver's methods demand a live handle in the right state
  and answer arbitrarily; the session's methods verify against that, so no call is made on a freed handle.
  The driver records in ghost state what it answered and what is open or bound, and the session's
  contracts say exactly when a query succeeds in those terms.
- **JSON output** (`Decimal`, `RealText`, `JsonText`, `JsonEscape`, `JsonBuffer`, `ResultSet`,
  `ChunkedRead`). Number printing in place, both escapers, the buffered writer, result sets and chunked
  columns. `JsonText` is an independent parser for RFC 8259 (sections 3 to 7), written down from the
  standard; the main theorems say that what the server streams parses back to the rows.
- **Payload validation** (`CodePoints`, `Calendar`, `Validation`). The date check, the character count, the
  schema engine and the sales schema, against the Gregorian calendar.

`Tally` holds sums and counts over components. Bytes are `char` values below 256.

Where the code and its own documentation differ, the model follows the code:

- include/apiserver/task_pool.h:17 says that an exhausted pool allocates a new task; the code returns null
  (`TaskSlab.AllocConserves`).
- The free flag is not "is free": a refill clears it for tasks that only move into a cache
  (`Flags.FreeTaskWithoutFlag`). It is set exactly for tasks that no lease or refill has touched since their
  last return began (`Flags.FlagMeansUntouchedSinceReturn`); a leased task's flag is clear unless it is being
  returned (`Ownership.OwnershipHolds`).
- "Every returned token is unexpired" is false after a failed refresh (`SingleFlight.StaleTokenIsReturned`;
  the exact condition is `SingleFlight.StaleAnswerIff`).
- JSON_ENCODE_BUFSIZE(n) does not hold every source of n bytes (`JsonEscape.MacroLosesTheLastOfTwo`,
  `JsonEscape.MacroIsLosslessIff`).
- `fast_dtoa` loses a carry (`RealText.CarryIsLost`, `RealText.AccurateIff`).
- A precomputed column key is cut at 255 bytes (`ResultSet.KeyReadsBackIff`, `ResultSet.ArrayIsPrintedIff`,
  `ResultSet.KeyCapacity`).
- A log entry can be accepted after the logger thread has gone (`LogProtocol.LateEntryIsLost`,
  `LogProtocol.EntryCanBeLostIff`).
- A missing value in front of database-made JSON text spoils it (`ChunkedRead.SpreadJsonComesBackIff`).
- Integer bounds are checked on a saturated value (`Validation.ClampedBoundsIff`).

## Model

| member | source | states |
|---|---|---|
| `TaskSlab.AllocConserves` | lib/task_pool.c:78-133 | a lease takes exactly one task out of stack and cache and clears its flag; it fails exactly when both are empty, and then changes nothing |
| `TaskSlab.PutConserves` | lib/task_pool.c:150-175 | a return adds exactly that task; the overflow abort is reached exactly with a full cache and more free tasks than the slab has |
| `TaskSlab.ReleaseOutcome` | lib/task_pool.c:135-175 | exactly when a release ignores a foreign pointer, aborts for a double free or an overflow, or frees and flags the task |
| `TaskSlab.AllocThenPut` | lib/task_pool.c:78-175 | a lease given back at once is accepted and restores the free tasks |
| `TaskSlab.RefillMoves` | lib/task_pool.c:83-94 | a refill permutes tasks between stack and cache, sets no flag, and leaves the cache empty exactly when there was nothing |
| `TaskPool.Pool.constructor` | lib/task_pool.c:26-54 | every task starts on the stack with its flag set; size 0 means 100000 |
| `TaskPool.Pool.RefillCache` | lib/task_pool.c:83-94 | the in-place loop refines the sequence refill |
| `TaskPool.Pool.Lend` | lib/task_pool.c:78-100 | the in-place allocation refines `Alloc` on stack, cache and flags |
| `TaskPool.Pool.Return` | lib/task_pool.c:135-175 | the in-place release refines `Release`, with foreign pointers, double free and overflow told apart |
| `TaskLists.WorkerPool.Enqueue` | lib/worker_pool.c:343-371 | the linked queue gains the task at its end, or is unchanged when in shutdown or full |
| `TaskLists.WorkerPool.Next` | lib/worker_pool.c:219-235 | the first task is unlinked; exit only in shutdown with an empty queue |
| `TaskLists.ReactorQueue.Notify` | lib/server.c:440-456 | the completion list gains the task at its end and reports whether it was empty |
| `TaskLists.ReactorQueue.DrainBatch` | lib/server.c:534-559 | the whole list is taken and visited in notify order although each visited task may be reused at once |
| `Sizing.Reactors` | lib/server.c:866-869 | between 1 and 64 reactors, one per core where the count is usable |
| `Sizing.SplitWorkers` | lib/worker_pool.c:270-280 | the fast pool gets its percentage, rounded down, but both pools get a worker and no other worker is added or lost |
| `Ownership.StepMoves` | lib/server.c:638-690 | whatever step is taken, no task is duplicated or lost between stack, caches, hands, queues and batches |
| `Ownership.LoansAreUnique` | lib/task_pool.c:78-175 | a task is out at most once, and never while it is in the slab |
| `Ownership.NoAbort` | lib/task_pool.c:150-174 | neither abort of the release is reachable from an owned state |
| `Ownership.StackHasRoom` | lib/task_pool.c:160-174 | stack plus one cache never exceed the slab |
| `Ownership.HomedKept` | lib/server.c:440-468 | a completed task reaches only the reactor that leased it |
| `Ownership.OwnershipHolds` | lib/task_pool.c:78-175 | in every run each task is in exactly one place, leases and returns are sound, leased tasks are unflagged unless being returned, no abort happens |
| `Flags.FlagStep` | lib/task_pool.c:78-155 | every step: leases and refills clear exactly the flags of the tasks they touch, the start of a return sets one, nothing else does either |
| `Flags.FlagMeansUntouchedSinceReturn` | lib/task_pool.c:78-155 | in every run a flag is set exactly when every lease or refill that touched the task was followed by the start of a return |
| `Flags.FreeTaskWithoutFlag` | lib/task_pool.c:88 | in every configuration with two tasks the first lease leaves a free task in the cache with its flag clear |
| `Ownership.LedgerBalances` | lib/server.c:507-559 | in a sound history leases minus returns of a task is its number of open loans |
| `Ownership.ReturnedExactlyOnce` | lib/server.c:476-532 | in every run each lease has exactly one return, by the leasing reactor, unless the task is still held |
| `Wakeups.StrandsNoneKept` | lib/worker_pool.c:219-241 | every step keeps: while a worker sleeps, queued tasks are covered by due signals and woken workers |
| `Wakeups.AnnouncedKept` | lib/server.c:440-468 | every step keeps: a non-empty completion queue has a readable eventfd, a due write or a reactor about to take it |
| `Wakeups.InOrderKept` | lib/server.c:534-559 | every step keeps: what was handed out followed by what is queued is what came in, in order, within the limit; replies follow the notify order |
| `Wakeups.WakeupsAreNeverLost` | lib/worker_pool.c:360-375 | all three hold in every reachable state, with signals after unlock and spurious wake-ups |
| `Shutdown.RunIsOrderly` | lib/server.c:909-938 | in every run ownership, wake-ups, shutdown stages and the flow of accepted work hold together |
| `Shutdown.AcceptedWorkIsDelivered` | lib/worker_pool.c:296-326 | once workers are joined, queues are empty, offers are refused, and each accepted task reached its own reactor as often as accepted |
| `Shutdown.SeenEmptyStaysEmpty` | lib/server.c:308-327 | a completion queue the drain saw empty is empty in every later state |
| `Shutdown.DrainIsNotStuck` | lib/server.c:308-327 | while the drain waits for a queue, its reactor runs and has been told |
| `Shutdown.HaltedServerIsWhole` | lib/server.c:925-938 | when all reactors have halted, every task is back and every lease was returned |
| `Shutdown.StoppedPoolWindsDown` | lib/worker_pool.c:215-245 | after the broadcast every worker step uses up a bounded amount of work and nothing adds any |
| `Shutdown.ShutdownTerminates` | lib/worker_pool.c:215-245 | in every continuation a stopped pool's workers take at most that many steps |
| `Shutdown.StoppedWorkerCanMove` | lib/worker_pool.c:219-241 | after the broadcast each worker that has not left has a step to take |
| `Shutdown.QueuedWorkProgresses` | lib/worker_pool.c:219-241 | with work queued, a signal is due or a worker of the pool is awake |
| `Finish.ShutdownCanFinish` | lib/server.c:909-938 | every run can be continued to a server whose reactors have all halted: reactors finish, pools stop and empty, workers are joined, queues drained, loops broken |
| `Finish.ShutdownEndsWhole` | lib/server.c:909-938 | and then every task is back, every lease was returned, and every delivered task was answered, in order |
| `Exhaustion.Deploy` | lib/server.c:258-264 | the configuration from core count and settings: reactors, workers and slab size |
| `Exhaustion.ExhaustedAccounts` | lib/task_pool.c:83-97 | when an allocation fails, all tasks but 64 per other cache and one per worker are queued or on the reactor side |
| `Exhaustion.ExhaustionNeedsReactorBacklog` | lib/server.c:258-264 | with a queue limit, allocation fails only with at least 5967 tasks on the reactor side |
| `Exhaustion.ExhaustionWithoutLimit` | lib/server.c:262-263 | without one, only with at least 205967 tasks queued or on the reactor side |
| `Attained.BoundIsAttained` | lib/server.c:258-264 | both bounds are tight: for every queue limit, and for none, a run of a deployed server ends exhausted with exactly that backlog |
| `JwtCache.Cell.LookUp` | src/customer.c:91-119 | hit, wait, back off or lead, each exactly when: a hit is unexpired and copied whole if it fits; backing off lasts exactly five seconds from the recorded failure |
| `JwtCache.Cell.Finish` | src/customer.c:67-146 | a usable token is stored with its expiry or 180 seconds; a failure keeps the old token and records the time; the answer is what the cache then holds |
| `SingleFlight.SingleFlightHolds` | src/customer.c:91-146 | in every run: one login at a time, starts and ends alternate, sleepers imply a refresh, 5 seconds of backoff after each failure, hits unexpired |
| `SingleFlight.LoginStartsIff` | src/customer.c:96-119 | in every run a look starts a login exactly when none is open, no live token is cached and every failure is at least five seconds old: the backoff is kept, and it ends |
| `SingleFlight.OneLeader` | src/customer.c:91-146 | no two threads are between their critical sections at once |
| `SingleFlight.RejectedTokenIsGone` | src/customer.c:178-183 | after a 401 no look is served from the cache before a new login |
| `SingleFlight.TokensAreCopiedWhole` | src/customer.c:83-89 | a stored token always fits the caller's buffer |
| `SingleFlight.StaleTokenIsReturned` | src/customer.c:131-142 | a concrete run whose leader returns an expired token |
| `SingleFlight.StaleAnswerIff` | src/customer.c:131-142 | in every run a leader returns an expired token exactly when its login failed with a token left in the cache, or brought a token that has already expired |
| `SingleFlight.LeaderAnswerIsLiveIff` | src/customer.c:131-142 | the leader's answer is a live token exactly when its login brought a storable token with a future expiry |
| `LogRing.GiveBackBalanced` | lib/logger.c:82-90 | the stack guard never drops a buffer |
| `LogRing.RoomIsAFreeBuffer` | lib/logger.c:184-205 | an entry is refused exactly when no buffer is free; the ring is never the reason |
| `LogRing.PushKeepsOthers` | lib/logger.c:184-205 | writing a new entry disturbs no queued or in-flight entry |
| `LogRing.Logger.constructor` | lib/logger.c:137-148 | all 4096 buffers start free |
| `LogRing.Logger.TryEnqueue` | lib/logger.c:184-205 | head, count, stack and ring arrays refine the push; it signals exactly from empty |
| `LogRing.Logger.TakeBatch` | lib/logger.c:92-120 | the dequeue loop takes the oldest entries in order, all of them or 128 |
| `LogRing.Logger.ReturnBatch` | lib/logger.c:82-90 | the return loop puts the whole batch back |
| `LogProtocol.LoggerHolds` | lib/logger.c:92-133 | in every run buffers are partitioned, entries are handed over once and in order, and the consumer never sleeps on a non-empty ring |
| `LogProtocol.HandOver` | lib/logger.c:92-133 | from every state in which nothing is lost the logger thread's own steps hand over everything accepted so far |
| `LogProtocol.HandedAllIffNoneLate` | lib/logger.c:154-163 | after the thread has gone, everything accepted was handed over exactly when nothing was accepted late |
| `LogProtocol.EntryCanBeLostIff` | lib/logger.c:184-190 | in every reachable state after the shutdown with nothing lost yet, some continuation loses an entry exactly when a producer is between its flag check and the lock |
| `LogProtocol.LateEntryIsLost` | lib/logger.c:184-190 | a concrete run that accepts an entry after the thread has gone |
| `VectorWrite.Advance` | lib/logger.c:52-65 | skipping written bytes leaves exactly the unwritten rest |
| `VectorWrite.WriteBatch` | lib/logger.c:67-80 | for every sequence of write results, sent bytes followed by the rest are the batch; it stops early only on a hard error, and each progress step counts down |
| `OdbcSession.Session.Reset` | lib/dbapi.c:36-47 | statement before connection, both freed and forgotten, other databases untouched |
| `OdbcSession.Session.SetError` | lib/dbapi.c:66-102 | the connection is reset exactly when a record reports a disconnect, else nothing changes; the last application error among the records is remembered |
| `OdbcSession.Session.Connect` | lib/dbapi.c:104-134 | a result is the cached live connection with the thread's cleanup armed; there is none exactly when the database is unknown or unconfigured or a call failed, and then nothing stays cached |
| `OdbcSession.Session.AllocStatement` | lib/dbapi.c:136-154 | a result is the cached live statement; without one the connection is dropped |
| `OdbcSession.Session.IsValidStatement` | lib/dbapi.c:156-162 | true exactly for live statements |
| `OdbcSession.Session.Cleanup` | lib/dbapi.c:164-170 | safe on a handle a reset freed; otherwise closes the cursor and unbinds parameters and columns |
| `OdbcSession.Session.DestroyMetadata` | lib/dbapi.c:361-374 | a live statement forgets the column buffers before they are freed |
| `OdbcSession.Session.PrepareAndBind` | lib/dbapi.c:242-296 | succeeds exactly when the database can be reached, all types are known and no call failed; then the statement is the cached live one |
| `OdbcSession.Session.BindResultSet` | lib/dbapi.c:463-593 | succeeds exactly when no call failed and memory was available |
| `OdbcSession.Session.FetchRows` | lib/dbapi.c:677-721 | succeeds exactly when no call failed, with the rows read to their end and no buffer left bound |
| `OdbcSession.Session.FetchMany` | lib/dbapi.c:732-781 | succeeds exactly when no call failed, with all results read |
| `OdbcSession.Session.FetchNative` | lib/dbapi.c:172-237 | succeeds exactly when no call failed, with all rows and values read to their end |
| `OdbcSession.Session.ExecuteAndFetch` | lib/dbapi.c:300-331 | for every driver answer: live handles only; success exactly when the database can be reached, types are known and no call failed; a reported disconnect leaves nothing cached; no cursor or binding stays |
| `OdbcSession.Session.QuerySingleRow` | lib/dbapi.c:789-846 | the same, and truncation is a failure; a row is found exactly when one arrived |
| `OdbcSession.Session.ThreadExit` | lib/dbapi.c:23-34 | thread exit frees every handle the thread ever got |
| `Decimal.SignedReadsBack` | lib/json_util.c:90-186 | the canonical text reads back as the number, without leading zeros, signed exactly when negative |
| `Decimal.CountsAgree` | lib/json_util.c:58-84 | the comparison ladders count digits for every 32-bit and 64-bit value |
| `Decimal.LutPair` | lib/json_util.c:45-56 | the 200-entry table holds both digits of every number below 100 |
| `Decimal.Write2` | lib/json_util.c:86-88 | writes two digits and nothing else |
| `Decimal.FastItoa` | lib/json_util.c:90-131 | the buffer gets the canonical text and a NUL for every 32-bit value, or 0 is returned and nothing written |
| `Decimal.FastLtoa` | lib/json_util.c:133-186 | the same for every 64-bit value |
| `RealText.FormatInt` | lib/json_util.c:189-204 | the integer part right to left, nothing else written |
| `RealText.FormatFrac` | lib/json_util.c:206-227 | the rounded fraction without trailing zeros, if eight bytes are left for it |
| `RealText.FastDtoa` | lib/json_util.c:229-268 | for every double and buffer: zero for infinities and non-numbers, the C library's text above 1e15 if it fits, else sign, integer part and fraction; a NUL behind it, or 0 and no text |
| `RealText.DoubleIsNumber` | lib/json_util.c:229-268 | in a 64-byte buffer the text of every double is a JSON number |
| `RealText.TextReads` | lib/json_util.c:229-268 | the text is a JSON number |
| `RealText.AccurateIff` | lib/json_util.c:206-217 | the text is within half a millionth of the value exactly when the fraction does not round up to one |
| `RealText.CarryIsLost` | lib/json_util.c:209-217 | 1.9999999 is printed as 1 |
| `JsonText.StringComesBack` | lib/json_util.c:10-43 | decoding by section 7 of RFC 8259 inverts the escaping of every byte string |
| `JsonText.PrintedTextParses` | lib/dbapi.c:595-721 | the compact form of every value parses back to that value |
| `JsonEscape.EncodeByte` | lib/json_util.c:16-39 | the bytes stored for one character, branch by branch, are its escape |
| `JsonEscape.EscapesUsed` | lib/json_util.c:16-39 | the seven short escapes and lower-case hexadecimal, and nothing else |
| `JsonEscape.EncodeString` | lib/json_util.c:10-43 | the full encoding of a prefix and a NUL, inside the buffer, never half an escape |
| `JsonEscape.EncodesAllIff` | lib/json_util.c:15-42 | the whole source is encoded exactly when all but its last character leave more than seven bytes |
| `JsonEscape.AmpleSpaceEncodesAll` | lib/json_util.c:10-43 | six bytes per character and two more are always enough |
| `JsonEscape.MacroIsLosslessIff` | include/apiserver/json_util.h:11 | the macro's buffer holds every shorter source, and a full-length one exactly when its head is not all six-byte escapes |
| `JsonEscape.MacroLosesTheLastOfTwo` | include/apiserver/json_util.h:11 | a concrete loss |
| `JsonEscape.EncodedPrefixDecodes` | lib/json_util.c:10-43 | what was written decodes to the prefix it came from |
| `JsonBuffer.Writer.Flush` | lib/dbapi.c:383-388 | pending bytes move to the evbuffer |
| `JsonBuffer.Writer.Add` | lib/dbapi.c:390-403 | flushed plus pending bytes grow by exactly the argument, whatever its size |
| `JsonBuffer.Writer.AddChar` | lib/dbapi.c:405-411 | the same for one byte |
| `JsonBuffer.Writer.AppendEscaped` | lib/dbapi.c:413-449 | the run-copying escaper writes the character-by-character encoding in quotation marks |
| `JsonBuffer.AppendQuoted` | lib/dbapi.c:451-455 | the same into an evbuffer |
| `JsonBuffer.Writer.AddEscape` | lib/dbapi.c:427-440 | the bytes added for one character, branch by branch, are its escape |
| `JsonBuffer.EscapersAgree` | lib/dbapi.c:451-455 | running both escapers on a NUL-free string: the bytes one adds are the C string the other leaves, in quotation marks |
| `ResultSet.ReadText` | lib/dbapi.c:624-633 | what a character buffer is read as: the value, cut to the buffer, or its C string if the length is unknown |
| `ResultSet.ColumnArrivesIff` | lib/dbapi.c:624-633 | it is the whole value exactly when it fits with its NUL and, without a length, holds no NUL |
| `ResultSet.PrecomputeKey` | lib/dbapi.c:505-518 | the escaped key with its colon, cut to 255 bytes |
| `ResultSet.KeyReadsBackIff` | lib/dbapi.c:505-518 | a streamed key reads back as the column name exactly when it was not cut |
| `ResultSet.KeyCapacity` | lib/dbapi.c:510-512 | names of up to 127 bytes without escapes fit; 127 quotation marks do not |
| `ResultSet.CellStandsForValue` | lib/dbapi.c:595-647 | the value of each cell type is the one it must arrive as, and its text the one that must be written |
| `ResultSet.AppendCell` | lib/dbapi.c:595-647 | adds true or false for a bit, null, integer texts that read back, doubles to half a millionth, strings that decode to the column, decimals verbatim |
| `ResultSet.AppendRow` | lib/dbapi.c:649-675 | writes the row object, keys and values in column order |
| `ResultSet.FetchArray` | lib/dbapi.c:677-721 | writes the array, or the rows so far without the closing bracket on a failed fetch, or nothing if binding failed |
| `ResultSet.ArrayParsesBack` | lib/dbapi.c:595-721 | the streamed array is one JSON text; its r-th object has the columns' names and, for each, a value that means the cell |
| `ResultSet.ArrayIsPrintedIff` | lib/dbapi.c:505-518 | the streamed array is the JSON text of its rows exactly when there is no row or every key fits |
| `ResultSet.FetchMulti` | lib/dbapi.c:732-781 | succeeds exactly when every result with columns was fetched to its end, and then has written the whole text |
| `ResultSet.MultiParsesBack` | lib/dbapi.c:732-781 | that text parses to an object with keys r1 to rk holding the rows of the results with columns, in order, or to an empty array |
| `ResultSet.ReportError` | lib/dbapi.c:321-330 | replaces all output by the error object |
| `ResultSet.ReplyAfterError` | lib/dbapi.c:321-330 | only errors from 50000 on replace the output |
| `ResultSet.ErrorParsesBack` | lib/dbapi.c:321-330 | the error object parses to error-code with the number and description with the message, whatever it holds |
| `ChunkedRead.ReadColumn` | lib/dbapi.c:172-213 | whatever chunks are handed out, exactly the column's bytes are added; after a failure a beginning of them |
| `ChunkedRead.FetchNative` | lib/dbapi.c:215-237 | all rows in order, or an empty array for no rows |
| `ChunkedRead.RowsAddUp` | lib/dbapi.c:188-206 | the output is the joined texts, with null in front exactly when a missing value precedes all text |
| `ChunkedRead.PassesThroughIff` | lib/dbapi.c:188-206 | the joined texts arrive unchanged exactly when none does |
| `ChunkedRead.SpreadJsonComesBackIff` | lib/dbapi.c:172-237 | any JSON text, in any style and spread over any rows, arrives with its value exactly when no missing value precedes all text; otherwise the output is no JSON text |
| `CodePoints.Utf8Strlen` | lib/validation.c:135-143 | counts starting bytes up to the NUL |
| `CodePoints.CountsCodePoints` | lib/validation.c:135-143 | on UTF-8 text that is the number of code points before the first zero |
| `Calendar.NextDayCounts` | lib/validation.c:89-99 | the month table and the leap rule fit the Gregorian day count: the next day has the next number |
| `Calendar.MonthStep` | lib/validation.c:91-97 | each month length is the step of the 153-days-in-five-months count, which does not use month lengths |
| `Calendar.EarlierIffFewerDays` | src/handlers.c:376-402 | comparing year, month, day is comparing day numbers |
| `Calendar.FormatReads` | lib/validation.c:76-87 | a date text is year, month and day as plain zero-padded numbers with dashes |
| `Calendar.DateTextIff` | lib/validation.c:76-99 | a text names a real date of 1900 to 2199 exactly when it has the shape and its numbers are one |
| `Calendar.ValidateDate` | lib/validation.c:66-100 | accepts exactly those texts, reads nothing behind the terminator, and sees only what precedes an embedded NUL |
| `Calendar.ByteOrderIsDayOrder` | src/handlers.c:387-397 | on real dates string order is day order |
| `Calendar.YearOfText` | src/handlers.c:404-430 | the leading number of a date text is its year |
| `Validation.CheckInt` | lib/validation.c:104-116 | accepts exactly what an integer field may hold; too small or too large is said of the true value |
| `Validation.ClampedBoundsIff` | lib/validation.c:108-114 | the check on the saturated value agrees with the true bounds exactly when the limit is not the last 32-bit value on that side |
| `Validation.CheckDouble` | lib/validation.c:118-133 | accepts exactly the finite numbers within the bounds, and says which bound is missed |
| `Validation.CheckString` | lib/validation.c:145-159 | limits characters; the byte-length shortcut never changes the answer, even for limits that wrap when converted to int |
| `Validation.CheckDate` | lib/validation.c:161-169 | accepts exactly the date texts and tells a wrong type from a wrong date |
| `Validation.OneFaultIff` | lib/validation.c:104-169 | at most one type fault explains a node, and one does exactly when the node is refused or saturation hides it |
| `Validation.CheckField` | lib/validation.c:204-228 | the first fault of one field in the order required, empty, type, custom |
| `Validation.RequiredNeedsContent` | lib/validation.c:182-194 | a required field must be present, not null, and not an empty string, array or object; zero and false are content |
| `Validation.OptionalMayBeMissing` | lib/validation.c:210-213 | an optional field may be missing or null |
| `Validation.ValidateJson` | lib/validation.c:196-235 | accepts exactly the objects whose fields all hold and that meet the global check; otherwise names the first field that fails and its fault |
| `Validation.SalesAcceptsIff` | src/handlers.c:376-434 | a sales payload is accepted exactly when start_date and end_date name two real days of 1994 to 1996, the start earlier by day number |

## Left out

- libevent, sockets, CORS and security headers, signals, affinity, statistics: I/O plumbing; a loop break is
  assumed to take effect between callbacks.
- lib/http_client.c, lib/jwt.c, src/totp.c: wrappers around libraries whose behaviour is not part of this model.
- lib/config.c, lib/context.c, lib/thread_error.c, src/login.c, src/main.c and the other handlers: settings,
  thread-local setters and thin calls.
- What a task computes, whether its request was cancelled, and HTTP replies: a completed and a cancelled
  task take the same path through the pipeline.
- Memory ordering of relaxed atomics, cache-line padding, allocation failure at start-up, null-pointer
  arguments.
- Clock values, driver answers, login responses, write results and evbuffer failures are parameters or
  arbitrary choices.
- db_exec and the text of database and validation error messages: only adds easy members.
- Sizing.SlabSize: does not model size_t overflow of the slab size, which needs a queue limit near 2^63.
- RealText.FastDtoa: magnitudes are real numbers and what `%.17g` prints above 1e15 is a parameter, because
  binary rounding and that text belong to the C library.
- RealText.FormatFrac: multiplies and rounds real numbers; the rounding of a double product is not modelled.
- RealText.AccurateIff: speaks of the real value; a double within one rounding error of the threshold is not
  told apart.
- ResultSet.ArrayParsesBack: that a cut key makes the text differ is `ResultSet.ArrayIsPrintedIff`, and that the
  key itself no longer reads back is `ResultSet.KeyReadsBackIff`; what a parser makes of the whole cut text
  is not stated.
- ResultSet.AppendCell: decimals, and doubles above 1e15, are passed through as the text the driver or the C
  library gives; only the parsing theorems assume these to be JSON numbers. Column names longer than the
  driver's 127 bytes are not considered.
- TaskLists.WorkerPool.RaiseShutdown and JwtCache.Cell.Forget: one-line updates; what they must keep is part of
  the run theorems.
- OdbcSession.Session.FetchRows: states handles, bindings and success; the text it writes is in
  `ResultSet.FetchArray`.
- Calendar.StrToLong: does not saturate at the ends of `long`, which no date text reaches.
- Validation.CheckDouble: converts an integer to a double without rounding.
- TaskPool.Pool.Lend: the clearing of the leased task's fields is not modelled.
