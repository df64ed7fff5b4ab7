# Verification of mul

`mul` is a small actor runtime: many Lua environments, each with a mailbox, run by worker threads,
with a global timer, a MessagePack codec and a socket manager.  This project models its five
hardest parts and proves what they promise on every input, run or interleaving.

| part | source | modules |
|---|---|---|
| mailbox scheduler | gq.c, tWorker of main.c, locks of gt.c | `Links`, `Scheduler`, `SchedulerInv`, `SchedulerRuns`, `SchedulerDrain`, `SchedulerDelivery`, `SchedulerBoxes`, `MailboxObjects` |
| timing wheel | common/timer/timer.c | `TimingWheel`, `WheelLines`, `WheelRuns`, `WheelCounts`, `WheelNodes`, `WheelIds`, `TimerObjects` |
| MessagePack codec | common/lserial.c | `LuaValues`, `NumberReals`, `Msgpack`, `MsgpackRoundTrip`, `MsgpackFormat`, `MsgpackTables`, `MsgpackPacked`, `MsgpackStreams`, `MsgpackLimits`, `MsgpackBuffer`, `MsgpackCursor` |
| timer sessions | lualib/env.lua, gt.c | `Sessions`, `WheelTokens`, `WheelWaits`, `SessionTokens`, `SessionCalls`, `SessionDrain`, `SessionTicks`, `SessionBoxes`, `Doubles`, `SessionObjects` |
| socket manager | common/somgr | `SoUtil`, `Sockets`, `SoTurns`, `SoMgr`, `SoRounds` |

**Scheduler.** A transition system for any number of threads and mailboxes, one step for each lock
acquisition, lock release or critical-section action.  The linked lists are modelled link by link.
A thread may post, tick the timer, add timers from a handler, or work; the program counter of a
poster that has linked a mailbox but not yet set `mIsG` is part of the invariant.  The lists and
the locked sections are also given in place (`MailboxObjects`), with the asserts of the source.
`SchedulerDelivery` follows each message from its post to its handler.

**Timing wheel.** `TimingWheel` is the wheel on values; `WheelLines` and `WheelRuns` show that it
refines one line-up of timers for each deadline, on every run and with callbacks that add timers;
`WheelNodes` and `WheelIds` follow the numbered nodes through the same runs; `TimerObjects` is timer.c in place,
with its doubly linked queues, its pool and its asserts, and is proved to compute what `TimingWheel`
says.  The wheel has 1 to 2^31 slots and timeouts below 2^32,
so that no slot arithmetic of the source wraps.  Line 120 of timer.c assigns `current` twice in one
expression and is read as `current = (current + 1) % N`.

**Codec.** Lua tables are a heap that may be cyclic, with an arbitrary order of keys.  A number is
held in the form in which it is packed (int64, float, or double), and every decoded pattern is
brought to that form; the encoder and the decoder are given as functions and, in place, as methods
on the buffer (an array that grows) and the cursor.  What the functions mean is stated without them:
`NumberReals` gives each pattern its real, `MsgpackFormat` is the format byte by byte, `MsgpackTables`
says what a table holds that is read, `MsgpackPacked` how one is packed, and `MsgpackLimits` what a
limit and an offset select.  Lengths and counts are below 2^32, counts of
keys below 2^31, as the source's `int` counters need.

**Sessions.** Lua tables, hands on their way to the timer, the wheel of `TimingWheel` and the
mailboxes, with one step for each search, each timeoutRaw, each message popped or handled, each
turn of the firing loop of a tick, and each start and end of a tick.  A `repeatn` is any double: NaN,
an infinity, a fraction or a whole number, and it is counted down in doubles.  Ticks that
luaL_checkinteger refuses are followed as written: the session is entered, and no timer is armed.
Env numbers start at 0 here and at 1 in the source.  `SessionDrain` shows that nothing but new
timeouts and a count that does not end can keep a callback from its last call; `SessionTicks` that it
comes as many ticks after each arming as it was asked for.  The mailboxes move as
those of the scheduler do (`SchedulerBoxes`, `SessionBoxes`); the order of their messages is that of
`SchedulerRuns.FifoNoLoss`.

**Socket manager.** Flags, buffers, queues and the pool, with the system calls as parameters: a
write takes any number of bytes, is interrupted, would block or fails; what epoll watches a socket
for is part of its state; callbacks write to and kick any socket, also one with an event that is
still to be served, and open new ones.  Where the source goes wrong it is followed: a write of nearly
2^32 bytes that is reported as done and is not (`LongWrite`), an assert that a kick makes fail
(`StaleRound`), an accept that ends at a null socket or fails an assert (`BadAccepts`), a null socket
when the pool is used up (`UsedUp`); each has this input and its exact condition.  `SoUtil` has the
buffers and the queues in place, `Sockets` what is done to one socket, `SoTurns` what the turns of a
round do, and `SoRounds` whole rounds.  From the answers of the system follows exactly how many bytes
go out and come in, and what becomes of every socket in use.

`TimerObjects.TimerWheel` and `SoMgr.SoManager` keep an invariant that every method restores, so it
holds in every state between two calls, up to a null socket in an error callback.

## Model

| member | source | states |
|---|---|---|
| Links.PushLinked | gq.c:38-49 | appending through `tail` keeps head, tail and every link agreeing with one sequence, for messages and for mailboxes |
| Links.PopLinked | gq.c:54-61 | taking the head yields the first element and keeps the links agreeing with the rest |
| SchedulerInv.StepInv | gq.c:98-150 | every step of every thread keeps the whole invariant: lock ownership, links, listed or held or neither, message history |
| SchedulerRuns.Exclusion | gq.c:98-150 | in every reachable state a mailbox is listed at most once or held by one worker, never both, and no two threads run the same mailbox |
| SchedulerRuns.FifoNoLoss | gq.c:38-64 | everything pushed to a mailbox is, in lock order, what was handled, then what its worker has in flight, then what is queued |
| SchedulerDelivery.EachInItsMailbox | gq.c:38-49 | in every reachable state each message is still being posted by its thread, or was pushed, once, to the mailbox it is for and to no other |
| SchedulerDelivery.PostedIsHandled | gq.c:127-138 | what is posted to a mailbox is at any later time in the hands of its poster or among what was pushed there, and has been handled there once all is settled |
| SchedulerRuns.HistoryOnlyGrows | gq.c:38-64 | what was once pushed or handled stays in its place for the rest of any run |
| SchedulerRuns.NeverStranded | gq.c:127-150 | a non-empty mailbox is listed, held by a worker, or locked by a poster that is about to list it |
| SchedulerDelivery.GivesUpEmpty | main.c:79-91 | a worker gives up a mailbox only while it holds its lock and the mailbox is empty, so it takes all messages before |
| SchedulerRuns.AssertsHold | gq.c:41-45 | no assert of the two linked queues fails in any interleaving, including the read of `mNext` at line 131 without the global lock |
| SchedulerRuns.NoDeadlock | gq.c:127-150 | whenever a thread spins on a lock, some thread that holds a lock can take a step: timer, mailbox, global is a sound lock order |
| SchedulerDrain.StepWork | main.c:79-91 | without new posts each step but the start of an empty gq_pop lowers a measure, also when the worker saw an empty mailbox before the last post |
| SchedulerDrain.DrainBound | main.c:79-91 | every quiet run has at most so many productive steps as the measure, and two for each empty gq_pop |
| SchedulerDrain.NeverStuck | main.c:79-91 | until all is settled some thread can take a productive step |
| SchedulerDrain.SettledIsDrained | gq.c:140-150 | once settled, all mailboxes are empty, all `mIsG` are zero, the global list is empty, and all that was pushed has been handled in order |
| MailboxObjects.Mailbox.PushRaw | gq.c:38-49 | in place: the message becomes the last one, nothing else moves, the asserts hold |
| MailboxObjects.Mailbox.Pop | gq.c:51-64 | in place: the first message is taken, or none from an empty mailbox |
| MailboxObjects.Mailbox.IsEmpty | gq.c:66-68 | the head is null exactly when there is no message |
| MailboxObjects.Mailbox.SameLinks | gq.c:38-64 | with the messages numbered, head, tail and `next` are those of `Links` for the same sequence |
| MailboxObjects.GlobalQueue.PushMqRaw | gq.c:114-125 | in place: the mailbox becomes the last one |
| MailboxObjects.GlobalQueue.SameLinks | gq.c:98-125 | with the mailboxes numbered, head, tail and `mNext` are those of `Links` for the same sequence |
| MailboxObjects.GlobalQueue.Pop | gq.c:98-112 | in place: the first mailbox is taken and its `mNext` cleared |
| MailboxObjects.GlobalQueue.PushMsg | gq.c:127-138 | the message is queued, and the mailbox is listed exactly if it was neither listed nor held |
| MailboxObjects.GlobalQueue.WorkerEnd | gq.c:140-150 | a held mailbox is listed again exactly if it is not empty, and otherwise retired |
| MailboxObjects.GlobalQueue.WorkerRound | main.c:79-91 | an uninterrupted round handles all messages of the first mailbox in order and retires it |
| WheelLines.PlaceInserts | common/timer/timer.c:209-228 | placing a timer changes the line-up of one deadline only, the one of its delay (at least 1 in a tick), on the direct or on the parked side |
| WheelLines.CascadeDirect | common/timer/timer.c:122-141 | the cascade appends to each slot just the parked timers that fall due in the new revolution, in their order |
| WheelLines.CascadeParked | common/timer/timer.c:122-141 | the others stay parked, in their order, one revolution closer |
| WheelLines.AdvanceLines | common/timer/timer.c:120-141 | the end of a tick, with or without a cascade, changes no line-up of a later tick |
| WheelLines.TickFires | common/timer/timer.c:101-119 | a tick calls back exactly the line-up of its own number, in order, and says `erased` exactly for the last firing |
| WheelLines.TickLine | common/timer/timer.c:101-142 | a later line-up only gets what the tick's callbacks and re-armed timers insert, at the place the route determines |
| WheelLines.AddLine | common/timer/timer.c:74-84 | an added timer joins the line-up of its own deadline and no other |
| WheelLines.ClockOfTick | common/timer/timer.c:120-122 | `current` is the number of completed ticks modulo the number of slots |
| WheelRuns.FiresOnSchedule | common/timer/timer.c:101-142 | on every run an armed timer fires exactly at its deadline and then every max(1, timeout) ticks, `repeat` times or for ever, over any number of revolutions |
| WheelRuns.AddedTimerFires | common/timer/timer.c:74-84 | a timer added at tick T with timeout p and repeat r has this schedule from T + p on |
| WheelRuns.CallbackArms | common/timer/timer.c:209-228 | a timer added by a callback of tick T is due at T + max(1, p), also if p is 0 |
| WheelRuns.ExpectedIs | common/timer/timer.c:105-119 | the schedule in closed form: the i-th firing is at due + i * max(1, p), and there are exactly r of them given the time |
| WheelRuns.AbsentNeverFires | common/timer/timer.c:101-142 | what was not added, or has fired for the last time, does not fire in any later run |
| WheelRuns.RunInOrder | common/timer/timer.c:122-141 | timers due at the same tick are never reordered, over any number of cascades |
| WheelRuns.FiringOrder | common/timer/timer.c:220-227 | a timer added between ticks that is parked fires after all then due at its tick; one placed directly fires after those on the slot and before those still parked |
| WheelRuns.TickFiringOrder | common/timer/timer.c:105-118 | the same for timers that callbacks add or that are armed again: within a tick they are placed in the order of the calls, the adds of a callback before its own timer, and keep that place until they fire |
| TimingWheel.NoWrap | common/timer/timer.c:209-228 | with at most 2^31 slots and delays below 2^32 no 32-bit sum or difference of the wheel wraps |
| TimerObjects.TObjQueue.AddTail | common/timer/timer.c:154-172 | in place: the node becomes the last item of its queue; links, `container` and `objn` agree |
| TimerObjects.TObjQueue.PopHead | common/timer/timer.c:174-192 | in place: the first item is taken and belongs to no queue, or null from an empty queue |
| TimerObjects.TimerWheel.constructor | common/timer/timer.c:52-63 | a new timer shows the empty wheel, and its queues are new, so that its owner can add and tick at once |
| TimerObjects.TimerWheel.EachNodeOnce | common/timer/timer.c:230-242 | between two calls every node of the pool is on exactly one of the free list, a slot and the long list, exactly once, and the pool is indexed by node number |
| WheelNodes.NodesConserved | common/timer/timer.c:74-142 | after any run each node of the pool is in one place only, a slot, the parked list or the free list, and no other number is in use |
| WheelNodes.PoppedNodes | common/timer/timer.c:106-112 | during its callback a node is in none of these places |
| WheelNodes.LastFiring | common/timer/timer.c:110-115 | a timer that fires for the last time is then the last of the free list, on no slot and not parked, whatever its callback adds |
| WheelIds.AddTakes | common/timer/timer.c:230-242 | timer_add takes the number that has been free longest; the pool grows only when none is free, to 8 nodes and then to twice as many, and the new numbers follow each other |
| WheelIds.CalledUnderItsId | common/timer/timer.c:101-119 | on every run that adds no second timer for that user data each callback of a timer gets the number that timer_add returned for it |
| TimerObjects.TimerWheel.ExpandObjpool | common/timer/timer.c:230-242 | doubling the pool, also inside a callback, only adds fresh nodes with new numbers at the end of the free list |
| TimerObjects.TimerWheel.AddObjRaw | common/timer/timer.c:209-228 | in place it does what `Place` does, and its assert holds at every call |
| TimerObjects.TimerWheel.TimerAdd | common/timer/timer.c:74-84 | in place it does what `Add` does, also re-entrantly while another node is firing, and keeps every node on one queue |
| TimerObjects.TimerWheel.CascadeAll | common/timer/timer.c:125-140 | both loops over the parked nodes, with the queue on the stack, do what `Cascade` does |
| TimerObjects.TimerWheel.TimerTick | common/timer/timer.c:101-142 | in place a tick does what `Tick` does and makes exactly the callbacks `TickFirings` lists, whatever the callbacks add |
| MsgpackRoundTrip.DecScalar | common/lserial.c:176-293 | every string, boolean and number, in whichever of the formats it is packed, reads back as itself; `NumberReals` shows that these are all the numbers there are |
| MsgpackFormat.PackedIsFormat | common/lserial.c:176-293 | every string, boolean and number is packed in the format as it is written down: first bytes, big-endian and two's-complement numbers, IEEE 754 patterns |
| MsgpackFormat.FormatIsRead | common/lserial.c:577-789 | every such format reads as its value, also one that packing does not choose |
| MsgpackFormat.ReadIsFormat | common/lserial.c:577-789 | and nothing else does: a string, boolean or number is read only from bytes in its format, and nil only from its one byte |
| MsgpackFormat.BadExactly | common/lserial.c:765-788 | bad format is reported exactly for the first bytes 0xc1, 0xc4 to 0xc9 and 0xd4 to 0xd8 |
| MsgpackFormat.ShortestText | common/lserial.c:176-202 | no header for a string of that length is shorter than the one packed |
| NumberReals.SingleKeeps | common/lserial.c:674-684 | what a finite 32-bit pattern is read as stands for the real that its sign, exponent and mantissa give, and is an integer exactly if that real is an int64 |
| NumberReals.SingleSpecial | common/lserial.c:674-684 | an infinity is read as itself and a NaN as a NaN |
| NumberReals.DoubleKeeps | common/lserial.c:685-694 | the same for finite 64-bit patterns; one that is no integer is read as a float with its value or as itself |
| NumberReals.DoubleSpecial | common/lserial.c:685-694 | an infinity is read as the float of its sign, and a NaN as itself |
| NumberReals.IntKeeps | common/lserial.c:632-673 | an int64 is read as the closest double, and as itself exactly if it is one |
| NumberReals.EveryDouble | common/lserial.c:369-377 | every double has a form in which it is packed, so the round trip is promised for every number |
| NumberReals.DoubleIsSingle | common/lserial.c:205-221 | a double that is no int64 is packed as a float if any float has its value |
| NumberReals.OneForm | common/lserial.c:205-221 | two numbers in their forms that stand for the same real are the same |
| MsgpackRoundTrip.ShortestInt | common/lserial.c:223-293 | no other integer format that reads as n is shorter than the one chosen for n |
| MsgpackRoundTrip.DecCount | common/lserial.c:295-339 | the header of an array or a map reads back as its kind and its count |
| MsgpackFormat.PackedCount | common/lserial.c:295-339 | the header of an array or a map is packed in the format as it is written down |
| MsgpackFormat.CountIsRead | common/lserial.c:577-789 | every such header, also a longer one than need be, is read as that many items or fields |
| MsgpackFormat.ShortestCount | common/lserial.c:295-339 | no header for that count is shorter than the one packed |
| MsgpackTables.ItemsAre | common/lserial.c:550-561 | an array holds under each index the value that stands there behind its header, and nothing else, no nil among it; it fails exactly if one of these values does |
| MsgpackTables.FieldsAre | common/lserial.c:563-573 | a map holds under each key what the last of its fields gives, and nothing if that is nil; it fails exactly if one of the values that stand behind its header does or a key is nil or NaN |
| MsgpackTables.LastIs | common/lserial.c:563-573 | that is the value of the field behind which no other has the key |
| MsgpackTables.ItemsError | common/lserial.c:550-561 | the error of an array is that of the first of its values that cannot be read |
| MsgpackTables.FieldsError | common/lserial.c:563-573 | the error of a map is that of the first of its fields whose key or, after it, value cannot be read, or, after both, whose key no table takes |
| MsgpackPacked.ArrayOrMap | common/lserial.c:468-473 | a table is packed as an array of its items exactly if its keys are 1 to n, and otherwise as a map of its fields |
| MsgpackPacked.FieldsInOrder | common/lserial.c:398-420 | the fields of a map stand one behind the other in the order of lua_next, each value behind its key |
| MsgpackPacked.NestingLimit | common/lserial.c:483-489 | tables are packed for 16 levels and as nil exactly at the next |
| MsgpackRoundTrip.RoundTrip | common/lserial.c:382-507 | unpacking a packed value gives its tree down to level 16 and stops right behind it, for any bytes behind, cyclic heaps and any order of keys; unsupported values and deeper tables are nil, and fields with nil values are gone |
| MsgpackStreams.CutIsEof | common/lserial.c:550-789 | every strict prefix of a packed value runs out of bytes: never success, never bad format |
| MsgpackStreams.Extends | common/lserial.c:577-789 | a result other than running out of bytes does not depend on the bytes behind |
| MsgpackStreams.UnpackPack | common/lserial.c:513-544 | unpack of pack of any values gives their trees, in order |
| MsgpackStreams.ChunksAgree | common/lserial.c:791-862 | repeated unpack_limit, or unpack_one, on the returned offsets advances until -1 and gives the values, or the kind of error, that unpack gives at once |
| MsgpackLimits.UnpackReads | common/lserial.c:791-842 | for any input, limit and offset: the values that stand there, at most as many as asked for and fewer only where the input ends, with the offset to go on from, -1 at the end; or the error of the value that cannot be read |
| MsgpackLimits.UnpackSome | common/lserial.c:848-862 | in the packed stream of vs, k values from the place of the i-th on are the i-th to the (i + k)-th, cut at the end, and the offset is the place of the next or -1 |
| MsgpackLimits.RefusedIs | common/lserial.c:800-806 | exactly a negative limit or offset and an offset behind the end are refused |
| MsgpackBuffer.MpBuf.Append | common/lserial.c:120-130 | in place: the buffer holds what it held and the bytes appended; it grows only when they do not fit, to twice what it holds then; growing has moved at most twice the bytes held |
| MsgpackBuffer.EncodeBytes | common/lserial.c:176-202 | appends exactly the packed string |
| MsgpackBuffer.EncodeInt | common/lserial.c:223-293 | appends exactly the packed integer, with the shifts and masks of the source on two's complement |
| MsgpackBuffer.ScanDecides | common/lserial.c:455-462 | the largest key equals the number of keys exactly if the keys are 1 up to that number |
| MsgpackBuffer.TableIsAnArray | common/lserial.c:425-463 | true exactly if the set of keys is 1 to n, for any order of enumeration |
| MsgpackBuffer.BorderIsCount | common/lserial.c:382-395 | such a table has one border, n, so the length that Lua reports leaves out no item |
| MsgpackBuffer.EncodeLuaType | common/lserial.c:483-507 | appends exactly the packed value, for any heap and level |
| MsgpackBuffer.MpPack | common/lserial.c:513-544 | gives the packed stream from one reused buffer, moving for each value at most twice its packed length |
| MsgpackCursor.DecodeLuaType | common/lserial.c:577-789 | the cursor ends with the value, position and error of `Dec` on any bytes, never reads past the input, and has made no more values than it consumed bytes |
| MsgpackCursor.DecodeArray | common/lserial.c:550-561 | an array of any claimed length ends with the result of `DecItems` |
| MsgpackCursor.DecodeHash | common/lserial.c:563-573 | a map of any claimed length ends with the result of `DecFields`; a nil or NaN key is a Lua error |
| MsgpackCursor.MpUnpackFull | common/lserial.c:791-842 | the loop gives the values, the next offset or the error of `UnpackFull`, which `MsgpackLimits` describes, for any limit and offset; the offset goes through an `int`, which cuts it from 2^31 bytes on |
| WheelTokens.FireKeeps | common/timer/timer.c:105-118 | a turn of the firing loop takes off the wheel just the user data it calls back with, when every timer fires once |
| WheelTokens.AdvanceKeeps | common/timer/timer.c:120-141 | the end of a tick moves timers and loses none |
| Sessions.TickOfSteps | gt.c:54-58 | the steps of an undisturbed gt_update are a tick of the wheel and the messages of its firings, in order |
| WheelTokens.AddKeeps | gt.c:45-52 | adding puts one more token on the wheel and loses none |
| SessionTokens.StepKeeps | lualib/env.lua:13-78 | every step keeps one token for each live session whose ticks were taken and none for others |
| SessionTokens.HandledIsLive | lualib/env.lua:65-78 | the timer message that an env handles is for a live session whose ticks were taken |
| SessionTokens.TokensConserved | lualib/env.lua:65-78 | on every run, with ticks, workers and envs interleaved, the tokens of a session in wheel, mailbox, flight and hand are exactly one if it is live and its ticks were taken and none if not, and "error timer id" never comes up |
| SessionCalls.InvokedExactly | lualib/env.lua:65-78 | on every run a callback has been invoked fewer times than it is to be while its session is live, and exactly so often when it is free; a session whose ticks were refused or whose count does not end is live for ever |
| SessionTicks.TicksKept | lualib/env.lua:65-78 | on every run the hand that is to arm a live session, and its timer on the wheel, of which there is at most one, have the ticks of the call that opened it, the first time and every time again |
| SessionTicks.FiresWhenDue | gt.c:19-30 | on every run the message of a session is posted in the tick that lies its ticks behind the one in which it was armed |
| Doubles.EndsExactly | lualib/env.lua:68-69 | the count of any double is at 0 or below from the call on that `Times` says, and not before; if it does not end, after no call |
| Doubles.CountIs | lualib/env.lua:68-69 | what is left after k calls: x - k up to 2^53; 2^53 + 1 - k for 2^53 + 2; beyond, x for ever if it is a multiple of 4 and x - 2 if not; NaN and infinities stay |
| Doubles.RightCount | lualib/env.lua:68-69 | so the calls are max(1, repeatn), rounded up, exactly for a repeatn up to 2^53; 2^53 + 2 gets one call too few, every other one beyond has no end |
| Doubles.LessIsExact | lualib/env.lua:68 | one less than a double from 1 to 2^53, whole or not, is a double, so up to there nothing is rounded |
| Doubles.CountsDown | lualib/env.lua:68 | one step for a whole double x, rounded: x - 1 up to 2^53, beyond it x or x - 2 |
| Doubles.RoundedNearest | lualib/env.lua:68 | what that rounding is: the result is a double, none is closer, and of two that are as close it is the one with the even mantissa |
| Doubles.RoundedExactly | lualib/env.lua:68 | it leaves alone just the whole numbers with a mantissa of 53 bits |
| WheelWaits.AdvanceWait | common/timer/timer.c:120-141 | the end of a tick brings every timer exactly one tick nearer, also over a cascade |
| SessionDrain.StepWork | lualib/env.lua:65-78 | every step but a new timeout or one of a tick of an empty wheel uses up some of the work that is left, and a tick of an empty wheel makes none, as long as every count ends |
| SessionDrain.DrainBound | lualib/env.lua:65-78 | so on every run without new timeouts there are at most so many such steps as there is work, however many ticks of an empty wheel come between |
| SessionDrain.NeverStuck | lualib/env.lua:65-78 | while a session whose ticks were taken is live such a step can be made, if need be after the end of a tick |
| SessionDrain.StuckIsServed | lualib/env.lua:65-78 | where none is left between two ticks, every session whose ticks were taken is free and its callback has been invoked exactly as often as it is to be |
| SessionDrain.EveryCallbackServed | lualib/env.lua:65-78 | from the end of any run in which every count ends some steps without new timeouts lead there |
| SchedulerBoxes.StepQueue | gq.c:38-64 | every step of every thread does to each mailbox nothing, a push at the end, a pop of the first message by the one worker that has none in flight, or the end of handling |
| SessionBoxes.EnvStep | gt.c:19-30 | and every step of the sessions does one of these to the mailbox of each env |
| SessionObjects.LuaEnv.Timeout | lualib/env.lua:13-32 | the search ends while fewer than 2^32 sessions are live, with the first free one behind the last, and enters the callback under it, also when the ticks are refused after that |
| SessionObjects.LuaEnv.OnTimer | lualib/env.lua:65-78 | a live session is counted down, in doubles, and armed again with the ticks it was opened with, or freed, and its callback called; another one is refused |
| SessionObjects.Gt.Add | gt.c:45-52 | puts the token of env and session on the timer once |
| SessionObjects.Gt.Update | gt.c:54-58 | does a tick of the wheel and, in the callback of each firing, posts the token to the mailbox of its env |
| SessionObjects.Gt.constructor | gt.c:32-37 | a new timer with 60000 empty slots, which its owner can use at once |
| SoUtil.GrownEnough | common/somgr/so_util.c:8-11 | with the 32-bit sum and its guard, the new capacity has the room asked for, with at most 1024 bytes more, or is refused as the sum does not fit in 32 bits, exactly if less than 2^32 - 1024 is asked for; from there on it stays as it was and is taken for a success |
| SoUtil.GrownTooLittle | common/somgr/so_util.c:8-11 | the input at which that shows: an empty buffer that is to hold 2^32 - 1 bytes gets none |
| SoUtil.SBuf.Expand | common/somgr/so_util.c:8-17 | the contents stay; the capacity is the 32-bit one of the source, enough for what is needed exactly if that is below 2^32 - 1024; a refusal or lack of memory changes nothing |
| SoUtil.SBuf.Readed | common/somgr/so_util.c:23-29 | the first n bytes go and the rest moves up; more than there is changes nothing |
| SoUtil.SBuf.Writed | common/somgr/so_util.c:31-44 | the bytes are appended if they fit |
| SoUtil.SoQueue.Pop | common/somgr/so_util.c:55-71 | in place: the first socket is taken |
| SoUtil.SoQueue.Push | common/somgr/so_util.c:73-90 | in place: the socket becomes the last one |
| SoUtil.SoQueue.Erase | common/somgr/so_util.c:92-111 | in place: any socket of the queue is taken out and the others keep their order; nothing happens to one on no queue |
| SoUtil.WithoutNumbers | common/somgr/so_util.c:92-111 | taking a socket out of a queue is taking its number out of the numbers, as the socket manager has it |
| Sockets.OfferedIs | common/somgr/somgr.c:179-204 | what write takes is the sum of its answers up to the first that blocks, fails or takes nothing, and it has failed unless that blocks |
| Sockets.EraseAgrees | common/somgr/somgr.c:467-481 | a socket taken out of a queue leaves queue membership and `curq` in agreement |
| SoMgr.SoManager.OutputKept | common/somgr/somgr.c:357-410 | between two calls: bytes given to the system and then the write buffer are all bytes accepted, in order; left output is queued for writing while writable, or watched by epoll; likewise for input |
| SoMgr.SoManager.FlushSo | common/somgr/somgr.c:179-204 | for every sequence of answers: just so many bytes as write takes, but no more than there are, move from the front of the buffer to the system; it fails exactly if write does before the buffer is empty |
| SoMgr.SoManager.MakeRoom | common/somgr/somgr.c:369-388 | what can be sent is sent first, the capacity grows by what is still missing, and it fails exactly if write fails, epoll refuses or there is no memory or no such capacity; when it does not there is room for the data exactly if less than 2^32 - 1024 bytes are needed beyond the capacity |
| SoMgr.SoManager.Write | common/somgr/somgr.c:357-410 | refused for a bad number or a socket that is not connected; it fails exactly if `MakeRoom` does, and then the socket is bad; else the buffer is what was not sent and then all data exactly if the need is below 2^32 - 1024, and no data otherwise; every field of the socket is given, and other sockets stay as they are |
| SoRounds.LongWrite | common/somgr/somgr.c:357-410 | the input: the longest write to a connected socket with an empty buffer returns 0 and accepts nothing |
| SoMgr.SoManager.Kick | common/somgr/somgr.c:412-427 | a socket in use gives away what write takes, becomes bad and is queued for freeing; others stay as they are |
| SoMgr.SoManager.RemoveSo | common/somgr/somgr.c:467-481 | the socket leaves the queue of writers, is not watched any more, and is queued as bad; nothing happens to one that is bad already |
| SoMgr.SoManager.ExpandSos | common/somgr/somgr.c:429-455 | the pool grows to 2 and then to twice as many sockets, the new ones free and queued in the order of their numbers, old ones stay; nothing happens at the limit |
| SoMgr.SoManager.AllocSo | common/somgr/somgr.c:457-465 | gives a free socket, reset, also when the pool has to grow; the null socket exactly if none is free and the pool is at its limit |
| Sockets.NullExactly | common/somgr/somgr.c:429-465 | a run of calls comes to the null socket exactly if it opens a socket when as many have been opened before as the pool, which has a power of two of sockets up to 2^27, has room for |
| SoMgr.SoManager.Enter | common/somgr/somgr.c:121-131 | a socket that listens, connects or was accepted is entered with its flags and watched as it should be, or is free again if epoll does not take it; it is the one that has been free longest; no other socket changes |
| SoMgr.SoManager.RunOps | common/somgr/somgr.c:357-427 | whatever a callback writes to, kicks and opens: what each of its calls makes of each socket, in turn; sockets it does not name stay, those it kicks are bad, and it comes to a null socket exactly if it opens more than the pool has |
| SoMgr.SoManager.FreeSo | common/somgr/somgr.c:517-528 | a reaped socket is reset and can be allocated again |
| SoMgr.SoManager.ProcConnected | common/somgr/somgr.c:206-221 | a connecting socket becomes writable and watched for input and its callback is called, or it becomes bad, exactly by what getsockopt and epoll answer; one that was made bad meanwhile stays as it is |
| SoMgr.SoManager.ProcAccept | common/somgr/somgr.c:276-309 | a connection is entered, writable and watched for input, under the number that has been free longest, and the callback called; exactly when accept fails for good or the pool is used up it ends at a null socket, and exactly when epoll refuses the new socket at a failing assert |
| SoTurns.ReadCapIs | common/somgr/somgr.c:227-233 | a full read buffer gets 2048 bytes at first and then a little more than twice as many, as long as that is below 2^32 and there is memory |
| SoMgr.SoManager.ReadInto | common/somgr/somgr.c:227-238 | all bytes that read gives, as far as there is room, are behind those left in the buffer; it fails exactly if read gives nothing or there is no room |
| SoMgr.SoManager.ProcRead | common/somgr/somgr.c:226-255 | whatever the callback does besides: what it is shown is what was left and then what was read, and of this just the first pn bytes go; it goes on exactly if pn is in range and the socket was not kicked |
| SoMgr.SoManager.ProcRw | common/somgr/somgr.c:223-274 | input goes through the read callback and output to the system, byte for byte, whatever the callback does to any socket; a socket that its own callback leaves alone becomes bad exactly if read gives nothing, pn is out of range, write fails or epoll refuses, and else is writable exactly if all output is gone; the asserts on an output event fail exactly for an output-only event on a socket that was made bad meanwhile |
| SoMgr.SoManager.ProcWrite | common/somgr/somgr.c:260-269 | just so much output as write takes goes out; it fails exactly if write does or epoll refuses to watch for input only, and else the socket is writable exactly if all is gone |
| SoMgr.SoManager.ReapOne | common/somgr/somgr.c:315-321 | the socket that has been bad longest gets its callback, whose calls do to each socket what they should, and is then free |
| SoMgr.SoManager.ReapBad | common/somgr/somgr.c:315-321 | ends, with every bad socket freed, also those the error callbacks add, for any finite list of what the callbacks do, opening sockets included; a socket that is not bad and that no callback names stays as it is |
| SoRounds.Reopened | common/somgr/somgr.c:315-321 | an error callback that opens a socket and kicks it leaves the loop with a bad socket again, so callbacks that all do so keep it going |
| SoMgr.SoManager.FlushWriter | common/somgr/somgr.c:323-333 | the socket at the head of the queue sends just what write takes; it is bad exactly if write fails or epoll refuses to watch for what is left, and else writable exactly if nothing is |
| SoMgr.SoManager.FlushWriters | common/somgr/somgr.c:323-333 | ends, with each socket of the queue flushed so by its own answers, no other changed, no socket queued and every socket with output left watched by epoll |
| SoMgr.SoManager.Serve | common/somgr/somgr.c:338-354 | one event, also for a socket that is bad by now, keeps the invariant; which assert fails, and whether it comes to a null socket, is told exactly from the socket, the event and the size of the pool; and it does to the socket, before and after its callback, and to all others exactly what it should |
| SoMgr.SoManager.ServeAll | common/somgr/somgr.c:338-354 | the events of a batch are served in turn, stale ones as written, and the asserts on output fail exactly if at its turn the socket of an output-only event on a connection is bad |
| SoTurns.ReportedIs | common/somgr/somgr.c:335-337 | epoll reports only what is wanted and watched for |
| SoTurns.ReportedAll | common/somgr/somgr.c:335-337 | and something of each socket for which something wanted is watched |
| SoRounds.ApartHolds | common/somgr/somgr.c:258-259 | what can be checked before: these asserts hold if no callback writes to or kicks the socket of a later output-only event |
| SoRounds.KickBreaks | common/somgr/somgr.c:258-259 | and, told from the sockets as reported: no batch gets to its end in which a callback of accept, connect or read kicks a connection that has one, and at the turn of that event it is the assert that fails |
| SoRounds.StaleRound | common/somgr/somgr.c:258-259 | such a batch: two connections, the first with its first input, whose callback kicks the second |
| SoRounds.UsedUp | common/somgr/somgr.c:457-465 | a pool of 2^27 sockets, all in use, and one more connection: the null socket |
| SoRounds.BadAccepts | common/somgr/somgr.c:276-309 | a listening socket whose accept fails for good, and one whose new socket epoll refuses |
| SoMgr.SoManager.RunOnce | common/somgr/somgr.c:311-355 | a whole round, with any events that epoll can report and any callbacks that write, kick and open, keeps the invariant: bad sockets get the error callbacks in turn and are freed, every connection with output that is writable then is flushed by its own answers, and the events are served as in ServeAll; only error callbacks that open sockets can come to a null socket before |

## Left out

- gs.c: mostly epoll, accept and read calls; the socket manager is the fuller form of the same idea.
- timer_del and uq_erase of timer.c: uq_erase takes its node for the head and leaves `objn` as it is, and nothing calls timer_del.
- timer_nearest, the wall clock, and failing allocation in timer.c, gq.c and lserial.c.
- Wrap-around of the pool size of timer.c beyond 2^31 nodes, and of `timeleft` for more slots or longer timeouts than stated above.
- env.c: creating, booting and locating environments, and the Lua stack; env numbers are given, and those beyond the list are dropped.
- Condition variables, usleep and the fairness of spin locks: a worker without work may stutter, and a lock is one atomic step.
- Metatables, garbage collection and the limits of the Lua stack in the codec.
- Lengths of 2^32 and more in the codec, whose headers keep only the low 32 bits, and arrays of 2^31 and more items, which need as many bytes of input.
- MsgpackRoundTrip.RoundTrip: table keys that are tables or unsupported values, as the decoder refuses a nil key and makes a new table for each table key.
- MsgpackBuffer.EncodeDouble: the cast of a double to float is not computed; whether a number is a float is the form in which it is held, which `NumberReals` relates to its real.
- MsgpackCursor.DecodeLuaType: the index that an array pushes for each item is not counted as a value.
- Time limits for the Lua callbacks and errors thrown by them, which the protected call of env.c ends.
- SoMgr.SoManager: a queue is the sequence of the numbers of its sockets and a buffer its contents and capacity; links and bytes in place are in `SoUtil`.
- SoMgr.SoManager.ServeAll: what happens after a failing assert or a null socket is not followed.
- SoMgr.SoManager.ReapBad: with callbacks that open and kick for ever the loop does not end; here they are a finite list.
- SoMgr.SoManager.Enter: the calls of socket, bind, listen and connect before the socket is allocated, which change no socket when they fail.
- SoMgr.SoManager.Write: in the case that 0 is returned and nothing accepted, the bytes that memcpy writes behind the buffer are not modelled.
- SoMgr.SoManager.ProcRw: a read that would block removes the socket, as the source is written.
- The notify socket pair and select of somgr.c.
