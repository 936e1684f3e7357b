# DCS shell: verified model of the data path and the alarm engine

A Dafny model of the core of a process-control operator station: the buffers between the fieldbus and the screens, the
alarm engine with its flood detector and shelving, the Modbus write queue and reconnection, password encryption, the
recent-history cache, the tag table, the limit check with its deadband, and the scaling between engineering values and
16-bit registers.

Concurrent parts are step relations over whole runs: a run is a sequence of states and a sequence of actions, one atomic
step apart, and a theorem holds in every state of every run. Stateful classes are Dafny classes whose methods are proved
to take the abstract state to what a function says; the theorems over runs are then about those functions. Every method
of `AlarmEngine`, `FloodDetector`, `ShelveManager`, `ModbusLink` and `TagManager` is proved so; the table below names only
those with a loop.

| file | what it models |
|---|---|
| `RingBuffer.dfy` | the sequence-numbered ring, as a protocol (any number of producers, one consumer) and as a class |
| `DoubleBuffer.dfy` | snapshot publication, pool, recycling deleter; the class run without interference |
| `AlarmTypes.dfy`, `AlarmEngineState.dfy` | the alarm tables and one function per engine operation and timer callback |
| `AlarmEngine.dfy` | the engine as a class, with its loops, proved against those functions |
| `AlarmEngineStates.dfy`, `AlarmEngineOnDelay.dfy`, `AlarmEngineEscalation.dfy`, `AlarmEngineReturn.dfy`, `AlarmEngineShelves.dfy`, `AlarmEngineIds.dfy`, `AlarmEngineFlood.dfy`, `AlarmEngineUnshelve.dfy` | what holds over every run of the engine |
| `AlarmEngineTriggers.dfy`, `AlarmEngineOperators.dfy` | the outcome of a trigger, of an operator's state change, of the flood check and of the chattering guard for one alarm |
| `AlarmEngineWitness.dfy` | runs from the idle engine in which it goes wrong |
| `AlarmSignal.dfy` | the limit check feeding the engine: from signals to alarms |
| `FloodDetector.dfy`, `ShelveManager.dfy` | the two timed components of the engine |
| `LockOrder.dfy` | the locks and table accesses of every engine call: deadlock freedom, and which calls can race |
| `ModbusComm.dfy` | the write queue as a protocol and as a class; heartbeat and reconnection |
| `Bits.dfy`, `BlockChain.dfy`, `CryptoConfig.dfy` | bitwise operators, the chained block loops, padding, base64, the text format |
| `HistorySampler.dfy` | the per-tag rings and the archive buffer against one append-only log |
| `TagManager.dfy` | the tag table and its three indexes |
| `LimitCheck.dfy`, `Scaling.dfy` | deadband hysteresis; register scaling, in exact arithmetic |

## Assumptions

- Atomics are sequentially consistent and `compare_exchange_weak` may fail spuriously. The ring has one consumer, and the
  snapshot buffer one thread that writes and commits, as the code assumes without checking it. `DataPipeline` writes set
  points into the same buffer from another thread; the model does not cover that race.
- `pos & m_mask` is taken as `pos % Capacity`, which is the same for a power of two. Counters do not wrap.
- Clocks are inputs. They are positive and never run backwards wherever a theorem over runs needs that.
- In the runs of the engine each public operation and each timer callback is one step. Only `LockOrder.dfy` looks inside.
- Locks are exclusive and not recursive; a read-write lock is treated as exclusive.
- The suppression rules' verdict, the chattering guard's verdict, a tag's off-delay, libmodbus results, repository
  results, the IV, the key-block hash and the UTF-8 codec are inputs.

## Where the code differs from what one might expect

- `size()` is not bounded by Capacity. Between the consumer's sequence store and its store to `m_dequeuePos` a producer
  can already refill the slot, and a reader of both counters gets Capacity + 1. `SizeBound` gives the exact condition and
  `SizeOverruns` a run for every capacity.
- Eighteen alarms within 600 s always make a flood; nineteen are not needed, and seventeen are not enough.
- Acknowledging a return to normal by tag or for all alarms erases the entry straight from RtnUnack, which the transition
  table does not list. Shelving, suppressing and taking out of service set the state unconditionally.
- On unshelving, unsuppressing and returning to service `isActive()` is computed while the alarm is still shelved,
  suppressed or out of service. An alarm that was put there therefore always lands in RtnUnack, however live it was.
- An escalated or returned alarm is announced from the table's entry after the mutexes were given back, and the past
  floods, the shelve history and the shelve count are read without one. These are exactly the calls that can race.
- An operator's unshelve need not last. If a flood is still on, the next check puts a non-critical alarm aside again, now
  with RtnUnack saved. If a recovery has begun, the alarm is still in the pending table, and the recovery puts the saved
  state back over it. `UnshelveLastsIff` gives the exact condition, and there is a run for each of the two cases.
- A recovery can make an alarm acknowledged that nobody has acknowledged since it was triggered: one that was acknowledged before
  the flood, unshelved during the recovery and triggered anew. `AcknowledgedRightlyIff` gives the exact condition and
  `RecoveryAcknowledges` a run.
- A sample dropped as a spike does not replace the previous value. A signal that steps by more than 3 * limit * interval
  and stays there is therefore dropped for good, and no limit alarm is raised.
- The engine compares limits by the order of their declaration, in which LowLow comes before Low. A LowLow trigger does not
  escalate a Low alarm, and a Low trigger turns a LowLow alarm into a Low one of lower priority.
- A published snapshot holds only the tags written since the previous commit.
- The crossing half of the deadband test never applies, because the previous value is overwritten before the check. LowLow
  alarms are shadowed by Low in every usual configuration.
- Removing one of two tags that share a name or an address takes the other one out of the index. Looking up an unknown name gives
  the tag with id 0 if there is one.
- A cached trend answers as soon as it has one record in the range, even when older records of the range are only in the
  repository.

## Model

| member | source | states |
|---|---|---|
| `RingProtocol.InvStep` | host/infrastructure/messaging/LockFreeRingBuffer.h:24-66 | every atomic step of enqueue and dequeue, by any of any number of producers or the consumer, keeps the protocol's invariant |
| `RingProtocol.Fifo` | host/infrastructure/messaging/LockFreeRingBuffer.h:24-66 | in every run the values dequeued are a prefix of the values enqueued, and at most Capacity are inside |
| `RingProtocol.LogsGrow` | host/infrastructure/messaging/LockFreeRingBuffer.h:24-66 | what was enqueued or dequeued stays so |
| `RingProtocol.NoTornAccess` | host/infrastructure/messaging/LockFreeRingBuffer.h:31-33 | no two producers write at once, and no slot is read while it is written |
| `RingProtocol.EnqueueOutcome` | host/infrastructure/messaging/LockFreeRingBuffer.h:24-37 | in every run the value an enqueue returns is true exactly if that call appended its value to the queue, which it did once, and false exactly if all Capacity slots were unreleased at its sequence load |
| `RingProtocol.DequeueOutcome` | host/infrastructure/messaging/LockFreeRingBuffer.h:54-66 | in every run a dequeue that returns a value took it, once, from the front of the queue, and one that returns nothing found nothing published at its sequence load |
| `RingProtocol.DequeueIsWaitFree` | host/infrastructure/messaging/LockFreeRingBuffer.h:54-66 | in every run a dequeue is over after at most seven steps of its own, whatever the producers do |
| `RingProtocol.DequeueCanStep` | host/infrastructure/messaging/LockFreeRingBuffer.h:54-66 | in every state of the invariant a dequeue under way can take its next step |
| `RingProtocol.EnqueueCanStep` | host/infrastructure/messaging/LockFreeRingBuffer.h:24-37 | an enqueue waits for the mutex only: its holder can always take its next step, and a free mutex can be taken by each that waits |
| `RingProtocol.SizeBound` | host/infrastructure/messaging/LockFreeRingBuffer.h:84-88 | size() never exceeds Capacity + 1, and exceeds Capacity exactly in the window between the consumer's two stores |
| `RingProtocol.SizeOverruns` | host/infrastructure/messaging/LockFreeRingBuffer.h:84-88 | for every capacity a reachable state in which size() is Capacity + 1 |
| `RingBuffer.LockFreeRingBuffer.Enqueue` | host/infrastructure/messaging/LockFreeRingBuffer.h:24-37 | succeeds exactly when there is room, and appends |
| `RingBuffer.LockFreeRingBuffer.Dequeue` | host/infrastructure/messaging/LockFreeRingBuffer.h:54-66 | hands out and removes the oldest value, or nothing when empty |
| `RingBuffer.LockFreeRingBuffer.DequeueBatch` | host/infrastructure/messaging/LockFreeRingBuffer.h:68-78 | hands out the oldest min(maxCount, size) values in order |
| `DoubleBuffer.InvStep` | host/infrastructure/messaging/DoubleBuffer.h:40-96 | every atomic step keeps each map in one place and the published pointer on the latest commit |
| `DoubleBuffer.ExactlyOnePlace` | host/infrastructure/messaging/DoubleBuffer.h:49-96 | in every run an allocated map is in exactly one of: one pool slot, published or held by readers, with the writer, with one deleter; and nothing else is anywhere |
| `DoubleBuffer.NoDoubleFree` | host/infrastructure/messaging/DoubleBuffer.h:88-96 | every free hits an allocated map that nobody refers to |
| `DoubleBuffer.FreedOnlyIfRefused` | host/infrastructure/messaging/DoubleBuffer.h:88-96 | in every run a map is freed only if, in one walk, each of the five slots was taken when its deleter tried it or its compare-exchange failed |
| `DoubleBuffer.AllocatedOnlyIfMissed` | host/infrastructure/messaging/DoubleBuffer.h:76-86 | in every run a map is allocated only if, in one scan, each of the five slots was empty when the writer loaded it or its compare-exchange failed or came too late |
| `DoubleBuffer.SparesAreEmpty` | host/infrastructure/messaging/DoubleBuffer.h:49-96 | in every run the maps in the pool, on their way there and just taken from it are empty |
| `DoubleBuffer.InUseUnchanged` | host/infrastructure/messaging/DoubleBuffer.h:49-64 | no step changes a map that is published or held by a reader |
| `DoubleBuffer.SnapshotStable` | host/infrastructure/messaging/DoubleBuffer.h:49-64 | a reader that keeps its handle keeps seeing the snapshot that was the latest when it called readAll |
| `DoubleBuffer.CommitsAreLastWrites` | host/infrastructure/messaging/DoubleBuffer.h:40-60 | the k-th published snapshot is the writes since the commit before it, applied in order |
| `DoubleBuffer.LastWriteWins` | host/infrastructure/messaging/DoubleBuffer.h:40-47 | a snapshot built from writes has each tag's last write and no other tag |
| `DoubleBuffer.CommitNeverWaits` | host/infrastructure/messaging/DoubleBuffer.h:49-86 | in every run a commit under way can take its next step, whatever readers and deleters do |
| `DoubleBuffer.CommitAdvances` | host/infrastructure/messaging/DoubleBuffer.h:49-86 | each of its steps brings a commit nearer to its end, by a bound of fifteen, and no other step sets it back |
| `DoubleBuffer.DeleterAdvances` | host/infrastructure/messaging/DoubleBuffer.h:88-96 | the same for the return of a map to the pool, by a bound of seven |
| `SnapshotBuffer.Buffer.Commit` | host/infrastructure/messaging/DoubleBuffer.h:49-60 | readers then see exactly the writes since the previous commit |
| `SnapshotBuffer.AcquireFromPool` | host/infrastructure/messaging/DoubleBuffer.h:76-86 | takes the first pooled map whose compare-exchange does not fail, or none if every one fails |
| `SnapshotBuffer.ReturnToPool` | host/infrastructure/messaging/DoubleBuffer.h:88-96 | fills the first empty slot whose compare-exchange does not fail, or reports that the map is to be freed |
| `FloodDetection.RunInv` | host/domain/alarm/FloodDetector.h:15-73 | windows, counts, flood times and past floods fit together in every run, including that a second alarm in a window puts the last-alarm time into it |
| `FloodDetection.FloodStartsAtTen` | host/domain/alarm/FloodDetector.h:18-38 | a flood starts exactly when the tenth alarm of a 600 s window arrives |
| `FloodDetection.FloodLastsAMinute` | host/domain/alarm/FloodDetector.h:19-20 | a flood ends only after 60 s, is filed first with its end time, and until then goes on |
| `FloodDetection.FloodEndsIff` | host/domain/alarm/FloodDetector.h:15-73 | a flood ends exactly when it has lasted 60 s and either an alarm comes after its window or a check comes 600 s after the last alarm |
| `FloodDetection.WeightedCountIs` | host/domain/alarm/FloodDetector.h:15-43 | the weighted count is five for each Critical, three for each Major and one for each other alarm since the window or the count last started anew |
| `FloodDetection.PastFloods` | host/domain/alarm/FloodDetector.h:55-64 | at most 100 past floods, newest first, ends 60 s apart, each with a peak of at least ten and at least its alarm count |
| `FloodDetection.CurrentFloodIs` | host/domain/alarm/FloodDetector.h:30-43 | in every run the current flood starts with the window it began in and has no end; its counts are those at the last alarm that joined a window, its peak the highest since it began |
| `FloodDetection.PastIsNewest` | host/domain/alarm/FloodDetector.h:55-64 | the past floods are the newest hundred of all that ended, each as it stood and with its end time |
| `FloodDetection.TwoWindows` | host/domain/alarm/FloodDetector.h:18-28 | alarms within 600 s that raise no flood fall into at most two windows with at most nine each |
| `FloodDetection.EighteenAlarmsFlood` | host/domain/alarm/FloodDetector.h:15-53 | any 18 alarms within 600 s, with any expiry checks between them, leave a flood right after one of them |
| `FloodDetection.SeventeenAlarmsMayNot` | host/domain/alarm/FloodDetector.h:15-53 | a run with 17 alarms within a millisecond and no flood |
| `Shelving.ShelveManager.UnshelveTag` | host/domain/alarm/ShelveManager.h:44-54 | the manager's whole new state; the newest open record of the tag is stamped |
| `Shelving.ShelveManager.CheckExpired` | host/domain/alarm/ShelveManager.h:61-81 | the erase-while-iterating loop puts each due tag into exactly one of its two lists, once, and no other tag into either |
| `Shelving.RunInv` | host/domain/alarm/ShelveManager.h:14-81 | deadlines and automatic marks cover the same tags; at most 200 history records, newest first, with consistent times |
| `Shelving.HistoryIsNewest` | host/domain/alarm/ShelveManager.h:25-54 | the history is the newest two hundred of all the records there would be without a bound |
| `Shelving.CheckLeavesFuture` | host/domain/alarm/ShelveManager.h:61-81 | after a check every deadline lies in the future: a due one was moved by 600 s, with the count up by one, exactly if the shelve is automatic with a count of at least three, and dropped otherwise; one not due is unchanged |
| `Shelving.ShelveCounts` | host/domain/alarm/ShelveManager.h:14-25 | in every run an automatic shelve adds to the count of its tag if the tag was last unshelved less than 60 s before, and starts it at one otherwise; no other count changes |
| `Shelving.ExtensionNeedsThreeShelves` | host/domain/alarm/ShelveManager.h:19-25 | an extension has behind it three automatic shelves of the tag, the second and third less than 60 s after an unshelve |
| `LockOrder.PathKeeps` | host/domain/alarm/AlarmEngine.h:217-221 | every engine call takes its locks in rank order, takes none it holds, and ends with none; and it touches each of the engine's tables only under that table's mutex exactly if it is neither an announced trigger nor an unlocked query |
| `LockOrder.TimeoutPathKeeps` | host/domain/alarm/AlarmEngine.cpp:177-255 | the same for an expired on-delay, which counts alarms only after unlocking and is guarded throughout |
| `LockOrder.TickKeeps` | host/domain/alarm/AlarmEngine.cpp:641-705 | the same for the 10 s tick, which may drop and retake the mutex to store a snapshot |
| `LockOrder.SomebodyMoves` | host/domain/alarm/AlarmEngine.h:217-221 | from any waiting thread the chain of lock holders leads to a thread that can move |
| `LockOrder.NoDeadlock` | host/domain/alarm/AlarmEngine.h:217-221 | in every run of any number of threads making any calls, some unfinished thread can move |
| `LockOrder.NoRelock` | host/domain/alarm/AlarmEngine.cpp:74-112 | no lock is held twice and no thread asks for one it holds |
| `LockOrder.NoRace` | host/domain/alarm/AlarmEngine.h:217-221 | in every run two threads are at one table at the same time only if one of them makes a call that is not guarded |
| `LockOrder.UnguardedRaces` | host/domain/alarm/AlarmEngine.cpp:112-138 | each such call does race: a run in which it reads the alarm table without the mutex while an operator's action changes it |
| `AlarmEngines.AlarmEngine.OnDelayTimerFires` | host/domain/alarm/AlarmEngine.cpp:10-30 | every expired on-delay entry is taken once and handled |
| `AlarmEngines.AlarmEngine.OffDelayTimerFires` | host/domain/alarm/AlarmEngine.cpp:33-46 | every expired off-delay entry is taken once and handled |
| `AlarmEngines.AlarmEngine.SuppressNonCritical` | host/domain/alarm/AlarmEngine.cpp:331-348 | the loop puts aside exactly the alarms that are not Critical, shelved, suppressed, out of service or already aside |
| `AlarmEngines.AlarmEngine.RestoreBatch` | host/domain/alarm/AlarmEngine.cpp:669-689 | the erase-while-iterating loop restores a batch: at most min(5, pending) live alarms, or all that is pending |
| `AlarmEngines.AlarmEngine.AcknowledgeEverything` | host/domain/alarm/AlarmEngine.cpp:387-402 | every unacknowledged active alarm becomes acknowledged, nothing else changes |
| `AlarmEngines.AlarmEngine.AcknowledgeEveryReturn` | host/domain/alarm/AlarmEngine.cpp:432-445 | every returned alarm is erased, nothing else changes |
| `AlarmEngines.AlarmEngine.ShelveTimerTick` | host/domain/alarm/AlarmEngine.cpp:641-726 | the engine's whole new state after a tick |
| `AlarmEngineStates.RunInv` | host/domain/alarm/AlarmEngine.cpp:72-726 | in every reachable state no entry is Normal or RtnAck, state and flags agree, saved flood states are ActiveUnack, ActiveAck or RtnUnack |
| `AlarmEngineStates.StepsFollowTable` | host/domain/alarm/AlarmStateMachine.h:7-30 | trigger, clear, off-delay expiry, acknowledge, unshelve, unsuppress and return to service change every alarm's state only along the table |
| `AlarmEngineStates.OnDelayRaisesAlongTable` | host/domain/alarm/AlarmEngine.cpp:177-255 | an expired on-delay without chattering raises its alarm along the table |
| `AlarmEngineStates.ResumeLandsInRtn` | host/domain/alarm/AlarmEngine.cpp:468-522 | in every state that keeps the invariant, unshelve and unsuppress end in RtnUnack |
| `AlarmEngineStates.ReturnAckSkipsAStep` | host/domain/alarm/AlarmEngine.cpp:403-445 | acknowledging a return is the table's two steps through RtnAck taken at once, and not a step of the table |
| `AlarmEngineStates.OperatorsOutsideTable` | host/domain/alarm/AlarmEngine.cpp:447-538 | from which states exactly shelving, suppressing and taking out of service are steps of the table |
| `AlarmEngineOnDelay.EntryHistory` | host/domain/alarm/AlarmEngine.cpp:149-174 | an on-delay entry goes back to one accepted trigger and collects all accepted triggers since, with no clear between |
| `AlarmEngineOnDelay.RaisedOnlyAfterDelay` | host/domain/alarm/AlarmEngine.cpp:10-30 | an absent alarm enters the table only by the timer, for an accepted trigger more than its delay ago and no clear since; its limit is the maximum and its value the last of the accepted triggers |
| `AlarmEngineOnDelay.ExpiredDelayRaises` | host/domain/alarm/AlarmEngine.cpp:10-30 | when the timer fires, an absent alarm enters the table exactly if its delay has expired and it does not chatter, with what its entry collected; an inactive one is raised anew |
| `AlarmSignal.AlarmMeansOutOfRange` | host/pipeline/DataParseThread.cpp:150-174 | an alarm that appears had its signal beyond a limit by more than the deadband more than 3 s earlier and never inside all limits by the deadband since; it names a limit that was exceeded, with its threshold |
| `AlarmEngineTriggers.TriggerOfActive` | host/domain/alarm/AlarmEngine.cpp:90-117 | a trigger that is not held back leaves an active alarm active under the same id: a higher limit makes it unacknowledged and brings limit, priority, threshold and value, any other only the value |
| `AlarmEngineTriggers.EscalatesInOrder` | host/domain/alarm/AlarmEngine.cpp:90-117 | a trigger escalates an active alarm exactly if its limit is declared later; so a LowLow trigger never escalates a Low alarm, and a Low trigger replaces a LowLow alarm's priority |
| `AlarmEngineTriggers.TriggerOfReturned` | host/domain/alarm/AlarmEngine.cpp:119-141 | a trigger that is not held back makes a returned alarm unacknowledged and active at once, with all that the trigger brings and the current time |
| `AlarmEngineTriggers.TriggerOfOther` | host/domain/alarm/AlarmEngine.cpp:149-174 | any other trigger that is not held back starts an on-delay, which ends a running off-delay, or joins the one that runs without restarting it |
| `AlarmEngineEscalation.ShowsHighestLimit` | host/domain/alarm/AlarmEngine.cpp:90-117 | in every run an alarm that no other operation takes out of the active states is still active under its id, whatever triggers come, and shows the highest limit so far, with the threshold and priority of the trigger that first reached it, and the last value |
| `AlarmEngineEscalation.BecomesAcked` | host/domain/alarm/AlarmEngine.cpp:354-402 | in any state a step makes an alarm acknowledged exactly if it acknowledges an unacknowledged active alarm or is a tick that restores a saved acknowledged state |
| `AlarmEngineEscalation.AcknowledgedSinceEscalation` | host/domain/alarm/AlarmEngine.cpp:90-117 | in every run an acknowledged alarm became so at one last step and has not escalated since; that step acknowledged it exactly unless it restored a saved acknowledged state |
| `AlarmEngineEscalation.FlagMeans` | host/domain/alarm/AlarmEngine.cpp:90-131 | the event's `acknowledged` field is on exactly if an acknowledgement has come since the last raise or escalation |
| `AlarmEngineEscalation.AcknowledgedRightlyIff` | host/domain/alarm/AlarmEngine.cpp:668-689 | an acknowledged alarm has been acknowledged since its last raise or escalation exactly unless a recovery made it acknowledged while its `acknowledged` field was off |
| `AlarmEngineIds.IdNamesOneTag` | host/domain/alarm/AlarmEvent.h:93 | in every run two alarms with one id, at whatever times, are of the same tag |
| `AlarmEngineIds.EveryIdWasUsed` | host/domain/alarm/AlarmEngine.cpp:844-849 | ids are handed out one by one: every number up to the counter was the id of some alarm of the run |
| `AlarmEngineReturn.ClearOutcome` | host/domain/alarm/AlarmEngine.cpp:257-296 | a clear ends the on-delay; it returns an alarm that is not shelved, with its value, if there is no off-delay, starts an off-delay that is not yet running otherwise, and does nothing else |
| `AlarmEngineReturn.OffEntryHistory` | host/domain/alarm/AlarmEngine.cpp:272-286 | in every run an off-delay was started by one clear of an alarm that was not shelved, with that clear's value and delay, and has not been replaced since |
| `AlarmEngineReturn.OffDelayReturns` | host/domain/alarm/AlarmEngine.cpp:33-46 | in every run the timer returns a live alarm that has an off-delay exactly if the clear that started it is longer ago than its delay, and with the value of that clear |
| `AlarmEngineReturn.BecomesReturned` | host/domain/alarm/AlarmEngine.cpp:257-309 | the 10 s tick apart, a step returns a live alarm exactly if it is a clear without off-delay or the timer with the off-delay expired |
| `AlarmEngineShelves.TickLifts` | host/domain/alarm/AlarmEngine.cpp:641-726 | a tick unshelves a shelved alarm exactly if its shelve has run out or the recovery restores it; the first is returned and unacknowledged, the second in its saved state, and every other stays as it is |
| `AlarmEngineShelves.TickDeadlines` | host/domain/alarm/AlarmEngine.cpp:646-712 | a tick drops the deadlines that have run out, moves those of automatic shelves with three strikes by 600 s with one strike more, and leaves those to come |
| `AlarmEngineShelves.ShelveHolds` | host/domain/alarm/AlarmEngine.cpp:447-463 | in every run an alarm shelved for d seconds stays shelved until a tick comes at or after d seconds, through all triggers, clears, timers and floods; for d = 0 for good |
| `AlarmEngineShelves.ShelveEnds` | host/domain/alarm/AlarmEngine.cpp:693-707 | in every run the first tick at or after the end unshelves it, and no earlier one does |
| `AlarmEngineOperators.ServiceRoundTrip` | host/domain/alarm/AlarmEngine.cpp:525-553 | out of service and back an alarm is returned and unacknowledged, its mark off, and nothing else is changed |
| `AlarmEngineOperators.SuppressRoundTrip` | host/domain/alarm/AlarmEngine.cpp:493-522 | the same for suppressing by design, which leaves the flags as they were |
| `AlarmEngineOperators.FloodCheckPutsAside` | host/domain/alarm/AlarmEngine.cpp:331-348 | the flood check puts an alarm aside, shelved and with its state remembered, exactly in a flood and if nothing else holds it |
| `AlarmEngineOperators.FloodCheckRecovers` | host/domain/alarm/AlarmEngine.cpp:312-330 | it begins a recovery of all that is aside exactly when the flood has been over for 30 s and none has begun |
| `AlarmEngineOperators.ChatteringShelves` | host/domain/alarm/AlarmEngine.cpp:187-204 | an inactive alarm that chatters when its on-delay expires is shelved automatically for 600 s instead of being raised |
| `AlarmEngineWitness.RecoveryAcknowledges` | host/domain/alarm/AlarmEngine.cpp:668-689 | a run from the idle engine in which a tick of the recovery does that to an alarm that was unshelved and triggered anew |
| `AlarmEngineUnshelve.UnshelveLastsIff` | host/domain/alarm/AlarmEngine.cpp:468-484 | in every reachable state an unshelve lasts through all following ticks, however they go, exactly if the alarm is not pending with a live state and no flood is on that would put it aside again |
| `AlarmEngineUnshelve.RecoveryOverridesUnshelve` | host/domain/alarm/AlarmEngine.cpp:668-689 | an alarm unshelved while pending is certainly put back to its saved state, within ceil(n/5) ticks |
| `AlarmEngineUnshelve.FloodSuppressesAgain` | host/domain/alarm/AlarmEngine.cpp:331-348 | an alarm unshelved during a flood is put aside again by the next tick, with RtnUnack saved |
| `AlarmEngineWitness.RecoveryUndoesUnshelve` | host/domain/alarm/AlarmEngine.cpp:468-484 | a run from the idle engine in which a recovery makes an unshelved alarm live again |
| `AlarmEngineWitness.FloodUndoesUnshelve` | host/domain/alarm/AlarmEngine.cpp:468-484 | a run from the idle engine in which an ongoing flood shelves an unshelved alarm again |
| `AlarmEngineFlood.TickRestores` | host/domain/alarm/AlarmEngine.cpp:668-689 | a recovering tick removes at least min(5, pending) entries and restores at most 5 alarms to their saved states |
| `AlarmEngineFlood.RecoveryEnds` | host/domain/alarm/AlarmEngine.cpp:668-689 | in any run a recovery of n alarms is over within ceil(n/5) ticks |
| `AlarmEngineFlood.TicksMirror` | host/domain/alarm/AlarmEngine.cpp:312-352 | over any number of ticks in flood, cooldown and recovery every alarm is as it was or put aside with its state remembered |
| `AlarmEngineFlood.FloodRoundTrip` | host/domain/alarm/AlarmEngine.cpp:312-352 | Critical alarms are never touched, and once nothing is aside every alarm is as before the flood |
| `AlarmEngineFlood.FloodUndone` | host/domain/alarm/AlarmEngine.cpp:664-689 | a flood left alone does come to that point: one tick 600 s after the last alarm, one 30 s later, then one for each five alarms |
| `WriteQueueProtocol.InvStep` | plugins/fieldbus_modbus/ModbusComm.cpp:111-125 | every step of any writer thread keeps the protocol's invariant |
| `WriteQueueProtocol.OneDrainer` | plugins/fieldbus_modbus/ModbusComm.cpp:119-123 | at most one thread drains |
| `WriteQueueProtocol.SentInOrder` | plugins/fieldbus_modbus/ModbusComm.cpp:227-251 | the tasks sent are a prefix of the tasks accepted; the rest is in the drainer's hand or queued, in order |
| `WriteQueueProtocol.DrainedMeansSent` | plugins/fieldbus_modbus/ModbusComm.cpp:229-232 | a drainer that finds the queue empty leaves with every accepted task sent |
| `WriteQueueProtocol.StrandedSince` | plugins/fieldbus_modbus/ModbusComm.cpp:222-226 | tasks are queued with nobody draining only since a not-connected exit |
| `WriteQueueProtocol.CheckDecides` | plugins/fieldbus_modbus/ModbusComm.cpp:222-226 | a thread drains, or leaves the queue alone, because its own check found the link up, or down |
| `WriteQueueProtocol.DrainAdvances` | plugins/fieldbus_modbus/ModbusComm.cpp:220-252 | each of its own steps brings a drainer nearer to its end, a task accepted meanwhile costs it at most two more, and no other step matters |
| `WriteQueueProtocol.DrainCanStep` | plugins/fieldbus_modbus/ModbusComm.cpp:220-252 | a drainer can always take its next step |
| `WriteQueueProtocol.FailuresReported` | plugins/fieldbus_modbus/ModbusComm.cpp:236-250 | exactly the writes that failed are reported as failed, and the tasks after them are sent all the same |
| `WriteQueue.ModbusWriter.WriteHoldingRegisters` | plugins/fieldbus_modbus/ModbusComm.cpp:111-125 | queues the task and, if nobody drains, drains in order |
| `WriteQueue.ModbusWriter.ProcessWriteQueue` | plugins/fieldbus_modbus/ModbusComm.cpp:220-252 | the drain loop completes every queued task in order, or leaves the queue alone when not connected |
| `Reconnect.BoundedReconnect` | plugins/fieldbus_modbus/ModbusComm.cpp:254-280 | at most one reconnect timer is pending, exactly one while the link is down and has not given up; at most 20 connects from one success to the next, that success included |
| `Reconnect.LostAfterThreeFailures` | plugins/fieldbus_modbus/ModbusComm.cpp:161-179 | in every run the link is given up for lost exactly at the third failed heartbeat in a row, counted since the connect or the last good read, and then one reconnect is under way; it is back exactly at the next connect that succeeds, with every count at zero |
| `Reconnect.GivingUpIsFinal` | plugins/fieldbus_modbus/ModbusComm.cpp:260-265 | after giving up only the heartbeat fires, and nothing changes |
| `Reconnect.GivingUpHappens` | plugins/fieldbus_modbus/ModbusComm.cpp:254-280 | the bound is reached: a run that gives up after twenty failed connects |
| `BlockChain.ChainDetermines` | host/infrastructure/security/CryptoConfig.h:63-70 | the chaining equations hold of exactly one cipher text |
| `BlockChain.DecipherInverts` | host/infrastructure/security/CryptoConfig.h:91-101 | decrypting inverts the chain for any mixing that cancels, whatever the key stream |
| `BlockChain.EncipherBlocks` | host/infrastructure/security/CryptoConfig.h:63-70 | the block loop with its running `prev` computes the chain |
| `BlockChain.DecipherBlocks` | host/infrastructure/security/CryptoConfig.h:91-101 | the block loop, whose last block may be short, computes the inverse |
| `CryptoConfig.XorCancels` | host/infrastructure/security/CryptoConfig.h:67 | exclusive or with the key byte and the previous cipher byte cancels |
| `CryptoConfig.MixedBits` | host/infrastructure/security/CryptoConfig.h:67 | each bit of a mixed byte is the parity of that bit of the plain, the key and the previous cipher byte |
| `CryptoConfig.KeyDecides` | host/infrastructure/security/CryptoConfig.h:67 | with plain and previous cipher byte fixed, two key bytes give the same cipher byte only if they are equal |
| `CryptoConfig.EncryptedBytes` | host/infrastructure/security/CryptoConfig.h:63-75 | after the IV the text holds a cipher text as long as the padded password, each byte of which has the bits of that mixture and gives the key byte back when mixed with its plain byte |
| `CryptoConfig.KeysShow` | host/infrastructure/security/CryptoConfig.h:63-70 | key streams that first differ at a byte of the padded password give cipher texts that first differ at that byte |
| `CryptoConfig.UnpadInverts` | host/infrastructure/security/CryptoConfig.h:104-108 | padding fills whole blocks with one to sixteen bytes, each holding their number, and is taken off again |
| `CryptoConfig.Base64Inverts` | host/infrastructure/security/CryptoConfig.h:86-87 | base64 decoding gives back every byte sequence |
| `CryptoConfig.NoColon` | host/infrastructure/security/CryptoConfig.h:83 | encoded text contains no colon |
| `CryptoConfig.SplitTwo` | host/infrastructure/security/CryptoConfig.h:83-84 | two parts without the separator are split back into exactly those two |
| `CryptoConfig.DecryptInvertsEncrypt` | host/infrastructure/security/CryptoConfig.h:41-111 | decrypting an encrypted password gives back its bytes, for every password, IV and key-block function |
| `CryptoConfig.PasswordRoundTrip` | host/infrastructure/security/CryptoConfig.h:41-111 | the password comes back exactly when the UTF-8 codec returns it, or it is empty |
| `CryptoConfig.Encrypt` | host/infrastructure/security/CryptoConfig.h:41-75 | the operation, with its loop, computes the encrypted text, whose cipher bytes are the mixture of the padded password, the key stream and the cipher text one block earlier |
| `CryptoConfig.Decrypt` | host/infrastructure/security/CryptoConfig.h:80-111 | the operation, with its loop and its early exits, computes the result |
| `HistorySampling.WriteRepresents` | host/pipeline/HistorySampler.cpp:109-118 | a write to a ring that holds the last 1800 records of a log gives one that holds the last 1800 of the longer log |
| `HistorySampling.HistorySampler.QueryFromCache` | host/pipeline/HistorySampler.cpp:120-142 | the backward walk returns, in sampling order, exactly those of the tag's last 1800 records that lie in the range |
| `HistorySampling.HistorySampler.QueryTrend` | host/pipeline/HistorySampler.cpp:144-151 | the cached records cut to the oldest `maxPoints`, or the repository's answer |
| `HistorySampling.HistorySampler.SampleData` | host/pipeline/HistorySampler.cpp:45-71 | the log grows by one record for each entry of the snapshot, in order, with its tag, value and quality and the current time; rings and archive buffer follow |
| `HistorySampling.HistorySampler.DoArchive` | host/pipeline/HistorySampler.cpp:72-107 | the buffer becomes one batch, stored or failed; without a repository nothing changes |
| `HistorySampling.HistorySampler.Round` | host/pipeline/HistorySampler.cpp:30-43 | with a repository, no record waits longer than the archiving interval |
| `HistorySampling.BatchEnds` | host/pipeline/HistorySampler.cpp:84-105 | moving records in flight to the archived or failed ones keeps the books: log = finished batches, in flight, cached, in order |
| `HistorySampling.HistorySampler.SampledAreAccountedFor` | host/pipeline/HistorySampler.cpp:72-107 | sampled = cached + in flight + archived + failed |
| `HistorySampling.CacheIsComplete` | host/pipeline/HistorySampler.cpp:144-148 | the cache gives a tag's whole history of the range exactly when no older record lies in it |
| `HistorySampling.QueryAscends` | host/pipeline/HistorySampler.cpp:119-139 | results are exactly the kept records of the tag from start to end, both included, and ascend in time if the clock never ran backwards |
| `TagManagement.TagManager.AddTags` | host/domain/tag/tagmanager.cpp:130-132 | the tags added one after the other |
| `TagManagement.RunInv` | host/domain/tag/tagmanager.cpp:12-140 | after any operations, duplicates or not: an indexed name or address leads to a live tag with it, and the device lists hold every live id once, under its own device, none empty |
| `TagManagement.NamesFoundIffDifferent` | host/domain/tag/tagmanager.cpp:12-105 | over a whole run the name index finds every tag exactly when no two tags ever share a name |
| `TagManagement.AddressesFoundIffDifferent` | host/domain/tag/tagmanager.cpp:12-105 | the same for the address index |
| `TagManagement.SurvivorHidden` | host/domain/tag/tagmanager.cpp:26-31 | of two tags with one name, removing either hides the other |
| `TagManagement.WrongTagByName` | host/domain/tag/tagmanager.cpp:49-53 | a lookup by name gives a differently named tag exactly when the name is not indexed and such a tag has id 0 |
| `TagManagement.LimitsReadBack` | host/domain/tag/tagmanager.cpp:107-118 | limits that were set are read back for that tag only, no index changes, and setting the old limits restores the table |
| `TagManagement.StoredIsFound` | host/domain/tag/tagmanager.cpp:12-128 | what was added, updated or given a range is found under its id, what was removed is not, and every other id finds what it found before |
| `TagManagement.AddAllFinds` | host/domain/tag/tagmanager.cpp:130-132 | of several tags added with one id the table keeps the one it had, or else the first |
| `TagManagement.AddressLookup` | host/domain/tag/tagmanager.cpp:82-86 | in every run an address gives 0 or a tag with that address, and each tag is found by its address where the index is complete |
| `TagManagement.DeviceLists` | host/domain/tag/tagmanager.cpp:142-145 | in every run the list of a device has exactly the live tags whose ids begin with it, each once |
| `TagManagement.AddThenRemove` | host/domain/tag/tagmanager.cpp:12-42 | removing what was added restores the table exactly when its name and address were not indexed |
| `TagManagement.KeyDistinguishes` | host/domain/tag/tagmanager.cpp:17 | 16-bit addresses share a key only if equal |
| `LimitCheck.DataParseThread.CheckAlarmLimits` | host/pipeline/DataParseThread.cpp:150-174 | the branches in their order, against the stored previous value |
| `LimitCheck.DataParseThread.ValidateRateOfChange` | host/pipeline/DataParseThread.cpp:139-148 | a sample is a spike exactly if the filter is on and it lies farther than 3 * limit * interval from the last accepted one |
| `LimitCheck.AcceptedWithinReach` | host/pipeline/DataParseThread.cpp:95-105 | successive accepted samples lie within that distance of each other, and a dropped sample leaves the last accepted one |
| `LimitCheck.DroppedForGood` | host/pipeline/DataParseThread.cpp:95-105 | every sample of a signal is dropped exactly if every sample lies out of reach of the value accepted before it |
| `LimitCheck.StepMissed` | host/pipeline/DataParseThread.cpp:95-108 | a signal that steps out of reach and stays there asks for no alarm, whatever its samples would trigger by themselves |
| `LimitCheck.DataParseThread.ProcessSignal` | host/pipeline/DataParseThread.cpp:79-108 | the outcomes of a whole signal, spikes dropped, each value stored before it is checked |
| `LimitCheck.CheckMeans` | host/pipeline/DataParseThread.cpp:150-174 | what triggers and what clears, given that the stored value is the checked one: only values beyond a limit by a deadband, and only values inside every limit by a deadband |
| `LimitCheck.ReportedLimit` | host/pipeline/DataParseThread.cpp:155-162 | with the low limits below the high ones: the most severe limit exceeded on the high side, the least severe on the low side, with its own threshold; HighHigh and LowLow Critical, the others Major |
| `LimitCheck.Swing` | host/domain/tag/DeadbandFilter.h:5-26 | a value that triggers and one that clears are more than two deadbands apart, so no sample does both |
| `LimitCheck.AlternationsCostVariation` | host/pipeline/DataParseThread.cpp:105-174 | n alternating events mean a total variation of the signal above 2 * deadband * (n - 1) |
| `LimitCheck.NarrowSignalsAreSteady` | host/pipeline/DataParseThread.cpp:105-174 | a signal inside a band two deadbands wide never both triggers and clears |
| `LimitCheck.LowLowReachable` | host/pipeline/DataParseThread.cpp:155-162 | the exact configurations in which a LowLow alarm can be raised |
| `Scaling.DataPipeline.WriteSetPoint` | host/pipeline/DataPipeline.cpp:61-101 | rejects out-of-range values; otherwise updates the set point and, for a range that is not empty, sends the register whose reading is the closest from below |
| `Scaling.RegisterIsLargestBelow` | host/pipeline/DataPipeline.cpp:98 | a register reads back at most the value exactly when it is at most the value's register |
| `Scaling.RegisterFits` | host/pipeline/DataPipeline.cpp:98 | in-range values get a register in 0..65535, and 65535 only at the top of the range |
| `Scaling.ReadBack` | host/pipeline/DataParseThread.cpp:133-137 | the read-back is at most the value and less than range/65535 below it |
| `Scaling.Monotone` | host/pipeline/DataPipeline.cpp:98 | larger values get no smaller registers |
| `Scaling.RegisterRoundTrip` | host/pipeline/DataParseThread.cpp:133-137 | register to value to register is the identity |
| `Scaling.EncodesDetermines` | host/pipeline/DataPipeline.cpp:98 | only the computed register is the closest reading from below |

## Left out

- RingProtocol.Fifo: weak memory orderings, counters that wrap, a second consumer and the move overload of enqueue (same steps) are not modelled.
- DoubleBuffer.ExactlyOnePlace: destruction of the buffer, a second writing thread and memory-order effects are not modelled; the replaced snapshot may be dropped at any later step, which allows every real interleaving and more.
- AlarmEngineOnDelay.RaisedOnlyAfterDelay: the timer callback is one step; in the code it unlocks between collecting and handling, so a clear and a fresh trigger can slip in between.
- AlarmEngineStates.StepsFollowTable: says nothing about shelving, suppressing, taking out of service, flood steps, chattering and return acknowledgement, which leave the table; their exact relation to it is stated apart.
- LockOrder.NoRace: follows the engine's own tables; the data inside the components it calls, which have locks of their own, is not followed.
- LockOrder.NoDeadlock: slots connected to the engine's signals are not modelled.
- CryptoConfig.DecryptInvertsEncrypt: the hash, the random IV and the UTF-8 codec are inputs; an IV shorter than the text needs, past whose end the code would read, is a result of its own.
- HistorySampling.HistorySampler.Round: one run of the thread; a restart with records still cached restarts the period. Queries from another thread, which the code does not lock, are not modelled.
- AlarmSignal.AlarmMeansOutOfRange: limit alarms are taken as the only triggers of the tag; deviation and rate-of-change triggers are not.
- LimitCheck.AlternationsCostVariation: one tag with a fixed configuration, in exact arithmetic; deviation and rate-of-change alarms are not counted.
- Scaling.DataPipeline.WriteSetPoint: floating-point rounding is not modelled; `setAutoMode` uses the same conversion and is not modelled again.
- Texts, descriptions, alarm history, KPI counts, the `active` flag, change log, audit records, sounds and signals.
- The rules of the suppression engine and the chattering guard's counting; deviation and rate-of-change checkers.
- SQL persistence, MQTT and its back-off, plugin loading, libmodbus, JSON load and save, the user interface and the wiring of components.
