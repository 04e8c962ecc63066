# Cyber RT runtime core, modelled and proved in Dafny

This project models the runtime core of Cyber RT, the middleware under `cyber/`, and
proves what its clients rely on, for every input and every interleaving.

- **Lock-free primitives.** `BoundedQueue.dfy`, `ConcurrentObjectPool.dfy`,
  `AtomicRWLock.dfy`, `ReentrantRWLock.dfy` and `AtomicHashMap.dfy` are transition
  systems: the shared words, one program counter with locals per thread, and one step
  per atomic load, compare-and-swap or slot access. A schedule is any sequence of
  threads, weak compare-and-swap may fail for no reason, and the theorems hold after
  every schedule. The queue, the pool and the map are proved linearizable against a
  sequential queue, stack and map that are given the same calls. What a call does is
  pinned down a second time by what it does when it runs alone, from its call or from any
  of its accesses on. Each module also has a class that performs the accesses in place;
  its `Advance` has exactly the effect of the step.
- **Channel data path and wake-up.** `ChannelData.dfy` is the ring buffer of a channel
  and what a reader is given from it. `WakeUp.dfy` is the protocol between dispatchers,
  processors and routines waiting for data.
- **Timers.** `TimingWheel.dfy` is the two-level wheel, `Timer.dfy` the periodic
  callback that compensates its drift.
- **Record playback.** `RecordReader.dfy` reads one file of sections, `RecordViewer.dfy`
  merges several readers window by window. `PlaybackOrder.dfy` says what is to be played
  and in which order, `PlaybackWindows.dfy` follows the windows on 64-bit integers, and
  `PlaybackOfFiles.dfy` says what is played of the files for any begin and end.
- **Request and response.** `ClientService.dfy`: many clients, one service, an
  unreliable network.
- **Codecs and ids.** `NameRegistry.dfy` with names registered one after the other,
  `ConcurrentRegistration.dfy` with names registered at the same time,
  `MessageHeader.dfy` and `TimeConversion.dfy`.

`Modular.dfy`, `Counting.dfy` and `Wrappers.dfy` hold arithmetic, counting and the
option type that the others share. `dafny verify dfyconfig.toml` checks everything.

## Where the code does not do what one would expect

Each of these is proved, by a lemma with a concrete input, by the exact condition under
which the code does meet the expectation, or by both.

- `Enqueue` of a bounded queue can answer "full" on an empty queue when its tail is
  stale (`FullAnswerOnAnEmptyQueue`; exact condition in `FullAnswerMeans`).
- The late clear of the owner id in `ReentrantRWLock::WriteUnlock` erases the id of the
  next writer. If that writer holds a read guard inside its write guard, the lock can stay
  taken for ever with nobody holding it (`LateClearLosesTheLock`, `LostForever`); it is
  lost exactly as often as such a guard is given back without the id
  (`LostByFreeGuards`), so never without a read section inside a write section
  (`NothingLostWithoutReadInsideWrite`). If that writer calls `ReadLock` or `WriteLock`
  once more, it waits for itself for ever, with write sections alone
  (`LateClearBlocksTheWriter`, `NestedCallWaitsIff`, `WaitsForItselfForever`).
- Without `write_first`, readers overtake a waiting writer without bound.
- The wheel fires too early for durations beyond 64 revolutions (`FireTickIsExact`).
- A periodic timer never gets 3 ms ahead of its schedule, overruns or not, if and only if
  its interval is at most 65533 ms, or 65534 ms when callbacks start less than half a
  millisecond late (`NeverAheadIff`). The longer intervals, which are accepted, have a run
  that re-arms for 65537 ms and is fired one tick later, 65 s early (`TooLongPeriods`).
- It falls behind its schedule without bound if and only if the interval leaves no room
  for a run of the callback that starts late: the lateness plus the run time, rounded up
  past the next tick (`ErrorBoundedIffRoom`, `FallsBehind`). With room it is always
  less than 2 ms plus the lateness behind (`NeverFarBehind`).
- A viewer plays what it should, whatever the files, if and only if nothing lies in its
  window or its first one-second window does not reach 2^64 (`PlaysRightIffPlayable`), of
  all begins and ends, clipped to the files, for which playing comes to an end: those with
  an end other than 2^64 - 1 (`WindowsEndIff`). Later windows may wrap around: playback is
  still right. What is played when the first one wraps is stated exactly (`View`): it
  starts far back, and a message before the begin is played (`PlaysBeforeTheBegin`).
- An empty message is written without complaint and then refused by the parser
  (`ParseOfSerialized`).
- GPS-to-Unix conversion goes through a cast to 32 bits and fails from Unix
  time 2^31 on wherever the cast reads earlier than the newest leap second
  (`UnixGpsUnix`, `GpsUnixGps`).
- Names registered at the same time can share an id (`SameTargetCollides`): every schedule
  keeps names and ids in correspondence if and only if no two different names would go to
  the same id when registered alone (`SafeIffTargetsDiffer`), so on an empty table if and
  only if their hashes differ (`SafeFromEmptyIffHashesDiffer`).

## Conventions

Memory is sequentially consistent. The fields `history`, `reserved`, `dequeued`, `free`,
`index`, `lost`, `acquisitions`, `delivered`, `now`, `due`, `fired`, `requests`,
`setTwice`, `callbacks`, `answers`, `reached` and `before` are histories or abstract views
that the code does not have. What happens to the code's own words never depends on them,
but for one thing: `TimingWheel.Act` leaves out the arming of a task that is in the wheel
already, which it sees by `due`. Where the source has one member per type or kind with
the same body (`Enqueue` by copy and by move, the three `Insert`s, the four registries,
the four 64-bit header fields, micro- and nanoseconds), the model has one.

In `RecordReader` a file is the sequence of its readable sections: one that is damaged
ends where the first unreadable section starts. Playback is stated for files whose
messages are in time order and whose headers bound them, with the chunk header directly
before its body but for channel sections, which is how files are written. The readers of
a viewer are distinct objects and may come in any order, so the order in which `Init`
sorts them, whatever it does with equal headers, is covered.

## Model

| member | source | states |
|---|---|---|
| `BoundedQueue.FifoInEveryRun` | cyber/base/bounded_queue.h:109-169 | In every interleaving of any number of producers and consumers: what Dequeue has returned, followed by what is queued, is exactly what was committed, in order; head < commit <= tail with at most `size` positions reserved; no two positions in use share a slot; each in-flight producer holds a reserved position that is not committed, and no two of them hold the same one |
| `BoundedQueue.RunRefinesQueue` | cyber/base/bounded_queue.h:109-169 | Linearizability: a sequential queue that is given the calls of the schedule, with their elements, in the order in which they are answered gives the same answers, finds itself empty where Dequeue answers false, and ends up holding the same elements |
| `BoundedQueue.StepRefinesQueue` | cyber/base/bounded_queue.h:119-168 | One atomic access is one operation of an atomic queue or none: Enqueue takes effect at its commit CAS, Dequeue at its head CAS or, when it answers false, at a read of commit_ at which the queue is empty |
| `BoundedQueue.RunKeepsInv` | cyber/base/bounded_queue.h:109-169 | The ring invariant, and that every reserved uncommitted position has exactly one producer, hold after every schedule |
| `BoundedQueue.EmptyAnswerIsRight` | cyber/base/bounded_queue.h:158-163 | Dequeue answers false at its read of commit_ if and only if its head is current and the committed queue is empty |
| `BoundedQueue.FullAnswerMeans` | cyber/base/bounded_queue.h:113-118 | Wherever an operation stands, it answers full if and only if it checks head_ with a current tail and exactly `size` elements are reserved, or with a tail that head_ has lapped by a whole number of laps; so never after a failed compare-and-swap |
| `BoundedQueue.FullAnswerOnAnEmptyQueue` | cyber/base/bounded_queue.h:113-118 | A concrete schedule on a queue of size 1 in which Enqueue answers false while nothing at all is reserved |
| `BoundedQueue.CallStays` | cyber/base/bounded_queue.h:109-169 | A thread enters the operation it calls and stays in it, for the same element, until it is answered true or false, whatever compare-and-swap fails; no other thread moves |
| `BoundedQueue.EnqueueFinishes` | cyber/base/bounded_queue.h:112-130 | An Enqueue that runs alone from any of its accesses on, whatever it has loaded before, appends its element, or answers false if every slot is reserved, when nobody else holds a slot before its own and its tail has not been lapped |
| `BoundedQueue.DequeueFinishes` | cyber/base/bounded_queue.h:157-169 | A Dequeue that runs alone from any of its accesses on takes the oldest element, or answers false if there is none |
| `BoundedQueue.EnqueueAlone` | cyber/base/bounded_queue.h:110-130 | A producer that runs alone on a queue that is not full succeeds and appends its element |
| `BoundedQueue.DequeueAlone` | cyber/base/bounded_queue.h:156-169 | A consumer that runs alone on a queue with a committed element takes the oldest one |
| `BoundedQueue.SameIndexIffWholeLaps` | cyber/base/bounded_queue.h:229-232 | Two positions share a slot exactly when they lie whole laps apart |
| `BoundedQueue.BoundedQueue.constructor` | cyber/base/bounded_queue.h:95-107 | The object starts as the empty ring of size + 2 slots |
| `BoundedQueue.BoundedQueue.Advance` | cyber/base/bounded_queue.h:109-169 | One access on the fields in place has exactly the effect of the step and keeps the invariant |
| `BoundedQueue.BoundedQueue.GoOnWithEnqueue` | cyber/base/bounded_queue.h:109-130 | The accesses of Enqueue, one at a time, in place |
| `BoundedQueue.BoundedQueue.GoOnWithDequeue` | cyber/base/bounded_queue.h:155-169 | The accesses of Dequeue, one at a time, in place |
| `ConcurrentObjectPool.ArenaConservedInEveryRun` | cyber/base/concurrent_object_pool.h:72-148 | In every interleaving the acyclic free list, the outstanding nodes and the nodes being released are together exactly the arena, and no node has two owners |
| `ConcurrentObjectPool.RunRefinesStack` | cyber/base/concurrent_object_pool.h:93-148 | Linearizability: a sequential stack that is given the calls of the schedule, with their nodes, in the order in which they are answered gives the same answers and ends up as the free list; the count of the head is the number of nodes taken and given back |
| `ConcurrentObjectPool.StepRefinesStack` | cyber/base/concurrent_object_pool.h:93-148 | One access is one operation of an atomic stack, the one that its thread has called, or none |
| `ConcurrentObjectPool.CallStays` | cyber/base/concurrent_object_pool.h:93-148 | A thread enters the operation it calls and stays in it, for the same node, until it is answered; no other thread moves |
| `ConcurrentObjectPool.GetFinishes` | cyber/base/concurrent_object_pool.h:93-108 | A Get that runs alone from any of its accesses on takes the top node, or answers nothing if there is none |
| `ConcurrentObjectPool.ReleaseFinishes` | cyber/base/concurrent_object_pool.h:136-148 | A release that runs alone from any of its accesses on puts its node on top |
| `ConcurrentObjectPool.GetAlone` | cyber/base/concurrent_object_pool.h:110-118 | From the call on, a Get alone takes the top node and makes it outstanding |
| `ConcurrentObjectPool.ReleaseAlone` | cyber/base/concurrent_object_pool.h:136-148 | From the call on, a release alone puts its node on top and ends its being outstanding |
| `ConcurrentObjectPool.GetThenRelease` | cyber/base/concurrent_object_pool.h:93-148 | Taking a node and giving it back, alone, restores the free list and what is outstanding |
| `ConcurrentObjectPool.PopKeepsInv` | cyber/base/concurrent_object_pool.h:101-105 | No ABA: the pop CAS keeps the links spelling the free list, so the head it installs is the popped node's successor at that moment, although it was read earlier |
| `ConcurrentObjectPool.PushKeepsInv` | cyber/base/concurrent_object_pool.h:141-147 | The push CAS keeps the links spelling the free list and every node with one owner |
| `ConcurrentObjectPool.RunKeepsInv` | cyber/base/concurrent_object_pool.h:72-148 | The free-list invariant holds after every schedule |
| `ConcurrentObjectPool.ObjectPool.constructor` | cyber/base/concurrent_object_pool.h:73-78 | The arena starts as one list of all nodes in order |
| `ConcurrentObjectPool.ObjectPool.Advance` | cyber/base/concurrent_object_pool.h:93-148 | One access in place has the effect of the step and keeps the invariant |
| `ConcurrentObjectPool.ObjectPool.FindFreeHead` | cyber/base/concurrent_object_pool.h:93-108 | The accesses of a pop, in place |
| `ConcurrentObjectPool.ObjectPool.ReleaseObject` | cyber/base/concurrent_object_pool.h:136-148 | The accesses of a push, in place |
| `AtomicRWLock.WritersExcludeEverybody` | cyber/base/atomic_rw_lock.h:62-114 | In every interleaving no thread is inside together with a writer |
| `AtomicRWLock.RunKeepsInv` | cyber/base/atomic_rw_lock.h:62-114 | lock_num_ is -1 with one writer inside and no reader, else the number of readers; the wait count is the number of announced writers |
| `AtomicRWLock.OvertakingIsBounded` | cyber/base/atomic_rw_lock.h:65-77 | With write_first, the readers that get in between a writer's announcement and its acquisition never outnumber those that had passed the wait-count check when it announced |
| `AtomicRWLock.ReadersOvertakeWithoutBound` | cyber/base/atomic_rw_lock.h:78-91 | Without write_first, for every k a schedule in which k readers overtake a waiting writer |
| `AtomicRWLock.CallStays` | cyber/base/atomic_rw_lock.h:62-114 | A thread enters the operation it calls, stays in it until it is inside, and is inside until it unlocks; no other thread moves |
| `AtomicRWLock.ReadFinishes` | cyber/base/atomic_rw_lock.h:62-92 | A ReadLock that runs alone from any of its accesses on comes in when no writer is inside and, with write_first, none waits |
| `AtomicRWLock.WriteFinishes` | cyber/base/atomic_rw_lock.h:94-110 | A WriteLock that runs alone comes in when the lock is free, and is no longer counted as waiting |
| `AtomicRWLock.LockThenUnlock` | cyber/base/atomic_rw_lock.h:62-114 | A read section alone, and a write section alone, leaves the lock as it was |
| `AtomicRWLock.RWLock.Advance` | cyber/base/atomic_rw_lock.h:62-114 | One access in place has the effect of the step and keeps the invariant |
| `AtomicRWLock.RWLock.SpinForRead` | cyber/base/atomic_rw_lock.h:62-92 | The accesses of ReadLock, in place |
| `AtomicRWLock.RWLock.SpinForWrite` | cyber/base/atomic_rw_lock.h:94-110 | The accesses of WriteLock, in place |
| `ReentrantRWLock.WritersExcludeEverybody` | cyber/base/reentrant_rw_lock.h:65-137 | With nested guards, no thread is in a write section while another is in any section, in every interleaving |
| `ReentrantRWLock.OwnIdMeansHolding` | cyber/base/reentrant_rw_lock.h:66-69 | A thread that reads back its own write_thread_id_ holds the write lock |
| `ReentrantRWLock.RunKeepsInv` | cyber/base/reentrant_rw_lock.h:65-137 | The count invariant with owner id and depth holds after every schedule |
| `ReentrantRWLock.DroppingAllGuardsFreesTheLock` | cyber/base/reentrant_rw_lock.h:126-137 | Once all guards are dropped, the lock count is back to free if and only if no read guard that took nothing was given back by a thread that no longer read its own id |
| `ReentrantRWLock.NothingLostWithoutReadInsideWrite` | cyber/base/reentrant_rw_lock.h:126-137 | In every run in which no writer opens a read section inside its write section, the lock is never lost |
| `ReentrantRWLock.LateClearLosesTheLock` | cyber/base/reentrant_rw_lock.h:133-137 | A concrete schedule in which the late clear of the owner id makes a nested read guard decrement a count it never incremented, which leaves the lock taken with nobody holding it |
| `ReentrantRWLock.LostForever` | cyber/base/reentrant_rw_lock.h:83-85 | A lock lost that way is never acquired again, on any schedule |
| `ReentrantRWLock.LostByFreeGuards` | cyber/base/reentrant_rw_lock.h:126-131 | On every schedule the lock is lost exactly as often as a read guard that took nothing gives back a count because its thread no longer reads its own id |
| `ReentrantRWLock.NestedCallWaitsIff` | cyber/base/reentrant_rw_lock.h:65-104 | In every reachable state a call of ReadLock or WriteLock inside a write guard waits for its own thread if and only if the thread does not read its own id |
| `ReentrantRWLock.WaitsForItselfForever` | cyber/base/reentrant_rw_lock.h:110-114 | A writer that waits for itself does so on every schedule |
| `ReentrantRWLock.LateClearBlocksTheWriter` | cyber/base/reentrant_rw_lock.h:133-137 | A concrete schedule with write guards alone in which the late clear erases the id of a writer that then acquires once more and waits for itself |
| `ReentrantRWLock.OvertakingIsBounded` | cyber/base/reentrant_rw_lock.h:72-86 | With write_first, the readers that come in while a writer waits are among those that had passed the wait-count check when it began to wait, on every schedule |
| `ReentrantRWLock.CallStays` | cyber/base/reentrant_rw_lock.h:65-137 | A thread goes through the operation it calls until that has pushed or popped its one guard; no other guard and no other thread moves |
| `ReentrantRWLock.ReadFinishes` | cyber/base/reentrant_rw_lock.h:71-100 | A ReadLock that runs alone from any of its accesses on comes in when the lock is open to readers |
| `ReentrantRWLock.WriteFinishes` | cyber/base/reentrant_rw_lock.h:108-124 | A WriteLock that runs alone comes in when the lock is free, and leaves its id |
| `ReentrantRWLock.AcquireAlone` | cyber/base/reentrant_rw_lock.h:65-124 | What a lock call alone does: inside a write section of its own it only nests, else it takes the lock |
| `ReentrantRWLock.ReleaseAlone` | cyber/base/reentrant_rw_lock.h:126-137 | What dropping the newest guard alone does: a shared one uncounts, a free one nothing, the first write guard frees the lock and the id |
| `ReentrantRWLock.LockThenUnlock` | cyber/base/reentrant_rw_lock.h:65-137 | A section alone, nested or not, leaves the lock as it was but for a cleared id |
| `ReentrantRWLock.RWLock.Advance` | cyber/base/reentrant_rw_lock.h:65-137 | One access in place has the effect of the step and keeps the invariant |
| `ReentrantRWLock.RWLock.ReleaseGuard` | cyber/base/reentrant_rw_lock.h:126-137 | ReadUnlock and WriteUnlock of the innermost guard, in place |
| `ReentrantRWLock.RWLock.SpinForRead` | cyber/base/reentrant_rw_lock.h:65-100 | The accesses of ReadLock, in place |
| `AtomicHashMap.BucketsStaySorted` | cyber/base/atomic_hash_map.h:125-188 | In every interleaving every bucket is one strictly sorted list that holds exactly the map's keys congruent to its index |
| `AtomicHashMap.RunRefinesMap` | cyber/base/atomic_hash_map.h:46-79 | Linearizability of Has, Get and Set: a sequential insert-or-overwrite map that is given the calls of the schedule, with their keys and values, in the order in which they are answered gives the same answers, negative ones included, and ends up holding the same |
| `AtomicHashMap.StepRefinesMap` | cyber/base/atomic_hash_map.h:112-188 | One access is one operation of an atomic map, the one that its thread is in, or none; a false answer is given at a moment when the key is absent |
| `AtomicHashMap.KeysNeverDisappear` | cyber/base/atomic_hash_map.h:147-188 | A key in the map stays in the map, in the same entry, on every schedule |
| `AtomicHashMap.CallStays` | cyber/base/atomic_hash_map.h:46-79 | A thread enters the operation it calls and stays in it, for the same key and value and with the entry it has allocated, until it is answered; no other thread moves |
| `AtomicHashMap.Finishes` | cyber/base/atomic_hash_map.h:112-188 | An operation that runs alone from any of its accesses on, whatever it has loaded before, gets the answer of the sequential map and has its effect |
| `AtomicHashMap.CallAlone` | cyber/base/atomic_hash_map.h:46-79 | The same from the call on |
| `AtomicHashMap.SetThenGet` | cyber/base/atomic_hash_map.h:46-79 | Set(k, v) alone adds exactly that, and any thread's Get(k) alone then finds v |
| `AtomicHashMap.StepKeepsStamps` | cyber/base/atomic_hash_map.h:155-166 | No two values ever allocated are confused by the compare-and-swap on value pointers: a value changes only with a stamp never used before |
| `AtomicHashMap.RunKeepsInv` | cyber/base/atomic_hash_map.h:112-188 | The list invariant, and that no two threads prepare the same entry, hold after every schedule |
| `AtomicHashMap.LinkKeepsSorted` | cyber/base/atomic_hash_map.h:174-184 | Linking a prepared entry by CAS keeps its bucket sorted, whatever was inserted since its place was found |
| `AtomicHashMap.HashMap.Advance` | cyber/base/atomic_hash_map.h:112-188 | One access in place has the effect of the step and keeps the invariant |
| `AtomicHashMap.HashMap.Find` | cyber/base/atomic_hash_map.h:125-145 | One step of the traversal, in place |
| `AtomicHashMap.HashMap.Insert` | cyber/base/atomic_hash_map.h:147-188 | The value CAS, the preparation of the entry and the link CAS, in place |
| `ChannelData.CacheBuffer.Fill` | cyber/data/cache_buffer.h:68-81 | The ring represents the last min(fills, size) values of its history after every Fill, whether the ring is full or not |
| `ChannelData.CacheBuffer.At` | cyber/data/cache_buffer.h:51 | A live position reads the value filled there |
| `ChannelData.CacheBuffer.FetchMulti` | cyber/data/channel_buffer.h:90-105 | Exactly the last min(k, Size) values in order, or false before the first Fill |
| `ChannelData.CacheBuffer.Latest` | cyber/data/channel_buffer.h:79-88 | The newest value, or false before the first Fill |
| `ChannelData.CacheBuffer.Fetch` | cyber/data/channel_buffer.h:56-77 | Which position a fetch delivers and what it leaves in the caller's index, case by case |
| `ChannelData.DeliveredInEveryRun` | cyber/data/channel_buffer.h:56-77 | For any interleaving of fills and fetches: a reader starts at the newest message, then gets consecutive ones, except that it jumps to the newest when and only when it lags by more than the queue size; it never reads a dead slot |
| `ChannelData.DeliveredStrictlyIncreasing` | cyber/data/data_visitor.h:183-189 | What is delivered is a strictly increasing subsequence of the fill history |
| `ChannelData.FetchDelivers` | cyber/data/data_visitor.h:183-189 | A fetch delivers exactly one message unless the reader has been given the newest, and none then |
| `ChannelData.FetchesCatchUp` | cyber/data/data_visitor.h:183-189 | A reader that fetches often enough is given the newest message, whatever it has missed |
| `ChannelData.DataVisitor.TryFetch` | cyber/data/data_visitor.h:183-189 | Fetches and advances next_msg_index_ as the channel model says |
| `WakeUp.NoLostWakeUp` | cyber/croutine/routine_factory.h:57-66 | In every interleaving a routine parked in DATA_WAIT whose buffer holds an unread message has its update flag pending or a dispatcher that has yet to finish notifying it |
| `WakeUp.QuietMeansDrained` | cyber/data/data_dispatcher.h:79-89 | When nothing is going on and no routine has a reason to run, every reader has been given the last message of its channel |
| `WakeUp.EveryBufferIsFilled` | cyber/data/data_dispatcher.h:79-86 | On every schedule the messages put into each buffer, with the dispatchers still on their way to it, are exactly the publications: each buffer gets each of them once |
| `WakeUp.PublishAlone` | cyber/data/data_dispatcher.h:72-90 | A publication that runs alone puts one message into every buffer, leaves the flag of every routine waiting for data or I/O pending, and does nothing else |
| `WakeUp.TurnAlone` | cyber/croutine/croutine.h:176-207 | A whole turn of a processor that runs alone: the routine's state is updated as UpdateState does in one piece, it is resumed if ready, fetches one message and yields ready or parks, and is released; nothing else changes |
| `WakeUp.SleepAlone` | cyber/croutine/croutine.h:176-191 | A handler that goes to sleep gives up its processor and keeps its message |
| `WakeUp.ReaderIsDrained` | cyber/croutine/routine_factory.h:57-66 | A processor left alone brings any reader that is ready, asleep or has its flag pending to where it has been given the last message of its buffer and is parked |
| `WakeUp.PendingReaderIsServed` | cyber/scheduler/policy/classic_context.cc:57-70 | A processor that picks up a parked reader with its flag pending resumes it, delivers the unread message, and leaves it ready and released |
| `WakeUp.RunKeepsInv` | cyber/croutine/croutine.h:176-207 | The wake-up invariant holds after every schedule of dispatchers and processors |
| `WakeUp.Channel.Advance` | cyber/croutine/routine_factory.h:55-68 | One access in place has the effect of the step and keeps the invariant |
| `WakeUp.Channel.UpdateState` | cyber/croutine/croutine.h:176-191 | The accesses of UpdateState, in place |
| `WakeUp.Channel.RunLoop` | cyber/croutine/routine_factory.h:58-66 | The accesses of the routine loop: set DATA_WAIT, fetch, yield, in place |
| `WakeUp.Channel.Publish` | cyber/data/data_dispatcher.h:72-90 | Fill every buffer, then check each routine's state and clear its flag, in place |
| `TimingWheel.ArmedTaskFiresOnTime` | cyber/timer/timing_wheel.cc:46-142 | In any run a live task armed at tick T for 1 to 65536 ms fires exactly once, at tick T + ceil(duration / 2), whichever branch of AddTask it took |
| `TimingWheel.ArmedTaskFiresAtFireTick` | cyber/timer/timing_wheel.cc:73-106 | For any duration at all, a live task fires exactly once, at the tick a closed formula gives |
| `TimingWheel.FiresExactlyOnce` | cyber/timer/timing_wheel.cc:46-142 | A live task in the wheel sits in exactly one bucket until its tick and fires exactly once, then |
| `TimingWheel.NeverFiresAgain` | cyber/timer/timing_wheel.cc:46-67 | A task that has fired and is not armed again fires no more |
| `TimingWheel.ArmedTaskHasFired` | cyber/timer/timing_wheel.cc:46-142 | A task armed in any reachable state for 1 to 65536 ms has fired, once and at its tick, after that many rounds of the tick thread and one more |
| `TimingWheel.RoundsPass` | cyber/timer/timing_wheel.cc:128-142 | Each round of the tick thread is one tick |
| `TimingWheel.DroppedTaskIsSilent` | cyber/timer/timing_wheel.cc:50-60 | A task whose pointer has expired fires no more, in whatever bucket it is |
| `TimingWheel.ArmedTaskGoesLast` | cyber/timer/timing_wheel.cc:73-106 | A task armed goes behind those in its bucket; no other bucket changes |
| `TimingWheel.TasksStayInOrder` | cyber/timer/timing_wheel.cc:46-67 | Tasks of one bucket are fired, and cascaded into another, in their order |
| `TimingWheel.FireTickIsExact` | cyber/timer/timing_wheel.cc:78-106 | The tick is exact if and only if work index plus ticks stays within 64 revolutions; so for all n up to 32768 |
| `TimingWheel.FireTickByTick` | cyber/timer/timing_wheel.cc:78-106 | The tick depends on the number of ticks since the start alone, not on what else is in the wheel |
| `TimingWheel.TooLongADurationFiresEarly` | cyber/timer/timing_wheel.cc:82-97 | 65538 ms armed on the last work bucket fires after one tick |
| `TimingWheel.BucketOfFireTick` | cyber/timer/timing_wheel.cc:82-102 | The bucket AddTask chooses, in the work wheel, the next revolution or the assistant wheel, is the one its tick belongs to |
| `TimingWheel.TickFiresWhatIsDue` | cyber/timer/timing_wheel.cc:46-67 | A tick fires exactly the live tasks that are due at it, each once |
| `TimingWheel.RunKeepsInv` | cyber/timer/timing_wheel.cc:46-142 | Every task in the wheel sits in exactly one bucket, the right one, after any actions |
| `TimingWheel.CascadeKeepsInv` | cyber/timer/timing_wheel.cc:108-119 | The assistant bucket reached holds exactly the tasks due in the revolution that begins; cascading puts each live one in its work bucket |
| `TimingWheel.TimingWheel.AddTask` | cyber/timer/timing_wheel.cc:69-106 | The wheel arrays change in place as the model says, and the invariant is kept |
| `TimingWheel.TimingWheel.Place` | cyber/timer/timing_wheel.cc:82-105 | The branches that choose the bucket, in place |
| `TimingWheel.TimingWheel.Tick` | cyber/timer/timing_wheel.cc:46-67 | Returns the live callbacks of the current bucket in order and empties it |
| `TimingWheel.TimingWheel.Cascade` | cyber/timer/timing_wheel.cc:108-119 | Moves each live task of an assistant bucket to the work bucket of its remainder |
| `TimingWheel.TimingWheel.Advance` | cyber/timer/timing_wheel.cc:128-140 | Advances the work index and, at zero, the assistant index, and cascades |
| `Timer.CompensationForgetsThePast` | cyber/timer/timer.cc:92-117 | After one compensating callback the error at the next start lies in (-3 ms, 2 ms + lateness), whatever it was before |
| `Timer.NeverAheadIff` | cyber/timer/timer.cc:57-123 | On every run on the wheel's ticks, with callbacks of any length, the error stays above -3 ms, if and only if the interval is at most 65533 ms, or 65534 ms when callbacks start less than half a millisecond late |
| `Timer.NeverFarAhead` | cyber/timer/timer.cc:102-117 | Up to that interval each re-arming is also for at most 3 ms more than the interval and within the wheel's range, overruns included |
| `Timer.TooLongPeriods` | cyber/timer/timer.cc:57-60 | A run with each accepted interval beyond it, from the start of the timer on, whose third firing re-arms for 65537 ms and is fired one tick later, 65 s ahead of its schedule |
| `Timer.ErrorBoundedIffRoom` | cyber/timer/timer.cc:92-123 | For every interval, longest run time and lateness: the error is bounded above over all runs on the ticks if and only if a callback armed for 2 ms after the latest start and the longest run is fired within the interval |
| `Timer.NeverFarBehind` | cyber/timer/timer.cc:111-117 | With that room the error stays below 2 ms and the lateness on every run: drift is bounded, not accumulated |
| `Timer.FallsBehind` | cyber/timer/timer.cc:111-117 | Without that room, for every k a run on the ticks, from the start of the timer on, whose error reaches k ms |
| `Timer.ErrorIsTicksBehind` | cyber/timer/timer.cc:92-97 | The accumulated error is what the ticks have fallen behind the schedule, but for the lateness of the first and the last start |
| `Timer.NextTick` | cyber/timer/timer.cc:102-117 | On every run, a callback that overran its interval or left too little of it is followed by the very next tick after its end; any other one by the tick as far after its end as the interval less run time and error says |
| `Timer.GridGivesStartsInTime` | cyber/timer/timer.cc:123 | A task armed for n ticks of 2 ms starts more than 2(n - 1) ms and at most 2n ms later, but for lateness |
| `Timer.ReArmingStaysInTheWheel` | cyber/timer/timer.cc:111-123 | Up to that interval the wheel, whatever else is in it, fires every re-arming after exactly its number of ticks |
| `Timer.TimerTask.InitTask` | cyber/timer/timer.cc:51-64 | A period of zero or of 65536 ms and more is refused; else the task starts with that interval and no error |
| `Timer.TimerTask.Callback` | cyber/timer/timer.cc:82-122 | The callback's fields change in place as the model says |
| `RecordReader.RecordReader.Reset` | cyber/record/record_reader.cc:60-65 | Everything in the file is unread again |
| `RecordReader.RecordReader.ReadMessage` | cyber/record/record_reader.cc:75-110 | For any window, empty ones included: the next message inside it if there is one; what is skipped lies before it; when it answers none, all that is unread lies after it or the file ends before it, and what is unread is exactly what the chunk headers on the way let it skip to |
| `RecordReader.RecordReader.ReadOpenChunk` | cyber/record/record_reader.cc:85-100 | The loop over the open chunk: skips what is early, stops at what is late |
| `RecordReader.RecordReader.ReadNextChunk` | cyber/record/record_reader.cc:112-172 | For any window: opens the next chunk worth opening; loses no message at or after the begin time; when it answers false, all that is unopened lies after the end time |
| `RecordReader.NextSection` | cyber/record/record_reader.cc:120-169 | What consuming one section of each kind does to the messages not opened yet, including a skipped body and a chunk header left behind |
| `RecordReader.SearchOfChunk` | cyber/record/record_reader.cc:135-163 | What a search makes of a chunk by its header: one that begins after the window stops it and stays unread, one that ends before it is skipped, any other is read up to the window's end |
| `RecordReader.WindowBeforeTheFile` | cyber/record/record_reader.cc:81-83 | A window before the whole file leaves it unread |
| `RecordReader.RecordReader.constructor` | cyber/record/record_reader.cc:32-58 | A new reader has the whole file unread |
| `RecordViewer.View` | cyber/record/record_viewer.cc:40-75 | For any readers, channels and window whose playing comes to an end, iterating a viewer terminates and plays exactly what is stated of the files; unless the first window wraps around, that is the stable sort by time of the recorded messages inside the user's window on those channels |
| `RecordViewer.PlaysBeforeTheBegin` | cyber/record/record_viewer.cc:142-172 | For every begin and end of which the first window wraps around: a viewer over a reader of a file whose one message lies where the second window begins plays that message, although it lies before the begin and nothing should be played |
| `PlaybackOfFiles.PlaysRightIffPlayable` | cyber/record/record_viewer.cc:141-172 | For every begin and end for which playing ends: what is played is what should be, for all files and channels, if and only if the window is empty or the first second of it does not reach 2^64 |
| `PlaybackOfFiles.TooEarlyIsPlayed` | cyber/record/record_viewer.cc:142-172 | The failing side, for every such begin and end: a well-formed file of which a message before the begin is played and nothing should be |
| `PlaybackWindows.WindowsEndIff` | cyber/record/record_viewer.cc:141-172 | On 64-bit integers, from any begin, the windows pass the end if and only if it is not 2^64 - 1, however often they go round before |
| `PlaybackWindows.MeasureDecreases` | cyber/record/record_viewer.cc:142-172 | Each window brings the loop nearer to its end, those that wrap around too |
| `RecordViewer.PlayAll` | cyber/record/record_viewer.cc:77-206 | The same for a viewer in any state, played before or not: begin() starts over and its whole playback follows |
| `PlaybackOrder.PlaybackIsSortedCompleteAndStable` | cyber/record/record_viewer.cc:140-176 | What that means: in time order, each recorded message in the window on a wanted channel as often as it was recorded and no other, ties in reader order |
| `PlaybackOrder.StableSortIsTheStableSort` | cyber/record/record_viewer.cc:167 | Inserting into the multimap one by one gives the one sequence that is sorted and keeps the order at each time |
| `PlaybackOrder.WindowKeepsWhatIsLeft` | cyber/record/record_viewer.cc:141-173 | Reading one window into the buffer does not change what is left to play |
| `RecordViewer.ClippingKeepsThePlayback` | cyber/record/record_viewer.cc:112-138 | Clipping begin and end to the files' headers leaves out no message |
| `RecordViewer.EarliestAndLatest` | cyber/record/record_viewer.cc:113-130 | The times that begin and end are clipped to are the least begin and the greatest end of the valid readers, or the largest and the smallest time there is |
| `RecordViewer.NothingToView` | cyber/record/record_viewer.cc:113-137 | Without a valid reader begin comes after end, whatever the user's times, so the viewer is not valid |
| `RecordViewer.WindowIsRead` | cyber/record/record_viewer.cc:156-172 | A window that goes forward or wraps around, over readers that have been read up to some time, leaves what is to be played unchanged: nothing is lost and nothing is read twice |
| `RecordViewer.FirstWindowIsRead` | cyber/record/record_viewer.cc:156-172 | A first window that wraps around puts nothing into the buffer and leaves every reader at what lies after its end |
| `RecordViewer.RecordViewer.FillOneWindow` | cyber/record/record_viewer.cc:142-172 | One window in place: what is left to play stays the same, and the next window starts after this one, modulo 2^64 |
| `RecordViewer.RecordViewer.constructor` | cyber/record/record_viewer.cc:40-49 | The times are clipped to the later begin and the earlier end of window and files; unless the first window wraps around, what the viewer will play is the playback of the user's window |
| `RecordViewer.RecordViewer.UpdateTime` | cyber/record/record_viewer.cc:112-138 | begin and end become the later begin and the earlier end |
| `RecordViewer.RecordViewer.Reset` | cyber/record/record_viewer.cc:103-110 | The viewer's whole playback is left to play, whatever was played before |
| `RecordViewer.RecordViewer.FinishReaders` | cyber/record/record_viewer.cc:148-154 | Finishing and rewinding readers whose file has ended does not change what is left to play |
| `RecordViewer.RecordViewer.ReadShareUnlessFinished` | cyber/record/record_viewer.cc:156-169 | The buffer gains exactly one reader's messages of the window, in order |
| `RecordViewer.RecordViewer.FillWindow` | cyber/record/record_viewer.cc:156-169 | The buffer gains exactly all readers' messages of the window, reader by reader |
| `RecordViewer.RecordViewer.FillBuffer` | cyber/record/record_viewer.cc:140-176 | What is left to play does not change; false exactly when nothing is buffered, and then nothing is left; stops only past the end or with 128 messages; terminates |
| `RecordViewer.RecordViewer.Update` | cyber/record/record_viewer.cc:60-75 | Takes the first wanted message of what is left; none only when nothing is left |
| `RecordViewer.RecordViewer.IsValid` | cyber/record/record_viewer.cc:51-58 | True if and only if begin is not after end |
| `RecordViewer.Iterator.Begin` | cyber/record/record_viewer.cc:178-187 | An iterator starts with the viewer's whole playback ahead of it, which is empty for an invalid window |
| `RecordViewer.Iterator.Advance` | cyber/record/record_viewer.cc:200-206 | Moves to the next message of the playback |
| `ClientService.EveryAnswerIsOnesOwn` | cyber/service/client.h:266-310 | Over a network that loses, duplicates and reorders, with any number of clients: no promise is set twice, its value was computed by the service from this client's request of that number, pending are exactly the requests sent and not answered, and each answered request's callback ran exactly once |
| `ClientService.AnswersNeverChange` | cyber/service/client.h:300-308 | A promise that is set keeps its value in every further run |
| `ClientService.DeliveryFulfils` | cyber/service/client.h:296-308 | A response that reaches its client leaves that request fulfilled; at any other client it changes nothing |
| `ClientService.RequestIsAnswered` | cyber/service/service.h:136-158 | When the network delivers, a request to an idle service is answered with what the service computes, whatever happened before |
| `ClientService.QueueIsAnswered` | cyber/service/service.h:144-158 | When the network delivers, every request in the queue, however many and whatever happened before, is answered in the order of the queue with what the service computes for it, and none is left |
| `ClientService.DeliveredInOrder` | cyber/service/service.h:136-141 | Requests wait behind those already queued, in the order in which the network delivers them |
| `ClientService.DestroyedServiceIsSilent` | cyber/service/service.h:124-134 | A destroyed service has nothing queued and computes nothing any more, unless it is at work |
| `ClientService.RunKeepsInv` | cyber/service/client.h:266-310 | The protocol invariant holds after every sequence of events |
| `ClientService.StepKeepsResponses` | cyber/service/service.h:209-237 | Every response on the channel was computed from a request that was sent, under that request's number and owner |
| `ClientService.Client.AsyncSendRequest` | cyber/service/client.h:266-283 | Numbers, sends and notes a request; without Init the future is invalid and nothing happens |
| `ClientService.Client.HandleResponse` | cyber/service/client.h:290-310 | Drops what is not its own or not pending; else removes, fulfils and calls back |
| `ClientService.Service.Enqueue` | cyber/service/service.h:136-141 | Appends a task |
| `ClientService.Service.TakeNextTask` | cyber/service/service.h:144-158 | Takes the first task unless the service is destroyed |
| `ClientService.Service.HandleRequest` | cyber/service/service.h:209-237 | Answers under the request's own number and owner |
| `ClientService.Service.Destroy` | cyber/service/service.h:124-134 | Drops all tasks and stops |
| `NameRegistry.NamesAndIdsCorrespond` | cyber/common/global_data.cc:168-189 | For any hash function and any sequence of registrations: equal ids if and only if equal names, and every id given is looked up to its name |
| `NameRegistry.SearchEndsIffRoom` | cyber/common/global_data.cc:170-178 | The search ends if and only if the name is registered or some id is free, wrap-around of the id included |
| `NameRegistry.RegisteringKeepsInv` | cyber/common/global_data.cc:168-181 | Every name stays in the first slot from its hash that no other name takes |
| `NameRegistry.OneNameOneId` | cyber/common/global_data.cc:173-175 | No name is registered under two ids |
| `ConcurrentRegistration.SafeIffTargetsDiffer` | cyber/common/global_data.cc:168-181 | For any table, hash function and names registered at the same time, each by a thread of its own, with Has, Get and Set as single steps: on every schedule ids correspond to names and older entries stay, if and only if no two different names have the same target, the id that registering each alone would give |
| `ConcurrentRegistration.SafeFromEmptyIffHashesDiffer` | cyber/common/global_data.cc:168-181 | From the empty table that is so if and only if different names have different hashes |
| `ConcurrentRegistration.SameTargetCollides` | cyber/common/global_data.cc:170-179 | For any two different names with one target, a schedule after which both are given that id, which is looked up to one of them |
| `ConcurrentRegistration.RunKeepsRunInv` | cyber/common/global_data.cc:170-179 | When targets differ, every thread searches only slots up to its target and stores at it, after every schedule |
| `NameRegistry.Registry.Register` | cyber/common/global_data.cc:168-181 | The probe loop terminates with an id that is free or already this name's, and stores the name there |
| `NameRegistry.Registry.GetById` | cyber/common/global_data.cc:183-189 | The name, or the empty string for an unknown id |
| `MessageHeader.RoundTrip32` | cyber/message/message_header.h:97-114 | Numbers of 32 bits and four bytes in network order convert into each other and back |
| `MessageHeader.RoundTrip64` | cyber/message/message_header.h:102-120 | The same for 64 bits and eight bytes |
| `MessageHeader.NetworkOrder` | cyber/message/message_header.h:97-107 | The bytes of a 32-bit or 64-bit number spell it with the most significant first |
| `MessageHeader.FieldsAreApart` | cyber/message/message_header.h:122-129 | The eight fields of the 192-byte block do not overlap: writing one reads back and leaves all others alone |
| `MessageHeader.FieldsFollowEachOther` | cyber/message/message_header.h:122-129 | The eight fields fill the 192 bytes in the order and with the lengths in which they are declared |
| `MessageHeader.MagicNumberSpells` | cyber/message/message_header.h:50 | The magic number is the text in the header |
| `MessageHeader.TypeNameReadsBack` | cyber/message/message_header.h:74-85 | A type name without zero bytes reads back whole up to 128 bytes, else its first 128 |
| `MessageHeader.ParseOfSerialized` | cyber/message/message_traits.h:168-179 | For every message, type name, trailing bytes and buffer length: parsing restores the message if and only if it is not empty and the buffer holds all of it |
| `MessageHeader.ThereAndBack` | cyber/message/message_traits.h:168-230 | SerializeToHC then ParseFromHC on one buffer restores the message if and only if it is not empty; the buffer then holds header, message and what it held behind them |
| `MessageHeader.SerializeToHC` | cyber/message/message_traits.h:211-230 | Succeeds if and only if there is room; writes header and content and nothing else, or only the header when the content does not fit |
| `MessageHeader.ParseFromHC` | cyber/message/message_traits.h:168-179 | Refuses short buffers, sizes beyond the buffer and empty contents, and leaves the message alone then |
| `MessageHeader.MessageHeader.constructor` | cyber/message/message_header.h:33-42 | The magic number, all else zero |
| `MessageHeader.MessageHeader.Set64` | cyber/message/message_header.h:52-72 | A 64-bit setter reads back, in place, and leaves every other field alone |
| `MessageHeader.MessageHeader.SetMsgType` | cyber/message/message_header.h:75-85 | Cuts long names, ignores empty ones, clears the field before |
| `MessageHeader.MessageHeader.SetContentSize` | cyber/message/message_header.h:91-93 | Writes the size in network order, in place |
| `MessageHeader.RawMessage.SerializeToArray` | cyber/message/raw_message.h:68-75 | Copies the content if it fits, else nothing |
| `MessageHeader.RawMessage.ParseFromArray` | cyber/message/raw_message.h:85-92 | Takes the bytes unless there are none |
| `TimeConversion.UnixGpsUnix` | cyber/common/time_conversion.h:64-93 | For any descending leap table: from the oldest entry on, GPS-to-Unix inverts Unix-to-GPS if and only if the cast to 32 bits leaves the time no earlier than the newest entry, so always below 2^31 |
| `TimeConversion.GpsUnixGps` | cyber/common/time_conversion.h:64-93 | The other direction, from the oldest entry on, fails if and only if the GPS second is an inserted leap second or the cast to 32 bits leaves its Unix time, from 2^31 on, earlier than the newest entry |
| `TimeConversion.UnitsUnixGpsUnix` | cyber/common/time_conversion.h:74-103 | The first round trip in micro- or nanoseconds, with the same exact condition on the whole seconds |
| `TimeConversion.UnitsGpsUnixGps` | cyber/common/time_conversion.h:74-103 | The second one, from the oldest entry on, fails exactly within such a second |
| `TimeConversion.LeapSecondsWellFormed` | cyber/common/time_conversion.h:47-55 | The table in use is descending, in steps of one leap second |
| `TimeConversion.EntriesFallOnTheirDates` | cyber/common/time_conversion.h:47-58 | The table's times are the first seconds of the halves of years that its comments name, by the Gregorian calendar, and GPS time starts on 6 January 1980 |
| `TimeConversion.TowardsZero` | cyber/common/time_conversion.h:74-82 | Whole seconds are cut off towards zero, with a rest of the sign of the time |
| `TimeConversion.LeapSecondOf2008` | cyber/common/time_conversion.h:35-44 | The header's own example around the end of 2008 |
| `TimeConversion.UnixToGpsSeconds` | cyber/common/time_conversion.h:64-72 | The search loop computes the specified entry's difference, or 0 before the table |
| `TimeConversion.GpsToUnixSeconds` | cyber/common/time_conversion.h:84-93 | The search loop with its cast to 32 bits, or 0 |

## Left out

- C++ memory orders, torn reads and pointer lifetime: memory is sequentially consistent, slots hold values, and freed entries and values are never reused.
- Wrap-around of the 64-bit counters of `BoundedQueue` and of the count in `CCObjectPool`: modelled as unbounded naturals.
- Retry counting and `yield` in the spin loops, wait strategies, `BreakAllWait` and the `Wait` variants of the queue.
- `ConstructAll` and `ConstructObject` of the object pool: they differ from `GetObject` only in running constructors; capacity 0 is excluded as in the source.
- The sentinels and buckets of `AtomicHashMap` as heap objects: entries are numbered in one sequence, a replaced value is a fresh stamp.
- Misuse of the locks: unlocking without holding, and guards that are not nested.
- Queue size 0, for which a channel's buffer has no live slot.
- Fusion callbacks, `AllLatest` and visitors of several channels.
- The start-up window before the notify callback is registered, and `AddBuffer` and `AddNotifier` while messages are dispatched.
- `TaskManager` and `HangUp`: they set DATA_WAIT after a failed dequeue, which the no-lost-wake-up result does not cover.
- The waiting and notifying of idle processors in the scheduler, its priorities and its one-second timeout; force-stop of routines.
- Liveness under a scheduler: only what an operation, a publication, a processor or a timer thread reaches when it runs alone, and that requests are answered when the network delivers.
- `TimingWheel`: AddTask, a tick, and the advance with its cascade are atomic; a task is armed only when it is not in the wheel; tasks are numbers and the wheel keeps their remainders; the tick thread's start, shutdown and sleeping are not modelled.
- `Timer.RoundToMs`: rounds exactly, where the source goes through a double; the double has no effect below 2^53 ns.
- `Timer` one-shot callbacks, `Start` and `Stop`.
- `RecordViewer.RecordViewer.constructor`: the channel list and the sorting of readers in `Init` are not modelled; the theorems hold for any order.
- `RecordReader`: opening files, reading the index and channel information; an unknown section type counts as the end of the readable sections.
- The sequence number of `Client` is unbounded; `SendRequest` with its timeout, and callbacks that themselves send requests, are left out.
- `NameRegistry` and `ConcurrentRegistration`: the map is taken as atomic and value-like, as `AtomicHashMap.RunRefinesMap` justifies; concurrent registrations are one per thread, from a table that earlier ones left behind and that has room.
- `MessageHeader`: messages of other types than `RawMessage`, whose serialization is not part of this model; negative buffer sizes and messages of 2^31 bytes and more.
- `TimeConversion`: the instance for floating-point seconds, and conversion to and from strings.
- `UnboundedQueue`, `ObjectPool`, `ThreadSafeQueue`, `Signal`, parameters, clocks: they would add only easy members.
- Transport, topology, logging, configuration and class loading: input and output.
