# A verified model of the middleware's concurrent core and its codec

The middleware passes messages between processes through shared memory. Its substance is a set of hand-written
concurrent structures and a binary codec; this project models them in Dafny and proves what they are for.

The concurrent structures are step systems. A state holds the shared memory, the table of threads with their
program counters and locals, and histories that no thread reads. A step is one access to shared memory by one
thread, or the start of a call; a schedule is any sequence of steps by any threads. Sequential consistency is
assumed, and a weak compare-exchange may fail spuriously whenever the schedule says so. Each system has one
inductive invariant, and the theorems hold in every state of every schedule.

The sequential side of the same structures is a set of classes that update arrays, fields and linked nodes in
place, with the loops of the original, each proved against a mathematical value: a sequence, a map, a list of
bytes.

| files | what they model |
|---|---|
| `BoundedQueueProtocol`, `BoundedQueueProperties`, `BoundedQueueCalls`, `BoundedQueue` | the ring with the counters head, commit and tail |
| `AtomicHashMapProtocol`, `AtomicHashMapInvariant`, `AtomicHashMapProperties`, `AtomicHashMapProgress`, `AtomicHashMap` | the lock-free hash table of sorted lists |
| `GlobalData` | registration of channels and nodes by linear probing on that table |
| `Registration`, `RegistrationProperties`, `RegistrationCollision`, `RegistrationCalls` | the same from several threads at once, over the table's own steps |
| `ShmConf`, `Segment` | the layout of a segment, the block lock, the search for a writable block |
| `TransportProtocol`, `TransportInvariant`, `TransportProperties`, `TransportProgress`, `TransportCalls` | transmitters and readers of one segment, byte by byte |
| `TransportSearch`, `TransportStarvation` | how long they search for a writable block |
| `NotifierProtocol`, `NotifierProperties`, `NotifierLag`, `NotifierCalls`, `ConditionNotifier` | the broadcast ring that announces blocks |
| `AtomicRWLock`, `AtomicRWLockProperties`, `AtomicRWLockCalls`, `AtomicRWLockProgress` | the writer-preferring lock |
| `Numbers`, `Codec`, `Ordered`, `WireLayout`, `DataStream` | the wire format, and the class that writes and reads it |
| `EndToEnd` | a value serialized, carried through shared memory and parsed again |
| `UnboundedQueue`, `UnboundedQueueProperties`, `UnboundedQueueProgress`, `UnboundedQueueCalls` | the linked queue |
| `ObjectPool` | the pool with its free list |
| `Common`, `Arithmetic` | optional values, sequences, counting, runs; remainders and bit masks |

## Where the code falls short of what one might expect

These are results of the model: each comes with a run that shows it, and with the condition under which the
code does what is expected.

* `BoundedQueue::Enqueue` can answer "full" while the queue is empty, because a stale tail is compared with the
  head modulo the pool size (`FullAnswerCanBeWrong`); it does exactly if the queue is full with a current tail, or
  the tail is stale by whole laps (`FullAnswer`).
* `UnboundedQueue::Dequeue` can answer "empty" although an `Enqueue` has returned and nothing was taken
  (`EmptyAnswerCanBeWrong`); it does exactly if the link out of the current head is missing (`EmptyAnswer`).
* `UnboundedQueue::Size` can be -1, that is 2^64 - 1 (`SizeCanBeNegative`); it is the length of the queue exactly
  if as many producers as consumers have yet to count (`SizeIsDifference`).
* A listener can be delivered ticket 0 of the notifier with an info nobody sent, because the slots start out
  holding ticket 0 (`TicketZeroCanBeStale`). With paced notifiers the test a listener makes of its slot lets a
  ticket through exactly if its notifier has finished or the ticket is 0 (`SlotCheckExact`); and ticket 0 comes
  with its own info in every continuation exactly if the slot holds that info when it is tested
  (`TicketZeroExact`), which it does unless ticket 0's notifier is still at work then (`FinishedZeroIsRight`).
* A listener that is lapped by a whole ring while it copies can be delivered a mixture of two infos, though notifiers
  wait for one another (`DeliveryCanBeTorn`, from any such state `LappedCanBeTorn`). Each word then comes from its
  ticket or a later one of the same slot (`DeliveredWords`), and the info is exactly the ticket's if no later ticket of
  the slot has been drawn by the time of the delivery (`NotLappedIsExact`).
* Two registrations that overlap can give two names one id and lose the first name (`OverlapCanCollide`): ids and names
  correspond one to one exactly if no Set overwrites another name (`OneToOneExactly`), as when no two registrations
  overlap (`OneToOneWithoutOverlap`).
* A search for a writable block can go on for ever although some block is free at each instant (`SearchCanStarve`); if
  one and the same block stays free it is bounded, however many transmitters search (`EverySearchIsBounded`).
* Without `write_first_`, which is set by default, a waiting writer can be overtaken any number of times
  (`UnboundedWithoutWriteFirst`); with it only by readers that had already passed the test (`BoundedOvertaking`).

## Model

| member | source | states |
|---|---|---|
| BoundedQueueProtocol.StepKeepsInv | base/bounded_queue.h:98-147 | Every step of every thread keeps head < commit <= tail <= head + pool_size - 1, committed slots whole, every pending ticket with its winner, and dequeued a prefix of enqueued |
| BoundedQueueProperties.FirstInFirstOut | base/bounded_queue.h:98-147 | In every run from Init the counters are bounded as promised and the elements returned by successful head CASes, in order, are exactly the first of those that won tail CASes, in order |
| BoundedQueueProperties.StepRefinesFifo | base/bounded_queue.h:98-147 | Each step acts on the visible queue like a queue of capacity size: commit puts, a head CAS takes and returns the first, an empty answer comes only when it is empty, nothing else changes it |
| BoundedQueueCalls.EnqueueOutcome | base/bounded_queue.h:98-114 | In every run an Enqueue that has returned answers true exactly if it has won one ticket, with its own element, that is committed by then; it answers false exactly if it has won none, and its last step was a full check that found the two indices equal; it has done nothing else to the queue |
| BoundedQueueCalls.DequeueOutcome | base/bounded_queue.h:136-147 | In every run a Dequeue that has returned an element has taken it, the first of the queue, with its last step, and one that has answered empty has taken none and found the queue empty with its last step |
| BoundedQueueCalls.CallReturnsAlone | base/bounded_queue.h:98-147 | From every reachable state in which nobody else holds a ticket, a call left alone returns within 2 * width + 6 steps, however stale what it has read |
| BoundedQueueCalls.CasExact | base/bounded_queue.h:107-145 | Each compare-exchange succeeds exactly if it finds what it expects and does not fail spuriously |
| BoundedQueueProperties.CopyUndisturbed | base/bounded_queue.h:136-147 | If the head has not moved since a consumer began to copy, the slot was committed, held the ticket's element throughout, and no producer had that slot at any instant in between |
| BoundedQueueProperties.HeadCasTakesWholeElement | base/bounded_queue.h:139-146 | A head CAS that can succeed returns the whole element of the ticket it takes, though the copy was made word by word before it |
| BoundedQueueProperties.EmptyAnswer | base/bounded_queue.h:138-143 | Dequeue answers false exactly if its head is current and head + 1 == commit at the instant it loads commit |
| BoundedQueueProperties.FullAnswer | base/bounded_queue.h:101-106 | Enqueue answers false exactly if the queue is full and the tail current, or the tail is behind the head by whole laps |
| BoundedQueueProperties.FullAnswerCanBeWrong | base/bounded_queue.h:101-106 | For every size from 1 on there is a run in which Enqueue answers false on an empty queue |
| BoundedQueueProperties.OneOwner | base/bounded_queue.h:107-111 | Every ticket from commit to tail is in the hands of exactly one thread |
| BoundedQueueProperties.OwnerCommits | base/bounded_queue.h:108-111 | The owner of ticket commit, run alone, commits it within the words left to write plus two steps and disturbs nothing else |
| BoundedQueueProperties.HandOffNeverDeadlocks | base/bounded_queue.h:107-111 | From every reachable state some continuation commits all pending tickets, taking and adding nothing |
| BoundedQueueProperties.EnqueueAlone | base/bounded_queue.h:98-114 | Undisturbed, Enqueue appends and answers true exactly if fewer than size elements are stored |
| BoundedQueueProperties.DequeueAlone | base/bounded_queue.h:136-147 | Undisturbed, Dequeue takes the first visible element, or answers false exactly if there is none |
| BoundedQueueProtocol.GetIndex | base/bounded_queue.h:210-212 | The division-based index is the remainder by the pool size |
| BoundedQueueClass.BoundedQueue.Init | base/bounded_queue.h:83-95 | A pool of size + 2 slots, empty |
| BoundedQueueClass.BoundedQueue.Enqueue | base/bounded_queue.h:98-114 | On the array: appends the element, refuses exactly when size elements are stored, however often the weak CAS fails |
| BoundedQueueClass.BoundedQueue.Dequeue | base/bounded_queue.h:136-147 | On the array: removes and returns the oldest element, refuses exactly when there is none |
| BoundedQueueClass.BoundedQueue.Empty | base/bounded_queue.h:205-207 | Whether nothing is stored |
| BoundedQueueClass.BoundedQueue.Size | base/bounded_queue.h:200-202 | tail - head - 1 is the number of stored elements |
| AtomicHashMapInvariant.StepKeepsInv | base/atomic_hash_map.h:99-170 | Every step of Has, Get and Set, however stale its prev and target, keeps every entry pointing to the next larger linked key of its bucket and the table equal to the latest plain map |
| AtomicHashMapInvariant.EveryScheduleRuns | base/atomic_hash_map.h:99-170 | Every schedule has its sequence of states, all of which satisfy the invariant |
| AtomicHashMapProperties.StepRefinesMap | base/atomic_hash_map.h:136-170 | A step leaves the plain map alone, except the successful CAS that ends a Set, which changes it by that call's update and nothing else |
| AtomicHashMapProperties.QueryAnswersAtSomeInstant | base/atomic_hash_map.h:99-133 | Every answer of Has and Get, hit or miss, is the plain map's at some instant between the call's start and its return |
| AtomicHashMapProperties.SetUpdatesDuringCall | base/atomic_hash_map.h:136-170 | A Set that has returned made exactly one update, its own, during the call |
| AtomicHashMapProperties.FailedCasMeansProgress | base/atomic_hash_map.h:146-167 | If a CAS fails, another thread completed a Set since this one read what it compared with |
| AtomicHashMapProgress.CallReturnsAlone | base/atomic_hash_map.h:99-170 | From every reachable state, however stale what it has read, a call left alone returns within twice as many steps as its bucket has keys and nine more |
| AtomicHashMapProperties.ChainIsLinked | base/atomic_hash_map.h:113-133 | Every chain is finite and acyclic, its keys strictly increase, and they are the linked keys of the bucket after its start |
| AtomicHashMapProperties.BucketHoldsItsKeys | base/atomic_hash_map.h:24-56 | A bucket's chain holds exactly the plain map's keys that hash to it |
| AtomicHashMapProperties.EntriesStayLinked | base/atomic_hash_map.h:156-167 | No run ever unlinks an entry |
| AtomicHashMapProperties.InitIsEmpty | base/atomic_hash_map.h:86-89 | The table starts with the invariant and as the empty map |
| AtomicHashMapProperties.BucketIsRemainder | base/atomic_hash_map.h:24-27 | Masking with capacity - 1 is the remainder by the capacity |
| AtomicHashMapClass.AtomicHashMap.Find | base/atomic_hash_map.h:113-133 | On linked nodes: the first node not below the key and the one before it; found exactly if the key is linked |
| AtomicHashMapClass.AtomicHashMap.Has | base/atomic_hash_map.h:99-110 | On linked nodes: whether the key is in the plain map |
| AtomicHashMapClass.AtomicHashMap.Get | base/atomic_hash_map.h:245-253 | On linked nodes: the plain map's value, or none |
| AtomicHashMapClass.AtomicHashMap.Set | base/atomic_hash_map.h:53-56 | On linked nodes: the plain map with the key updated, and nothing else |
| AtomicHashMapClass.AtomicHashMap.Insert | base/atomic_hash_map.h:156-167 | On linked nodes: splices a new node in between prev and target and keeps every chain in order |
| AtomicHashMapClass.AtomicHashMap.Replace | base/atomic_hash_map.h:142-154 | On linked nodes: replaces the value of a node in place |
| GlobalDataModel.ProbeFor | common/global_data.cpp:124-136 | The probing loop ends, on any table that is not full, at the first id from the hash on that is free or holds the name |
| GlobalDataModel.GlobalData.RegisterChannel | common/global_data.cpp:121-140 | A known name keeps its id; a new one gets the first free id from its hash on, and no other entry changes |
| GlobalDataModel.GlobalData.RegisterNode | common/global_data.cpp:143-161 | The same for nodes, without touching the channels |
| GlobalDataModel.GlobalData.GetChannelById | common/global_data.cpp:163-169 | The name under an id, or the empty string |
| GlobalDataModel.ProbeIsSum | common/global_data.cpp:122-136 | The d-th id tried is the hash value plus d, modulo 2^64 |
| GlobalDataModel.RegistersDetermined | common/global_data.cpp:121-140 | In a consistent table a registration has exactly one outcome |
| GlobalDataModel.IdsAndNamesCorrespond | common/global_data.cpp:121-169 | In any run of registrations with any hash function ids and names correspond one to one, and an id still leads to its name after all later ones |
| RegistrationProtocol.StepKeepsInv | common/global_data.cpp:121-140 | Every step of registrations from several threads, over the table's own steps, keeps the table's history that of the names stored and each client at the call its place in the code says |
| RegistrationProtocol.GetFinds | common/global_data.cpp:126-129 | The Get that follows a successful Has always finds a name, whatever the others do meanwhile |
| RegistrationProperties.OneToOneExactly | common/global_data.cpp:121-169 | At every instant of every run ids and names stored correspond one to one exactly if no Set has overwritten another name; then every id stored leads to its name; and what is returned has been stored |
| RegistrationProperties.OneToOneWithoutOverlap | common/global_data.cpp:121-169 | They do if no two registrations overlap, whichever threads make them |
| RegistrationCalls.RegistrationOutcome | common/global_data.cpp:121-140 | In every run a registration that has returned has stored its name once, and answers with the id at which it has |
| RegistrationCalls.RegisterAlone | common/global_data.cpp:121-140 | Left alone, over the table's own steps, a registration returns and has done what registering on the plain map determines, from every reachable state in which no name has been overwritten and the table is not full |
| RegistrationCollision.OverlapCanCollide | common/global_data.cpp:121-140 | For any two names with one hash value there is a run that returns the same id for both and loses the first |
| ShmConfModel.ShmConf.Update | transport/shm/core/shm_conf.cpp:45-50 | The fields become the configuration for the size |
| ShmConfModel.CeilingCovers | transport/shm/core/shm_conf.cpp:52-68 | The ceiling covers the size exactly up to 32 MiB, and is the least tier that does |
| ShmConfModel.UpdateIsIdempotent | transport/shm/core/shm_conf.cpp:45-50 | Updating from a ceiling reproduces the whole configuration |
| ShmConfModel.BlockCounts | transport/shm/core/shm_conf.cpp:71-102 | Every block number is at least 8 and divides 2^32, and a buffer has room for payload and the 24-byte header |
| ShmConfModel.Tiers | transport/shm/core/shm_conf.cpp:17-102 | Up to 16 KiB, 128 KiB, 1 MiB, 8 MiB, 16 MiB and beyond: the ceiling, 512, 128, 64, 32, 16 and 8 blocks, and the sizes of buffer and segment that follow |
| ShmConfModel.PartsInARow | transport/shm/segment/xsi_segment.cpp:68-96 | State, then the blocks, then the buffers, each right after the one before |
| ShmConfModel.CreatorAndOpenerAgree | transport/shm/segment/xsi_segment.cpp:77-167 | Creator and opener of a segment compute the same offset for every buffer, whatever the opener was configured for |
| ShmConfModel.OpenOrCreate | transport/shm/segment/xsi_segment.cpp:77-96 | The creator keeps its configuration, stores its ceiling and maps exactly its blocks |
| ShmConfModel.OpenOnly | transport/shm/segment/xsi_segment.cpp:145-167 | The opener maps exactly the blocks of the configuration of the stored ceiling |
| ShmConfModel.PartsApart | transport/shm/segment/xsi_segment.cpp:68-96 | State, every Block and every buffer lie inside the segment and are pairwise disjoint |
| SegmentModel.Block.TryLockForWrite | transport/shm/core/block.cpp:19-27 | Locks for its writer exactly if nobody holds the block and the CAS does not fail spuriously, and else changes nothing |
| SegmentModel.Block.TryLockForRead | transport/shm/core/block.cpp:30-64 | Counts one more reader exactly if no writer holds the block and fewer than five attempts fail, and else changes nothing |
| SegmentModel.Block.ReleaseReadLock | transport/shm/core/block.cpp:67-69 | Gives one reader's hold back: the lock stays the exact count of holders, and the block is free exactly after the last reader |
| SegmentModel.Block.ReleaseWriteLock | transport/shm/core/block.cpp:72-74 | A block that its writer held is free again, for readers and writers, and the lock is the exact count of holders |
| SegmentModel.Segment.FetchAddSeq | transport/shm/core/state.h:47-49 | Returns the counter and advances it modulo 2^32 |
| SegmentModel.Segment.GetNextWritableBlockIndex | transport/shm/core/segment.cpp:143-155 | In a segment where nobody else is at work the search locks the first free block from the counter on, within as many probes as there are blocks, and touches no other block |
| SegmentModel.EveryBlockIsACandidate | transport/shm/core/segment.cpp:147-150 | Any block_num consecutive tickets lead to each block exactly once, across the 32-bit wrap-around |
| TransportInvariant.EveryScheduleRuns | transport/transmitter/shm_transmitter.h:71-109 | Every schedule has its sequence of states, all of which satisfy the invariant, so that theorems about runs speak of all schedules |
| TransportSearch.TicketsAreBounded | transport/shm/core/segment.cpp:143-155 | However many transmitters search, while one block stays free they draw together fewer than (threads + spurious failures + 1) * block_num tickets, whatever readers do with the other blocks |
| TransportSearch.EverySearchIsBounded | transport/shm/core/segment.cpp:143-155 | Each of them takes fewer than twice as many steps of its own before it has locked a block |
| TransportSearch.EverySearchEnds | transport/shm/core/segment.cpp:143-155 | A schedule with that many steps of a transmitter has an instant at which it holds the write lock of a block |
| TransportSearch.SearchIsBounded | transport/shm/core/segment.cpp:143-155 | If it is the only one that draws tickets, fewer than 2 * block_num steps, two for each probe, and the block need only be free while it searches |
| TransportSearch.SearchEnds | transport/shm/core/segment.cpp:143-155 | A schedule with that many steps of the only searcher has an instant, within that many of its steps, at which it holds the write lock of a block |
| TransportStarvation.SearchCanStarve | transport/shm/core/segment.cpp:143-155 | Without a block that stays free there is no bound: for every n there is a run with one transmitter and one reader, without spurious failures, in which n tickets are drawn in vain although some block is free at each instant |
| TransportProgress.TransmitAlone | transport/transmitter/shm_transmitter.h:71-109 | Undisturbed and with some block free, Transmit locks a free block, releases it, records its message and sends one notification of that release; all other blocks and processes stay as they were |
| TransportProgress.ReadAlone | transport/dispatcher/shm_dispatcher.cpp:59-80 | Undisturbed, reading a notified block that no writer holds ends with a received message |
| TransportProgress.MessageGetsThrough | transport/dispatcher/shm_dispatcher.cpp:65-80 | From every state with the invariant in which some block is free and two processes are between calls there is a run in which one transmits a given message and the other receives its payload and header |
| TransportInvariant.StepKeepsInv | transport/transmitter/shm_transmitter.h:84-109 | Every step of transmitters and readers keeps the lock counts, each block's contents equal to its latest release when unlocked, and every copy a prefix of one message |
| TransportCalls.TransmitOutcome | transport/transmitter/shm_transmitter.h:71-109 | In every run a Transmit that is over has released its message once, to one block, and has with its last step sent one notification, of that block and that release, and nothing else |
| TransportCalls.TransmitTaken | transport/transmitter/shm_transmitter.h:84-92 | A message is taken exactly if its payload is not above the ceiling |
| TransportCalls.ReadOutcome | transport/shm/core/block.cpp:30-64 | In every run a read that is over has received something after fewer than five failed compare-exchanges, or has failed: with a load that found a writer, which always ends it, or with its fifth failed compare-exchange |
| TransportCalls.AcquireAlone | transport/shm/core/block.cpp:30-64 | A reader in any stage of taking its lock, however stale what it has loaded, gets lock and message if left alone, while no writer holds the block and an attempt is left |
| TransportCalls.LockCasExact | transport/shm/core/block.cpp:19-64 | The compare-exchange on a lock succeeds exactly if it finds what it expects and does not fail spuriously |
| TransportProperties.BlockLockCounts | transport/shm/core/block.cpp:19-74 | In every run a block's lock is -1 with exactly one writer and no reader, or the number of its readers with no writer |
| TransportProperties.ReaderGetsOneWholeMessage | transport/dispatcher/shm_dispatcher.cpp:65-80 | What a reader ends up with is payload, ids and sequence number of one single completed Transmit, the notified one or a later one to the same block |
| TransportProperties.NotificationsAnnounceReleases | transport/transmitter/shm_transmitter.h:100-106 | A notification is sent only after the write it announces has been released |
| TransportProperties.StepSparesReadBlock | transport/shm/core/segment.cpp:82-96 | No step changes a block, or completes a write to it, while somebody holds its read lock |
| TransportProperties.BlockFrozenWhileRead | transport/shm/core/segment.cpp:58-97 | Between acquiring and releasing its read lock a reader's block keeps its contents and its latest release |
| TransportProperties.ReadBlockHoldsLatest | transport/shm/core/segment.cpp:82-88 | A block that is being read holds, in full, the message of its latest release |
| NotifierProperties.DeliveriesInOrder | transport/shm/notifier/condition_notifier.cpp:78-104 | In every run a listener's delivered tickets strictly increase, were drawn, and every skip is a multiple of kBufLength |
| NotifierCalls.NotifyOutcome | transport/shm/notifier/condition_notifier.cpp:49-63 | In every run a Notify that has returned has drawn one ticket, for its own info, has then stored each word of it in that ticket's slot, and with its last step the ticket |
| NotifierCalls.OnlyNewTickets | transport/shm/notifier/condition_notifier.cpp:22-30 | A listener expects the first ticket drawn after it joined, and every ticket it is delivered has been drawn since |
| NotifierCalls.PollOutcome | transport/shm/notifier/condition_notifier.cpp:78-104 | A poll leaves the listener as it was exactly if nothing is new or its slot holds an older ticket; otherwise it goes on to copy, with the ticket found there |
| NotifierProperties.SlotCheckExact | transport/shm/notifier/condition_notifier.cpp:92-103 | While slots are not drawn again too soon, the slot test for tickets from 1 on succeeds exactly if that ticket's notifier has finished, and then with that ticket |
| NotifierProperties.PacedDeliveryIsComplete | transport/shm/notifier/condition_notifier.cpp:55-104 | If no slot is drawn again before its writer has finished and the listener has passed it, tickets are delivered one after the other, each from 1 on with the info its notifier wrote |
| NotifierProperties.FinishedTicketIsDelivered | transport/shm/notifier/condition_notifier.cpp:78-104 | A finished ticket that is due is delivered by the listener's own next steps, with its info |
| NotifierProperties.TicketZeroExact | transport/shm/notifier/condition_notifier.cpp:92-103 | A listener that passes the test at ticket 0 is delivered that ticket's own info in every paced continuation exactly if the slot holds it at the test |
| NotifierProperties.FinishedZeroIsRight | transport/shm/notifier/condition_notifier.cpp:92-103 | That is so whenever the notifier of ticket 0 is not in flight at the test, whatever comes after |
| NotifierLag.DeliveredWords | transport/shm/notifier/condition_notifier.cpp:78-104 | If notifiers wait for one another but not for the listener, each word delivered for a ticket from 1 on is that word of the ticket or of a later one of the same slot |
| NotifierLag.NotLappedIsExact | transport/shm/notifier/condition_notifier.cpp:92-103 | The info delivered is exactly the ticket's if no later ticket of its slot has been drawn by then |
| NotifierLag.LappedCanBeTorn | transport/shm/notifier/condition_notifier.cpp:49-104 | From every state in which a listener has copied one word and no notifier is at work it can be delivered that word with the rest of any other info |
| NotifierLag.DeliveryCanBeTorn | transport/shm/notifier/condition_notifier.cpp:49-104 | For any two infos there is a run from the start that delivers the first word of one with the rest of the other |
| NotifierProperties.TicketZeroCanBeStale | transport/shm/notifier/condition_notifier.h:17-21 | There is a run that delivers ticket 0 with an info nobody sent |
| ConditionNotifierClass.ConditionNotifier.Notify | transport/shm/notifier/condition_notifier.cpp:49-63 | Stores info and ticket in the slot of the next ticket |
| ConditionNotifierClass.ConditionNotifier.Listen | transport/shm/notifier/condition_notifier.cpp:66-116 | Delivers the latest info of the slot the cursor points to and moves the cursor past its ticket, or answers false exactly if nothing new was notified |
| ConditionNotifierClass.LatestIsLatest | transport/shm/notifier/condition_notifier.cpp:58-60 | The ticket found in a slot is the last one drawn for it |
| AtomicRWLockProperties.LockCounts | base/atomic_rw_lock.h:34-114 | In every run lock_num is -1 with exactly one writer and no reader or the number of readers with no writer, and write_lock_wait_num counts the announced writers |
| AtomicRWLockProperties.WritersExclude | base/atomic_rw_lock.h:92-114 | While one thread is writing no other is reading or writing |
| AtomicRWLockProperties.BoundedOvertaking | base/atomic_rw_lock.h:34-106 | From a writer's announcement to its acquisition at most those readers get in that had already passed the test, and each uses its pass up |
| AtomicRWLockCalls.ReadTestExact | base/atomic_rw_lock.h:39-55 | A reader passes the test exactly if it has seen no writer in possession and, with write_first, no writer waits; otherwise it loads the lock again |
| AtomicRWLockCalls.ReadLockOutcome | base/atomic_rw_lock.h:34-56 | In every run a ReadLock that is over has the lock, its last step has counted it, and before that it has changed nothing |
| AtomicRWLockCalls.WriteLockOutcome | base/atomic_rw_lock.h:92-106 | In every run a WriteLock that is over has announced itself once, taken the lock when it was free, and retracted, and changed nothing else |
| AtomicRWLockCalls.UnlockGivesBack | base/atomic_rw_lock.h:108-114 | ReadUnlock gives back one reader's count, WriteUnlock the whole lock |
| AtomicRWLockCalls.CasExact | base/atomic_rw_lock.h:55-96 | A compare-exchange takes the lock exactly if it finds what it expects and does not fail spuriously |
| AtomicRWLockProgress.ReadLockAlone | base/atomic_rw_lock.h:34-56 | From wherever it is in the call a reader has the lock within four steps of its own, while no writer holds it and, with write_first, none waits |
| AtomicRWLockProgress.WriteLockFromIdle | base/atomic_rw_lock.h:92-106 | The call and three steps take a free lock for writing |
| AtomicRWLockProgress.ReaderCanGetLock | base/atomic_rw_lock.h:34-56 | From every reachable state some continuation gives a given reader the lock |
| AtomicRWLockProperties.UnboundedWithoutWriteFirst | base/atomic_rw_lock.h:39-43 | Without write_first a waiting writer can be overtaken any number of times |
| AtomicRWLockProperties.WaitingWriterCanGetLock | base/atomic_rw_lock.h:92-114 | From every reachable state some continuation gives a waiting writer the lock |
| Numbers.ByteOrdersPortable | serialize/data_stream.cpp:159-223 | A number in range written by a machine of either byte order is read back by a machine of either byte order |
| Numbers.WireIsLittleEndian | serialize/data_stream.cpp:162-167 | On the wire the i-th byte of a number is n / 256^i modulo 256, of a negative number in two's complement, whatever machine wrote it |
| Numbers.MemoryAt | serialize/data_stream.cpp:62-71 | A little-endian machine holds the least significant byte first, a big-endian one the most significant |
| Numbers.KindsOfNumbers | serialize/data_stream.h:24-24 | Tags, sizes and ranges of the kinds of number |
| WireLayout.NumLayout | serialize/data_stream.cpp:153-223 | A number: its tag and its bytes, least significant first |
| WireLayout.TextLayout | serialize/data_stream.cpp:233-239 | A string: tag 9, tag 2, its length in four bytes, and its bytes |
| WireLayout.ContainerLayout | serialize/data_stream.h:155-195 | A vector, list, map or set: tag 10, 11, 12 or 13, tag 2, the number of elements in four bytes, and the elements in a row to the end |
| WireLayout.EntryLayout | serialize/data_stream.h:175-184 | An entry of a map: its key, then its value |
| WireLayout.RecordLayout | serialize/serializable.h:17-21 | A record: tag 14, and its fields in a row to the end |
| Codec.RoundTrip | serialize/data_stream.h:155-286 | Reading inverts writing at any position of any buffer, for every nested type, any portable pair of machines and any containers, and advances by the encoded length |
| Ordered.ReadingInvertsWriting | serialize/data_stream.h:155-286 | The same for sets and maps sorted each by the ordering of its own element or key type, whatever these orderings are, and for every pairing of byte orders |
| Ordered.RebuiltIffSorted | serialize/data_stream.h:248-281 | The sets and maps that survive being inserted element by element are exactly the sorted ones |
| Ordered.InsertExact | serialize/data_stream.h:248-281 | An insertion puts a new key in its place and loses nothing; at an equivalent key a set stays as it is, and a map keeps the key and replaces the value |
| Codec.WrongTypeIsRejected | serialize/data_stream.h:24-24 | What was written at one type is not read at another kind of number, container or record: the tags tell them apart |
| Codec.PrefixFree | serialize/data_stream.h:155-286 | At a fixed type no encoding is a proper prefix of another, and different values have different encodings |
| Codec.SequenceRoundTrip | serialize/data_stream.h:196-199 | Any sequence of writes reads back in order |
| Codec.RecordRoundTrip | serialize/serializable.h:16-31 | A record written field by field reads back field by field |
| DataStreamClass.DataStream.Reserve | serialize/data_stream.cpp:124-138 | The capacity becomes the first of its doublings that suffices |
| DataStreamClass.Grown | serialize/data_stream.cpp:124-138 | That capacity suffices, never shrinks, and is less than twice what is needed when it grows |
| DataStreamClass.DataStream.WriteRaw | serialize/data_stream.cpp:140-145 | Appends the bytes |
| DataStreamClass.DataStream.WriteNum | serialize/data_stream.cpp:159-223 | Appends the encoding of the number, reversing the bytes on a big-endian machine |
| DataStreamClass.DataStream.Write | serialize/data_stream.h:155-199 | Appends exactly the encoding of the value, by the loops of the original |
| DataStreamClass.DataStream.WriteText | serialize/data_stream.cpp:233-239 | Appends tag, length and bytes of a string |
| DataStreamClass.DataStream.WriteRecord | serialize/serializable.h:17-21 | Appends the tag of a record and its fields in order |
| DataStreamClass.DataStream.ReadNum | serialize/data_stream.cpp:276-364 | Reads the number and moves past it, or answers false and stays at a tag that does not match |
| DataStreamClass.DataStream.Read | serialize/data_stream.h:216-286 | Agrees with the wire format wherever that is defined, with sets and maps sorted by the ordering of their own element or key type: value and position; at another tag it answers false |
| DataStreamClass.DataStream.ReadText | serialize/data_stream.cpp:366-379 | Reads a string wherever the wire format has one, and answers false at another tag |
| DataStreamClass.DataStream.ReadRecord | serialize/serializable.h:23-31 | Reads the fields in order, or answers false one byte after a tag that is not that of a record |
| DataStreamClass.DataStream.ReadElems | serialize/data_stream.h:224-280 | The element loop rebuilds the vector, list, set or map that was written, a set or map in its own type's order |
| EndToEnd.ReaderParsesSentValue | transport/dispatcher/shm_dispatcher.h:55-70 | Under any interleaving a reader parses exactly the value of one single completed Transmit, the notified one or a later one to that block, and uses the payload up; each set or map type has its own ordering |
| EndToEnd.InitOnlySent | transport/shm/segment/xsi_segment.cpp:68-96 | A segment starts with the invariant and with nothing sent, as RunOnlySent and ReaderParsesSentValue ask of the state a run starts from |
| EndToEnd.RunOnlySent | transport/transmitter/shm_transmitter.h:71-109 | In every run only messages given to Transmit are carried or released |
| UnboundedQueueProtocol.StepKeepsInv | base/unbounded_queue.h:31-61 | Every step keeps links along the tail order, gaps with their owners, received elements those of their tickets, and the size in step with the counts |
| UnboundedQueueProperties.StepRefinesFifo | base/unbounded_queue.h:31-61 | Winning the tail CAS appends the winner's element, winning the head CAS removes the first element, from whose node the winner copies; nothing else changes the queue |
| UnboundedQueueProperties.FirstInFirstOut | base/unbounded_queue.h:31-61 | In every run the k-th successful head CAS delivers the element of the k-th successful tail CAS |
| UnboundedQueueCalls.EnqueueOutcome | base/unbounded_queue.h:31-44 | In every run an Enqueue that has returned has won the tail CAS once, with a node that carries its element, has linked that node and counted it, and done nothing else to the queue |
| UnboundedQueueCalls.DequeueOutcome | base/unbounded_queue.h:47-61 | In every run a Dequeue that has returned an element has won the head CAS once and returns what was first in the queue then; one that has returned none has won none, and its last step found the link out of the current head missing |
| UnboundedQueueProperties.ConsumerReturnsItsElement | base/unbounded_queue.h:55-60 | The element copied after the head CAS is the one enqueued under the winner's ticket, and it is what Dequeue returns |
| UnboundedQueueProperties.LinksFollowOrder | base/unbounded_queue.h:37-39 | Links from the head visit the nodes in tail order, never twice, and stop at the first missing link: a gap only hides what comes after it |
| UnboundedQueueProperties.GapHasOneOwner | base/unbounded_queue.h:37-38 | A link is missing exactly if the one enqueuer that won the tail CAS there has yet to write it |
| UnboundedQueueProperties.SizeIsDifference | base/unbounded_queue.h:40-65 | size_ is increments less decrements; it is the length of the queue exactly if as many producers as consumers have yet to count |
| UnboundedQueueProperties.SizeCanBeNegative | base/unbounded_queue.h:63-69 | There is a run after which size_ is -1 |
| UnboundedQueueProperties.EmptyAnswer | base/unbounded_queue.h:47-55 | Dequeue answers false exactly if its head is current and the link out of it missing, that is if the queue is empty or its first element not linked yet |
| UnboundedQueueProperties.EmptyAnswerCanBeWrong | base/unbounded_queue.h:51-54 | There is a run in which Dequeue answers false after an Enqueue has returned and before anything was taken |
| UnboundedQueueProgress.CallReturnsAlone | base/unbounded_queue.h:31-61 | From every reachable state, however stale what it has read and wherever others have stopped, a call left alone returns within six steps |
| UnboundedQueueProgress.EnqueueAlone | base/unbounded_queue.h:31-44 | Undisturbed, Enqueue appends its element, links it to the one before and counts it, and changes nothing for the others |
| UnboundedQueueProgress.DequeueAlone | base/unbounded_queue.h:47-61 | Undisturbed, Dequeue takes the first element, or answers false exactly if the link to it is missing; if no Enqueue has stopped before linking, exactly if the queue is empty |
| UnboundedQueueProperties.FailedHeadCasMeansProgress | base/unbounded_queue.h:55-55 | A head CAS fails exactly if another thread has dequeued since this one read the head |
| ObjectPoolModel.EveryRunKeepsWhole | base/object_pool.h:94-113 | After any sequence of requests free and handed-out nodes are disjoint, without repetition, together the arena, and there is nothing to give exactly if all are handed out |
| ObjectPoolModel.FreePlusOutstanding | base/object_pool.h:45-47 | Free plus outstanding equals num_objects |
| ObjectPoolModel.OutstandingIffKept | base/object_pool.h:94-113 | After any requests a node is handed out exactly if its last hand-out has not been followed by its release |
| ObjectPoolModel.LinksVisitFreeList | base/object_pool.h:99-111 | Following the links from free_head meets exactly the free nodes and ends: no cycle |
| ObjectPoolModel.ObjectPool.constructor | base/object_pool.h:51-64 | Chains all nodes of the arena, the last one first |
| ObjectPoolModel.ObjectPool.GetObject | base/object_pool.h:104-113 | Hands out the first free node, which was not handed out, or null exactly if all are |
| ObjectPoolModel.ObjectPool.ReleaseObject | base/object_pool.h:94-101 | Takes the node out of those handed out and puts it first in the free list, to be handed out next; null is ignored |

## Left out

- Weak memory ordering: every step is atomic and sequentially consistent, whatever ordering the code asks for.
- 64-bit wrap-around of tickets, sequence numbers and counters, and 32-bit overflow of the lock counters: they are unbounded, except for the 32-bit allocation counter of a segment and the 64-bit ids of registration, which wrap.
- Reclamation: the deleted value of a replaced entry, the reference counts of the linked queue, `Clear` and destructors; nodes are never reused.
- Word-wise copies: an element of the ring and a notifier info are copied word by word, a message byte by byte; element types whose assignment runs other code are not modelled.
- Wait strategies, `WaitEnqueue` and `WaitDequeue`, time limits and yields: scheduling only; `Listen` polls as often as its time allows.
- Remapping, re-creating and destroying segments, and messages above 32 MiB: claims are for one mapping, and larger payloads cannot be sent in it.
- The path of `ReadMessage` that goes on after a failed acquire: a reader that fails stops there. The index a reader passes is that of a notification.
- SegmentModel.Segment.GetNextWritableBlockIndex: describes the search with nobody else at work and without spurious failures (with both, see `TransportSearch`), and requires that some block is free, because with none the original searches for ever.
- GlobalDataModel.ProbeFor: requires that the table does not hold all 2^64 ids, because then the original probes for ever; one registration at a time (several, see `RegistrationProtocol`).
- DataStreamClass.DataStream.Read: nested reads that fail on malformed buffers are followed as far as the ignored answers go, with an arbitrary default in place of an uninitialised value; a number, bool or string that would reach beyond the end of the buffer answers false, where the original is undefined.
- Lengths of 2^31 and more in the codec, and overflow of the int position: a length is written as a 32-bit integer, and the claims are for lengths below 2^31.
- The meaning of floating-point bits, enum helpers, the C-string overload, stream operators, `show`, `save` and `load`.
- The overloads that take an rvalue or only a key, which repeat the loops modelled.
- The second constructor of the object pool with its initializer, and the objects in the nodes.
- The bookkeeping of previous block indexes in the dispatcher, listeners, participants, multicast, signals and the RTPS transport: not part of this model.
- System calls, files, environment and logging: not part of this model.
