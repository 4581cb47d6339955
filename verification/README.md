# The receive path, verified

A Dafny model of the kernel code this repository analyses: the path of a received packet through
WireGuard's queues, the workqueue that decrypts it, NAPI and GRO, together with the tables and
limiters on the way (allowed IPs, replay window, handshake and key slots, rate limiter) and the
hashed queues of io-wq. `dafny verify dfyconfig.toml` checks everything.

Code that changes state in place is modelled by classes and methods with loops (`FlushWorkqueue`,
`PrevQueue`, `AllowedIps`, `NodeCounts`, `WorkPools`, the queue of `IoWqList`, the counter of
`ReplayWindow`, `NoisePeer`, the slots of `Keypairs`, `RateTable`, `GroNode`), each proved against a
specification function or a step of a protocol. Code whose difficulty is the interleaving is a state
machine whose steps are single atomic accesses or lock-protected sections; theorems about it
quantify over all runs (`IsRun`), that is over every interleaving of any number of threads.

| part | files | main results |
|---|---|---|
| Workqueue flush | `FlushProtocol`, `FlushSafety`, `FlushProgress`, `FlushTwoColors`, `FlushWorkqueue` | a completed flush waited for everything queued before it; no flush that has started is forgotten, and it completes; no warning fires; exactly when the cascade's list cursor goes stale; the cascade ends |
| Receive queue and NAPI | `RxPipeline`, `RxSafety`, `RxGuard`, `RxVerdict`, `RxProgress`, `PrevQueue` | the lock-free stub queue is a FIFO; no packet is stranded with or without the guard; exactly when the head's worker wakes the poll; handed on exactly if decrypted and accepted; every reference is put once; every schedule ends |
| Allowed IPs | `AddressBits`, `TrieShape`, `TrieLookup`, `TrieUpdate`, `TrieWalk`, `AllowedIps` | the bit trie is longest-prefix match on a map under insertion, removal and removal by peer; the fixed traversal stack suffices, tightly |
| Active counts per node | `NodeActive`, `NodeActiveSafety`, `NodeItems`, `NodeProgress`, `NodeCounts` | counts are conserved through the lock-free hand-over; no idle capacity; exactly when a stall is possible; items are neither lost nor overtaken; no deadlock, every schedule ends |
| Work items | `WorkExecution`, `WorkReentrancy`, `WorkOrder`, `WorkBarriers`, `WorkProgress`, `WorkPools` | no item runs on two workers, through requeueing, cancelling and barriers; items are handed out in order; a barrier runs after its item; what is queued can run |
| Hashed io-wq items | `IoWqList`, `IoWqHash`, `IoWqSafety`, `IoWqItems`, `IoWqProgress`, `IoWqBreak`, `IoWqMistake` | items of one hash never run together and begin in order; none is lost or left lying; exactly which cancels end that |
| Replay window | `ReplayWindow` | the bitmap ring is the set of accepted counters cut to the window |
| Handshake and keys | `NoiseHandshake`, `NoiseBinding`, `NoisePeer`, `NoiseReplay`, `Keypairs` | both sides agree on swapped keys, also when an answer is taken late; a message is understood exactly if all secrets agree, the preshared key included; exactly when an initiation is consumed twice; exactly when a keypair leaves its slot |
| Rate limiter | `TokenBucket`, `TokenSource`, `TokenHistory`, `RateTable` | the rate bound on every stretch of every history; exactly which events can break it; without them, the answers of one bucket |
| GRO | `GroEngine`, `GroSafety`, `GroMerge`, `GroOrder`, `GroNode` | aggregates cut back into the datagrams merged; exactly when an aggregate ends; nothing lost; exactly when a flow goes up in order |

`Maybe`, `Sums` and `Paths` are shared by these.

## Where the code falls short of a property

Each of these but the last, which is a slip of spelling, has a concrete run or input and an exact condition.

- The flush cascade takes the next flusher from the cursor of its completion loop
  (workqueue.c:4148-4191). When that loop runs to the end of the queue and the overflow is spliced in
  behind it, the cursor is the list head. `StraysIffTwoColors`: this happens in some run exactly if
  there are two colours. The number of colours, WORK_NR_COLORS, comes from a header that is not part of
  this model, so every number from two up is covered.
- README.md:37-39 says that the worker that finishes the head of the queue wakes the poll.
  `HeadFinisherMaySkip`: it may not, because the guard reads `tail`, which is already behind the
  packet the poll has peeked. `HeadWakesIff` says exactly when it does. README.md:48 calls
  the read safe; the packet it reads may have been disposed of, and the model lets such a read return
  anything. README.md:50, that no packet is stranded, is nevertheless true (`NoStrandedPacket`); behind a
  skipped wake it is not the MISSED bit but another queued packet whose wake is still to come (`SkipKeepsHope`).
- While `max_active` is zero, an item queued and cancelled leaves its pwq on the pending list, and after
  thawing a new item of that pwq waits behind nothing until some other item retires.
  `NoStallIff`: runs are free of this exactly if the limit never falls below one.
- Cancelling the tail of hash 0 compares hash values only, and an item without a hash has value 0.
  `RemoveKeepsIff` gives the exact condition for the list. `CancelBreaksIff`: from every state, items of one
  hash can come to run together after a cancel exactly if it meets that condition. A bit can also be cleared
  while it is held, and an item lost (`IoWqMistake`, with the pointers of the list).
- Consuming an initiation checks the timestamp under one lock and takes the initiation under another
  (noise.c:632-656); the second comparison there decides only whether the timestamp is stored. Two
  workers with the same initiation can both consume it. `ReplayIffTwoWorkers` gives the exact condition for
  a device, and `NoReplay` says what serialised runs keep; `ReplayIff` only places the earlier consumption.
- The rate limiter's collector reads the clock once; an entry used after that has an age that wraps
  around and is dropped at once. Two first packets of one source that overlap leave two entries, and an
  entry is stamped before it is linked. A packet finds its entry without a lock and updates it under the
  entry's own, when the entry may have been dropped or displaced (`HeldBeatsLimit`, `OverlapBeatsLimit`).
  `BreaksIff`: an entry linked before one that is not full or later than it was stamped, a newest entry dropped
  not full for a collector that set out before its last use, and a packet let through by an entry that is not
  the newest any more are exactly the events after which a source can exceed its limit.
  `DropInvisibleIff` says which drops are visible at all.
- A datagram without a checksum or with a wrong length goes up before what is held of its flow
  (`NoChecksumOvertakes`). `OrderIff`: apart from this, and from packets for which offload is off, every flow
  goes up in order.
- receive.c:499 calls `ptr_ring_onsume_bh`; the model reads it as `ptr_ring_consume_bh`.

## Model

| member | source | states |
|---|---|---|
| `FlushSafety.FlushIsSound` | linux-source/kernel/workqueue.c:4059-4206 | In every run, once a flusher is completed, every item and barrier put on the workqueue before its flush was called has been retired. |
| `FlushSafety.NoWarning` | linux-source/kernel/workqueue.c:4086-4189 | No `WARN_ON_ONCE` of the flush code fires in any run, and with three or more colours the cascade never follows a stale cursor; with two colours a run ends at a stale cursor, before the last warning looks at it. |
| `FlushSafety.ColorRing` | linux-source/kernel/workqueue.c:4076-4116 | In every reachable state the colours with work in flight lie on one segment of the ring from `flush_color` to `work_color`, queued flushers are in ring order inside it, the overflow is used only when the ring is full, and a wake or a non-zero pwq count implies a first flusher. |
| `FlushSafety.RunInv` | linux-source/kernel/workqueue.c:3966-4206 | The flush invariant holds in every state of every interleaving: counts per pwq and colour equal the live items, armed pwqs are exactly those with work of the flush colour, `nr_pwqs_to_flush` counts them. |
| `FlushSafety.StepOk` | linux-source/kernel/workqueue.c:3966-4206 | Every single step (queueing, barrier, retirement, start, each pwq of the preparation loop, cascade) keeps that invariant. |
| `FlushSafety.RunsAreSized` | linux-source/kernel/workqueue.c:3966-4018 | The index conditions under which steps are defined hold in every reachable state. |
| `FlushSafety.NextColorIsModular` | linux-source/kernel/workqueue.c:780-783 | The conditional increment used in the protocol is the modular successor of the source. |
| `FlushSafety.SameColor` | linux-source/kernel/workqueue.c:4076-4083 | Two epochs less than a turn apart have the same colour exactly when they are equal, so colour comparisons decide epochs. |
| `FlushSafety.DistanceIsEpochs` | linux-source/kernel/workqueue.c:780-783 | The distance of two colours along the ring is the difference of the epochs they stand for. |
| `FlushSafety.QueueWorkOk` | linux-source/kernel/workqueue.c:2377-2400 | Queueing an item in the current colour of its pwq keeps the flush invariant, at any point of a flush. |
| `FlushSafety.InsertBarrierOk` | linux-source/kernel/workqueue.c:3882-3933 | A barrier that takes the colour of the item it is linked to keeps the flush invariant. |
| `FlushSafety.RetireOk` | linux-source/kernel/workqueue.c:2032-2060 | Retiring an item (run or cancelled) keeps the flush invariant, including the completion it may fire. |
| `FlushSafety.Drained` | linux-source/kernel/workqueue.c:2044-2057 | When no pwq is armed after the arming pass, no live item is as old as the flush colour. |
| `FlushSafety.CascadeCompleteOk` | linux-source/kernel/workqueue.c:4144-4176 | Completing all sharers of the finished colour and admitting the overflow keeps the invariant and never completes a flusher early. |
| `FlushSafety.CascadeAdvanceOk` | linux-source/kernel/workqueue.c:4178-4202 | Making the next flusher the first one and arming its colour keeps the invariant. |
| `FlushProgress.StartedIsAccounted` | linux-source/kernel/workqueue.c:4059-4206 | In every run a flusher that has started is done, first, on the queue or in the overflow. |
| `FlushProgress.RestMeansDone` | linux-source/kernel/workqueue.c:4059-4206 | Whenever the mutex is free and there is no first flusher, every flusher that has started is done. |
| `FlushProgress.WaitsForSomething` | linux-source/kernel/workqueue.c:2032-2060 | A flusher that has started and is not done waits, with the mutex free, for a completion that has fired or is about to, or for an item in flight of the flush colour on an armed pwq. |
| `FlushProgress.NotStuck` | linux-source/kernel/workqueue.c:4059-4206 | Short of rest some step that adds nothing is enabled, and the only item whose end is ever needed is an awaited one. |
| `FlushProgress.StepNearer` | linux-source/kernel/workqueue.c:4059-4206 | Every step that adds neither work nor flushes brings the workqueue nearer to rest, in a well-founded order. |
| `FlushProgress.FlushCompletes` | linux-source/kernel/workqueue.c:4059-4206 | With three colours and up, from every point of every run a flush that has started completes in some continuation with nothing added. |
| `FlushTwoColors.TwoColorsStray` | linux-source/kernel/workqueue.c:4148-4191 | A concrete run with two colours in which the cascade arms the list head instead of a flusher: the cursor left by the completion loop is stale once the overflow is spliced in. |
| `FlushTwoColors.StraysIffTwoColors` | linux-source/kernel/workqueue.c:4148-4191 | For every number of colours from two up: some run follows a stale cursor if and only if there are exactly two colours. |
| `FlushWorkqueue.Workqueue.QueueWorkOn` | linux-source/kernel/workqueue.c:2377-2400 | The in-place colour accounting of queueing is the QueueWork step of the protocol. |
| `FlushWorkqueue.Workqueue.InsertWqBarrier` | linux-source/kernel/workqueue.c:3882-3933 | The in-place barrier accounting is the InsertBarrier step. |
| `FlushWorkqueue.Workqueue.PwqDecNrInFlight` | linux-source/kernel/workqueue.c:2032-2060 | The in-place retirement, with its early returns, is the Retire step. |
| `FlushWorkqueue.Workqueue.StartFlushing` | linux-source/kernel/workqueue.c:4059-4116 | The three ways a flush starts (first, queued, overflowed) are the StartFlush step. |
| `FlushWorkqueue.Workqueue.PreparePwq` | linux-source/kernel/workqueue.c:3975-4010 | One iteration of the preparation loop is the PrepPwq step. |
| `FlushWorkqueue.Workqueue.ReturnFromPrep` | linux-source/kernel/workqueue.c:4012-4018 | Dropping the arming count and what the four callers do with the result is the EndPrep step. |
| `FlushWorkqueue.Workqueue.CompleteSharers` | linux-source/kernel/workqueue.c:4148-4153 | The completion loop takes exactly the leading flushers of the flush colour off the queue and its cursor stops at the new front. |
| `FlushWorkqueue.Workqueue.CompleteFinishedColor` | linux-source/kernel/workqueue.c:4144-4176 | The top of the cascade loop is the CascadeComplete step. |
| `FlushWorkqueue.Workqueue.AdvanceCascade` | linux-source/kernel/workqueue.c:4178-4202 | The bottom of the cascade loop is the CascadeAdvance step. |
| `FlushWorkqueue.Workqueue.FlushWorkqueuePrepPwqs` | linux-source/kernel/workqueue.c:3966-4018 | The whole preparation loop as the cascade calls it keeps the flush invariant, the queues and the colours, and hands back to the right place. |
| `FlushWorkqueue.Workqueue.Cascade` | linux-source/kernel/workqueue.c:4144-4202 | With more than two colours the cascade loop ends, keeps the flush invariant, gives the mutex back, and leaves nothing queued if it leaves no first flusher. |
| `RxSafety.QueueIsFifo` | linux-source/drivers/net/wireguard/queueing.c:66-106 | Under every interleaving of producers and the poll, what was dequeued followed by what is linked is exactly the order of the head exchanges; the stub is never returned and is linked at most once; the counter is the number of reserved and queued packets, at most 1024. |
| `RxSafety.OrderIsExchanges` | linux-source/drivers/net/wireguard/queueing.c:66-70 | The recorded order is the order of the exchange steps of the run. |
| `RxSafety.NextIsNext` | linux-source/drivers/net/wireguard/queueing.c:80-106 | A non-null link of the tail is always the next node in FIFO order. |
| `RxSafety.NullMeansGap` | linux-source/drivers/net/wireguard/queueing.c:80-106 | Dequeue gives up only if, during that very call, the list held no packet or a producer stood between its exchange and its link. |
| `RxSafety.NoStrandedPacket` | linux-source/drivers/net/wireguard/queueing.h:188-198 | With the unconditional wake and with the guarded one alike: while NAPI is idle and a packet is queued, some queued packet still has its wake to do. |
| `RxSafety.QuiescentMeansDone` | linux-source/drivers/net/wireguard/receive.c:438-507 | When all threads are finished and NAPI is idle, every queued packet was disposed of in exchange order, and every packet (queued or rejected) ended once with all its references put, the one that its own wake takes included. |
| `RxSafety.DisposalInOrder` | linux-source/drivers/net/wireguard/receive.c:438-491 | At every moment the disposed packets are a prefix of the exchange order, without repetition, none undecided, and no reference is put more often than taken. |
| `RxSafety.PeerOutlives` | linux-source/drivers/net/wireguard/queueing.h:188-198 | From the store of a packet's state to its wake, the packet's thread has a reference of the peer that is not put, even if the packet has been disposed of. |
| `RxVerdict.DisposedIff` | linux-source/drivers/net/wireguard/receive.c:438-491 | A packet that the poll has disposed of was handed on if and only if a step of the run decrypted it successfully and the poll accepts its counter and source, and was freed otherwise, in particular if its decryption failed or the ring was full. |
| `RxVerdict.QuiescentIff` | linux-source/drivers/net/wireguard/receive.c:438-507 | At rest the same holds of every packet that came to the queue. |
| `RxVerdict.HandedInOrder` | linux-source/drivers/net/wireguard/receive.c:438-491 | What is handed on is the accepted part of what is disposed of, in the order of the queue. |
| `RxVerdict.TurnedAwayIff` | linux-source/drivers/net/wireguard/receive.c:509-550 | In every run a packet is turned away if and only if its peer or keypair is unknown, its peer is dead, or 1024 packets are reserved or queued. |
| `RxVerdict.PollGoesOnUntil` | linux-source/drivers/net/wireguard/receive.c:438-491 | A poll ends only when its budget is used up or when it stops short, and it stops short only if the dequeue gave up with its reason in the list, or the packet peeked is undecided. |
| `RxProgress.StepNearer` | linux-source/drivers/net/wireguard/receive.c:438-550 | Once no packets arrive, every step of every thread and of the poll brings the receive path nearer to rest, in a well-founded order: no schedule goes on for ever. |
| `RxProgress.NotStuck` | linux-source/drivers/net/wireguard/receive.c:438-550 | Short of rest some packet's thread, or the poll, can take a step. |
| `RxProgress.EverythingIsDisposed` | linux-source/drivers/net/wireguard/receive.c:438-550 | Every run can go on, with no packet arriving, until every thread is through and exactly the packets that came to the queue have been disposed of, in order. |
| `RxSafety.RunInv` | linux-source/drivers/net/wireguard/queueing.c:53-106 | The invariant of list, poll, bookkeeping and drain holds in every state of every interleaving. |
| `RxSafety.SkipKeepsHope` | README.md:37-50 | A guarded wake that is skipped leaves another queued packet whose wake is still to come. |
| `RxGuard.HeadFinisherMaySkip` | README.md:37-50 | A reachable state in which the worker that finishes the head of the queue reads the tail behind it, finds it undecided and does not wake NAPI. |
| `RxGuard.HeadWakesIff` | README.md:37-46 | In every run, and with any steps of others in between its reading the tail and its deciding, the worker that finishes the head of the queue wakes an idle poll exactly if no packet was peeked when it read the tail, or the tail it read is the stub or decided by then; a tail disposed of in between may read as anything. |
| `RxGuard.UnpeekedHeadWakes` | README.md:37-46 | The worker of a head that was not peeked when it read the tail leaves the poll scheduled, however many steps of others come before it decides, unless its packet is gone by then. |
| `PrevQueue.Queue.constructor` | linux-source/drivers/net/wireguard/queueing.c:53-64 | A new queue is valid and empty. |
| `PrevQueue.Queue.Append` | linux-source/drivers/net/wireguard/queueing.c:66-70 | Linking a node behind the head appends it to the chain and changes no other link. |
| `PrevQueue.Queue.Enqueue` | linux-source/drivers/net/wireguard/queueing.c:72-78 | Refused exactly when 1024 packets are counted; otherwise the packet becomes the last of the contents. |
| `PrevQueue.Queue.Dequeue` | linux-source/drivers/net/wireguard/queueing.c:80-106 | Returns the oldest packet and leaves the rest, and returns null exactly when there is none, across all the stub cases. |
| `PrevQueue.Queue.Peek` | linux-source/drivers/net/wireguard/queueing.h:138-144 | Returns the oldest packet without removing it, null exactly on an empty queue. |
| `PrevQueue.Queue.DropPeeked` | linux-source/drivers/net/wireguard/queueing.h:147-150 | Removes exactly the peeked packet. |
| `PrevQueue.Queue.Poll` | linux-source/drivers/net/wireguard/receive.c:438-491 | Takes exactly the leading decided packets, in order, up to the budget, and completes NAPI exactly if the budget was positive and not used up. |
| `PrevQueue.ReadyIs` | linux-source/drivers/net/wireguard/receive.c:450-486 | The number of packets a poll takes is determined by where the first undecided packet, the end or the budget is met. |
| `PrevQueue.AllReady` | linux-source/drivers/net/wireguard/receive.c:450-486 | With all packets decided and budget to spare, one poll empties the queue. |
| `AddressBits.CommonBitsCounts` | linux-source/drivers/net/wireguard/allowedips.c:82-97 | For both address widths the find-last-set of the exclusive-or gives the length of the longest common bit prefix. |
| `AddressBits.CommonAtLeast` | linux-source/drivers/net/wireguard/allowedips.c:99-109 | Having at least k common bits is the same as having equal k-bit prefixes. |
| `AddressBits.ChooseReadsBit` | linux-source/drivers/net/wireguard/allowedips.c:23-39 | The byte index and shift prepared when a node is made make `choose` read bit number cidr of the key, first bit first, for both address widths. |
| `TrieLookup.PathAll` | linux-source/drivers/net/wireguard/allowedips.c:111-124 | Every node whose prefix matches a key lies on the walk for that key. |
| `TrieLookup.PrefixesDiffer` | linux-source/drivers/net/wireguard/allowedips.c:149-167 | No two nodes of a well-formed trie carry the same prefix. |
| `TrieLookup.AgreesOnce` | linux-source/drivers/net/wireguard/allowedips.c:181-250 | A trie stands for exactly one table of prefixes. |
| `TrieLookup.LongestMatchIs` | linux-source/drivers/net/wireguard/allowedips.c:127-147 | The reference search returns the entry of the longest matching prefix in the table. |
| `TrieLookup.FoundIsLongestMatch` | linux-source/drivers/net/wireguard/allowedips.c:111-124 | Walking down and remembering the last node with a peer is longest-prefix match on the table. |
| `TrieLookup.BlockedMeansAbsent` | linux-source/drivers/net/wireguard/allowedips.c:149-167 | Where the placement walk stops without an exact hit, no node anywhere carries the prefix. |
| `TrieUpdate.AddLeaf` | linux-source/drivers/net/wireguard/allowedips.c:189-222 | Hanging a new node into an empty slot keeps the trie well-formed. |
| `TrieUpdate.AddAbove` | linux-source/drivers/net/wireguard/allowedips.c:222-233 | Putting a new node above an existing longer prefix keeps the trie well-formed. |
| `TrieUpdate.AddSplit` | linux-source/drivers/net/wireguard/allowedips.c:234-249 | Joining two diverging prefixes under a node without a peer keeps the trie well-formed, each on the side its bit selects. |
| `TrieUpdate.SplitEntries` | linux-source/drivers/net/wireguard/allowedips.c:234-249 | The joining node adds no entry: the split trie carries the old prefixes and the new one only. |
| `TrieUpdate.ReplaceOk` | linux-source/drivers/net/wireguard/allowedips.c:199-203 | Giving an exact prefix another peer changes that one entry of the table. |
| `TrieUpdate.RemovedOk` | linux-source/drivers/net/wireguard/allowedips.c:252-281 | Removing a node, with its splice and the splice of a parent left without purpose, keeps the trie well-formed and takes exactly its prefix out of the table. |
| `TrieWalk.WalkRound` | linux-source/drivers/net/wireguard/allowedips.c:56-80 | One round of the stack traversal visits a node not visited before and keeps the stack within its 129 entries. |
| `TrieWalk.WalkFits` | linux-source/drivers/net/wireguard/allowedips.c:41-49 | In every trie, at every moment of the traversal, the stack has at most 129 entries. |
| `TrieWalk.WalkFillsStack` | linux-source/drivers/net/wireguard/allowedips.c:9 | The bound is tight: a well-formed trie exists whose traversal fills all 129 entries. |
| `TrieWalk.WalkEnds` | linux-source/drivers/net/wireguard/allowedips.c:56-80 | When the stack is empty every node of the trie has been visited. |
| `AllowedIps.Table.constructor` | linux-source/drivers/net/wireguard/allowedips.c:298-302 | A new table is valid and empty. |
| `AllowedIps.Table.FindNode` | linux-source/drivers/net/wireguard/allowedips.c:111-124 | The loop returns a node with the peer of the longest-prefix match, or none exactly when there is no match. |
| `AllowedIps.Table.Lookup` | linux-source/drivers/net/wireguard/allowedips.c:127-147 | The peer is the longest-prefix match on the table. |
| `AllowedIps.Table.NodePlacement` | linux-source/drivers/net/wireguard/allowedips.c:149-167 | Returns the node of exactly this prefix, or a place where the prefix may be added and nowhere carried. |
| `AllowedIps.Table.ConnectNode` | linux-source/drivers/net/wireguard/allowedips.c:169-173 | Writes the parent slot of the node and the pointer of the slot, and nothing else. |
| `AllowedIps.Table.ChooseAndConnectNode` | linux-source/drivers/net/wireguard/allowedips.c:175-179 | The same, on the side that the bit of the node at the length of the parent selects. |
| `AllowedIps.Table.Add` | linux-source/drivers/net/wireguard/allowedips.c:181-250 | Success puts exactly this prefix with this peer in the table and keeps trie and peer lists valid; invalid arguments and both allocation failures leave trie, table and lists as they were. A prefix that has a node needs no memory; any other needs the first allocation. |
| `AllowedIps.Table.RemoveNode` | linux-source/drivers/net/wireguard/allowedips.c:252-281 | Takes exactly this prefix out of the table and this node off its list of the peer, leaving a valid trie. |
| `AllowedIps.Table.Remove` | linux-source/drivers/net/wireguard/allowedips.c:283-296 | Takes the prefix out exactly if it is in the table with this peer; an oversized length is refused. |
| `AllowedIps.Table.RemoveByPeer` | linux-source/drivers/net/wireguard/allowedips.c:371-381 | Afterwards the table is the old one without exactly the prefixes of this peer. |
| `AllowedIps.Table.RemovePeerLists` | linux-source/drivers/net/wireguard/allowedips.c:69-80 | Unlists exactly the nodes of one trie, within the fixed stack. |
| `AllowedIps.Table.FreeTrie` | linux-source/drivers/net/wireguard/allowedips.c:56-67 | Frees exactly the nodes of one trie, each once, within the fixed stack. |
| `AllowedIps.Table.Free` | linux-source/drivers/net/wireguard/allowedips.c:304-325 | No node, no table entry and no list entry is left. |
| `NodeActiveSafety.CountsAgree` | linux-source/kernel/workqueue.c:1720-2014 | In every reachable state the shared count is the sum of the pwqs' counts and the counts in transit; at rest it is the sum. |
| `NodeActiveSafety.LocksExclude` | linux-source/kernel/workqueue.c:1893-1964 | No two operations hold the same pool lock, or the node lock, at once, through all the lock exchanges. |
| `NodeActiveSafety.NoIdleCapacity` | linux-source/kernel/workqueue.c:1741-2014 | If the limit never falls below a floor, then at every moment a pwq with a waiting item is on the pending list, and the counts in use with those about to be passed on reach the floor; at rest at least floor items are active. |
| `NodeActiveSafety.NoStall` | linux-source/kernel/workqueue.c:1741-2014 | With a floor of one, a waiting item always has something to wait for: an active item, or an operation that holds a count or has one to pass on. |
| `NodeActiveSafety.NeverAbove` | linux-source/kernel/workqueue.c:1720-1731 | However the limit moves below a ceiling, neither the shared count nor the sum of the pwqs' counts passes the ceiling. |
| `NodeActiveSafety.FreezingStalls` | linux-source/kernel/workqueue.c:5748-5801 | A concrete run: an item queued and cancelled while the limit is zero leaves its pwq pending, and after thawing a new item waits with nothing active. |
| `NodeActiveSafety.NoStallIff` | linux-source/kernel/workqueue.c:1741-2014 | Runs that keep the limit at or above a floor are free of stalls if and only if the floor is at least one. |
| `NodeActiveSafety.RunInv` | linux-source/kernel/workqueue.c:1720-2014 | The accounting invariant holds in every state of every run whose limit stays at or above a floor. |
| `NodeItems.NothingLost` | linux-source/kernel/workqueue.c:1741-1995 | In every run what was queued on a pwq and neither retired nor was cancelled is active, waiting, or in the hands of the thread that queues it. |
| `NodeItems.WaitInOrder` | linux-source/kernel/workqueue.c:1809-1835 | Between cancels, waiting items of a pwq become active from the front and new ones wait at the end. |
| `NodeItems.TurnComes` | linux-source/kernel/workqueue.c:1893-1955 | While a pwq is on the pending list and is not itself tried for, at most as many others are served as were ahead of it. |
| `NodeItems.FillServes` | linux-source/kernel/workqueue.c:1819-1835 | A fill alone on a node with a free count makes the first waiting item active and changes nothing else. |
| `NodeProgress.StepNearer` | linux-source/kernel/workqueue.c:1741-1995 | Every step of an operation under way, and every retirement, brings the node nearer to rest in a well-founded order, whatever the schedule: the lock dance and the retries end. |
| `NodeProgress.NoDeadlock` | linux-source/kernel/workqueue.c:1893-1955 | Of the operations under way at least one is not blocked by a lock. |
| `NodeProgress.WaitingCanRun` | linux-source/kernel/workqueue.c:1741-1995 | With a limit of at least one, from every point of every run all that waits becomes active and ends in some continuation with nothing added. |
| `NodeCounts.Node.TryInc` | linux-source/kernel/workqueue.c:1741-1806 | A count is obtained exactly if the limit allows it and the pwq does not jump the line; otherwise the pwq ends on the pending list, once. |
| `NodeCounts.Node.QueueWork` | linux-source/kernel/workqueue.c:2383-2398 | A new item runs at once exactly if nothing of its pwq waits, a count is free and the pwq is not pending; otherwise it waits last. |
| `NodeCounts.Node.ActivateFirstInactive` | linux-source/kernel/workqueue.c:1819-1831 | The first waiting item is activated exactly if there is one and a count is free. |
| `NodeCounts.Node.NodeActivatePending` | linux-source/kernel/workqueue.c:1893-1964 | The count goes to the first pending pwq that has an item waiting; the pwqs before it leave the list, and it goes to the back or leaves as well. |
| `NodeCounts.Node.DecNrActive` | linux-source/kernel/workqueue.c:1973-2014 | The retired count is passed on to the first pwq really waiting if the limit allows it, so the number of active items drops only if nothing waits or the limit was lowered. |
| `NodeCounts.Node.FillOne` | linux-source/kernel/workqueue.c:5788-5798 | One pwq of a round gives up its first item only, which is counted, and gives none only if the limit is reached or it has none waiting. |
| `NodeCounts.Node.FillRound` | linux-source/kernel/workqueue.c:5782-5799 | One round takes items from the front of the waiting lists only, counts each, and takes none only if the limit is reached or nothing waits. |
| `NodeCounts.Node.AdjustMaxActive` | linux-source/kernel/workqueue.c:5748-5801 | After a change to a non-zero limit the limit is reached or nothing waits; items left their lists from the front and were counted, never above the limit. |
| `WorkReentrancy.NeverReentered` | linux-source/kernel/workqueue.c:3212-3372 | In every reachable state no two workers have the same current work item. |
| `WorkReentrancy.QueuedBehindItself` | linux-source/kernel/workqueue.c:2328-2354 | An item queued again while it runs is on the pool it runs on, and if assigned, on the list of the worker that runs it. |
| `WorkReentrancy.QueuedOnce` | linux-source/kernel/workqueue.c:2220-2232 | An item is on at most one list, at most once, exactly while its data names a queue, and it is pending then. |
| `WorkReentrancy.RunInv` | linux-source/kernel/workqueue.c:1127-1235 | The invariant of lists, links, barriers, pending bits and running items holds in every state of every interleaving. |
| `WorkReentrancy.QueueOk` | linux-source/kernel/workqueue.c:2275-2403 | Queueing through the last pool keeps the invariant. |
| `WorkReentrancy.AssignOk` | linux-source/kernel/workqueue.c:1201-1235 | Assigning a series, or handing it to the worker already running its item, keeps the invariant. |
| `WorkReentrancy.GrabOk` | linux-source/kernel/workqueue.c:2090-2177 | Cancelling a pending item keeps the invariant. |
| `WorkReentrancy.BarrierOk` | linux-source/kernel/workqueue.c:3882-3933 | Linking a barrier behind an item, queued or running, keeps the invariant. |
| `WorkReentrancy.StartOk` | linux-source/kernel/workqueue.c:3212-3280 | Starting an item keeps the invariant: no other worker runs it. |
| `WorkOrder.StaysAhead` | linux-source/kernel/workqueue.c:1161-1235 | In every run an item that is ahead of another on a list stays ahead as long as both are there. |
| `WorkOrder.LeaveInOrder` | linux-source/kernel/workqueue.c:2220-2235 | If an item is queued on a pool while another is on its list, and a worker takes the later one from the front, the earlier one has gone before or goes with it, ahead of it. |
| `WorkOrder.QueuedWhere` | linux-source/kernel/workqueue.c:2275-2400 | An item goes to the pool it is queued for, at once or after another look, and to the pool whose worker runs it if it is running. |
| `WorkOrder.QueuedAsAimed` | linux-source/kernel/workqueue.c:2275-2400 | After that look the item is not running and goes to the pool it is meant for. |
| `WorkBarriers.BarrierWaits` | linux-source/kernel/workqueue.c:3882-3933 | In every run a barrier put behind a queued item starts only after the item was started and its worker finished, or after it was cancelled. |
| `WorkBarriers.BarrierRunningWaits` | linux-source/kernel/workqueue.c:3882-3933 | A barrier put behind a running item starts on the same worker, after that has finished. |
| `WorkProgress.WorkerNearer` | linux-source/kernel/workqueue.c:3212-3395 | Every step of a worker brings the pools nearer to having nothing to do, in a well-founded order. |
| `WorkProgress.NotStuck` | linux-source/kernel/workqueue.c:3423-3515 | Short of that some worker can take, start or finish an item, or an inactive one can be activated, if every pool with items has a worker. |
| `WorkProgress.QueuedCanRun` | linux-source/kernel/workqueue.c:3212-3395 | From every point of every run that queues to pools with workers, the workers alone can run every item and barrier that is on a list. |
| `WorkProgress.RetryAimsAnew` | linux-source/kernel/workqueue.c:2314-2375 | An owner that found its pool gone can aim at any pool next, and its item is then on a list or aimed at that pool. |
| `WorkPools.Pools.FindWorkerExecutingWork` | linux-source/kernel/workqueue.c:1127-1139 | The search returns the first worker of the pool that runs the item, or none exactly when there is none. |
| `WorkPools.Pools.MoveLinkedWorks` | linux-source/kernel/workqueue.c:1161-1183 | Moving one item at a time moves exactly the item and the barriers linked behind it, in order, to the end of the other list. |
| `WorkPools.Pools.AssignWork` | linux-source/kernel/workqueue.c:1201-1235 | Refines the Assign step; the caller is refused only if a worker of the same pool runs that item. |
| `WorkPools.Pools.QueueWork` | linux-source/kernel/workqueue.c:2275-2403 | Refines the Queue and QueueOn steps; the item lands on the given pool, or on another pool only because a worker there runs it. |
| `WorkPools.Pools.ClaimAndDequeue` | linux-source/kernel/workqueue.c:3237-3280 | Refines the Start step; no other worker runs the item it starts. |
| `IoWqList.InsertOk` | linux-source/io_uring/io-wq.c:999-1018 | Inserting behind the tail of its hash adds exactly this item and keeps every hash in one run that ends at its tail. |
| `IoWqList.RunToTail` | linux-source/io_uring/io-wq.c:999-1018 | From any hashed item on, everything up to the tail of its hash has that hash. |
| `IoWqList.Contiguous` | linux-source/io_uring/io-wq.c:999-1018 | Everything between two items of one hash has that hash. |
| `IoWqList.PassRun` | linux-source/io_uring/io-wq.c:524-580 | Jumping over the run of a busy hash skips no item that could be taken. |
| `IoWqList.CutOk` | linux-source/io_uring/io-wq.c:551-565 | Cutting a run out leaves nothing of its hash and keeps the other runs. |
| `IoWqList.RemoveKeepsIff` | linux-source/io_uring/io-wq.c:1116-1133 | Cancelling an item keeps the list and tail invariant if and only if the item is not the tail of hash 0 behind an item without a hash. |
| `IoWqMistake.CancelMistaken` | linux-source/io_uring/io-wq.c:1116-1133 | A run with next pointers in which cancelling an item of hash 0 leaves an item without a hash as the tail of hash 0. |
| `IoWqMistake.RunsWithoutBit` | linux-source/io_uring/io-wq.c:598-680 | After that, a worker goes on from the item without a hash to an item of hash 0 whose bit was never set. |
| `IoWqMistake.TogetherAfterMistake` | linux-source/io_uring/io-wq.c:598-680 | After that, two workers run items of hash 0 at the same time. |
| `IoWqMistake.BitLostAfterMistake` | linux-source/io_uring/io-wq.c:647-672 | After that, the bit of hash 0 is cleared while another worker runs an item of hash 0. |
| `IoWqMistake.LostAfterMistake` | linux-source/io_uring/io-wq.c:999-1018 | If the worker has looked before the next item is linked, that item is on no list and with no worker. |
| `IoWqList.Queue.InsertWork` | linux-source/io_uring/io-wq.c:999-1018 | Refines the insertion on values and keeps the runs. |
| `IoWqList.Queue.Scan` | linux-source/io_uring/io-wq.c:524-580 | The loop that skips whole runs stops exactly where a scan testing every item would stop, at the start of a run. |
| `IoWqList.Queue.GetNextWork` | linux-source/io_uring/io-wq.c:524-580 | Takes the first runnable item with its whole run and sets its bit, or takes nothing exactly when nothing is runnable. |
| `IoWqList.Queue.RemovePending` | linux-source/io_uring/io-wq.c:1116-1133 | Removes exactly this item; the invariant survives exactly outside the mistaken case. |
| `IoWqSafety.NeverTogether` | linux-source/io_uring/io-wq.c:598-680 | In every run without a mistaken cancel, no two workers of any io-wqs sharing the map run items of one hash at the same time. |
| `IoWqSafety.BitIsHeld` | linux-source/io_uring/io-wq.c:598-680 | In such a run a hash bit is set exactly while one worker holds that chain. |
| `IoWqSafety.BegunInOrder` | linux-source/io_uring/io-wq.c:524-680 | In such a run the items of a hash begin in the order in which they were enqueued on their io-wq. |
| `IoWqSafety.RunInv` | linux-source/io_uring/io-wq.c:524-680 | The invariant of lists, tails, bits, chains and orders holds in every state of such a run. |
| `IoWqItems.NothingLost` | linux-source/io_uring/io-wq.c:598-680 | In every careful run an item that was enqueued, or linked behind one that ran, and was not cancelled since, is on a list, in a worker's hands or begun. |
| `IoWqProgress.NotStuck` | linux-source/io_uring/io-wq.c:524-680 | Short of rest some worker can take, finish or clear: no item waits for a hash bit that nobody will clear. |
| `IoWqProgress.GivenCanBegin` | linux-source/io_uring/io-wq.c:598-680 | In every careful run an item given and not cancelled since has begun, or the workers alone can bring it to begin, if every io-wq with waiting items has a worker. |
| `IoWqBreak.CancelBreaksIff` | linux-source/io_uring/io-wq.c:1116-1133 | After any careful run, for an io-wq with a worker that shares the map with another that has one: some continuation without further cancels runs two items of one hash side by side if and only if the cancel takes an item without a hash for the one before the tail of hash 0. |
| `IoWqBreak.WrongTailBreaks` | linux-source/io_uring/io-wq.c:598-680 | From every state in which an item without a hash is the tail of hash 0, whatever the workers are doing, two items of hash 0 come to run side by side. |
| `IoWqBreak.FreeAll` | linux-source/io_uring/io-wq.c:638-680 | From any sound state the workers can finish all they have without touching a list. |
| `ReplayWindow.WindowIsSet` | linux-source/drivers/net/wireguard/receive.c:295-331 | After any sequence of counters the next one is accepted if and only if it is below the limit, was not accepted before, and is not more than the window size behind the highest accepted one. |
| `ReplayWindow.NeverTwice` | linux-source/drivers/net/wireguard/receive.c:295-331 | An accepted counter is refused ever after. |
| `ReplayWindow.ValidateIs` | linux-source/drivers/net/wireguard/receive.c:295-331 | One call on a window that stands for a set of counters accepts exactly what the set admits and then stands for the extended set. |
| `ReplayWindow.AfterStandsFor` | linux-source/drivers/net/wireguard/receive.c:295-331 | The bitmap after any sequence stands for exactly the set of accepted counters. |
| `ReplayWindow.NoWrap` | linux-source/drivers/net/wireguard/messages.h:34-42 | No sum formed by the code exceeds 64 bits. |
| `ReplayWindow.ReplayCounter.ClearWords` | linux-source/drivers/net/wireguard/receive.c:309-313 | The clearing loop empties exactly the words the window moves over. |
| `ReplayWindow.ReplayCounter.CounterValidate` | linux-source/drivers/net/wireguard/receive.c:295-331 | The in-place code computes the validation function on counter and bitmap. |
| `NoiseHandshake.Agreement` | linux-source/drivers/net/wireguard/noise.c:516-861 | Whenever both sides manage to build their messages, both messages are understood, hash and chaining key agree, and each side sends with the key and to the index the other receives with. |
| `NoiseHandshake.InitiationUnderstood` | linux-source/drivers/net/wireguard/noise.c:516-665 | The responder recovers the identity and timestamp of the initiator and ends with the same hash and chaining key. |
| `NoiseHandshake.ResponseUnderstood` | linux-source/drivers/net/wireguard/noise.c:667-814 | The initiator accepts a response to its initiation and ends with the same hash and chaining key. |
| `NoiseBinding.InitiationIs` | linux-source/drivers/net/wireguard/noise.c:516-577 | An initiation can be built exactly if all it mixes in is there; its ciphertexts, keys and hash are those of the chain of key derivations and the transcript. |
| `NoiseBinding.ResponseIs` | linux-source/drivers/net/wireguard/noise.c:667-725 | The same of a response, with the preshared key as the last input of the chain. |
| `NoiseBinding.ResponseUnderstoodIff` | linux-source/drivers/net/wireguard/noise.c:727-818 | With primitives that do not collide, a response is consumed if and only if the receiver waits for one, has the same symmetric state, comes to the same two shared secrets and has the same preshared key. |
| `NoiseBinding.PskMustAgree` | linux-source/drivers/net/wireguard/noise.c:442-452 | Two sides that know each other otherwise: the response is consumed if and only if their preshared keys are equal. |
| `NoiseBinding.InitiationUnderstoodIff` | linux-source/drivers/net/wireguard/noise.c:583-665 | An initiation is understood if and only if by the responder it is meant for, with the same two shared secrets. |
| `NoiseBinding.KeysOfExchange` | linux-source/drivers/net/wireguard/noise.c:820-861 | The keys of a session are the first two outputs derived from the chain of ephemerals, the four shared secrets and the preshared key. |
| `NoiseBinding.SessionIs` | linux-source/drivers/net/wireguard/noise.c:820-861 | A session begins exactly if a response was created or consumed, a keypair was created and the peer is not dead; the initiator sends with the first of those keys and receives with the second, the responder the other way round. |
| `NoiseBinding.SameKeySameSecrets` | linux-source/drivers/net/wireguard/noise.c:820-861 | Equal session keys of two exchanges mean equal ephemerals, shared secrets and preshared keys. |
| `NoiseBinding.SessionOnce` | linux-source/drivers/net/wireguard/noise.c:820-861 | After its session has begun a handshake holds no key, and gives neither another session nor a response; what is configured stays. |
| `NoiseReplay.ReplayIff` | linux-source/drivers/net/wireguard/noise.c:632-656 | In every run of any number of workers, an initiation that is consumed was consumed before if and only if one of those that consumed it did so between the check and the commit of this one. One direction is immediate; NoReplay and ReplayIffTwoWorkers carry the weight. |
| `NoiseReplay.NoReplay` | linux-source/drivers/net/wireguard/noise.c:583-665 | In every run in which no commit for a peer falls between the check and the commit of another initiation of that peer, no initiation is ever consumed twice, whatever else writes the handshakes in between. |
| `NoiseReplay.TwoWorkersReplay` | linux-source/drivers/net/wireguard/noise.c:632-656 | Any initiation that would be accepted is consumed twice in a run of two workers that both check it before either commits. |
| `NoiseReplay.ReplayIffTwoWorkers` | linux-source/drivers/net/wireguard/noise.c:632-656 | Some run consumes an acceptable initiation twice if and only if there are at least two workers. |
| `NoiseReplay.RetestIs` | linux-source/drivers/net/wireguard/noise.c:643-646 | The second comparison of the timestamp succeeds exactly if the initiation is later than everything consumed from that peer so far. |
| `NoiseReplay.NoFlood` | linux-source/drivers/net/wireguard/noise.c:632-656 | In every run an initiation is consumed only if it was checked at least a fiftieth of a second after every commit for its peer before the check. |
| `NoiseReplay.RunInv` | linux-source/drivers/net/wireguard/noise.c:583-861 | In every run the latest timestamp of a peer is at least each one consumed from it and is one of them or the first one, and what workers hold was read out of their initiations. |
| `NoiseReplay.LateAnswerAgrees` | linux-source/drivers/net/wireguard/noise.c:753-800 | In every run, whatever happens between reading and taking the answer to an initiation, a second initiation of ours included: the answer is taken exactly if the handshake is still in its initiated state, and then both ends begin sessions with the same keys in opposite directions and we send to the index of the answer. |
| `NoisePeer.Peer.CreateInitiation` | linux-source/drivers/net/wireguard/noise.c:516-581 | The in-place steps compute the initiation and the new handshake state, on every failure path too. |
| `NoisePeer.Peer.CheckInitiation` | linux-source/drivers/net/wireguard/noise.c:632-641 | Under the read lock the initiation passes exactly if it is neither a replay nor a flood. |
| `NoisePeer.Peer.CommitInitiation` | linux-source/drivers/net/wireguard/noise.c:643-656 | Under the write lock the handshake becomes the one of the specification, whatever happened since the check. |
| `NoisePeer.Peer.ConsumeInitiation` | linux-source/drivers/net/wireguard/noise.c:583-665 | Without interference accepts exactly what the specification accepts and otherwise leaves the handshake as it was. |
| `NoisePeer.Peer.CreateResponse` | linux-source/drivers/net/wireguard/noise.c:667-725 | The in-place steps compute the response and the new handshake state. |
| `NoisePeer.Peer.ReadResponse` | linux-source/drivers/net/wireguard/noise.c:753-781 | What is computed on copies of the handshake between the locks is what the specification reads. |
| `NoisePeer.Peer.CommitResponse` | linux-source/drivers/net/wireguard/noise.c:783-800 | Under the write lock the response is taken exactly if the handshake still waits for one. |
| `NoisePeer.Peer.ConsumeResponse` | linux-source/drivers/net/wireguard/noise.c:727-814 | Without interference accepts exactly what the specification accepts and otherwise leaves the handshake as it was. |
| `NoisePeer.Peer.BeginSession` | linux-source/drivers/net/wireguard/noise.c:816-861 | Derives the session the specification derives and zeroes the handshake; a failed keypair leaves it, a dead peer zeroes it without a session. |
| `Keypairs.SlotsDiffer` | linux-source/drivers/net/wireguard/noise.c:198-291 | In every run the filled slots hold different keypairs. |
| `Keypairs.PutExactlyOnce` | linux-source/drivers/net/wireguard/noise.c:131-291 | A keypair ever added has its one reference exactly as long as it is in a slot. |
| `Keypairs.CurrentIsUsable` | linux-source/drivers/net/wireguard/noise.c:198-291 | The current keypair was made as initiator or was confirmed by received data. |
| `Keypairs.ConfirmedByData` | linux-source/drivers/net/wireguard/noise.c:253-291 | Confirmed means that the run received data with that keypair while it was next. |
| `Keypairs.GoneForGood` | linux-source/drivers/net/wireguard/noise.c:151-291 | A keypair that left the slots never comes back. |
| `Keypairs.CurrentIsLast` | linux-source/drivers/net/wireguard/noise.c:197-284 | In every run current is the keypair activated last, by an initiator's handshake or by data, and next the one offered and not yet confirmed. |
| `Keypairs.LeavesIff` | linux-source/drivers/net/wireguard/noise.c:197-284 | Exactly when a keypair leaves the slots; the one in use only at a clear, or at an initiator's add while another waits to be confirmed. |
| `Keypairs.KeptAsPrevious` | linux-source/drivers/net/wireguard/noise.c:197-284 | After a confirmation previous is what was current; after an initiator's add what was next, or else current; after a responder's add or a clear nothing. |
| `Keypairs.OutAfterTwo` | linux-source/drivers/net/wireguard/noise.c:197-284 | A keypair is out of the slots after two others have been activated since it was current. |
| `Keypairs.Slots.AddNewKeypair` | linux-source/drivers/net/wireguard/noise.c:198-251 | The in-place moves and puts are the Add step and keep the invariant. |
| `Keypairs.Slots.ReceivedWithKeypair` | linux-source/drivers/net/wireguard/noise.c:253-291 | The in-place moves and puts are the Received step; true exactly if the keypair was next. |
| `Keypairs.Slots.KeypairsClear` | linux-source/drivers/net/wireguard/noise.c:151-177 | All slots are emptied and every reference is put. |
| `TokenBucket.StretchBound` | linux-source/drivers/net/wireguard/ratelimiter.c:34-39 | From any entry, over any stretch of packets at most five, and one more per twentieth of a second, are let through. |
| `TokenBucket.IntervalBound` | linux-source/drivers/net/wireguard/ratelimiter.c:112-131 | The same for the packets from any index to any other of a source that neither collector, cap nor late entry interferes with. |
| `TokenBucket.ExpiredIs` | linux-source/drivers/net/wireguard/ratelimiter.c:55-82 | The unsigned age test of the collector means unused for more than a second, or used after the clock was read. |
| `TokenBucket.DropInvisibleIff` | linux-source/drivers/net/wireguard/ratelimiter.c:55-82 | Dropping an entry is invisible to every later sequence of packets if and only if its bucket has filled up by then. |
| `TokenBucket.TimelyMeansFull` | linux-source/drivers/net/wireguard/ratelimiter.c:55-82 | An entry dropped by a collector whose clock is not behind it has filled up. |
| `TokenBucket.StaleCollectorShows` | linux-source/drivers/net/wireguard/ratelimiter.c:55-82 | A collector whose clock is one tick behind an empty bucket drops it and the next packet gets through. |
| `TokenSource.NextPays` | linux-source/drivers/net/wireguard/ratelimiter.c:55-156 | One event, of any kind: what gets through comes out of what is at hand and of what the event gives away, which is nothing unless the event is a refill. |
| `TokenSource.NextExact` | linux-source/drivers/net/wireguard/ratelimiter.c:55-156 | As long as every entry but the newest is full, an event that refills nothing changes what is at hand by exactly what it lets through. |
| `TokenSource.NextOthersFull` | linux-source/drivers/net/wireguard/ratelimiter.c:55-156 | Such an event leaves every entry but the newest full, those that are no longer linked included. |
| `TokenSource.RefillExceeds` | linux-source/drivers/net/wireguard/ratelimiter.c:55-156 | A refill leaves more at hand than there was, or lets a packet through for nothing. |
| `TokenSource.PassIs` | linux-source/drivers/net/wireguard/ratelimiter.c:63-74 | A pass of the collector, made of single visits, drops exactly the expired entries. |
| `TokenHistory.SameAsOneBucket` | linux-source/drivers/net/wireguard/ratelimiter.c:55-156 | Below the cap, every history without refills answers every packet as one bucket does that no collector touches and no packets overlap on. |
| `TokenHistory.CollectorTransparent` | linux-source/drivers/net/wireguard/ratelimiter.c:55-156 | Below the cap, a history in which no entry is late, packets update the newest entry, and collectors that come to it set out no earlier than its last use, refills nothing, and its answers are those of one bucket. |
| `TokenHistory.EveryStretch` | linux-source/drivers/net/wireguard/ratelimiter.c:55-156 | In every stretch of every history, with collectors, cap, overlapping first packets and packets that update an entry after it was unlinked or displaced, what gets through is paid for by one burst, the time that passes, and what the refills inside the stretch give away. |
| `TokenHistory.StretchWithin` | linux-source/drivers/net/wireguard/ratelimiter.c:55-156 | A stretch whose first event gives nothing away on top of a full bucket, and with no refill after it, keeps the limit of five and one per twentieth of a second, whatever came before. |
| `TokenHistory.FullSince` | linux-source/drivers/net/wireguard/ratelimiter.c:112-131 | In a history without refills the bucket is full, or there is an event since which exactly a burst and all the time passed, less what is at hand, was spent. |
| `TokenHistory.BreaksIff` | linux-source/drivers/net/wireguard/ratelimiter.c:55-156 | After any history without refills, packets that follow an event can exceed the limit in some stretch if and only if the event links an entry before one that is not full or later than it was stamped, or drops a newest entry that is not full for a collector that set out before its last use, or lets a packet through by an entry that is no longer the newest or no longer linked. |
| `TokenHistory.UpdateBreaksIff` | linux-source/drivers/net/wireguard/ratelimiter.c:110-131 | After any such history, a packet that updates the entry it found can lead to more than the limit if and only if that entry is not the newest any more. |
| `TokenHistory.OverlapBeatsLimit` | linux-source/drivers/net/wireguard/ratelimiter.c:105-151 | A packet that missed the search adds its entry after others used up a burst: a possible history in which six packets pass at one moment, where the limit is five. |
| `TokenHistory.HeldBeatsLimit` | linux-source/drivers/net/wireguard/ratelimiter.c:110-131 | A packet finds a full entry, a timely collector drops it, five others use up a burst, and the packet updates the dropped entry: a possible history in which six packets pass at one moment. |
| `RateTable.OfCollected` | linux-source/drivers/net/wireguard/ratelimiter.c:55-82 | The collector treats the entries of one source as if they were alone in the chain. |
| `RateTable.Table.Find` | linux-source/drivers/net/wireguard/ratelimiter.c:110-113 | The search returns the newest entry of the source, or none exactly if it has none. |
| `RateTable.Table.Update` | linux-source/drivers/net/wireguard/ratelimiter.c:114-131 | A packet that found an entry, newest of its source, behind others or unlinked since, gets the answer of that entry's bucket; only that entry changes and no chain does. |
| `RateTable.Table.Insert` | linux-source/drivers/net/wireguard/ratelimiter.c:134-155 | A packet that found none is refused exactly if the table is full or memory is, and otherwise puts a new entry in front of what its source has by then; no other source changes. |
| `RateTable.Table.Allow` | linux-source/drivers/net/wireguard/ratelimiter.c:84-156 | Without interference a source with entries gets the answer of its newest, which alone changes, and one without is refused exactly if there is no room and otherwise has a fresh entry; no other source changes; the total stays the number of entries. |
| `RateTable.Table.CollectChain` | linux-source/drivers/net/wireguard/ratelimiter.c:63-74 | One chain keeps exactly its unexpired entries, in order. |
| `RateTable.Table.CollectEntries` | linux-source/drivers/net/wireguard/ratelimiter.c:55-82 | Every source keeps exactly its unexpired entries. |
| `GroSafety.CutsBack` | linux-source/net/ipv4/udp_offload.c:700-783 | Every aggregate that went up has between 1 and 64 segments, and cutting its payload at its segment size gives back exactly the datagrams merged, in order. |
| `GroSafety.NothingLost` | linux-source/net/core/gro.c:464-570 | Every datagram given to the node is held, was completed, or was passed on, none twice. |
| `GroSafety.BucketsInOrder` | linux-source/net/core/gro.c:464-570 | In every reachable state every bucket has at most eight packets, a right count and bit, ages in order and one packet per flow. |
| `GroSafety.FlushLeaves` | linux-source/net/core/gro.c:292-324 | A flush of old packets leaves only packets of this tick, a full flush leaves nothing. |
| `GroSafety.NeverStuck` | linux-source/net/core/gro.c:464-570 | Lists and counts never disagree, so no step is prevented. |
| `GroOrder.OrderIff` | linux-source/net/core/gro.c:464-570 | Over every run, what went up of every flow followed by what is held of it is what was given, in order, at all times, if and only if no packet that is not offered to its bucket passes a different datagram of its flow that is held there. |
| `GroOrder.OrderStep` | linux-source/net/core/gro.c:464-570 | From a moment at which a flow is in order, one step keeps it in order exactly if it does not overtake in that way. |
| `GroOrder.NoChecksumOvertakes` | linux-source/net/ipv4/udp_offload.c:712-728 | A concrete run: a datagram is held, and the next one of its flow, without a checksum, goes up before it. |
| `GroMerge.EndsIff` | linux-source/net/ipv4/udp_offload.c:700-783 | In every run a held packet is completed by a step if and only if a datagram of its flow is shorter or longer, ended by its headers, refused, flushed or the 64th, it is the oldest of eight and another flow comes, or a flush takes it; otherwise it is held with the datagram joined. |
| `GroMerge.JoinsAll` | linux-source/net/ipv4/udp_offload.c:700-783 | As long as nothing ends it, what is held of a flow has joined every datagram of the flow that came, in order. |
| `GroMerge.EqualHeld` | linux-source/net/ipv4/udp_offload.c:700-783 | Up to 63 equal datagrams of a flow in a row are held as one aggregate. |
| `GroMerge.EqualCompletes` | linux-source/net/ipv4/udp_offload.c:700-783 | 64 of them go up as one aggregate. |
| `GroEngine.CutUndoesConcat` | linux-source/net/ipv4/udp_offload.c:700-783 | Cutting at the segment size undoes the concatenation of equal segments with a shorter last one. |
| `GroNode.NextByShift` | linux-source/net/core/gro.c:314-324 | Finding the next bucket by shifting the mask finds the bucket the plain loop would flush next. |
| `GroNode.Node.ReceiveSegment` | linux-source/net/ipv4/udp_offload.c:700-783 | The loop over the held packets merges, refuses or completes as the bucket model says. |
| `GroNode.Node.Merge` | linux-source/net/core/gro.c:497-552 | The bucket after completing, merging, passing on or holding the packet is that of the model, and no other bucket changes. |
| `GroNode.Node.DevGroReceive` | linux-source/net/core/gro.c:464-570 | The whole node after one packet is that of the model, including the bit of the bucket. |
| `GroNode.Node.GroFlushChain` | linux-source/net/core/gro.c:292-307 | One chain is flushed oldest first, stopping at the first packet of this tick if only old ones go. |
| `GroNode.Node.GroFlush` | linux-source/net/core/gro.c:314-324 | The loop over the shifted mask flushes exactly the buckets of the plain loop and keeps the node in order. |

## Left out

- Weak memory: steps interleave in a sequentially consistent order; barriers and acquire/release pairs are taken to give that order.
- RCU: readers and grace periods are not modelled; a node or keypair is freed when it is unlinked, and lookups run between updates. The rate limiter is the exception: there, entries found before they are unlinked are updated after it.
- NAPI is reduced to its SCHED and MISSED bits and a poll; the softirq and threaded scheduling around them is not modelled.
- The device ring (`ptr_ring`), the per-CPU choice of workers and the decryption itself: a packet is produced, then gets any verdict. Whether the poll accepts a packet's counter and source is a fixed set of packets, any set.
- RxSafety.QuiescentMeansDone: states what holds once every thread has finished; RxProgress says that threads get there under every schedule with no further arrivals. Fairness while packets keep arriving is not modelled, there or in the other progress theorems.
- Workqueues: the set of pwqs is fixed during a run and items belong to one workqueue; attributes, CPU hotplug, rescuers, ordered workqueues, plugging, draining, delayed work, disable counts and sysfs are not modelled.
- NodeCounts.Node.TryInc: and the other methods of that class run without interference; interference is the subject of the state machine.
- FlushProgress.FlushCompletes: is for three colours and up; with two colours a run can end at the stale cursor.
- FlushSafety.NoWarning: with two colours a run ends at the stale cursor, before the warning that would look at it.
- FlushWorkqueue.Workqueue.FlushWorkqueuePrepPwqs: and FlushWorkqueue.Workqueue.Cascade run their loops without interference, the latter for three colours and up; the single iterations are steps of the state machine, where anything may come in between.
- WorkPools.Pools.QueueWork: runs the two critical sections one after the other; what may happen between them is covered by the state machine only.
- Trie nodes are entries of a map from identifiers, so pointer aliasing is equality of identifiers; the sequence counter of the table, the netlink reader `wg_allowedips_read_node` and the byte swapping of keys are left out.
- AllowedIps.Table.Lookup: does not model the retry when the reference count of the peer has dropped to zero.
- IoWqSafety.NeverTogether: and IoWqSafety.BitIsHeld, IoWqSafety.BegunInOrder, IoWqSafety.RunInv are false of runs with a cancel that meets the condition of IoWqList.RemoveKeepsIff and are stated for the others; IoWqBreak.CancelBreaksIff shows that the condition is exact. The list primitives (io_uring/slist.h) are not part of this model and are taken at their names.
- IoWqBreak.CancelBreaksIff: an io-wq that shares its hash map with no other is not covered, and after a mistaken cancel the list is a sequence, so the list's own last pointer is followed only in IoWqMistake.
- WorkProgress.QueuedCanRun: is for runs that queue to pools with a worker; the set of workers is fixed, as their creation, idling and timeouts are not modelled.
- IoWqProgress.GivenCanBegin: asks for a worker of every io-wq with waiting items, for the same reason.
- io-wq idle handling, the stall wait queue and the split into bound and unbound accounts: every io-wq has one account and any number of workers.
- Cryptography is a record of functions with laws (decryption inverts encryption under the same key and data, Diffie-Hellman commutes); secrecy and forgery are not modelled. Where a theorem of NoiseBinding needs it, the primitives are assumed not to collide (`Strong`, which has an instance). Zeroing on the stack and the index hash table are left out.
- NoisePeer.Peer.ConsumeInitiation: starts where the peer has been found, and runs its two lock sections one after the other; the lookup by public key is in the specification function, what may happen between the sections is in NoiseReplay.
- NoisePeer.Peer.ConsumeResponse: runs its two lock sections one after the other; the index lookup is left out.
- NoiseReplay.RunInv: peers and the identity of the device stay the same during a run; the clock of a step is any number.
- RateTable.Table.Allow: and RateTable.Table.CollectEntries run their parts one after the other; TokenSource has the parts as events of their own (miss, find, update, link, visit of one entry).
- TokenBucket.IntervalBound: is about sources that nothing interferes with; TokenHistory.StretchWithin is the bound for every history.
- GroSafety.NothingLost: counts an aggregate as completed when gro_complete() is called; one whose completion callback fails is freed there.
- Times are integers without the signed casts of `wg_birthdate_has_expired`; key expiry is left out.
- References that readers hold on keypairs, and the unlocked first check of `wg_noise_received_with_keypair`, are left out; the second check under the lock is modelled.
- GRO: headers, checksum arithmetic and page fragments are abstracted into a flow number and flags per packet; the list form of aggregation, other protocols and the size limits of `skb_gro_receive` enter as a refusal flag.
- The rate limiter's set-up and tear-down, and the two families' separate tables (one table, one hash function).
- Sending, cookies, timers, sockets, netlink, device set-up, and the measurement scripts, plots and report of the repository.
