# A verified model of the client core

This project models the parts of the Substrate client that hold the most state and
arithmetic, and proves what they promise for every input, every run or every
interleaving. `dafny verify dfyconfig.toml` checks all of it.

| files | what they model |
|---|---|
| `LinearMemory`, `FreeingBump`, `HeapLayout`, `HeapRuns`, `HeapAllocator` | the freeing-bump heap allocator over byte-level linear memory |
| `Reputation`, `DecayTime`, `PeerStore`, `ProtocolController`, `ControllerRuns`, `ControllerObject` | peer reputations and how long they last, and the controller of connection slots |
| `RefCounted`, `TransactionIndex`, `IndexedBodies`, `JoinInput` | reference-counted columns, indexed transactions, and bodies joined from two slices |
| `BlockTree`, `CanonicalIndex`, `ChainRuns` | tree routes, and the number-to-hash index across head changes |
| `LeafSet`, `LeavesOfTree` | the leaf set, its undo and revert, beside the block tree |
| `PinnedBlocks`, `BlockPruning` | the cache of pinned blocks, and pruning behind finality |
| `OffchainCas` | compare-and-set on offchain storage, step by step over all interleavings |
| `Gossip` | what each gossip peer knows and is sent |
| `JsonPatch` | merging JSON patches and updating the code of a chain specification |
| `Authorship` | the block-authoring loop |
| `Wrappers`, `Picks` | optional values, results, lists of changes, and elements picked by position |

Each component has the same three layers. Functions on values say what an operation
does. Classes and methods with loops, in the source's imperative form, are proved
equal to those functions. Lemmas about the functions state the laws, up to theorems
over whole runs: `Run` folds a step function over any sequence of legal inputs.

What a component cannot decide itself is an explicit parameter: the host's answer to
a request for memory, clock readings, the iteration order of hash tables, answers of
a runtime or a validator, what an evicting cache keeps, and whether a database commit
succeeds. The `Legal` predicates of runs say what callers owe the component.

Integers are unbounded except where the width matters: 32-bit addresses and the
bumper's wrap-around, 32-bit saturating reputations and pin counts, 32-bit block
numbers in index keys, and the steps of the compact length prefix are modelled.

Where the code falls short of a law, the law is stated with its exact condition, and
the failure is shown on its own:

- the bumper that wraps: `HeapRuns.OverflowIsTheLastByte`, `HeapLayout.OverflowLosesTheBlock`, `HeapLayout.OverflowHappens`; runs of the allocator leave out exactly that request
- the heap base and the nil link: `FreeingBump.HeapBaseRoundsUp`, `LinearMemory.HeaderRoundTrip`
- reads after a failed one: `JoinInput.AgreesPastFailure`
- leaves and childless blocks: `LeavesOfTree.ImportAgreesExactly`, `LeavesOfTree.ForkBelowFinalityIsNoLeaf`
- undoing on the leaf set: `LeafSet.UndoImportRestores`, `LeafSet.UndoRemoveRestores`
- pinned blocks: `BlockPruning.PinnedBlocksRead`, `BlockPruning.HeldBlockLosesItsBody`, `BlockPruning.PinnedBodySurvives`, `BlockPruning.SecondPruningLosesTheBody`, `BlockPruning.DisplacedJustification`
- plain writes beside compare-and-set: `OffchainCas.HistoriesAreLinearizable`, `OffchainCas.PlainWriteBetweenIsLost`
- two patches in turn: `JsonPatch.PatchesCompose`, `JsonPatch.PatchesNeedNotCompose`
- the block size limit: `Authorship.FittingPushPassesLimit`, `Authorship.LimitCanBePassed`

Where code and documentation disagree the model follows the code:

- `peer_store.rs:48` gives the decay factor as 0.955; a decrement of one two-hundredth is 0.995.
- The comment above `on_incoming_connection` exempts peers already connected from an answer; the code always answers.
- `utils.rs:99` calls the number key little-endian; the code writes the highest byte first.
- `json_patch.rs:28` says that no key is removed; a key below a value that the patch replaces is.

## Model

| member | source | states |
|---|---|---|
| `LinearMemory.LeRoundTrip` | polkadot-sdk/substrate/client/allocator/src/freeing_bump.rs:587-608 | a little-endian word of `n` bytes decodes to the value encoded, for every value that fits `n` bytes |
| `LinearMemory.HeaderRoundTrip` | polkadot-sdk/substrate/client/allocator/src/freeing_bump.rs:189-267 | decoding an encoded header gives the header back if and only if it is not a free link to address 0xFFFFFFFF, which reads as the nil marker |
| `LinearMemory.HeaderBytes` | polkadot-sdk/substrate/client/allocator/src/freeing_bump.rs:241-256 | any eight bytes: the lowest bit of the fifth says occupied, the first four are the order, an error above 22, or the link, all ones for none |
| `LinearMemory.WrittenBytes` | polkadot-sdk/substrate/client/allocator/src/freeing_bump.rs:259-267 | the upper four bytes written are 1, 0, 0, 0 for an occupied header and zeros for a free one |
| `LinearMemory.WriteThenRead` | polkadot-sdk/substrate/client/allocator/src/freeing_bump.rs:241-267 | a header written at an address in bounds is the header read there |
| `LinearMemory.WriteFrame` | polkadot-sdk/substrate/client/allocator/src/freeing_bump.rs:259-267 | writing a header changes no header at a disjoint address |
| `FreeingBump.OrderFromSizeIsLeast` | polkadot-sdk/substrate/client/allocator/src/freeing_bump.rs:142-162 | a request gets the smallest order that holds it, and is refused if and only if it is above 32 MiB |
| `FreeingBump.PagesCover` | polkadot-sdk/substrate/client/allocator/src/freeing_bump.rs:352-354 | the page count of a byte size is the least number of pages that holds it |
| `FreeingBump.BumpGrowthIsSound` | polkadot-sdk/substrate/client/allocator/src/freeing_bump.rs:512-563 | a bump succeeds if and only if the request fits the memory, or its limit with the host granting growth; memory grows only when needed, then to its limit or at least to the double, past the double only where one page less would not do, and keeps every byte and adds zeros |
| `FreeingBump.AllocateGrows` | polkadot-sdk/substrate/client/allocator/src/freeing_bump.rs:408-457 | an allocation grows the memory in the same way, for the end of the chunk it serves |
| `FreeingBump.ShrunkMemoryIsRefused` | polkadot-sdk/substrate/client/allocator/src/freeing_bump.rs:565-574 | an unpoisoned call fails with the shrunk-memory error if and only if the memory is smaller than at the last call, and then poisons and changes nothing else; otherwise the size found is the next one compared with |
| `FreeingBump.HeapBaseRoundsUp` | polkadot-sdk/substrate/client/allocator/src/freeing_bump.rs:380-391 | the heap base is rounded to the next multiple of eight if and only if that fits 32 bits; otherwise it wraps to zero |
| `FreeingBump.AllocateIsInBounds` | polkadot-sdk/substrate/client/allocator/src/freeing_bump.rs:408-457 | whatever the memory holds, a returned block lies inside it and the only old bytes changed are the eight of the block's header |
| `FreeingBump.ErrorsPoison` | polkadot-sdk/substrate/client/allocator/src/freeing_bump.rs:408-501 | a call fails if and only if it leaves the allocator poisoned, and a poisoned allocator refuses every call and changes nothing |
| `FreeingBump.CallsKeepBaseAndLimit` | polkadot-sdk/substrate/client/allocator/src/freeing_bump.rs:408-501 | no call moves the heap base, the memory limit, or the memory size downwards |
| `HeapLayout.ServeFromFreeList` | polkadot-sdk/substrate/client/allocator/src/freeing_bump.rs:422-437 | serving from a free list returns its head chunk, keeps the heap invariant, and leaves the bumper alone |
| `HeapLayout.ServeFromBumper` | polkadot-sdk/substrate/client/allocator/src/freeing_bump.rs:438-457 | serving by bumping appends one live chunk and keeps the heap invariant |
| `HeapLayout.AllocateKeepsHeap` | polkadot-sdk/substrate/client/allocator/src/freeing_bump.rs:408-457 | under the heap invariant an allocation succeeds if and only if the request can be served, and otherwise fails for its size or for want of space; then, unless the bumper would reach 2^32, the invariant holds again with the returned block live and the statistics moved by its size |
| `HeapLayout.OverflowLosesTheBlock` | polkadot-sdk/substrate/client/allocator/src/freeing_bump.rs:512-563 | when the bumper would reach 2^32 the allocation succeeds, the bumper wraps to zero, and no layout holds the returned block: the exception above is exact |
| `HeapLayout.OverflowHappens` | polkadot-sdk/substrate/client/allocator/src/freeing_bump.rs:512-563 | a concrete heap, memory and request that overflow |
| `HeapLayout.DeallocateKeepsHeap` | polkadot-sdk/substrate/client/allocator/src/freeing_bump.rs:470-501 | freeing a chunk's pointer succeeds if and only if the chunk is live, and then puts it at the front of its order's free list and keeps the heap invariant; a second free is refused as one of an empty header |
| `HeapLayout.FreedIsReused` | polkadot-sdk/substrate/client/allocator/src/freeing_bump.rs:408-501 | under the heap invariant the block freed last is what the next request of its order gets |
| `HeapRuns.OverflowIsTheLastByte` | polkadot-sdk/substrate/client/allocator/src/freeing_bump.rs:512-563 | under the heap invariant the request that runs leave out is exactly the one that is served and overflows |
| `HeapRuns.AfterMutate` | polkadot-sdk/substrate/client/allocator/src/lib.rs:41-61 | a caller that keeps the headers and does not shrink the memory keeps the heap invariant |
| `HeapRuns.RunAgrees` | polkadot-sdk/substrate/client/allocator/src/freeing_bump.rs:408-501 | in every run of requests, releases and caller writes the heap stays tiled into live and free chunks that match the ledger of calls, or the allocator is poisoned |
| `HeapRuns.HighWaterLaw` | polkadot-sdk/substrate/client/allocator/src/freeing_bump.rs:318-349 | in every unpoisoned run the address space used is exactly what the greatest number of simultaneously live blocks of each order needs, and the statistics equal the ledger of calls |
| `HeapRuns.LiveBlocksAreDisjoint` | polkadot-sdk/substrate/client/allocator/src/freeing_bump.rs:17-60 | in every unpoisoned run live blocks are 8-aligned, lie in the heap and in memory, and do not reach into each other or each other's headers |
| `HeapRuns.GrowthsDouble` | polkadot-sdk/substrate/client/allocator/src/freeing_bump.rs:512-563 | in every run every growth at least doubles the memory, save one that reaches the limit, after which there is none |
| `HeapRuns.GrowthIsLogarithmic` | polkadot-sdk/substrate/client/allocator/src/freeing_bump.rs:540-555 | in every run that starts with `p` pages and ends with at most `p * 2^n` the memory grows at most `n` times, and never more than sixteen times |
| `HeapAllocator.HeapAllocatorObject.AllocateBlock` | polkadot-sdk/substrate/client/allocator/src/freeing_bump.rs:408-457 | the imperative allocation, guard and in-place memory included, refines the specified one |
| `HeapAllocator.HeapAllocatorObject.DeallocateBlock` | polkadot-sdk/substrate/client/allocator/src/freeing_bump.rs:470-501 | the imperative deallocation refines the specified one |
| `HeapAllocator.HeapAllocatorObject.BumpBy` | polkadot-sdk/substrate/client/allocator/src/freeing_bump.rs:512-563 | the imperative bump refines the specified one, memory growth included |
| `HeapAllocator.HeapAllocatorObject.ObserveMemorySize` | polkadot-sdk/substrate/client/allocator/src/freeing_bump.rs:565-574 | a memory smaller than last seen is refused, any other is noted |
| `Reputation.DecayReputation` | polkadot-sdk/substrate/client/network/src/peer_store.rs:207-224 | the loop with its early exit computes the decay of all the seconds passed |
| `Reputation.DecayComposes` | polkadot-sdk/substrate/client/network/src/peer_store.rs:207-224 | decaying for `a` and then `b` seconds is decaying for `a + b` |
| `Reputation.DecayShrinks` | polkadot-sdk/substrate/client/network/src/peer_store.rs:207-224 | decay never crosses zero and strictly shrinks the magnitude every second until zero |
| `Reputation.DecayIsMonotone` | polkadot-sdk/substrate/client/network/src/peer_store.rs:207-224 | decay keeps the order of any two reputations |
| `Reputation.DecayIsOdd` | polkadot-sdk/substrate/client/network/src/peer_store.rs:207-224 | opposite reputations decay to opposite reputations, except for the lowest 32-bit value |
| `DecayTime.DecayReachesZero` | polkadot-sdk/substrate/client/network/src/peer_store.rs:53-55 | every 32-bit reputation has decayed to zero after 3544 seconds |
| `DecayTime.DecayTakesThatLong` | polkadot-sdk/substrate/client/network/src/peer_store.rs:53-55 | the highest and the lowest reputation are not zero after 3543 seconds, so 3544 is exact for both |
| `DecayTime.WithinAfter` | polkadot-sdk/substrate/client/network/src/peer_store.rs:207-224 | for every reputation, bound and time: it is within the bound of zero after so many seconds if and only if it is within a threshold that grows each second by its 199th part, rounded down, and by one below 199 |
| `DecayTime.GoneExactly` | polkadot-sdk/substrate/client/network/src/peer_store.rs:207-224 | a reputation is zero after any number of seconds if and only if it is within the threshold of that time |
| `DecayTime.BannedExactly` | polkadot-sdk/substrate/client/network/src/peer_store.rs:207-224 | a peer is still banned after any number of seconds if and only if its reputation is below the threshold of that ban and time |
| `DecayTime.GoneLater` | polkadot-sdk/substrate/client/network/src/peer_store.rs:207-224 | the thresholds of 2022 and 2023 seconds evaluated |
| `DecayTime.LongestBan` | polkadot-sdk/substrate/client/network/src/peer_store.rs:56-57 | the lowest reputation leaves the banned range after exactly 69 seconds |
| `PeerStore.PartialSort` | polkadot-sdk/substrate/client/network/src/peer_store.rs:339-352 | a permutation with the highest reputations in front, in order |
| `PeerStore.PeerStoreInner.OutgoingCandidates` | polkadot-sdk/substrate/client/network/src/peer_store.rs:339-352 | as many unbanned, unignored peers as there are and as asked for, none outranked by one left out, in rank order |
| `PeerStore.PeerStoreInner.ReportPeer` | polkadot-sdk/substrate/client/network/src/peer_store.rs:260-316 | every registered protocol is told to disconnect the peer if and only if its old reputation and the change add up to less than the threshold; the store is the reported one |
| `PeerStore.PeerStoreInner.ReportDisconnect` | polkadot-sdk/substrate/client/network/src/peer_store.rs:247-258 | a disconnect is a report of the fixed change, known peer or not |
| `PeerStore.ReportMeans` | polkadot-sdk/substrate/client/network/src/peer_store.rs:198-205 | a report touches its peer alone, moves it to the 32-bit number nearest to the sum, and leaves it banned if and only if the sum is below the threshold |
| `PeerStore.ReportsKeepRanking` | polkadot-sdk/substrate/client/network/src/peer_store.rs:202-205 | the same report given to two peers does not let the worse overtake the better, at the ends of the range too |
| `PeerStore.BansEnd` | polkadot-sdk/substrate/client/network/src/peer_store.rs:56-57 | a peer left alone for 69 seconds is not banned, whatever it was before |
| `PeerStore.PeerStoreInner.ProgressTime` | polkadot-sdk/substrate/client/network/src/peer_store.rs:354-379 | every entry is decayed, and exactly those at zero and untouched for the forgetting time are dropped |
| `PeerStore.ProgressComposes` | polkadot-sdk/substrate/client/network/src/peer_store.rs:354-379 | passing an interval in two steps gives the same store as in one, forgotten entries included |
| `PeerStore.KeptExactly` | polkadot-sdk/substrate/client/network/src/peer_store.rs:354-381 | for every peer and time: it is kept if and only if it was updated within the last 3600 seconds or its reputation is beyond the threshold of that time; of a kept one the reputation alone changes, and no time changes nothing |
| `PeerStore.IdlePeersAreForgotten` | polkadot-sdk/substrate/client/network/src/peer_store.rs:354-379 | a peer untouched for the forgetting time is forgotten by a tick of 3544 seconds or more, whatever its reputation was |
| `PeerStore.ProgressKeepsRanking` | polkadot-sdk/substrate/client/network/src/peer_store.rs:354-379 | the passage of time changes no ranking of peers |
| `ControllerRuns.AllocSlotsKeepsSound` | polkadot-sdk/substrate/client/network/src/protocol_controller.rs:785-855 | a slot allocation keeps the invariant, adds exactly the chosen peers, connects outbound exactly the unconnected reserved peers that are not banned, and leaves the other reserved peers as they are |
| `ControllerRuns.AllocSlotsFillsSlots` | polkadot-sdk/substrate/client/network/src/protocol_controller.rs:785-855 | outside reserved-only mode a slot allocation leaves no free slot or no eligible peer, what it adds is not outranked by what it left out, and banned reserved peers stay unconnected |
| `ControllerRuns.AllocSlotsIsDecided` | polkadot-sdk/substrate/client/network/src/protocol_controller.rs:785-855 | after an allocation every peer: connected ones as before, banned reserved ones unconnected, all other reserved ones and the chosen candidates outbound; each of these is told to connect exactly once, reserved peers first, and nothing else is sent |
| `ControllerRuns.AnyCandidatesKeepSound` | polkadot-sdk/substrate/client/network/src/protocol_controller.rs:824-854 | even if the store returns known peers or too many, an allocation keeps the invariant |
| `ControllerRuns.ReservingAllocates` | polkadot-sdk/substrate/client/network/src/protocol_controller.rs:466-502 | reserving a peer that is neither reserved nor connected allocates slots with it reserved, so it is told to connect if and only if it is not banned |
| `ControllerRuns.ReservingTwice` | polkadot-sdk/substrate/client/network/src/protocol_controller.rs:466-470 | reserving a reserved peer changes nothing |
| `ControllerRuns.SetReservedPeersIsExact` | polkadot-sdk/substrate/client/network/src/protocol_controller.rs:562-575 | whatever the slot allocations in between do, the reserved set ends as exactly the given one |
| `ControllerRuns.SetReservedPeersIsDecided` | polkadot-sdk/substrate/client/network/src/protocol_controller.rs:562-575 | only connects are sent and then only drops, these to removed peers; nobody else loses a connection, and an inserted peer ends unconnected only if it was banned then |
| `ControllerRuns.SetReservedOnlyKeepsSound` | polkadot-sdk/substrate/client/network/src/protocol_controller.rs:579-603 | switching the mode keeps the invariant, so reserved-only leaves no regular node and no used slot, and keeps the reserved set |
| `ControllerRuns.ReservedOnlyDropsTheRest` | polkadot-sdk/substrate/client/network/src/protocol_controller.rs:579-603 | switching to reserved-only tells every regular peer once to drop and leaves the reserved ones alone |
| `ControllerRuns.LeavingReservedOnlyAllocates` | polkadot-sdk/substrate/client/network/src/protocol_controller.rs:579-592 | switching back allocates slots in the new mode |
| `ControllerRuns.ReservingKeepsTheConnection` | polkadot-sdk/substrate/client/network/src/protocol_controller.rs:466-502 | a connected peer that becomes reserved stays connected and gives up its slot without a message |
| `ControllerRuns.UnreservingNeedsASlot` | polkadot-sdk/substrate/client/network/src/protocol_controller.rs:506-559 | a removed reserved peer stays connected if and only if a regular slot of its direction is free, and is told to drop otherwise |
| `ControllerRuns.CorruptionIsNoticed` | polkadot-sdk/substrate/client/network/src/protocol_controller.rs:506-559 | the corrupted-state assertion fires if and only if a connected reserved peer with room among the regular ones is one of them already |
| `ControllerRuns.DisconnectDropsRegularPeers` | polkadot-sdk/substrate/client/network/src/protocol_controller.rs:611-641 | a disconnect drops a connected regular peer with one message and touches no other peer |
| `ControllerRuns.IncomingIsDecided` | polkadot-sdk/substrate/client/network/src/protocol_controller.rs:654-716 | an incoming connection is accepted if and only if the peer is reserved and connected or unbanned, or regular, unbanned, allowed by the mode and within the inbound limit beside the others; a rejected peer is left unconnected |
| `ControllerRuns.GonePeersAreForgotten` | polkadot-sdk/substrate/client/network/src/protocol_controller.rs:719-781 | a peer that is gone is unconnected afterwards, no message is sent and no other peer is touched |
| `ControllerRuns.StepKeepsSound` | polkadot-sdk/substrate/client/network/src/protocol_controller.rs:372-394 | every event and action keeps the invariant |
| `ControllerRuns.NewIsSound` | polkadot-sdk/substrate/client/network/src/protocol_controller.rs:284-331 | a new controller is sound, with the given reserved peers, limits and mode, and has sent nothing |
| `ControllerRuns.ReachableStatesAreSound` | polkadot-sdk/substrate/client/network/src/protocol_controller.rs:284-331 | in every reachable state the slot counters equal the connected regular nodes by direction and respect their limits, nodes and reserved peers are disjoint, reserved-only mode has no nodes, and the corrupted-state assertion has not fired |
| `ControllerRuns.HistoryTellsTheState` | polkadot-sdk/substrate/client/network/src/protocol_controller.rs:372-463 | in every run connect goes only to unconnected and drop only to connected peers, replaying the messages gives exactly the connected peers, and every incoming index is answered as often as it arrives |
| `ControllerObject.ControllerOnPeers.AllocateSlots` | polkadot-sdk/substrate/client/network/src/protocol_controller.rs:785-855 | the loops over the reserved table and the candidates refine the specified allocation |
| `ControllerObject.ControllerOnPeers.OnAddReservedPeer` | polkadot-sdk/substrate/client/network/src/protocol_controller.rs:466-502 | refines the specified handler |
| `ControllerObject.ControllerOnPeers.OnRemoveReservedPeer` | polkadot-sdk/substrate/client/network/src/protocol_controller.rs:506-559 | refines the specified handler |
| `ControllerObject.ControllerOnPeers.OnSetReservedPeers` | polkadot-sdk/substrate/client/network/src/protocol_controller.rs:562-575 | refines the specified handler, and the reserved set is the given one |
| `ControllerObject.ControllerOnPeers.OnSetReservedOnly` | polkadot-sdk/substrate/client/network/src/protocol_controller.rs:579-603 | refines the specified handler |
| `ControllerObject.ControllerOnPeers.OnDisconnectPeer` | polkadot-sdk/substrate/client/network/src/protocol_controller.rs:611-641 | refines the specified handler |
| `ControllerObject.ControllerOnPeers.OnIncomingConnection` | polkadot-sdk/substrate/client/network/src/protocol_controller.rs:654-716 | refines the specified handler |
| `ControllerObject.ControllerOnPeers.OnPeerDropped` | polkadot-sdk/substrate/client/network/src/protocol_controller.rs:719-781 | refines the specified handler; the store is told exactly when the peer was connected until then |
| `RefCounted.CommitIsPerKey` | polkadot-sdk/substrate/primitives/database/src/mem.rs:32-70 | a commit acts on each key by its own operations alone, in order |
| `RefCounted.FirstValueStays` | polkadot-sdk/substrate/primitives/database/src/mem.rs:32-70 | without releases an entry keeps its value, and a new one has that of the first store; later stores only count |
| `RefCounted.ReplayOnCounter` | polkadot-sdk/substrate/primitives/database/src/kvdb.rs:130-157 | the counter-and-pending-value replay stands for the same entry as one operation after the other |
| `RefCounted.CommitGrouped` | polkadot-sdk/substrate/primitives/database/src/kvdb.rs:78-174 | grouping changes by key and writing every counter once commits the same column as the sequential reference |
| `TransactionIndex.CollectOps` | polkadot-sdk/substrate/client/db/src/lib.rs:2266-2282 | the two maps hold the last insertion and all renewals of every extrinsic |
| `TransactionIndex.StoreBody` | polkadot-sdk/substrate/client/db/src/lib.rs:2259-2350 | the import loop computes the specified index entries, column changes and remaining prefetched contents |
| `TransactionIndex.EntryFollowsOperations` | polkadot-sdk/substrate/client/db/src/lib.rs:2266-2326 | from the operations alone: the entry of an extrinsic names all hashes renewed for it, in submission order; without renewals the hash of its last insertion, keeping the encoding before the slice, if the slice fits; otherwise it is stored in full |
| `TransactionIndex.LeftOverIsUnrenewed` | polkadot-sdk/substrate/client/db/src/lib.rs:2284-2314 | prefetched contents are taken by renewals: left over are exactly those no renewal of the body names |
| `TransactionIndex.LoadEntry` | polkadot-sdk/substrate/client/db/src/lib.rs:674-709 | an indexed entry is decoded through the joined input, and a missing or undecodable one is the specified error |
| `TransactionIndex.LoadBody` | polkadot-sdk/substrate/client/db/src/lib.rs:669-719 | the reading loop computes the specified body, or the error of the first entry that is missing or does not decode |
| `TransactionIndex.ReadFailsAtFirst` | polkadot-sdk/substrate/client/db/src/lib.rs:669-719 | a body is read if and only if all its entries are, and otherwise fails as its first unreadable entry does |
| `TransactionIndex.EntryReads` | polkadot-sdk/substrate/client/db/src/lib.rs:674-709 | an indexed entry is missing if and only if its transaction is, and otherwise decodes its header followed by the transaction |
| `TransactionIndex.SomeCodecPrefixDecodes` | polkadot-sdk/substrate/client/db/src/lib.rs:674-709 | a codec that decodes whatever it encoded with anything following, as the body laws ask, exists |
| `IndexedBodies.CommitCountsUses` | polkadot-sdk/substrate/primitives/database/src/mem.rs:32-70 | stores and references never count more than they use, and count every use if and only if each reference finds its entry |
| `IndexedBodies.ImportUsesWhatItNames` | polkadot-sdk/substrate/client/db/src/lib.rs:2259-2350 | an import changes the counts of exactly the hashes its body index names, once per mention, in order |
| `IndexedBodies.ReleasesUncount` | polkadot-sdk/substrate/client/db/src/lib.rs:2175-2229 | releasing what an index names takes back exactly what its import counted |
| `IndexedBodies.ImportKeepsLaw` | polkadot-sdk/substrate/client/db/src/lib.rs:2259-2350 | a fresh import whose renewals are present or prefetched keeps every count equal to its uses and every stored body readable |
| `IndexedBodies.PruneKeepsLaw` | polkadot-sdk/substrate/client/db/src/lib.rs:2175-2229 | pruning a block keeps both laws for the others |
| `IndexedBodies.CountsAreExact` | polkadot-sdk/substrate/client/db/src/lib.rs:2175-2229 | in every run, whatever the codec and the contents, the count of a transaction is its number of mentions in unpruned body indexes, and it is present exactly while there is one |
| `IndexedBodies.BodiesReadBack` | polkadot-sdk/substrate/client/db/src/lib.rs:648-722 | in every run whose hashes address contents the body of each unpruned block reads back as imported, every other block reads as having none, and no read fails |
| `IndexedBodies.NamedIsServed` | polkadot-sdk/substrate/client/db/src/lib.rs:2259-2350 | in every run each transaction named by the index of an unpruned block is in the column with what its hash addresses, whatever the codec |
| `IndexedBodies.AskedForIsServed` | polkadot-sdk/substrate/client/db/src/lib.rs:2266-2326 | in every run, from a block's import until its pruning, each hash its operations renew, and that of the last insertion of an extrinsic without renewals if the slice fits, is in the column; for an insertion its value is the slice off the end of the encoding |
| `IndexedBodies.ImportTouchesOnly` | polkadot-sdk/substrate/client/db/src/lib.rs:1693-1707 | an import without operations touches neither transactions nor indexes, one with them no plain body |
| `JoinInput.JoinedInput.Read` | polkadot-sdk/substrate/client/db/src/utils.rs:600-616 | the in-place read refines the specified one |
| `JoinInput.ReadAgrees` | polkadot-sdk/substrate/client/db/src/utils.rs:600-616 | a read returns what a read of the concatenation returns; what remains is the same if and only if it succeeded or the first slice was used up |
| `JoinInput.ReadsAgreeUntilFailure` | polkadot-sdk/substrate/client/db/src/utils.rs:594-616 | any sequence of reads up to its first failure is that of the concatenation |
| `JoinInput.DecodersSeeTheConcatenation` | polkadot-sdk/substrate/client/db/src/utils.rs:594-616 | every decoder, however many reads it makes and however it chooses each from the bytes read, decodes the two slices as their concatenation |
| `JoinInput.DecodeFrom` | polkadot-sdk/substrate/client/db/src/lib.rs:677-685 | driving a decoder over the input object gives what decoding the concatenation gives |
| `JoinInput.AgreesPastFailure` | polkadot-sdk/substrate/client/db/src/utils.rs:600-616 | reads after a failed one agree for every size if and only if the failure happened with no byte of the first slice left |
| `BlockTree.CommonHeightIsLast` | polkadot-sdk/substrate/primitives/blockchain/src/header_metadata.rs:127-135 | two blocks have the same ancestor at a height if and only if the height is at most their common one |
| `BlockTree.RouteMeans` | polkadot-sdk/substrate/primitives/blockchain/src/header_metadata.rs:104-247 | a route retracts exactly the blocks on the path of its start and not of its end, downwards, and enacts those on the path of its end and not of its start, upwards; its pivot is the highest block on both |
| `BlockTree.TreeRoute` | polkadot-sdk/substrate/primitives/blockchain/src/header_metadata.rs:104-145 | the three loops return the route down to the last common ancestor and up, with the pivot at that ancestor |
| `CanonicalIndex.NumberKeysDiffer` | polkadot-sdk/substrate/client/db/src/utils.rs:104-110 | different 32-bit block numbers have different index keys |
| `CanonicalIndex.NumberKeysAreOrdered` | polkadot-sdk/substrate/client/db/src/utils.rs:104-110 | index keys sort as their numbers do |
| `CanonicalIndex.LookupKeysDiffer` | polkadot-sdk/substrate/client/db/src/utils.rs:114-122 | a lookup key determines its number and hash |
| `CanonicalIndex.SetHeadWithTransaction` | polkadot-sdk/substrate/client/db/src/lib.rs:1460-1524 | the head change appends exactly the specified changes and reports the enacted and retracted blocks, or fails as specified when it would retract finality or move too far |
| `CanonicalIndex.HeadChangeReports` | polkadot-sdk/substrate/client/db/src/lib.rs:1484-1523 | for every tree and head change: enacted are exactly the blocks on the path of the route's end and not of the old head, upwards, retracted those on the path of the old head and not of the end, downwards, each with its number; without a route none |
| `CanonicalIndex.RouteMovesIndex` | polkadot-sdk/substrate/client/db/src/lib.rs:1484-1511 | following the route turns the number entries of the old head's ancestors into those of the new one's |
| `CanonicalIndex.SetHeadToExisting` | polkadot-sdk/substrate/client/db/src/lib.rs:1460-1524 | moving the head up, down or across a fork leaves exactly the new head's ancestors indexed, nothing stale above |
| `CanonicalIndex.SetHeadToImported` | polkadot-sdk/substrate/client/db/src/lib.rs:1460-1524 | the same when the new head is a block being imported, new or known already |
| `CanonicalIndex.RetractedIsLost` | polkadot-sdk/substrate/client/db/src/lib.rs:1486-1500 | a canonical block stays canonical if and only if the head change does not retract it |
| `CanonicalIndex.HeadChangesAllowed` | polkadot-sdk/substrate/client/db/src/lib.rs:1473-1500 | with the finalized block on the head's path a head change is made if and only if the new head is at most the canonicalization delay below the old one, the route ends on a descendant of the finalized block or itself, and the number fits 32 bits; the first of these that fails is the error |
| `ChainRuns.IndexFollowsTheHead` | polkadot-sdk/substrate/client/db/src/lib.rs:1460-1524 | in every run the number entries are exactly the ancestor path of the current head |
| `ChainRuns.FinalityIsPermanent` | polkadot-sdk/substrate/client/db/src/lib.rs:1486-1500 | in every run no number entry at or below the finalized height ever changes, also when the first finalization after genesis skips blocks |
| `ChainRuns.IndexedExactlyOnPath` | polkadot-sdk/substrate/client/db/src/lib.rs:1556-1558 | in every run the index names a block at its height if and only if the block is on the path of the head, so a block finalized off it would not be canonical |
| `ChainRuns.GenesisIsSound` | polkadot-sdk/substrate/client/db/src/lib.rs:1460-1524 | importing the genesis into an empty database starts a sound run |
| `LeafSet.UndoImportRestores` | polkadot-sdk/substrate/client/api/src/leaves.rs:285-291 | undoing an import restores the leaves, up to order within a height, if and only if the block was not a leaf before and its parent was not listed twice |
| `LeafSet.UndoRemoveRestores` | polkadot-sdk/substrate/client/api/src/leaves.rs:295-301 | undoing a removal restores the leaves, up to order within a height, if and only if the leaf was listed once and the parent put in its place was not a leaf |
| `LeafSet.InOrderCounts` | polkadot-sdk/substrate/client/api/src/leaves.rs:208-210 | the iteration lists every leaf as often as it is stored |
| `LeafSet.InOrderDescends` | polkadot-sdk/substrate/client/api/src/leaves.rs:206-210 | the iteration goes from the highest number down |
| `LeafSet.WithoutPicks` | polkadot-sdk/substrate/client/api/src/leaves.rs:240-265 | dropping a hash keeps the others of its level in their order |
| `LeafSet.InsertedComesLast` | polkadot-sdk/substrate/client/api/src/leaves.rs:236-238 | a new leaf is the last of its level, and no other level changes |
| `LeafSet.RemovedWithCopies` | polkadot-sdk/substrate/client/api/src/leaves.rs:126-149 | removing a leaf drops its copies and adds the given parent one below; for any other hash it changes and reports nothing |
| `LeafSet.HighestLeafMeans` | polkadot-sdk/substrate/client/db/src/lib.rs:1668-1676 | the highest leaf is that of the highest level, zero without leaves |
| `LeafSet.AbovePicks` | polkadot-sdk/substrate/client/api/src/leaves.rs:175-204 | a revert reports exactly the leaves above its target, in the order of the iteration |
| `LeafSet.RevertedLeaves` | polkadot-sdk/substrate/client/api/src/leaves.rs:175-204 | after a revert the leaves are exactly those at or below the target and the target itself |
| `LeafSet.LeafStore.RemoveLeaf` | polkadot-sdk/substrate/client/api/src/leaves.rs:240-265 | every occurrence of the hash goes, and the level with its last hash |
| `LeafSet.LeafStore.Import` | polkadot-sdk/substrate/client/api/src/leaves.rs:103-118 | the parent leaf is replaced by the block, and the outcome says whether it was there |
| `LeafSet.LeafStore.Remove` | polkadot-sdk/substrate/client/api/src/leaves.rs:126-149 | the leaf is replaced by the given parent, or nothing changes when it is no leaf |
| `LeafSet.LeafStore.Revert` | polkadot-sdk/substrate/client/api/src/leaves.rs:175-204 | the assertion on removals fires if and only if a level above the target lists a hash twice; otherwise the dropped leaves are returned in order and the storage is the reverted one |
| `LeavesOfTree.HighestLeafIsTop` | polkadot-sdk/substrate/client/db/src/lib.rs:1668-1676 | while leaves are the childless blocks no block is above the highest leaf, so the guard before the header lookup hides no known block |
| `LeavesOfTree.ImportAgreesExactly` | polkadot-sdk/substrate/client/db/src/lib.rs:1849-1879 | an import leaves only childless blocks in the leaf set if and only if a block that does not register has no leaf for a parent and one imported again above all leaves has no children; from exact leaves it keeps them exact if and only if the block is known or passes the guard on registration and the finalized height |
| `LeavesOfTree.ForkBelowFinalityIsNoLeaf` | polkadot-sdk/substrate/client/db/src/lib.rs:1849-1863 | a concrete run and a fork block at the finalized height that is known, childless and no leaf, the one missed block |
| `LeavesOfTree.RemovalKeepsAgreement` | polkadot-sdk/substrate/client/db/src/lib.rs:2715-2776 | removing a leaf block does too, both when the commit succeeds and when it fails and the removal is undone |
| `LeavesOfTree.RemovalIsDecided` | polkadot-sdk/substrate/client/db/src/lib.rs:2715-2776 | a block is removed if and only if it is known and not the best, has its state, is childless and not missed, and the commit succeeds; otherwise the first of the tests that fails is the error |
| `LeavesOfTree.UndoneComesLast` | polkadot-sdk/substrate/client/api/src/leaves.rs:295-301 | a removal that is undone leaves its block the last of its level |
| `LeavesOfTree.LeavesAndMissedBlocks` | polkadot-sdk/substrate/client/api/src/leaves.rs:103-149 | in every run of such imports and of leaf removals a block is a leaf, listed once, if and only if it is known, childless and not missed; missed are the blocks that did not register, then or later, and have had no child since |
| `LeavesOfTree.LeavesAreTheChildlessBlocks` | polkadot-sdk/substrate/client/api/src/leaves.rs:103-149 | in every run of leaf removals and of imports that pass the guard or repeat a known block the leaf set is exactly the childless blocks, each once, with no empty level |
| `LeavesOfTree.BlockStore.CommitBlock` | polkadot-sdk/substrate/client/db/src/lib.rs:1849-1879 | the leaf and children part of an import, its guards included, refines the specified one |
| `LeavesOfTree.BlockStore.RemoveLeafBlock` | polkadot-sdk/substrate/client/db/src/lib.rs:2715-2776 | the removal refines the specified one, each refusal included |
| `OffchainCas.LocksAreExclusive` | polkadot-sdk/substrate/client/db/src/offchain.rs:78-112 | in every interleaving at most one thread is inside the lock of a key, and every reference is to the lock now in the map |
| `OffchainCas.CountsAreReferences` | polkadot-sdk/substrate/client/db/src/offchain.rs:86-89 | in every interleaving the strong count of a lock in the map is one for the map and one for each referring thread |
| `OffchainCas.QuietMeansEmpty` | polkadot-sdk/substrate/client/db/src/offchain.rs:102-111 | when no call is in flight the lock map is empty and no lock is left |
| `OffchainCas.RemovedOnlyWhenUnused` | polkadot-sdk/substrate/client/db/src/offchain.rs:102-111 | in every interleaving the test of the count removes an entry if and only if no other thread refers to its lock, and no other step removes one |
| `OffchainCas.StepsShrink` | polkadot-sdk/substrate/client/db/src/offchain.rs:78-112 | every step of a call leaves it fewer steps and moves no other call |
| `OffchainCas.SomeCallAdvances` | polkadot-sdk/substrate/client/db/src/offchain.rs:78-112 | in every interleaving, while a call is in flight some call can take its next step: no deadlock |
| `OffchainCas.HistoriesAreLinearizable` | polkadot-sdk/substrate/client/db/src/offchain.rs:56-112 | in every interleaving, plain sets and removals included, the recorded effects explain every result if and only if by the schedule the last plain write on the key between a comparison and its write, if any, put back what was expected; they always explain the store |
| `OffchainCas.PoliteHistoriesAreLinearizable` | polkadot-sdk/substrate/client/db/src/offchain.rs:56-112 | every history is linearizable in which no plain write falls on a key between a comparison and its write |
| `OffchainCas.CallsAloneArePolite` | polkadot-sdk/substrate/client/db/src/offchain.rs:78-112 | histories of compare-and-set calls alone are among them |
| `OffchainCas.EffectLiesInsideTheCall` | polkadot-sdk/substrate/client/db/src/offchain.rs:78-112 | every returned call took effect once, between its invocation and its return, with the outcome it returned |
| `OffchainCas.PlainWriteBetweenIsLost` | polkadot-sdk/substrate/client/db/src/offchain.rs:56-63 | a run from the start in which a plain write between comparison and write is lost, and no order of the two explains it |
| `PinnedBlocks.EvictionIsFair` | polkadot-sdk/substrate/client/db/src/pinned_blocks_cache.rs:74-120 | a full cache evicts one entry, and only one of a block lost to its holders: 2048 others were pinned between two of its pins or since the last |
| `PinnedBlocks.PinKeepsTrack` | polkadot-sdk/substrate/client/db/src/pinned_blocks_cache.rs:141-156 | pinning keeps the count of every held block that is not lost in that sense equal to its holders |
| `PinnedBlocks.PinCountsUp` | polkadot-sdk/substrate/client/db/src/pinned_blocks_cache.rs:141-156 | pinning a cached block adds one to its count, up to what 32 bits hold, makes it the most recent, and keeps its values |
| `PinnedBlocks.UnpinKeepsTrack` | polkadot-sdk/substrate/client/db/src/pinned_blocks_cache.rs:214-221 | giving back a pin does too, and the last one removes the entry |
| `PinnedBlocks.PinnedBlocksCache.Pin` | polkadot-sdk/substrate/client/db/src/pinned_blocks_cache.rs:141-156 | refines the specified pin, saturation and eviction included |
| `PinnedBlocks.PinnedBlocksCache.Unpin` | polkadot-sdk/substrate/client/db/src/pinned_blocks_cache.rs:214-221 | refines the specified unpin |
| `BlockPruning.PinnedBodySurvives` | polkadot-sdk/substrate/client/db/src/lib.rs:608-617 | pruning leaves a block's body reading as before if and only if it is pinned with nothing else cached for it, or had no body |
| `BlockPruning.SecondPruningLosesTheBody` | polkadot-sdk/substrate/client/db/src/lib.rs:608-617 | a pinned block pruned twice reads no body |
| `BlockPruning.DisplacedJustification` | polkadot-sdk/substrate/client/db/src/lib.rs:2162-2173 | on the displaced path justifications survive if and only if they were cached already or there were none |
| `BlockPruning.WindowIsExact` | polkadot-sdk/substrate/client/db/src/lib.rs:2107-2160 | in every run, after sequential finalization, a finalized block has its body if and only if it is among the last n, or the last one |
| `BlockPruning.OnlyWindowAndDisplacedPruned` | polkadot-sdk/substrate/client/db/src/lib.rs:2107-2173 | in every run, displacing a block again included, a known block lacks its body if and only if it was displaced or has left the window |
| `BlockPruning.StoredBlocksRead` | polkadot-sdk/substrate/client/db/src/lib.rs:2175-2229 | in every run a body in the database is the one imported, with the justifications last set, and a block without a body has none |
| `BlockPruning.PinnedBlocksRead` | polkadot-sdk/substrate/client/db/src/lib.rs:803-819 | in every run a block pinned while it had its body, with fewer than 2048 others pinned from any of its pins to the next, reads its body as imported if and only if it was not displaced after losing it, and else none; unless displaced at all it reads its justifications as last set, those set by the pruning transaction included |
| `BlockPruning.HeldBlockLosesItsBody` | polkadot-sdk/substrate/client/db/src/lib.rs:2162-2173 | a legal run for every body and window of three or more: a held sibling displaced at its height is displaced again with its child and then reads no body |
| `BlockPruning.PruningBackend.PruneBlocks` | polkadot-sdk/substrate/client/db/src/lib.rs:2107-2160 | refines the specified pruning of the window |
| `BlockPruning.PruningBackend.PruneDisplacedBranches` | polkadot-sdk/substrate/client/db/src/lib.rs:2162-2173 | refines the specified pruning of displaced blocks |
| `BlockPruning.PruningBackend.CommitFinality` | polkadot-sdk/substrate/client/db/src/lib.rs:1647-1662 | the loop over an operation's finalized blocks refines the specified one |
| `Gossip.KnownMeansTold` | polkadot-sdk/substrate/client/network-gossip/src/state_machine.rs:102-154 | a peer is taken to know a message if and only if an event of its session told it, or it told the node, and no collection has dropped it since |
| `Gossip.RebroadcastNeedsForgetting` | polkadot-sdk/substrate/client/network-gossip/src/state_machine.rs:116-142 | within a session, after any send, receipt or direct message of a hash, a broadcast of it comes only after a collection that found it gone from the cache |
| `Gossip.NoRepeatedBroadcast` | polkadot-sdk/substrate/client/network-gossip/src/state_machine.rs:102-154 | in every run two broadcasts of a hash to a peer in one session have such a collection between them |
| `Gossip.DuplicateIsEarned` | polkadot-sdk/substrate/client/network-gossip/src/state_machine.rs:365-382 | a peer is penalised for a duplicate only over a message it was told of, or told, and that is not forgotten |
| `Gossip.StepKeepsSound` | polkadot-sdk/substrate/client/network-gossip/src/state_machine.rs:195-487 | every handler, validator callbacks included, keeps the peer table equal to what its history says |
| `Gossip.PropagationReaches` | polkadot-sdk/substrate/client/network-gossip/src/state_machine.rs:102-154 | after a propagation each peer knows what it knew and exactly what the validator allowed, whatever the intent, and nothing else changes |
| `Gossip.OfferAllSends` | polkadot-sdk/substrate/client/network-gossip/src/state_machine.rs:117-151 | to one peer go out, in order, the allowed messages, with the broadcast intent only those it does not hold when their turn comes; a rebroadcast of one it does not hold goes out as a broadcast |
| `Gossip.PropagationSends` | polkadot-sdk/substrate/client/network-gossip/src/state_machine.rs:102-154 | a propagation sends to one peer after the other, to each what goes out to it alone |
| `Gossip.TopicPicks` | polkadot-sdk/substrate/client/network-gossip/src/state_machine.rs:280-302 | a topic call offers exactly the stored messages of the topic, in order |
| `Gossip.KeptPicks` | polkadot-sdk/substrate/client/network-gossip/src/state_machine.rs:306-331 | a collection keeps the messages at the fresh positions, in order |
| `Gossip.FreshExactly` | polkadot-sdk/substrate/client/network-gossip/src/state_machine.rs:306-331 | the fresh positions are exactly those whose message has not expired |
| `Gossip.BroadcastSends` | polkadot-sdk/substrate/client/network-gossip/src/state_machine.rs:280-302 | a topic broadcast sends those to every peer, and stores nothing |
| `Gossip.MulticastSends` | polkadot-sdk/substrate/client/network-gossip/src/state_machine.rs:469-487 | a multicast stores its message if the cache takes it and sends it alone to every peer |
| `Gossip.SendTopicSends` | polkadot-sdk/substrate/client/network-gossip/src/state_machine.rs:432-466 | a topic send does so to one peer |
| `Gossip.TickSends` | polkadot-sdk/substrate/client/network-gossip/src/state_machine.rs:254-277 | a tick forgets first, keeps what has not expired, and if due sends that to every peer as a rebroadcast |
| `Gossip.DirectSends` | polkadot-sdk/substrate/client/network-gossip/src/state_machine.rs:491-515 | a direct message goes to a registered peer and is noted, a context send is not noted |
| `Gossip.SessionEdges` | polkadot-sdk/substrate/client/network-gossip/src/state_machine.rs:195-251 | a session begins before the validator is called and ends after it |
| `Gossip.CallsInOrder` | polkadot-sdk/substrate/client/network-gossip/src/state_machine.rs:78-100 | calls of a validator happen in order and register or unregister nobody |
| `Gossip.ReceiptIsDecided` | polkadot-sdk/substrate/client/network-gossip/src/state_machine.rs:365-424 | an incoming message in the cache is noted, as a duplicate if and only if its peer was told it or told it and it is not forgotten; one that is new is validated, and if it passes from a registered peer noted as a success and kept as the verdict says |
| `Gossip.ForwardedExactly` | polkadot-sdk/substrate/client/network-gossip/src/state_machine.rs:365-429 | handed up are exactly the incoming messages that are new when their turn comes and pass validation, from a registered peer, in order, each under its topic |
| `Gossip.ConsensusGossip.Propagate` | polkadot-sdk/substrate/client/network-gossip/src/state_machine.rs:102-154 | the nested loops refine the specified propagation |
| `Gossip.ConsensusGossip.CollectGarbage` | polkadot-sdk/substrate/client/network-gossip/src/state_machine.rs:306-331 | both loops refine the specified collection |
| `Gossip.ConsensusGossip.Tick` | polkadot-sdk/substrate/client/network-gossip/src/state_machine.rs:254-277 | collection first, then a rebroadcast when due |
| `Gossip.ConsensusGossip.Perform` | polkadot-sdk/substrate/client/network-gossip/src/state_machine.rs:280-302 | broadcasts, multicasts, topic sends and context sends refine their specifications |
| `Gossip.ConsensusGossip.OnIncoming` | polkadot-sdk/substrate/client/network-gossip/src/state_machine.rs:343-429 | the loop over incoming messages refines the specified receipts and forwards what it specifies |
| `JsonPatch.MergeAt` | polkadot-sdk/substrate/client/chain-spec/src/json_patch.rs:34-43 | the value of a merge at every path: merged where the patch has one, absent behind a patched value that is no object, unchanged elsewhere |
| `JsonPatch.PathsSurvive` | polkadot-sdk/substrate/client/chain-spec/src/json_patch.rs:34-43 | a path exists after a merge if and only if the patch has it, or the target has it and the patch puts no non-object on the way to it |
| `JsonPatch.MergeIdempotent` | polkadot-sdk/substrate/client/chain-spec/src/json_patch.rs:34-43 | merging a patch twice is merging it once |
| `JsonPatch.MergeIsPatch` | polkadot-sdk/substrate/client/chain-spec/src/json_patch.rs:34-43 | a merge equals the patch if and only if the patch covers every key of the target down to where it replaces |
| `JsonPatch.PatchesCompose` | polkadot-sdk/substrate/client/chain-spec/src/chain_spec.rs:53-60 | two patches in turn equal the merged patch if and only if, wherever the first holds a non-object and base and second hold objects, the second covers the base |
| `JsonPatch.PatchesNeedNotCompose` | polkadot-sdk/substrate/client/chain-spec/src/chain_spec.rs:53-60 | a concrete base and two patches for which they differ |
| `JsonPatch.EvalValueAtKey` | polkadot-sdk/substrate/client/chain-spec/src/chain_spec.rs:720-733 | the recursion that pops its path applies the function to the value at the path, and gives false for an empty path or a missing one |
| `JsonPatch.UpdateCode` | polkadot-sdk/substrate/client/chain-spec/src/chain_spec.rs:752-777 | succeeds if and only if the specification has a code field or a raw storage map, preferring the former |
| `JsonPatch.CodePlaceExactly` | polkadot-sdk/substrate/client/chain-spec/src/chain_spec.rs:752-776 | the code goes to `genesis.runtimeGenesis.code` if that is there, else under `genesis.raw.top` if that is, else nowhere |
| `JsonPatch.CodeUpdateIsLocal` | polkadot-sdk/substrate/client/chain-spec/src/chain_spec.rs:752-777 | an update sets the code's path, changes no unrelated path, and keeps the keys of every object on the way |
| `JsonPatch.RawStorageIsLeftAlone` | polkadot-sdk/substrate/client/chain-spec/src/chain_spec.rs:756-764 | a specification with both places keeps everything under `genesis.raw` |
| `Authorship.MandatoryIsMandatory` | polkadot-sdk/substrate/client/basic-authorship/src/basic_authorship.rs:347-371 | there is no block if and only if a mandatory inherent fails |
| `Authorship.InherentsInOrder` | polkadot-sdk/substrate/client/basic-authorship/src/basic_authorship.rs:347-371 | otherwise the block starts with exactly the applied inherents, in order |
| `Authorship.BodyIsSubsequence` | polkadot-sdk/substrate/client/basic-authorship/src/basic_authorship.rs:400-499 | what follows is a subsequence of the pool in pool order, each applied by the deadline |
| `Authorship.PushedExactly` | polkadot-sdk/substrate/client/basic-authorship/src/basic_authorship.rs:400-460 | pushed are exactly the transactions handed out in time while the loop runs that fit and are applied |
| `Authorship.FittingPushPassesLimit` | polkadot-sdk/substrate/client/basic-authorship/src/basic_authorship.rs:425-461 | a transaction that fits takes the estimate past the limit if and only if the room it leaves is below the growth of the length prefix |
| `Authorship.SizeIsBounded` | polkadot-sdk/substrate/client/basic-authorship/src/basic_authorship.rs:425-461 | without a proof recorder, in every run of the loop that pushes, the estimate is past the limit exactly when the last push left less room than that growth: by at most two bytes, and only at a body length where the prefix grows |
| `Authorship.LimitCanBePassed` | polkadot-sdk/substrate/client/block-builder/src/lib.rs:368-372 | for every 63-extrinsic body a fitting transaction takes the estimate one past the limit |
| `Authorship.PrefixHolds` | polkadot-sdk/substrate/client/block-builder/src/lib.rs:368-372 | the length prefix is that of the compact encoding: one, two, four or five bytes as four times the number fits |
| `Authorship.EverythingFits` | polkadot-sdk/substrate/client/basic-authorship/src/basic_authorship.rs:400-499 | a pool that fits, is applied and handed out in time is taken whole, and the loop ends for want of more |
| `Authorship.EndHasAReason` | polkadot-sdk/substrate/client/basic-authorship/src/basic_authorship.rs:400-499 | the loop ends for a reason, and notes a limit, only after a pass that took place and met it: the deadline, a transaction too large for the room left, or a push refused for want of weight |
| `Authorship.MisfitsAreSkipped` | polkadot-sdk/substrate/client/basic-authorship/src/basic_authorship.rs:425-483 | the first eight transactions that do not fit are skipped, for size or weight |
| `Authorship.NotedIsLastMisfit` | polkadot-sdk/substrate/client/basic-authorship/src/basic_authorship.rs:404-464 | the limit noted is that of the last transaction that did not fit, unless one was pushed since |
| `Authorship.LoopEndsExactly` | polkadot-sdk/substrate/client/basic-authorship/src/basic_authorship.rs:414-483 | the loop ends with a pass if and only if the deadline is behind it, or its transaction is at least the ninth that does not fit and the soft deadline has come; it ends for the limit met, or at the deadline for the one noted or the deadline itself |
| `Authorship.EndIsLastLimit` | polkadot-sdk/substrate/client/basic-authorship/src/basic_authorship.rs:404-411 | a loop that runs out of transactions ends for the limit noted, or for want of more |
| `Authorship.FewLateAttempts` | polkadot-sdk/substrate/client/basic-authorship/src/basic_authorship.rs:425-483 | at most nine over-limit attempts happen at or after the soft deadline |
| `Authorship.ReportsAreEarned` | polkadot-sdk/substrate/client/basic-authorship/src/basic_authorship.rs:484-497 | a reported hash belongs to a transaction whose push failed for another reason than a full block |
| `Authorship.ReportedExactly` | polkadot-sdk/substrate/client/basic-authorship/src/basic_authorship.rs:484-497 | reported are exactly the transactions tried and refused for another reason than a full block |
| `Authorship.ReportsTellWhy` | polkadot-sdk/substrate/client/basic-authorship/src/basic_authorship.rs:484-497 | what is reported is the verdict on the last one refused with that hash, if it was about validity |
| `Authorship.PushedIsNotReported` | polkadot-sdk/substrate/client/basic-authorship/src/basic_authorship.rs:455-497 | with distinct hashes no transaction in the block is reported invalid |
| `Authorship.BlockBuilder.EstimateBlockSize` | polkadot-sdk/substrate/client/block-builder/src/lib.rs:368-372 | the sum of header, length prefix, extrinsics and proof |
| `Authorship.BlockBuilder.ApplyInherents` | polkadot-sdk/substrate/client/basic-authorship/src/basic_authorship.rs:347-371 | the loop refines the specified inherents |
| `Authorship.BlockBuilder.ApplyExtrinsics` | polkadot-sdk/substrate/client/basic-authorship/src/basic_authorship.rs:374-512 | the loop refines the specified passes, end reason and reports included |

## Left out

- ChainRuns.FinalityIsPermanent: runs finalize only blocks on the path of the head; `lib.rs:1556` leaves that to its callers, and `ChainRuns.IndexedExactlyOnPath` says what a block off the path would lack.
- Allocator: the 128-bit sum of allocations is unbounded in the model; log output is not modelled. Arithmetic wraps as in release builds; a debug build panics instead.
- Peers: roles, metrics, the asynchronous channels and the periodic timer; a run takes any sequence of events.
- Database: state storage and tries, block gaps and warp sync, the pruning filters, and blocks imported with an indexed body, whose references pruning does not release.
- Database: the encodings of stored values; a codec is a parameter whose decoder ends after its reads and ignores what follows an encoded value, and reads of no bytes, which always succeed, are no steps of it.
- Database: failing commits, except for the undo of a leaf removal; `parity_db.rs` and the offchain `set` report or log a failed commit, which the model takes to succeed.
- Database: the refusal of counted changes on columns that do not count, in `parity_db.rs`, kvdb column families and raw set and remove changes beside counted ones; the source asserts that they are not mixed on a key.
- BlockPruning: a run imports each block once; importing a pruned block again, which would bring its body back, is not modelled. Which blocks are displaced is any choice of known unfinalized blocks.
- OffchainCas.HistoriesAreLinearizable: the effect of a successful call is recorded at its write; a lost plain write that nobody read before it was overwritten may still fit an order with other points.
- LeavesOfTree: imports that list a block with children, which `LeavesOfTree.ImportAgreesExactly` singles out, end a run.
- LeafSet: removing, and putting back, the leaves that finality displaces; which leaves those are is decided by a walk over all branches that is not part of this model. The database encoding of the set.
- Offchain storage: the concatenation of prefix and key; a key is the concatenated one.
- Gossip: hash collisions, since a message is identified with its hash; metrics and the interval between rebroadcasts.
- JsonPatch: the hex encoding of code, number formats, and `codeSubstitutes`, which is one more merge.
- Authorship: the pool's own reaction to reported transactions; the pool is what its iterator hands out. The wait for the pool, telemetry and the building of the header are not modelled.
- All components: threads and locks, except in `OffchainCas`; each handler is atomic, as the source's locks and single-threaded loops make it.
