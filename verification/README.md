# Lightbringer protocol cores, modelled and proved in Dafny

Lightbringer is a Solana shred relay with a NAT-traversing peer overlay. This project
models its protocol and data-structure cores, the parts that decide without doing I/O,
and proves what they keep over whole runs.

| part | files |
|---|---|
| NAT box of the simulator (mapping, filtering and port allocation rules of sections 4 and 5 of RFC 4787, gateway leases) and the inferences that recover its kind from observations | `NatModel`, `NatInvariants`, `NatEffects`, `NatDevice`, `NatRuns`, `NatLeases`, `NatAllocator`, `NatClassifier`, `NatCalibration` |
| Advert flooding | `GossipTable`, `GossipFlood` |
| Slot reassembly and repair lists | `SlotMeta`, `SlotRuns` |
| Turbine retransmission tree | `TurbineTree`, `TurbineShuffle` |
| Repair statistics, rate limiting, stream and dial-back accounting | `RollingStats`, `RateLimiter`, `RepairStreams`, `RepairCore`, `RepairRuns`, `DialBack` |
| Port-mapping ladder (PCP, section 11 of RFC 6887; NAT-PMP, sections 3.2 and 3.3 of RFC 6886; UPnP) | `PortMapModel`, `PortMapRuns`, `PortMapEffects`, `PortMapper` |
| Alpenglow confirmation stream | `AlpenglowStream`, `AlpenglowRuns` |
| Byte-key indexes | `ByteOrder`, `ShredStore`, `OutstandingTimers` |

`Options`, `Slots`, `Collections` and `Arith` hold an option type, slot numbers, sums and sorted
sequences, and small arithmetic facts.

Where the program works by changing an object, there is a class with the program's fields,
and each of its methods is proved to do what a function on values says and to keep the
invariant proved of that function. The theorems over whole runs are about those functions. What
one call does is said a second time without them, in plain facts about the state before and
after it (`NatEffects`, `PortMapEffects`, and beside the other classes), and the methods promise
that too. Time is a natural number; the clock, random draws, signatures, hashes, parsers, the
transport and what a bounded table evicts are parameters. Integers are unbounded except where a
width matters (ports, slots, nonces, byte keys).

## What turned out not to hold

Each of these is stated with the exact condition under which it does hold.

- The repair limiter calls itself sliding-window. One second may see up to twice the limit
  less one admitted requests; the limit holds for every second only for limits of at most
  one (`RateLimiter.StraddleAdmits`, `RateLimiter.SlidingExactly`).
- The port mapper promises that its deadline is never perpetually past. An answer that
  carries the pinhole's nonce while no v6 socket is configured breaks that for good
  (`PortMapRuns.RunAheadIff`, `PortMapRuns.StuckReached`, `PortMapRuns.StuckForever`). That
  nonce is 96 random bits, and without a v6 socket it is never sent.
- A sequential allocator refuses with ports free, in some run, exactly if its stride shares a
  divisor with the size of the pool (`NatAllocator.SequentialCompleteIffCoprime`).
- `contains` and `remove_slot` see nothing of slot 2^64 - 1 (`OutstandingTimers.RangeExact`),
  and the confirmation stream can emit that slot twice (`AlpenglowRuns.RepeatsIff`,
  `AlpenglowRuns.LastSlotTwice`).
- An IPv4 and an IPv6 repair route can share a key (`OutstandingTimers.SameKeyIff`,
  `OutstandingTimers.SharedKey`).
- A repair answer for a stream that has not asked drops the stream without ending it
  (`RepairStreams.StepKeepsInvIff`, `RepairStreams.RunKeepsInvIff`, `RepairStreams.StrayForgets`).
- A calibration burst that wraps round the port pool can be read as another stride or as
  random; it is read right exactly if it does not wrap or goes round exactly once
  (`NatCalibration.BurstCalibratedIff`, `NatCalibration.WrappedMisread`,
  `NatCalibration.WrappedRandom`).

## Model

| member | source | states |
|---|---|---|
| `NatDevice.NatBox.constructor` | src/overlay/sim/nat.rs:237-249 | A new box holds nothing, its cursor is at the bottom of the pool, and its two indexes agree. |
| `NatDevice.NatBox.Evict` | src/overlay/sim/nat.rs:321-330 | Removes one slot from both indexes and leaves them describing the same slots; no empty list stays in the port index. |
| `NatDevice.NatBox.PortAvailable` | src/overlay/sim/nat.rs:507-542 | Answers whether the port has no live occupant but the one it may be shared with, and drops exactly the expired slots and the expired lease of that port. |
| `NatDevice.NatBox.AllocatePort` | src/overlay/sim/nat.rs:464-502 | Port, cursor and expired entries dropped are those of the abstract allocation: the own port if ports are preserved and nobody else is on it, or else the next free port from the cursor on, the cursor then one stride past it, or the first drawn port that is free and none if none is. |
| `NatDevice.NatBox.FindPin` | src/overlay/sim/nat.rs:334-394 | Finds the lowest port on which the sender holds a live lease, if there is one. |
| `NatDevice.NatBox.Outbound` | src/overlay/sim/nat.rs:334-394 | A datagram of a leased socket shows its lowest leased port and changes nothing; any other refreshes the translation in use, or opens one on the port chosen, or is refused. The port shown leads back to the sender, from anywhere by a lease and else from the destination. Both indexes stay coherent and ports owned. |
| `NatDevice.NatBox.Inbound` | src/overlay/sim/nat.rs:401-462 | The lessee is reached by anyone, another socket exactly by those its contacts let in; each refusal has the reason that fits; what has run out on the port, and nothing else, is dropped; the lookup that would panic on an incoherent index never does. |
| `NatDevice.NatBox.InstallStatic` | src/overlay/sim/nat.rs:255-299 | A lease of the same socket on the requested port is renewed; else the requested port is leased if it can be, or the next pool port that can, counting upwards and round, and none exactly if none can. The lease, new or renewed, runs its whole lifetime and admits anyone; all else alive is as it was. |
| `NatDevice.NatBox.RemoveStatic` | src/overlay/sim/nat.rs:302-308 | The owner's lease is gone, anybody else's is not. |
| `NatDevice.VerdictFits` | src/overlay/sim/nat.rs:416-462 | Because a port has one owner, any verdict the scan over a port's slots can reach is the one verdict, whatever the order of the scan. |
| `NatInvariants.AllocateAllocates` | src/overlay/sim/nat.rs:464-502 | Whatever allocator: an allocated port carries nothing of another socket, and nothing at all unless ports are preserved; only expired entries are lost on the way. |
| `NatInvariants.AllocatesInPool` | src/overlay/sim/nat.rs:464-502 | Neither an allocated port nor the cursor ever leaves the pool. |
| `NatInvariants.LeaseFromLeases` | src/overlay/sim/nat.rs:255-299 | A granted lease lies on a port whose live occupants all belong to the lessee, and nothing else live is lost. |
| `NatInvariants.StepKeepsInv` | src/overlay/sim/nat.rs:255-542 | Every operation keeps all slots and any lease recorded on one external port in the hands of one internal socket. |
| `NatInvariants.RunKeepsInv` | src/overlay/sim/nat.rs:255-542 | That ownership holds in every state of every run. |
| `NatEffects.SameKeyIff` | src/overlay/sim/nat.rs:155-162 | Two destinations share a translation exactly if the mapping rule looks at nothing in which they differ. |
| `NatEffects.AskedMeans` | src/overlay/sim/nat.rs:507-542 | Asking about a port tells whether anybody else is alive on it and drops exactly what has run out there; under a foreign live lease it changes nothing. |
| `NatEffects.AllocateChooses` | src/overlay/sim/nat.rs:464-502 | Which port each allocator takes, and where it leaves the cursor. |
| `NatEffects.OutboundSends` | src/overlay/sim/nat.rs:334-394 | What sending does to every state: lowest live lease and no change; or refresh and one more contact; or a fresh translation with that one contact on the port chosen; or refusal. |
| `NatEffects.SendersAreReached` | src/overlay/sim/nat.rs:334-462 | The port a datagram showed leads back to its sender at once: from anywhere if it left by a lease, and from its destination otherwise. |
| `NatEffects.VerdictJudges` | src/overlay/sim/nat.rs:401-462 | The verdict on an arrival for every state: a live lease decides; else a socket is reached exactly by a live translation whose contacts match the source under the filtering rule; else the reason is filtered, expired or no mapping, as some translation is alive, all have run out, or there is none. |
| `NatEffects.InstallGrants` | src/overlay/sim/nat.rs:255-299 | Which port is granted: an own lease is renewed, else the requested port if it can be leased, else the first pool port from there on, round the pool, and none exactly if no pool port can be. |
| `NatEffects.InstallLeases` | src/overlay/sim/nat.rs:255-299 | A granted lease, new or renewed, lasts until now plus its lifetime on a port that serves nobody else; every other lease and translation alive is kept. |
| `NatEffects.LeaseAdmits` | src/overlay/sim/nat.rs:401-414 | Right after a grant whoever sends to the granted port reaches the lessee. |
| `NatRuns.StepRemembers` | src/overlay/sim/nat.rs:255-542 | No operation takes away a translation that is still within its timeout, nor its contacted destinations. |
| `NatRuns.ReplyGuarantee` | src/overlay/sim/nat.rs:334-462 | If a datagram left by a translation, an answer from its destination within the idle timeout reaches the sender, for every mapping, allocation and filtering rule and whatever happens in between. |
| `NatRuns.RunTracks` | src/overlay/sim/nat.rs:334-462 | In every run the live table entries are exactly the bursts of sends that can be read off the log of departures; arrivals leave no trace. |
| `NatRuns.BurstMembers` | src/overlay/sim/nat.rs:356-394 | The destinations of a burst are those of the departures since which the slot was never silent longer than the timeout. |
| `NatRuns.KeptOpenIsLive` | src/overlay/sim/nat.rs:317-319 | Never silent longer than the timeout until now means: in the current burst, and that burst has not run out. |
| `NatRuns.AdmissionExact` | src/overlay/sim/nat.rs:401-462 | On a port without a live lease, source s reaches socket i exactly if i sent through that port to a destination the filter matches with s, and that slot was never silent longer than the timeout since. |
| `NatRuns.StablePort` | src/overlay/sim/nat.rs:155-162 | Two departures with one mapping key within a timeout show the same external port. |
| `NatRuns.DistinctPorts` | src/overlay/sim/nat.rs:464-502 | Without port preservation, departures of different slots within a timeout show different external ports. |
| `NatLeases.LeaseExact` | src/overlay/sim/nat.rs:255-308 | In every run a live lease stands on a port exactly if the last request granted that port came from that socket for that long, and the socket has not given it back since. |
| `NatLeases.AdmittedExactly` | src/overlay/sim/nat.rs:255-462 | Who is let in, on every port and in every run, from the requests and departures alone: a holder of a lease by anyone; on a port without one, a socket exactly as far as its departures have opened it. |
| `NatLeases.LeaseShown` | src/overlay/sim/nat.rs:334-355 | In every run a socket that holds leases shows the lowest leased port, wherever it sends. |
| `NatAllocator.Bezout` | src/overlay/sim/nat.rs:482-484 | The greatest common divisor of stride and pool size is an integer combination of the two. |
| `NatAllocator.CoprimeReaches` | src/overlay/sim/nat.rs:480-489 | A stride without a common divisor reaches every offset of the pool within one round. |
| `NatAllocator.SharedFactorMisses` | src/overlay/sim/nat.rs:480-489 | A stride with a common divisor never reaches the offset next to its start. |
| `NatAllocator.WalkFails` | src/overlay/sim/nat.rs:480-490 | The sequential walk fails exactly if every port it visits is held. |
| `NatAllocator.WalkFinds` | src/overlay/sim/nat.rs:478-490 | The walk takes the first port that is not held, of those a stride apart from the cursor on. |
| `NatAllocator.PreservingComplete` | src/overlay/sim/nat.rs:464-491 | The preserving allocator fails exactly if every pool port is held by a live mapping or lease and the socket's own port cannot be shared with itself. |
| `NatAllocator.SharedFactorWastes` | src/overlay/sim/nat.rs:474-491 | With a common divisor there is a run after which a socket is refused although a port is free. |
| `NatAllocator.SequentialCompleteIffCoprime` | src/overlay/sim/nat.rs:474-491 | In every run refusals happen only when the pool is full, if and only if stride and pool size have no common divisor. |
| `NatClassifier.Group` | src/overlay/nat.rs:72-78 | The loop groups the reported mappings by observer port, without loss or addition. |
| `NatClassifier.Classify` | src/overlay/nat.rs:60-100 | The procedure decides as the disagreements between observations say, spelled out for each class, and abstains exactly if all observers share one address. |
| `NatClassifier.EndpointIndependentRecovered` | src/overlay/nat.rs:60-100 | Observations of one socket's sends within a timeout through an endpoint-independent box are classified public or endpoint-independent, never worse. |
| `NatClassifier.DstPortNeverSymmetric` | src/overlay/nat.rs:80-83 | A box that keys on the destination port is never called symmetric. |
| `NatClassifier.DstPortRecovered` | src/overlay/nat.rs:85-92 | Without port preservation it is called port-dependent exactly if observers listen on several ports. |
| `NatClassifier.SymmetricRecovered` | src/overlay/nat.rs:80-83 | A box that keys on the destination address, without port preservation, is called symmetric exactly if two observers share a port at different addresses. |
| `NatCalibration.BurstFollowsCursor` | src/overlay/sim/nat.rs:480-489 | A burst to different keys on a sequential box, over ports nothing holds, opens one translation per send at the ports the cursor passes. |
| `NatCalibration.BurstCalibratedIff` | src/overlay/nat.rs:127-152 | The ports of such a burst of at least three sends are calibrated to the stride of the box if and only if the burst does not wrap round the pool, or goes round it exactly once (sends times stride is the size of the pool). |
| `NatCalibration.WrappedMisread` | src/overlay/nat.rs:127-152 | A box on which any burst of three sends wraps and is calibrated to half its stride. |
| `NatCalibration.WrappedRandom` | src/overlay/nat.rs:127-152 | In any pool of more than three ports, three sends of a box that walks by one, starting at the last port, are read as random. |
| `NatCalibration.CalibrateMeans` | src/overlay/nat.rs:127-152 | What each verdict says: preserving exactly if all ports are the own one; none exactly if fewer than three differ; sequential exactly if each port lies the stride below the next larger one. |
| `NatCalibration.PreservingRecovered` | src/overlay/nat.rs:127-133 | A burst of any length on a box that preserves ports is read as preserving, if nobody else holds the socket's own port and it lies in the pool. |
| `GossipTable.BroadcastOnce` | src/overlay/service.rs:960-969 | Each listed connection to a peer that is neither the node itself nor skipped gets exactly one copy, and nobody else any. |
| `GossipTable.Node.Upsert` | src/overlay/gossip.rs:144-165 | Other origins are untouched; what is held afterwards is never older than what was offered or what was live; accepted means newer than anything live, stale means something newer is held, and whatever is not stale is now held and live. |
| `GossipTable.Node.HandleAdvert` | src/overlay/service.rs:940-970 | Own, forged and superseded adverts change nothing, any other is held. Only news is sent on: one copy to each connection, none to the origin, none back to the sender. |
| `GossipTable.Node.Advertise` | src/overlay/service.rs:2705-2735 | Each advert carries the next number, and each connection gets one copy of it and nothing else. |
| `GossipFlood.StepKeepsInv` | src/overlay/service.rs:940-970 | Every step of the network keeps: if u knows number n of an origin, each neighbour is the origin, knows at least n, or has a message with at least n in flight from u. |
| `GossipFlood.ExecutionInv` | src/overlay/service.rs:940-970 | That holds at every moment of every execution, with forged messages injected at will. |
| `GossipFlood.Convergence` | src/overlay/service.rs:940-970 | With no message left, every node reachable from an origin holds exactly the origin's latest advert, or nothing if it issued none. |
| `GossipFlood.OnlyIssuedIsHeld` | src/overlay/service.rs:940-970 | No node ever holds an advert that its origin did not issue, whatever is forged, lost, evicted or expired on the way. |
| `GossipFlood.DeliveryUsesWork` | src/overlay/service.rs:953-969 | Every delivery strictly lowers messages in flight plus degree times what is still to be learnt. |
| `GossipFlood.Termination` | src/overlay/service.rs:953-969 | Between adverts and injections there are no more deliveries than that measure allows. |
| `SlotMeta.SlotMetadata.DrainAllShreds` | src/store/slot_meta.rs:45-47 | Empties all batches and returns exactly their shreds. |
| `SlotMeta.SlotMetadata.MakeComplete` | src/store/slot_meta.rs:368-378 | Hands over the batch together with everything drained. |
| `SlotMeta.SlotMetadata.StoreShred` | src/store/slot_meta.rs:273-366 | New state and result of storing one shred, in all branches: complete slots, retroactive completion, completed sets, duplicates, full sets. |
| `SlotMeta.SlotMetadata.MissingIn` | src/store/slot_meta.rs:54-73 | The mask yields the indexes of one set that are absent, in order, and none for a completed set. |
| `SlotMeta.SlotMetadata.CalculateMissingBounded` | src/store/slot_meta.rs:49-75 | Nothing before the last shred is known; then the missing indexes of all sets in order. |
| `SlotRuns.ExactlyOnce` | src/store/slot_meta.rs:273-366 | For shreds of one block in any order with repeats, the slot is handed over on exactly the arrival that makes the last-shred marker known and every set hold 32 distinct shreds. |
| `SlotRuns.Conservation` | src/store/slot_meta.rs:299-378 | The slot handed over is 32 distinct received shreds of every set, and equals as a multiset all batches stored until then. |
| `SlotRuns.RepairListExact` | src/store/slot_meta.rs:49-75 | Once the last shred is known, the bounded list is exactly the data indexes not received in sets that need shreds, each once. |
| `SlotRuns.MaskInRange` | src/store/slot_meta.rs:65-68 | For a well-formed block the mask is never indexed outside its 32 entries. |
| `SlotRuns.RepairCloses` | src/store/slot_meta.rs:49-75 | Whatever arrives in whatever order, once the listed shreds are among it the slot completes. |
| `SlotRuns.ShortfallStep` | src/store/slot_meta.rs:325-341 | An arrival lowers the total shortfall by one exactly if it is news for a set in need. |
| `SlotRuns.DoneIffNothingShort` | src/store/slot_meta.rs:41-43 | The slot is done exactly if the last shred is known and the shortfall is zero. |
| `SlotRuns.EffectKinds` | src/store/slot_meta.rs:273-366 | What every arrival is answered, told from the history: slot or batch exactly when it has become complete, ignored exactly if it is too late or not news, and incomplete otherwise; a batch is 32 distinct shreds of its set. |
| `SlotRuns.BatchInOrder` | src/store/slot_meta.rs:325-366 | The batch handed over is what was news of the set, in order of arrival, exactly on the arrival that makes the set full. |
| `SlotRuns.MaxIsTracked` | src/store/slot_meta.rs:325-341 | In every history the highest index on record is the highest of the tracked ones, and zero without any. |
| `TurbineTree.ChildIff` | src/overlay/turbine.rs:89-100 | Index c is among the retransmit indexes of i exactly if i is its one parent, given by a closed formula. |
| `TurbineTree.RootChildren` | src/overlay/turbine.rs:89-100 | The children of the root are the indexes from 1 to the fanout. |
| `TurbineTree.FanChildren` | src/overlay/turbine.rs:89-100 | The children of the node at place r behind q whole fans lie at place r of the f fans from fan 1+f*q on. |
| `TurbineTree.ParentSmaller` | src/overlay/turbine.rs:89-100 | The parent of an index is a smaller index. |
| `TurbineTree.ExactlyOnce` | src/overlay/turbine.rs:89-100 | If all n nodes retransmit, every index but the root's is sent to exactly once, for every fanout and length. |
| `TurbineTree.DepthIsLayer` | src/overlay/turbine.rs:89-100 | A node is d hops from the root exactly if its index lies in the d-th layer, from 1+f+...+f^(d-1) to f+...+f^d. |
| `TurbineTree.DepthBound` | src/overlay/turbine.rs:89-100 | Depth is logarithmic: f^(depth-1) is at most the index. |
| `TurbineTree.ReachedIsLayers` | src/overlay/turbine.rs:89-100 | After d rounds exactly the first d layers have been reached. |
| `TurbineShuffle.SortShuffles` | src/overlay/turbine.rs:59-69 | Sorting distinct ascending keys stably by hash orders them by hash, then key. |
| `TurbineShuffle.OneShuffle` | src/overlay/turbine.rs:55-69 | A membership has only one such order. |
| `TurbineShuffle.IndexedTree` | src/overlay/turbine.rs:55-72 | The list is the shuffle of the node and its peers without repeats, and the index is the node's place in it. |
| `TurbineShuffle.HeadFeeds` | src/overlay/turbine.rs:26-34 | The head of the list feeds the next nodes of the list, as many as the fanout. |
| `TurbineShuffle.RetransmitPeers` | src/overlay/turbine.rs:18-34 | With f the configured fanout, zero acting as one: the peers returned are exactly those whose parent under f the node is, at most f, each once and in list order; the head of the list returns the next f nodes. |
| `TurbineShuffle.OriginPeers` | src/overlay/turbine.rs:42-53 | An origin that heads the list feeds the next f nodes, any other hands the shred to the head; with any peer at all the shred leaves. |
| `TurbineShuffle.SameTree` | src/overlay/turbine.rs:55-72 | Nodes that know the same members build the same list, in whatever order and however often they know them. |
| `TurbineShuffle.FedExactlyOnce` | src/overlay/turbine.rs:26-34 | Among such nodes every member but the head is fed by exactly one member, and the head by none. |
| `RollingStats.Grow` | src/overlay/repair.rs:245-252 | The filling branch turns mean and squared deviations of the samples into those of the samples with one more. |
| `RollingStats.Slide` | src/overlay/repair.rs:237-244 | The replacing branch turns them into those of the window without its oldest sample and with the new one. |
| `RollingStats.SpreadFromSums` | src/overlay/repair.rs:236-253 | Squared deviations from any centre follow from the count, the sum and the sum of squares. |
| `RollingStats.Rolling.Push` | src/overlay/repair.rs:236-253 | After every push `mean` is the average and `m2` the sum of squared deviations of the current window; the clamp at zero never acts. |
| `RollingStats.WindowIsNewest` | src/overlay/repair.rs:236-253 | After any sequence of pushes the window is the newest hundred samples, or all of them. |
| `RateLimiter.Limiter.CheckAndIncrement` | src/overlay/repair.rs:437-457 | A request is admitted exactly if fewer than the limit were in a window that opened less than a second ago, and then counted; a refusal is not counted; other peers are untouched unless evicted. |
| `RateLimiter.CheckKeepsBounded` | src/overlay/repair.rs:437-457 | One check keeps the account between a peer's window and its admissions in a given second. |
| `RateLimiter.SecondBound` | src/overlay/repair.rs:437-457 | In every run with a monotone clock, a peer that is not evicted has at most twice the limit less one requests admitted in any one second. |
| `RateLimiter.WindowBound` | src/overlay/repair.rs:437-457 | Since a window opened exactly the counted requests were admitted, never more than the limit. |
| `RateLimiter.StraddleAdmits` | src/overlay/repair.rs:437-457 | A run that reaches the bound, for every limit. |
| `RateLimiter.SlidingExactly` | src/overlay/repair.rs:421-457 | The limit holds for every second of every run if and only if it is at most one. |
| `RepairCore.Core.AskRepair` | src/overlay/service.rs:695-723 | Keeps the books; the connection's stream is tracked for the peer asked, with nothing read or reported and due in three seconds, and otherwise nothing has changed, which happens exactly without a connection or with 1024 streams open. |
| `RepairCore.Core.AnswerLookup` | src/overlay/service.rs:728-755 | The books stay in order exactly if the stream is not one that has yet to ask, in particular whenever the driver was told of the stream; the stream is then ended once. |
| `RepairCore.Core.HandleOpened` | src/overlay/service.rs:800-816 | Keeps the books; the stream is tracked for its peer, with nothing read and due in three seconds, or is reset exactly if 1024 are tracked. |
| `RepairCore.Core.HandleData` | src/overlay/service.rs:817-844 | Keeps the books and all other streams; a tracked stream has gained the bytes exactly within its limit (2048 for ours, 64 for a peer's that has not asked yet), and is otherwise gone with one failure report or reset. |
| `RepairCore.Core.HandleFinished` | src/overlay/service.rs:845-898 | Keeps the books and all other streams; our stream is concluded by one report of what it carried; a peer's asks for one lookup of what it carried exactly if that is a request and admitted, and is reset otherwise. |
| `RepairCore.Core.HandleFailed` | src/overlay/service.rs:899-907 | Keeps the books and all other streams; the stream is in no table, with exactly one failure report if it was ours. |
| `RepairCore.Core.ExpireRepairs` | src/overlay/service.rs:468-493 | Keeps the books; exactly the streams that are due are dropped, ours with one failure report each, the peers' with a reset; all others, and what was reported before, are as they were. |
| `RepairCore.FailSeqIsSet` | src/overlay/service.rs:475-482 | Concluding the expired streams one by one is concluding them all at once, in any order. |
| `RepairStreams.ExpireKeeps` | src/overlay/service.rs:468-493 | Expiry keeps the books of both tables. |
| `RepairStreams.StepKeepsInvIff` | src/overlay/service.rs:695-909 | Every event keeps: each stream is in its table or has exactly one conclusion, and tables and buffers stay bounded; except exactly an answer to a stream that has not asked. |
| `RepairStreams.RunKeepsInv` | src/overlay/service.rs:468-909 | So it is in every run with fresh stream ids in which the driver answers only streams it was told of. |
| `RepairStreams.RunKeepsInvIff` | src/overlay/service.rs:468-909 | With fresh stream ids, the books are in order after a run if and only if none of its answers went to a stream that had not asked. |
| `RepairStreams.ConcludedOnce` | src/overlay/service.rs:468-909 | In every such run from the start, a stream of ours that has left the table has exactly one report, a response or a failure, and a peer's that has left has ended exactly once after at most one lookup. |
| `RepairStreams.StrayForgets` | src/overlay/service.rs:734-739 | A peer opens a stream and the driver answers it unasked: it is gone, neither answered nor reset. |
| `RepairRuns.ReportIsCarried` | src/overlay/service.rs:817-898 | In every proper run a stream of ours has read exactly what was sent on it, and its one report is about the peer asked: a response that all its bytes until it was finished spell, or a failure. |
| `RepairRuns.LookupIsCarried` | src/overlay/service.rs:817-898 | In every proper run a peer's stream is looked up at most once, for the request that all its bytes until it was finished spell. |
| `DialBack.HelperTable.HandleRequest` | src/overlay/service.rs:2456-2508 | Keeps the balance of requests, verdicts, probes and sockets. Told no exactly over the limit, with 64 probes in flight, for a port below 1024 or for want of a socket or probe; else one more probe on its own socket, due in three seconds, to the address the request came from, at the port asked for or else its own. |
| `DialBack.HelperTable.HandleProbe` | src/overlay/service.rs:2513-2524 | Keeps the balance; a probe in flight ends with one verdict, which is yes exactly for the requester's own identity, and its socket is closed. |
| `DialBack.HelperTable.ExpireProbes` | src/overlay/service.rs:2566-2577 | Keeps the balance; exactly the probes that are due are closed, each told no and nobody told yes; the others are as they were. |
| `DialBack.ResolveBalances` | src/overlay/service.rs:2513-2524 | Resolving a probe moves one request from in flight to answered. |
| `DialBack.RunKeepsInv` | src/overlay/service.rs:2456-2577 | Requests, verdicts and probes in flight balance in every run, and sockets are those of the probes. |
| `DialBack.ExactlyOneVerdict` | src/overlay/service.rs:2456-2577 | In every run each authenticated request has exactly one verdict or one probe in flight, and the open sockets number the probes, at most 64. |
| `DialBack.NoReflection` | src/overlay/service.rs:2475-2495 | In every run each address dialled is the source of an authenticated, admitted request, at the unprivileged port it asked for or its own, and there is at most one dial per authenticated request. |
| `PortMapper.Mapper.constructor` | src/overlay/portmap.rs:133-155 | A new mapper is idle and due at once, with a pinhole only if a v6 socket is configured. |
| `PortMapper.Mapper.MappedExternal` | src/overlay/portmap.rs:164-168 | The granted address, and it alone, is offered exactly while its lease lives. |
| `PortMapper.Mapper.Poll` | src/overlay/portmap.rs:187-204 | The deadline is one of the moments that ladder and pinhole wait for, and none of them is earlier. |
| `PortMapper.Mapper.HandleTimer` | src/overlay/portmap.rs:224-308 | Keeps the state sound; where ladder and pinhole go and when they are due next, in numbers; the next deadline lies ahead exactly unless the pinhole is stuck; no expired lease is left; a ladder that is on time does not go back, and at its deadline moves on; nonces are drawn once. |
| `PortMapper.Mapper.HandleDatagram` | src/overlay/portmap.rs:496-650 | Keeps the state sound. The mapping changes exactly if the gateway answers the pending request without refusing, and then to the address, port and seconds of that answer, with the ladder asleep for half of them; likewise the pinhole. A refusal goes on to the next protocol; what cannot be read only counts; strangers change nothing; pinhole and ladder do not touch each other. |
| `PortMapper.Mapper.HandleTcp` | src/overlay/portmap.rs:652-693 | Keeps the state sound; only the connection of the current rung is listened to; each answer leads to the next request or to a minute's rest; only a confirmed request changes the mapping, for an hour; a ladder that is on time does not go back. |
| `PortMapper.Mapper.Finish` | src/overlay/portmap.rs:695-743 | Only the last UPnP answer changes what is mapped, for an hour, to the internal port at the address the gateway gave before; nothing stays buffered. |
| `PortMapper.Mapper.DrivePin` | src/overlay/portmap.rs:747-797 | Leaves ladder, leases and connections alone; with a v6 socket the next moment of the pinhole lies ahead, without one nothing happens. |
| `PortMapRuns.StepKeepsSound` | src/overlay/portmap.rs:224-797 | Every event keeps: UPnP talks only to the gateway over the one open connection and never without an endpoint, nothing is open or buffered otherwise, retransmits, buffer and shortest lease are bounded. |
| `PortMapRuns.RenewalResumes` | src/overlay/portmap.rs:285-302 | After any run a renewal starts on the rung that granted the mapping, for the address it granted. |
| `PortMapRuns.StepClimbs` | src/overlay/portmap.rs:237-283 | No event moves to an earlier rung or gives the ladder more time, and a timer at the deadline always moves on. |
| `PortMapRuns.LadderBound` | src/overlay/portmap.rs:224-308 | With timers run at their deadlines, a ladder or renewal started at t is due by t+28s and idle after the timer at that moment, under any answers. |
| `PortMapRuns.LadderTight` | src/overlay/portmap.rs:224-743 | A run that takes the whole 28 seconds. |
| `PortMapRuns.TimerAheadIff` | src/overlay/portmap.rs:184-204 | Right after the timer has run the next deadline is strictly later, except exactly in a state with a pinhole due and no v6 socket. |
| `PortMapRuns.RunAheadIff` | src/overlay/portmap.rs:184-204 | After a run every timer leaves the next deadline ahead if and only if a v6 socket is configured or no pinhole answer arrived in the run. |
| `PortMapRuns.AnswerSticks` | src/overlay/portmap.rs:501-509 | Without a v6 socket one answer with the pinhole's nonce leads there, whatever state it finds. |
| `PortMapRuns.StuckForever` | src/overlay/portmap.rs:747-750 | From there every timer leaves the deadline in the past. |
| `PortMapRuns.StuckReached` | src/overlay/portmap.rs:501-509 | A run that gets there: the first timer binds the socket, and the gateway answers with the nonce of the pinhole. |
| `PortMapRuns.TimerWithdraws` | src/overlay/portmap.rs:224-235 | The timer withdraws exactly the leases that have expired. |
| `PortMapRuns.FinishGrants` | src/overlay/portmap.rs:728-738 | A UPnP answer changes the mapping only if it confirms the request, and then for an hour to the internal port at the address given before. |
| `PortMapEffects.DatagramMaps` | src/overlay/portmap.rs:535-628 | The mapping changes exactly if the gateway grants it, to the protocol, address, port and seconds of its answer. |
| `PortMapEffects.DatagramPins` | src/overlay/portmap.rs:557-576 | An answer with the nonce of the pinhole grants what it says for as long as it says, or, refused, lets the pinhole rest for a minute; no other datagram touches it. |
| `PortMapEffects.DatagramMoves` | src/overlay/portmap.rs:496-650 | Where every datagram leads the ladder: a refusal to the next protocol, an external address to the mapping request, a description address to a connection, the unreadable nowhere. |
| `PortMapEffects.TcpSpeaks` | src/overlay/portmap.rs:652-743 | What each answer on the connection leads to, with its deadline: more to read, the next request, the mapping for an hour, or a minute's rest. |
| `PortMapEffects.TimerTicks` | src/overlay/portmap.rs:237-310 | Where an overdue rung leads: one retransmit, then the next protocol, each due in two seconds; from the last one, and from any connection, to a minute's rest with nothing open. |
| `PortMapEffects.TimerStarts` | src/overlay/portmap.rs:285-302 | A ladder that is due starts over PCP, or renews with the protocol and for the address of a lease that still lives; without a socket or connection it rests for a minute. |
| `PortMapEffects.TimerPins` | src/overlay/portmap.rs:747-797 | The pinhole request is sent twice, two seconds apart, and then rests for a minute; without a socket it rests at once. |
| `PortMapEffects.TimerBinds` | src/overlay/portmap.rs:206-222 | The two nonces are those drawn when the socket is bound, and are then kept. |
| `PortMapEffects.MappedExact` | src/overlay/portmap.rs:224-743 | After every run the mapping is exactly the last one that an event granted (an unrefused answer of the gateway to the pending request, or the page that confirms it), unless a timer has come after its lease. |
| `PortMapEffects.SilentLadder` | src/overlay/portmap.rs:224-310 | Without any answer PCP, NAT-PMP and SSDP are each asked twice, two seconds apart, and the ladder gives up after twelve seconds for a minute. |
| `AlpenglowStream.Stream.PopReady` | src/block_conf/alpenglow.rs:134-155 | Emits the due slot, the least one at the start or when more than 32 are held, and otherwise nothing; the slot after the emitted one is due next. |
| `AlpenglowStream.Stream.PromoteFinalized` | src/block_conf/alpenglow.rs:97-124 | Visits the finalizations in the given order: past ones are dropped, matched ones become pending. |
| `AlpenglowStream.PromoteMeans` | src/block_conf/alpenglow.rs:97-124 | In whatever order: a visited block is no candidate any more, is pending exactly if it was one and is not past, and stays finalized exactly if neither; nothing else becomes pending. |
| `AlpenglowStream.Stream.Receive` | src/block_conf/alpenglow.rs:52-93 | The block becomes a candidate and its certificates count, but for what is evicted; then what is finalized is promoted. An unreadable block changes nothing. |
| `AlpenglowStream.Stream.Next` | src/block_conf/alpenglow.rs:46-95 | Takes arrivals until a confirmation is ready; with none it has used up the channel. |
| `AlpenglowRuns.NextIsPlayed` | src/block_conf/alpenglow.rs:46-95 | A run starts with what the next call returns. |
| `AlpenglowRuns.EmitsInOrder` | src/block_conf/alpenglow.rs:46-155 | In every run emitted slots increase strictly below the last slot, a slot is skipped only while more than 32 blocks are held, and when the stream waits at most 32 are held and the due one is not among them. |
| `AlpenglowRuns.EmitsGenuine` | src/block_conf/alpenglow.rs:46-124 | Every emitted block was received with that block id and certified. |
| `AlpenglowRuns.NothingStuck` | src/block_conf/alpenglow.rs:97-124 | Without evictions or rival certificates, every block both received and certified is waiting to be emitted or already passed. |
| `AlpenglowRuns.RepeatsIff` | src/block_conf/alpenglow.rs:97-155 | Whatever else is remembered, after a slot has been emitted a certified candidate of that slot makes the slot due again exactly if it is the last one. |
| `AlpenglowRuns.LastSlotTwice` | src/block_conf/alpenglow.rs:152-154 | A run of two arrivals that emits the last slot twice. |
| `ByteOrder.LessIsLess` | src/store/shred.rs:27-35 | Byte strings of one length are ordered as the numbers they spell. |
| `ByteOrder.BigEndianRoundTrip` | src/store/shred.rs:30-40 | Big-endian bytes give their number back. |
| `ShredStore.KeyOrder` | src/store/shred.rs:27-35 | Keys are ordered by slot, then index, and differ for different places. |
| `ShredStore.KeyTellsSlot` | src/store/shred.rs:37-40 | The slot is recovered from a key. |
| `ShredStore.Store.StoreBatch` | src/store/shred.rs:200-207 | The data shreds of the list, which is the batch after recovery, and only those, enter the plain map under their slot and index, later ones over earlier ones; all else is as it was. |
| `ShredStore.Store.Get` | src/store/shred.rs:216-221 | Lookup as in the plain map; an index beyond 32 bits finds nothing. |
| `ShredStore.Store.GetHighestFrom` | src/store/shred.rs:224-238 | The last key of the range is the highest stored index of the slot at or above the minimum, and nothing means there is none. |
| `ShredStore.Store.GetSlotShreds` | src/store/shred.rs:255-265 | The prefix scan returns all shreds of the slot and no others, by ascending index. |
| `ShredStore.Store.Cleanup` | src/store/shred.rs:141-159 | The last key tells the newest slot; what is more than 72000 slots older is dropped, all else kept. |
| `OutstandingTimers.BuildKey` | src/repair/outstanding_timers.rs:32-61 | The array filled in place holds the slot with its high byte first, the nonce with its low byte first, a tag, and the identity or the address and port, at their offsets, and zeros elsewhere. |
| `OutstandingTimers.SameKeyIff` | src/repair/outstanding_timers.rs:32-61 | Two requests share a key exactly if slot, nonce and route agree, up to an IPv4 address and the IPv6 address that pads it with zeros. |
| `OutstandingTimers.SharedKey` | src/repair/outstanding_timers.rs:40-54 | For every IPv4 route there is an IPv6 route with the same key. |
| `OutstandingTimers.RangeExact` | src/repair/outstanding_timers.rs:121-127 | A key lies in a slot's range exactly if it is of that slot and the slot is not the last one. |
| `OutstandingTimers.TimerStore.Insert` | src/repair/outstanding_timers.rs:93-104 | The request stands under its own key. |
| `OutstandingTimers.TimerStore.Remove` | src/repair/outstanding_timers.rs:108-119 | Removes the request under that key and returns it, if there is one; it is of that slot and nonce. |
| `OutstandingTimers.TimerStore.Contains` | src/repair/outstanding_timers.rs:121-127 | True exactly if the slot is not the last one and has an outstanding request. |
| `OutstandingTimers.TimerStore.RemoveSlot` | src/repair/outstanding_timers.rs:129-138 | Drops exactly that slot's requests, and none for the last slot. |

## Left out

- Statistics counters of the NAT box, hairpinning, the firewall box and the presets: counters and small pure code.
- NatCalibration.BurstCalibratedIff: says nothing of bursts that meet held ports, whose ports need not be evenly spaced.
- 64-bit overflow of times in nanoseconds, which the model's unbounded clock cannot show.
- The random allocator draws from a list of ports given with each call; how likely a draw is to succeed is not modelled.
- Eviction from the gossip table and from the caches of seen shreds; eviction from the limiter's, the candidate and the finalization tables is a parameter.
- GossipFlood.Convergence: adverts do not expire while the flood runs, because an entry that expires can be replaced by an older advert still in flight, and delivery is reliable.
- Turbine coverage when nodes know different peers, which happens because a retransmitter leaves the sender out of its own list.
- The list of missing shreds before the last shred is known, which asks again for sets completed by coding shreds alone.
- Slot reassembly for shreds that do not form one block (set index not a multiple of 32, data index outside its set, last flag outside the last set): the program does not check these and the results assume them.
- Rounding in the latency statistics, and the score computed from them with an exponential and a square root.
- Selection of repair peers and the table of peer scores.
- The bounded queue of core events, which drops the oldest event when it is full: events are counted as produced.
- The requester's side of dial-back, and delivery of its results.
- Wire formats: PCP, NAT-PMP, SSDP, HTTP and repair messages are read by parsers that are parameters; requests sent are not recorded beyond the phase that awaits their answer.
- Certificate verification, Reed-Solomon recovery, block ids and signatures, which are inputs.
- The ordered maps themselves (B-tree and LSM tree): a range query is taken to return the keys of the range in order.
- OutstandingTimers.TimerStore: the timers behind the entries are not modelled, nor the loop that resends a request when one fires.
- Hole punching, v6 probing, the transport and all drivers.
