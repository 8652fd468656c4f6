# EHDB: event chains, change feed and parts, verified

EHDB is an event store. Executions append events that name their predecessor; the events
are kept as chains in memory and on a key-value substrate, and a populator rebuilds those
chains from an ordered log and decides when they may be served in place of it. Records
reach workers through a change feed with consumer groups, leases, epoch fencing and a
pipelined publish protocol. On disk they live in checksummed frames, line journals,
columnar parts, sparse indexes and blooms.

This project models those parts in Dafny and proves what they promise, over every input,
every interleaving and every point at which a process may die. Code that changes state is
modelled by classes and methods with loops, each proved against a specification function;
the theorems are about those functions, and about runs of them as state machines.

| file | what it holds |
|---|---|
| `LinkOrder.dfy` | the order of a log by its predecessor links |
| `Chain.dfy`, `KeyLayout.dfy`, `DurableChain.dfy`, `ChainMirror.dfy` | chains in memory, their key layout, chains on the substrate, and the two compared |
| `Populator.dfy` | building a chain from log snapshots, with a crash after any write |
| `Subjects.dfy`, `Groups.dfy`, `GroupRuns.dfy`, `ConsumerGroup.dfy`, `Leases.dfy` | subject routing, the consumer group, its runs with restarts, its imperative form, leases |
| `Claims.dfy`, `Fence.dfy`, `Seal.dfy`, `Publish.dfy`, `ChunkedFold.dfy` | concurrency protocols as state machines |
| `Bytes.dfy`, `Crc.dfy`, `Frame.dfy`, `FrameReader.dfy`, `Journal.dfy` | bytes, CRC-32, part frames, feed frames, the line journal |
| `Columnar.dfy`, `Bloom.dfy`, `Catalog.dfy`, `ChainCert.dfy` | columnar parts, blooms, the pruned indexed read, chain certificates |
| `Hlc.dfy` | the hybrid logical clock |
| `Basics.dfy`, `OrderedKeys.dfy`, `Walks.dfy`, `Loops.dfy` | shared vocabulary, sorting, ordered key sets, following links, loops that may stop early |

## How the modelling is done

- A crash is a budget of substrate writes: when it runs out every further write fails, so a
  statement for all budgets is a statement for every crash point.
- A concurrent protocol is a state and a step function; a run is any sequence of enabled steps.
- `u64` values are natural numbers with the bound, the wrap-around or the saturation written
  out where the code depends on it.
- Clocks, routing functions, hash functions, the JSON and base64 codecs and the UTF-8 test are
  parameters. Where a proof needs more of one than that it is a function, its contract says so.

## Where the code differs from its documentation

Each is modelled as the code has it, shown on a concrete or general input, and followed by
the exact condition under which the documented property does hold.

- The coverage record of a chain is documented never to shrink. It does, exactly when an empty
  snapshot follows a non-empty coverage and both its writes land (`Populator.CoverageShrinksIff`,
  `Populator.EmptySnapshotResurfaces`).
- A divergence is reported even when the delete that revokes trust was lost; the partition is then
  still served (`Populator.DivergedRevokesIff`, `Populator.DivergedAndServed`).
- An append may take the id that a replicated event is waiting for. If the walk from the head was
  waiting for it, that closes a cycle and the head walk no longer ends (`Chain.AppendWalkEndsIff`,
  `Chain.TwoCallsCloseACycle`).
- The durable chain checks neither ids nor forks of replicated events
  (`ChainMirror.ApplyMirrorsIff`).
- Two executions share a key if and only if one's id lies inside the events of the other
  (`KeyLayout.SlashCollides`, `KeyLayout.ShareAKeyIff`).
- A cursor clamped to a shortened log can still step over new records after a second restart
  (`GroupRuns.ClampedRestartExposes`). Runs skip nothing while each append is above the persisted
  cursor, and either condition of `GroupRuns.RunSkipsNothing` dropped skips a record
  (`GroupRuns.UnsoundAppendSkips`, `GroupRuns.UnsoundRestartSkips`).
- A claim dropped after it received its record and before it recorded the lease leaves that record
  waiting for its whole deadline although its connection is gone (`Claims.DroppedClaimStrands`,
  `Claims.DropStrandsIff`); in every run without that step no disconnect strands a record
  (`Claims.NoDisconnectStrands`).
- A fence token changed between check and confirm can be confirmed although it was never accepted,
  above the high-water mark and also at it (`Fence.ChangedTokenIff`, `Fence.ChangedTokenGoesBack`,
  `Fence.MarkWithoutAcceptance`).
- A hybrid clock reading is not above the last one once a wall clock passes 48 bits, or at the
  largest stamp
  (`Hlc.AdvancesIff`, `Hlc.LimitsAreMet`).
- A chain certificate pins the bytes of each chunk but not where one record ends, and the verdict
  "stale but prefix" looks at lengths only (`ChainCert.BoundariesAreNotPinned`,
  `ChainCert.EqualDigestsPinBytes`, `ChainCert.StaleIsNotAlwaysPrefix`,
  `ChainCert.DigestAtStoredLengthSettles`).

## Model

| member | source | states |
|---|---|---|
| `LinkOrder.OrderByLinks` | crates/ehdb-l0/src/chain_populator.rs:217-294 | the verdict is justified by the links (a dangling link, no root, every root, a fork with two successors, an unreachable remainder, or a permutation that is a single chain), and whenever the events form one chain the verdict is that chain's order |
| `LinkOrder.IndexIds` | crates/ehdb-l0/src/chain_populator.rs:224-228 | the id index holds exactly the ids present, each at an event with that id |
| `LinkOrder.IndexLinks` | crates/ehdb-l0/src/chain_populator.rs:230-245 | either the first dangling link, or all links resolve and roots and successors are exactly those of the events |
| `LinkOrder.Walk` | crates/ehdb-l0/src/chain_populator.rs:270-285 | the walk from the sole root follows successors and stops at an end, or after more steps than there are events |
| `LinkOrder.OrderLinked` | crates/ehdb-l0/src/chain_populator.rs:250-294 | with all links resolved, the remaining verdicts are justified |
| `LinkOrder.VerdictKindUnique` | crates/ehdb-l0/src/chain_populator.rs:155-182 | the six outcomes exclude each other, and an order or a list of roots is unique |
| `LinkOrder.ChainOrderUnique` | crates/ehdb-l0/src/chain_populator.rs:207-294 | a set of events has at most one chain order |
| `LinkOrder.OrderIgnoresPresentation` | crates/ehdb-l0/src/chain_populator.rs:207-294 | presenting the same events in another order yields the same event sequence |
| `Chain.ChainStore.Append` | crates/ehdb-l0/src/chain.rs:221-266 | the result and new partition are those of the specification (blank ids, fork, wrong head, next sequence), other executions unchanged |
| `Chain.ChainStore.ApplyReplicated` | crates/ehdb-l0/src/chain.rs:289-324 | identical redelivery accepted, a different event under a held id is a fork, the head moves only forward, other executions unchanged |
| `Chain.ChainStore.Get` | crates/ehdb-l0/src/chain.rs:328-332 | lookup by id within the execution only |
| `Chain.ChainStore.ParentOf` | crates/ehdb-l0/src/chain.rs:343-357 | nothing only at a root; a missing predecessor is an error that names it |
| `Chain.ChainStore.ChainOf` | crates/ehdb-l0/src/chain.rs:361-366 | the held events in ascending sequence |
| `Chain.ChainStore.WalkFromHead` | crates/ehdb-l0/src/chain.rs:373-398 | head to root along predecessors, or the gap, on every partition where the loop ends |
| `Chain.ChainStore.ChainIsComplete` | crates/ehdb-l0/src/chain.rs:406-420 | complete as specified, on every partition where the walk ends; a gap on the walk is `false`, not an error |
| `Chain.AppendKeepsShape` | crates/ehdb-l0/src/chain.rs:221-266 | appends keep the indexes of a partition consistent |
| `Chain.AppendKeepsLinksIff` | crates/ehdb-l0/src/chain.rs:221-266 | after a successful append all links still descend if and only if no replicated event awaits its id |
| `Chain.AppendWalkEndsIff` | crates/ehdb-l0/src/chain.rs:221-266 | after a successful append the head walk ends if and only if the walk before it did not stop for want of the appended id |
| `Chain.TwoCallsCloseACycle` | crates/ehdb-l0/src/chain.rs:221-324 | one replicated event and one append after which the head walk does not end |
| `Chain.ApplyOne` | crates/ehdb-l0/src/chain.rs:289-324 | one delivery of a path event, new or repeated, is accepted and adds exactly that event |
| `Chain.ReplicationIsOrderFree` | crates/ehdb-l0/src/chain.rs:279-324 | deliveries of path events in any order, repeated or with omissions, never fork and hold exactly what was delivered |
| `Chain.ReplicaUnique` | crates/ehdb-l0/src/chain.rs:279-324 | the set of held events determines the partition |
| `Chain.ReplicaShape` | crates/ehdb-l0/src/chain.rs:279-324 | a replica of a path is consistent and its links descend |
| `Chain.SameEventsSameReplica` | crates/ehdb-l0/src/chain.rs:279-324 | two deliveries of the same events leave equal partitions |
| `Chain.WalkReachesRoot` | crates/ehdb-l0/src/chain.rs:373-398 | with nothing missing the walk lists the path backwards |
| `Chain.WalkNamesGap` | crates/ehdb-l0/src/chain.rs:373-398 | otherwise it names the highest missing event |
| `Chain.CompleteIffNoGap` | crates/ehdb-l0/src/chain.rs:406-420 | complete if and only if no sequence up to the highest held is missing |
| `KeyLayout.PaddedOrder` | crates/ehdb-l0/src/chain_store_durable.rs:43-46 | zero-padded sequence texts sort as the numbers, for every pair of 64-bit numbers |
| `KeyLayout.SeqKeyOrder` | crates/ehdb-l0/src/chain_store_durable.rs:43-50 | pointer keys are injective, ordered as their sequences, and under the pointer prefix |
| `KeyLayout.EvKeyInjective` | crates/ehdb-l0/src/chain_store_durable.rs:39-41 | event keys of one execution are injective |
| `KeyLayout.FamiliesDisjoint` | crates/ehdb-l0/src/chain_store_durable.rs:39-54 | the five key families of an execution never collide |
| `KeyLayout.ExecutionsDisjoint` | crates/ehdb-l0/src/chain_store_durable.rs:39-54 | executions whose ids hold no slash share no key, whatever the keys' tails |
| `KeyLayout.ShareAKeyIff` | crates/ehdb-l0/src/chain_store_durable.rs:39-54 | over the five families, two executions share a key if and only if one's id lies inside the events of the other |
| `KeyLayout.SlashCollides` | crates/ehdb-l0/src/chain_populator.rs:88-90 | with a slash two executions can share a key |
| `KeyLayout.RecordsRoundTrip` | crates/ehdb-l0/src/chain_populator.rs:412-437 | head, watermark and coverage texts read back as written, whatever the ids contain |
| `DurableChain.Substrate.PutIfAbsent` | crates/ehdb-l0/src/chain_store_durable.rs:171-197 | the substrate's conditional write: existing key, failed write, or written |
| `DurableChain.Substrate.ListPrefix` | crates/ehdb-l0/src/chain_store_durable.rs:206-219 | every key under the prefix once, in no particular order |
| `DurableChain.DurableChainStore.Get` | crates/ehdb-l0/src/chain_store_durable.rs:70-82 | the event stored under an id |
| `DurableChain.DurableChainStore.HeadEntry` | crates/ehdb-l0/src/chain_store_durable.rs:113-127 | the persisted head, parsed from its text |
| `DurableChain.DurableChainStore.NextSequence` | crates/ehdb-l0/src/chain_store_durable.rs:143-159 | blank ids, then a head other than the named predecessor, are refused; else one above the head's sequence |
| `DurableChain.DurableChainStore.Append` | crates/ehdb-l0/src/chain_store_durable.rs:135-202 | the three writes in order, cut off after any of them: the disk is the one specified and only this execution's keys change |
| `DurableChain.DurableChainStore.ApplyReplicated` | crates/ehdb-l0/src/chain_store_durable.rs:268-294 | the same for the follower path |
| `DurableChain.DurableChainStore.ChainOf` | crates/ehdb-l0/src/chain_store_durable.rs:206-219 | listing, sorting key texts and fetching gives the events by ascending sequence |
| `DurableChain.DurableChainStore.ParentOf` | crates/ehdb-l0/src/chain_store_durable.rs:88-103 | as in memory, an error naming the missing predecessor |
| `DurableChain.DurableChainStore.WalkFromHead` | crates/ehdb-l0/src/chain_store_durable.rs:222-250 | head to root on the disk, or the gap, on every disk where the loop ends |
| `DurableChain.DurableChainStore.ChainIsComplete` | crates/ehdb-l0/src/chain_store_durable.rs:253-265 | completeness on every disk where the walk ends |
| `DurableChain.SortedListing` | crates/ehdb-l0/src/chain_store_durable.rs:206-219 | whatever order the substrate lists keys in, sorting their texts gives ascending sequences |
| `DurableChain.RepOtherExecution` | crates/ehdb-l0/src/chain_store_durable.rs:39-54 | writes of one execution are invisible to every other |
| `ChainMirror.AppendMirrors` | crates/ehdb-l0/src/chain_store_durable.rs:135-202 | memory and disk answer any append alike and stay alike |
| `ChainMirror.ApplyMirrorsIff` | crates/ehdb-l0/src/chain_store_durable.rs:268-294 | a replicated event is answered alike and leaves both alike if and only if it is not conflicting |
| `ChainMirror.ConflictShows` | crates/ehdb-l0/src/chain_store_durable.rs:268-294 | on a conflicting event the disk says yes while memory refuses or ends up different |
| `ChainMirror.ChainMirrors` | crates/ehdb-l0/src/chain_store_durable.rs:206-219 | the ordered chain reads the same from both |
| `ChainMirror.ReadsMirror` | crates/ehdb-l0/src/chain_store_durable.rs:206-265 | the chain reads the same from both; the head walk ends on both or on neither, and where it ends walk and completeness agree |
| `ChainMirror.DurableSimulatesMemory` | crates/ehdb-l0/src/chain_store_durable.rs:57-294 | any crash-free mix of appends and non-conflicting replication is answered identically, and afterwards every read agrees, including whether the head walk ends |
| `Populator.ChainPopulator.Authority` | crates/ehdb-l0/src/chain_populator.rs:412-430 | the watermark on disk, parsed |
| `Populator.ChainPopulator.Coverage` | crates/ehdb-l0/src/chain_populator.rs:561-575 | the coverage record on disk, parsed |
| `Populator.ChainPopulator.WriteWatermark` | crates/ehdb-l0/src/chain_populator.rs:432-437 | one overwrite, which may be the one that fails |
| `Populator.ChainPopulator.WriteCoverage` | crates/ehdb-l0/src/chain_populator.rs:588-597 | an older observation of the same root is dropped, otherwise one overwrite, which may be the one that fails |
| `Populator.ChainPopulator.ComparePrefix` | crates/ehdb-l0/src/chain_populator.rs:640-687 | the least position at which stored and given ids differ; a stale snapshot only if they agree wherever both have one and the store is longer; nothing if the store is a prefix |
| `Populator.ChainPopulator.ExtendFrom` | crates/ehdb-l0/src/chain_populator.rs:697-714 | appends the missing events in order until a write fails |
| `Populator.ChainPopulator.PopulateFromLog` | crates/ehdb-l0/src/chain_populator.rs:620-724 | result and disk are those specified for every snapshot and every crash point, other executions untouched; the report is the one the two id sequences call for, and a reported conflict whose delete landed leaves the partition unserved |
| `Populator.ChainPopulator.ChainIfAuthoritative` | crates/ehdb-l0/src/chain_populator.rs:732-804 | serves the chain exactly under the specified guards |
| `Populator.ChainIsLogPrefix` | crates/ehdb-l0/src/chain_populator.rs:620-724 | a disk that stores the log's first n events reads back as exactly those |
| `Populator.AppendKeeps` | crates/ehdb-l0/src/chain_populator.rs:697-714 | an append of the next log event cut off after any write leaves a consistent disk |
| `Populator.ExtendKeeps` | crates/ehdb-l0/src/chain_populator.rs:697-714 | so does the whole extension loop |
| `Populator.NeverConflicts` | crates/ehdb-l0/src/chain_populator.rs:640-687 | on a consistent disk a snapshot never conflicts; it is at most stale |
| `Populator.PopulateKeeps` | crates/ehdb-l0/src/chain_populator.rs:620-724 | one call on any snapshot, cut off anywhere, keeps the disk consistent, never diverges, never lowers non-empty coverage |
| `Populator.RunKeeps` | crates/ehdb-l0/src/chain_populator.rs:620-724 | so does any sequence of calls |
| `Populator.BlankConsistent` | crates/ehdb-l0/src/chain_populator.rs:404-410 | an untouched partition is consistent with every log |
| `Populator.ServedIsLogPrefix` | crates/ehdb-l0/src/chain_populator.rs:732-804 | whatever the run and its crashes, a served chain is exactly the log's first events at the recorded coverage length |
| `Populator.NeverServesLess` | crates/ehdb-l0/src/chain_populator.rs:689-724 | after the first write for a non-empty snapshot no later read serves less, while no empty snapshot follows |
| `Populator.CoverageShrinksIff` | crates/ehdb-l0/src/chain_populator.rs:579-597 | coverage shrinks if and only if an empty snapshot follows a non-empty coverage and both its writes land |
| `Populator.EmptySnapshotResurfaces` | crates/ehdb-l0/src/chain_populator.rs:620-635 | a run in which an empty chain is then served as authoritative |
| `Populator.UninterruptedServes` | crates/ehdb-l0/src/chain_populator.rs:620-724 | a call that is not cut off reports what it appended and the whole snapshot is then served |
| `Populator.DivergedRevokesIff` | crates/ehdb-l0/src/chain_populator.rs:640-668 | a reported divergence names a real conflict and leaves the chain alone; the partition is served afterwards if and only if it was before and the delete was lost |
| `Populator.PopulateReports` | crates/ehdb-l0/src/chain_populator.rs:620-724 | a call on a non-empty snapshot reports a divergence at `i` if and only if `i` is the least position inside both where the ids differ, a stale snapshot if and only if the ids agree there and the store is longer, and then writes nothing |
| `Populator.ConflictUnserves` | crates/ehdb-l0/src/chain_populator.rs:640-668 | a call on any snapshot that conflicts anywhere with the stored chain changes nothing but the coverage record, and the partition is served afterwards if and only if it was before and the call's one write was lost |
| `Populator.ServesWholeOrNothing` | crates/ehdb-l0/src/chain_populator.rs:732-804 | on any disk the guarded read returns the whole chain or nothing, and the chain if and only if the watermark stands at the head and the coverage record has its root and its length |
| `Populator.ServedIff` | crates/ehdb-l0/src/chain_populator.rs:732-804 | a reachable partition is served if and only if watermark and head agree and the coverage has the stored length, and then as the log's prefix of that length |
| `Populator.CutOffServesIff` | crates/ehdb-l0/src/chain_populator.rs:689-766 | a call that wrote something and died before its watermark leaves the partition served if and only if all events are in and the old watermark happens to stand where the head was left |
| `Populator.RevokedStaysUnserved` | crates/ehdb-l0/src/chain_populator.rs:732-804 | a revoked partition is not served after any further run on that log |
| `Populator.DivergedStaysUnserved` | crates/ehdb-l0/src/chain_populator.rs:640-804 | after a divergence whose delete landed no further run on that log makes the partition served |
| `Populator.DivergedAndServed` | crates/ehdb-l0/src/chain_populator.rs:640-668 | a chain reported as diverged, its delete lost, and served |
| `Subjects.DoesMatch` | crates/ehdb-feed/src/subject.rs:97-117 | the token loop decides the matching relation |
| `Subjects.AllMatches` | crates/ehdb-feed/src/subject.rs:86-89 | the tail wildcard alone takes every subject that has a token |
| `Subjects.LiteralHeld` | crates/ehdb-feed/src/subject.rs:97-117 | a literal token of a matching filter stands at its position in the subject |
| `Subjects.LiteralsIsolate` | crates/ehdb-feed/src/subject.rs:92-117 | filters differing in a literal at one position share no subject |
| `Subjects.LiteralMatchesItself` | crates/ehdb-feed/src/subject.rs:92-117 | a filter without wildcards matches its own subject and no other |
| `Subjects.StarTakesAnyToken` | crates/ehdb-feed/src/subject.rs:92-117 | what stands at the place of a `*` makes no difference |
| `Subjects.StarsMatch` | crates/ehdb-feed/src/subject.rs:92-117 | a filter of stars matches exactly the subjects of as many tokens |
| `Groups.BatchIsInterval` | crates/ehdb-l0/src/feed.rs:121-131 | a batch is everything in the log between the cursor and the batch's last key |
| `Groups.BoundKept` | crates/ehdb-feed/src/group.rs:463-582 | polls by any filter, acks and forced expiries keep the expiry bound below every in-flight deadline |
| `Groups.FastPathRefinesScan` | crates/ehdb-feed/src/group.rs:463-546 | skipping the scan below the bound returns the same delivery and the same group as always scanning |
| `Groups.FastRunRefinesScanRun` | crates/ehdb-feed/src/group.rs:463-582 | over any run of polls, acks and expiries the two deliver alike |
| `Groups.RetryShrinksDue` | crates/ehdb-feed/src/group.rs:463-546 | a poll while a retry is due hands out the least due key and takes it off the due set |
| `Groups.DrainsRetriesInOrder` | crates/ehdb-feed/src/group.rs:463-546 | polling at one instant hands out every due record once, ascending, before anything fresh |
| `Groups.DeliveryMatches` | crates/ehdb-feed/src/group.rs:463-546 | every delivery matches the filter, is recorded in flight, and is a redelivery if and only if a retry was due |
| `Groups.DeliversIff` | crates/ehdb-feed/src/group.rs:463-546 | a poll delivers if and only if a record in flight is due or a queued one matches; with nothing due it delivers the first that matches and takes it from the queue |
| `Groups.ScansOnce` | crates/ehdb-feed/src/group.rs:474-502 | a poll that finds nothing expired lifts the expiry bound past its time, so the next one at that time does not scan |
| `GroupRuns.FreshTracks` | crates/ehdb-feed/src/group.rs:329-347 | a new group accounts for every record past its start |
| `GroupRuns.PullTracks` | crates/ehdb-feed/src/group.rs:354-362 | a refill keeps every pulled record in exactly one of pending, in flight, acked |
| `GroupRuns.AssignTracks` | crates/ehdb-feed/src/group.rs:463-546 | so does an assignment, which leaves the open keys and the frontier alone |
| `GroupRuns.AckTracks` | crates/ehdb-feed/src/group.rs:550-552 | so does an ack, which closes exactly an in-flight key |
| `GroupRuns.ExpireTracks` | crates/ehdb-feed/src/group.rs:572-582 | so does a forced expiry |
| `GroupRuns.AssignDelivers` | crates/ehdb-feed/src/group.rs:463-546 | told over log, acks and flights: an overdue record goes first, the least such, else the least unassigned one; nothing is delivered only if there is neither; exactly what is delivered goes in flight, for the full wait |
| `GroupRuns.PollDelivers` | crates/ehdb-feed/src/group.rs:354-546 | the same for a whole poll, over what the log holds up to the cursor it reaches |
| `GroupRuns.CommittedIsAcked` | crates/ehdb-feed/src/group.rs:588-603 | the committed cursor lies in what was pulled and every record up to it has been acked |
| `GroupRuns.CommittedNeverFalls` | crates/ehdb-feed/src/group.rs:588-603 | no operation moves the committed cursor back |
| `GroupRuns.CommittedIsGreatest` | crates/ehdb-feed/src/group.rs:588-603 | no further point of what was pulled has everything up to it acked |
| `GroupRuns.StartInv` | crates/ehdb-feed/src/group.rs:329-347 | an empty shard with a group at its beginning meets the run invariant |
| `GroupRuns.StepInv` | crates/ehdb-feed/src/claim.rs:339-382 | every step, restart and tail loss included, keeps the run invariant, and a restart that finds a stored cursor resumes at the furthest point that is beyond neither it nor the tip |
| `GroupRuns.NothingSkipped` | crates/ehdb-feed/src/group.rs:297-319 | under the run invariant each record has been acked, is held open, or is yet to be pulled |
| `GroupRuns.RunSkipsNothing` | crates/ehdb-feed/src/claim.rs:339-382 | over every sound run each record has been acked, is held open, or is yet to be pulled |
| `GroupRuns.LosslessIsAllowed` | crates/ehdb-feed/src/claim.rs:339-382 | a run that loses no tail is always sound |
| `GroupRuns.UnsoundAppendSkips` | crates/ehdb-feed/src/claim.rs:352-364 | the append condition is needed: otherwise a restart steps over an unacked record |
| `GroupRuns.UnsoundRestartSkips` | crates/ehdb-feed/src/cursor.rs:242-255 | the restart condition is needed: otherwise the restart itself steps over one |
| `GroupRuns.ClampedRestartExposes` | crates/ehdb-feed/src/claim.rs:339-382 | a clamped restart, an append and a second restart before the next persist step over the new record |
| `GroupRuns.RestartResumes` | crates/ehdb-feed/src/claim.rs:339-382 | from any state a restart resumes at the furthest point beyond neither the stored cursor nor the tip, without one at the tail or the beginning as asked, and keeps exactly the log up to the tip |
| `GroupRuns.NothingReplayed` | crates/ehdb-feed/src/claim.rs:339-382 | in any later run of that life no poll hands out a key that is at or below the stored cursor and within the log the restart found |
| `GroupRuns.PersistedCursorResumes` | crates/ehdb-feed/src/claim.rs:650-660 | committed cursor read, persisted, restarted on a log that reaches it: the group resumes exactly there |
| `GroupRuns.ForcedOutIsNext` | crates/ehdb-feed/src/group.rs:572-582 | a record forced out is handed out by the next matching poll at any time, unless an earlier key is due too |
| `GroupRuns.CatchesUp` | crates/ehdb-feed/src/group.rs:463-569 | from any reachable state polls for anything, each delivery acked, have after finitely many turns acked every record past the group's start |
| `GroupRuns.RunInStep` | crates/ehdb-feed/src/group.rs:463-582 | every run, sound or not, keeps the group's account of the log |
| `GroupRuns.SubjectsSeen` | crates/ehdb-feed/src/group.rs:354-373 | over every run the group knows the subject of each record it pulled in this life |
| `GroupRuns.DeliveryHolds` | crates/ehdb-feed/src/group.rs:463-546 | a delivery takes its record out of reach for the ack wait |
| `GroupRuns.NoEarlyRedelivery` | crates/ehdb-feed/src/group.rs:463-546 | short of a restart or a forced expiry no poll before the deadline hands it out again |
| `GroupRuns.LagSplits` | crates/ehdb-feed/src/group.rs:613-618 | lag is pending plus in flight plus the unpulled tail plus what was acked above the cursor |
| `ConsumerGroup.ChangeFeed.PollLimited` | crates/ehdb-l0/src/feed.rs:121-131 | hands over, in order and at most to the limit, exactly the records the cursor passes; a batch short of the limit leaves none behind |
| `ConsumerGroup.SubjectConsumerGroup.Refill` | crates/ehdb-feed/src/group.rs:354-362 | the group is the specified one with the batch tagged and queued |
| `ConsumerGroup.ScanFlights` | crates/ehdb-feed/src/group.rs:484-501 | one ordered pass finds the least due matching key, or the true minimum deadline |
| `ConsumerGroup.SubjectConsumerGroup.PollAssign` | crates/ehdb-feed/src/group.rs:463-546 | delivery and group are those specified, and nothing is delivered if and only if nothing due matches and nothing queued does |
| `ConsumerGroup.SubjectConsumerGroup.Ack` | crates/ehdb-feed/src/group.rs:550-552 | group and answer are those specified |
| `ConsumerGroup.SubjectConsumerGroup.ExpireNow` | crates/ehdb-feed/src/group.rs:572-582 | group and answer are those specified |
| `ConsumerGroup.SubjectConsumerGroup.CommittedCursor` | crates/ehdb-feed/src/group.rs:588-603 | one below the least open key, or the frontier |
| `ConsumerGroup.SubjectConsumerGroup.LagOf` | crates/ehdb-feed/src/group.rs:613-618 | the number of log records past the committed cursor |
| `ConsumerGroup.SubjectConsumerGroup.SubjectLags` | crates/ehdb-feed/src/group.rs:417-424 | counts per subject name the open records and the tail exactly, zero for other subjects seen |
| `ConsumerGroup.SubjectConsumerGroup.CountsInHand` | crates/ehdb-feed/src/group.rs:431-445 | counts per subject name the pending and in-flight records exactly |
| `ConsumerGroup.SubjectLagsSum` | crates/ehdb-feed/src/group.rs:393-424 | subject lags plus the records acked above the cursor sum to the shard's lag, so they equal it if and only if there are none |
| `Leases.LeaseTable.Assign` | crates/ehdb-feed/src/claim.rs:244-255 | ownership moves and the two indexes stay inverse |
| `Leases.LeaseTable.Settle` | crates/ehdb-feed/src/claim.rs:257-263 | the key's lease is dropped from both indexes |
| `Leases.LeaseTable.TakeConn` | crates/ehdb-feed/src/claim.rs:265-276 | hands over, once each, exactly the keys the connection owed |
| `Leases.FreedIsExact` | crates/ehdb-feed/src/claim.rs:468-478 | exactly the connection's in-flight records become due, and nothing leaves the group |
| `Leases.ClaimCoordinator.ReleaseConn` | crates/ehdb-feed/src/claim.rs:468-478 | a closed connection's leases go and its records become due; connection 0 is a no-op |
| `Leases.ClaimCoordinator.Ack` | crates/ehdb-feed/src/claim.rs:517-520 | the lease is settled and the record leaves the group |
| `Claims.StepKeeps` | crates/ehdb-feed/src/claim.rs:122-192 | every interleaved step but one leaves each waiting record seen to: leased to an open connection, in the hands of a claim, ack or release in progress, or an orphan about to be expired |
| `Claims.StartStrandsNone` | crates/ehdb-feed/src/claim.rs:207-233 | a fresh coordinator has nothing stranded |
| `Claims.NoDisconnectStrands` | crates/ehdb-feed/src/claim.rs:444-520 | so over every interleaving of claims, dropped polls, acks and disconnects without that step |
| `Claims.AllGoneAllDue` | crates/ehdb-feed/src/claim.rs:457-478 | once all connections have gone and the orphans are expired, everything in flight is due at once |
| `Claims.DropStrandsIff` | crates/ehdb-feed/src/claim.rs:444-455 | a claim dropped between receiving and leasing strands its record if and only if the record waits and nothing else sees to it |
| `Claims.DroppedClaimStrands` | crates/ehdb-feed/src/claim.rs:444-455 | one connection and one claim after which the record waits out its whole deadline |
| `Claims.DetachedPollFrees` | crates/ehdb-feed/src/claim.rs:122-192 | a poll that outlives its dropped claim leaves the record it was given due at once |
| `Fence.FenceLedger.CheckAndAdvance` | crates/ehdb-core/src/fence.rs:333-400 | the marker becomes the larger of the two epochs and a lower epoch is stale; an unreadable marker changes nothing; a failed write is an error that leaves the high-water mark at what was read, whether or not its rename landed |
| `Fence.LedgerIsProtocol` | crates/ehdb-core/src/fence.rs:333-400 | for every marker and every way its write can go, one check is a run of the protocol's steps that ends where the check does |
| `Fence.StartInv` | crates/ehdb-core/src/fence.rs:450-461 | the invariant holds before any writer has moved |
| `Fence.StepMonotone` | crates/ehdb-core/src/fence.rs:333-400 | no step lowers marker or high-water mark or rewrites history |
| `Fence.StepInv` | crates/ehdb-core/src/fence.rs:487-555 | every interleaved step of every writer keeps the invariant |
| `Fence.FencingHolds` | crates/ehdb-core/src/fence.rs:487-555 | over any interleaving confirmed epochs equal the highest accepted at that moment and never go back, nor do the mutations made under them |
| `Fence.ChangedTokenIff` | crates/ehdb-core/src/fence.rs:477-555 | a token changed mid-write leads to no wrong confirmation if and only if it is below the high-water mark, or at it and itself accepted |
| `Fence.MarkWithoutAcceptance` | crates/ehdb-core/src/fence.rs:333-555 | a run after which a token at the high-water mark is confirmed although it was never accepted |
| `Fence.ChangedTokenGoesBack` | crates/ehdb-core/src/fence.rs:477-555 | above it, a run in which confirmed epochs go back |
| `Fence.NewerWriterGetsIn` | crates/ehdb-feed/src/fenced_engine.rs:137-142 | a writer alone with an epoch above the marker is confirmed and makes its mutation |
| `Seal.StartInv` | crates/ehdb-feed/src/lib.rs:448-500 | the invariant holds before any appender or sealer has moved |
| `Seal.StepInv` | crates/ehdb-feed/src/lib.rs:448-500 | every interleaved step of appenders and sealers keeps the invariant |
| `Seal.NothingAfterTheSeal` | crates/ehdb-feed/src/lib.rs:448-500 | once a seal's flush completed the log never grows and every acked append lies in it |
| `Seal.OneLookLosesARecord` | crates/ehdb-feed/src/lib.rs:479-500 | without the second look under the lock there is a run that acks a record no flush holds |
| `Seal.OpenWriterAppends` | crates/ehdb-feed/src/lib.rs:448-500 | a writer nobody seals takes an append and acks it |
| `Publish.AckHasItsWaiter` | crates/ehdb-feed/src/publish.rs:256-327 | an ack finds its own request at the head of the waiter queue until the queue is cleared |
| `Publish.StartInv` | crates/ehdb-feed/src/publish.rs:260-312 | the invariant holds on a fresh connection |
| `Publish.StepInv` | crates/ehdb-feed/src/publish.rs:85-327 | every step of client tasks and server keeps the invariant |
| `Publish.PublishReturnsOwnKey` | crates/ehdb-feed/src/publish.rs:256-327 | a publish that returns a key returns one under which its own record is in the log, also for a duplicate; and until the waiter queue is cleared, or while the reader goes on, each request whose ack was read has returned the key it was committed under, in submission order |
| `Publish.EveryPublishReturns` | crates/ehdb-feed/src/publish.rs:85-327 | in a run without failures, once nothing is on its way, every publish has returned a key under which its own record is in the log |
| `Publish.GrownHolds` | crates/ehdb-l0/src/engine.rs:1057-1063 | answering a batch, fresh keys and duplicates mixed, keeps the log and its order and has every answered record under its key |
| `Publish.NoPublishHangs` | crates/ehdb-feed/src/publish.rs:256-327 | once both tasks have ended and the queue is dropped every publish has returned |
| `Publish.NoneAnsweredTwice` | crates/ehdb-feed/src/publish.rs:256-327 | over any run a publish that has returned keeps its outcome, and every other is held exactly once |
| `Publish.StartHeldOnce` | crates/ehdb-feed/src/publish.rs:260-312 | a fresh connection holds no request and has answered none |
| `ChunkedFold.TailContinues` | crates/ehdb-feed/src/fenced_engine.rs:222-260 | reading on from a batch's last key continues where it ended |
| `ChunkedFold.FoldAfter` | crates/ehdb-feed/src/fenced_engine.rs:222-260 | over a growing log it visits, once each and in order, everything held when it began and nothing not held at its last hold |
| `Crc.Crc32` | crates/ehdb-l0/src/frame.rs:30-40 | the bit loop computes the shift-register checksum |
| `Crc.CrcIsLinear` | crates/ehdb-l0/src/frame.rs:30-40 | the register is linear over exclusive or |
| `Crc.BurstDetected` | crates/ehdb-l0/src/frame.rs:28-40 | inputs of equal length differing only within four consecutive bytes never share a checksum |
| `Crc.KnownAnswer` | crates/ehdb-l0/src/frame.rs:30-40 | the standard check value 0xCBF43926 for the digits 1 to 9 |
| `FrameLists.CutKeepsWholeFrames` | crates/ehdb-l0/src/frame.rs:116-124 | for any cut of any frames exactly those wholly before the cut come back, in order, at their offsets, without error |
| `FrameLists.ExactReencodes` | crates/ehdb-l0/src/frame.rs:136-149 | an accepted sealed buffer is byte for byte the encoding of what was read |
| `FrameLists.ExactAcceptsFrames` | crates/ehdb-l0/src/frame.rs:136-149 | every list of frames is accepted whole |
| `FrameLists.WholeIsExact` | crates/ehdb-l0/src/frame.rs:116-124 | the number of frames kept by a cut is exactly those that end by it |
| `Frame.EncodeFrame` | crates/ehdb-l0/src/frame.rs:44-57 | the frame of the body, refused above the size limit |
| `Frame.ReadsWholeFrame` | crates/ehdb-l0/src/frame.rs:76-112 | a frame anywhere in a buffer reads back as its body |
| `Frame.ReadsCutFrame` | crates/ehdb-l0/src/frame.rs:76-112 | a frame cut anywhere reads as a torn tail, never as damage |
| `Frame.ReadIsAFrame` | crates/ehdb-l0/src/frame.rs:76-112 | only a whole frame reads as one |
| `Frame.IterFramesFrom` | crates/ehdb-l0/src/frame.rs:116-124 | the loop computes the recovered frames |
| `Frame.IterFramesExact` | crates/ehdb-l0/src/frame.rs:136-149 | the loop computes the exact frames |
| `Frame.PartsRecoverAtEveryCut` | crates/ehdb-l0/src/frame.rs:76-124 | the recovery theorem for part frames |
| `Frame.BurstRefused` | crates/ehdb-l0/src/frame.rs:76-112 | a stored body altered within four consecutive bytes is refused |
| `FeedFrames.FeedFramingLawful` | crates/ehdb-feed/src/lib.rs:205-214 | length-prefixed feed frames satisfy the framing laws under any cap |
| `FeedFrames.FrameReader.TakeFrame` | crates/ehdb-feed/src/lib.rs:294-308 | takes the first whole frame off the pending bytes, or refuses it as over this call's cap |
| `FeedFrames.FrameReader.ReadCapped` | crates/ehdb-feed/src/lib.rs:289-320 | every call, with whatever cap and cancelled anywhere, accounts for all bytes received: returned bodies and pending bytes |
| `FeedFrames.ReturnsWhatWasFramed` | crates/ehdb-feed/src/lib.rs:264-320 | what was returned is a prefix of what was framed, and all that arrived whole once the reader waits |
| `FeedFrames.ReaderYieldsBodies` | crates/ehdb-feed/src/lib.rs:264-320 | for every split into reads, every cancellation and any caps the bodies come out as they went in, and a call refuses only a next body over its cap |
| `Journal.ScanJournal` | crates/ehdb-core/src/journal.rs:92-149 | the read loop with offset, line number, torn line and entries computes the specified scan |
| `Journal.ReadJsonl` | crates/ehdb-core/src/journal.rs:92-149 | result, error line or repair as specified, a missing file reading as empty |
| `Journal.JournalFile.Apply` | crates/ehdb-core/src/journal.rs:68-84 | truncates or completes the last line, once |
| `Journal.ReadDropsNothing` | crates/ehdb-core/src/journal.rs:92-149 | a successful read returns every non-blank line in order except at most one torn at the end, which it counts |
| `Journal.ReadFailsIff` | crates/ehdb-core/src/journal.rs:111-141 | a read fails if and only if a non-blank line has wrong content or was cut short with more written after it, and names the first such line |
| `Journal.NothingWrittenReadsEmpty` | crates/ehdb-core/src/journal.rs:101-149 | a file that is missing, empty or blank reads as no record and no error |
| `Journal.LineEndings` | crates/ehdb-core/src/journal.rs:121-141 | a record reads the same whether its line ends in a newline, in carriage return and newline, or not at all |
| `Journal.ReadsAfterCut` | crates/ehdb-core/src/journal.rs:92-149 | what a read sees after an append cut anywhere |
| `Journal.RepairLeavesRecords` | crates/ehdb-core/src/journal.rs:53-84 | the repair leaves exactly the complete records |
| `Journal.RoundsLoseNothing` | crates/ehdb-core/src/journal.rs:53-149 | over any number of lives each dying anywhere in its append, the next read returns exactly the fully written records and counts a torn tail exactly when there is one |
| `Leb128.WriteUvarint` | crates/ehdb-l0/src/columnar.rs:89-101 | the loop writes the varint |
| `Leb128.ReadUvarint` | crates/ehdb-l0/src/columnar.rs:103-121 | the loop reads a varint, with truncation, overflow and bits shifted out of 64 as in the code |
| `Leb128.VarintRoundTrip` | crates/ehdb-l0/src/columnar.rs:89-121 | every 64-bit value reads back whatever follows it |
| `Leb128.VarintRefusedIff` | crates/ehdb-l0/src/columnar.rs:103-121 | a varint is refused if and only if its last byte is missing or it goes on past the tenth |
| `Columnar.EncodeSeqColumn` | crates/ehdb-l0/src/columnar.rs:123-132 | the delta loop writes the sequence column |
| `Columnar.DecodeSeqColumn` | crates/ehdb-l0/src/columnar.rs:134-143 | the loop reads it, with wrap-around |
| `Columnar.SeqsRoundTrip` | crates/ehdb-l0/src/columnar.rs:123-143 | rising sequences read back |
| `Columnar.EncodeStrColumn` | crates/ehdb-l0/src/columnar.rs:145-152 | the loop writes length-prefixed texts |
| `Columnar.DecodeStrColumn` | crates/ehdb-l0/src/columnar.rs:154-171 | the loop reads them, with its three errors |
| `Columnar.StrsRoundTrip` | crates/ehdb-l0/src/columnar.rs:145-171 | texts read back |
| `Columnar.HeadReadsBack` | crates/ehdb-l0/src/columnar.rs:181-274 | the header reads back field for field |
| `Columnar.HeaderReencodes` | crates/ehdb-l0/src/columnar.rs:239-274 | whatever the bytes, an accepted header is byte for byte the one the encoder writes for what was read |
| `Columnar.ColumnarRoundTrip` | crates/ehdb-l0/src/columnar.rs:181-339 | decoding an encoded part gives back the records, less the two fields the format does not store |
| `Columnar.CutPartRefused` | crates/ehdb-l0/src/columnar.rs:181-339 | an encoded part cut short anywhere is never decoded |
| `Columnar.ProjectionAgrees` | crates/ehdb-l0/src/columnar.rs:278-339 | for any bytes that decode, each projection is that field of the records |
| `Columnar.EncodedSpansTile` | crates/ehdb-l0/src/columnar.rs:181-235 | column spans tile the part from the header to the end, payload last |
| `Columnar.ProjectionSkipsPayload` | crates/ehdb-l0/src/columnar.rs:278-291 | a projection of a small column is the same whatever replaces the payload column |
| `Bloom.BloomFilter.Add` | crates/ehdb-l0/src/bloom.rs:283-287 | the in-place loop yields the specified filter |
| `Bloom.BloomFilter.Contains` | crates/ehdb-l0/src/bloom.rs:292-297 | the loop decides whether all probes are set |
| `Bloom.SetAllIs` | crates/ehdb-l0/src/bloom.rs:283-287 | exactly the probed bits are set in addition |
| `Bloom.NoFalseNegatives` | crates/ehdb-l0/src/bloom.rs:262-297 | no sequence of inserts yields a false negative, in either scheme |
| `Bloom.AdmitsIff` | crates/ehdb-l0/src/bloom.rs:283-297 | a filter that started clear admits a key if and only if each of its probes is a probe of some inserted key; before the first insert it admits nothing |
| `Bloom.NewIsClear` | crates/ehdb-l0/src/bloom.rs:222-245 | a new filter is clear |
| `Bloom.LackingRefuses` | crates/ehdb-l0/src/bloom.rs:292-297 | a key with a probe on an unset bit is refused |
| `Bloom.LegacyProbes` | crates/ehdb-l0/src/bloom.rs:262-280 | legacy probes step by the second hash and wrap at 64 bits once |
| `Bloom.WireRoundTrip` | crates/ehdb-l0/src/bloom.rs:140-210 | a filter comes back from its wire form unchanged |
| `Bloom.NoFalseNegativesOverTheWire` | crates/ehdb-l0/src/bloom.rs:140-297 | a key inserted before the trip is found after it |
| `Bloom.AcceptedIsInRange` | crates/ehdb-l0/src/bloom.rs:164-210 | whatever arrives, an accepted filter is probed within its words, has at least one probe and the scheme it was sent as |
| `Catalog.LocateOffset` | crates/ehdb-l0/src/catalog.rs:102-123 | the binary search returns the offset of the last mark at or below the target |
| `Catalog.GranuleSpanFor` | crates/ehdb-l0/src/catalog.rs:219-243 | the loop returns the least contiguous span of admitted granules from the start |
| `Catalog.MarksClosed` | crates/ehdb-l0/src/part.rs:402-427 | the writer's marks stand at every granule's first record and byte offset and reach the end |
| `Catalog.MarksAscend` | crates/ehdb-l0/src/part.rs:402-427 | marks ascend in sequence and in offset |
| `Catalog.MarkCounts` | crates/ehdb-l0/src/part.rs:402-427 | each mark counts the records of its granule |
| `Catalog.BuildIndexBlooms` | crates/ehdb-l0/src/part.rs:967-1018 | the loop puts each key into the part bloom and its granule's bloom and nowhere else |
| `Catalog.SealingIsSound` | crates/ehdb-l0/src/part.rs:615-689 | a part sealed by the writer satisfies what the read relies on |
| `Catalog.StartIsSafe` | crates/ehdb-l0/src/engine.rs:2192-2197 | nothing before the located granule is past the cursor |
| `Catalog.StartIsTight` | crates/ehdb-l0/src/engine.rs:2192-2197 | the granule after the located one begins past the first key that is wanted |
| `Catalog.HitsCover` | crates/ehdb-l0/src/catalog.rs:219-243 | the span covers every admitted granule |
| `Catalog.SpanIsTight` | crates/ehdb-l0/src/catalog.rs:219-243 | the span begins and ends with a granule that admits the key, and there is one if and only if some granule from the start on does |
| `Catalog.PruneIsExact` | crates/ehdb-l0/src/catalog.rs:291-300 | the candidates are exactly the partition's parts that reach past the cursor, in key order |
| `Catalog.RefusedIsNotRead` | crates/ehdb-l0/src/engine.rs:2177-2189 | a part whose bloom lacks a probe of the key is not read, whatever it holds |
| `Catalog.DroppedHoldsNothing` | crates/ehdb-l0/src/catalog.rs:183-212 | a part that pruning drops holds no match |
| `Catalog.ReadPartIsScan` | crates/ehdb-l0/src/engine.rs:2191-2235 | the narrowed read of a part ascends by sequence and holds exactly its records of that index past the cursor, each as often as the part does |
| `Catalog.PruningLosesNothing` | crates/ehdb-l0/src/engine.rs:2166-2253 | for any manifest of sealed parts, each with its own granule size, the pruned indexed read succeeds, ascends by sequence, and holds each record of that index past the cursor exactly as often as the partition's parts and unsealed records do, and no other |
| `ChainCert.ChunkRoller.Absorb` | crates/ehdb-l0/src/chain_cert.rs:111-133 | the hasher is opened, fed, and sealed at every eighth record as specified |
| `ChainCert.RollerIsFold` | crates/ehdb-l0/src/chain_cert.rs:91-133 | after any records the roller holds the digest over the whole chunks and the rest in the hasher |
| `ChainCert.RolledCertifies` | crates/ehdb-l0/src/chain_cert.rs:135-140 | its certificate and uncovered count are those of the records fed |
| `ChainCert.ChainCertRegistry.Absorb` | crates/ehdb-l0/src/chain_cert.rs:168-182 | every execution's roller stays the fold of its own records, whatever is interleaved |
| `ChainCert.ChainCertRegistry.Certificate` | crates/ehdb-l0/src/chain_cert.rs:185-187 | the certificate of the execution's own records |
| `ChainCert.ChainCertRegistry.UncertifiedTail` | crates/ehdb-l0/src/chain_cert.rs:190-192 | the own records modulo eight, so fewer than eight |
| `ChainCert.OthersLeaveNoTrace` | crates/ehdb-l0/src/chain_cert.rs:143-182 | dropping all other executions' records changes no certificate |
| `ChainCert.SameChunksSameDigest` | crates/ehdb-l0/src/chain_cert.rs:111-133 | equal bytes chunk by chunk give equal digests |
| `ChainCert.EqualDigestsPinBytes` | crates/ehdb-l0/src/chain_cert.rs:111-133 | equal digests give equal bytes in every chunk, or an explicit collision of the hash |
| `ChainCert.BoundariesAreNotPinned` | crates/ehdb-l0/src/chain_cert.rs:111-133 | moving bytes across a record boundary inside a chunk leaves the certificate as it was |
| `ChainCert.GrowthIsNeverDivergence` | crates/ehdb-l0/src/chain_cert.rs:210-236 | a certificate taken earlier on the same chain is never called divergent or ahead, and matches exactly while no further chunk has closed |
| `ChainCert.StaleIsNotAlwaysPrefix` | crates/ehdb-l0/src/chain_cert.rs:210-236 | two chains without a common record get the verdict "stale but prefix" |
| `ChainCert.DigestAtStoredLengthSettles` | crates/ehdb-l0/src/chain_cert.rs:210-236 | comparing the current chain's digest at the stored length decides whether the bytes agree, up to an explicit hash collision |
| `ChainCert.EqualLengthsDecide` | crates/ehdb-l0/src/chain_cert.rs:223-236 | with equally many chunks the verdict is match or mismatch by digest, and chunks that differ are called a mismatch, up to an explicit hash collision |
| `Hlc.HlcClock.Now` | crates/ehdb-core/src/hlc.rs:150-173 | the reading is the specified successor and becomes the last value |
| `Hlc.HlcClock.Observe` | crates/ehdb-core/src/hlc.rs:177-182 | the last value becomes the larger of the two |
| `Hlc.NextIsMax` | crates/ehdb-core/src/hlc.rs:150-173 | below 48 bits a reading is the larger of the last plus one and the shifted wall clock, carry included |
| `Hlc.AdvancesIff` | crates/ehdb-core/src/hlc.rs:63-173 | a reading exceeds the last one if and only if neither limit is hit |
| `Hlc.LimitsAreMet` | crates/ehdb-core/src/hlc.rs:63-182 | a reading at each limit that falls to zero, the first limit reachable by observing |
| `Hlc.BoundedDrift` | crates/ehdb-core/src/hlc.rs:150-182 | readings run at most one unit per call past everything they were given |
| `Hlc.Monotone` | crates/ehdb-core/src/hlc.rs:150-182 | no call moves the clock back |
| `Hlc.ReadingsStrictlyIncrease` | crates/ehdb-core/src/hlc.rs:150-182 | any two readings, and an observation before a reading, are ordered, whatever the wall clock did |

## Left out

- The consumer group without subjects: the same algorithm with every filter matching, so it would only repeat the proofs.
- The per-event `populate` and `populate_replicated` entry points: one append and one watermark write, both covered by the pieces of `PopulateFromLog`.
- The environment switches, metrics, Prometheus text, labels and error messages.
- Fence mode "shadow" and "off": no decision depends on them but whether a refusal is returned.
- Nacks, heartbeats and the timers around the claim protocol; an orphan whose release finds no runtime left; claims without lease tracking.
- The bodies of SHA-256, XxHash, splitmix64, base64 and JSON: parameters here.
- Bloom sizing: floating-point, and the theorems hold for every size.
- Compaction, upload, replica fallback and retention.
- File system durability: a rename and a completed write are taken as atomic; `fsync` ordering is not modelled.
- Sequence numbers past 2^64 - 1: operations that add one require room for it, where the code would overflow.
- PopulateFromLog: requires room for the snapshot's sequence numbers below 2^64.
- Append: on the durable store, requires the head's sequence to be below 2^64 - 1.
- WalkFromHead: requires that the walk from the head ends, because the code's loop runs for ever otherwise; `AppendWalkEndsIff` says when an append keeps it so. ChainIsComplete requires the same.
- EncodeSeqColumn: requires rising sequences, because the code's subtraction would underflow otherwise.
- ServedIsLogPrefix: speaks of snapshots that are prefixes of one log with distinct non-blank ids, in log order; what ordering by links yields is `OrderByLinks`.
- FoldAfter: the number of holds is bounded only by what the log ever holds, since a fast enough writer keeps the code's loop going.
- BurstDetected: guarantees four consecutive bytes, not every burst of 32 bits that straddles five bytes.
- ChainCertRegistry: record counts are unbounded where the code keeps 32 bits.
