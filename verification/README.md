# A verified model of the Aerospike C client's core protocols

This project models, in Dafny, the parts of the Aerospike C client in which correctness is not local to one function,
and proves properties of them for all inputs and all runs.

* **Expression compiler** (`ExpWire`, `ExpTable`, `ExpCompile`, `ExpCorrect`, `ExpRead`). The macros of `as_exp.h`
  expand an expression tree into a flat prefix table; `as_exp_compile` walks it twice, fills in the missing counts of
  variadic operators through a linked list threaded through the table, sizes a buffer and fills it. The theorem is
  that this emits exactly the nested list the tree means, for every tree, in a buffer of exactly the right size if
  that is below 4 GiB.
  MessagePack is abstracted to tokens (list headers and scalars) with an arbitrary size per token; counts and sizes
  are unsigned 32 bit.
* **Pagination** (`PartitionTracker`, `TrackerObject`, `TrackerAssign`, `TrackerSystem`, `TrackerInvariant`,
  `TrackerSteps`, `TrackerRounds`, `TrackerPages`, `TrackerOutcomes`, `TrackerHanded`, `TrackerDrain`, `TrackerRuns`).
  Scans and queries are read page by page; every page runs rounds with one thread per node against shared state. `PartitionTracker` says
  what each tracker operation computes, `TrackerObject` is the object updated in place and is proved to compute that,
  and `TrackerSystem` puts the operations, the threads and a server into a transition system with unboundedly many
  interleavings, pages, retries and failures. Node choice, record arrival, failures and the clock are chosen by the environment. The server's
  part is a contract: it streams a partition in digest order after the cursor it was sent, sends no more than the
  limit it was sent, and when it ends a stream below the limit (or, before server 6.0, after sending nothing) has
  sent every partition it did not report unavailable.
* **Reference counting** (`RefCount`, `RefCountProof`, `RefCountContents`). Node arrays and nodes are shared by the tend thread and any
  number of command threads; loading a pointer and incrementing its counter are separate steps, arrays are replaced
  by copies built step by step, releases are delayed through a collector list, and destroying an array releases its
  nodes one by one. Atomics are sequentially consistent.
* **Synchronous connection pools** (`SyncPool`, `PoolProtocol`, `NodePools`, `PoolSearch`). Admission by
  fetch-and-add, put-back, trimming and filling by the tend thread, with the wrapping 32 bit total, over any number of
  threads (fewer than 2^30); all pools of a node together, with the node's limits split over them; the search over a
  node's pools. That the minimum is at most the maximum is what `as_cluster.c` demands of a configuration.
* **Asynchronous connection pools** (`AsyncPool`), whose limit may change while connections are open.
* **Retries and in-doubt** (`InDoubt`). The retry loop of a command over arbitrary attempts, with the split of a batch
  and the notice to a transaction.
* **Wire format** (`Wire`, `WireWriter`). Field writers on a byte buffer, including the one that back-fills its header,
  a reader, size functions and frame headers.
* **libuv timer** (`UvTimer`), **collection contexts and two-pass packing** (`CdtContext`), **asynchronous command
  blocks** (`AsyncLayout`) and the **bitmap of configured fields** (`ConfigBits`).

Some promises turned out not to hold of the code as it is. The code is kept as it is, with a concrete run or a
family of them and the exact condition under which the promise holds:

* An asynchronous page whose first partition assignment fails does not mark all partitions for retry, although the
  synchronous one does. Partitions that were already assigned keep no mark and are skipped by the next page
  (`TrackerRuns.AsyncStartLosesRecord`, `TrackerPages.AsyncStartExact`, `TrackerDrain.StartSafeIff`,
  `TrackerDrain.KnownSafeIff`).
* A pool with a minimum can exceed its capacity, by up to that minimum, because the tend thread pushes before it
  counts and ignores the verdict (`PoolProtocol.CapacityKeptIff`, `PoolProtocol.BoundReached`); and so can all pools of
  a node at once, which then has more connections than its maximum (`NodePools.NodeMaximumKeptIff`,
  `NodePools.NodeBoundReached`).
* The search over a node's pools moves relative to the pool it is at, so it does not try every pool once there are more
  than two (`PoolSearch.SearchComplete`, `PoolSearch.SearchInRange`).
* A write that was sent once and timed out is reported as not in doubt if the retry is refused a connection by the
  server, which happens only with authentication (`InDoubt.MissedExample`, `InDoubt.InDoubtExact`,
  `InDoubt.SoundIff`).
* A record is handed to the application before its cursor is saved. If the callback returns false the record is handed
  over again when the partition is read on; otherwise nothing is handed over twice
  (`TrackerHanded.HandedTwiceExactly`, `TrackerRuns.RefusedRecordRepeats`).
* The buffer of a compiled expression of 4 GiB or more is too small, because its size is an unsigned 32 bit sum
  (`ExpCorrect.BufferTooSmall`, `ExpCorrect.BufferExactIff`).

The command `dafny verify dfyconfig.toml` checks the whole project.

## Model

| member | source | states |
|---|---|---|
| `ExpCompile.Compile` | src/main/aerospike/as_exp.c:35-356 | The two loops over the table in place return the result of the function `Compiled`: nothing on a malformed call or value, otherwise the emitted tokens and the allocated size modulo 2^32 |
| `ExpCompile.CountAll` | src/main/aerospike/as_exp.c:44-240 | The first loop leaves the table of the counting pass and its total modulo 2^32, or fails where that pass fails |
| `ExpCompile.CountEntry` | src/main/aerospike/as_exp.c:44-60 | One entry: the innermost open variadic operator gains one and loses the entry's own arguments |
| `ExpCompile.SwitchEntry` | src/main/aerospike/as_exp.c:60-240 | The switch on the operation: opening and closing variadic operators, policies, contexts and values |
| `ExpCompile.StepLinked` | src/main/aerospike/as_exp.c:47-58 | The chain of open variadic operators stays a chain to earlier entries of the table, so it ends |
| `ExpCorrect.CompileCorrect` | src/include/aerospike/as_exp.h:187-207 | For every well-formed tree the compiled table is the recursive encoding of the tree's meaning and the buffer has its size modulo 2^32; compilation fails exactly for trees with a value that cannot be packed, a call without a valid return type, or a context that is empty, cannot be packed, or is on a call that is not a list or map call |
| `ExpCorrect.BufferExactIff` | src/main/aerospike/as_exp.c:242-249 | The buffer has exactly the size of the encoding of the tree's meaning if and only if that is below 4 GiB, and is smaller otherwise |
| `ExpCorrect.BufferTooSmall` | src/main/aerospike/as_exp.c:240-249 | A conjunction of two blobs of 2 GiB or more compiles into a buffer smaller than its encoding, for every measure that gives a blob at least its length |
| `ExpCorrect.CompiledReadsBack` | src/main/aerospike/as_exp.c:242-356 | A reader of nested lists recovers the tree's meaning from the compiled tokens, with nothing left over |
| `ExpCorrect.CallOnWire` | src/main/aerospike/as_exp.c:251-353 | A reader of a compiled call finds return type and system, the context with type and value of every level in order, the operation, the parameters, and behind them attributes and flags for a create-and-modify policy, attributes for a create policy, flags for a modify policy, nothing for a NULL one |
| `ExpCorrect.VariadicOnWire` | src/main/aerospike/as_exp.c:217-237 | Each of the fourteen variadic operators with any number of arguments compiles to the list of operator and arguments |
| `ExpCorrect.EmitResolved` | src/main/aerospike/as_exp.c:251-353 | The second pass over the table with all counts filled in emits the recursive encoding, including calls with and without policy and context |
| `ExpCorrect.RunExpr` | src/main/aerospike/as_exp.c:44-240 | The first pass over any sub-expression at any depth fills in its counts, counts it as one argument of the enclosing operator, and adds its exact encoded size |
| `ExpCorrect.RunVariadicEnd` | src/main/aerospike/as_exp.c:173-182 | At its own end marker a variadic operator's count is one plus the complete sub-expressions before it, and the enclosing operator is open again |
| `ExpCorrect.RunPolicy` | src/include/aerospike/as_exp.h:1642-1663 | A policy entry adds to the enclosing operation list exactly the integers it emits: none for a NULL policy, otherwise one or two |
| `ExpCorrect.ItemSizeExact` | src/main/aerospike/as_exp.c:60-240 | For every entry the size added by the first pass is the size of what the second pass emits |
| `ExpCorrect.LetMeaning` | src/include/aerospike/as_exp.h:1591-1614 | A let means one list: code, a name and a meaning per definition, then the body; each definition contributes two elements |
| `ExpRead.ReadFlatten` | src/include/aerospike/as_exp.h:187-207 | A reader of tables recovers every tree from its table followed by anything |
| `ExpRead.UniquelyReadable` | src/include/aerospike/as_exp.h:1012-1050 | No table is a proper prefix of another, and different trees have different tables |
| `ExpWire.ParseEncode` | src/main/aerospike/as_exp.c:242-356 | Nested lists are recovered from their token encoding, whatever follows |
| `PartitionTracker.PartitionIdInRange` | src/include/aerospike/as_partition.h:133-137 | Masking a digest with one less than the partition count gives a partition |
| `PartitionTracker.PartitionIdIs` | src/include/aerospike/as_partition.h:133-137 | For the 4096 partitions of a cluster it is the remainder of the first two bytes |
| `TrackerObject.PartitionsStatus.constructor` | src/main/aerospike/as_partition_tracker.c:37-68 | All partitions marked, without cursor except the first when the filter starts after a digest |
| `TrackerObject.PartitionsStatus.MarkAll` | src/include/aerospike/as_partition_tracker.h:188-195 | All partitions will be retried |
| `TrackerObject.ScanTracker.constructor` | src/main/aerospike/as_partition_tracker.c:94-141 | Resuming a table: all partitions when there is no limit, replica and node reset, cursors and marks kept |
| `TrackerObject.FindNodePartitions` | src/main/aerospike/as_partition_tracker.c:145-157 | First entry of the node, or none if no entry is the node's |
| `TrackerObject.ScanTracker.AssignPartition` | src/main/aerospike/as_partition_tracker.c:159-181 | The partition joins its node's entry once, at the end of the list for whole or for resumed partitions; a new entry goes to the end; no other entry changes |
| `TrackerObject.ScanTracker.Assign` | src/main/aerospike/as_partition_tracker.c:324-448 | The loop over partitions in place computes the assignment function, including an unknown namespace, the restriction to one node and the table and node list it leaves when a partition has no node |
| `TrackerObject.ScanTracker.SpreadLimit` | src/main/aerospike/as_partition_tracker.c:422-446 | Every node gets its share of the limit, or one record and a check of the total |
| `TrackerObject.ScanTracker.ReachedMaxRecords` | src/include/aerospike/as_partition_tracker.h:135-159 | Counts the arrival and discards it, marking the node, once the limit is reached |
| `TrackerObject.ScanTracker.SetDigestOf` | src/include/aerospike/as_partition_tracker.h:110-119 | The cursor of the digest's partition and the node's record count |
| `TrackerObject.ScanTracker.SetLast` | src/include/aerospike/as_partition_tracker.h:121-133 | The same with the index value of a query |
| `TrackerObject.ScanTracker.MarkUnavailable` | src/main/aerospike/as_partition_tracker.c:450-461 | Exactly that partition is marked and moves to its next replica, modulo 256; the node counts one more |
| `TrackerObject.ScanTracker.MarkRetry` | src/main/aerospike/as_partition_tracker.c:202-238 | Both lists of a node are marked, with or without moving to the next replica |
| `TrackerObject.ScanTracker.ShouldRetry` | src/main/aerospike/as_partition_tracker.c:598-619 | Exactly on statuses -10, -8, -6, 9, 11, 201 and 203 the partitions of the node are marked and all of them counted unavailable; on others nothing changes |
| `TrackerObject.ScanTracker.Complete` | src/main/aerospike/as_partition_tracker.c:463-596 | All branches of the end of a round: done, retry marks, another round with the remaining limit, errors |
| `TrackerAssign.AssignLoop` | src/main/aerospike/as_partition_tracker.c:342-368 | After the loop each selected partition has its mark cleared and, unless a restriction to another node leaves it out, is in exactly the entry of its node, in the right list, and no other partition changed; on failure exactly the partitions before the failing one changed |
| `TrackerAssign.ShareConserved` | src/main/aerospike/as_partition_tracker.c:422-432 | The nodes' limits add up to the page's limit and each is at least one |
| `TrackerAssign.MarkIdsAt` | src/main/aerospike/as_partition_tracker.c:202-238 | Exactly the listed partitions are marked; after an error each moves on by as many replicas, modulo 256, as it is listed, otherwise none moves |
| `TrackerAssign.MarkMoreAt` | src/main/aerospike/as_partition_tracker.c:501-523 | Exactly the partitions of nodes that may have more are newly marked |
| `TrackerSystem.ResumeAfter` | src/include/aerospike/as_partition_filter.h:102-117 | A cursor at a record resumes with the next one |
| `TrackerSystem.AfterIs` | src/include/aerospike/as_partition_filter.h:102-117 | Any cursor skips exactly the records up to its place, whether or not there is one at that place |
| `TrackerPages.NoLossNoDuplicate` | src/include/aerospike/as_partition_tracker.h:110-159 | In every state of every run the application has kept, per partition, a gapless initial piece of the records after the filter's start, in order and without repetition |
| `TrackerHanded.KeptAreLogged` | src/main/aerospike/aerospike_scan.c:309-327 | The records kept are those the callback returned true for, in the order of the calls |
| `TrackerHanded.HandedTwiceExactly` | src/main/aerospike/aerospike_scan.c:314-325 | Two calls of the callback get the same record if and only if the first returned false and so did every call for the partition in between |
| `TrackerHanded.NoRepetitionIff` | src/main/aerospike/aerospike_query.c:477-495 | No record of a partition is handed over twice if and only if no call but perhaps the last returned false |
| `TrackerHanded.NeverRefusing` | src/main/aerospike/aerospike_scan.c:205-220 | A callback that never returns false is handed a gapless initial piece of each partition, in order and without repetition |
| `TrackerHanded.HandedLimit` | src/include/aerospike/as_partition_tracker.h:135-159 | A page hands over no more records than its limit, refused ones included |
| `TrackerRuns.RefusedRecordRepeats` | examples/scan_examples/standard/src/main/example.c:486-492 | A concrete run in which a refused record is handed over again by the next page |
| `TrackerPages.DoneMeansAll` | src/main/aerospike/as_partition_tracker.c:480-527 | Whenever the table says done, the application has kept every record of every partition |
| `TrackerPages.UnmarkedMeansAll` | src/main/aerospike/as_partition_tracker.c:492-526 | Between pages, a partition the next page will not ask for was delivered completely |
| `TrackerPages.PageLimit` | src/main/aerospike/as_partition_tracker.c:588-591 | The application never keeps more records of a page than its limit, over all its rounds |
| `TrackerPages.ExactLimit` | src/include/aerospike/as_partition_tracker.h:135-159 | When the limit is below the number of nodes, accepted records are the minimum of arrivals and limit for every interleaving, and a node is marked exactly if one of its records was discarded |
| `TrackerPages.PageProgress` | src/main/aerospike/as_partition_tracker.c:433-445 | A limited page that completes in its first round with all partitions available reports done or delivers something |
| `TrackerPages.PagesBounded` | src/main/aerospike/as_partition_tracker.c:480-527 | Pagination ends: in every run the pages of this kind that end without done are at most as many as there are records |
| `TrackerOutcomes.PageAsks` | src/main/aerospike/as_partition_tracker.c:324-368 | A page starts exactly if everything it is to read has a node, and its first round asks for exactly that: all partitions, if all are to be retried or there is no limit, else the marked ones |
| `TrackerOutcomes.RoundRepeated` | src/main/aerospike/as_partition_tracker.c:529-596 | A page goes on with another round exactly if partitions were unavailable, the limit is not reached, retries and time are left and the marked partitions have nodes; that round asks for exactly the marked ones |
| `TrackerOutcomes.RoundsBounded` | src/main/aerospike/as_partition_tracker.c:536-556 | In every run a page has at most one round more than it has retries |
| `TrackerOutcomes.UnlimitedPageEnds` | src/main/aerospike/as_partition_tracker.c:480-482 | A page without a limit that ends with all partitions available reports done, and every record was kept |
| `TrackerOutcomes.LimitedDoneIff` | src/main/aerospike/as_partition_tracker.c:492-527 | A limited page that ends in its first round with all partitions available reports done if and only if no node had a record discarded or reached its limit, or, before partition queries, no node sent anything |
| `TrackerOutcomes.LimitedMarks` | src/main/aerospike/as_partition_tracker.c:497-523 | Afterwards exactly the partitions of nodes that may have more are marked, and nothing else of the table changes |
| `TrackerOutcomes.OtherwiseRetried` | src/main/aerospike/as_partition_tracker.c:483-491 | Every other end of a page leaves all partitions to be retried and never sets done |
| `TrackerPages.StepKeeps` | src/main/aerospike/aerospike_scan.c:880-998 | Every step of pages, rounds, threads, failures and aborts keeps the invariant |
| `TrackerPages.CompleteKeeps` | src/main/aerospike/as_partition_tracker.c:463-596 | So does the end of a round, in all of its outcomes |
| `TrackerPages.AsyncStartExact` | src/main/aerospike/aerospike_scan.c:1200-1206 | An asynchronous page that cannot be assigned keeps pagination sound exactly if all partitions are retried anyway or every marked partition before the failing one has no records left |
| `TrackerPages.UnsafeStartSkips` | src/main/aerospike/aerospike_query.c:1803-1808 | After an unsafe start a partition with records left is in no request of the next limited page, whatever the cluster looks like |
| `TrackerDrain.UnsafeStartLoses` | src/main/aerospike/aerospike_scan.c:1200-1206 | After every unsafe start some continuation reports done with a record undelivered |
| `TrackerDrain.StartSafeIff` | src/main/aerospike/aerospike_scan.c:1200-1206 | A failing start is safe if and only if no continuation without further unsafe starts reports done with a record missing |
| `TrackerDrain.KnownSafeIff` | src/main/aerospike/as_partition_tracker.c:342-354 | A failing start is safe on every server content that fits the client's table and log if and only if all partitions are retried anyway or no marked partition precedes the first one without a node, which the client can check |
| `TrackerDrain.DrainPage` | src/main/aerospike/as_partition_tracker.c:492-526 | From every table with a marked partition a limited page exists that reads exactly the marked partitions to their end |
| `TrackerRuns.AsyncStartLosesRecord` | src/main/aerospike/aerospike_scan.c:1200-1206 | A concrete run ends with done although a record was never delivered |
| `RefCountProof.NeverFaults` | src/include/aerospike/as_cluster.h:523-547 | Over every interleaving in which nothing is collected while a thread is between load and increment, no destroyed object is accessed and none is released too often |
| `RefCountProof.DestroyedOnce` | src/include/aerospike/as_node.h:532-566 | Every array and node is destroyed at most once, then has no holder and no thread about to reserve it, and until then its counter is its number of holders, which is not zero |
| `RefCountProof.StepKeeps` | src/main/aerospike/as_cluster.c:191-226 | Every step keeps counters equal to holders: creating, copying, publishing, mapping, collecting, loading, reserving and releasing |
| `RefCountContents.Published` | src/main/aerospike/as_cluster.c:200-225 | Whatever other threads do meanwhile, the published array holds exactly the copied entries of the old one and the adopted nodes, in order, and the old array waits for the collector unchanged |
| `RefCountContents.PublishedIs` | src/main/aerospike/as_cluster.c:505-558 | Adding nodes publishes the old entries followed by the new nodes; removing nodes publishes the kept entries in order |
| `RefCountContents.MapShows` | src/main/aerospike/as_partition.c:340-360 | After any run a slot of the partition map shows the node stored there last |
| `RefCountContents.HoldsLoaded` | src/include/aerospike/as_cluster.h:523-547 | Over every interleaving a thread that loaded a pointer and increments its counter holds the object it loaded |
| `RefCountContents.ReservesEntry` | src/include/aerospike/as_node.h:532-566 | Reserving an entry of a held array gives that entry |
| `RefCountContents.HeldUntilReleased` | src/include/aerospike/as_cluster.h:523-547 | A held array stays the same object with the same entries until it is released |
| `RefCountProof.ReleaseEntryKeeps` | src/main/aerospike/as_cluster.c:89-97 | A destroyed array gives back each entry's reference once |
| `RefCountProof.PublishKeeps` | src/main/aerospike/as_cluster.c:216-225 | Replacing the array moves the old array's reference to the collector, so pointers loaded before stay valid |
| `RefCountProof.MapStoreKeeps` | src/main/aerospike/as_partition.c:33-60 | The partition map's own count is its number of places for a node and stands for one reference, given to the collector with the last place |
| `RefCountProof.CollectFaultExact` | src/main/aerospike/as_cluster.c:796-804 | Collecting an item leaves a thread about to touch destroyed memory exactly if it is the last reference and a thread has loaded the object without reserving it |
| `RefCountProof.UndelayedRunFaults` | src/main/aerospike/as_node.c:346-368 | Without the delay, five steps suffice for such an access |
| `PoolProtocol.WithinCapacity` | src/include/aerospike/as_conn_pool.h:125-139 | Without a minimum, pooled, used and closing connections never exceed the capacity and a connection can always be put back |
| `PoolProtocol.WithinCapacityAndMinimum` | src/main/aerospike/as_node.c:555-585 | In general they never exceed capacity plus minimum |
| `PoolProtocol.BoundReached` | src/main/aerospike/as_node.c:555-585 | That bound is exact: a run reaches it for every capacity and minimum |
| `PoolProtocol.CapacityKeptIff` | src/main/aerospike/as_node.c:654-668 | The capacity is kept in all runs if and only if the minimum is zero |
| `PoolProtocol.PutBackIff` | src/include/aerospike/as_node.h:644-657 | The close branch of putting a connection back is never taken if and only if the minimum is zero |
| `PoolProtocol.TotalAccounts` | src/include/aerospike/as_conn_pool.h:125-139 | The total is the connections plus pending take-backs minus one the tend thread has not counted yet, and wraps exactly when that one was already closed |
| `PoolProtocol.RefusedOnlyWhenFull` | src/main/aerospike/as_node.c:654-668 | Without a minimum a thread is refused exactly if connections and other refused threads fill the capacity |
| `PoolProtocol.RefusedByEmptyPool` | src/main/aerospike/as_node.c:576-578 | With a minimum a thread can be refused by a pool without connections |
| `PoolProtocol.StepKeeps` | src/main/aerospike/as_node.c:607-735 | Every step of threads and tend thread keeps the accounting |
| `PoolProtocol.Ledger` | src/main/aerospike/as_node.c:555-735 | The books of every run balance: connections taken or created against those in use, put back and closed; requests against admissions and refusals; closed ones against the total; put back and filled ones against those pooled and taken |
| `PoolProtocol.FillStops` | src/main/aerospike/as_node.c:555-585 | Filling ends at the first connection that cannot be opened or does not fit, and otherwise after as many as were missing |
| `NodePools.PoolsIndependent` | src/main/aerospike/as_node.c:216-234 | The states of a node are exactly the combinations of states its pools reach on their own with their shares of the limits |
| `NodePools.NodeWithin` | src/main/aerospike/as_node.c:224-234 | In every run the connections of all pools of a node together are at most its maximum plus its minimum |
| `NodePools.NodeBoundReached` | src/main/aerospike/as_node.c:555-585 | That bound is exact: for all limits and numbers of pools a run reaches it |
| `NodePools.NodeMaximumKeptIff` | src/main/aerospike/as_node.c:224-234 | A node keeps its maximum in every run if and only if it has no minimum |
| `PoolSearch.Search` | src/main/aerospike/as_node.c:613-692 | The loop starts at the pool whose turn it is and returns the first position on the path of prefix sums that grants a connection, or none if none of as many positions as there are pools does |
| `PoolSearch.TakesTurns` | src/main/aerospike/as_node.c:624-625 | Among as many calls in a row as there are pools every pool is the first one tried by exactly one |
| `PoolSearch.SearchInRange` | src/main/aerospike/as_node.c:669-686 | The path stays within the node's pools if and only if there are at most two |
| `PoolSearch.SearchComplete` | src/main/aerospike/as_node.c:669-686 | It tries every pool if and only if there is one, or there are two and it starts at the first |
| `PoolSearch.PositionUp` | src/main/aerospike/as_node.c:682-685 | On the way up the position after k moves is the k-th triangular number, whatever the start |
| `PoolSearch.IndexOnto` | src/main/aerospike/as_node.c:669-684 | The index itself names every pool exactly once |
| `SyncPool.PoolSplit` | src/main/aerospike/as_node.c:224-234 | The pools' limits add up to the node's, and no pool's minimum exceeds its capacity |
| `Prelude.SharesEven` | src/main/aerospike/as_node.c:224-234 | Shares differ by at most one and the larger ones come first |
| `SyncPool.ConnPool.PopHead` | src/include/aerospike/as_conn_pool.h:68-79 | Takes the newest connection, if any |
| `SyncPool.ConnPool.PopTail` | src/include/aerospike/as_conn_pool.h:81-92 | Takes the oldest connection, if any |
| `SyncPool.ConnPool.PushHead` | src/include/aerospike/as_conn_pool.h:94-105 | Adds in front exactly if the queue is below capacity |
| `SyncPool.ConnPool.PushTail` | src/include/aerospike/as_conn_pool.h:107-118 | Adds at the end exactly if the queue is below capacity |
| `SyncPool.ConnPool.Incr` | src/include/aerospike/as_conn_pool.h:120-129 | Wrapping addition; true exactly if the total was below capacity before |
| `SyncPool.ConnPool.Excess` | src/include/aerospike/as_conn_pool.h:141-149 | The unsigned difference read as a signed number is the true difference |
| `SyncPool.ConnPool.CloseIdle` | src/main/aerospike/as_node.c:694-714 | Whatever other threads do at the head between its steps: closes from the end at most the given number of stale connections and ends at that number, with an empty pool, or at the first current connection, which is back at the end, or closed because others have filled the pool; no connection is lost and the total falls by those closed; undisturbed, it closes exactly a suffix of the queue |
| `SyncPool.ConnPool.Destroy` | src/include/aerospike/as_conn_pool.h:151-169 | Closes every pooled connection |
| `AsyncPool.RunConserved` | src/include/aerospike/as_event_internal.h:744-815 | Over any sequence of admissions, returns, takes, closes, drops and limit changes each admission is accounted for once, in the total, among the closed or among the dropped, and the total is the connections idle or out |
| `AsyncPool.NeverRises` | src/include/aerospike/as_event_internal.h:744-752 | Over any sequence without a limit change the total stays below the larger of itself and the limit, so an oversized pool only shrinks |
| `AsyncPool.NoPushAbove` | src/include/aerospike/as_event_internal.h:754-770 | As long as the total is above the limit nothing is pushed |
| `AsyncPool.LastInFirstOut` | src/include/aerospike/as_event_internal.h:754-761 | The connection put back last is taken first: whatever is put back and taken in between, the next command to reach it gets it, with the others behind it unchanged |
| `AsyncPool.LimitInForce` | src/main/aerospike/as_async.c:86-108 | After any sequence of operations the limit is the one set last |
| `AsyncPool.Pool.IncrTotal` | src/include/aerospike/as_event_internal.h:744-752 | Admits exactly below the limit |
| `AsyncPool.Pool.PushHead` | src/include/aerospike/as_event_internal.h:754-770 | Accepted exactly while the total is at most the limit |
| `AsyncPool.Pool.PopHead` | src/main/aerospike/as_event.c:662-685 | The head of the queue goes out with the command |
| `AsyncPool.Pool.ReleaseConnection` | src/include/aerospike/as_event_internal.h:772-778 | One connection leaves the total and counts as closed |
| `AsyncPool.Pool.DecrConn` | src/include/aerospike/as_event_internal.h:788-796 | One connection leaves the total without counting as closed |
| `AsyncPool.UpdateMaxConns` | src/main/aerospike/as_async.c:86-108 | The new maximum is split over the pools of a node's event loops and nothing but the limits changes |
| `AsyncPool.LimitsAddUp` | src/main/aerospike/as_async.c:89-99 | The split limits add up to the new maximum |
| `AsyncPool.Pool.PutConnection` | src/main/aerospike/as_event.c:1019-1027 | Back into the pool, or closed while there are too many |
| `AsyncPool.Pool.PutAll` | src/main/aerospike/as_event.c:1019-1027 | After the limit was lowered, finishing commands bring the total down to the limit and no further, closing exactly the difference |
| `InDoubt.Execute` | src/main/aerospike/as_command.c:671-926 | The retry loop computes the function `Exec`: status, number of sends and flag; the transaction is told exactly of a write with the flag unless a split batch settled the command |
| `InDoubt.PrepareError` | src/main/aerospike/as_command.c:658-669 | Sets the flag, and tells the transaction exactly if there is one and the flag is set |
| `InDoubt.Error.Set` | src/include/aerospike/as_error.h:183-237 | Every setter clears the flag |
| `InDoubt.FlagMeans` | src/include/aerospike/as_error.h:239-251 | For every run: a failed write without the flag was never sent, or sent once and ended with a positive status other than timeout; two sends imply the flag; reads and successes never have it |
| `InDoubt.RunStops` | src/main/aerospike/as_command.c:846-890 | Every attempt before the last had a status that is tried again (11, 18, -10 or 9 from an answer, a timeout or client error of a connection, any failed write, the error rate), left time and was not split; the last one had another status, was the last allowed, used up the time or was split; status, flag and sends of the run follow from it |
| `InDoubt.InDoubtExact` | src/main/aerospike/as_command.c:719-729 | A failed write that may have completed has the flag unless it was sent once and the run ended with the server refusing a connection |
| `InDoubt.SoundIff` | src/main/aerospike/as_node.c:527-545 | Known before the call: the flag is right about every write that may have completed, in every environment, if and only if there are no retries or the cluster does not authenticate |
| `InDoubt.MissedExample` | src/main/aerospike/as_command.c:721-729 | Sent, timed out, refused on retry: reported as not in doubt, for every positive number of retries |
| `Wire.FieldsRoundTrip` | src/include/aerospike/as_command.h:415-524 | Any sequence of fields is recovered by a reader of lengths and ids, in order: strings and buffers themselves, numbers in their byte order modulo their width |
| `Wire.NumberRecovered` | src/include/aerospike/as_command.h:445-524 | A number is recovered exactly if it fits its width, in both byte orders; a version exactly below 2^56 |
| `Wire.SizeExact` | src/include/aerospike/as_command.h:269-283 | The size functions give the number of bytes written |
| `Wire.HeaderBitsDisjoint` | src/include/aerospike/as_command.h:563-570 | For lengths below 2^48 version, type and length can be cut out of the header word again |
| `Wire.HeaderBitsSum` | src/include/aerospike/as_command.h:567-568 | Then joining the three parts is adding them |
| `Wire.HeaderBitsSpill` | src/include/aerospike/as_command.h:567-568 | The high bits of a length are joined into type and version; the low 48 bits are the length if and only if it is below 2^48 |
| `Wire.HeaderBitsWord` | src/include/aerospike/as_command.h:566-568 | For lengths below 2^48 the word of shifts and joins is the number of version, type and length |
| `Wire.FrameRoundTrip` | src/include/aerospike/as_proto.h:89-94 | A receiver reads version, type and length back from the bytes of the source's header word if and only if the length is below 2^48 |
| `Wire.FrameAccepted` | src/main/aerospike/as_proto.c:83-96 | A written frame is accepted exactly if its body is at most 128 MiB |
| `Wire.ParseProtoIff` | src/main/aerospike/as_proto.c:83-96 | Any eight bytes are accepted exactly if they start with version 2 and announce at most 128 MiB |
| `Wire.CompressedSizeRoundTrip` | src/include/aerospike/as_proto.h:157-166 | The uncompressed size is read back exactly if it is at most 128 MiB, and refused otherwise |
| `WireWriter.WriteFieldHeader` | src/include/aerospike/as_command.h:415-422 | Five bytes change: the big-endian length of id and payload, and the id |
| `WireWriter.WriteFieldString` | src/include/aerospike/as_command.h:428-439 | The bytes before the null byte are written behind the header that is filled in last; nothing else changes |
| `WireWriter.WriteFieldNumber` | src/include/aerospike/as_command.h:445-487 | Number fields in either byte order; nothing else changes |
| `WireWriter.WriteFieldBytes` | src/include/aerospike/as_command.h:493-511 | Buffer and digest fields; nothing else changes |
| `WireWriter.WriteFieldVersion` | src/include/aerospike/as_command.h:517-524 | Seven bytes of the little-endian word; nothing else changes |
| `WireWriter.WriteFields` | src/include/aerospike/as_command.h:411-524 | Fields written one after another occupy exactly the bytes of the summed sizes, and nothing outside them changes |
| `WireWriter.HeaderNumber` | src/include/aerospike/as_command.h:566-568 | The word computed with shifts and joins from the length and type |
| `WireWriter.WriteEnd` | src/include/aerospike/as_command.h:563-570 | Eight bytes change, to the header word; they are read back as message type and remaining length if and only if that is below 2^48 |
| `WireWriter.CompressWriteEnd` | src/include/aerospike/as_command.h:576-584 | Sixteen bytes change: the header word and the uncompressed size, and both are read back |
| `UvTimer.Command.Lifetime` | src/include/aerospike/as_event_internal.h:449-513 | For any sequence of calls followed by the release: the handle is initialised at most once, initialised and closed exactly if a timer was started, and the memory is freed exactly once, directly only without a timer |
| `UvTimer.Command.TimerOnce` | src/include/aerospike/as_event_internal.h:449-458 | One-shot timer running; the handle is initialised only the first time |
| `UvTimer.Command.TimerRepeat` | src/include/aerospike/as_event_internal.h:460-469 | Repeating timer running |
| `UvTimer.Command.TimerStop` | src/include/aerospike/as_event_internal.h:477-483 | Stops a handle that exists |
| `UvTimer.Command.Release` | src/include/aerospike/as_event_internal.h:503-513 | Closes the handle, or frees the memory if there is none |
| `UvTimer.Command.TimerClosed` | src/main/aerospike/as_event_uv.c:69-73 | The memory is freed once the handle is closed |
| `CdtContext.PackUnpack` | src/main/aerospike/as_cdt_internal.c:91-120 | Every well-tagged context survives serialisation |
| `CdtContext.UnpackPack` | src/main/aerospike/as_cdt_internal.c:134-193 | Every accepted list gives a well-tagged context, and is what that context packs to if and only if its codes have 32 bits |
| `CdtContext.PackAt` | src/main/aerospike/as_cdt_internal.c:91-120 | A serialised context alternates the code and the argument of its levels, in order |
| `CdtContext.UnpackIff` | src/main/aerospike/as_cdt_internal.c:134-193 | A list is accepted exactly if it has an integer code at every even place and an integer behind every code without the value bit |
| `CdtContext.LevelRecovered` | src/include/aerospike/as_cdt_order.h:73-76 | For every level the interface offers the union holds a value exactly if the type has the value bit, the kind can be read off the type, and its two high bits are none without creation, ordered, padded or plain for a list, and the order for a map |
| `CdtContext.Context.Add` | src/include/aerospike/as_cdt_ctx.h:153-300 | One well-tagged level is appended, with kind, create request and argument as asked for |
| `CdtContext.Context.Destroy` | src/main/aerospike/as_cdt_ctx.c:27-41 | Exactly the values are released, each once |
| `CdtContext.ValuesAt` | src/main/aerospike/as_cdt_ctx.c:27-41 | What is released are the values of the items, in order, each once, and nothing else |
| `CdtContext.Packer.PackTwice` | src/include/aerospike/as_cdt_internal.h:31-45 | A body that packs at least one byte runs exactly twice and fills a buffer of exactly the measured size |
| `AsyncLayout.CreateLayout` | src/include/aerospike/as_async.h:88-107 | The block is the least multiple of the unit that holds structure, write buffer and authentication message; the regions lie one behind the other and what is left behind the write buffer holds an authentication message |
| `AsyncLayout.Mask1024` | src/include/aerospike/as_async.h:90 | Masking off the low ten bits takes away the remainder modulo 1024 |
| `AsyncLayout.Mask4096` | src/include/aerospike/as_async.h:135 | Masking off the low twelve bits takes away the remainder modulo 4096 |
| `AsyncLayout.RoundUp` | src/include/aerospike/as_async.h:90 | The masked sum is the number rounded up to the unit |
| `ConfigBits.OneBit` | src/include/aerospike/as_config_file.h:127-140 | Marking a field changes that field's bit and no other |
| `ConfigBits.Bitmap.Set` | src/include/aerospike/as_config_file.h:127-131 | The field joins the marked fields |
| `ConfigBits.WithBitAt` | src/include/aerospike/as_config_file.h:127-131 | The byte at an eighth of the offset gets the bit numbered by the remainder; no other byte changes |
| `ConfigBits.Bitmap.IsSet` | src/include/aerospike/as_config_file.h:136-140 | Tells exactly the marked fields |
| `ConfigBits.Bitmap.SetAll` | src/include/aerospike/as_config_file.h:124-140 | After any sequence of marks exactly the fields of the sequence are set |
| `ConfigBits.BlocksApart` | src/include/aerospike/as_config_file.h:75-100 | The four batch blocks neither overlap nor reach into the scalar fields, and all lie in the bitmap |

## Left out

- The order of records within a secondary index query beyond its cursor: a record's place is one number; the index value is only stored.
- Serialised partition status, filters and expressions in base64; the argument checks of partition filters.
- MessagePack byte layout: list headers and scalars are tokens with an arbitrary size.
- ExpCorrect.CompileCorrect: is stated for tables of at most 2^31 entries, the range of the source's signed place of an open operator.
- ExpCompile.Compile: tables not produced by the macros are compiled by the model as by the code, but nothing is claimed about the result; value packing failures are a parameter of the entry; what the second loop does when the buffer is too small is not modelled.
- TrackerPages.StepKeeps: the theorems about pages are for scans and queries of all nodes, not for those restricted to one node, whose other partitions are not read; the namespace has a partition table throughout.
- TrackerSystem.ResumeAfter: the records of a partition do not change during pagination.
- TrackerDrain.KnownSafeIff: a server content fits the client if it satisfies the invariant with the client's table and log; that the same history of messages could have happened on it is not claimed.
- PoolProtocol.StepKeeps: sockets have no identity; a state counts connections and threads.
- InDoubt.Execute: how nodes are chosen, connections handled and times computed; a command that could not be written completely counts as not sent, as in the code.
- CdtContext.Packer.PackTwice: a body that packs nothing depends on what an allocation of zero bytes returns.
- Directly destroyed nodes that were never published, cluster shutdown, shared memory tending and the partition map bitmaps.
- Memory ordering of atomics, sockets, TLS, authentication content, compression and digests.
- libev and libevent variants of the timer, pipelining and the event loop's queues.
- Transactions and batch commands beyond the retry loop, policies, and reading configuration files.
- List, map, bit and HyperLogLog operation wrappers, whose semantics is on the server.
