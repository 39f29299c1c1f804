/** The tracker as the object the client updates in place: the partition table is shared with the next page,
the node list belongs to the tracker.  Every method is tied to the function that says what it computes. */
module TrackerObject {
  import opened Prelude
  import opened PartitionTracker

  lemma {:induction false} FindNodeIs(nodes: seq<NodeParts>, node: nat, k: nat)
    requires k < |nodes| && nodes[k].node == node && forall j :: 0 <= j < k ==> nodes[j].node != node
    ensures FindNode(nodes, node) == k
  {
    if k < |nodes| - 1 { FindNodeIs(nodes[..|nodes| - 1], node, k); }
  }

  /** `find_node_partitions` */
  method FindNodePartitions(nodes: seq<NodeParts>, node: nat) returns (k: int)
    ensures k == FindNode(nodes, node) && -1 <= k < |nodes|
    ensures k >= 0 ==> nodes[k].node == node && forall j :: 0 <= j < k ==> nodes[j].node != node
    ensures k == -1 ==> forall j :: 0 <= j < |nodes| ==> nodes[j].node != node
  {
    for i := 0 to |nodes|
      invariant forall j :: 0 <= j < i ==> nodes[j].node != node
    {
      if nodes[i].node == node {
        FindNodeIs(nodes, node, i);
        return i;
      }
    }
    return -1;
  }

  /** Only entry k of the node is different, new or not: it has the partition once more, at the end of the list of
      resumed partitions if there is a cursor, and of the list of whole ones otherwise. */
  ghost predicate JoinsEntry(before: seq<NodeParts>, nodes: seq<NodeParts>, k: nat, ps: PartStatus, node: nat)
    requires k < |nodes|
  {
    var np := if k < |before| then before[k] else NodeParts(node, [], [], 0, 0, 0, false);
    && np.node == node
    && (if k < |before| then |nodes| == |before| else k == |before| && |nodes| == k + 1)
    && (forall j :: 0 <= j < |before| && j != k ==> nodes[j] == before[j] && (k == |before| ==> before[j].node != node))
    && nodes[k] == if ps.cursor.Some? then np.(partial := np.partial + [ps.id]) else np.(full := np.full + [ps.id])
  }

  class PartitionsStatus {
    const begin: nat
    const parts: array<PartStatus>
    var done: bool
    var retry: bool

    ghost function Value(): Parts
      reads this, parts
    {
      Parts(begin, done, retry, parts[..])
    }

    /** `parts_create` */
    constructor (begin: nat, count: nat, after: Option<Digest>)
      requires count > 0
      ensures fresh(parts) && Value() == Create(begin, count, after)
      ensures this.begin == begin && !done && retry && parts.Length == count
      ensures forall i :: 0 <= i < count ==>
                parts[i] == PartStatus(begin + i, 0, true, if i == 0 then after else None, 0, None)
    {
      this.begin := begin;
      var a := new PartStatus[count](_ => PartStatus(0, 0, false, None, 0, None));
      for i := 0 to count
        invariant forall j :: 0 <= j < i ==> a[j] == NewPart(begin + j)
      {
        a[i] := PartStatus(begin + i, 0, true, None, 0, None);
      }
      assert a[..] == NewParts(begin, count);
      if after.Some? {
        a[0] := a[0].(cursor := after);
      }
      parts, done, retry := a, false, true;
    }

    /** `as_partition_error` */
    method MarkAll()
      modifies this
      ensures Value() == Failed(old(Value())) && retry && done == old(done)
    {
      retry := true;
    }
  }

  /** The partition is to be retried on its next replica, a number of eight bits. */
  function MovedOn(ps: PartStatus): PartStatus
  {
    ps.(retry := true, replicaIndex := if ps.replicaIndex % 256 == 255 then 0 else ps.replicaIndex % 256 + 1)
  }

  /** Number of partitions of a node entry. */
  function Held(np: NodeParts): nat { |np.full| + |np.partial| }

  class ScanTracker {
    const all: PartitionsStatus
    var nodes: seq<NodeParts>
    var maxRecords: nat
    var recordCount: nat
    var checkMax: bool
    var iteration: nat
    const maxRetries: nat

    ghost function Value(): Tracker
      reads this, all, all.parts
    {
      Tracker(all.Value(), nodes, maxRecords, recordCount, checkMax, iteration, maxRetries)
    }

    /** `tracker_init` on a table of an earlier page. */
    constructor (all: PartitionsStatus, maxRecords: nat, maxRetries: nat)
      modifies all, all.parts
      ensures this.all == all && Value() == Resume(old(all.Value()), maxRecords, maxRetries)
      ensures nodes == [] && this.maxRecords == maxRecords && this.maxRetries == maxRetries && iteration == 1
      ensures recordCount == 0 && !checkMax && all.done == old(all.done)
      ensures all.retry == (old(all.retry) || maxRecords == 0)
      ensures forall i :: 0 <= i < all.parts.Length ==>
                all.parts[i] == old(all.parts[i]).(replicaIndex := 0, node := None)
    {
      this.all := all;
      if maxRecords == 0 {
        all.retry := true;
      }
      ghost var before := all.parts[..];
      for i := 0 to all.parts.Length
        modifies all.parts
        invariant forall j :: 0 <= j < i ==> all.parts[j] == before[j].(replicaIndex := 0, node := None)
        invariant forall j :: i <= j < all.parts.Length ==> all.parts[j] == before[j]
      {
        all.parts[i] := all.parts[i].(replicaIndex := 0, node := None);
      }
      assert all.parts[..] == ResetParts(before);
      nodes, recordCount, checkMax, iteration := [], 0, false, 1;
      this.maxRecords, this.maxRetries := maxRecords, maxRetries;
    }

    /** `assign_partition` */
    method AssignPartition(ps: PartStatus, node: nat)
      modifies this`nodes
      ensures nodes == AddPart(old(nodes), ps, node)
      ensures exists k :: 0 <= k < |nodes| && JoinsEntry(old(nodes), nodes, k, ps, node)
    {
      var k := FindNodePartitions(nodes, node);
      if k < 0 {
        k := |nodes|;
        nodes := nodes + [NewNode(node)];
      }
      if ps.cursor.Some? {
        nodes := nodes[k := nodes[k].(partial := nodes[k].partial + [ps.id])];
      } else {
        nodes := nodes[k := nodes[k].(full := nodes[k].full + [ps.id])];
      }
      assert JoinsEntry(old(nodes), nodes, k, ps, node);
    }

    /** `as_partition_tracker_assign`; `known`: the namespace has a partition table. */
    method Assign(known: bool, choice: seq<Choice>) returns (st: Status)
      requires |choice| == all.parts.Length && nodes == []
      modifies this, all, all.parts
      ensures (st, Value()) == if known then PartitionTracker.Assign(old(Value()), choice)
                               else (NamespaceNotFound, old(Value()))
      ensures st == InvalidNode ==>
                nodes == AssignFrom(old(all.parts[..]), [], old(all.retry) && old(iteration) == 1, choice, 0).nodes
    {
      hide AssignFrom;
      if !known {
        return NamespaceNotFound;
      }
      var found := AssignAll(all.retry && iteration == 1, choice);
      if !found || nodes == [] {
        return InvalidNode;
      }
      all.retry := true;
      recordCount := 0;
      checkMax := false;
      SpreadLimit();
      return Ok;
    }

    /** The loop over the partitions; false if one of them has no node. */
    method AssignAll(retryAll: bool, choice: seq<Choice>) returns (found: bool)
      requires |choice| == all.parts.Length && nodes == []
      modifies this`nodes, all.parts
      ensures match AssignFrom(old(all.parts[..]), [], retryAll, choice, 0)
              case NoNode(ps, ns, _) => !found && all.parts[..] == ps && nodes == ns
              case AllAssigned(ps, ns) => found && all.parts[..] == ps && nodes == ns
    {
      ghost var goal := AssignFrom(all.parts[..], [], retryAll, choice, 0);
      var i := 0;
      while i < all.parts.Length
        invariant i <= all.parts.Length
        invariant AssignFrom(all.parts[..], nodes, retryAll, choice, i) == goal
      {
        if retryAll || all.parts[i].retry {
          ghost var ps := all.parts[..];
          all.parts[i] := all.parts[i].(replicaIndex := choice[i].replicaIndex);
          if choice[i].node.None? {
            assert all.parts[..] == ps[i := all.parts[i]];
            return false;
          }
          all.parts[i] := all.parts[i].(node := choice[i].node, retry := false);
          assert all.parts[..] == ps[i := all.parts[i]];
          if !choice[i].elsewhere {
            AssignPartition(all.parts[i], choice[i].node.value);
          }
        }
        i := i + 1;
      }
      return true;
    }

    /** The end of the assignment: the limit is spread over the nodes. */
    method SpreadLimit()
      requires nodes != [] && !checkMax
      modifies this`nodes, this`checkMax
      ensures nodes == Limited(old(nodes), maxRecords) && |nodes| == |old(nodes)|
      ensures 0 < maxRecords < |nodes| ==> forall k :: 0 <= k < |nodes| ==> nodes[k].recordMax == 1
      ensures maxRecords == 0 ==> nodes == old(nodes)
      ensures checkMax == (0 < maxRecords < |nodes|)
    {
      ghost var before := nodes;
      var n := |nodes|;
      if maxRecords == 0 {
        assert nodes == Limited(before, maxRecords);
        return;
      }
      var max, rem := 1, 0;
      if maxRecords >= n {
        max := maxRecords / n;
        rem := maxRecords - max * n;
        assert rem == maxRecords % n;
      } else {
        checkMax := true;
      }
      for i := 0 to n
        modifies this`nodes
        invariant |nodes| == n
        invariant forall j :: 0 <= j < i ==> nodes[j] == before[j].(recordMax := if j < rem then max + 1 else max)
        invariant forall j :: i <= j < n ==> nodes[j] == before[j]
      {
        nodes := nodes[i := nodes[i].(recordMax := if i < rem then max + 1 else max)];
      }
      assert nodes == Limited(before, maxRecords);
    }

    /** `as_partition_tracker_reached_max_records_sync` and `_async`: the addition and the test are one step. */
    method ReachedMaxRecords(k: nat) returns (discard: bool)
      requires k < |nodes|
      modifies this`recordCount, this`nodes
      ensures (discard, Value()) == ReachedMax(old(Value()), k)
      ensures discard <==> checkMax && old(recordCount) >= maxRecords
      ensures recordCount == if checkMax then old(recordCount) + 1 else old(recordCount)
      ensures nodes == if discard then old(nodes)[k := old(nodes)[k].(retry := true)] else old(nodes)
    {
      if checkMax {
        recordCount := recordCount + 1;
        if recordCount > maxRecords {
          nodes := nodes[k := nodes[k].(retry := true)];
          return true;
        }
      }
      return false;
    }

    /** `as_partition_tracker_set_digest`: the partition is computed from the digest. */
    method SetDigestOf(k: nat, d: Digest, partitions: bv16)
      requires k < |nodes| && all.begin <= PartitionId(d, partitions) as int < all.begin + all.parts.Length
      modifies this`nodes, all.parts
      ensures Value() == SetDigest(old(Value()), k, PartitionId(d, partitions) as int - all.begin, d)
      ensures forall o :: 0 <= o < all.parts.Length ==>
                all.parts[o] == if all.begin + o == PartitionId(d, partitions) as int
                                then old(all.parts[o]).(cursor := Some(d)) else old(all.parts[o])
      ensures nodes == old(nodes)[k := old(nodes)[k].(recordCount := old(nodes)[k].recordCount + 1)]
    {
      var o := PartitionId(d, partitions) as int - all.begin;
      all.parts[o] := all.parts[o].(cursor := Some(d));
      nodes := nodes[k := nodes[k].(recordCount := nodes[k].recordCount + 1)];
    }

    /** `as_partition_tracker_set_last`: a query also keeps the index value. */
    method SetLast(k: nat, d: Digest, bval: nat, partitions: bv16)
      requires k < |nodes| && all.begin <= PartitionId(d, partitions) as int < all.begin + all.parts.Length
      modifies this`nodes, all.parts
      ensures var o := PartitionId(d, partitions) as int - all.begin;
              var t := SetDigest(old(Value()), k, o, d);
              Value() == t.(all := t.all.(parts := t.all.parts[o := t.all.parts[o].(bval := bval)]))
    {
      var o := PartitionId(d, partitions) as int - all.begin;
      all.parts[o] := all.parts[o].(cursor := Some(d), bval := bval);
      nodes := nodes[k := nodes[k].(recordCount := nodes[k].recordCount + 1)];
    }

    /** `as_partition_tracker_part_unavailable` */
    method MarkUnavailable(k: nat, id: nat)
      requires k < |nodes| && all.begin <= id < all.begin + all.parts.Length
      modifies this`nodes, all.parts
      ensures Value() == PartUnavailable(old(Value()), k, id - all.begin)
      ensures forall o :: 0 <= o < all.parts.Length ==>
                all.parts[o] == if all.begin + o == id then MovedOn(old(all.parts[o])) else old(all.parts[o])
      ensures nodes == old(nodes)[k := old(nodes)[k].(unavailable := old(nodes)[k].unavailable + 1)]
    {
      var o := id - all.begin;
      all.parts[o] := all.parts[o].(retry := true, replicaIndex := Bump8(all.parts[o].replicaIndex));
      nodes := nodes[k := nodes[k].(unavailable := nodes[k].unavailable + 1)];
    }

    /** One list of `mark_retry` (or, with `bump`, of `mark_retry_on_error`). */
    method MarkList(ids: seq<nat>, bump: bool)
      requires IdsInRange(ids, all.begin, all.parts.Length)
      modifies all.parts
      ensures all.parts[..] == MarkIds(old(all.parts[..]), all.begin, ids, bump)
    {
      ghost var before := all.parts[..];
      for i := 0 to |ids|
        modifies all.parts
        invariant all.parts[..] == MarkIds(before, all.begin, ids[..i], bump)
      {
        ghost var now := all.parts[..];
        var o := ids[i] - all.begin;
        all.parts[o] := all.parts[o].(retry := true, replicaIndex := if bump then Bump8(all.parts[o].replicaIndex)
                                                                     else all.parts[o].replicaIndex);
        assert ids[..i + 1][..i] == ids[..i];
        assert all.parts[..] == now[o := all.parts[o]];
      }
      assert ids[..|ids|] == ids;
    }

    method MarkRetry(np: NodeParts, bump: bool)
      requires NodeInRange(np, all.begin, all.parts.Length)
      modifies all.parts
      ensures all.parts[..] == MarkNode(old(all.parts[..]), all.begin, np, bump)
    {
      MarkList(np.full, bump);
      MarkList(np.partial, bump);
    }

    /** `as_partition_tracker_should_retry` */
    method ShouldRetry(k: nat, status: int) returns (retry: bool)
      requires k < |nodes| && NodeInRange(nodes[k], all.begin, all.parts.Length)
      modifies this`nodes, all.parts
      ensures retry == Retryable(status)
      ensures retry <==> status in {-10, -8, -6, 9, 11, 201, 203}
      ensures retry ==> nodes == old(nodes)[k := old(nodes)[k].(unavailable := Held(old(nodes)[k]))]
      ensures Value() == if retry then NodeFailed(old(Value()), k) else old(Value())
    {
      if status == CLUSTER || status == INVALID_NODE || status == CONNECTION || status == ASYNC_CONNECTION
         || status == TIMEOUT
         || status == INDEX_NOT_FOUND || status == INDEX_NOT_READABLE {
        MarkRetry(nodes[k], true);
        nodes := nodes[k := nodes[k].(unavailable := |nodes[k].full| + |nodes[k].partial|)];
        return true;
      }
      return false;
    }

    method Sums() returns (count: nat, unavailable: nat)
      ensures count == SumCount(nodes) && unavailable == SumUnavailable(nodes)
    {
      count, unavailable := 0, 0;
      for i := 0 to |nodes|
        invariant count == SumCount(nodes[..i]) && unavailable == SumUnavailable(nodes[..i])
      {
        count, unavailable := count + nodes[i].recordCount, unavailable + nodes[i].unavailable;
        assert nodes[..i + 1][..i] == nodes[..i];
      }
      assert nodes[..|nodes|] == nodes;
    }

    /** The loop over the nodes at the end of a first round. */
    method MarkUnfinished(partitionQuery: bool) returns (more: bool)
      requires AllInRange(nodes, all.begin, all.parts.Length)
      modifies all.parts
      ensures all.parts[..] == MarkMore(old(all.parts[..]), all.begin, nodes, partitionQuery)
      ensures more == AnyMore(nodes, partitionQuery)
    {
      ghost var before := all.parts[..];
      more := false;
      for i := 0 to |nodes|
        modifies all.parts
        invariant AllInRange(nodes[..i], all.begin, all.parts.Length)
        invariant all.parts[..] == MarkMore(before, all.begin, nodes[..i], partitionQuery)
        invariant more == AnyMore(nodes[..i], partitionQuery)
      {
        assert nodes[..i + 1][..i] == nodes[..i];
        if MayHaveMore(nodes[i], partitionQuery) {
          MarkRetry(nodes[i], false);
          more := true;
        }
      }
      assert nodes[..|nodes|] == nodes;
    }

    /** `as_partition_tracker_is_complete` */
    method Complete(partitionQuery: bool, timedOut: bool) returns (st: Status)
      requires AllInRange(nodes, all.begin, all.parts.Length)
      modifies this, all, all.parts
      ensures (st, Value()) == IsComplete(old(Value()), partitionQuery, timedOut)
    {
      var count, unavailable := Sums();
      if unavailable == 0 {
        if maxRecords == 0 {
          all.done := true;
        } else if iteration > 1 {
          all.retry := true;
          all.done := false;
        } else {
          all.retry := false;
          var more := MarkUnfinished(partitionQuery);
          all.done := if partitionQuery then !more else count == 0;
        }
        return Ok;
      }
      if maxRecords > 0 && count >= maxRecords {
        return Ok;
      }
      if iteration > maxRetries {
        return SubError;
      }
      if timedOut {
        return Timeout;
      }
      if maxRecords > 0 {
        maxRecords := maxRecords - count;
      }
      nodes := [];
      iteration := iteration + 1;
      return RetryRound;
    }
  }
}
