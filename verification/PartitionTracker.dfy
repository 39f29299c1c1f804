/** Scan and query partition tracking: the values the tracker works on and what each of its
operations computes.

Partitions are addressed by their offset from the first partition of the filter.  Which node
serves a partition, the clock and the order of arriving records come from outside and are
parameters. */
module PartitionTracker {
  import opened Prelude

  /** A record digest: its first two bytes, which select the partition, and its place in the
      server's digest order. */
  datatype Digest = Digest(prefix: bv16, rank: nat)

  /** The partition of a digest: the first two bytes masked with one less than the partition count. */
  function PartitionId(d: Digest, partitions: bv16): bv16 { d.prefix & (partitions - 1) }

  lemma PartitionIdInRange(d: Digest, partitions: bv16)
    requires partitions != 0
    ensures PartitionId(d, partitions) < partitions
  {
  }

  /** For the 4096 partitions of a cluster it is the remainder of the first two bytes. */
  lemma PartitionIdIs(d: Digest)
    ensures PartitionId(d, 4096) == d.prefix % 4096
  {
  }

  datatype PartStatus = PartStatus(id: nat, replicaIndex: nat, retry: bool, cursor: Option<Digest>,
                                   bval: nat, node: Option<nat>)

  /** Status of all partitions of a filter; it outlives the page. */
  datatype Parts = Parts(begin: nat, done: bool, retry: bool, parts: seq<PartStatus>)

  /** The partitions one node scans in the current round. */
  datatype NodeParts = NodeParts(node: nat, full: seq<nat>, partial: seq<nat>, recordCount: nat, recordMax: nat,
                                 unavailable: nat, retry: bool)

  datatype Tracker = Tracker(all: Parts, nodes: seq<NodeParts>, maxRecords: nat, recordCount: nat,
                             checkMax: bool, iteration: nat, maxRetries: nat)

  datatype Status = Ok | NamespaceNotFound | InvalidNode | RetryRound | Timeout | SubError

  /** The node chosen for a partition, if any, the replica index the choice leaves behind, and whether the scan is
      restricted to a node of another name. */
  datatype Choice = Choice(node: Option<nat>, replicaIndex: nat, elsewhere: bool)

  /** The scan is not restricted to a node. */
  predicate Everywhere(choice: seq<Choice>) { forall o :: 0 <= o < |choice| ==> !choice[o].elsewhere }

  function Bump8(i: nat): nat { (i + 1) % 256 }

  // ---------- creating and resuming ----------

  function NewPart(id: nat): PartStatus { PartStatus(id, 0, true, None, 0, None) }

  function NewParts(begin: nat, count: nat): (ps: seq<PartStatus>)
    ensures |ps| == count && forall i :: 0 <= i < count ==> ps[i] == NewPart(begin + i)
  {
    seq(count, i requires 0 <= i < count => NewPart(begin + i))
  }

  /** `parts_create`: the first partition may start after a given digest. */
  function Create(begin: nat, count: nat, after: Option<Digest>): Parts
    requires count > 0
  {
    var ps := NewParts(begin, count);
    Parts(begin, false, true, if after.Some? then ps[0 := ps[0].(cursor := after)] else ps)
  }

  function ResetParts(ps: seq<PartStatus>): (r: seq<PartStatus>)
    ensures |r| == |ps| && forall i :: 0 <= i < |ps| ==> r[i] == ps[i].(replicaIndex := 0, node := None)
  {
    seq(|ps|, i requires 0 <= i < |ps| => ps[i].(replicaIndex := 0, node := None))
  }

  /** `tracker_init` on the partitions of a previous page. */
  function Resume(all: Parts, maxRecords: nat, maxRetries: nat): Tracker
  {
    Tracker(all.(retry := all.retry || maxRecords == 0, parts := ResetParts(all.parts)),
            [], maxRecords, 0, false, 1, maxRetries)
  }

  // ---------- assigning partitions to nodes ----------

  function NewNode(node: nat): NodeParts { NodeParts(node, [], [], 0, 0, 0, false) }

  /** Index of the entry of a node, or -1. */
  function FindNode(nodes: seq<NodeParts>, node: nat): (k: int)
    ensures -1 <= k < |nodes|
    ensures k >= 0 ==> nodes[k].node == node
    ensures k == -1 ==> forall j :: 0 <= j < |nodes| ==> nodes[j].node != node
  {
    if nodes == [] then -1
    else
      var k := FindNode(nodes[..|nodes| - 1], node);
      if k >= 0 then k else if nodes[|nodes| - 1].node == node then |nodes| - 1 else -1
  }

  function WithPart(np: NodeParts, ps: PartStatus): NodeParts
  {
    if ps.cursor.Some? then np.(partial := np.partial + [ps.id]) else np.(full := np.full + [ps.id])
  }

  function AddPart(nodes: seq<NodeParts>, ps: PartStatus, node: nat): seq<NodeParts>
  {
    var k := FindNode(nodes, node);
    if k >= 0 then nodes[k := WithPart(nodes[k], ps)]
    else nodes + [WithPart(NewNode(node), ps)]
  }

  datatype Assigned =
    | AllAssigned(parts: seq<PartStatus>, nodes: seq<NodeParts>)
    | NoNode(parts: seq<PartStatus>, nodes: seq<NodeParts>, at: nat)

  /** The assignment loop from offset i on. */
  function AssignFrom(parts: seq<PartStatus>, nodes: seq<NodeParts>, retryAll: bool,
                      choice: seq<Choice>, i: nat): Assigned
    requires |choice| == |parts| && i <= |parts|
    decreases |parts| - i
  {
    if i == |parts| then AllAssigned(parts, nodes)
    else if !(retryAll || parts[i].retry) then AssignFrom(parts, nodes, retryAll, choice, i + 1)
    else
      var ps := parts[i].(replicaIndex := choice[i].replicaIndex);
      if choice[i].node.None? then NoNode(parts[i := ps], nodes, i)
      else
        var ps' := ps.(node := choice[i].node, retry := false);
        var nodes' := if choice[i].elsewhere then nodes else AddPart(nodes, ps', choice[i].node.value);
        AssignFrom(parts[i := ps'], nodes', retryAll, choice, i + 1)
  }

  function Limited(nodes: seq<NodeParts>, max: nat): (r: seq<NodeParts>)
    ensures |r| == |nodes|
    ensures forall k :: 0 <= k < |r| ==>
              r[k] == nodes[k].(recordMax := if max == 0 then nodes[k].recordMax
                                             else if max >= |nodes| then Share(max, |nodes|, k) else 1)
  {
    seq(|nodes|, k requires 0 <= k < |nodes| =>
      nodes[k].(recordMax := if max == 0 then nodes[k].recordMax
                             else if max >= |nodes| then Share(max, |nodes|, k) else 1))
  }

  /** `as_partition_tracker_assign` */
  function Assign(t: Tracker, choice: seq<Choice>): (r: (Status, Tracker))
    requires |choice| == |t.all.parts| && t.nodes == []
  {
    match AssignFrom(t.all.parts, [], t.all.retry && t.iteration == 1, choice, 0)
    case NoNode(ps, nodes, _) => (InvalidNode, t.(all := t.all.(parts := ps), nodes := nodes))
    case AllAssigned(ps, nodes) =>
      if nodes == [] then (InvalidNode, t.(all := t.all.(parts := ps)))
      else (Ok, t.(all := t.all.(parts := ps, retry := true),
                   nodes := Limited(nodes, t.maxRecords),
                   recordCount := 0,
                   checkMax := 0 < t.maxRecords < |nodes|))
  }

  // ---------- while records arrive ----------

  /** `as_partition_tracker_reached_max_records_sync`/`_async`: true when the record must be discarded. */
  function ReachedMax(t: Tracker, k: nat): (r: (bool, Tracker))
    requires k < |t.nodes|
  {
    if !t.checkMax then (false, t)
    else
      var t' := t.(recordCount := t.recordCount + 1);
      if t'.recordCount > t.maxRecords then (true, t'.(nodes := t.nodes[k := t.nodes[k].(retry := true)]))
      else (false, t')
  }

  /** `as_partition_tracker_set_digest` for the partition at offset o. */
  function SetDigest(t: Tracker, k: nat, o: nat, d: Digest): Tracker
    requires k < |t.nodes| && o < |t.all.parts|
  {
    t.(all := t.all.(parts := t.all.parts[o := t.all.parts[o].(cursor := Some(d))]),
       nodes := t.nodes[k := t.nodes[k].(recordCount := t.nodes[k].recordCount + 1)])
  }

  /** `as_partition_tracker_part_unavailable` for the partition at offset o. */
  function PartUnavailable(t: Tracker, k: nat, o: nat): Tracker
    requires k < |t.nodes| && o < |t.all.parts|
  {
    var ps := t.all.parts[o];
    t.(all := t.all.(parts := t.all.parts[o := ps.(retry := true, replicaIndex := Bump8(ps.replicaIndex))]),
       nodes := t.nodes[k := t.nodes[k].(unavailable := t.nodes[k].unavailable + 1)])
  }

  predicate Owns(np: NodeParts, id: nat) { id in np.full || id in np.partial }

  /** Marks the listed partitions for retry, and moves them to the next replica when `bump`. */
  function MarkIds(parts: seq<PartStatus>, begin: nat, ids: seq<nat>, bump: bool): (r: seq<PartStatus>)
    requires IdsInRange(ids, begin, |parts|)
    ensures |r| == |parts|
  {
    if ids == [] then parts
    else
      var rest := MarkIds(parts, begin, ids[..|ids| - 1], bump);
      var o := ids[|ids| - 1] - begin;
      rest[o := rest[o].(retry := true,
                         replicaIndex := if bump then Bump8(rest[o].replicaIndex) else rest[o].replicaIndex)]
  }

  predicate IdsInRange(ids: seq<nat>, begin: nat, count: nat)
  {
    forall i :: 0 <= i < |ids| ==> begin <= ids[i] < begin + count
  }

  predicate NodeInRange(np: NodeParts, begin: nat, count: nat)
  {
    IdsInRange(np.full, begin, count) && IdsInRange(np.partial, begin, count)
  }

  function MarkNode(parts: seq<PartStatus>, begin: nat, np: NodeParts, bump: bool): (r: seq<PartStatus>)
    requires NodeInRange(np, begin, |parts|)
    ensures |r| == |parts|
  {
    MarkIds(MarkIds(parts, begin, np.full, bump), begin, np.partial, bump)
  }

  // Statuses after which the partitions of a node are retried.
  const CLUSTER: int := 11
  const INVALID_NODE: int := -8
  const CONNECTION: int := -10
  const ASYNC_CONNECTION: int := -6
  const TIMEOUT: int := 9
  const INDEX_NOT_FOUND: int := 201
  const INDEX_NOT_READABLE: int := 203

  predicate Retryable(status: int)
  {
    status in {CLUSTER, INVALID_NODE, CONNECTION, ASYNC_CONNECTION, TIMEOUT, INDEX_NOT_FOUND, INDEX_NOT_READABLE}
  }

  /** `as_partition_tracker_should_retry` on a retryable status. */
  function NodeFailed(t: Tracker, k: nat): Tracker
    requires k < |t.nodes| && NodeInRange(t.nodes[k], t.all.begin, |t.all.parts|)
  {
    var np := t.nodes[k];
    t.(all := t.all.(parts := MarkNode(t.all.parts, t.all.begin, np, true)),
       nodes := t.nodes[k := np.(unavailable := |np.full| + |np.partial|)])
  }

  // ---------- the end of a round ----------

  function SumCount(nodes: seq<NodeParts>): nat
  {
    if nodes == [] then 0 else SumCount(nodes[..|nodes| - 1]) + nodes[|nodes| - 1].recordCount
  }

  function SumUnavailable(nodes: seq<NodeParts>): nat
  {
    if nodes == [] then 0 else SumUnavailable(nodes[..|nodes| - 1]) + nodes[|nodes| - 1].unavailable
  }

  predicate AllInRange(nodes: seq<NodeParts>, begin: nat, count: nat)
  {
    forall k :: 0 <= k < |nodes| ==> NodeInRange(nodes[k], begin, count)
  }

  /** May a node have more records?  Servers with partition query support send all they have up to the limit;
      older ones may stop early and are finished only when they send nothing. */
  predicate MayHaveMore(np: NodeParts, partitionQuery: bool)
  {
    np.retry || (if partitionQuery then np.recordCount >= np.recordMax else np.recordCount > 0)
  }

  predicate AnyMore(nodes: seq<NodeParts>, partitionQuery: bool)
  {
    nodes != [] && (AnyMore(nodes[..|nodes| - 1], partitionQuery) || MayHaveMore(nodes[|nodes| - 1], partitionQuery))
  }

  /** Marks the partitions of every node that may have more records. */
  function MarkMore(parts: seq<PartStatus>, begin: nat, nodes: seq<NodeParts>,
                    partitionQuery: bool): (r: seq<PartStatus>)
    requires AllInRange(nodes, begin, |parts|)
    ensures |r| == |parts|
  {
    if nodes == [] then parts
    else
      var ps := MarkMore(parts, begin, nodes[..|nodes| - 1], partitionQuery);
      var np := nodes[|nodes| - 1];
      if MayHaveMore(np, partitionQuery) then MarkNode(ps, begin, np, false) else ps
  }

  /** `as_partition_tracker_is_complete` */
  function IsComplete(t: Tracker, partitionQuery: bool, timedOut: bool): (r: (Status, Tracker))
    requires AllInRange(t.nodes, t.all.begin, |t.all.parts|)
  {
    var count := SumCount(t.nodes);
    if SumUnavailable(t.nodes) == 0 then
      var all :=
        if t.maxRecords == 0 then t.all.(done := true)
        else if t.iteration > 1 then t.all.(retry := true, done := false)
        else t.all.(retry := false,
                    done := if partitionQuery then !AnyMore(t.nodes, partitionQuery) else count == 0,
                    parts := MarkMore(t.all.parts, t.all.begin, t.nodes, partitionQuery));
      (Ok, t.(all := all))
    else if t.maxRecords > 0 && count >= t.maxRecords then (Ok, t)
    else if t.iteration > t.maxRetries then (SubError, t)
    else if timedOut then (Timeout, t)
    else (RetryRound, t.(maxRecords := if t.maxRecords > 0 then t.maxRecords - count else 0,
                         nodes := [], iteration := t.iteration + 1))
  }

  /** `as_partition_error` */
  function Failed(all: Parts): Parts { all.(retry := true) }
}
