/** What an assignment of partitions to nodes establishes, and what marking and summing over the
node list mean for a single partition. */
module TrackerAssign {
  import opened Prelude
  import opened PartitionTracker

  ghost predicate IdsOk(parts: seq<PartStatus>, begin: nat)
  {
    forall o :: 0 <= o < |parts| ==> parts[o].id == begin + o
  }

  ghost predicate Selected(parts: seq<PartStatus>, retryAll: bool, o: nat)
    requires o < |parts|
  {
    retryAll || parts[o].retry
  }

  /** A partition that the scan is to read: selected and, if the scan is restricted to a node, on that node. */
  ghost predicate Wanted(parts: seq<PartStatus>, retryAll: bool, choice: seq<Choice>, o: nat)
    requires o < |parts| == |choice|
  {
    Selected(parts, retryAll, o) && !choice[o].elsewhere
  }

  ghost predicate Distinct(nodes: seq<NodeParts>)
  {
    forall j, k :: 0 <= j < k < |nodes| ==> nodes[j].node != nodes[k].node
  }

  /** A node entry as the assignment loop leaves it. */
  ghost predicate FreshNode(np: NodeParts)
  {
    np.recordCount == 0 && np.recordMax == 0 && np.unavailable == 0 && !np.retry && |np.full| + |np.partial| > 0
  }

  /** The status of partition o after the loop handled it. */
  ghost predicate AssignedPart(before: PartStatus, after: PartStatus, selected: bool, c: Choice)
  {
    if selected then
      c.node.Some? && after == before.(replicaIndex := c.replicaIndex, node := c.node, retry := false)
    else after == before
  }

  ghost predicate PartsUpTo(before: seq<PartStatus>, parts: seq<PartStatus>, retryAll: bool, choice: seq<Choice>,
                            i: nat)
    requires |before| == |choice|
  {
    && |parts| == |before| && i <= |before|
    && (forall o :: 0 <= o < i ==> AssignedPart(before[o], parts[o], Selected(before, retryAll, o), choice[o]))
    && (forall o :: i <= o < |before| ==> parts[o] == before[o])
  }

  /** Node entry np holds exactly the wanted partitions below i that chose its node, each in the list that says whether
      it resumes after a digest. */
  ghost predicate HoldsUpTo(before: seq<PartStatus>, np: NodeParts, begin: nat, retryAll: bool, choice: seq<Choice>,
                            i: nat)
    requires |before| == |choice| && i <= |before|
  {
    forall id: nat ::
      && (id in np.full <==> begin <= id < begin + i && Wanted(before, retryAll, choice, id - begin)
                             && choice[id - begin].node == Some(np.node) && before[id - begin].cursor.None?)
      && (id in np.partial <==> begin <= id < begin + i && Wanted(before, retryAll, choice, id - begin)
                                && choice[id - begin].node == Some(np.node) && before[id - begin].cursor.Some?)
  }

  ghost predicate Listed(nodes: seq<NodeParts>, node: nat)
  {
    exists k :: 0 <= k < |nodes| && nodes[k].node == node
  }

  ghost predicate NodesUpTo(before: seq<PartStatus>, nodes: seq<NodeParts>, begin: nat, retryAll: bool,
                            choice: seq<Choice>, i: nat)
    requires |before| == |choice| && i <= |before|
  {
    && Distinct(nodes)
    && (forall k :: 0 <= k < |nodes| ==> FreshNode(nodes[k]) && HoldsUpTo(before, nodes[k], begin, retryAll, choice, i))
    && (forall o :: 0 <= o < i && Wanted(before, retryAll, choice, o) ==>
          choice[o].node.Some? && Listed(nodes, choice[o].node.value))
  }

  lemma SkipPart(before: seq<PartStatus>, nodes: seq<NodeParts>, begin: nat, retryAll: bool, choice: seq<Choice>,
                 i: nat)
    requires |before| == |choice| && i < |before| && IdsOk(before, begin)
    requires NodesUpTo(before, nodes, begin, retryAll, choice, i)
    requires !Wanted(before, retryAll, choice, i)
    ensures NodesUpTo(before, nodes, begin, retryAll, choice, i + 1)
  {
    forall k | 0 <= k < |nodes| ensures HoldsUpTo(before, nodes[k], begin, retryAll, choice, i + 1) {
      assert HoldsUpTo(before, nodes[k], begin, retryAll, choice, i);
    }
  }

  lemma HoldsOther(before: seq<PartStatus>, np: NodeParts, begin: nat, retryAll: bool, choice: seq<Choice>, i: nat)
    requires |before| == |choice| && i < |before|
    requires HoldsUpTo(before, np, begin, retryAll, choice, i)
    requires choice[i].node != Some(np.node)
    ensures HoldsUpTo(before, np, begin, retryAll, choice, i + 1)
  {
  }

  lemma HoldsAdd(before: seq<PartStatus>, np: NodeParts, ps: PartStatus, begin: nat, retryAll: bool,
                 choice: seq<Choice>, i: nat)
    requires |before| == |choice| && i < |before|
    requires HoldsUpTo(before, np, begin, retryAll, choice, i)
    requires choice[i].node == Some(np.node) && Wanted(before, retryAll, choice, i)
    requires ps.id == begin + i && ps.cursor == before[i].cursor
    ensures HoldsUpTo(before, WithPart(np, ps), begin, retryAll, choice, i + 1)
  {
    var np' := WithPart(np, ps);
    forall id: nat
      ensures id in np'.full <==> id in np.full || (id == ps.id && ps.cursor.None?)
      ensures id in np'.partial <==> id in np.partial || (id == ps.id && ps.cursor.Some?)
    {
    }
  }

  lemma AddPartKeeps(before: seq<PartStatus>, nodes: seq<NodeParts>, ps: PartStatus, begin: nat, retryAll: bool,
                     choice: seq<Choice>, i: nat)
    requires |before| == |choice| && i < |before| && IdsOk(before, begin)
    requires NodesUpTo(before, nodes, begin, retryAll, choice, i)
    requires choice[i].node.Some? && Wanted(before, retryAll, choice, i)
    requires ps.id == begin + i && ps.cursor == before[i].cursor
    ensures NodesUpTo(before, AddPart(nodes, ps, choice[i].node.value), begin, retryAll, choice, i + 1)
  {
    hide HoldsUpTo;
    var node := choice[i].node.value;
    var k := FindNode(nodes, node);
    var nodes' := AddPart(nodes, ps, node);
    if k < 0 {
      EmptyHolds(before, node, begin, retryAll, choice, i);
      HoldsAdd(before, NewNode(node), ps, begin, retryAll, choice, i);
    } else {
      HoldsAdd(before, nodes[k], ps, begin, retryAll, choice, i);
    }
    var m := if k < 0 then |nodes| else k;
    assert nodes'[m].node == node;
    forall j | 0 <= j < |nodes'|
      ensures FreshNode(nodes'[j])
              && HoldsUpTo(before, nodes'[j], begin, retryAll, choice, i + 1)
    {
      if j != m { HoldsOther(before, nodes[j], begin, retryAll, choice, i); }
    }
    forall o | 0 <= o < i + 1 && Wanted(before, retryAll, choice, o)
      ensures choice[o].node.Some? && Listed(nodes', choice[o].node.value)
    {
      if o < i {
        var j :| 0 <= j < |nodes| && nodes[j].node == choice[o].node.value;
        assert nodes'[j].node == nodes[j].node;
      } else {
        assert nodes'[m].node == choice[o].node.value;
      }
    }
  }

  /** A node without partitions holds nothing only if no earlier partition chose it. */
  lemma EmptyHolds(before: seq<PartStatus>, node: nat, begin: nat, retryAll: bool, choice: seq<Choice>, i: nat)
    requires |before| == |choice| && i <= |before|
    requires forall o :: 0 <= o < i && Wanted(before, retryAll, choice, o) ==> choice[o].node != Some(node)
    ensures HoldsUpTo(before, NewNode(node), begin, retryAll, choice, i)
  {
  }

  /** The assignment loop: which partitions change, how, and which node entry holds each. */
  lemma {:induction false} AssignLoop(before: seq<PartStatus>, parts: seq<PartStatus>, nodes: seq<NodeParts>,
                                      begin: nat, retryAll: bool, choice: seq<Choice>, i: nat)
    requires |before| == |choice| && i <= |before| && IdsOk(before, begin)
    requires PartsUpTo(before, parts, retryAll, choice, i)
    requires NodesUpTo(before, nodes, begin, retryAll, choice, i)
    ensures match AssignFrom(parts, nodes, retryAll, choice, i)
            case AllAssigned(ps, ns) => PartsUpTo(before, ps, retryAll, choice, |before|)
                                        && NodesUpTo(before, ns, begin, retryAll, choice, |before|)
            case NoNode(ps, ns, at) =>
              && i <= at < |before| && Selected(before, retryAll, at) && choice[at].node.None?
              && NodesUpTo(before, ns, begin, retryAll, choice, at)
              && |ps| == |before|
              && (forall o :: 0 <= o < at ==> AssignedPart(before[o], ps[o], Selected(before, retryAll, o), choice[o]))
              && ps[at] == before[at].(replicaIndex := choice[at].replicaIndex)
              && (forall o :: at < o < |before| ==> ps[o] == before[o])
    decreases |before| - i
  {
    hide NodesUpTo, AddPart;
    if i < |before| {
      if !Selected(before, retryAll, i) {
        SkipPart(before, nodes, begin, retryAll, choice, i);
        AssignLoop(before, parts, nodes, begin, retryAll, choice, i + 1);
      } else if choice[i].node.Some? {
        var ps' := parts[i].(replicaIndex := choice[i].replicaIndex, node := choice[i].node, retry := false);
        assert PartsUpTo(before, parts[i := ps'], retryAll, choice, i + 1);
        if choice[i].elsewhere {
          SkipPart(before, nodes, begin, retryAll, choice, i);
          AssignLoop(before, parts[i := ps'], nodes, begin, retryAll, choice, i + 1);
        } else {
          AddPartKeeps(before, nodes, ps', begin, retryAll, choice, i);
          AssignLoop(before, parts[i := ps'], AddPart(nodes, ps', choice[i].node.value), begin, retryAll, choice,
                     i + 1);
        }
      }
    }
  }

  // ---------- marking ----------

  /** How often a partition is in a list. */
  function Times(ids: seq<nat>, id: nat): nat { multiset(ids)[id] }

  lemma TimesSnoc(ids: seq<nat>, id: nat)
    requires ids != []
    ensures Times(ids, id) == Times(ids[..|ids| - 1], id) + if ids[|ids| - 1] == id then 1 else 0
    ensures id in ids <==> id in ids[..|ids| - 1] || ids[|ids| - 1] == id
    ensures id !in ids[..|ids| - 1] ==> Times(ids[..|ids| - 1], id) == 0
  {
    assert ids == ids[..|ids| - 1] + [ids[|ids| - 1]];
  }

  /** Marking a list of partitions touches exactly those, and of them only the retry flag and, if asked to, the replica,
      which moves by one, modulo 256, each time the partition is listed. */
  lemma {:induction false} MarkIdsAt(parts: seq<PartStatus>, begin: nat, ids: seq<nat>, bump: bool, o: nat)
    requires IdsInRange(ids, begin, |parts|) && o < |parts|
    ensures var r := MarkIds(parts, begin, ids, bump);
            && |r| == |parts|
            && r[o] == parts[o].(retry := r[o].retry, replicaIndex := r[o].replicaIndex)
            && (r[o].retry <==> parts[o].retry || begin + o in ids)
            && (!bump || begin + o !in ids ==> r[o].replicaIndex == parts[o].replicaIndex)
            && (bump && begin + o in ids ==> r[o].replicaIndex == (parts[o].replicaIndex + Times(ids, begin + o)) % 256)
  {
    hide Times;
    if ids != [] {
      var init := ids[..|ids| - 1];
      MarkIdsAt(parts, begin, init, bump, o);
      TimesSnoc(ids, begin + o);
    }
  }

  lemma MarkNodeAt(parts: seq<PartStatus>, begin: nat, np: NodeParts, bump: bool, o: nat)
    requires NodeInRange(np, begin, |parts|) && o < |parts|
    ensures var r := MarkNode(parts, begin, np, bump);
            && |r| == |parts|
            && r[o] == parts[o].(retry := r[o].retry, replicaIndex := r[o].replicaIndex)
            && (r[o].retry <==> parts[o].retry || Owns(np, begin + o))
            && (!bump || !Owns(np, begin + o) ==> r[o].replicaIndex == parts[o].replicaIndex)
            && (bump && Owns(np, begin + o) ==>
                  r[o].replicaIndex
                  == (parts[o].replicaIndex + Times(np.full, begin + o) + Times(np.partial, begin + o)) % 256)
  {
    MarkIdsAt(parts, begin, np.full, bump, o);
    MarkIdsAt(MarkIds(parts, begin, np.full, bump), begin, np.partial, bump, o);
  }

  /** Is partition `id` held by a node that may have more records? */
  ghost predicate MoreFor(nodes: seq<NodeParts>, pq: bool, id: nat)
  {
    exists k :: 0 <= k < |nodes| && MayHaveMore(nodes[k], pq) && Owns(nodes[k], id)
  }

  lemma {:induction false} MarkMoreAt(parts: seq<PartStatus>, begin: nat, nodes: seq<NodeParts>, pq: bool, o: nat)
    requires AllInRange(nodes, begin, |parts|) && o < |parts|
    ensures var r := MarkMore(parts, begin, nodes, pq);
            && |r| == |parts|
            && r[o] == parts[o].(retry := r[o].retry)
            && (r[o].retry <==> parts[o].retry || MoreFor(nodes, pq, begin + o))
  {
    hide MarkNode, Owns, MayHaveMore, NodeInRange;
    if nodes != [] {
      var init := nodes[..|nodes| - 1];
      MarkMoreAt(parts, begin, init, pq, o);
      var np := nodes[|nodes| - 1];
      if MayHaveMore(np, pq) { MarkNodeAt(MarkMore(parts, begin, init, pq), begin, np, false, o); }
      if MoreFor(init, pq, begin + o) {
        var k :| 0 <= k < |init| && MayHaveMore(init[k], pq) && Owns(init[k], begin + o);
        assert MayHaveMore(nodes[k], pq) && Owns(nodes[k], begin + o);
      }
      if MoreFor(nodes, pq, begin + o) && !(MayHaveMore(np, pq) && Owns(np, begin + o)) {
        var k :| 0 <= k < |nodes| && MayHaveMore(nodes[k], pq) && Owns(nodes[k], begin + o);
        assert MayHaveMore(init[k], pq) && Owns(init[k], begin + o);
      }
    }
  }

  lemma {:induction false} AnyMoreAt(nodes: seq<NodeParts>, pq: bool, k: nat)
    requires k < |nodes| && !AnyMore(nodes, pq)
    ensures !MayHaveMore(nodes[k], pq)
  {
    if k < |nodes| - 1 { AnyMoreAt(nodes[..|nodes| - 1], pq, k); }
  }

  lemma {:induction false} NoMore(nodes: seq<NodeParts>, pq: bool)
    requires forall k :: 0 <= k < |nodes| ==> !MayHaveMore(nodes[k], pq)
    ensures !AnyMore(nodes, pq)
  {
    if nodes != [] { NoMore(nodes[..|nodes| - 1], pq); }
  }

  // ---------- sums over the node list ----------

  lemma {:induction false} SumCountUpdate(nodes: seq<NodeParts>, k: nat, np: NodeParts)
    requires k < |nodes|
    ensures SumCount(nodes[k := np]) == SumCount(nodes) - nodes[k].recordCount + np.recordCount
  {
    var n := |nodes| - 1;
    if k < n {
      SumCountUpdate(nodes[..n], k, np);
      assert nodes[k := np][..n] == nodes[..n][k := np];
    } else {
      assert nodes[k := np][..n] == nodes[..n];
    }
  }

  lemma {:induction false} SumCountZero(nodes: seq<NodeParts>)
    ensures SumCount(nodes) == 0 <==> forall k :: 0 <= k < |nodes| ==> nodes[k].recordCount == 0
  {
    if nodes != [] {
      SumCountZero(nodes[..|nodes| - 1]);
      assert forall k :: 0 <= k < |nodes| - 1 ==> nodes[k] == nodes[..|nodes| - 1][k];
    }
  }

  lemma {:induction false} SumUnavailableZero(nodes: seq<NodeParts>, k: nat)
    requires k < |nodes| && SumUnavailable(nodes) == 0
    ensures nodes[k].unavailable == 0
  {
    if k < |nodes| - 1 { SumUnavailableZero(nodes[..|nodes| - 1], k); }
  }

  lemma OneNodeSums(np: NodeParts, pq: bool)
    ensures SumCount([np]) == np.recordCount && SumUnavailable([np]) == np.unavailable
    ensures AnyMore([np], pq) <==> MayHaveMore(np, pq)
  {
    assert [np][..0] == [];
  }

  // ---------- spreading the record limit ----------

  function SumMax(nodes: seq<NodeParts>): nat
  {
    if nodes == [] then 0 else SumMax(nodes[..|nodes| - 1]) + nodes[|nodes| - 1].recordMax
  }

  lemma {:induction false} SharesOfNodes(nodes: seq<NodeParts>, max: nat, n: nat)
    requires n > 0 && |nodes| <= n
    requires forall k :: 0 <= k < |nodes| ==> nodes[k].recordMax == Share(max, n, k)
    ensures SumMax(nodes) == SumShares(max, n, |nodes|)
  {
    hide Share;
    if nodes != [] { SharesOfNodes(nodes[..|nodes| - 1], max, n); }
  }

  /** The per-node limits add up to the requested limit exactly whenever there are enough records to share. */
  lemma ShareConserved(nodes: seq<NodeParts>, max: nat)
    requires 0 < |nodes| <= max
    ensures SumMax(Limited(nodes, max)) == max
    ensures forall k :: 0 <= k < |nodes| ==> Limited(nodes, max)[k].recordMax >= 1
  {
    var n := |nodes|;
    SharesOfNodes(Limited(nodes, max), max, n);
    SharesAddUp(max, n);
    assert max / n >= 1;
  }

  lemma {:induction false} SumCountBounded(nodes: seq<NodeParts>)
    requires forall k :: 0 <= k < |nodes| ==> nodes[k].recordCount <= nodes[k].recordMax
    ensures SumCount(nodes) <= SumMax(nodes)
  {
    if nodes != [] { SumCountBounded(nodes[..|nodes| - 1]); }
  }
}
