/** Every step of a running round keeps the pagination invariant. */
module TrackerSteps {
  import opened PartitionTracker
  import opened TrackerAssign
  import opened TrackerSystem
  import opened TrackerInvariant

  /** What a step of node entry k may change. */
  ghost predicate OnlyNode(w: World, s: Sys, s': Sys, k: nat)
    requires Shaped(w, s) && s.active && k < |s.t.nodes|
  {
    && Shaped(w, s') && s'.active
    && |s'.t.nodes| == |s.t.nodes|
    && (forall j :: 0 <= j < |s.t.nodes| && j != k ==> s'.t.nodes[j] == s.t.nodes[j] && s'.threads[j] == s.threads[j])
    && s'.t.nodes[k] == s.t.nodes[k].(recordCount := s'.t.nodes[k].recordCount,
                                      unavailable := s'.t.nodes[k].unavailable,
                                      retry := s'.t.nodes[k].retry)
    && s'.t.all == s.t.all.(parts := s'.t.all.parts)
    && s'.t == s.t.(all := s'.t.all, nodes := s'.t.nodes, recordCount := s'.t.recordCount)
    && s'.t.recordCount >= s.t.recordCount
    && s'.base == s.base && s'.pageMax == s.pageMax
    && (forall o :: 0 <= o < |w.data| && !Owns(s.t.nodes[k], w.begin + o) ==>
          s'.t.all.parts[o] == s.t.all.parts[o] && s'.sent[o] == s.sent[o] && s'.log[o] == s.log[o])
  }

  /** What such a step has to establish about the partitions of entry k. */
  ghost predicate PartStep(w: World, s: Sys, s': Sys, k: nat, o: nat)
    requires Shaped(w, s) && s.active && Shaped(w, s') && s'.active && k < |s.t.nodes| == |s'.t.nodes| && o < |w.data|
  {
    && OwnOk(w, s'.t.all.parts[o], s'.sent[o], s'.t.nodes[k], s'.threads[k], o)
    && LogOk(w, s'.t.all, s'.log, o)
    && s'.t.all.parts[o].id == s.t.all.parts[o].id
    && At(w, s.t.all, o) <= At(w, s'.t.all, o)
  }

  lemma OthersKept(w: World, s: Sys, s': Sys, k: nat)
    requires Inv(w, s) && s.active && k < |s.t.nodes| && OnlyNode(w, s, s', k)
    requires NodeOk(w, s'.t, s'.t.nodes[k], s'.threads[k])
    requires forall o :: 0 <= o < |w.data| && Owns(s.t.nodes[k], w.begin + o) ==> PartStep(w, s, s', k, o)
    ensures NodesOk(w, s') && OwnsOk(w, s') && Distinct(s'.t.nodes)
  {
    hide Sorted, WorldOk, LogOk, Limits, PageOk, FreeOk, Exhausted;
    forall j | 0 <= j < |s'.t.nodes| ensures NodeOk(w, s'.t, s'.t.nodes[j], s'.threads[j]) {
      assert NodeOk(w, s.t, s.t.nodes[j], s.threads[j]);
    }
    hide NodeOk;
    forall j, o | 0 <= j < |s'.t.nodes| && 0 <= o < |w.data| && Owns(s'.t.nodes[j], w.begin + o)
      ensures OwnOk(w, s'.t.all.parts[o], s'.sent[o], s'.t.nodes[j], s'.threads[j], o)
    {
      assert Owns(s.t.nodes[j], w.begin + o);
      if j == k {
        assert PartStep(w, s, s', k, o);
      } else {
        assert OwnOk(w, s.t.all.parts[o], s.sent[o], s.t.nodes[j], s.threads[j], o);
        if Owns(s.t.nodes[k], w.begin + o) { OneOwner(w, s, j, k, o); }
      }
    }
  }

  lemma StillUnowned(nodes: seq<NodeParts>, nodes': seq<NodeParts>, id: nat)
    requires |nodes| == |nodes'| && Unowned(nodes', id)
    requires forall j :: 0 <= j < |nodes| ==> nodes'[j].full == nodes[j].full && nodes'[j].partial == nodes[j].partial
    ensures Unowned(nodes, id)
  {
    forall j | 0 <= j < |nodes| ensures !Owns(nodes[j], id) { assert !Owns(nodes'[j], id); }
  }

  lemma CommonKept(w: World, s: Sys, s': Sys, k: nat)
    requires Inv(w, s) && s.active && k < |s.t.nodes| && OnlyNode(w, s, s', k)
    requires forall o :: 0 <= o < |w.data| && Owns(s.t.nodes[k], w.begin + o) ==> PartStep(w, s, s', k, o)
    ensures forall o :: 0 <= o < |w.data| ==> LogOk(w, s'.t.all, s'.log, o)
    ensures s'.t.all.done ==> forall o :: 0 <= o < |w.data| ==> Exhausted(w, s'.t.all, o)
    ensures IdsOk(s'.t.all.parts, w.begin) && FreeOk(w, s'.t)
  {
    hide Sorted, WorldOk, Limits, PageOk, NodesOk, OwnsOk, OwnOk;
    forall o | 0 <= o < |w.data|
      ensures LogOk(w, s'.t.all, s'.log, o) && At(w, s.t.all, o) <= At(w, s'.t.all, o)
      ensures s'.t.all.parts[o].id == w.begin + o
    {
      assert LogOk(w, s.t.all, s.log, o);
      if Owns(s.t.nodes[k], w.begin + o) { assert PartStep(w, s, s', k, o); }
    }
    forall o | 0 <= o < |w.data| && Exhausted(w, s.t.all, o) ensures Exhausted(w, s'.t.all, o) {
    }
    if s.t.iteration == 1 || s.t.maxRecords == 0 {
      forall o | 0 <= o < |w.data| && Unowned(s'.t.nodes, w.begin + o) ensures Exhausted(w, s'.t.all, o) {
        StillUnowned(s.t.nodes, s'.t.nodes, w.begin + o);
        assert Exhausted(w, s.t.all, o);
      }
    }
    forall o | 0 <= o < |w.data| && Unowned(s'.t.nodes, w.begin + o) ensures !s'.t.all.parts[o].retry {
      StillUnowned(s.t.nodes, s'.t.nodes, w.begin + o);
      assert !s.t.all.parts[o].retry;
    }
  }

  /** A step of one node entry keeps the invariant if it keeps that entry, its partitions and the sums. */
  lemma LocalStep(w: World, s: Sys, s': Sys, k: nat)
    requires Inv(w, s) && s.active && k < |s.t.nodes| && OnlyNode(w, s, s', k)
    requires NodeOk(w, s'.t, s'.t.nodes[k], s'.threads[k])
    requires forall o :: 0 <= o < |w.data| && Owns(s.t.nodes[k], w.begin + o) ==> PartStep(w, s, s', k, o)
    requires Limits(s'.t, s'.threads) && PageOk(s')
    ensures Inv(w, s')
  {
    OthersKept(w, s, s', k);
    CommonKept(w, s, s', k);
    if s'.pageMax > 0 { RoundBounded(w, s'); }
  }

  // ---------- the steps ----------

  lemma OwnAt(w: World, s: Sys, k: nat, o: nat)
    requires Inv(w, s) && s.active && k < |s.t.nodes| && o < |w.data| && Owns(s.t.nodes[k], w.begin + o)
    ensures OwnOk(w, s.t.all.parts[o], s.sent[o], s.t.nodes[k], s.threads[k], o) && LogOk(w, s.t.all, s.log, o)
    ensures NodeOk(w, s.t, s.t.nodes[k], s.threads[k])
  {
  }

  lemma DieKeeps(w: World, s: Sys, k: nat)
    requires Inv(w, s) && Enabled(w, s, Die(k))
    ensures Inv(w, Apply(w, s, Die(k)))
  {
    var s' := Apply(w, s, Die(k));
    SumThreadUpdate(s.threads, k, s'.threads[k]);
    assert NodeOk(w, s.t, s.t.nodes[k], s.threads[k]);
    forall o | 0 <= o < |w.data| && Owns(s.t.nodes[k], w.begin + o) ensures PartStep(w, s, s', k, o) {
      OwnAt(w, s, k, o);
    }
    LocalStep(w, s, s', k);
  }

  lemma FinishKeeps(w: World, s: Sys, k: nat)
    requires Inv(w, s) && Enabled(w, s, Finish(k))
    ensures Inv(w, Apply(w, s, Finish(k)))
  {
    var s' := Apply(w, s, Finish(k));
    SumThreadUpdate(s.threads, k, s'.threads[k]);
    assert NodeOk(w, s.t, s.t.nodes[k], s.threads[k]);
    forall o | 0 <= o < |w.data| && Owns(s.t.nodes[k], w.begin + o) ensures PartStep(w, s, s', k, o) {
      OwnAt(w, s, k, o);
    }
    LocalStep(w, s, s', k);
  }

  lemma UnavailablePart(w: World, s: Sys, k: nat, o: nat, p: nat)
    requires Inv(w, s) && Enabled(w, s, Unavailable(k, o))
    requires p < |w.data| && Owns(s.t.nodes[k], w.begin + p)
    ensures PartStep(w, s, Apply(w, s, Unavailable(k, o)), k, p)
  {
    hide WorldOk, Limits, PageOk, FreeOk;
    OwnAt(w, s, k, p);
  }

  lemma UnavailableKeeps(w: World, s: Sys, k: nat, o: nat)
    requires Inv(w, s) && Enabled(w, s, Unavailable(k, o))
    ensures Inv(w, Apply(w, s, Unavailable(k, o)))
  {
    hide WorldOk, LogOk, Exhausted, OwnsOk;
    var s' := Apply(w, s, Unavailable(k, o));
    SumCountUpdate(s.t.nodes, k, s'.t.nodes[k]);
    SumMaxUpdate(s.t.nodes, k, s'.t.nodes[k]);
    assert NodeOk(w, s.t, s.t.nodes[k], s.threads[k]);
    forall p | 0 <= p < |w.data| && Owns(s.t.nodes[k], w.begin + p) ensures PartStep(w, s, s', k, p) {
      UnavailablePart(w, s, k, o, p);
    }
    LocalStep(w, s, s', k);
  }

  lemma NodeFailFrame(w: World, s: Sys, k: nat)
    requires Inv(w, s) && Enabled(w, s, NodeFail(k))
    ensures OnlyNode(w, s, Apply(w, s, NodeFail(k)), k)
  {
    hide WorldOk, LogOk, Exhausted, InRound, MarkNode, MarkIds;
    forall o | 0 <= o < |w.data| && !Owns(s.t.nodes[k], w.begin + o)
      ensures MarkNode(s.t.all.parts, w.begin, s.t.nodes[k], true)[o] == s.t.all.parts[o]
    {
      MarkNodeOther(s.t.all.parts, w.begin, s.t.nodes[k], true, o);
    }
  }

  lemma NodeFailPart(w: World, s: Sys, k: nat, o: nat)
    requires Inv(w, s) && Enabled(w, s, NodeFail(k))
    requires o < |w.data| && Owns(s.t.nodes[k], w.begin + o)
    ensures PartStep(w, s, Apply(w, s, NodeFail(k)), k, o)
  {
    hide WorldOk, InRound, MarkNode, MarkIds;
    OwnAt(w, s, k, o);
    MarkNodeAt(s.t.all.parts, w.begin, s.t.nodes[k], true, o);
  }

  lemma NodeFailKeeps(w: World, s: Sys, k: nat)
    requires Inv(w, s) && Enabled(w, s, NodeFail(k))
    ensures Inv(w, Apply(w, s, NodeFail(k)))
  {
    hide WorldOk, LogOk, Exhausted, OwnsOk, MarkNode, OnlyNode;
    var s' := Apply(w, s, NodeFail(k));
    SumThreadUpdate(s.threads, k, s'.threads[k]);
    SumCountUpdate(s.t.nodes, k, s'.t.nodes[k]);
    SumMaxUpdate(s.t.nodes, k, s'.t.nodes[k]);
    assert NodeOk(w, s.t, s.t.nodes[k], s.threads[k]);
    NodeFailFrame(w, s, k);
    forall o | 0 <= o < |w.data| && Owns(s.t.nodes[k], w.begin + o) ensures PartStep(w, s, s', k, o) {
      NodeFailPart(w, s, k, o);
    }
    LocalStep(w, s, s', k);
  }

  lemma MarkNodeOther(parts: seq<PartStatus>, begin: nat, np: NodeParts, bump: bool, o: nat)
    requires NodeInRange(np, begin, |parts|) && o < |parts| && !Owns(np, begin + o)
    ensures MarkNode(parts, begin, np, bump)[o] == parts[o]
  {
    MarkIdsAt(parts, begin, np.full, bump, o);
    MarkIdsAt(MarkIds(parts, begin, np.full, bump), begin, np.partial, bump, o);
  }

  lemma ArriveFrame(w: World, s: Sys, k: nat, o: nat)
    requires Inv(w, s) && Enabled(w, s, Arrive(k, o))
    ensures OnlyNode(w, s, Apply(w, s, Arrive(k, o)), k)
  {
    hide WorldOk, LogOk, Exhausted, InRound, PartitionId;
  }

  lemma ArriveNode(w: World, s: Sys, k: nat, o: nat)
    requires Inv(w, s) && Enabled(w, s, Arrive(k, o))
    requires OnlyNode(w, s, Apply(w, s, Arrive(k, o)), k)
    ensures var s' := Apply(w, s, Arrive(k, o)); NodeOk(w, s'.t, s'.t.nodes[k], s'.threads[k])
  {
    hide OnlyNode, Sorted, OwnsOk, Limits, PageOk, FreeOk, Exhausted, LogOk, PartitionId;
    assert NodeOk(w, s.t, s.t.nodes[k], s.threads[k]);
    assert OffsetOf(w, w.data[o][s.sent[o]]) == o;
  }

  lemma ArrivePart(w: World, s: Sys, k: nat, o: nat, p: nat)
    requires Inv(w, s) && Enabled(w, s, Arrive(k, o))
    requires p < |w.data| && Owns(s.t.nodes[k], w.begin + p)
    requires OnlyNode(w, s, Apply(w, s, Arrive(k, o)), k)
    ensures PartStep(w, s, Apply(w, s, Arrive(k, o)), k, p)
  {
    hide WorldOk, InRound, IdsOk, OnlyNode, Exhausted;
    OwnAt(w, s, k, p);
    OwnAt(w, s, k, o);
    RecordAt(w, o, s.sent[o]);
    hide NodeOk;
  }

  lemma RecordAt(w: World, o: nat, i: nat)
    requires WorldOk(w) && o < |w.data| && i < |w.data[o]|
    ensures OffsetOf(w, w.data[o][i]) == o
  {
  }

  lemma ArriveSums(w: World, s: Sys, k: nat, o: nat)
    requires Inv(w, s) && Enabled(w, s, Arrive(k, o))
    ensures var s' := Apply(w, s, Arrive(k, o)); Limits(s'.t, s'.threads) && PageOk(s')
  {
    hide Sorted, WorldOk, NodesOk, OwnsOk, FreeOk, LogOk, Exhausted, Distinct, AllInRange, Owns;
    var s' := Apply(w, s, Arrive(k, o));
    SumThreadUpdate(s.threads, k, s'.threads[k]);
    SumCountUpdate(s.t.nodes, k, s.t.nodes[k].(retry := true));
    SumMaxUpdate(s.t.nodes, k, s.t.nodes[k].(retry := true));
  }

  lemma ArriveKeeps(w: World, s: Sys, k: nat, o: nat)
    requires Inv(w, s) && Enabled(w, s, Arrive(k, o))
    ensures Inv(w, Apply(w, s, Arrive(k, o)))
  {
    var s' := Apply(w, s, Arrive(k, o));
    ArriveFrame(w, s, k, o);
    ArriveNode(w, s, k, o);
    forall p | 0 <= p < |w.data| && Owns(s.t.nodes[k], w.begin + p) ensures PartStep(w, s, s', k, p) {
      ArrivePart(w, s, k, o, p);
    }
    ArriveSums(w, s, k, o);
    hide *;
    LocalStep(w, s, s', k);
  }

  lemma RefusePart(w: World, s: Sys, k: nat, o: nat)
    requires Inv(w, s) && Enabled(w, s, Hand(k, false)) && o < |w.data| && Owns(s.t.nodes[k], w.begin + o)
    ensures PartStep(w, s, Apply(w, s, Hand(k, false)), k, o)
  {
    hide Sorted, WorldOk, Limits, PageOk, FreeOk, Exhausted, NodesOk, OwnsOk, Total, SumCount;
    OwnAt(w, s, k, o);
  }

  lemma RefuseKeeps(w: World, s: Sys, k: nat)
    requires Inv(w, s) && Enabled(w, s, Hand(k, false))
    ensures Inv(w, Apply(w, s, Hand(k, false)))
  {
    hide Sorted, WorldOk, FreeOk, Exhausted, OwnsOk, Total, SumCount, PartStep, LogOk;
    var s' := Apply(w, s, Hand(k, false));
    SumThreadUpdate(s.threads, k, s'.threads[k]);
    assert NodeOk(w, s.t, s.t.nodes[k], s.threads[k]);
    forall o | 0 <= o < |w.data| && Owns(s.t.nodes[k], w.begin + o) ensures PartStep(w, s, s', k, o) {
      RefusePart(w, s, k, o);
    }
    LocalStep(w, s, s', k);
  }

  lemma AcceptNode(w: World, s: Sys, k: nat)
    requires Inv(w, s) && Enabled(w, s, Hand(k, true))
    ensures var s' := Apply(w, s, Hand(k, true));
            OnlyNode(w, s, s', k) && NodeOk(w, s'.t, s'.t.nodes[k], s'.threads[k])
  {
    hide Sorted, Limits, PageOk, FreeOk, Exhausted, Total, SumCount, LogOk, Pos;
    assert NodeOk(w, s.t, s.t.nodes[k], s.threads[k]);
    OwnAt(w, s, k, OffsetOf(w, s.threads[k].pending.value));
  }

  lemma AcceptPart(w: World, s: Sys, k: nat, p: nat)
    requires Inv(w, s) && Enabled(w, s, Hand(k, true))
    requires p < |w.data| && Owns(s.t.nodes[k], w.begin + p)
    requires OnlyNode(w, s, Apply(w, s, Hand(k, true)), k)
    ensures PartStep(w, s, Apply(w, s, Hand(k, true)), k, p)
  {
    hide Sorted, Limits, PageOk, FreeOk, Exhausted, Total, SumCount, OnlyNode;
    OwnAt(w, s, k, p);
    assert NodeOk(w, s.t, s.t.nodes[k], s.threads[k]);
    assert Sorted(w.data[p]);
    hide WorldOk, InRound, NodeOk, IdsOk, Distinct, AllInRange, LogOk;
    if p == OffsetOf(w, s.threads[k].pending.value) { ResumeAfter(w.data[p], At(w, s.t.all, p)); }
  }

  lemma AcceptSums(w: World, s: Sys, k: nat)
    requires Inv(w, s) && Enabled(w, s, Hand(k, true))
    ensures var s' := Apply(w, s, Hand(k, true)); Limits(s'.t, s'.threads) && PageOk(s')
  {
    hide Sorted, WorldOk, NodesOk, OwnsOk, FreeOk, LogOk, Exhausted, Distinct, AllInRange, Owns;
    var s' := Apply(w, s, Hand(k, true));
    var d := s.threads[k].pending.value;
    SumThreadUpdate(s.threads, k, s'.threads[k]);
    SumCountUpdate(s.t.nodes, k, s'.t.nodes[k]);
    SumMaxUpdate(s.t.nodes, k, s'.t.nodes[k]);
    TotalUpdate(s.log, OffsetOf(w, d), d);
  }

  lemma AcceptKeeps(w: World, s: Sys, k: nat)
    requires Inv(w, s) && Enabled(w, s, Hand(k, true))
    ensures Inv(w, Apply(w, s, Hand(k, true)))
  {
    var s' := Apply(w, s, Hand(k, true));
    AcceptNode(w, s, k);
    forall p | 0 <= p < |w.data| && Owns(s.t.nodes[k], w.begin + p) ensures PartStep(w, s, s', k, p) {
      AcceptPart(w, s, k, p);
    }
    AcceptSums(w, s, k);
    hide *;
    LocalStep(w, s, s', k);
  }
}
