/** What every step of pagination keeps. */
module TrackerInvariant {
  import opened Prelude
  import opened PartitionTracker
  import opened TrackerAssign
  import opened TrackerSystem

  // ---------- the invariant ----------

  /** Position of the saved cursor of partition o. */
  ghost function At(w: World, all: Parts, o: nat): (p: nat)
    requires o < |w.data| == |all.parts|
    ensures p <= |w.data[o]|
  {
    Pos(w.data[o], all.parts[o].cursor)
  }

  ghost predicate Exhausted(w: World, all: Parts, o: nat)
    requires o < |w.data| == |all.parts|
  {
    At(w, all, o) == |w.data[o]|
  }

  /** The application has kept exactly the records between the filter's start and the saved cursor. */
  ghost predicate LogOk(w: World, all: Parts, log: seq<seq<Digest>>, o: nat)
    requires o < |w.data| == |all.parts| == |log|
  {
    Start(w, o) <= At(w, all, o) && log[o] == w.data[o][Start(w, o)..At(w, all, o)]
  }

  /** Holds in every state: the log follows the cursors, and `done` is only ever set truthfully. */
  ghost predicate Common(w: World, s: Sys)
  {
    && WorldOk(w) && Shaped(w, s)
    && s.t.all.begin == w.begin && IdsOk(s.t.all.parts, w.begin)
    && (forall o :: 0 <= o < |w.data| ==> LogOk(w, s.t.all, s.log, o))
    && (s.t.all.done ==> forall o :: 0 <= o < |w.data| ==> Exhausted(w, s.t.all, o))
    && (s.pageMax > 0 ==> Total(s.log) <= s.base + s.pageMax)
  }

  /** Between pages a partition is either marked for the next page or read to its end; once done nothing is marked. */
  ghost predicate Between(w: World, all: Parts)
    requires |all.parts| == |w.data|
  {
    || all.retry
    || (&& (forall o :: 0 <= o < |w.data| ==> all.parts[o].retry || Exhausted(w, all, o))
        && (all.done ==> forall o :: 0 <= o < |w.data| ==> !all.parts[o].retry))
  }

  function Pend(th: Thread): nat { if th.pending.Some? then 1 else 0 }

  /** A node entry and its thread: a node is marked for retry exactly if a record of it was discarded. */
  ghost predicate NodeOk(w: World, t: Tracker, np: NodeParts, th: Thread)
  {
    && |np.full| + |np.partial| > 0
    && (np.retry <==> th.arrived > np.recordCount + Pend(th))
    && th.arrived >= np.recordCount + Pend(th)
    && (np.retry ==> t.checkMax && t.recordCount > t.maxRecords && th.pending.None?)
    && (t.maxRecords == 0 ==> np.recordMax == 0)
    && (t.maxRecords > 0 ==> np.recordMax >= 1 && th.arrived <= np.recordMax)
    && (th.run.Finished? || th.run.Broken? ==> th.pending.None?)
    && (th.run.Broken? ==> np.unavailable > 0)
    && (th.pending.Some? ==>
          0 <= OffsetOf(w, th.pending.value) < |w.data| && Owns(np, w.begin + OffsetOf(w, th.pending.value)))
  }

  ghost predicate PendingFor(w: World, th: Thread, o: nat)
  {
    th.pending.Some? && OffsetOf(w, th.pending.value) == o
  }

  /** A partition and the node entry that holds it. */
  ghost predicate OwnOk(w: World, ps: PartStatus, sent: nat, np: NodeParts, th: Thread, o: nat)
    requires o < |w.data|
  {
    var at := Pos(w.data[o], ps.cursor);
    && ps.node == Some(np.node)
    && at <= sent <= |w.data[o]|
    && (PendingFor(w, th, o) ==> sent == at + 1 && th.pending.value == w.data[o][at])
    && (!PendingFor(w, th, o) && !np.retry ==> sent == at)
    && (np.unavailable == 0 ==> !ps.retry)
    && (th.run.Broken? ==> ps.retry)
    && (th.run.Finished? && Unlimited(np, th.arrived, w.partitionQuery) && !ps.retry ==> sent == |w.data[o]|)
  }

  ghost predicate Unowned(nodes: seq<NodeParts>, id: nat)
  {
    forall k :: 0 <= k < |nodes| ==> !Owns(nodes[k], id)
  }

  function SumArrived(ths: seq<Thread>): nat
  {
    if ths == [] then 0 else SumArrived(ths[..|ths| - 1]) + ths[|ths| - 1].arrived
  }

  function SumPending(ths: seq<Thread>): nat
  {
    if ths == [] then 0 else SumPending(ths[..|ths| - 1]) + Pend(ths[|ths| - 1])
  }

  function Min(a: nat, b: nat): nat { if a <= b then a else b }

  /** The record limits of a round. */
  ghost predicate Limits(t: Tracker, threads: seq<Thread>)
  {
    && (t.checkMax ==> t.maxRecords >= 1 && SumArrived(threads) == t.recordCount
                       && SumCount(t.nodes) + SumPending(threads) == Min(t.recordCount, t.maxRecords))
    && (!t.checkMax && t.maxRecords > 0 ==> SumMax(t.nodes) == t.maxRecords)
  }

  /** The rounds of a page share its limit. */
  ghost predicate PageOk(s: Sys)
  {
    && s.t.iteration >= 1
    && (s.t.iteration == 1 ==> s.t.maxRecords == s.pageMax)
    && (s.pageMax == 0 <==> s.t.maxRecords == 0)
    && (s.pageMax > 0 ==> Total(s.log) + s.t.maxRecords == s.base + s.pageMax + SumCount(s.t.nodes))
  }

  ghost predicate NodesOk(w: World, s: Sys)
    requires Shaped(w, s) && s.active
  {
    forall k :: 0 <= k < |s.t.nodes| ==> NodeOk(w, s.t, s.t.nodes[k], s.threads[k])
  }

  ghost predicate OwnsOk(w: World, s: Sys)
    requires Shaped(w, s) && s.active
  {
    forall k, o :: 0 <= k < |s.t.nodes| && 0 <= o < |w.data| && Owns(s.t.nodes[k], w.begin + o) ==>
      OwnOk(w, s.t.all.parts[o], s.sent[o], s.t.nodes[k], s.threads[k], o)
  }

  ghost predicate FreeOk(w: World, t: Tracker)
    requires |t.all.parts| == |w.data|
  {
    && (t.iteration == 1 || t.maxRecords == 0 ==>
          forall o :: 0 <= o < |w.data| && Unowned(t.nodes, w.begin + o) ==> Exhausted(w, t.all, o))
    && (forall o :: 0 <= o < |w.data| && Unowned(t.nodes, w.begin + o) ==> !t.all.parts[o].retry)
  }

  /** While a round runs. */
  ghost predicate InRound(w: World, s: Sys)
    requires Shaped(w, s) && s.active
  {
    && s.t.all.retry && s.t.nodes != [] && Distinct(s.t.nodes)
    && NodesOk(w, s) && OwnsOk(w, s) && FreeOk(w, s.t) && Limits(s.t, s.threads) && PageOk(s)
  }

  ghost predicate Inv(w: World, s: Sys)
  {
    && Common(w, s)
    && (if s.active then InRound(w, s) else Between(w, s.t.all))
  }

  // ---------- sums ----------

  lemma {:induction false} SumThreadUpdate(ths: seq<Thread>, k: nat, th: Thread)
    requires k < |ths|
    ensures SumArrived(ths[k := th]) == SumArrived(ths) - ths[k].arrived + th.arrived
    ensures SumPending(ths[k := th]) == SumPending(ths) - Pend(ths[k]) + Pend(th)
  {
    var n := |ths| - 1;
    if k < n {
      SumThreadUpdate(ths[..n], k, th);
      assert ths[k := th][..n] == ths[..n][k := th];
    } else {
      assert ths[k := th][..n] == ths[..n];
    }
  }

  lemma {:induction false} SumMaxUpdate(nodes: seq<NodeParts>, k: nat, np: NodeParts)
    requires k < |nodes| && np.recordMax == nodes[k].recordMax
    ensures SumMax(nodes[k := np]) == SumMax(nodes)
  {
    var n := |nodes| - 1;
    if k < n {
      SumMaxUpdate(nodes[..n], k, np);
      assert nodes[k := np][..n] == nodes[..n][k := np];
    } else {
      assert nodes[k := np][..n] == nodes[..n];
    }
  }

  lemma {:induction false} TotalUpdate<T>(log: seq<seq<T>>, o: nat, d: T)
    requires o < |log|
    ensures Total(log[o := log[o] + [d]]) == Total(log) + 1
  {
    var n := |log| - 1;
    var log' := log[o := log[o] + [d]];
    if o < n {
      TotalUpdate(log[..n], o, d);
      assert log'[..n] == log[..n][o := log[..n][o] + [d]];
    } else {
      assert log'[..n] == log[..n];
    }
  }

  lemma {:induction false} NoThreadsYet(n: nat)
    ensures SumArrived(NewThreads(n)) == 0 && SumPending(NewThreads(n)) == 0
  {
    if n > 0 {
      NoThreadsYet(n - 1);
      assert NewThreads(n)[..n - 1] == NewThreads(n - 1);
    }
  }

  lemma {:induction false} NothingPending(ths: seq<Thread>)
    requires forall k :: 0 <= k < |ths| ==> ths[k].pending.None?
    ensures SumPending(ths) == 0
  {
    if ths != [] { NothingPending(ths[..|ths| - 1]); }
  }

  /** A round never records more than the page has left. */
  lemma RoundBounded(w: World, s: Sys)
    requires Shaped(w, s) && s.active && NodesOk(w, s) && Limits(s.t, s.threads) && s.t.maxRecords > 0
    ensures SumCount(s.t.nodes) <= s.t.maxRecords
  {
    if !s.t.checkMax {
      forall k | 0 <= k < |s.t.nodes| ensures s.t.nodes[k].recordCount <= s.t.nodes[k].recordMax {
        assert NodeOk(w, s.t, s.t.nodes[k], s.threads[k]);
      }
      SumCountBounded(s.t.nodes);
    }
  }

  /** A partition is held by at most one node entry. */
  lemma OneOwner(w: World, s: Sys, j: nat, k: nat, o: nat)
    requires Shaped(w, s) && s.active && Distinct(s.t.nodes) && OwnsOk(w, s)
    requires j < |s.t.nodes| && k < |s.t.nodes| && o < |w.data|
    requires Owns(s.t.nodes[j], w.begin + o) && Owns(s.t.nodes[k], w.begin + o)
    ensures j == k
  {
    assert OwnOk(w, s.t.all.parts[o], s.sent[o], s.t.nodes[j], s.threads[j], o);
    assert OwnOk(w, s.t.all.parts[o], s.sent[o], s.t.nodes[k], s.threads[k], o);
  }
}
