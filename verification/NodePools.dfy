/** All synchronous connection pools of a node together: the node's limits are shared out over its pools, and threads
of any number work on any of them in any order. */
module NodePools {
  import opened Prelude
  import opened PoolProtocol

  datatype Limits = Limits(min: nat, max: nat, pools: nat)

  predicate LimitsOk(l: Limits) { l.pools > 0 && l.min <= l.max < 0x4000_0000 }

  /** Pool i gets its share of both limits. */
  function PoolConfig(l: Limits, i: nat): Config
    requires l.pools > 0
  {
    Config(Share(l.max, l.pools, i), Share(l.min, l.pools, i))
  }

  /** One pool takes a step. */
  datatype NodeEvent = NodeEvent(pool: nat, event: Event)

  function NodeInit(l: Limits): seq<State> { seq(l.pools, _ => Init()) }

  predicate NodeEnabled(l: Limits, ps: seq<State>, e: NodeEvent)
    requires l.pools > 0
  {
    |ps| == l.pools && e.pool < |ps| && Enabled(PoolConfig(l, e.pool), ps[e.pool], e.event)
  }

  function NodeApply(l: Limits, ps: seq<State>, e: NodeEvent): seq<State>
    requires l.pools > 0 && NodeEnabled(l, ps, e)
  {
    ps[e.pool := Apply(PoolConfig(l, e.pool), ps[e.pool], e.event)]
  }

  ghost predicate NodeValid(l: Limits, ps: seq<State>, events: seq<NodeEvent>)
    requires l.pools > 0
    decreases |events|
  {
    events == [] || (NodeEnabled(l, ps, events[0]) && NodeValid(l, NodeApply(l, ps, events[0]), events[1..]))
  }

  ghost function NodeRun(l: Limits, ps: seq<State>, events: seq<NodeEvent>): seq<State>
    requires l.pools > 0 && NodeValid(l, ps, events)
    decreases |events|
  {
    if events == [] then ps else NodeRun(l, NodeApply(l, ps, events[0]), events[1..])
  }

  ghost predicate NodeReachable(l: Limits, ps: seq<State>)
    requires l.pools > 0
  {
    exists events :: NodeValid(l, NodeInit(l), events) && NodeRun(l, NodeInit(l), events) == ps
  }

  /** Connections of all pools. */
  function NodeConnections(ps: seq<State>): nat
  {
    if ps == [] then 0 else NodeConnections(ps[..|ps| - 1]) + Connections(ps[|ps| - 1])
  }

  // ---------- the pools are independent ----------

  /** Every pool is in a state it can reach on its own. */
  ghost predicate EachReachable(l: Limits, ps: seq<State>)
    requires l.pools > 0
  {
    |ps| == l.pools && forall i :: 0 <= i < |ps| ==> Reachable(PoolConfig(l, i), ps[i])
  }

  lemma {:induction false} RunEach(l: Limits, ps: seq<State>, events: seq<NodeEvent>)
    requires l.pools > 0 && EachReachable(l, ps) && NodeValid(l, ps, events)
    ensures EachReachable(l, NodeRun(l, ps, events))
    decreases |events|
  {
    hide Reachable, Enabled, Apply;
    if events != [] {
      var e := events[0];
      Reach(PoolConfig(l, e.pool), ps[e.pool], e.event);
      RunEach(l, NodeApply(l, ps, e), events[1..]);
    }
  }

  /** The run of one pool, as a run of the node. */
  lemma {:induction false} LiftRun(l: Limits, ps: seq<State>, before: seq<NodeEvent>, i: nat, events: seq<Event>)
    requires l.pools > 0 && NodeValid(l, NodeInit(l), before) && NodeRun(l, NodeInit(l), before) == ps
    requires |ps| == l.pools && i < l.pools && Valid(PoolConfig(l, i), ps[i], events)
    ensures NodeReachable(l, ps[i := Run(PoolConfig(l, i), ps[i], events)])
    decreases |events|
  {
    hide Enabled, Apply;
    if events == [] {
      assert ps[i := ps[i]] == ps;
    } else {
      var e := NodeEvent(i, events[0]);
      NodeExtend(l, NodeInit(l), before, e);
      var ps' := NodeApply(l, ps, e);
      LiftRun(l, ps', before + [e], i, events[1..]);
      assert ps'[i := Run(PoolConfig(l, i), ps'[i], events[1..])] == ps[i := Run(PoolConfig(l, i), ps[i], events)];
    }
  }

  lemma {:induction false} NodeExtend(l: Limits, ps: seq<State>, events: seq<NodeEvent>, e: NodeEvent)
    requires l.pools > 0 && NodeValid(l, ps, events) && NodeEnabled(l, NodeRun(l, ps, events), e)
    ensures NodeValid(l, ps, events + [e]) && NodeRun(l, ps, events + [e]) == NodeApply(l, NodeRun(l, ps, events), e)
    decreases |events|
  {
    hide NodeEnabled, NodeApply;
    if events == [] {
      assert events + [e] == [e];
      assert [e][1..] == [];
      assert NodeValid(l, NodeApply(l, ps, e), []);
    } else {
      NodeExtend(l, NodeApply(l, ps, events[0]), events[1..], e);
      assert (events + [e])[1..] == events[1..] + [e];
    }
  }

  /** The first k pools as in `ps`, the others untouched. */
  function FirstPools(l: Limits, ps: seq<State>, k: nat): (r: seq<State>)
    requires k <= |ps| == l.pools
  {
    ps[..k] + seq(l.pools - k, _ => Init())
  }

  lemma {:induction false} ReachFirst(l: Limits, ps: seq<State>, k: nat)
    requires l.pools > 0 && EachReachable(l, ps) && k <= |ps|
    ensures NodeReachable(l, FirstPools(l, ps, k))
  {
    hide Valid, Run;
    if k == 0 {
      assert FirstPools(l, ps, 0) == NodeInit(l);
      assert NodeValid(l, NodeInit(l), []) && NodeRun(l, NodeInit(l), []) == NodeInit(l);
    } else {
      ReachFirst(l, ps, k - 1);
      var qs := FirstPools(l, ps, k - 1);
      var c := PoolConfig(l, k - 1);
      var before :| NodeValid(l, NodeInit(l), before) && NodeRun(l, NodeInit(l), before) == qs;
      assert Reachable(c, ps[k - 1]);
      var events :| Valid(c, Init(), events) && Run(c, Init(), events) == ps[k - 1];
      LiftRun(l, qs, before, k - 1, events);
      assert qs[k - 1 := ps[k - 1]] == FirstPools(l, ps, k);
    }
  }

  /** The states of a node are exactly the combinations of states its pools reach on their own. */
  lemma PoolsIndependent(l: Limits, ps: seq<State>)
    requires l.pools > 0
    ensures NodeReachable(l, ps) <==> EachReachable(l, ps)
  {
    if NodeReachable(l, ps) {
      forall i | 0 <= i < l.pools ensures Reachable(PoolConfig(l, i), Init()) { ReachInit(PoolConfig(l, i)); }
      hide NodeValid, NodeRun, Reachable;
      var events :| NodeValid(l, NodeInit(l), events) && NodeRun(l, NodeInit(l), events) == ps;
      RunEach(l, NodeInit(l), events);
    }
    if EachReachable(l, ps) {
      ReachFirst(l, ps, |ps|);
      assert FirstPools(l, ps, |ps|) == ps;
    }
  }

  // ---------- the node's limits ----------

  lemma ShareAtMost(n: nat, parts: nat, i: nat)
    requires parts > 0
    ensures Share(n, parts, i) <= n
  {
    Quotient(n, parts);
    TimesAtLeast(n / parts, parts);
  }

  lemma TimesAtLeast(q: nat, parts: nat)
    requires parts > 0
    ensures q <= q * parts
  {
    assert q * parts == q + q * (parts - 1);
  }

  lemma PoolConfigOk(l: Limits, i: nat)
    requires LimitsOk(l)
    ensures ConfigOk(PoolConfig(l, i))
  {
    hide Share;
    ShareMonotone(l.min, l.max, l.pools, i);
    ShareAtMost(l.max, l.pools, i);
  }

  lemma {:induction false} SumWithin(l: Limits, ps: seq<State>, k: nat)
    requires l.pools > 0 && k <= |ps|
    requires forall i :: 0 <= i < |ps| ==> Connections(ps[i]) <= PoolConfig(l, i).capacity + PoolConfig(l, i).minSize
    ensures NodeConnections(ps[..k]) <= SumShares(l.max, l.pools, k) + SumShares(l.min, l.pools, k)
  {
    hide Share, Connections;
    if k > 0 {
      SumWithin(l, ps, k - 1);
      assert ps[..k][..k - 1] == ps[..k - 1];
    }
  }

  /** A node never has more connections than its maximum and its minimum together. */
  lemma NodeWithin(l: Limits, ps: seq<State>)
    requires LimitsOk(l) && NodeReachable(l, ps)
    ensures |ps| == l.pools && NodeConnections(ps) <= l.max + l.min
  {
    hide NodeReachable, Reachable, Connections, Share;
    PoolsIndependent(l, ps);
    forall i | 0 <= i < |ps| ensures Connections(ps[i]) <= PoolConfig(l, i).capacity + PoolConfig(l, i).minSize {
      PoolConfigOk(l, i);
      WithinCapacityAndMinimum(PoolConfig(l, i), ps[i]);
    }
    SumWithin(l, ps, |ps|);
    assert ps[..|ps|] == ps;
    SharesAddUp(l.max, l.pools);
    SharesAddUp(l.min, l.pools);
  }

  /** Every pool at its bound. */
  lemma {:induction false} FullPools(l: Limits, k: nat) returns (ps: seq<State>)
    requires LimitsOk(l)
    ensures |ps| == k && forall i :: 0 <= i < k ==> Reachable(PoolConfig(l, i), ps[i])
    ensures NodeConnections(ps) == SumShares(l.max, l.pools, k) + SumShares(l.min, l.pools, k)
  {
    hide Reachable, Connections, Share;
    if k == 0 {
      ps := [];
    } else {
      var qs := FullPools(l, k - 1);
      PoolConfigOk(l, k - 1);
      BoundReached(PoolConfig(l, k - 1));
      var s :| Reachable(PoolConfig(l, k - 1), s)
               && Connections(s) == PoolConfig(l, k - 1).capacity + PoolConfig(l, k - 1).minSize;
      ps := qs + [s];
      assert ps[..k - 1] == qs;
    }
  }

  /** That bound is exact: some run reaches it in all pools at once. */
  lemma NodeBoundReached(l: Limits) returns (ps: seq<State>)
    requires LimitsOk(l)
    ensures NodeReachable(l, ps) && NodeConnections(ps) == l.max + l.min
  {
    hide NodeReachable, Reachable;
    ps := FullPools(l, l.pools);
    PoolsIndependent(l, ps);
    SharesAddUp(l.max, l.pools);
    SharesAddUp(l.min, l.pools);
  }

  /** A node keeps its maximum in every run exactly if it has no minimum. */
  lemma NodeMaximumKeptIff(l: Limits)
    requires LimitsOk(l)
    ensures (forall ps :: NodeReachable(l, ps) ==> NodeConnections(ps) <= l.max) <==> l.min == 0
  {
    hide NodeReachable;
    forall ps | NodeReachable(l, ps) ensures NodeConnections(ps) <= l.max + l.min { NodeWithin(l, ps); }
    var full := NodeBoundReached(l);
  }
}
