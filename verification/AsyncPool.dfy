/** An asynchronous connection pool, used by one event loop, whose limit may be changed while connections are open.

A connection is known by its number.  What each operation does to the pool is a function on values; the class is the
object updated in place; the theorems are about any sequence of operations. */
module AsyncPool {
  import opened Prelude

  function Max(a: int, b: int): int { if a >= b then a else b }

  /** Idle connections, the connections out with commands, and the counters; `dropped` counts the connections taken off
      the total without counting as closed. */
  datatype PoolState = PoolState(queue: seq<nat>, out: set<nat>, total: nat, limit: nat, closed: nat, dropped: nat)

  datatype Op =
    | Admit(c: nat)    // a command asks to create connection c
    | Put(c: nat)      // a command gives c back
    | Pop              // a command takes an idle connection
    | Release(c: nat)  // a command closes c
    | Drop(c: nat)     // c could not be established
    | Limit(n: nat)    // the limit is changed

  /** What the callers keep to: a new connection is new, and commands end only connections they have. */
  predicate Legal(p: PoolState, op: Op)
  {
    match op
    case Admit(c) => c !in p.queue && c !in p.out
    case Put(c) => c in p.out
    case Release(c) => c in p.out
    case Drop(c) => c in p.out
    case _ => true
  }

  function Closed(p: PoolState, c: nat): PoolState
    requires p.total > 0
  {
    p.(out := p.out - {c}, total := p.total - 1, closed := p.closed + 1)
  }

  function Do(p: PoolState, op: Op): PoolState
    requires Legal(p, op) && (p.out != {} ==> p.total > 0)
  {
    match op
    case Admit(c) => if p.total >= p.limit then p else p.(out := p.out + {c}, total := p.total + 1)
    case Put(c) => if p.total > p.limit then Closed(p, c) else p.(queue := [c] + p.queue, out := p.out - {c})
    case Pop => if p.queue == [] then p else p.(queue := p.queue[1..], out := p.out + {p.queue[0]})
    case Release(c) => Closed(p, c)
    case Drop(c) => p.(out := p.out - {c}, total := p.total - 1, dropped := p.dropped + 1)
    case Limit(n) => p.(limit := n)
  }

  // ---------- the pool object ----------

  class Pool {
    var queue: seq<nat>
    var total: nat
    var limit: nat
    var closed: nat
    ghost var out: set<nat>
    ghost var dropped: nat

    ghost function State(): PoolState
      reads this
    {
      PoolState(queue, out, total, limit, closed, dropped)
    }

    /** `as_async_conn_pool_init` */
    constructor (maxSize: nat)
      ensures State() == PoolState([], {}, 0, maxSize, 0, 0)
    {
      queue, total, limit, closed, out, dropped := [], 0, maxSize, 0, {}, 0;
    }

    /** `as_async_conn_pool_incr_total`, for the connection c about to be created. */
    method IncrTotal(ghost c: nat) returns (ok: bool)
      requires Sane(State()) && Legal(State(), Admit(c))
      modifies this
      ensures State() == Do(old(State()), Admit(c)) && Sane(State())
      ensures ok == (old(total) < limit) && total == if ok then old(total) + 1 else old(total)
    {
      DoSane(State(), Admit(c));
      if total >= limit {
        return false;
      }
      total := total + 1;
      out := out + {c};
      return true;
    }

    /** `as_async_conn_pool_push_head` and `_push`. */
    method PushHead(c: nat) returns (ok: bool)
      requires Sane(State()) && c in out
      modifies this
      ensures ok == (old(total) <= limit)
      ensures State() == if ok then Do(old(State()), Put(c)) else old(State())
    {
      if total > limit {
        return false;
      }
      queue := [c] + queue;
      out := out - {c};
      return true;
    }

    /** The head of the queue, if any. */
    method PopHead() returns (r: Option<nat>)
      requires Sane(State())
      modifies this
      ensures State() == Do(old(State()), Pop) && Sane(State())
      ensures if old(queue) == [] then r == None else r == Some(old(queue)[0])
    {
      DoSane(State(), Pop);
      if queue == [] {
        return None;
      }
      r := Some(queue[0]);
      out := out + {queue[0]};
      queue := queue[1..];
    }

    /** `as_event_release_connection`, and the close without a watcher in `as_event_connection_timeout`. */
    method ReleaseConnection(c: nat)
      requires Sane(State()) && c in out
      modifies this
      ensures State() == Do(old(State()), Release(c)) && Sane(State())
      ensures total == old(total) - 1 && closed == old(closed) + 1 && queue == old(queue)
    {
      DoSane(State(), Release(c));
      total := total - 1;
      closed := closed + 1;
      out := out - {c};
    }

    /** `as_event_decr_conn` */
    method DecrConn(ghost c: nat)
      requires Sane(State()) && c in out
      modifies this
      ensures State() == Do(old(State()), Drop(c)) && Sane(State())
      ensures total == old(total) - 1 && closed == old(closed) && queue == old(queue)
    {
      DoSane(State(), Drop(c));
      total := total - 1;
      out, dropped := out - {c}, dropped + 1;
    }

    /** `as_event_put_connection`: back into the pool, or closed while there are too many. */
    method PutConnection(c: nat)
      requires Sane(State()) && c in out
      modifies this
      ensures State() == Do(old(State()), Put(c)) && Sane(State())
      ensures if old(total) <= limit then queue == [c] + old(queue) && total == old(total) && closed == old(closed)
              else queue == old(queue) && total == old(total) - 1 && closed == old(closed) + 1
    {
      DoSane(State(), Put(c));
      hide Sane;
      var ok := PushHead(c);
      if !ok {
        CloseExcess(c);
      }
    }

    method CloseExcess(c: nat)
      requires total > 0
      modifies this
      ensures State() == Closed(old(State()), c)
    {
      total := total - 1;
      closed := closed + 1;
      out := out - {c};
    }

    /** Commands that finish one after another bring an oversized pool down to its limit and no further. */
    method PutAll(conns: seq<nat>)
      requires Sane(State())
      requires forall i :: 0 <= i < |conns| ==> conns[i] in out
      requires forall i, j :: 0 <= i < j < |conns| ==> conns[i] != conns[j]
      modifies this
      ensures Sane(State()) && limit == old(limit)
      ensures total == if old(total) <= limit then old(total) else Max(limit, old(total) - |conns|)
      ensures closed == old(closed) + old(total) - total
    {
      hide Sane;
      for i := 0 to |conns|
        invariant Sane(State()) && limit == old(limit)
        invariant forall j :: i <= j < |conns| ==> conns[j] in out
        invariant total == if old(total) <= limit then old(total) else Max(limit, old(total) - i)
        invariant closed == old(closed) + old(total) - total
      {
        PutConnection(conns[i]);
      }
    }
  }

  /** `as_async_update_max_conns` for one node: the new maximum is split over the pools of its event loops, and nothing
      but the limits changes. */
  method UpdateMaxConns(pools: seq<Pool>, maxConns: nat)
    requires |pools| > 0 && forall i, j :: 0 <= i < j < |pools| ==> pools[i] != pools[j]
    modifies (set p | p in pools)`limit
    ensures forall j :: 0 <= j < |pools| ==> pools[j].limit == Share(maxConns, |pools|, j)
  {
    var max := maxConns / |pools|;
    var rem := maxConns - max * |pools|;
    Quotient(maxConns, |pools|);
    hide Share;
    for j := 0 to |pools|
      invariant forall i :: 0 <= i < j ==> pools[i].limit == Share(maxConns, |pools|, i)
    {
      assert pools[j] in pools;
      ShareIs(maxConns, |pools|, j, max, rem);
      pools[j].limit := if j < rem then max + 1 else max;
    }
  }

  lemma ShareIs(n: nat, parts: nat, j: nat, max: nat, rem: nat)
    requires parts > 0 && max == n / parts && rem == n % parts
    ensures Share(n, parts, j) == if j < rem then max + 1 else max
  {
  }

  /** The split limits add up to the new maximum. */
  lemma {:induction false} LimitsAddUp(pools: seq<Pool>, maxConns: nat, k: nat)
    requires |pools| > 0 && k <= |pools|
    requires forall j :: 0 <= j < |pools| ==> pools[j].limit == Share(maxConns, |pools|, j)
    ensures SumLimits(pools, k) == SumShares(maxConns, |pools|, k)
    ensures k == |pools| ==> SumLimits(pools, k) == maxConns
  {
    hide Share;
    if k > 0 { LimitsAddUp(pools, maxConns, k - 1); }
    SharesAddUp(maxConns, |pools|);
  }

  /** The limits of the first k pools together. */
  ghost function SumLimits(pools: seq<Pool>, k: nat): nat
    requires k <= |pools|
    reads pools
  {
    if k == 0 then 0 else SumLimits(pools, k - 1) + pools[k - 1].limit
  }

  // ---------- what every operation keeps ----------

  ghost predicate NoRepeat(s: seq<nat>) { forall i, j :: 0 <= i < j < |s| ==> s[i] != s[j] }

  /** Every counted connection is in one place, idle or out, and the total is their number. */
  ghost predicate Sane(p: PoolState)
  {
    && NoRepeat(p.queue) && (forall c :: c in p.queue ==> c !in p.out)
    && p.total == |p.queue| + |p.out|
  }

  lemma DoSane(p: PoolState, op: Op)
    requires Sane(p) && Legal(p, op)
    ensures (p.out != {} ==> p.total > 0) && Sane(Do(p, op))
  {
    match op {
      case Put(c) => if p.total <= p.limit { Pushed(p.queue, c); }
      case Pop => if p.queue != [] { Popped(p.queue); }
      case _ =>
    }
  }

  lemma Pushed(queue: seq<nat>, c: nat)
    requires NoRepeat(queue) && c !in queue
    ensures NoRepeat([c] + queue) && |[c] + queue| == |queue| + 1
  {
    var q := [c] + queue;
    forall i, j | 0 <= i < j < |q| ensures q[i] != q[j] {
      assert q[j] == queue[j - 1];
      if i > 0 { assert q[i] == queue[i - 1]; }
    }
  }

  lemma Popped(queue: seq<nat>)
    requires NoRepeat(queue) && queue != []
    ensures NoRepeat(queue[1..]) && queue[0] !in queue[1..]
  {
    forall i, j | 0 <= i < j < |queue[1..]| ensures queue[1..][i] != queue[1..][j] {
      assert queue[i + 1] != queue[j + 1];
    }
  }

  // ---------- any sequence of operations ----------

  ghost predicate LegalAll(p: PoolState, ops: seq<Op>)
    decreases |ops|
  {
    ops == [] || (Legal(p, ops[0]) && (p.out != {} ==> p.total > 0) && LegalAll(Do(p, ops[0]), ops[1..]))
  }

  ghost function DoAll(p: PoolState, ops: seq<Op>): PoolState
    requires LegalAll(p, ops)
    decreases |ops|
  {
    if ops == [] then p else DoAll(Do(p, ops[0]), ops[1..])
  }

  /** How many of the operations admit a connection. */
  ghost function Admissions(p: PoolState, ops: seq<Op>): nat
    requires LegalAll(p, ops)
    decreases |ops|
  {
    if ops == [] then 0
    else (if ops[0].Admit? && p.total < p.limit then 1 else 0) + Admissions(Do(p, ops[0]), ops[1..])
  }

  /** Conservation over every run: each admission is accounted for once, in the total, among the closed or among the
      dropped, and the total is the connections that are idle or out. */
  lemma {:induction false} RunConserved(p: PoolState, ops: seq<Op>)
    requires Sane(p) && LegalAll(p, ops)
    ensures var q := DoAll(p, ops);
            && Sane(q)
            && p.total + p.closed + p.dropped + Admissions(p, ops) == q.total + q.closed + q.dropped
    decreases |ops|
  {
    if ops != [] {
      DoSane(p, ops[0]);
      assert Do(p, ops[0]).total + Do(p, ops[0]).closed + Do(p, ops[0]).dropped
             == p.total + p.closed + p.dropped + if ops[0].Admit? && p.total < p.limit then 1 else 0;
      hide Sane, Do, Legal;
      RunConserved(Do(p, ops[0]), ops[1..]);
    }
  }

  /** The limit in force is the one that was set last. */
  ghost function LastLimit(limit: nat, ops: seq<Op>): nat
    decreases |ops|
  {
    if ops == [] then limit else LastLimit(if ops[0].Limit? then ops[0].n else limit, ops[1..])
  }

  lemma {:induction false} LimitInForce(p: PoolState, ops: seq<Op>)
    requires LegalAll(p, ops)
    ensures DoAll(p, ops).limit == LastLimit(p.limit, ops)
    decreases |ops|
  {
    if ops != [] {
      assert Do(p, ops[0]).limit == if ops[0].Limit? then ops[0].n else p.limit;
      hide Do, Legal;
      LimitInForce(Do(p, ops[0]), ops[1..]);
    }
  }

  /** The idle connections never become fewer than n. */
  ghost predicate AtLeast(p: PoolState, ops: seq<Op>, n: nat)
    requires LegalAll(p, ops)
    decreases |ops|
  {
    |p.queue| >= n && (ops == [] || AtLeast(Do(p, ops[0]), ops[1..], n))
  }

  /** A pool is a stack: as long as the idle connections do not become fewer, those there were stay, in order, behind
      the ones put back since. */
  lemma {:induction false} Underneath(p: PoolState, ops: seq<Op>, below: seq<nat>)
    requires LegalAll(p, ops) && AtLeast(p, ops, |below|) && |p.queue| >= |below|
    requires p.queue[|p.queue| - |below|..] == below
    ensures var q := DoAll(p, ops).queue; |q| >= |below| && q[|q| - |below|..] == below
    decreases |ops|
  {
    if ops != [] {
      var p1 := Do(p, ops[0]);
      assert p1.queue == p.queue || (exists c :: p1.queue == [c] + p.queue) || p1.queue == p.queue[1..] by {
        match ops[0] {
          case Put(c) => if p.total <= p.limit { assert p1.queue == [c] + p.queue; }
          case _ =>
        }
      }
      assert |p1.queue| >= |below|;
      assert p1.queue[|p1.queue| - |below|..] == below;
      hide Do, Legal;
      Underneath(p1, ops[1..], below);
    }
  }

  /** The connection put back last is taken first: after any operations that leave as many idle connections as there
      were behind it, the next command to take one gets it. */
  lemma LastInFirstOut(p: PoolState, c: nat, ops: seq<Op>)
    requires Sane(p) && Legal(p, Put(c)) && p.total <= p.limit && (p.out != {} ==> p.total > 0)
    requires LegalAll(Do(p, Put(c)), ops) && AtLeast(Do(p, Put(c)), ops, |p.queue| + 1)
    requires |DoAll(Do(p, Put(c)), ops).queue| == |p.queue| + 1
    ensures var q := DoAll(Do(p, Put(c)), ops);
            && q.queue == [c] + p.queue
            && (q.out != {} ==> q.total > 0) && Do(q, Pop).queue == p.queue && c in Do(q, Pop).out
  {
    hide Sane, DoAll, LegalAll;
    DoSane(p, Put(c));
    var p1 := Do(p, Put(c));
    assert p1.queue == [c] + p.queue;
    RunConserved(p1, ops);
    Underneath(p1, ops, p1.queue);
    var q := DoAll(p1, ops);
    assert q.queue[0..] == q.queue;
    DoSane(q, Pop);
    assert ([c] + p.queue)[1..] == p.queue;
  }

  ghost predicate KeepsLimit(ops: seq<Op>) { forall i :: 0 <= i < |ops| ==> !ops[i].Limit? }

  /** With a limit that stays, the total never rises above the larger of itself and the limit: an oversized pool only
      shrinks. */
  lemma {:induction false} NeverRises(p: PoolState, ops: seq<Op>)
    requires Sane(p) && LegalAll(p, ops) && KeepsLimit(ops)
    ensures var q := DoAll(p, ops); q.limit == p.limit && q.total <= Max(p.total, p.limit)
    decreases |ops|
  {
    if ops != [] {
      DoSane(p, ops[0]);
      assert !ops[0].Limit?;
      assert Do(p, ops[0]).limit == p.limit && Do(p, ops[0]).total <= Max(p.total, p.limit);
      hide Sane, Do, Legal;
      NeverRises(Do(p, ops[0]), ops[1..]);
    }
  }

  /** While the total is above the limit nothing is pushed: the idle connections only become fewer. */
  lemma {:induction false} NoPushAbove(p: PoolState, ops: seq<Op>)
    requires Sane(p) && LegalAll(p, ops) && KeepsLimit(ops) && DoAll(p, ops).total > p.limit
    ensures exists n :: 0 <= n <= |p.queue| && DoAll(p, ops).queue == p.queue[n..]
    decreases |ops|
  {
    if ops == [] {
      assert DoAll(p, ops).queue == p.queue[0..];
    } else {
      DoSane(p, ops[0]);
      var p1 := Do(p, ops[0]);
      NeverRises(p1, ops[1..]);
      assert p1.limit == p.limit && !ops[0].Limit?;
      assert p1.total > p.limit;
      assert p.total > p.limit;
      NoPushAbove(p1, ops[1..]);
      var n :| 0 <= n <= |p1.queue| && DoAll(p1, ops[1..]).queue == p1.queue[n..];
      var m := if p1.queue == p.queue then n else n + 1;
      assert p1.queue[n..] == p.queue[m..];
    }
  }
}
