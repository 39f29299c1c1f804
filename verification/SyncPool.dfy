/** A synchronous connection pool: a locked queue of idle connections and an unsigned 32 bit count of the connections
accounted for; and the split of a node's limits over its pools. */
module SyncPool {
  import opened Prelude

  // ---------- the pool object ----------

  /** What other threads do between two steps of trimming: they take connections from the head, put others there, and
      change the total by a number. */
  datatype Turn<Sock> = Turn(take: nat, put: seq<Sock>, counted: int)

  function Quiet<Sock>(): Turn<Sock> { Turn(0, [], 0) }

  /** Why trimming ends. */
  datatype TrimEnd = CountReached | PoolEmpty | Returned | NoRoom

  /** Nothing gets lost: what was in the pool or was added is in the pool, was taken or is closed. */
  ghost predicate Conserved<Sock>(before: seq<Sock>, added: seq<Sock>, after: seq<Sock>, taken: seq<Sock>,
                                  closed: seq<Sock>)
  {
    multiset(before) + multiset(added) == multiset(after) + multiset(taken) + multiset(closed)
  }

  /** At the head some are taken, then others added. */
  ghost predicate Turned<Sock>(before: seq<Sock>, after: seq<Sock>, taken: seq<Sock>, added: seq<Sock>)
  {
    taken <= before && after == added + before[|taken|..]
  }

  lemma TurnConserves<Sock>(before: seq<Sock>, after: seq<Sock>, taken: seq<Sock>, added: seq<Sock>)
    requires Turned(before, after, taken, added)
    ensures Conserved(before, added, after, taken, [])
    ensures |taken| == |added| == 0 ==> before == after
  {
    assert before == taken + before[|taken|..];
  }

  lemma ConservesThen<Sock>(q0: seq<Sock>, a1: seq<Sock>, q1: seq<Sock>, t1: seq<Sock>,
                            a2: seq<Sock>, q2: seq<Sock>, t2: seq<Sock>, c2: seq<Sock>)
    requires Conserved(q0, a1, q1, t1, []) && Conserved(q1, a2, q2, t2, c2)
    ensures Conserved(q0, a1 + a2, q2, t1 + t2, c2)
  {
    Conserves(q0, a1, q1, t1, [], a2, q2, t2, c2);
    assert c2 + [] == c2;
  }

  /** A connection out of the pool while others have a turn, closed or put back in the end. */
  lemma OutConserves<Sock>(before: seq<Sock>, s: Sock, added: seq<Sock>, after: seq<Sock>, taken: seq<Sock>)
    requires Conserved(before, added, after, taken, [])
    ensures Conserved(before + [s], added, after, taken, [s]) && Conserved(before + [s], added, after + [s], taken, [])
  {
    assert multiset(before + [s]) + multiset(added) == multiset(before) + multiset(added) + multiset{s};
    assert multiset(after) + multiset(taken) + multiset([s])
        == multiset(after + [s]) + multiset(taken) == multiset(after) + multiset(taken) + multiset{s};
  }

  lemma Conserves<Sock>(q0: seq<Sock>, a1: seq<Sock>, q1: seq<Sock>, t1: seq<Sock>, c1: seq<Sock>,
                        a2: seq<Sock>, q2: seq<Sock>, t2: seq<Sock>, c2: seq<Sock>)
    requires Conserved(q0, a1, q1, t1, c1) && Conserved(q1, a2, q2, t2, c2)
    ensures Conserved(q0, a1 + a2, q2, t1 + t2, c2 + c1)
  {
    forall s: Sock
      ensures (multiset(q0) + multiset(a1 + a2))[s] == (multiset(q2) + multiset(t1 + t2) + multiset(c2 + c1))[s]
    {
      assert (multiset(q0) + multiset(a1))[s] == (multiset(q1) + multiset(t1) + multiset(c1))[s];
      assert (multiset(q1) + multiset(a2))[s] == (multiset(q2) + multiset(t2) + multiset(c2))[s];
    }
  }

  /** Locked queue of idle connections and the number of connections accounted for. */
  class ConnPool<Sock(0)> {
    var queue: seq<Sock>
    var total: nat
    const capacity: nat
    const minSize: nat

    constructor (minSize: nat, maxSize: nat)
      ensures queue == [] && total == 0 && capacity == maxSize && this.minSize == minSize
    {
      queue, total, capacity, this.minSize := [], 0, maxSize, minSize;
    }

    method PopHead() returns (r: Option<Sock>)
      modifies this`queue
      ensures r.None? <==> old(queue) == []
      ensures r.Some? ==> [r.value] + queue == old(queue)
      ensures r.None? ==> queue == old(queue)
    {
      if queue == [] { return None; }
      r := Some(queue[0]);
      queue := queue[1..];
    }

    method PopTail() returns (r: Option<Sock>)
      modifies this`queue
      ensures r.None? <==> old(queue) == []
      ensures r.Some? ==> queue + [r.value] == old(queue)
      ensures r.None? ==> queue == old(queue)
    {
      if queue == [] { return None; }
      r := Some(queue[|queue| - 1]);
      queue := queue[..|queue| - 1];
    }

    method PushHead(s: Sock) returns (ok: bool)
      modifies this`queue
      ensures ok == (|old(queue)| < capacity)
      ensures queue == if ok then [s] + old(queue) else old(queue)
    {
      ok := |queue| < capacity;
      if ok { queue := [s] + queue; }
    }

    method PushTail(s: Sock) returns (ok: bool)
      modifies this`queue
      ensures ok == (|old(queue)| < capacity)
      ensures queue == if ok then old(queue) + [s] else old(queue)
    {
      ok := |queue| < capacity;
      if ok { queue := queue + [s]; }
    }

    /** True if the connection total was within the limit before. */
    method Incr() returns (ok: bool)
      modifies this`total
      ensures total == Wrap(old(total) + 1) && ok == (old(total) < capacity)
    {
      ok := total < capacity;
      total := Wrap(total + 1);
    }

    method Decr()
      modifies this`total
      ensures total == Wrap(old(total) - 1)
    {
      total := Wrap(total - 1);
    }

    /** Number of connections above the minimum, negative if connections are missing: an unsigned difference read as
        a signed number. */
    function Excess(): (r: int)
      reads this
      ensures total < 0x8000_0000 && minSize < 0x8000_0000 ==> r == total - minSize
    {
      var d := Wrap(total - minSize);
      if d < 0x8000_0000 then d else d - 0x1_0000_0000
    }

    /** What other threads do to the pool in one go, all at its head: they take connections, put others in front as
        far as there is room, and count connections in or out. */
    method Others(turn: Turn<Sock>) returns (taken: seq<Sock>, added: seq<Sock>)
      requires |queue| <= capacity
      modifies this
      ensures |queue| <= capacity && total == Wrap(old(total) + turn.counted)
      ensures added <= turn.put && |taken| <= turn.take && Turned(old(queue), queue, taken, added)
    {
      var take := if turn.take <= |queue| then turn.take else |queue|;
      taken := queue[..take];
      var room := capacity - (|queue| - take);
      added := if |turn.put| <= room then turn.put else turn.put[..room];
      queue := added + queue[take..];
      total := Wrap(total + turn.counted);
    }

    /** What the end of trimming says. */
    predicate Ended(end: TrimEnd, current: Sock -> bool, closed: seq<Sock>, count: nat)
      reads this
    {
      match end
      case CountReached => |closed| == count
      case PoolEmpty => queue == []
      case Returned => queue != [] && current(queue[|queue| - 1])
      case NoRoom => |queue| == capacity && closed != [] && current(closed[0])
    }

    /** Others have a turn; then the connection goes back if it is current and there is room; otherwise it is
        closed. */
    method BackOrClosed(s: Sock, current: Sock -> bool, turn: Turn<Sock>)
      returns (closed: seq<Sock>, end: Option<TrimEnd>, taken: seq<Sock>, added: seq<Sock>)
      requires |queue| <= capacity
      modifies this
      ensures |queue| <= capacity && Conserved(old(queue) + [s], added, queue, taken, closed)
      ensures total == Wrap(old(total) + turn.counted - |closed|)
      ensures end.None? || end.value.NoRoom? || end.value.Returned?
      ensures closed == if end == Some(Returned) then [] else [s]
      ensures end.Some? <==> current(s)
      ensures end.Some? ==> Ended(end.value, current, closed, 0)
      ensures turn == Quiet() && |old(queue)| < capacity ==> end != Some(NoRoom) && queue + closed == old(queue) + [s]
    {
      hide Wrap, Conserved, Turned;
      WrapAdd(total + turn.counted, -1);
      closed, end := [s], None;
      taken, added := Others(turn);
      TurnConserves(old(queue), queue, taken, added);
      OutConserves(old(queue), s, added, queue, taken);
      if current(s) {
        var ok := PushTail(s);
        if ok { return [], Some(Returned), taken, added; }
        end := Some(NoRoom);
      }
      Decr();
    }

    /** One connection is taken from the tail.  Others have a turn before that and another one before it goes back or
        is closed. */
    method TrimOne(current: Sock -> bool, first: Turn<Sock>, second: Turn<Sock>)
      returns (closed: seq<Sock>, end: Option<TrimEnd>, taken: seq<Sock>, added: seq<Sock>, counted: int)
      requires |queue| <= capacity
      modifies this
      ensures |queue| <= capacity && Conserved(old(queue), added, queue, taken, closed)
      ensures total == Wrap(old(total) + counted - |closed|)
      ensures |closed| == if end.None? || end.value.NoRoom? then 1 else 0
      ensures closed != [] ==> (current(closed[0]) <==> end.Some?)
      ensures end.Some? ==> !end.value.CountReached? && Ended(end.value, current, closed, 0)
      ensures first == Quiet() == second ==> end != Some(NoRoom) && queue + closed == old(queue) && counted == 0
    {
      hide Wrap, Conserved, Turned;
      counted := first.counted;
      taken, added := Others(first);
      TurnConserves(old(queue), queue, taken, added);
      ghost var q1 := queue;
      var s := PopTail();
      if s.None? { return [], Some(PoolEmpty), taken, added, counted; }
      var taken2, added2;
      closed, end, taken2, added2 := BackOrClosed(s.value, current, second);
      WrapAdd(old(total) + first.counted, second.counted - |closed|);
      ConservesThen(old(queue), added, q1, taken, added2, queue, taken2, closed);
      taken, added, counted := taken + taken2, added + added2, counted + second.counted;
    }

    /** `as_node_close_idle_connections`: closes connections from the tail, at most `count`, up to the first one that is
        still current; that one goes back to the tail, or is closed too if other threads have filled the pool
        meanwhile.  `turns` is what other threads do between the steps. */
    method CloseIdle(count: nat, current: Sock -> bool, turns: nat -> Turn<Sock>)
      returns (closed: seq<Sock>, end: TrimEnd, taken: seq<Sock>, added: seq<Sock>, counted: int)
      requires |queue| <= capacity && total < 0x1_0000_0000
      modifies this
      ensures |queue| <= capacity && Conserved(old(queue), added, queue, taken, closed)
      ensures total == Wrap(old(total) + counted - |closed|) && |closed| <= count
      ensures forall i :: (if end.NoRoom? then 1 else 0) <= i < |closed| ==> !current(closed[i])
      ensures Ended(end, current, closed, count)
      ensures (forall i :: turns(i) == Quiet()) ==> !end.NoRoom? && queue + closed == old(queue) && counted == 0
    {
      WrapSmall(total);
      hide Wrap;
      closed, end, taken, added, counted := [], CountReached, [], [], 0;
      ghost var quiet := forall i :: turns(i) == Quiet();
      var left: nat, turn: nat := count, 0;
      hide Conserved;
      while left > 0
        invariant left + |closed| == count && left >= 0 && |queue| <= capacity && end.CountReached?
        invariant total == Wrap(old(total) + counted - |closed|)
        invariant Conserved(old(queue), added, queue, taken, closed)
        invariant forall i :: 0 <= i < |closed| ==> !current(closed[i])
        invariant quiet ==> queue + closed == old(queue) && counted == 0
      {
        ghost var before := queue;
        var out, stop, taken1, added1, counted1 := TrimOne(current, turns(turn), turns(turn + 1));
        WrapAdd(old(total) + counted - |closed|, counted1 - |out|);
        Conserves(old(queue), added, before, taken, closed, added1, queue, taken1, out);
        closed, taken, added, counted := out + closed, taken + taken1, added + added1, counted + counted1;
        if stop.Some? { end := stop.value; break; }
        left, turn := left - 1, turn + 2;
      }
    }

    /** `as_conn_pool_destroy`: every pooled connection is closed, in order. */
    method Destroy() returns (closed: seq<Sock>)
      modifies this`queue
      ensures closed == old(queue) && queue == []
    {
      closed := [];
      while queue != []
        invariant closed + queue == old(queue)
        decreases |queue|
      {
        var s := PopHead();
        closed := closed + [s.value];
      }
    }
  }

  // ---------- the split of the node's limits over its pools ----------

  /** The pools' limits add up to the node's, and no pool has a minimum above its capacity. */
  lemma PoolSplit(min: nat, max: nat, pools: nat, i: nat)
    requires pools > 0 && min <= max
    ensures SumShares(min, pools, pools) == min && SumShares(max, pools, pools) == max
    ensures Share(min, pools, i) <= Share(max, pools, i)
  {
    SharesAddUp(min, pools);
    SharesAddUp(max, pools);
    ShareMonotone(min, max, pools, i);
  }
}
