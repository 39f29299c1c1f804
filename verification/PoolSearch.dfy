/** The search of a node's connection pools for one with a free connection or a free place.

The search keeps an index that runs down from the initial pool to the first and then up to the last, but moves by
that index from the pool it is at, not from the first pool.  Positions are therefore the prefix sums of the
intended indices. */
module PoolSearch {
  import opened Prelude

  /** The index after k moves, when the search starts at pool i. */
  function Index(i: nat, k: nat): nat { if k <= i then i - k else k }

  /** Where the search is after k moves. */
  function Position(i: nat, k: nat): nat
  {
    if k == 0 then i else Position(i, k - 1) + Index(i, k)
  }

  /** Where the search starts: pools are taken in turn. */
  function Initial(max: nat, iter: nat): nat
    requires max > 0
  {
    if max == 1 then 0 else iter % max
  }

  /** The first position from the k-th on, among the positions of a search over max pools, that grants a
      connection. */
  function FirstFree(i: nat, max: nat, free: nat -> bool, k: nat): (r: Option<nat>)
    ensures r.None? ==> forall j: nat :: k <= j < max ==> !free(Position(i, j))
    ensures r.Some? ==> free(r.value)
    decreases max - k
  {
    if k >= max then None
    else if free(Position(i, k)) then Some(Position(i, k))
    else FirstFree(i, max, free, k + 1)
  }

  /** The loop of `as_node_get_connection`.  `free(p)` says whether the pool at position p grants a connection. */
  method Search(max: nat, iter: nat, free: nat -> bool) returns (r: Option<nat>)
    requires max > 0
    ensures r == FirstFree(Initial(max, iter), max, free, 0)
    ensures free(iter % max) ==> r == Some(iter % max)
    ensures r.None? ==> forall k: nat :: k < max ==> !free(Position(iter % max, k))
    ensures r.Some? ==> exists k: nat :: k < max && FirstAt(iter % max, free, k) && r.value == Position(iter % max, k)
  {
    var initial, backward := 0, false;
    if max > 1 {
      initial := iter % max;
      backward := true;
    }
    assert initial == Initial(max, iter) == iter % max < max by { SmallRemainders(max, iter); }
    hide Initial;
    FirstFreeIs(initial, max, free, 0);
    var pool, index := initial, initial;
    ghost var k := 0;
    while true
      invariant k < max && index == Index(initial, k) && pool == Position(initial, k)
      invariant if backward then k <= initial else k == index && initial <= k
      invariant FirstFree(initial, max, free, 0) == FirstFree(initial, max, free, k)
      decreases max - k
    {
      if free(pool) {
        return Some(pool);
      }
      k := k + 1;
      if backward {
        if index > 0 {
          index := index - 1;
        } else {
          index := initial;
          index := index + 1;
          if index >= max { break; }
          backward := false;
        }
      } else {
        index := index + 1;
        if index >= max { break; }
      }
      pool := pool + index;
    }
    return None;
  }

  lemma SmallRemainders(max: nat, iter: nat)
    requires max > 0
    ensures iter % max < max && (max == 1 ==> iter % max == 0)
  {
  }

  /** Position k grants a connection and no position before it. */
  ghost predicate FirstAt(i: nat, free: nat -> bool, k: nat)
  {
    free(Position(i, k)) && forall j: nat :: j < k ==> !free(Position(i, j))
  }

  lemma {:induction false} FirstFreeIs(i: nat, max: nat, free: nat -> bool, k: nat)
    requires k <= max && forall j: nat :: j < k ==> !free(Position(i, j))
    ensures var r := FirstFree(i, max, free, k);
            && (r.None? ==> forall j: nat :: j < max ==> !free(Position(i, j)))
            && (r.Some? ==> exists j: nat :: j < max && FirstAt(i, free, j) && r.value == Position(i, j))
            && (k == 0 < max && free(i) ==> r == Some(i))
    decreases max - k
  {
    if k < max {
      if free(Position(i, k)) {
        assert FirstAt(i, free, k);
      } else {
        FirstFreeIs(i, max, free, k + 1);
      }
    }
  }

  /** Calls take turns: among as many calls in a row as there are pools, every pool is the first one tried by exactly
      one. */
  lemma TakesTurns(max: nat, iter: nat, p: nat)
    requires p < max
    ensures exists i: nat :: iter <= i < iter + max && Initial(max, i) == p
    ensures forall i: nat, k: nat :: iter <= i < k < iter + max ==> Initial(max, i) != Initial(max, k)
  {
    hide Initial;
    InitialPlus(max, iter, 0);
    var r := Initial(max, iter);
    var j := if p >= r then p - r else p - r + max;
    InitialPlus(max, iter, j);
    assert Initial(max, iter + j) == p;
    forall i: nat, k: nat | iter <= i < k < iter + max ensures Initial(max, i) != Initial(max, k) {
      InitialPlus(max, iter, i - iter);
      InitialPlus(max, iter, k - iter);
    }
  }

  /** The next call starts at the next pool, and the one after the last at the first. */
  lemma InitialPlus(max: nat, iter: nat, j: nat)
    requires j < max
    ensures var i := Initial(max, iter);
            i < max && Initial(max, iter + j) == if i + j < max then i + j else i + j - max
  {
    RemainderPlus(max, iter, j);
    SmallRemainders(max, iter);
    SmallRemainders(max, iter + j);
  }

  lemma RemainderPlus(max: nat, iter: nat, j: nat)
    requires j < max
    ensures iter % max < max
    ensures (iter + j) % max == if iter % max + j < max then iter % max + j else iter % max + j - max
  {
    var q, r := iter / max, iter % max;
    assert iter == max * q + r;
    if r + j < max {
      ModUnique(iter + j, max, q, r + j);
    } else {
      assert max * (q + 1) == max * q + max;
      ModUnique(iter + j, max, q + 1, r + j - max);
    }
  }

  /** The indices name every pool, once each. */
  lemma IndexOnto(max: nat, i: nat, p: nat)
    requires i < max && p < max
    ensures exists k: nat :: k < max && Index(i, k) == p
    ensures forall j: nat, k: nat :: j < k < max ==> Index(i, j) != Index(i, k)
  {
    var k := if p <= i then i - p else p;
    assert Index(i, k) == p;
  }

  function Triangle(n: nat): nat { if n == 0 then 0 else Triangle(n - 1) + n }

  lemma {:induction false} TriangleLarge(n: nat)
    ensures Triangle(n) >= n && (n >= 2 ==> Triangle(n) > n)
  {
    if n > 0 { TriangleLarge(n - 1); }
  }

  /** While the index runs down, k moves leave the search at i + (i - 1) + ... + (i - k). */
  lemma {:induction false} PositionDown(i: nat, k: nat)
    requires k <= i
    ensures if k == i then Position(i, k) == Triangle(i) else Position(i, k) + Triangle(i - k - 1) == Triangle(i)
  {
    if k > 0 {
      PositionDown(i, k - 1);
    }
  }

  /** Afterwards the position is a triangular number, whatever the initial pool was. */
  lemma {:induction false} PositionUp(i: nat, k: nat)
    requires k >= i
    ensures Position(i, k) == Triangle(k)
  {
    if k == i { PositionDown(i, i); } else { PositionUp(i, k - 1); }
  }

  /** The search stays within the node's pools exactly if there are at most two of them. */
  lemma SearchInRange(max: nat, i: nat)
    requires i < max
    ensures (forall k: nat :: k < max ==> Position(i, k) < max) <==> max <= 2
  {
    PositionUp(i, max - 1);
    TriangleLarge(max - 1);
    if max <= 2 {
      forall k: nat | k < max ensures Position(i, k) < max {
        assert k <= 1;
        if k == 1 { assert Position(i, 1) == Position(i, 0) + Index(i, 1); }
      }
    }
  }

  /** Is the pool at p tried by a search that no pool satisfies? */
  ghost predicate Tried(max: nat, i: nat, p: nat) { exists k: nat :: k < max && Position(i, k) == p }

  /** It tries every pool exactly if there is one, or there are two and it starts at the first. */
  lemma SearchComplete(max: nat, i: nat)
    requires i < max
    ensures (forall p: nat :: p < max ==> Tried(max, i, p)) <==> max == 1 || (max == 2 && i == 0)
  {
    if max == 1 {
      assert Position(i, 0) == 0;
      assert Tried(max, i, 0);
    } else if max == 2 && i == 0 {
      assert Position(0, 0) == 0 && Position(0, 1) == 1;
      assert Tried(max, i, 0) && Tried(max, i, 1);
    } else {
      var p := Missed(max, i);
      assert !Tried(max, i, p);
    }
  }

  /** In all other cases some pool is never tried. */
  lemma Missed(max: nat, i: nat) returns (p: nat)
    requires i < max && max >= 2 && !(max == 2 && i == 0)
    ensures p < max && forall k: nat :: k < max ==> Position(i, k) != p
  {
    if i > 0 {
      p := 0;
      forall k: nat | k < max ensures Position(i, k) != 0 { AtLeast(i, k); }
    } else {
      p := 2;
      forall k: nat | k < max ensures Position(i, k) != 2 {
        PositionUp(0, k);
        if k >= 2 { TriangleLarge(k); }
        assert Triangle(1) == Triangle(0) + 1;
      }
    }
  }

  lemma {:induction false} AtLeast(i: nat, k: nat)
    ensures Position(i, k) >= i
  {
    if k > 0 { AtLeast(i, k - 1); }
  }
}
