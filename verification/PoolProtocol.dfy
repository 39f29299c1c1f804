/** Admission to a synchronous connection pool, over every interleaving of any number of threads.

A state counts the threads at each point of the protocol; threads are interchangeable.  The tend thread's filling of
the pool up to its minimum is modelled as the source does it: the connection is pushed first and counted
afterwards, whatever the count says.  The total is an unsigned 32 bit counter and wraps. */
module PoolProtocol {
  import opened Prelude

  datatype Config = Config(capacity: nat, minSize: nat)

  /** The tend thread while it fills the pool: `left` connections to go; one may be open but not pushed, or pushed but
      not counted. */
  datatype Fill = NoFill | Ready(left: nat) | Opened(left: nat) | Pushed(left: nat)

  /** `missed` threads found the pool empty, `creating` were admitted, `refused` were not and still have to take their
      addition back, `held` use a connection, `closing` closed one and still have to take it off the total.
      `turnedAway` counts connections that could not be put back. */
  datatype State = State(total: nat, pooled: nat, missed: nat, creating: nat, refused: nat, held: nat, closing: nat,
                         fill: Fill, turnedAway: nat)

  datatype Event =
    | PopHit | PopMiss | Add | CreateOk | CreateFail | TakeBack | Put | Close | Decrement
    | FillStart | FillOpen | FillFail | FillPush | FillCount

  function Init(): State { State(0, 0, 0, 0, 0, 0, 0, NoFill, 0) }

  /** Threads that are somewhere in the protocol; there are fewer than 2^30 of them. */
  function Threads(s: State): nat { s.missed + s.creating + s.refused + s.held + s.closing }

  predicate Enabled(c: Config, s: State, e: Event)
  {
    match e
    case PopHit => s.pooled > 0 && Threads(s) < 0x4000_0000
    case PopMiss => s.pooled == 0 && Threads(s) < 0x4000_0000
    case Add => s.missed > 0
    case CreateOk => s.creating > 0
    case CreateFail => s.creating > 0
    case TakeBack => s.refused > 0
    case Put => s.held > 0
    case Close => s.held > 0
    case Decrement => s.closing > 0
    case FillStart => s.fill.NoFill? && s.total < c.minSize
    case FillOpen => s.fill.Ready? && s.fill.left > 0
    case FillFail => s.fill.Ready?
    case FillPush => s.fill.Opened? && s.fill.left > 0
    case FillCount => s.fill.Pushed? && s.fill.left > 0
  }

  function Apply(c: Config, s: State, e: Event): State
    requires Enabled(c, s, e)
  {
    match e
    case PopHit => s.(pooled := s.pooled - 1, held := s.held + 1)
    case PopMiss => s.(missed := s.missed + 1)
    case Add =>
      var s' := s.(missed := s.missed - 1, total := Wrap(s.total + 1));
      if s.total < c.capacity then s'.(creating := s.creating + 1) else s'.(refused := s.refused + 1)
    case CreateOk => s.(creating := s.creating - 1, held := s.held + 1)
    case CreateFail => s.(creating := s.creating - 1, closing := s.closing + 1)
    case TakeBack => s.(refused := s.refused - 1, total := Wrap(s.total - 1))
    case Put =>
      if s.pooled < c.capacity then s.(held := s.held - 1, pooled := s.pooled + 1)
      else s.(held := s.held - 1, closing := s.closing + 1, turnedAway := s.turnedAway + 1)
    case Close => s.(held := s.held - 1, closing := s.closing + 1)
    case Decrement => s.(closing := s.closing - 1, total := Wrap(s.total - 1))
    case FillStart => s.(fill := Ready(c.minSize - s.total))
    case FillOpen => s.(fill := Opened(s.fill.left))
    case FillFail => s.(fill := NoFill)
    case FillPush =>
      if s.pooled < c.capacity then s.(pooled := s.pooled + 1, fill := Pushed(s.fill.left)) else s.(fill := NoFill)
    case FillCount =>
      s.(total := Wrap(s.total + 1), fill := if s.fill.left == 1 then NoFill else Ready(s.fill.left - 1))
  }

  // ---------- runs ----------

  ghost predicate Valid(c: Config, s: State, events: seq<Event>)
    decreases |events|
  {
    events == [] || (Enabled(c, s, events[0]) && Valid(c, Apply(c, s, events[0]), events[1..]))
  }

  ghost function Run(c: Config, s: State, events: seq<Event>): State
    requires Valid(c, s, events)
    decreases |events|
  {
    if events == [] then s else Run(c, Apply(c, s, events[0]), events[1..])
  }

  ghost predicate Reachable(c: Config, s: State)
  {
    exists events :: Valid(c, Init(), events) && Run(c, Init(), events) == s
  }

  /** Connections that are pooled, in use, being created or not yet taken off the total. */
  function Connections(s: State): nat { s.pooled + s.creating + s.held + s.closing }

  /** The connection the tend thread has pushed but not counted. */
  function Uncounted(s: State): nat { if s.fill.Pushed? then 1 else 0 }

  /** Pushes the tend thread may still make. */
  function ToPush(s: State): nat
  {
    match s.fill
    case NoFill => 0
    case Ready(left) => left
    case Opened(left) => left
    case Pushed(left) => if left == 0 then 0 else left - 1
  }

  predicate ConfigOk(c: Config) { c.minSize <= c.capacity < 0x4000_0000 }

  ghost predicate Inv(c: Config, s: State)
  {
    && s.total == Wrap(Connections(s) + s.refused - Uncounted(s))
    && Threads(s) <= 0x4000_0000
    && ToPush(s) + Uncounted(s) <= c.minSize
    && Connections(s) + ToPush(s) <= c.capacity + c.minSize
    && (s.turnedAway > 0 ==> c.minSize > 0)
    && (s.fill.Pushed? || s.fill.Opened? ==> s.fill.left > 0)
    && s.pooled <= c.capacity
  }

  lemma WrapFacts(x: int)
    ensures Wrap(Wrap(x) + 1) == Wrap(x + 1) && Wrap(Wrap(x) - 1) == Wrap(x - 1)
    ensures 0 <= x < 0x1_0000_0000 ==> Wrap(x) == x
    ensures x == -1 ==> Wrap(x) == 0xFFFF_FFFF
  {
  }

  predicate IsFill(e: Event) { e.FillStart? || e.FillOpen? || e.FillFail? || e.FillPush? || e.FillCount? }

  lemma FillKeeps(c: Config, s: State, e: Event)
    requires ConfigOk(c) && Inv(c, s) && Enabled(c, s, e) && IsFill(e)
    ensures Inv(c, Apply(c, s, e))
  {
    WrapFacts(Connections(s) + s.refused - Uncounted(s));
    hide Wrap;
  }

  lemma ThreadKeeps(c: Config, s: State, e: Event)
    requires ConfigOk(c) && Inv(c, s) && Enabled(c, s, e) && !IsFill(e)
    ensures Inv(c, Apply(c, s, e))
  {
    WrapFacts(Connections(s) + s.refused - Uncounted(s));
    hide Wrap;
  }

  lemma StepKeeps(c: Config, s: State, e: Event)
    requires ConfigOk(c) && Inv(c, s) && Enabled(c, s, e)
    ensures Inv(c, Apply(c, s, e))
  {
    hide Inv, Apply, Enabled;
    if IsFill(e) { FillKeeps(c, s, e); } else { ThreadKeeps(c, s, e); }
  }

  lemma {:induction false} RunKeeps(c: Config, s: State, events: seq<Event>)
    requires ConfigOk(c) && Inv(c, s) && Valid(c, s, events)
    ensures Inv(c, Run(c, s, events))
    decreases |events|
  {
    if events != [] {
      StepKeeps(c, s, events[0]);
      hide Inv, Enabled, Apply;
      RunKeeps(c, Apply(c, s, events[0]), events[1..]);
    }
  }

  lemma InitInv(c: Config)
    ensures Inv(c, Init())
  {
    hide Wrap;
    WrapFacts(0);
  }

  lemma ReachableInv(c: Config, s: State)
    requires ConfigOk(c) && Reachable(c, s)
    ensures Inv(c, s)
  {
    hide Valid, Run, Inv, Init, ConfigOk;
    InitInv(c);
    var events :| Valid(c, Init(), events) && Run(c, Init(), events) == s;
    RunKeeps(c, Init(), events);
  }

  // ---------- the books ----------

  /** From s to s' by the given events: every connection taken or created is in use, was put back or was closed; every
      thread that found the pool empty asks for a place, and is admitted or not; everything closed is taken off the
      total; and what is pooled was put back or filled in and not taken. */
  ghost predicate Booked(s: State, s': State, n: multiset<Event>)
  {
    && s'.held + n[Put] + n[Close] == s.held + n[PopHit] + n[CreateOk]
    && s'.missed + n[Add] == s.missed + n[PopMiss]
    && s'.creating + n[CreateOk] + n[CreateFail] + s'.refused + n[TakeBack] == s.creating + s.refused + n[Add]
    && s'.closing + n[Decrement] + s.turnedAway == s.closing + n[CreateFail] + n[Close] + s'.turnedAway
    && s'.pooled + n[PopHit] + s'.turnedAway + Uncounted(s)
       == s.pooled + n[Put] + n[FillCount] + s.turnedAway + Uncounted(s')
  }

  lemma BookedStep(c: Config, s: State, e: Event)
    requires Enabled(c, s, e)
    ensures Booked(s, Apply(c, s, e), multiset{e})
  {
    hide Wrap;
  }

  lemma BookedThen(s: State, s1: State, s2: State, a: multiset<Event>, b: multiset<Event>)
    requires Booked(s, s1, a) && Booked(s1, s2, b)
    ensures Booked(s, s2, a + b)
  {
  }

  /** The books of every run balance. */
  lemma {:induction false} Ledger(c: Config, s: State, events: seq<Event>)
    requires Valid(c, s, events)
    ensures Booked(s, Run(c, s, events), multiset(events))
    decreases |events|
  {
    hide Enabled, Apply;
    if events != [] {
      BookedStep(c, s, events[0]);
      Ledger(c, Apply(c, s, events[0]), events[1..]);
      assert multiset(events) == multiset{events[0]} + multiset(events[1..]) by {
        assert events == [events[0]] + events[1..];
      }
      BookedThen(s, Apply(c, s, events[0]), Run(c, s, events), multiset{events[0]}, multiset(events[1..]));
    }
  }

  /** Filling stops when a connection cannot be opened or does not fit, and otherwise after as many connections as were
      missing when it started. */
  lemma FillStops(c: Config, s: State, e: Event)
    requires Enabled(c, s, e) && IsFill(e)
    ensures e.FillStart? ==> Apply(c, s, e).fill == Ready(c.minSize - s.total)
    ensures !e.FillStart? ==> (Apply(c, s, e).fill.NoFill? <==>
                                 || e.FillFail? || (e.FillPush? && s.pooled >= c.capacity)
                                 || (e.FillCount? && s.fill.left == 1))
    ensures !e.FillStart? && !Apply(c, s, e).fill.NoFill? ==>
              Apply(c, s, e).fill.left == s.fill.left - if e.FillCount? then 1 else 0
  {
  }

  // ---------- theorems ----------

  /** The total counts every connection and every thread still to take back a refused addition, and lacks the one
      connection the tend thread has pushed but not counted.  It wraps below zero exactly while that one was already
      taken, closed and subtracted and nothing else is counted. */
  lemma TotalAccounts(c: Config, s: State)
    requires ConfigOk(c) && Reachable(c, s)
    ensures s.total + Uncounted(s) == Connections(s) + s.refused
            || (s.total == 0xFFFF_FFFF && Uncounted(s) == 1 && Connections(s) == 0 && s.refused == 0)
  {
    ReachableInv(c, s);
    hide Reachable;
  }

  /** A pool without a minimum never has more connections than its capacity, and a connection can always be put
      back. */
  lemma WithinCapacity(c: Config, s: State)
    requires ConfigOk(c) && Reachable(c, s) && c.minSize == 0
    ensures Connections(s) <= c.capacity && s.turnedAway == 0
    ensures s.held > 0 ==> s.pooled < c.capacity
  {
    ReachableInv(c, s);
    hide Reachable;
  }

  /** With a minimum, the capacity may be exceeded by at most the minimum. */
  lemma WithinCapacityAndMinimum(c: Config, s: State)
    requires ConfigOk(c) && Reachable(c, s)
    ensures Connections(s) <= c.capacity + c.minSize && s.pooled <= c.capacity
  {
    ReachableInv(c, s);
    hide Reachable;
  }

  // ---------- the bound is reached ----------

  lemma {:induction false} Extend(c: Config, s: State, events: seq<Event>, e: Event)
    requires Valid(c, s, events) && Enabled(c, Run(c, s, events), e)
    ensures Valid(c, s, events + [e]) && Run(c, s, events + [e]) == Apply(c, Run(c, s, events), e)
    decreases |events|
  {
    hide Enabled, Apply;
    if events == [] {
      assert events + [e] == [e];
      assert [e][1..] == [];
      assert Valid(c, Apply(c, s, e), []);
    } else {
      Extend(c, Apply(c, s, events[0]), events[1..], e);
      assert (events + [e])[1..] == events[1..] + [e];
    }
  }

  lemma Reach(c: Config, s: State, e: Event)
    requires Reachable(c, s) && Enabled(c, s, e)
    ensures Reachable(c, Apply(c, s, e))
  {
    hide Enabled, Apply;
    var events :| Valid(c, Init(), events) && Run(c, Init(), events) == s;
    Extend(c, Init(), events, e);
  }

  lemma ReachInit(c: Config)
    ensures Reachable(c, Init())
  {
    assert Valid(c, Init(), []) && Run(c, Init(), []) == Init();
  }

  /** The tend thread is about to fill the pool while j threads have been admitted. */
  function Admitted(c: Config, j: nat): State
  {
    State(j, 0, 0, j, 0, 0, 0, if c.minSize == 0 then NoFill else Ready(c.minSize), 0)
  }

  lemma {:induction false} AdmitAll(c: Config, j: nat)
    requires ConfigOk(c) && j <= c.capacity
    ensures Reachable(c, Admitted(c, j))
  {
    if j == 0 {
      ReachInit(c);
      if c.minSize > 0 { Reach(c, Init(), FillStart); }
    } else {
      AdmitAll(c, j - 1);
      hide Reachable;
      var s := Admitted(c, j - 1);
      Reach(c, s, PopMiss);
      Reach(c, Apply(c, s, PopMiss), Add);
    }
  }

  /** All places are taken and the tend thread has pushed i connections. */
  function Overfilled(c: Config, i: nat): State
    requires i <= c.minSize
  {
    State(c.capacity + i, i, 0, c.capacity, 0, 0, 0, if i == c.minSize then NoFill else Ready(c.minSize - i), 0)
  }

  lemma {:induction false} FillAll(c: Config, i: nat)
    requires ConfigOk(c) && i <= c.minSize
    ensures Reachable(c, Overfilled(c, i))
  {
    if i == 0 {
      AdmitAll(c, c.capacity);
    } else {
      FillAll(c, i - 1);
      hide Reachable;
      var s := Overfilled(c, i - 1);
      Reach(c, s, FillOpen);
      var s1 := Apply(c, s, FillOpen);
      Reach(c, s1, FillPush);
      var s2 := Apply(c, s1, FillPush);
      Reach(c, s2, FillCount);
    }
  }

  /** Capacity plus minimum is the exact bound: some run reaches it. */
  lemma BoundReached(c: Config)
    requires ConfigOk(c)
    ensures exists s :: Reachable(c, s) && Connections(s) == c.capacity + c.minSize
  {
    FillAll(c, c.minSize);
    hide Reachable;
    var s := Overfilled(c, c.minSize);
    assert s.pooled == c.minSize && s.creating == c.capacity && s.held == 0 && s.closing == 0;
    hide Overfilled;
    assert Connections(s) == c.capacity + c.minSize;
  }

  /** The capacity is kept in every run exactly if the pool has no minimum. */
  lemma CapacityKeptIff(c: Config)
    requires ConfigOk(c)
    ensures (forall s :: Reachable(c, s) ==> Connections(s) <= c.capacity) <==> c.minSize == 0
  {
    hide Valid, Run;
    if c.minSize == 0 {
      forall s | Reachable(c, s) ensures Connections(s) <= c.capacity { WithinCapacity(c, s); }
    } else {
      BoundReached(c);
    }
  }

  /** From the overfilled state: h threads have their connection, p of the connections were put back. */
  function Returning(c: Config, h: nat, p: nat): State
    requires h + p <= c.capacity && c.minSize + p <= c.capacity
  {
    State(c.capacity + c.minSize, c.minSize + p, 0, c.capacity - h - p, 0, h, 0, NoFill, 0)
  }

  lemma {:induction false} ReturnAll(c: Config, p: nat)
    requires ConfigOk(c) && c.minSize + p <= c.capacity
    ensures Reachable(c, Returning(c, 0, p))
  {
    if p == 0 {
      FillAll(c, c.minSize);
    } else {
      ReturnAll(c, p - 1);
      hide Reachable;
      var s := Returning(c, 0, p - 1);
      Reach(c, s, CreateOk);
      Reach(c, Apply(c, s, CreateOk), Put);
    }
  }

  /** A connection can always be put back exactly if the pool has no minimum. */
  lemma PutBackIff(c: Config)
    requires ConfigOk(c)
    ensures (forall s :: Reachable(c, s) ==> s.turnedAway == 0) <==> c.minSize == 0
  {
    hide Valid, Run;
    if c.minSize == 0 {
      forall s | Reachable(c, s) ensures s.turnedAway == 0 { WithinCapacity(c, s); }
    } else {
      var p := c.capacity - c.minSize;
      ReturnAll(c, p);
      hide Reachable;
      var s := Returning(c, 0, p);
      Reach(c, s, CreateOk);
      var s1 := Apply(c, s, CreateOk);
      Reach(c, s1, Put);
      var s2 := Apply(c, s1, Put);
      assert Reachable(c, s2) && s2.turnedAway == 1;
    }
  }

  /** Without a minimum a thread is refused only if the capacity is used up by connections and by other threads
      that were refused and have not yet taken their additions back. */
  lemma RefusedOnlyWhenFull(c: Config, s: State)
    requires ConfigOk(c) && Reachable(c, s) && c.minSize == 0 && Enabled(c, s, Add)
    ensures Apply(c, s, Add).refused > s.refused <==> Connections(s) + s.refused >= c.capacity
  {
    ReachableInv(c, s);
    hide Reachable;
  }

  /** With a minimum a thread can be refused by a pool that has no connections at all: the wrapped total. */
  lemma RefusedByEmptyPool(c: Config)
    requires ConfigOk(c) && c.minSize > 0
    ensures exists s :: && Reachable(c, s) && Enabled(c, s, Add) && Connections(s) + s.refused == 0
                        && Apply(c, s, Add).refused == 1
  {
    ReachInit(c);
    hide Reachable;
    var s0 := Init();
    Reach(c, s0, FillStart);
    var s1 := Apply(c, s0, FillStart);
    Reach(c, s1, FillOpen);
    var s2 := Apply(c, s1, FillOpen);
    Reach(c, s2, FillPush);
    var s3 := Apply(c, s2, FillPush);
    Reach(c, s3, PopHit);
    var s4 := Apply(c, s3, PopHit);
    Reach(c, s4, Close);
    var s5 := Apply(c, s4, Close);
    Reach(c, s5, Decrement);
    var s6 := Apply(c, s5, Decrement);
    Reach(c, s6, PopMiss);
    var s7 := Apply(c, s6, PopMiss);
    assert s7.total == 0xFFFF_FFFF && Enabled(c, s7, Add);
    assert Reachable(c, s7);
  }
}
