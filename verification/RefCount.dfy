/** Reference counted node arrays and nodes, shared by any number of threads.

Every reference is a holder: the cluster's current array, an item waiting for the garbage collector, an entry
of a node array, the partition map's one reference to a node, a node or array the tend thread is building, or a use
by some thread.  The counters are what the program keeps; the holders say what the counters ought to be.  Loading a
pointer and incrementing its counter are two steps, and a destroyed array releases its entries one step at a time. */
module RefCount {

  /** An allocated array or node, known by its place in allocation order.  `released` is how many entries a destroyed
      array has released, `partRefs` the number of places of a node in the partition map. */
  datatype Cell =
    | Array(count: nat, destroys: nat, elems: seq<nat>, released: nat)
    | Node(count: nat, destroys: nat, partRefs: nat)

  datatype Holder =
    | Current
    | Building
    | Created(n: nat)
    | Mapped(n: nat)
    | Gc(g: nat)
    | Entry(a: nat, i: nat)
    | User(u: nat)

  /** `fault` records an access to a destroyed object or a release of one whose counter is zero; `readers` are the
      threads between loading a pointer and incrementing its counter. */
  datatype State = State(objs: seq<Cell>, refs: map<Holder, nat>, readers: map<nat, nat>, slots: map<nat, nat>,
                         mapping: set<nat>, fault: bool)

  // ---------- the counters ----------

  /** Atomic increment. */
  function Incr(s: State, o: nat): State
    requires o < |s.objs|
  {
    s.(objs := s.objs[o := s.objs[o].(count := s.objs[o].count + 1)], fault := s.fault || s.objs[o].destroys > 0)
  }

  /** Atomic decrement; whoever reaches zero destroys the object. */
  function Decr(s: State, o: nat): State
    requires o < |s.objs|
  {
    var c := s.objs[o];
    if c.count == 0 then s.(fault := true)
    else s.(objs := s.objs[o := c.(count := c.count - 1,
                                   destroys := if c.count == 1 then c.destroys + 1 else c.destroys)],
            fault := s.fault || c.destroys > 0)
  }

  // ---------- steps ----------

  datatype Event =
    | CreateNode                            // the tend thread creates a node, counter one
    | BuildBegin                            // it creates the array that will replace the current one
    | BuildCopy(i: nat)                     // it reserves entry i of the current array for the new one
    | BuildAdopt(n: nat)                    // it moves a created node into the new array
    | Publish(g: nat)                       // it stores the new array and puts the old one on the collector's list
    | MapReserve(n: nat)                    // it reserves a node for the partition map
    | MapStore(slot: nat, n: nat, g: nat)   // it stores the node in a slot and gives up the node stored before
    | Collect(g: nat)                       // it releases one item of the collector's list
    | LoadArray(u: nat)                     // a thread loads the current array
    | LoadNode(u: nat, slot: nat)           // a thread loads a node from the partition map
    | Increment(u: nat)                     // it increments the counter of what it loaded
    | ReserveEntry(u: nat, i: nat, v: nat)  // a thread holding an array reserves one of its nodes
    | Release(u: nat)                       // a thread releases what it holds
    | ReleaseEntry(a: nat)                  // the thread destroying an array releases its next entry

  predicate FreshUse(s: State, u: nat) { User(u) !in s.refs && u !in s.readers }

  predicate IsArray(s: State, h: Holder) { h in s.refs && s.refs[h] < |s.objs| && s.objs[s.refs[h]].Array? }

  predicate IsNode(s: State, n: nat) { n < |s.objs| && s.objs[n].Node? }

  function Elems(s: State, h: Holder): seq<nat>
    requires IsArray(s, h)
  {
    s.objs[s.refs[h]].elems
  }

  predicate Enabled(s: State, e: Event)
  {
    match e
    case CreateNode => Created(|s.objs|) !in s.refs && Mapped(|s.objs|) !in s.refs
    case BuildBegin => Building !in s.refs
    case BuildCopy(i) =>
      IsArray(s, Building) && IsArray(s, Current) && i < |Elems(s, Current)| && Elems(s, Current)[i] < |s.objs|
    case BuildAdopt(n) => IsArray(s, Building) && Created(n) in s.refs
    case Publish(g) => IsArray(s, Building) && IsArray(s, Current) && Gc(g) !in s.refs
    case MapReserve(n) => IsArray(s, Current) && n in Elems(s, Current) && IsNode(s, n) && n !in s.mapping
    case MapStore(slot, n, g) => n in s.mapping && Gc(g) !in s.refs && (slot in s.slots ==> IsNode(s, s.slots[slot]))
    case Collect(g) => Gc(g) in s.refs && s.refs[Gc(g)] < |s.objs|
    case LoadArray(u) => FreshUse(s, u) && IsArray(s, Current)
    case LoadNode(u, slot) => FreshUse(s, u) && slot in s.slots
    case Increment(u) => u in s.readers && s.readers[u] < |s.objs| && User(u) !in s.refs
    case ReserveEntry(u, i, v) =>
      IsArray(s, User(u)) && FreshUse(s, v) && i < |Elems(s, User(u))| && Elems(s, User(u))[i] < |s.objs|
    case Release(u) => User(u) in s.refs && s.refs[User(u)] < |s.objs|
    case ReleaseEntry(a) =>
      && a < |s.objs| && s.objs[a].Array? && s.objs[a].destroys > 0 && s.objs[a].released < |s.objs[a].elems|
      && s.objs[a].elems[s.objs[a].released] < |s.objs|
  }

  /** The array a gets entry n. */
  function Grow(s: State, a: nat, n: nat): State
    requires a < |s.objs| && s.objs[a].Array?
  {
    s.(objs := s.objs[a := s.objs[a].(elems := s.objs[a].elems + [n])],
       refs := s.refs[Entry(a, |s.objs[a].elems|) := n])
  }

  /** `as_partition_reserve_node`: only the first of a node's places in the partition map counts as a reference. */
  function ReserveMapped(s: State, n: nat): State
    requires IsNode(s, n)
  {
    var s' := s.(objs := s.objs[n := s.objs[n].(partRefs := s.objs[n].partRefs + 1)]);
    if s.objs[n].partRefs == 0 then Incr(s', n).(refs := s.refs[Mapped(n) := n]) else s'
  }

  /** `as_partition_release_node_delayed`: the last one is given to the collector. */
  function ReleaseMapped(s: State, n: nat, g: nat): State
    requires IsNode(s, n)
  {
    var p := s.objs[n].partRefs;
    if p == 0 then s.(fault := true)
    else s.(objs := s.objs[n := s.objs[n].(partRefs := p - 1)],
            refs := if p == 1 then (s.refs - {Mapped(n)})[Gc(g) := n] else s.refs)
  }

  function Apply(s: State, e: Event): State
    requires Enabled(s, e)
  {
    match e
    case CreateNode => s.(objs := s.objs + [Node(1, 0, 0)], refs := s.refs[Created(|s.objs|) := |s.objs|])
    case BuildBegin => s.(objs := s.objs + [Array(1, 0, [], 0)], refs := s.refs[Building := |s.objs|])
    case BuildCopy(i) => Grow(Incr(s, Elems(s, Current)[i]), s.refs[Building], Elems(s, Current)[i])
    case BuildAdopt(n) => Grow(s.(refs := s.refs - {Created(n)}), s.refs[Building], n)
    case Publish(g) => s.(refs := (s.refs - {Building})[Current := s.refs[Building]][Gc(g) := s.refs[Current]])
    case MapReserve(n) => ReserveMapped(s.(mapping := s.mapping + {n}), n)
    case MapStore(slot, n, g) =>
      var s' := s.(slots := s.slots[slot := n], mapping := s.mapping - {n});
      if slot in s.slots then ReleaseMapped(s', s.slots[slot], g) else s'
    case Collect(g) => Decr(s.(refs := s.refs - {Gc(g)}), s.refs[Gc(g)])
    case LoadArray(u) => s.(readers := s.readers[u := s.refs[Current]])
    case LoadNode(u, slot) => s.(readers := s.readers[u := s.slots[slot]])
    case Increment(u) => Incr(s, s.readers[u]).(readers := s.readers - {u}, refs := s.refs[User(u) := s.readers[u]])
    case ReserveEntry(u, i, v) => Incr(s, Elems(s, User(u))[i]).(refs := s.refs[User(v) := Elems(s, User(u))[i]])
    case Release(u) => Decr(s.(refs := s.refs - {User(u)}), s.refs[User(u)])
    case ReleaseEntry(a) =>
      var i := s.objs[a].released;
      Decr(s.(refs := s.refs - {Entry(a, i)}, objs := s.objs[a := s.objs[a].(released := i + 1)]), s.objs[a].elems[i])
  }

  /** What the delay of one tend interval is for: an object is not collected while a thread is between loading it and
      incrementing its counter. */
  predicate Delayed(s: State, e: Event)
  {
    e.Collect? && Gc(e.g) in s.refs ==> forall u :: u in s.readers ==> s.readers[u] != s.refs[Gc(e.g)]
  }

  /** The first array, empty, is the cluster's. */
  function Init(): State
  {
    State([Array(1, 0, [], 0)], map[Current := 0], map[], map[], {}, false)
  }

  // ---------- runs ----------

  ghost predicate Valid(s: State, events: seq<Event>)
    decreases |events|
  {
    events == [] || (Enabled(s, events[0]) && Valid(Apply(s, events[0]), events[1..]))
  }

  ghost function Run(s: State, events: seq<Event>): State
    requires Valid(s, events)
    decreases |events|
  {
    if events == [] then s else Run(Apply(s, events[0]), events[1..])
  }

  /** No step of the run collects an object a thread is about to reserve. */
  ghost predicate DelayedRun(s: State, events: seq<Event>)
    requires Valid(s, events)
    decreases |events|
  {
    events == [] || (Delayed(s, events[0]) && DelayedRun(Apply(s, events[0]), events[1..]))
  }
}
