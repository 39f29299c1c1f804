/** Which nodes the arrays, the partition map and the threads refer to: the published array is what was copied and
adopted, the partition map shows what was stored last, and a thread gets what it loaded. */
module RefCountContents {
  import opened RefCount

  // ---------- building an array ----------

  predicate IsBuild(e: Event) { e.BuildCopy? || e.BuildAdopt? }

  /** The entries named by the building steps, in order: an entry of the old array, or a created node. */
  function Gathered(was: seq<nat>, events: seq<Event>): seq<nat>
  {
    if events == [] then []
    else
      var e := events[|events| - 1];
      Gathered(was, events[..|events| - 1])
      + (if e.BuildCopy? && e.i < |was| then [was[e.i]] else if e.BuildAdopt? then [e.n] else [])
  }

  lemma {:induction false} GatheredConcat(was: seq<nat>, a: seq<Event>, b: seq<Event>)
    ensures Gathered(was, a + b) == Gathered(was, a) + Gathered(was, b)
    decreases |b|
  {
    if b == [] {
      assert a + b == a;
    } else {
      var b' := b[..|b| - 1];
      GatheredConcat(was, a, b');
      assert (a + b)[..|a + b| - 1] == a + b';
    }
  }

  lemma GatheredOne(was: seq<nat>, e: Event)
    ensures Gathered(was, [e])
            == if e.BuildCopy? && e.i < |was| then [was[e.i]] else if e.BuildAdopt? then [e.n] else []
  {
    assert [e][..0] == [];
  }

  /** Object a is an array with these entries. */
  ghost predicate HasEntries(s: State, a: nat, elems: seq<nat>)
  {
    a < |s.objs| && s.objs[a].Array? && s.objs[a].elems == elems
  }

  /** A step changes the entries of an array only by building it. */
  lemma ElemsKept(s: State, e: Event, a: nat)
    requires Enabled(s, e) && a < |s.objs| && s.objs[a].Array?
    requires IsBuild(e) ==> s.refs[Building] != a
    ensures HasEntries(Apply(s, e), a, s.objs[a].elems)
  {
    hide Apply, Enabled;
    if Tending(e) { ElemsKeptTending(s, e, a); } else { ElemsKeptCounting(s, e, a); }
  }

  /** Steps of the tend thread that build arrays or the partition map. */
  predicate Tending(e: Event)
  {
    IsBuild(e) || e.CreateNode? || e.BuildBegin? || e.Publish? || e.MapReserve? || e.MapStore?
  }

  lemma ElemsKeptTending(s: State, e: Event, a: nat)
    requires Enabled(s, e) && a < |s.objs| && s.objs[a].Array? && Tending(e)
    requires IsBuild(e) ==> s.refs[Building] != a
    ensures HasEntries(Apply(s, e), a, s.objs[a].elems)
  {
  }

  lemma ElemsKeptCounting(s: State, e: Event, a: nat)
    requires Enabled(s, e) && a < |s.objs| && s.objs[a].Array? && !Tending(e)
    ensures HasEntries(Apply(s, e), a, s.objs[a].elems)
  {
  }

  lemma BuildElems(s: State, e: Event)
    requires Enabled(s, e) && IsBuild(e)
    ensures HasEntries(Apply(s, e), s.refs[Building],
                       Elems(s, Building) + if e.BuildCopy? then [Elems(s, Current)[e.i]] else [e.n])
  {
  }

  lemma ArraysKept(s: State, e: Event)
    requires Enabled(s, e) && !e.Publish? && Building in s.refs && Current in s.refs
    ensures var refs := Apply(s, e).refs;
            && Building in refs && Current in refs
            && refs[Building] == s.refs[Building] && refs[Current] == s.refs[Current]
  {
  }

  /** Two arrays: b, being built, with the entries so far, and the current one. */
  ghost predicate Building2(s: State, b: nat, built: seq<nat>, c: nat, was: seq<nat>)
  {
    && b != c && Building in s.refs && s.refs[Building] == b && HasEntries(s, b, built)
    && Current in s.refs && s.refs[Current] == c && HasEntries(s, c, was)
  }

  lemma BuildStep(s: State, e: Event, b: nat, built: seq<nat>, c: nat, was: seq<nat>)
    requires Building2(s, b, built, c, was) && Enabled(s, e) && !e.Publish?
    ensures Building2(Apply(s, e), b, built + Gathered(was, [e]), c, was)
  {
    GatheredOne(was, e);
    ArraysKept(s, e);
    ElemsKept(s, e, c);
    if IsBuild(e) { BuildElems(s, e); } else { ElemsKept(s, e, b); }
    hide Gathered, Apply;
    assert built + [] == built;
  }

  lemma {:induction false} BuildRun(s: State, events: seq<Event>, b: nat, built: seq<nat>, c: nat, was: seq<nat>)
    requires Building2(s, b, built, c, was) && Valid(s, events)
    requires forall i :: 0 <= i < |events| ==> !events[i].Publish?
    ensures Building2(Run(s, events), b, built + Gathered(was, events), c, was)
    decreases |events|
  {
    hide Building2, Enabled, Apply, Gathered;
    if events == [] {
      assert built + Gathered(was, []) == built by { GatheredNone(was); }
    } else {
      assert !events[0].Publish?;
      BuildStep(s, events[0], b, built, c, was);
      BuildRun(Apply(s, events[0]), events[1..], b, built + Gathered(was, [events[0]]), c, was);
      GatheredConcat(was, [events[0]], events[1..]);
      assert events == [events[0]] + events[1..];
      assert built + Gathered(was, [events[0]]) + Gathered(was, events[1..])
          == built + (Gathered(was, [events[0]]) + Gathered(was, events[1..]));
    }
  }

  lemma GatheredNone(was: seq<nat>)
    ensures Gathered(was, []) == []
  {
  }

  lemma BeginRefs(s: State)
    requires IsArray(s, Current) && Enabled(s, BuildBegin)
    ensures Building2(Apply(s, BuildBegin), |s.objs|, [], s.refs[Current], Elems(s, Current))
  {
  }

  lemma PublishRefs(s: State, g: nat, b: nat, built: seq<nat>, c: nat, was: seq<nat>)
    requires Building2(s, b, built, c, was) && Enabled(s, Publish(g))
    ensures var s' := Apply(s, Publish(g));
            && IsArray(s', Current) && Elems(s', Current) == built && Building !in s'.refs
            && IsArray(s', Gc(g)) && s'.refs[Gc(g)] == c && Elems(s', Gc(g)) == was
  {
  }

  /** Whatever other threads do meanwhile, the array that is published holds exactly the copied and adopted nodes, in
      order, and the array it replaces waits for the collector. */
  lemma Published(s: State, events: seq<Event>, g: nat)
    requires IsArray(s, Current) && Enabled(s, BuildBegin)
    requires Valid(Apply(s, BuildBegin), events) && forall i :: 0 <= i < |events| ==> !events[i].Publish?
    requires Enabled(Run(Apply(s, BuildBegin), events), Publish(g))
    ensures var s' := Apply(Run(Apply(s, BuildBegin), events), Publish(g));
            && IsArray(s', Current) && Elems(s', Current) == Gathered(Elems(s, Current), events)
            && Building !in s'.refs && IsArray(s', Gc(g)) && s'.refs[Gc(g)] == s.refs[Current]
            && Elems(s', Gc(g)) == Elems(s, Current)
  {
    hide Run, Valid, Gathered, Apply, Enabled, Building2;
    var s1 := Apply(s, BuildBegin);
    var b, c, was := |s.objs|, s.refs[Current], Elems(s, Current);
    BeginRefs(s);
    BuildRun(s1, events, b, [], c, was);
    assert [] + Gathered(was, events) == Gathered(was, events);
    PublishRefs(Run(s1, events), g, b, Gathered(was, events), c, was);
  }

  // ---------- adding nodes, removing nodes ----------

  /** The building steps among the events of all threads. */
  function Builds(events: seq<Event>): seq<Event>
  {
    if events == [] then []
    else Builds(events[..|events| - 1]) + if IsBuild(events[|events| - 1]) then [events[|events| - 1]] else []
  }

  lemma {:induction false} GatheredBuilds(was: seq<nat>, events: seq<Event>)
    ensures Gathered(was, Builds(events)) == Gathered(was, events)
  {
    if events != [] {
      var init, e := events[..|events| - 1], events[|events| - 1];
      GatheredBuilds(was, init);
      GatheredConcat(was, Builds(init), if IsBuild(e) then [e] else []);
      GatheredOne(was, e);
    }
  }

  /** Copies of the entries with the given indices, in order. */
  function Copies(keep: seq<nat>): seq<Event> { seq(|keep|, j requires 0 <= j < |keep| => BuildCopy(keep[j])) }

  function Adoptions(ns: seq<nat>): seq<Event> { seq(|ns|, j requires 0 <= j < |ns| => BuildAdopt(ns[j])) }

  function Picked(was: seq<nat>, keep: seq<nat>): seq<nat>
    requires forall j :: 0 <= j < |keep| ==> keep[j] < |was|
  {
    seq(|keep|, j requires 0 <= j < |keep| => was[keep[j]])
  }

  lemma {:induction false} GatheredCopies(was: seq<nat>, keep: seq<nat>)
    requires forall j :: 0 <= j < |keep| ==> keep[j] < |was|
    ensures Gathered(was, Copies(keep)) == Picked(was, keep)
  {
    if keep != [] {
      var n := |keep| - 1;
      GatheredCopies(was, keep[..n]);
      assert Copies(keep)[..n] == Copies(keep[..n]);
      assert Picked(was, keep) == Picked(was, keep[..n]) + [was[keep[n]]];
    }
  }

  lemma {:induction false} GatheredAdoptions(was: seq<nat>, ns: seq<nat>)
    ensures Gathered(was, Adoptions(ns)) == ns
  {
    if ns != [] {
      var n := |ns| - 1;
      GatheredAdoptions(was, ns[..n]);
      assert Adoptions(ns)[..n] == Adoptions(ns[..n]);
      assert ns == ns[..n] + [ns[n]];
    }
  }

  /** Copying the entries `keep` and adopting the nodes `ns` publishes exactly those: all old entries and the new nodes
      when nodes are added, the kept ones when nodes are removed. */
  lemma PublishedIs(s: State, events: seq<Event>, g: nat, keep: seq<nat>, ns: seq<nat>)
    requires IsArray(s, Current) && Enabled(s, BuildBegin)
    requires Valid(Apply(s, BuildBegin), events) && forall i :: 0 <= i < |events| ==> !events[i].Publish?
    requires Enabled(Run(Apply(s, BuildBegin), events), Publish(g))
    requires forall j :: 0 <= j < |keep| ==> keep[j] < |Elems(s, Current)|
    requires Builds(events) == Copies(keep) + Adoptions(ns)
    ensures var s' := Apply(Run(Apply(s, BuildBegin), events), Publish(g));
            && IsArray(s', Current) && Elems(s', Current) == Picked(Elems(s, Current), keep) + ns
            && (keep == seq(|Elems(s, Current)|, j => j) ==> Elems(s', Current) == Elems(s, Current) + ns)
  {
    var was := Elems(s, Current);
    Published(s, events, g);
    GatheredBuilds(was, events);
    GatheredConcat(was, Copies(keep), Adoptions(ns));
    GatheredCopies(was, keep);
    GatheredAdoptions(was, ns);
    if keep == seq(|was|, j => j) { assert Picked(was, keep) == was; }
  }

  // ---------- the partition map ----------

  /** The partition map after the stores among the events. */
  function Stored(slots: map<nat, nat>, events: seq<Event>): map<nat, nat>
  {
    if events == [] then slots
    else
      var m := Stored(slots, events[..|events| - 1]);
      var e := events[|events| - 1];
      if e.MapStore? then m[e.slot := e.n] else m
  }

  lemma {:induction false} StoredHead(slots: map<nat, nat>, e: Event, events: seq<Event>)
    ensures Stored(slots, [e] + events) == Stored(if e.MapStore? then slots[e.slot := e.n] else slots, events)
  {
    if events == [] {
      assert [e] + events == [e] && [e][..0] == [];
    } else {
      var init := events[..|events| - 1];
      StoredHead(slots, e, init);
      assert ([e] + events)[..|events|] == [e] + init;
    }
  }

  lemma SlotsStep(s: State, e: Event)
    requires Enabled(s, e)
    ensures Apply(s, e).slots == if e.MapStore? then s.slots[e.slot := e.n] else s.slots
  {
  }

  /** A slot of the partition map shows the node stored there last. */
  lemma {:induction false} MapShows(s: State, events: seq<Event>)
    requires Valid(s, events)
    ensures Run(s, events).slots == Stored(s.slots, events)
    decreases |events|
  {
    hide Apply, Enabled;
    if events != [] {
      var e := events[0];
      SlotsStep(s, e);
      MapShows(Apply(s, e), events[1..]);
      StoredHead(s.slots, e, events[1..]);
      assert events == [e] + events[1..];
    }
  }

  // ---------- what a thread gets ----------

  /** A loading step remembers the current array, or the node the slot shows. */
  lemma Loads(s: State, e: Event)
    requires Enabled(s, e) && (e.LoadArray? || e.LoadNode?)
    ensures var s' := Apply(s, e);
            e.u in s'.readers && s'.readers[e.u] == if e.LoadArray? then s.refs[Current] else s.slots[e.slot]
  {
  }

  /** Between its load and its increment a thread's object stays the same, and then it holds that object. */
  lemma {:induction false} HoldsLoaded(s: State, u: nat, events: seq<Event>)
    requires u in s.readers && Valid(s, events + [Increment(u)])
    requires forall i :: 0 <= i < |events| ==> events[i] != Increment(u)
    ensures var s' := Run(s, events + [Increment(u)]); User(u) in s'.refs && s'.refs[User(u)] == s.readers[u]
    decreases |events|
  {
    if events == [] {
      assert events + [Increment(u)] == [Increment(u)];
      assert Run(s, [Increment(u)]) == Run(Apply(s, Increment(u)), [Increment(u)][1..]);
      assert [Increment(u)][1..] == [];
    } else {
      var e := events[0];
      assert (events + [Increment(u)])[1..] == events[1..] + [Increment(u)];
      assert e != Increment(u);
      ReaderKept(s, u, e);
      hide Apply, Enabled;
      HoldsLoaded(Apply(s, e), u, events[1..]);
    }
  }

  lemma ReaderKept(s: State, u: nat, e: Event)
    requires u in s.readers && Enabled(s, e) && e != Increment(u)
    ensures u in Apply(s, e).readers && Apply(s, e).readers[u] == s.readers[u]
  {
  }

  /** Reserving an entry of a held array gives the thread that entry. */
  lemma ReservesEntry(s: State, u: nat, i: nat, v: nat)
    requires Enabled(s, ReserveEntry(u, i, v))
    ensures var s' := Apply(s, ReserveEntry(u, i, v));
            && User(v) in s'.refs && s'.refs[User(v)] == Elems(s, User(u))[i]
            && (User(u) in s'.refs && s'.refs[User(u)] == s.refs[User(u)])
  {
  }

  /** A thread holds the same object until it releases it, and an array it holds keeps its entries unless it is still
      being built. */
  lemma {:induction false} HeldUntilReleased(s: State, u: nat, events: seq<Event>)
    requires IsArray(s, User(u)) && Valid(s, events)
    requires forall i :: 0 <= i < |events| ==> events[i] != Release(u)
    requires Building in s.refs ==> s.refs[Building] != s.refs[User(u)]
    ensures var s' := Run(s, events);
            && IsArray(s', User(u)) && s'.refs[User(u)] == s.refs[User(u)] && Elems(s', User(u)) == Elems(s, User(u))
    decreases |events|
  {
    if events != [] {
      var e := events[0];
      assert e != Release(u);
      HeldStep(s, u, e);
      hide Apply, Enabled, IsArray;
      HeldUntilReleased(Apply(s, e), u, events[1..]);
    }
  }

  lemma HeldStep(s: State, u: nat, e: Event)
    requires IsArray(s, User(u)) && Enabled(s, e) && e != Release(u)
    requires Building in s.refs ==> s.refs[Building] != s.refs[User(u)]
    ensures var s' := Apply(s, e);
            && IsArray(s', User(u)) && s'.refs[User(u)] == s.refs[User(u)] && Elems(s', User(u)) == Elems(s, User(u))
            && (Building in s'.refs ==> s'.refs[Building] != s'.refs[User(u)])
  {
    ElemsKept(s, e, s.refs[User(u)]);
    UserKept(s, u, e);
    hide Apply, Enabled;
  }

  lemma UserKept(s: State, u: nat, e: Event)
    requires User(u) in s.refs && s.refs[User(u)] < |s.objs| && Enabled(s, e) && e != Release(u)
    requires Building in s.refs ==> s.refs[Building] != s.refs[User(u)]
    ensures var refs := Apply(s, e).refs;
            && User(u) in refs && refs[User(u)] == s.refs[User(u)]
            && (Building in refs ==> refs[Building] != refs[User(u)])
  {
    hide Apply, Enabled;
    if Tending(e) { UserKeptTending(s, u, e); } else { UserKeptCounting(s, u, e); }
  }

  lemma UserKeptTending(s: State, u: nat, e: Event)
    requires User(u) in s.refs && s.refs[User(u)] < |s.objs| && Enabled(s, e) && Tending(e)
    requires Building in s.refs ==> s.refs[Building] != s.refs[User(u)]
    ensures var refs := Apply(s, e).refs;
            && User(u) in refs && refs[User(u)] == s.refs[User(u)]
            && (Building in refs ==> refs[Building] != refs[User(u)])
  {
  }

  lemma UserKeptCounting(s: State, u: nat, e: Event)
    requires User(u) in s.refs && Enabled(s, e) && e != Release(u) && !Tending(e)
    ensures var refs := Apply(s, e).refs;
            && User(u) in refs && refs[User(u)] == s.refs[User(u)]
            && (Building in refs ==> Building in s.refs && refs[Building] == s.refs[Building])
  {
  }
}
