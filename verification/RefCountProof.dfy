/** No object is used or released after its destruction, and each is destroyed at most once. */
module RefCountProof {
  import opened RefCount

  // ---------- the invariant ----------

  ghost function Holders(refs: map<Holder, nat>, o: nat): set<Holder>
  {
    set h | h in refs && refs[h] == o
  }

  /** The counter of a live object is its number of holders, at least one; a destroyed object has none. */
  ghost predicate ObjOk(count: nat, destroys: nat, holders: set<Holder>)
  {
    if destroys == 0 then count == |holders| >= 1 else destroys == 1 && count == 0 && holders == {}
  }

  ghost predicate CountOk(objs: seq<Cell>, refs: map<Holder, nat>)
  {
    && (forall h :: h in refs ==> refs[h] < |objs|)
    && forall o :: 0 <= o < |objs| ==> ObjOk(objs[o].count, objs[o].destroys, Holders(refs, o))
  }

  ghost predicate TypesOk(objs: seq<Cell>, refs: map<Holder, nat>)
  {
    && Current in refs && refs[Current] < |objs| && objs[refs[Current]].Array?
    && (Building in refs ==> refs[Building] < |objs| && objs[refs[Building]].Array?)
    && (forall n: nat :: Created(n) in refs ==> refs[Created(n)] == n && n < |objs| && objs[n].Node?)
    && (forall n: nat :: Mapped(n) in refs ==> refs[Mapped(n)] == n && n < |objs| && objs[n].Node?)
    && (forall a: nat, i: nat :: Entry(a, i) in refs ==> a < |objs| && objs[a].Array?)
  }

  /** An array has released a prefix of its entries, nothing before its destruction, and references the others. */
  ghost predicate ArrayOk(objs: seq<Cell>, refs: map<Holder, nat>, a: nat)
    requires a < |objs| && objs[a].Array?
  {
    var c := objs[a];
    && c.released <= |c.elems|
    && (c.destroys == 0 ==> c.released == 0)
    && (forall i: nat :: Entry(a, i) in refs <==> c.released <= i < |c.elems|)
    && (forall i :: c.released <= i < |c.elems| ==> refs[Entry(a, i)] == c.elems[i])
    && (forall i :: 0 <= i < |c.elems| ==> c.elems[i] < |objs| && objs[c.elems[i]].Node?)
  }

  ghost predicate EntriesOk(objs: seq<Cell>, refs: map<Holder, nat>)
  {
    forall a :: 0 <= a < |objs| && objs[a].Array? ==> ArrayOk(objs, refs, a)
  }

  ghost function SlotsOf(slots: map<nat, nat>, n: nat): set<nat>
  {
    set p | p in slots && slots[p] == n
  }

  /** The partition map's own count is the number of its places for a node, and stands for one reference. */
  ghost predicate NodeMapOk(objs: seq<Cell>, refs: map<Holder, nat>, slots: map<nat, nat>, mapping: set<nat>, n: nat)
    requires n < |objs| && objs[n].Node?
  {
    && objs[n].partRefs == |SlotsOf(slots, n)| + (if n in mapping then 1 else 0)
    && (Mapped(n) in refs <==> objs[n].partRefs > 0)
  }

  ghost predicate MapOk(objs: seq<Cell>, refs: map<Holder, nat>, slots: map<nat, nat>, mapping: set<nat>)
  {
    && (forall p :: p in slots ==> slots[p] < |objs| && objs[slots[p]].Node?)
    && (forall n :: n in mapping ==> n < |objs| && objs[n].Node?)
    && (forall n :: 0 <= n < |objs| && objs[n].Node? ==> NodeMapOk(objs, refs, slots, mapping, n))
  }

  /** A reference only the tend thread can end, and only by way of the collector. */
  ghost predicate Stable(refs: map<Holder, nat>, o: nat)
  {
    || (Current in refs && refs[Current] == o)
    || Mapped(o) in refs
    || (exists g :: Gc(g) in refs && refs[Gc(g)] == o)
  }

  ghost predicate ReadersOk(s: State)
  {
    forall u :: u in s.readers ==> Stable(s.refs, s.readers[u]) && User(u) !in s.refs
  }

  ghost predicate Inv(s: State)
  {
    && !s.fault && CountOk(s.objs, s.refs) && TypesOk(s.objs, s.refs) && EntriesOk(s.objs, s.refs)
    && MapOk(s.objs, s.refs, s.slots, s.mapping) && ReadersOk(s)
  }

  // ---------- counting holders ----------

  lemma HoldersAdd(refs: map<Holder, nat>, h: Holder, o: nat, p: nat)
    requires h !in refs
    ensures |Holders(refs[h := o], p)| == |Holders(refs, p)| + if p == o then 1 else 0
    ensures p != o ==> Holders(refs[h := o], p) == Holders(refs, p)
  {
    assert Holders(refs[h := o], p) == Holders(refs, p) + if p == o then {h} else {};
  }

  lemma HoldersRemove(refs: map<Holder, nat>, h: Holder, p: nat)
    requires h in refs
    ensures |Holders(refs - {h}, p)| == |Holders(refs, p)| - if p == refs[h] then 1 else 0
    ensures p != refs[h] ==> Holders(refs - {h}, p) == Holders(refs, p)
    ensures p == refs[h] ==> h in Holders(refs, p)
  {
    assert Holders(refs - {h}, p) == Holders(refs, p) - {h};
  }

  lemma HolderLives(objs: seq<Cell>, refs: map<Holder, nat>, h: Holder)
    requires CountOk(objs, refs) && h in refs
    ensures refs[h] < |objs| && objs[refs[h]].destroys == 0 && objs[refs[h]].count >= 1
  {
    assert h in Holders(refs, refs[h]);
    assert ObjOk(objs[refs[h]].count, objs[refs[h]].destroys, Holders(refs, refs[h]));
  }

  /** A new holder h of the live object o. */
  lemma HolderAdded(objs: seq<Cell>, objs': seq<Cell>, refs: map<Holder, nat>, h: Holder, o: nat)
    requires CountOk(objs, refs) && h !in refs && o < |objs| == |objs'| && objs[o].destroys == 0
    requires objs'[o].count == objs[o].count + 1 && objs'[o].destroys == 0
    requires forall p :: 0 <= p < |objs| && p != o ==>
               objs'[p].count == objs[p].count && objs'[p].destroys == objs[p].destroys
    ensures CountOk(objs', refs[h := o])
  {
    hide Holders;
    forall p | 0 <= p < |objs'| ensures ObjOk(objs'[p].count, objs'[p].destroys, Holders(refs[h := o], p)) {
      HoldersAdd(refs, h, o, p);
      assert ObjOk(objs[p].count, objs[p].destroys, Holders(refs, p));
    }
  }

  /** The holder h is gone and the counter with it; the last one destroys. */
  lemma HolderRemoved(objs: seq<Cell>, objs': seq<Cell>, refs: map<Holder, nat>, h: Holder)
    requires CountOk(objs, refs) && h in refs && refs[h] < |objs| == |objs'|
    requires objs'[refs[h]].count == objs[refs[h]].count - 1
    requires objs'[refs[h]].destroys == if objs[refs[h]].count == 1 then 1 else 0
    requires forall p :: 0 <= p < |objs| && p != refs[h] ==>
               objs'[p].count == objs[p].count && objs'[p].destroys == objs[p].destroys
    ensures CountOk(objs', refs - {h})
  {
    hide Holders;
    HolderLives(objs, refs, h);
    forall p | 0 <= p < |objs'| ensures ObjOk(objs'[p].count, objs'[p].destroys, Holders(refs - {h}, p)) {
      HoldersRemove(refs, h, p);
      assert ObjOk(objs[p].count, objs[p].destroys, Holders(refs, p));
    }
  }

  lemma Allocated(objs: seq<Cell>, c: Cell, refs: map<Holder, nat>, h: Holder)
    requires CountOk(objs, refs) && h !in refs && c.count == 1 && c.destroys == 0
    ensures CountOk(objs + [c], refs[h := |objs|])
  {
    assert Holders(refs, |objs|) == {};
    hide Holders;
    var objs' := objs + [c];
    forall p | 0 <= p < |objs'| ensures ObjOk(objs'[p].count, objs'[p].destroys, Holders(refs[h := |objs|], p)) {
      HoldersAdd(refs, h, |objs|, p);
      if p < |objs| { assert ObjOk(objs[p].count, objs[p].destroys, Holders(refs, p)); }
    }
  }

  lemma Moved(objs: seq<Cell>, objs': seq<Cell>, refs: map<Holder, nat>, h: Holder, k: Holder)
    requires CountOk(objs, refs) && h in refs && k !in refs && |objs'| == |objs|
    requires forall p :: 0 <= p < |objs| ==> objs'[p].count == objs[p].count && objs'[p].destroys == objs[p].destroys
    ensures CountOk(objs', (refs - {h})[k := refs[h]])
  {
    hide Holders;
    var refs' := (refs - {h})[k := refs[h]];
    forall p | 0 <= p < |objs'| ensures ObjOk(objs'[p].count, objs'[p].destroys, Holders(refs', p)) {
      HoldersRemove(refs, h, p);
      HoldersAdd(refs - {h}, k, refs[h], p);
      assert ObjOk(objs[p].count, objs[p].destroys, Holders(refs, p));
    }
  }

  lemma StableLives(s: State, o: nat)
    requires CountOk(s.objs, s.refs) && TypesOk(s.objs, s.refs) && Stable(s.refs, o)
    ensures o < |s.objs| && s.objs[o].destroys == 0
  {
    if s.refs[Current] == o {
      HolderLives(s.objs, s.refs, Current);
    } else if Mapped(o) in s.refs {
      HolderLives(s.objs, s.refs, Mapped(o));
    } else {
      var g :| Gc(g) in s.refs && s.refs[Gc(g)] == o;
      HolderLives(s.objs, s.refs, Gc(g));
    }
  }

  /** The nodes of a live array are alive. */
  lemma EntryLives(s: State, h: Holder, i: nat)
    requires Inv(s) && IsArray(s, h) && i < |Elems(s, h)|
    ensures var n := Elems(s, h)[i]; n < |s.objs| && s.objs[n].Node? && s.objs[n].destroys == 0
  {
    hide TypesOk, MapOk, ReadersOk;
    var a := s.refs[h];
    HolderLives(s.objs, s.refs, h);
    assert ArrayOk(s.objs, s.refs, a);
    hide EntriesOk;
    HolderLives(s.objs, s.refs, Entry(a, i));
  }

  // ---------- what a step leaves alone ----------

  /** Objects keep their kind, arrays their entries; the destruction of an array is not undone. */
  ghost predicate SameArrays(objs: seq<Cell>, objs': seq<Cell>)
  {
    && |objs'| == |objs|
    && forall o :: 0 <= o < |objs| ==>
         && objs'[o].Array? == objs[o].Array?
         && (objs[o].Array? ==> objs'[o].elems == objs[o].elems && objs'[o].released == objs[o].released
                                && objs[o].destroys <= objs'[o].destroys)
  }

  ghost predicate SameNodes(objs: seq<Cell>, objs': seq<Cell>)
  {
    && |objs'| == |objs|
    && forall o :: 0 <= o < |objs| ==>
         && objs'[o].Node? == objs[o].Node?
         && (objs[o].Node? ==> objs'[o].partRefs == objs[o].partRefs)
  }

  /** Nothing but a use by a thread or a collector item is different. */
  ghost predicate SameFixed(refs: map<Holder, nat>, refs': map<Holder, nat>)
  {
    forall h: Holder :: !h.User? && !h.Gc? ==> (h in refs <==> h in refs') && (h in refs ==> refs'[h] == refs[h])
  }

  lemma TypesKept(objs: seq<Cell>, refs: map<Holder, nat>, objs': seq<Cell>, refs': map<Holder, nat>)
    requires TypesOk(objs, refs) && SameArrays(objs, objs') && SameFixed(refs, refs')
    ensures TypesOk(objs', refs')
  {
  }

  lemma EntriesKept(objs: seq<Cell>, refs: map<Holder, nat>, objs': seq<Cell>, refs': map<Holder, nat>)
    requires EntriesOk(objs, refs) && SameArrays(objs, objs')
    requires forall a: nat, i: nat :: Entry(a, i) in refs <==> Entry(a, i) in refs'
    requires forall a: nat, i: nat :: Entry(a, i) in refs ==> refs'[Entry(a, i)] == refs[Entry(a, i)]
    ensures EntriesOk(objs', refs')
  {
    forall a | 0 <= a < |objs'| && objs'[a].Array? ensures ArrayOk(objs', refs', a) { assert ArrayOk(objs, refs, a); }
  }

  lemma MapKept(s: State, s': State)
    requires MapOk(s.objs, s.refs, s.slots, s.mapping)
    requires SameNodes(s.objs, s'.objs)
    requires forall n: nat :: Mapped(n) in s.refs <==> Mapped(n) in s'.refs
    requires s'.slots == s.slots && s'.mapping == s.mapping
    ensures MapOk(s'.objs, s'.refs, s'.slots, s'.mapping)
  {
    hide SlotsOf;
    forall n | 0 <= n < |s'.objs| && s'.objs[n].Node? ensures NodeMapOk(s'.objs, s'.refs, s'.slots, s'.mapping, n) {
      assert NodeMapOk(s.objs, s.refs, s.slots, s.mapping, n);
    }
  }

  /** Stable references are kept. */
  ghost predicate KeepsStable(refs: map<Holder, nat>, refs': map<Holder, nat>)
  {
    forall h: Holder :: h in refs && (h.Current? || h.Mapped? || h.Gc?) ==> h in refs' && refs'[h] == refs[h]
  }

  lemma StableKept(refs: map<Holder, nat>, refs': map<Holder, nat>, o: nat)
    requires KeepsStable(refs, refs') && Stable(refs, o)
    ensures Stable(refs', o)
  {
    if !(Current in refs && refs[Current] == o) && Mapped(o) !in refs {
      var g :| Gc(g) in refs && refs[Gc(g)] == o;
      assert refs'[Gc(g)] == o;
    }
  }

  lemma ReadersKept(s: State, s': State)
    requires ReadersOk(s) && KeepsStable(s.refs, s'.refs)
    requires forall u :: u in s'.readers ==>
               u in s.readers && s'.readers[u] == s.readers[u] && (User(u) in s'.refs ==> User(u) in s.refs)
    ensures ReadersOk(s')
  {
    hide Stable, KeepsStable;
    forall u | u in s'.readers ensures Stable(s'.refs, s'.readers[u]) { StableKept(s.refs, s'.refs, s.readers[u]); }
  }

  /** Steps that only change uses, collector items and counters. */
  lemma LooseStep(s: State, s': State)
    requires Inv(s) && !s'.fault && CountOk(s'.objs, s'.refs) && SameFixed(s.refs, s'.refs)
    requires SameArrays(s.objs, s'.objs) && SameNodes(s.objs, s'.objs)
    requires s'.slots == s.slots && s'.mapping == s.mapping && ReadersOk(s')
    ensures Inv(s')
  {
    hide CountOk, ReadersOk;
    TypesKept(s.objs, s.refs, s'.objs, s'.refs);
    hide TypesOk;
    EntriesKept(s.objs, s.refs, s'.objs, s'.refs);
    hide EntriesOk;
    MapKept(s, s');
  }

  // ---------- steps ----------

  lemma LoadKeeps(s: State, e: Event)
    requires Inv(s) && Enabled(s, e) && (e.LoadArray? || e.LoadNode?)
    ensures Inv(Apply(s, e))
  {
    var s' := Apply(s, e);
    hide CountOk, TypesOk, EntriesOk;
    if e.LoadNode? { StoredNode(s, e.slot); }
    assert ReadersOk(s');
    hide MapOk, ReadersOk;
    LooseStep(s, s');
  }

  /** A thread becomes a holder of a live object. */
  lemma UseAdded(s: State, s': State, u: nat, o: nat)
    requires Inv(s) && User(u) !in s.refs && o < |s.objs| && s.objs[o].destroys == 0
    requires s' == Incr(s, o).(refs := s.refs[User(u) := o], readers := s'.readers) && ReadersOk(s')
    ensures Inv(s')
  {
    hide EntriesOk, MapOk, TypesOk, CountOk, ReadersOk;
    HolderAdded(s.objs, s'.objs, s.refs, User(u), o);
    LooseStep(s, s');
  }

  /** A thread or the collector gives its reference up. */
  lemma HolderGone(s: State, s': State, h: Holder)
    requires Inv(s) && h in s.refs && (h.User? || h.Gc?) && s.refs[h] < |s.objs|
    requires s' == Decr(s.(refs := s.refs - {h}), s.refs[h]) && ReadersOk(s')
    ensures Inv(s')
  {
    hide EntriesOk, MapOk, TypesOk, CountOk, ReadersOk;
    HolderLives(s.objs, s.refs, h);
    HolderRemoved(s.objs, s'.objs, s.refs, h);
    LooseStep(s, s');
  }

  lemma IncrementKeeps(s: State, u: nat)
    requires Inv(s) && Enabled(s, Increment(u))
    ensures Inv(Apply(s, Increment(u)))
  {
    hide EntriesOk, MapOk, Stable, TypesOk, CountOk;
    var s' := Apply(s, Increment(u));
    StableLives(s, s.readers[u]);
    ReadersKept(s, s');
    UseAdded(s, s', u, s.readers[u]);
  }

  lemma ReserveEntryKeeps(s: State, u: nat, i: nat, v: nat)
    requires Inv(s) && Enabled(s, ReserveEntry(u, i, v))
    ensures Inv(Apply(s, ReserveEntry(u, i, v)))
  {
    hide TypesOk, EntriesOk, MapOk, Stable, CountOk;
    var s' := Apply(s, ReserveEntry(u, i, v));
    EntryLives(s, User(u), i);
    ReadersKept(s, s');
    UseAdded(s, s', v, Elems(s, User(u))[i]);
  }

  lemma ReleaseKeeps(s: State, u: nat)
    requires Inv(s) && Enabled(s, Release(u))
    ensures Inv(Apply(s, Release(u)))
  {
    hide TypesOk, EntriesOk, MapOk, Stable, CountOk;
    var s' := Apply(s, Release(u));
    ReadersKept(s, s');
    HolderGone(s, s', User(u));
  }

  lemma CollectStable(refs: map<Holder, nat>, g: nat, o: nat)
    requires Stable(refs, o) && Gc(g) in refs && refs[Gc(g)] != o
    ensures Stable(refs - {Gc(g)}, o)
  {
    var refs' := refs - {Gc(g)};
    if !(Current in refs && refs[Current] == o) && Mapped(o) !in refs {
      var g' :| Gc(g') in refs && refs[Gc(g')] == o;
      assert refs'[Gc(g')] == o;
    }
  }

  lemma CollectKeeps(s: State, g: nat)
    requires Inv(s) && Enabled(s, Collect(g)) && Delayed(s, Collect(g))
    ensures Inv(Apply(s, Collect(g)))
  {
    hide TypesOk, EntriesOk, MapOk, Stable, CountOk;
    var s' := Apply(s, Collect(g));
    forall u | u in s'.readers ensures Stable(s'.refs, s'.readers[u]) { CollectStable(s.refs, g, s.readers[u]); }
    HolderGone(s, s', Gc(g));
  }

  lemma NewObject(s: State, s': State, c: Cell, h: Holder)
    requires Inv(s) && !s'.fault && c.count == 1 && c.destroys == 0
    requires (c.Array? && c.elems == [] && c.released == 0 && h == Building)
             || (c.Node? && c.partRefs == 0 && h == Created(|s.objs|))
    requires h !in s.refs && Mapped(|s.objs|) !in s.refs
    requires s' == s.(objs := s.objs + [c], refs := s.refs[h := |s.objs|])
    ensures Inv(s')
  {
    hide Holders, SlotsOf, ObjOk, Stable;
    Allocated(s.objs, c, s.refs, h);
    hide CountOk;
    assert TypesOk(s'.objs, s'.refs);
    ReadersKept(s, s');
    hide ReadersOk;
    forall a | 0 <= a < |s'.objs| && s'.objs[a].Array? ensures ArrayOk(s'.objs, s'.refs, a) {
      if a < |s.objs| { assert ArrayOk(s.objs, s.refs, a); }
    }
    hide TypesOk, EntriesOk, ArrayOk;
    forall n | 0 <= n < |s'.objs| && s'.objs[n].Node? ensures NodeMapOk(s'.objs, s'.refs, s'.slots, s'.mapping, n) {
      if n < |s.objs| { assert NodeMapOk(s.objs, s.refs, s.slots, s.mapping, n); } else { NoSlots(s, n); }
    }
  }

  lemma NoSlots(s: State, n: nat)
    requires MapOk(s.objs, s.refs, s.slots, s.mapping) && n >= |s.objs|
    ensures SlotsOf(s.slots, n) == {}
  {
  }

  lemma CreateKeeps(s: State, e: Event)
    requires Inv(s) && Enabled(s, e) && (e.CreateNode? || e.BuildBegin?)
    ensures Inv(Apply(s, e))
  {
    hide CountOk, EntriesOk, MapOk, ReadersOk;
    NewObject(s, Apply(s, e), if e.CreateNode? then Node(1, 0, 0) else Array(1, 0, [], 0),
              if e.CreateNode? then Created(|s.objs|) else Building);
  }

  /** A new entry at the end of the array being built. */
  lemma GrowEntries(objs: seq<Cell>, refs: map<Holder, nat>, objs': seq<Cell>, refs': map<Holder, nat>, a: nat, n: nat)
    requires EntriesOk(objs, refs) && a < |objs| == |objs'| && objs[a].Array? && objs[a].destroys == 0
    requires n < |objs| && objs[n].Node?
    requires objs'[a].Array? && objs'[a].elems == objs[a].elems + [n] && objs'[a].released == objs[a].released
             && objs'[a].destroys == 0
    requires forall b :: 0 <= b < |objs| && b != a ==>
               if objs[b].Array? then objs'[b] == objs[b] else objs'[b].Node?
    requires forall b: nat, i: nat :: Entry(b, i) in refs' <==> Entry(b, i) in refs || (b == a && i == |objs[a].elems|)
    requires forall b: nat, i: nat :: Entry(b, i) in refs ==> refs'[Entry(b, i)] == refs[Entry(b, i)]
    requires refs'[Entry(a, |objs[a].elems|)] == n
    ensures EntriesOk(objs', refs')
  {
    forall b | 0 <= b < |objs'| && objs'[b].Array? ensures ArrayOk(objs', refs', b) { assert ArrayOk(objs, refs, b); }
  }

  lemma NextEntryFree(s: State, a: nat)
    requires EntriesOk(s.objs, s.refs) && a < |s.objs| && s.objs[a].Array?
    ensures Entry(a, |s.objs[a].elems|) !in s.refs
  {
    assert ArrayOk(s.objs, s.refs, a);
  }

  lemma GrowTypes(s: State, s': State, a: nat, i: nat)
    requires TypesOk(s.objs, s.refs) && |s.objs| == |s'.objs| && a < |s.objs| && s.objs[a].Array?
    requires forall o :: 0 <= o < |s.objs| ==> s'.objs[o].Array? == s.objs[o].Array?
    requires forall h: Holder :: h in s'.refs ==> h == Entry(a, i) || (h in s.refs && s'.refs[h] == s.refs[h])
    requires Current in s'.refs
    ensures TypesOk(s'.objs, s'.refs)
  {
  }

  lemma BuildCopyCount(s: State, i: nat)
    requires Inv(s) && Enabled(s, BuildCopy(i))
    ensures var s' := Apply(s, BuildCopy(i)); CountOk(s'.objs, s'.refs) && !s'.fault
    ensures IsNode(s, Elems(s, Current)[i]) && s.objs[s.refs[Building]].destroys == 0
    ensures Entry(s.refs[Building], |Elems(s, Building)|) !in s.refs
  {
    hide TypesOk, EntriesOk, MapOk, ReadersOk, Holders, ObjOk;
    var s' := Apply(s, BuildCopy(i));
    var a, n := s.refs[Building], Elems(s, Current)[i];
    EntryLives(s, Current, i);
    HolderLives(s.objs, s.refs, Building);
    NextEntryFree(s, a);
    HolderAdded(s.objs, s'.objs, s.refs, Entry(a, |s.objs[a].elems|), n);
  }

  lemma BuildCopyKeeps(s: State, i: nat)
    requires Inv(s) && Enabled(s, BuildCopy(i))
    ensures Inv(Apply(s, BuildCopy(i)))
  {
    hide CountOk, TypesOk, EntriesOk, MapOk, ReadersOk;
    var s' := Apply(s, BuildCopy(i));
    var a, n := s.refs[Building], Elems(s, Current)[i];
    BuildCopyCount(s, i);
    CurrentHeld(s);
    GrowTypes(s, s', a, |s.objs[a].elems|);
    GrowEntries(s.objs, s.refs, s'.objs, s'.refs, a, n);
    MapKept(s, s');
    ReadersKept(s, s');
  }

  lemma BuildAdoptCount(s: State, n: nat)
    requires Inv(s) && Enabled(s, BuildAdopt(n))
    ensures var s' := Apply(s, BuildAdopt(n)); CountOk(s'.objs, s'.refs)
    ensures s.refs[Created(n)] == n && IsNode(s, n) && s.objs[s.refs[Building]].destroys == 0
    ensures Entry(s.refs[Building], |Elems(s, Building)|) !in s.refs
  {
    hide EntriesOk, MapOk, ReadersOk, Holders, ObjOk;
    var s' := Apply(s, BuildAdopt(n));
    var a := s.refs[Building];
    HolderLives(s.objs, s.refs, Building);
    NextEntryFree(s, a);
    var k := Entry(a, |s.objs[a].elems|);
    assert s.refs[Created(n)] == n && IsNode(s, n);
    hide TypesOk;
    assert s'.refs == (s.refs - {Created(n)})[k := s.refs[Created(n)]];
    Moved(s.objs, s'.objs, s.refs, Created(n), k);
  }

  lemma BuildAdoptKeeps(s: State, n: nat)
    requires Inv(s) && Enabled(s, BuildAdopt(n))
    ensures Inv(Apply(s, BuildAdopt(n)))
  {
    hide CountOk, TypesOk, EntriesOk, MapOk, ReadersOk;
    var s' := Apply(s, BuildAdopt(n));
    var a := s.refs[Building];
    BuildAdoptCount(s, n);
    CurrentHeld(s);
    GrowTypes(s, s', a, |s.objs[a].elems|);
    GrowEntries(s.objs, s.refs, s'.objs, s'.refs, a, n);
    MapKept(s, s');
    ReadersKept(s, s');
  }

  lemma CurrentHeld(s: State)
    requires Inv(s)
    ensures Current in s.refs
  {
  }

  lemma PublishStable(refs: map<Holder, nat>, refs': map<Holder, nat>, g: nat, o: nat)
    requires Stable(refs, o) && Building in refs && Current in refs && Gc(g) !in refs
    requires refs' == (refs - {Building})[Current := refs[Building]][Gc(g) := refs[Current]]
    ensures Stable(refs', o)
  {
    if refs[Current] == o {
      assert refs'[Gc(g)] == o;
    } else if Mapped(o) !in refs {
      var g' :| Gc(g') in refs && refs[Gc(g')] == o;
      assert refs'[Gc(g')] == o;
    }
  }

  lemma PublishCount(objs: seq<Cell>, refs: map<Holder, nat>, refs': map<Holder, nat>, g: nat)
    requires CountOk(objs, refs) && Building in refs && Current in refs && Gc(g) !in refs
    requires refs' == (refs - {Building})[Current := refs[Building]][Gc(g) := refs[Current]]
    ensures CountOk(objs, refs')
  {
    hide CountOk;
    var mid := (refs - {Current})[Gc(g) := refs[Current]];
    Moved(objs, objs, refs, Current, Gc(g));
    Moved(objs, objs, mid, Building, Current);
    assert refs' == (mid - {Building})[Current := mid[Building]];
  }

  lemma PublishKeeps(s: State, g: nat)
    requires Inv(s) && Enabled(s, Publish(g))
    ensures Inv(Apply(s, Publish(g)))
  {
    var s' := Apply(s, Publish(g));
    hide CountOk, EntriesOk, MapOk, Stable;
    PublishCount(s.objs, s.refs, s'.refs, g);
    forall u | u in s'.readers ensures Stable(s'.refs, s'.readers[u]) {
      PublishStable(s.refs, s'.refs, g, s.readers[u]);
    }
    hide ReadersOk;
    assert TypesOk(s'.objs, s'.refs);
    hide TypesOk;
    EntriesKept(s.objs, s.refs, s'.objs, s'.refs);
    MapKept(s, s');
  }

  // ---------- the partition map ----------

  lemma StoredNode(s: State, slot: nat)
    requires MapOk(s.objs, s.refs, s.slots, s.mapping) && slot in s.slots
    ensures var n := s.slots[slot]; n < |s.objs| && s.objs[n].Node? && s.objs[n].partRefs > 0 && Mapped(n) in s.refs
  {
    var n := s.slots[slot];
    assert slot in SlotsOf(s.slots, n);
    assert NodeMapOk(s.objs, s.refs, s.slots, s.mapping, n);
  }

  /** Nothing but the partition map's reference to m is different, and of the objects only m. */
  ghost predicate OnlyMapped(s: State, s': State, m: nat)
    requires m < |s.objs|
  {
    && |s'.objs| == |s.objs|
    && (forall o :: 0 <= o < |s.objs| && o != m ==> s'.objs[o] == s.objs[o])
    && s.objs[m].Node? && s'.objs[m].Node? && s'.objs[m].destroys == s.objs[m].destroys
    && (forall h: Holder :: h != Mapped(m) && !h.Gc? ==>
          (h in s.refs <==> h in s'.refs) && (h in s.refs ==> s'.refs[h] == s.refs[h]))
    && (Mapped(m) in s'.refs ==> s'.refs[Mapped(m)] == m)
  }

  lemma MappedFrame(s: State, s': State, m: nat)
    requires Inv(s) && m < |s.objs| && OnlyMapped(s, s', m)
    ensures TypesOk(s'.objs, s'.refs) && EntriesOk(s'.objs, s'.refs)
  {
    hide CountOk, MapOk, ReadersOk;
    assert TypesOk(s'.objs, s'.refs);
    hide TypesOk;
    EntriesKept(s.objs, s.refs, s'.objs, s'.refs);
  }

  lemma MapReserveMap(s: State, n: nat)
    requires Inv(s) && Enabled(s, MapReserve(n))
    ensures var s' := Apply(s, MapReserve(n)); MapOk(s'.objs, s'.refs, s'.slots, s'.mapping)
  {
    var s' := Apply(s, MapReserve(n));
    hide CountOk, TypesOk, EntriesOk, ReadersOk, SlotsOf;
    assert NodeMapOk(s.objs, s.refs, s.slots, s.mapping, n);
    forall m | 0 <= m < |s'.objs| && s'.objs[m].Node? ensures NodeMapOk(s'.objs, s'.refs, s'.slots, s'.mapping, m) {
      assert NodeMapOk(s.objs, s.refs, s.slots, s.mapping, m);
    }
  }

  lemma CurrentNode(s: State, n: nat)
    requires Inv(s) && IsArray(s, Current) && n in Elems(s, Current)
    ensures IsNode(s, n) && s.objs[n].destroys == 0 && (Mapped(n) in s.refs <==> s.objs[n].partRefs > 0)
  {
    hide CountOk, TypesOk, ReadersOk;
    var i :| 0 <= i < |Elems(s, Current)| && Elems(s, Current)[i] == n;
    EntryLives(s, Current, i);
    assert NodeMapOk(s.objs, s.refs, s.slots, s.mapping, n);
  }

  lemma MapReserveCount(s: State, n: nat)
    requires Inv(s) && Enabled(s, MapReserve(n))
    ensures var s' := Apply(s, MapReserve(n));
            !s'.fault && CountOk(s'.objs, s'.refs) && KeepsStable(s.refs, s'.refs) && OnlyMapped(s, s', n)
  {
    hide TypesOk, EntriesOk, ReadersOk, MapOk, Holders, ObjOk;
    var s' := Apply(s, MapReserve(n));
    CurrentNode(s, n);
    if s.objs[n].partRefs == 0 {
      HolderAdded(s.objs, s'.objs, s.refs, Mapped(n), n);
    } else {
      assert s'.refs == s.refs;
      MappedValue(s, n);
    }
  }

  lemma MappedValue(s: State, n: nat)
    requires Inv(s) && Mapped(n) in s.refs
    ensures s.refs[Mapped(n)] == n
  {
  }

  lemma MapReserveKeeps(s: State, n: nat)
    requires Inv(s) && Enabled(s, MapReserve(n))
    ensures Inv(Apply(s, MapReserve(n)))
  {
    hide TypesOk, EntriesOk, ReadersOk, MapOk, CountOk, OnlyMapped, KeepsStable;
    var s' := Apply(s, MapReserve(n));
    MapReserveMap(s, n);
    MapReserveCount(s, n);
    MappedFrame(s, s', n);
    ReadersKept(s, s');
  }

  lemma SlotsWithout(slots: map<nat, nat>, slot: nat, m: nat)
    ensures |SlotsOf(slots, m) - {slot}| == |SlotsOf(slots, m)| - if slot in slots && slots[slot] == m then 1 else 0
  {
    assert slot in SlotsOf(slots, m) <==> slot in slots && slots[slot] == m;
  }

  lemma SlotsStored(slots: map<nat, nat>, slot: nat, n: nat, m: nat)
    ensures SlotsOf(slots[slot := n], m) == SlotsOf(slots, m) - {slot} + if m == n then {slot} else {}
  {
  }

  lemma SlotsStore(slots: map<nat, nat>, slot: nat, n: nat, m: nat)
    ensures |SlotsOf(slots[slot := n], m)| == |SlotsOf(slots, m)|
                                              - (if slot in slots && slots[slot] == m then 1 else 0)
                                              + (if m == n then 1 else 0)
  {
    hide SlotsOf;
    SlotsWithout(slots, slot, m);
    SlotsStored(slots, slot, n, m);
  }

  lemma MapStoreNode(s: State, slot: nat, n: nat, g: nat, m: nat)
    requires Inv(s) && Enabled(s, MapStore(slot, n, g)) && IsNode(s, m)
    ensures var s' := Apply(s, MapStore(slot, n, g));
            IsNode(s', m) && NodeMapOk(s'.objs, s'.refs, s'.slots, s'.mapping, m)
  {
    hide CountOk, TypesOk, EntriesOk, ReadersOk, SlotsOf;
    if slot in s.slots { StoredNode(s, slot); }
    SlotsStore(s.slots, slot, n, m);
    assert NodeMapOk(s.objs, s.refs, s.slots, s.mapping, m);
  }

  lemma MapStoreMap(s: State, slot: nat, n: nat, g: nat)
    requires Inv(s) && Enabled(s, MapStore(slot, n, g))
    ensures var s' := Apply(s, MapStore(slot, n, g)); MapOk(s'.objs, s'.refs, s'.slots, s'.mapping)
  {
    hide CountOk, TypesOk, EntriesOk, ReadersOk, NodeMapOk;
    var s' := Apply(s, MapStore(slot, n, g));
    forall m | 0 <= m < |s'.objs| && s'.objs[m].Node? ensures NodeMapOk(s'.objs, s'.refs, s'.slots, s'.mapping, m) {
      MapStoreNode(s, slot, n, g, m);
    }
  }

  lemma GiveUpStable(refs: map<Holder, nat>, refs': map<Holder, nat>, m: nat, g: nat, o: nat)
    requires Stable(refs, o) && Mapped(m) in refs && Gc(g) !in refs && refs' == (refs - {Mapped(m)})[Gc(g) := m]
    ensures Stable(refs', o)
  {
    if !(Current in refs && refs[Current] == o) {
      if o == m {
        assert refs'[Gc(g)] == o;
      } else if Mapped(o) !in refs {
        var g' :| Gc(g') in refs && refs[Gc(g')] == o;
        assert refs'[Gc(g')] == o;
      }
    }
  }

  lemma MapStoreFrame(s: State, slot: nat, n: nat, g: nat)
    requires Inv(s) && Enabled(s, MapStore(slot, n, g)) && slot in s.slots
    ensures var m := s.slots[slot];
            m < |s.objs| && OnlyMapped(s, Apply(s, MapStore(slot, n, g)), m) && s.objs[m].partRefs > 0
            && Mapped(m) in s.refs && s.refs[Mapped(m)] == m
  {
    hide CountOk, TypesOk, EntriesOk, MapOk, ReadersOk;
    StoredNode(s, slot);
    MappedValue(s, s.slots[slot]);
  }

  /** The last place of the old node: its reference goes to the collector. */
  lemma MapStoreLast(s: State, slot: nat, n: nat, g: nat)
    requires Inv(s) && Enabled(s, MapStore(slot, n, g)) && slot in s.slots && s.objs[s.slots[slot]].partRefs == 1
    ensures var s' := Apply(s, MapStore(slot, n, g)); CountOk(s'.objs, s'.refs) && ReadersOk(s')
  {
    hide TypesOk, EntriesOk, MapOk, Stable, Holders, ObjOk, OnlyMapped, CountOk;
    var s' := Apply(s, MapStore(slot, n, g));
    var m := s.slots[slot];
    MapStoreFrame(s, slot, n, g);
    Moved(s.objs, s'.objs, s.refs, Mapped(m), Gc(g));
    forall u | u in s'.readers ensures Stable(s'.refs, s'.readers[u]) {
      GiveUpStable(s.refs, s'.refs, m, g, s.readers[u]);
    }
  }

  lemma MapStoreReplaced(s: State, slot: nat, n: nat, g: nat)
    requires Inv(s) && Enabled(s, MapStore(slot, n, g)) && slot in s.slots
    ensures var s' := Apply(s, MapStore(slot, n, g));
            && !s'.fault && CountOk(s'.objs, s'.refs) && TypesOk(s'.objs, s'.refs) && EntriesOk(s'.objs, s'.refs)
            && ReadersOk(s')
  {
    hide TypesOk, EntriesOk, MapOk, OnlyMapped, Holders, ObjOk;
    var s' := Apply(s, MapStore(slot, n, g));
    var m := s.slots[slot];
    MapStoreFrame(s, slot, n, g);
    MappedFrame(s, s', m);
    if s.objs[m].partRefs == 1 {
      MapStoreLast(s, slot, n, g);
    } else {
      assert s'.refs == s.refs;
    }
  }

  lemma MapStoreKeeps(s: State, slot: nat, n: nat, g: nat)
    requires Inv(s) && Enabled(s, MapStore(slot, n, g))
    ensures Inv(Apply(s, MapStore(slot, n, g)))
  {
    hide CountOk, TypesOk, EntriesOk, MapOk;
    MapStoreMap(s, slot, n, g);
    if slot in s.slots { MapStoreReplaced(s, slot, n, g); }
  }

  lemma ReleaseEntryKeeps(s: State, a: nat)
    requires Inv(s) && Enabled(s, ReleaseEntry(a))
    ensures Inv(Apply(s, ReleaseEntry(a)))
  {
    var s' := Apply(s, ReleaseEntry(a));
    var i := s.objs[a].released;
    assert ArrayOk(s.objs, s.refs, a);
    hide TypesOk, MapOk, ReadersOk, Holders, ObjOk;
    HolderLives(s.objs, s.refs, Entry(a, i));
    HolderRemoved(s.objs, s'.objs, s.refs, Entry(a, i));
    hide CountOk, EntriesOk, ArrayOk;
    MapKept(s, s');
    ReadersKept(s, s');
    ReleaseTypes(s, s', a, i);
    ReleaseEntries(s, s', a);
  }

  lemma ReleaseEntries(s: State, s': State, a: nat)
    requires EntriesOk(s.objs, s.refs) && |s'.objs| == |s.objs| && a < |s.objs| && s.objs[a].Array?
             && s.objs[a].destroys > 0
    requires s.objs[a].released < |s.objs[a].elems| && s'.refs == s.refs - {Entry(a, s.objs[a].released)}
    requires s'.objs[a].Array? && s'.objs[a].elems == s.objs[a].elems && s'.objs[a].released == s.objs[a].released + 1
    requires s'.objs[a].destroys > 0
    requires forall b :: 0 <= b < |s.objs| && b != a ==>
               if s.objs[b].Array? then s'.objs[b] == s.objs[b] else s'.objs[b].Node?
    ensures EntriesOk(s'.objs, s'.refs)
  {
    forall b | 0 <= b < |s'.objs| && s'.objs[b].Array? ensures ArrayOk(s'.objs, s'.refs, b) {
      assert ArrayOk(s.objs, s.refs, b);
    }
  }

  lemma ReleaseTypes(s: State, s': State, a: nat, i: nat)
    requires TypesOk(s.objs, s.refs) && |s'.objs| == |s.objs| && s'.refs == s.refs - {Entry(a, i)}
    requires forall o :: 0 <= o < |s.objs| ==> s'.objs[o].Array? == s.objs[o].Array?
    ensures TypesOk(s'.objs, s'.refs)
  {
  }

  lemma StepKeeps(s: State, e: Event)
    requires Inv(s) && Enabled(s, e) && Delayed(s, e)
    ensures Inv(Apply(s, e))
  {
    hide Inv, Apply;
    match e {
      case CreateNode => CreateKeeps(s, e);
      case BuildBegin => CreateKeeps(s, e);
      case BuildCopy(i) => BuildCopyKeeps(s, i);
      case BuildAdopt(n) => BuildAdoptKeeps(s, n);
      case Publish(g) => PublishKeeps(s, g);
      case MapReserve(n) => MapReserveKeeps(s, n);
      case MapStore(slot, n, g) => MapStoreKeeps(s, slot, n, g);
      case Collect(g) => CollectKeeps(s, g);
      case LoadArray(_) => LoadKeeps(s, e);
      case LoadNode(_, _) => LoadKeeps(s, e);
      case Increment(u) => IncrementKeeps(s, u);
      case ReserveEntry(u, i, v) => ReserveEntryKeeps(s, u, i, v);
      case Release(u) => ReleaseKeeps(s, u);
      case ReleaseEntry(a) => ReleaseEntryKeeps(s, a);
    }
  }

  // ---------- whole runs ----------

  lemma InitInv()
    ensures Inv(Init())
  {
    var s := Init();
    assert Holders(s.refs, 0) == {Current};
  }

  lemma {:induction false} RunKeeps(s: State, events: seq<Event>)
    requires Inv(s) && Valid(s, events) && DelayedRun(s, events)
    ensures Inv(Run(s, events))
    decreases |events|
  {
    hide Inv, Enabled, Apply, Delayed;
    if events != [] {
      StepKeeps(s, events[0]);
      RunKeeps(Apply(s, events[0]), events[1..]);
    }
  }

  /** Over every interleaving: no access to a destroyed object and no release too many. */
  lemma NeverFaults(events: seq<Event>)
    requires Valid(Init(), events) && DelayedRun(Init(), events)
    ensures !Run(Init(), events).fault
  {
    hide Valid, DelayedRun, Run, Init;
    InitInv();
    RunKeeps(Init(), events);
  }

  /** Over every interleaving an object is destroyed at most once, has then no holder and no thread about to reserve
      it, and as long as it is not destroyed its counter is its number of holders, so that it is destroyed as soon
      as there is none. */
  lemma DestroyedOnce(events: seq<Event>, o: nat)
    requires Valid(Init(), events) && DelayedRun(Init(), events)
    requires o < |Run(Init(), events).objs|
    ensures var s := Run(Init(), events);
            && s.objs[o].destroys <= 1
            && (s.objs[o].destroys == 1 ==>
                  && (forall h :: h in s.refs ==> s.refs[h] != o)
                  && (forall u :: u in s.readers ==> s.readers[u] != o))
            && (s.objs[o].destroys == 0 ==> s.objs[o].count == |Holders(s.refs, o)| > 0)
  {
    hide Valid, DelayedRun, Run, Init;
    InitInv();
    RunKeeps(Init(), events);
    var s := Run(Init(), events);
    assert ObjOk(s.objs[o].count, s.objs[o].destroys, Holders(s.refs, o));
    if s.objs[o].destroys == 1 {
      forall h | h in s.refs ensures s.refs[h] != o {
        assert h in Holders(s.refs, s.refs[h]);
      }
      forall u | u in s.readers ensures s.readers[u] != o { StableLives(s, s.readers[u]); }
    }
  }

  /** Collecting an item makes the next step of some thread an access to destroyed memory exactly if the collector's is
      the last reference and a thread has loaded the object without having reserved it. */
  lemma CollectFaultExact(s: State, g: nat)
    requires Inv(s) && Enabled(s, Collect(g))
    ensures var s' := Apply(s, Collect(g));
            (exists u :: Enabled(s', Increment(u)) && Apply(s', Increment(u)).fault)
            <==> s.objs[s.refs[Gc(g)]].count == 1 && exists u :: u in s.readers && s.readers[u] == s.refs[Gc(g)]
  {
    var s' := Apply(s, Collect(g));
    var o := s.refs[Gc(g)];
    hide TypesOk, EntriesOk, MapOk, Stable, Holders;
    HolderLives(s.objs, s.refs, Gc(g));
    forall u | u in s.readers ensures s.readers[u] < |s.objs| && s.objs[s.readers[u]].destroys == 0 {
      StableLives(s, s.readers[u]);
    }
    hide CountOk;
    if s.objs[o].count == 1 && exists u :: u in s.readers && s.readers[u] == o {
      var u :| u in s.readers && s.readers[u] == o;
      assert Enabled(s', Increment(u)) && Apply(s', Increment(u)).fault;
    }
  }

  /** Without the delay a run of five steps touches a destroyed array. */
  lemma UndelayedRunFaults()
    ensures var events := [LoadArray(0), BuildBegin, Publish(0), Collect(0), Increment(0)];
            Valid(Init(), events) && Run(Init(), events).fault
  {
    var s0 := Init();
    var s1 := Apply(s0, LoadArray(0));
    var s2 := Apply(s1, BuildBegin);
    var s3 := Apply(s2, Publish(0));
    var s4 := Apply(s3, Collect(0));
    assert s2.objs == [Array(1, 0, [], 0), Array(1, 0, [], 0)];
    assert s4.objs == [Array(0, 1, [], 0), Array(1, 0, [], 0)];
    var s5 := Apply(s4, Increment(0));
    assert s5.fault;
    hide Apply, Enabled, Init;
    var e := [LoadArray(0), BuildBegin, Publish(0), Collect(0), Increment(0)];
    var tails := [e[1..], e[2..], e[3..], e[4..], e[5..]];
    assert tails[0][1..] == tails[1] && tails[1][1..] == tails[2] && tails[2][1..] == tails[3]
           && tails[3][1..] == tails[4] == [];
    assert Valid(s5, tails[4]) && Run(s5, tails[4]) == s5;
    assert Valid(s4, tails[3]) && Run(s4, tails[3]) == s5;
    assert Valid(s3, tails[2]) && Run(s3, tails[2]) == s5;
    assert Valid(s2, tails[1]) && Run(s2, tails[1]) == s5;
    assert Valid(s1, tails[0]) && Run(s1, tails[0]) == s5;
  }
}
