/** Starting and ending rounds and pages keeps the pagination invariant, except for the asynchronous
start that finds no node, for which the exact condition is given. */
module TrackerRounds {
  import opened Prelude
  import opened PartitionTracker
  import opened TrackerAssign
  import opened TrackerSystem
  import opened TrackerInvariant

  /** What holds before partitions are assigned. */
  ghost predicate Ready(w: World, s: Sys, t: Tracker)
  {
    && WorldOk(w) && |t.all.parts| == |w.data| == |s.log| == |s.handed| && t.nodes == []
    && t.all.begin == w.begin && IdsOk(t.all.parts, w.begin)
    && (forall o :: 0 <= o < |w.data| ==> LogOk(w, t.all, s.log, o))
    && (t.all.done ==> forall o :: 0 <= o < |w.data| ==> Exhausted(w, t.all, o))
    && PageOk(s.(t := t))
    && (t.iteration == 1 || t.maxRecords == 0 ==>
          forall o :: 0 <= o < |w.data| ==>
            Selected(t.all.parts, t.all.retry && t.iteration == 1, o) || Exhausted(w, t.all, o))
  }

  /** Two partition tables that agree on everything the invariant looks at. */
  ghost predicate SameCursors(a: Parts, b: Parts)
  {
    && |a.parts| == |b.parts| && a.begin == b.begin && a.done == b.done
    && forall o :: 0 <= o < |a.parts| ==> a.parts[o].id == b.parts[o].id && a.parts[o].cursor == b.parts[o].cursor
  }

  lemma CursorsCarry(w: World, a: Parts, b: Parts, log: seq<seq<Digest>>)
    requires |a.parts| == |w.data| == |log| && SameCursors(a, b) && IdsOk(a.parts, w.begin)
    requires forall o :: 0 <= o < |w.data| ==> LogOk(w, a, log, o)
    requires a.done ==> forall o :: 0 <= o < |w.data| ==> Exhausted(w, a, o)
    ensures IdsOk(b.parts, w.begin)
    ensures forall o :: 0 <= o < |w.data| ==> LogOk(w, b, log, o)
    ensures forall o :: 0 <= o < |w.data| ==> At(w, a, o) == At(w, b, o)
    ensures b.done ==> forall o :: 0 <= o < |w.data| ==> Exhausted(w, b, o)
  {
    forall o | 0 <= o < |w.data|
      ensures LogOk(w, b, log, o) && At(w, a, o) == At(w, b, o) && (b.done ==> Exhausted(w, b, o))
    {
      assert LogOk(w, a, log, o);
      if a.done { assert Exhausted(w, a, o); }
    }
  }

  /** The outcome of an assignment, in terms of the state before it. */
  lemma AssignGives(t: Tracker, choice: seq<Choice>)
    requires |choice| == |t.all.parts| && Everywhere(choice) && t.nodes == [] && IdsOk(t.all.parts, t.all.begin)
    ensures var sel := t.all.retry && t.iteration == 1;
            var (st, t') := Assign(t, choice);
            && SameCursors(t.all, t'.all)
            && st in {Ok, InvalidNode}
            && (st == Ok ==> PartsUpTo(t.all.parts, t'.all.parts, sel, choice, |choice|)
                             && NodesAssigned(t, t', choice))
            && (st != Ok ==> t'.all.retry == t.all.retry)
  {
    hide NodesUpTo, HoldsUpTo;
    var sel := t.all.retry && t.iteration == 1;
    assert NodesUpTo(t.all.parts, [], t.all.begin, sel, choice, 0) by {
      FirstNodes(t.all.parts, t.all.begin, sel, choice);
    }
    AssignLoop(t.all.parts, t.all.parts, [], t.all.begin, sel, choice, 0);
    var r := AssignFrom(t.all.parts, [], sel, choice, 0);
    if r.AllAssigned? {
      forall o | 0 <= o < |choice|
        ensures r.parts[o].id == t.all.parts[o].id
                && r.parts[o].cursor == t.all.parts[o].cursor
      {
        assert AssignedPart(t.all.parts[o], r.parts[o], Selected(t.all.parts, sel, o), choice[o]);
      }
      if r.nodes != [] { LimitedNodes(t, r.nodes, choice); }
    } else {
      forall o | 0 <= o < |choice|
        ensures r.parts[o].id == t.all.parts[o].id
                && r.parts[o].cursor == t.all.parts[o].cursor
      {
        if o < r.at { assert AssignedPart(t.all.parts[o], r.parts[o], Selected(t.all.parts, sel, o), choice[o]); }
      }
    }
  }

  lemma FirstNodes(parts: seq<PartStatus>, begin: nat, sel: bool, choice: seq<Choice>)
    requires |parts| == |choice|
    ensures NodesUpTo(parts, [], begin, sel, choice, 0)
  {
  }

  /** The node entries of a successful assignment: each selected partition is held by the entry of its
      node and by no other, and the limits are spread. */
  ghost predicate NodesAssigned(t: Tracker, t': Tracker, choice: seq<Choice>)
    requires |choice| == |t.all.parts|
  {
    var sel := t.all.retry && t.iteration == 1;
    && t'.nodes != [] && Distinct(t'.nodes) && AllInRange(t'.nodes, t.all.begin, |choice|)
    && t' == t.(all := t'.all, nodes := t'.nodes, recordCount := 0, checkMax := 0 < t.maxRecords < |t'.nodes|)
    && t'.all.retry
    && (forall k :: 0 <= k < |t'.nodes| ==>
          && FreshNode(t'.nodes[k].(recordMax := 0))
          && (t.maxRecords == 0 ==> t'.nodes[k].recordMax == 0)
          && (t.maxRecords > 0 ==> t'.nodes[k].recordMax >= 1))
    && (!t'.checkMax && t.maxRecords > 0 ==> SumMax(t'.nodes) == t.maxRecords)
    && SelectedHeld(t.all.parts, t'.nodes, t.all.begin, sel, choice)
  }

  /** The partitions the entries hold are the selected ones, each in the entry of its node. */
  ghost predicate SelectedHeld(parts: seq<PartStatus>, nodes: seq<NodeParts>, begin: nat, sel: bool,
                               choice: seq<Choice>)
    requires |choice| == |parts|
  {
    && (forall k, o :: 0 <= k < |nodes| && 0 <= o < |choice| && Owns(nodes[k], begin + o) ==>
          Selected(parts, sel, o) && choice[o].node == Some(nodes[k].node))
    && (forall o :: 0 <= o < |choice| && Selected(parts, sel, o) ==> !Unowned(nodes, begin + o))
  }

  lemma HoldsOwns(before: seq<PartStatus>, np: NodeParts, begin: nat, sel: bool, choice: seq<Choice>)
    requires |before| == |choice| && Everywhere(choice) && HoldsUpTo(before, np, begin, sel, choice, |choice|)
    ensures NodeInRange(np, begin, |choice|)
    ensures forall o :: 0 <= o < |choice| ==>
              (Owns(np, begin + o) <==> Selected(before, sel, o) && choice[o].node == Some(np.node))
  {
    forall i | 0 <= i < |np.full| ensures begin <= np.full[i] < begin + |choice| { assert np.full[i] in np.full; }
    forall i | 0 <= i < |np.partial| ensures begin <= np.partial[i] < begin + |choice| {
      assert np.partial[i] in np.partial;
    }
    forall o | 0 <= o < |choice|
      ensures Owns(np, begin + o) <==> Selected(before, sel, o) && choice[o].node == Some(np.node)
    {
      assert begin + o - begin == o;
    }
  }

  lemma LimitedNodes(t: Tracker, nodes: seq<NodeParts>, choice: seq<Choice>)
    requires |choice| == |t.all.parts| && Everywhere(choice) && t.nodes == [] && nodes != []
    requires NodesUpTo(t.all.parts, nodes, t.all.begin, t.all.retry && t.iteration == 1, choice, |choice|)
    requires Assign(t, choice).0 == Ok && Assign(t, choice).1.nodes == Limited(nodes, t.maxRecords)
    ensures NodesAssigned(t, Assign(t, choice).1, choice)
  {
    var sel := t.all.retry && t.iteration == 1;
    var t' := Assign(t, choice).1;
    EntriesHold(t.all.parts, nodes, t'.nodes, t.all.begin, sel, choice);
    hide HoldsUpTo, AssignFrom, Limited, Share, SelectedHeld;
    if |nodes| <= t.maxRecords { ShareConserved(nodes, t.maxRecords); }
  }

  /** Limits apart, the entries hold the selected partitions. */
  lemma EntriesHold(parts: seq<PartStatus>, nodes: seq<NodeParts>, nodes': seq<NodeParts>, begin: nat, sel: bool,
                    choice: seq<Choice>)
    requires |choice| == |parts| && Everywhere(choice) && NodesUpTo(parts, nodes, begin, sel, choice, |choice|)
    requires |nodes'| == |nodes|
    requires forall k :: 0 <= k < |nodes| ==> nodes'[k] == nodes[k].(recordMax := nodes'[k].recordMax)
    ensures Distinct(nodes') && AllInRange(nodes', begin, |choice|) && SelectedHeld(parts, nodes', begin, sel, choice)
  {
    hide HoldsUpTo, FreshNode;
    forall k | 0 <= k < |nodes|
      ensures NodeInRange(nodes'[k], begin, |choice|)
      ensures forall o :: 0 <= o < |choice| ==>
                (Owns(nodes'[k], begin + o) <==> Selected(parts, sel, o) && choice[o].node == Some(nodes'[k].node))
    {
      HoldsOwns(parts, nodes[k], begin, sel, choice);
    }
    forall o | 0 <= o < |choice| && Selected(parts, sel, o) ensures !Unowned(nodes', begin + o) {
      assert Wanted(parts, sel, choice, o);
      var k :| 0 <= k < |nodes| && nodes[k].node == choice[o].node.value;
      assert Owns(nodes'[k], begin + o);
    }
  }

  /** A successful assignment starts a round in which the invariant holds. */
  lemma RoundStarts(w: World, s: Sys, t: Tracker, choice: seq<Choice>, mark: bool)
    requires Ready(w, s, t) && ChoiceOk(w, choice)
    requires Assign(t, choice).0 == Ok && |Assign(t, choice).1.all.parts| == |w.data|
    ensures Inv(w, StartRound(w, s, Assign(t, choice), mark))
  {
    hide Assign, Sorted, WorldOk, LogOk, FreshNode, SelectedHeld, PartsUpTo;
    var t' := Assign(t, choice).1;
    var s' := StartRound(w, s, Assign(t, choice), mark);
    AssignGives(t, choice);
    CursorsCarry(w, t.all, t'.all, s.log);
    NoThreadsYet(|t'.nodes|);
    SumCountZero(t'.nodes);
    RoundNodes(w, s', t, choice);
    assert Common(w, s') && InRound(w, s');
  }

  lemma RoundNodes(w: World, s': Sys, t: Tracker, choice: seq<Choice>)
    requires s'.active && Shaped(w, s') && |choice| == |w.data| == |t.all.parts|
             && s'.t.all.begin == w.begin == t.all.begin
    requires s'.sent == Requested(w, s'.t.all.parts) && s'.threads == NewThreads(|s'.t.nodes|)
    requires PartsUpTo(t.all.parts, s'.t.all.parts, t.all.retry && t.iteration == 1, choice, |choice|)
    requires NodesAssigned(t, s'.t, choice) && SameCursors(t.all, s'.t.all)
    requires t.iteration == 1 || t.maxRecords == 0 ==>
          forall o :: 0 <= o < |w.data| ==>
            Selected(t.all.parts, t.all.retry && t.iteration == 1, o) || Exhausted(w, t.all, o)
    ensures NodesOk(w, s') && OwnsOk(w, s') && FreeOk(w, s'.t)
  {
    var sel := t.all.retry && t.iteration == 1;
    forall k | 0 <= k < |s'.t.nodes| ensures NodeOk(w, s'.t, s'.t.nodes[k], s'.threads[k]) {
      assert FreshNode(s'.t.nodes[k].(recordMax := 0));
    }
    forall k, o | 0 <= k < |s'.t.nodes| && 0 <= o < |w.data| && Owns(s'.t.nodes[k], w.begin + o)
      ensures OwnOk(w, s'.t.all.parts[o], s'.sent[o], s'.t.nodes[k], s'.threads[k], o)
    {
      assert FreshNode(s'.t.nodes[k].(recordMax := 0));
      assert AssignedPart(t.all.parts[o], s'.t.all.parts[o], Selected(t.all.parts, sel, o), choice[o]);
    }
    if t.iteration == 1 || t.maxRecords == 0 {
      forall o | 0 <= o < |w.data| && Unowned(s'.t.nodes, w.begin + o) ensures Exhausted(w, s'.t.all, o) {
        assert Exhausted(w, t.all, o);
      }
    }
    forall o | 0 <= o < |w.data| && Unowned(s'.t.nodes, w.begin + o) ensures !s'.t.all.parts[o].retry {
      assert AssignedPart(t.all.parts[o], s'.t.all.parts[o], Selected(t.all.parts, sel, o), choice[o]);
    }
  }

  /** Ending a page with every partition marked is always safe. */
  lemma EndMarked(w: World, s: Sys, t: Tracker)
    requires WorldOk(w) && |t.all.parts| == |w.data| == |s.log| == |s.handed|
    requires t.all.begin == w.begin && IdsOk(t.all.parts, w.begin)
    requires forall o :: 0 <= o < |w.data| ==> LogOk(w, t.all, s.log, o)
    requires t.all.done ==> forall o :: 0 <= o < |w.data| ==> Exhausted(w, t.all, o)
    requires s.pageMax > 0 ==> Total(s.log) <= s.base + s.pageMax
    ensures Inv(w, EndPage(s, t, Failed(t.all)))
  {
    hide Sorted, WorldOk;
    var s' := EndPage(s, t, Failed(t.all));
    forall o | 0 <= o < |w.data| ensures LogOk(w, s'.t.all, s'.log, o) { assert LogOk(w, t.all, s.log, o); }
    forall o | 0 <= o < |w.data| ensures s'.t.all.done ==> Exhausted(w, s'.t.all, o) {
      if t.all.done { assert Exhausted(w, t.all, o); }
    }
  }

  /** Whatever the assignment returns, the page goes on or ends with every partition marked. */
  lemma RoundOrMarked(w: World, s: Sys, t: Tracker, choice: seq<Choice>)
    requires Ready(w, s, t) && ChoiceOk(w, choice)
    requires |Assign(t, choice).1.all.parts| == |w.data|
    requires s.pageMax > 0 ==> Total(s.log) <= s.base + s.pageMax
    ensures Inv(w, StartRound(w, s, Assign(t, choice), true))
  {
    if Assign(t, choice).0 == Ok {
      RoundStarts(w, s, t, choice, true);
    } else {
      AssignGives(t, choice);
      CursorsCarry(w, t.all, Assign(t, choice).1.all, s.log);
      EndMarked(w, s, Assign(t, choice).1);
    }
  }

  /** A page starts on partitions reset but otherwise as the last page left them. */
  lemma ResumeReady(w: World, s: Sys, max: nat, maxRetries: nat)
    requires Inv(w, s) && !s.active
    ensures Ready(w, s.(base := Total(s.log), pageMax := max, handedBase := Total(s.handed)),
                  Resume(s.t.all, max, maxRetries))
  {
    hide Sorted, WorldOk;
    var t := Resume(s.t.all, max, maxRetries);
    assert SameCursors(s.t.all, t.all);
    CursorsCarry(w, s.t.all, t.all, s.log);
    forall o | 0 <= o < |w.data|
      ensures Selected(t.all.parts, t.all.retry && t.iteration == 1, o)
              || Exhausted(w, t.all, o)
    {
      if !t.all.retry {
        assert s.t.all.parts[o].retry || Exhausted(w, s.t.all, o);
        assert t.all.parts[o].retry == s.t.all.parts[o].retry;
      }
    }
  }

  lemma SyncPageKeeps(w: World, s: Sys, max: nat, maxRetries: nat, choice: seq<Choice>)
    requires Inv(w, s) && Enabled(w, s, BeginPage(max, maxRetries, choice, true))
    ensures Inv(w, Apply(w, s, BeginPage(max, maxRetries, choice, true)))
  {
    ResumeReady(w, s, max, maxRetries);
    AssignKeepsLength(Resume(s.t.all, max, maxRetries), choice);
    hide Inv, Ready, Assign, Resume, StartRound;
    RoundOrMarked(w, s.(base := Total(s.log), pageMax := max, handedBase := Total(s.handed)),
                  Resume(s.t.all, max, maxRetries), choice);
  }

  lemma StopKeeps(w: World, s: Sys)
    requires Inv(w, s) && Enabled(w, s, Stop)
    ensures Inv(w, Apply(w, s, Stop))
  {
    EndMarked(w, s, s.t);
  }
}
