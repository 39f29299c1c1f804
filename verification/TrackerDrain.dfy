/** What an asynchronous start that finds no node costs.  After an unsafe one some continuation reports `done` with
records missing; a start is safe exactly if none does.  And the condition the client itself can check. */
module TrackerDrain {
  import opened Prelude
  import opened PartitionTracker
  import opened TrackerAssign
  import opened TrackerSystem
  import opened TrackerInvariant
  import opened TrackerRounds
  import opened TrackerPages

  // ---------- continuations ----------

  /** Some run without unsafe starts leads from s to s'. */
  ghost predicate Reaches(w: World, s: Sys, s': Sys)
  {
    exists events :: Valid(w, s, events) && CarefulRun(w, s, events) && Run(w, s, events) == s'
  }

  lemma ReachesSelf(w: World, s: Sys)
    ensures Reaches(w, s, s)
  {
    assert Valid(w, s, []) && CarefulRun(w, s, []) && Run(w, s, []) == s;
  }

  lemma {:induction false} ExtendCareful(w: World, s: Sys, events: seq<Event>, e: Event)
    requires Valid(w, s, events) && CarefulRun(w, s, events)
    requires Enabled(w, Run(w, s, events), e) && Careful(w, Run(w, s, events), e)
    ensures Valid(w, s, events + [e]) && CarefulRun(w, s, events + [e])
    ensures Run(w, s, events + [e]) == Apply(w, Run(w, s, events), e)
    decreases |events|
  {
    hide Enabled, Apply, Careful;
    Extend(w, s, events, e);
    if events == [] {
      assert events + [e] == [e];
      assert [e][1..] == [];
      assert CarefulRun(w, Apply(w, s, e), []);
    } else {
      ExtendCareful(w, Apply(w, s, events[0]), events[1..], e);
      assert (events + [e])[1..] == events[1..] + [e];
    }
  }

  lemma ReachesStep(w: World, s: Sys, s1: Sys, e: Event)
    requires Reaches(w, s, s1) && Enabled(w, s1, e) && Careful(w, s1, e)
    ensures Reaches(w, s, Apply(w, s1, e))
  {
    hide Enabled, Apply, Careful, Valid, CarefulRun, Run;
    var events :| Valid(w, s, events) && CarefulRun(w, s, events) && Run(w, s, events) == s1;
    ExtendCareful(w, s, events, e);
  }

  // ---------- a page on one node that reads everything marked ----------

  /** Between pages, with only marked partitions to be read. */
  ghost predicate Marks(w: World, s: Sys)
  {
    && WorldOk(w) && !s.active && Shaped(w, s) && !s.t.all.retry
    && s.t.all.begin == w.begin && IdsOk(s.t.all.parts, w.begin)
  }

  function AllToOne(n: nat): (c: seq<Choice>)
    ensures |c| == n && forall o :: 0 <= o < n ==> c[o] == Choice(Some(7), 0, false)
  {
    seq(n, _ => Choice(Some(7), 0, false))
  }

  /** Records the server still has to send for the partitions below i that np holds. */
  ghost function Left(w: World, np: NodeParts, sent: seq<nat>, i: nat): nat
    requires i <= |w.data| == |sent|
  {
    if i == 0 then 0
    else
      Left(w, np, sent, i - 1)
      + if Owns(np, w.begin + i - 1) && sent[i - 1] < |w.data[i - 1]| then |w.data[i - 1]| - sent[i - 1] else 0
  }

  lemma {:induction false} LeftSent(w: World, np: NodeParts, sent: seq<nat>, o: nat, i: nat)
    requires i <= |w.data| == |sent| && o < |w.data| && Owns(np, w.begin + o) && sent[o] < |w.data[o]|
    ensures Left(w, np, sent[o := sent[o] + 1], i) == Left(w, np, sent, i) - if o < i then 1 else 0
  {
    if i > 0 { LeftSent(w, np, sent, o, i - 1); }
  }

  lemma {:induction false} LeftZero(w: World, np: NodeParts, sent: seq<nat>, i: nat)
    requires i <= |w.data| == |sent|
    ensures Left(w, np, sent, i) == 0 <==>
            forall o :: 0 <= o < i && Owns(np, w.begin + o) ==> sent[o] >= |w.data[o]|
  {
    if i > 0 { LeftZero(w, np, sent, i - 1); }
  }

  lemma {:induction false} LeftSame(w: World, np: NodeParts, np': NodeParts, sent: seq<nat>, i: nat)
    requires i <= |w.data| == |sent| && np'.full == np.full && np'.partial == np.partial
    ensures Left(w, np', sent, i) == Left(w, np, sent, i)
  {
    if i > 0 { LeftSame(w, np, np', sent, i - 1); }
  }

  /** The page is under way: one node holds exactly the partitions marked in s0, and nothing else changed. */
  ghost predicate Solo(w: World, s0: Sys, s: Sys, max: nat, run: Progress)
    requires Marks(w, s0)
  {
    && Shaped(w, s) && s.active && |s.t.nodes| == 1
    && s.threads == [Thread(run, None, s.t.nodes[0].recordCount)]
    && !s.t.nodes[0].retry && s.t.nodes[0].unavailable == 0 && s.t.nodes[0].recordMax == max > 0
    && s.t.maxRecords == max && !s.t.checkMax && s.t.iteration == 1
    && s.t.all.begin == w.begin && IdsOk(s.t.all.parts, w.begin)
    && s.t.nodes[0].recordCount + Left(w, s.t.nodes[0], s.sent, |w.data|) < max
    && forall o :: 0 <= o < |w.data| ==> SoloPart(w, s0, s, o)
  }

  ghost predicate SoloPart(w: World, s0: Sys, s: Sys, o: nat)
    requires Shaped(w, s0) && Shaped(w, s) && s.active && |s.t.nodes| == 1 && o < |w.data|
  {
    && (Owns(s.t.nodes[0], w.begin + o) <==> s0.t.all.parts[o].retry)
    && !s.t.all.parts[o].retry
    && (Owns(s.t.nodes[0], w.begin + o) ==> s.sent[o] == At(w, s.t.all, o))
    && (!Owns(s.t.nodes[0], w.begin + o) ==>
          s.t.all.parts[o].cursor == s0.t.all.parts[o].cursor && s.log[o] == s0.log[o])
  }

  /** All partitions that chose one node are in one entry. */
  lemma OneEntry(t: Tracker, t': Tracker, choice: seq<Choice>)
    requires |choice| == |t.all.parts| && choice == AllToOne(|choice|) && NodesAssigned(t, t', choice)
    ensures |t'.nodes| == 1
  {
    if |t'.nodes| > 1 {
      var k := TwoDiffer(t'.nodes, 7);
      EntryNode(t, t', choice, k);
    }
  }

  lemma TwoDiffer(nodes: seq<NodeParts>, node: nat) returns (k: nat)
    requires Distinct(nodes) && |nodes| > 1
    ensures k < |nodes| && nodes[k].node != node
  {
    k := if nodes[0].node != node then 0 else 1;
  }

  lemma EntryNode(t: Tracker, t': Tracker, choice: seq<Choice>, k: nat)
    requires |choice| == |t.all.parts| && choice == AllToOne(|choice|) && NodesAssigned(t, t', choice) && k < |t'.nodes|
    ensures t'.nodes[k].node == 7
  {
    var np := t'.nodes[k];
    assert FreshNode(np.(recordMax := 0)) && NodeInRange(np, t.all.begin, |choice|);
    var id := if |np.full| > 0 then np.full[0] else np.partial[0];
    var o: nat := id - t.all.begin;
    assert Owns(t'.nodes[k], t.all.begin + o) && choice[o] == Choice(Some(7), 0, false);
  }

  lemma BeginSolo(w: World, s0: Sys, m: nat) returns (max: nat, s: Sys)
    requires Marks(w, s0) && m < |w.data| && s0.t.all.parts[m].retry
    ensures max > 0 && Solo(w, s0, s, max, Running) && Reaches(w, s0, s)
    ensures s.t.nodes[0].recordCount == 0 && s.sent == Requested(w, s0.t.all.parts)
  {
    var choice := AllToOne(|w.data|);
    var sent := Requested(w, s0.t.all.parts);
    max := 1 + LeftBound(w, |w.data|);
    var e := BeginPage(max, 0, choice, true);
    s := Apply(w, s0, e);
    BeginFacts(w, s0, m, max);
    forall np: NodeParts ensures Left(w, np, sent, |w.data|) <= LeftBound(w, |w.data|) {
      LeftBounded(w, np, sent, |w.data|);
    }
    ReachesSelf(w, s0);
    ReachesStep(w, s0, s0, e);
  }

  ghost function LeftBound(w: World, i: nat): nat
    requires i <= |w.data|
  {
    if i == 0 then 0 else LeftBound(w, i - 1) + |w.data[i - 1]|
  }

  lemma {:induction false} LeftBounded(w: World, np: NodeParts, sent: seq<nat>, i: nat)
    requires i <= |w.data| == |sent|
    ensures Left(w, np, sent, i) <= LeftBound(w, i)
  {
    if i > 0 { LeftBounded(w, np, sent, i - 1); }
  }

  lemma BeginFacts(w: World, s0: Sys, m: nat, max: nat)
    requires Marks(w, s0) && m < |w.data| && s0.t.all.parts[m].retry && max > 0
    ensures var s := Apply(w, s0, BeginPage(max, 0, AllToOne(|w.data|), true));
            && Shaped(w, s) && s.active && |s.t.nodes| == 1 && s.threads == [Thread(Running, None, 0)]
            && s.t.nodes[0] == s.t.nodes[0].(recordCount := 0, retry := false, unavailable := 0, recordMax := max)
            && s.t.maxRecords == max && !s.t.checkMax && s.t.iteration == 1
            && s.t.all.begin == w.begin && IdsOk(s.t.all.parts, w.begin)
            && s.sent == Requested(w, s0.t.all.parts)
            && forall o :: 0 <= o < |w.data| ==> SoloPart(w, s0, s, o)
  {
    hide AssignFrom, Limited, Share;
    var choice := AllToOne(|w.data|);
    var t := Resume(s0.t.all, max, 0);
    var t' := Assign(t, choice).1;
    AssignGives(t, choice);
    AllFound(t, choice, m);
    OneEntry(t, t', choice);
    var s := Apply(w, s0, BeginPage(max, 0, choice, true));
    assert s.t == t' && s.sent == Requested(w, t'.all.parts);
    assert SumMax(t'.nodes) == t'.nodes[0].recordMax by { assert t'.nodes[..0] == []; }
    hide Assign, Sorted, WorldOk;
    forall o | 0 <= o < |w.data| ensures SoloPart(w, s0, s, o) {
      MarkedHeld(t, t', choice, o);
      assert t.all.parts[o].retry == s0.t.all.parts[o].retry && t.all.parts[o].cursor == s0.t.all.parts[o].cursor;
    }
    assert s.sent == Requested(w, s0.t.all.parts);
    assert FreshNode(t'.nodes[0].(recordMax := 0));
  }

  /** In a page that reads marked partitions only, exactly those are held, and no mark is left. */
  lemma MarkedHeld(t: Tracker, t': Tracker, choice: seq<Choice>, o: nat)
    requires |choice| == |t.all.parts| && NodesAssigned(t, t', choice) && |t'.nodes| == 1 && o < |choice|
    requires !(t.all.retry && t.iteration == 1)
    requires PartsUpTo(t.all.parts, t'.all.parts, t.all.retry && t.iteration == 1, choice, |choice|)
    ensures Owns(t'.nodes[0], t.all.begin + o) <==> t.all.parts[o].retry
    ensures !t'.all.parts[o].retry && t'.all.parts[o].cursor == t.all.parts[o].cursor
  {
    var sel := t.all.retry && t.iteration == 1;
    assert AssignedPart(t.all.parts[o], t'.all.parts[o], Selected(t.all.parts, sel, o), choice[o]);
    assert Selected(t.all.parts, sel, o) ==> !Unowned(t'.nodes, t.all.begin + o);
    assert Owns(t'.nodes[0], t.all.begin + o) ==> Selected(t.all.parts, sel, o);
  }

  /** With a node for everything the assignment of a marked partition succeeds. */
  lemma {:induction false} AllFound(t: Tracker, choice: seq<Choice>, m: nat)
    requires |choice| == |t.all.parts| && t.nodes == [] && IdsOk(t.all.parts, t.all.begin)
             && choice == AllToOne(|choice|)
    requires !(t.all.retry && t.iteration == 1) && m < |choice| && t.all.parts[m].retry
    ensures Assign(t, choice).0 == Ok
  {
    hide NodesUpTo, HoldsUpTo;
    FirstNodes(t.all.parts, t.all.begin, false, choice);
    AssignLoop(t.all.parts, t.all.parts, [], t.all.begin, false, choice, 0);
    var r := AssignFrom(t.all.parts, [], false, choice, 0);
    SomeNode(t.all.parts, r, t.all.begin, choice, m);
  }

  /** One more record: it arrives and the callback keeps it. */
  lemma ReadOne(w: World, s0: Sys, s: Sys, max: nat, o: nat) returns (s2: Sys)
    requires Marks(w, s0) && Solo(w, s0, s, max, Running) && Reaches(w, s0, s)
    requires o < |w.data| && Owns(s.t.nodes[0], w.begin + o) && s.sent[o] < |w.data[o]|
    ensures Solo(w, s0, s2, max, Running) && Reaches(w, s0, s2)
    ensures Left(w, s2.t.nodes[0], s2.sent, |w.data|) == Left(w, s.t.nodes[0], s.sent, |w.data|) - 1
  {
    hide Apply, Enabled, Reaches, SoloPart, Left, WorldOk;
    var d := w.data[o][s.sent[o]];
    ReadOneSteps(w, s0, s, max, o);
    var s1 := Apply(w, s, Arrive(0, o));
    ReachesStep(w, s0, s, Arrive(0, o));
    ReachesStep(w, s0, s1, Hand(0, true));
    s2 := Apply(w, s1, Hand(0, true));
    LeftSent(w, s.t.nodes[0], s.sent, o, |w.data|);
    LeftSame(w, s.t.nodes[0], s2.t.nodes[0], s2.sent, |w.data|);
    ReadOneSolo(w, s0, s, s2, max, o, d);
  }

  lemma ReadOneSteps(w: World, s0: Sys, s: Sys, max: nat, o: nat)
    requires Marks(w, s0) && Solo(w, s0, s, max, Running)
    requires o < |w.data| && Owns(s.t.nodes[0], w.begin + o) && s.sent[o] < |w.data[o]|
    ensures Enabled(w, s, Arrive(0, o)) && Enabled(w, Apply(w, s, Arrive(0, o)), Hand(0, true))
    ensures var d := w.data[o][s.sent[o]];
            var s2 := Apply(w, Apply(w, s, Arrive(0, o)), Hand(0, true));
            && Pos(w.data[o], Some(d)) == s.sent[o] + 1
            && s2 == s.(t := SetDigest(s.t, 0, o, d), threads := [Thread(Running, None, s.t.nodes[0].recordCount + 1)],
                        sent := s.sent[o := s.sent[o] + 1], log := s.log[o := s.log[o] + [d]], handed := s2.handed)
            && |s2.handed| == |s.handed|
  {
    var d := w.data[o][s.sent[o]];
    assert OffsetOf(w, d) == o && Sorted(w.data[o]);
    ResumeAfter(w.data[o], s.sent[o]);
    hide WorldOk, Left, SoloPart, IdsOk;
    var s1 := Apply(w, s, Arrive(0, o));
    assert s1 == s.(sent := s.sent[o := s.sent[o] + 1],
                    threads := [Thread(Running, Some(d), s.t.nodes[0].recordCount + 1)]);
  }

  lemma ReadOneSolo(w: World, s0: Sys, s: Sys, s2: Sys, max: nat, o: nat, d: Digest)
    requires Marks(w, s0) && Solo(w, s0, s, max, Running)
    requires o < |w.data| && Owns(s.t.nodes[0], w.begin + o) && s.sent[o] < |w.data[o]|
    requires s2.active && s2.t == SetDigest(s.t, 0, o, d) && Pos(w.data[o], Some(d)) == s.sent[o] + 1
    requires s2.threads == [Thread(Running, None, s.t.nodes[0].recordCount + 1)]
             && s2.sent == s.sent[o := s.sent[o] + 1]
    requires |s2.handed| == |s.handed| && s2.log == s.log[o := s.log[o] + [d]]
    requires Left(w, s2.t.nodes[0], s2.sent, |w.data|) == Left(w, s.t.nodes[0], s.sent, |w.data|) - 1
    ensures Solo(w, s0, s2, max, Running)
  {
    hide WorldOk, Left;
    forall p | 0 <= p < |w.data| ensures SoloPart(w, s0, s2, p) { assert SoloPart(w, s0, s, p); }
  }

  /** Everything marked is read. */
  lemma {:induction false} ReadAll(w: World, s0: Sys, s: Sys, max: nat) returns (s2: Sys)
    requires Marks(w, s0) && Solo(w, s0, s, max, Running) && Reaches(w, s0, s)
    ensures Solo(w, s0, s2, max, Running) && Reaches(w, s0, s2)
    ensures forall o :: 0 <= o < |w.data| && s0.t.all.parts[o].retry ==> Exhausted(w, s2.t.all, o)
    ensures Left(w, s2.t.nodes[0], s2.sent, |w.data|) == 0
    ensures Left(w, s.t.nodes[0], s.sent, |w.data|) == 0 ==> s2 == s
    decreases Left(w, s.t.nodes[0], s.sent, |w.data|)
  {
    LeftZero(w, s.t.nodes[0], s.sent, |w.data|);
    if Left(w, s.t.nodes[0], s.sent, |w.data|) == 0 {
      s2 := s;
      forall o | 0 <= o < |w.data| && s0.t.all.parts[o].retry ensures Exhausted(w, s2.t.all, o) {
        assert SoloPart(w, s0, s, o);
      }
    } else {
      var o :| 0 <= o < |w.data| && Owns(s.t.nodes[0], w.begin + o) && s.sent[o] < |w.data[o]|;
      var s1 := ReadOne(w, s0, s, max, o);
      s2 := ReadAll(w, s0, s1, max);
    }
  }

  // ---------- the end of that page ----------

  lemma EndSolo(w: World, s0: Sys, s: Sys, max: nat)
    requires Marks(w, s0) && Solo(w, s0, s, max, Running) && Left(w, s.t.nodes[0], s.sent, |w.data|) == 0
    ensures Enabled(w, s, Finish(0)) && Enabled(w, Apply(w, s, Finish(0)), Complete(false, AllToOne(|w.data|)))
  {
    LeftZero(w, s.t.nodes[0], s.sent, |w.data|);
    forall o | 0 <= o < |w.data| && Owns(s.t.nodes[0], w.begin + o) ensures s.sent[o] == |w.data[o]| {
      assert SoloPart(w, s0, s, o);
    }
    hide Left, SoloPart, WorldOk;
    var s1 := Apply(w, s, Finish(0));
    assert s1.threads == [Thread(Finished, None, s.t.nodes[0].recordCount)];
    assert !SomeDead(s1);
  }

  /** The table after the page: nothing else changed, and either all is done or the same partitions are marked again. */
  ghost predicate PageDone(w: World, s0: Sys, s: Sys, s2: Sys)
    requires Marks(w, s0) && Shaped(w, s) && s.active && |s.t.nodes| == 1
  {
    && Marks(w, s2)
    && s2.log == s.log && s2.handed == s.handed
    && (forall o :: 0 <= o < |w.data| ==> s2.t.all.parts[o].cursor == s.t.all.parts[o].cursor)
    && (s2.t.all.done <==> w.partitionQuery || s.t.nodes[0].recordCount == 0)
    && (!s2.t.all.done ==> forall o :: 0 <= o < |w.data| ==> s2.t.all.parts[o].retry == s0.t.all.parts[o].retry)
  }

  lemma PageEnds(w: World, s0: Sys, s: Sys, max: nat)
    requires Marks(w, s0) && Solo(w, s0, s, max, Finished) && Enabled(w, s, Complete(false, AllToOne(|w.data|)))
    ensures PageDone(w, s0, s, Apply(w, s, Complete(false, AllToOne(|w.data|))))
  {
    var np := s.t.nodes[0];
    var pq := w.partitionQuery;
    assert s.t.nodes == [np];
    OneNodeSums(np, pq);
    var t' := IsComplete(s.t, pq, false).1;
    var s2 := Apply(w, s, Complete(false, AllToOne(|w.data|)));
    hide MarkMore, AnyMore, SumCount, SumUnavailable, WorldOk, Left;
    forall o | 0 <= o < |w.data|
      ensures t'.all.parts[o]
              == s.t.all.parts[o].(retry := t'.all.parts[o].retry, replicaIndex := t'.all.parts[o].replicaIndex)
      ensures t'.all.parts[o].retry <==> MayHaveMore(np, pq) && s0.t.all.parts[o].retry
    {
      assert SoloPart(w, s0, s, o);
      MarkMoreAt(s.t.all.parts, w.begin, s.t.nodes, pq, o);
      if MayHaveMore(np, pq) && Owns(np, w.begin + o) { assert MoreFor(s.t.nodes, pq, w.begin + o); }
    }
  }

  /** A whole page: what was marked is read to its end, what was not is as before. */
  lemma DrainPage(w: World, s0: Sys, m: nat) returns (s2: Sys)
    requires Marks(w, s0) && m < |w.data| && s0.t.all.parts[m].retry
    ensures Reaches(w, s0, s2) && Marks(w, s2)
    ensures forall o :: 0 <= o < |w.data| && s0.t.all.parts[o].retry ==> Exhausted(w, s2.t.all, o)
    ensures forall o :: 0 <= o < |w.data| && !s0.t.all.parts[o].retry ==> s2.log[o] == s0.log[o]
    ensures s2.t.all.done || forall o :: 0 <= o < |w.data| ==> s2.t.all.parts[o].retry == s0.t.all.parts[o].retry
    ensures (forall o :: 0 <= o < |w.data| && s0.t.all.parts[o].retry ==> Exhausted(w, s0.t.all, o)) ==> s2.t.all.done
  {
    var max, s := BeginSolo(w, s0, m);
    var r := ReadAll(w, s0, s, max);
    EndSolo(w, s0, r, max);
    ReachesStep(w, s0, r, Finish(0));
    var f := Apply(w, r, Finish(0));
    FinishSolo(w, s0, r, f, max);
    var e := Complete(false, AllToOne(|w.data|));
    ReachesStep(w, s0, f, e);
    PageEnds(w, s0, f, max);
    s2 := Apply(w, f, e);
    PageFacts(w, s0, r, f, s2);
    if forall o :: 0 <= o < |w.data| && s0.t.all.parts[o].retry ==> Exhausted(w, s0.t.all, o) {
      NothingLeft(w, s0, s, max);
    }
  }

  lemma FinishSolo(w: World, s0: Sys, r: Sys, f: Sys, max: nat)
    requires Marks(w, s0) && Solo(w, s0, r, max, Running)
    requires f == r.(threads := [Thread(Finished, None, r.t.nodes[0].recordCount)])
    ensures Solo(w, s0, f, max, Finished)
  {
    hide WorldOk, Left;
    forall o | 0 <= o < |w.data| ensures SoloPart(w, s0, f, o) { assert SoloPart(w, s0, r, o); }
  }

  lemma PageFacts(w: World, s0: Sys, r: Sys, f: Sys, s2: Sys)
    requires Marks(w, s0) && Shaped(w, r) && Shaped(w, f) && r.active && f.active && |r.t.nodes| == |f.t.nodes| == 1
    requires f.t == r.t && f.log == r.log && PageDone(w, s0, f, s2)
    requires forall o :: 0 <= o < |w.data| ==> SoloPart(w, s0, r, o)
    requires forall o :: 0 <= o < |w.data| && s0.t.all.parts[o].retry ==> Exhausted(w, r.t.all, o)
    ensures forall o :: 0 <= o < |w.data| && s0.t.all.parts[o].retry ==> Exhausted(w, s2.t.all, o)
    ensures forall o :: 0 <= o < |w.data| && !s0.t.all.parts[o].retry ==> s2.log[o] == s0.log[o]
  {
    hide WorldOk;
    forall o | 0 <= o < |w.data|
      ensures s0.t.all.parts[o].retry ==> Exhausted(w, s2.t.all, o)
      ensures !s0.t.all.parts[o].retry ==> s2.log[o] == s0.log[o]
    {
      assert SoloPart(w, s0, r, o);
      if s0.t.all.parts[o].retry { assert Exhausted(w, r.t.all, o); }
    }
  }

  lemma NothingLeft(w: World, s0: Sys, s: Sys, max: nat)
    requires Marks(w, s0) && Solo(w, s0, s, max, Running) && s.sent == Requested(w, s0.t.all.parts)
    requires forall o :: 0 <= o < |w.data| && s0.t.all.parts[o].retry ==> Exhausted(w, s0.t.all, o)
    ensures Left(w, s.t.nodes[0], s.sent, |w.data|) == 0
  {
    LeftZero(w, s.t.nodes[0], s.sent, |w.data|);
    forall o | 0 <= o < |w.data| && Owns(s.t.nodes[0], w.begin + o) ensures s.sent[o] >= |w.data[o]| {
      assert SoloPart(w, s0, s, o);
      assert Exhausted(w, s0.t.all, o);
    }
  }

  // ---------- an unsafe start loses records ----------

  lemma {:induction false} Compose(w: World, s: Sys, a: seq<Event>, b: seq<Event>)
    requires Valid(w, s, a) && CarefulRun(w, s, a)
    requires Valid(w, Run(w, s, a), b) && CarefulRun(w, Run(w, s, a), b)
    ensures Valid(w, s, a + b) && CarefulRun(w, s, a + b) && Run(w, s, a + b) == Run(w, Run(w, s, a), b)
    decreases |a|
  {
    hide Enabled, Apply, Careful;
    if a == [] {
      assert a + b == b;
    } else {
      Compose(w, Apply(w, s, a[0]), a[1..], b);
      assert (a + b)[1..] == a[1..] + b;
    }
  }

  lemma ReachesTrans(w: World, s: Sys, s1: Sys, s2: Sys)
    requires Reaches(w, s, s1) && Reaches(w, s1, s2)
    ensures Reaches(w, s, s2)
  {
    hide Valid, CarefulRun, Run;
    var a :| Valid(w, s, a) && CarefulRun(w, s, a) && Run(w, s, a) == s1;
    var b :| Valid(w, s1, b) && CarefulRun(w, s1, b) && Run(w, s1, b) == s2;
    Compose(w, s, a, b);
  }

  /** Every record after the filter's start was kept by the application. */
  ghost predicate AllDelivered(w: World, s: Sys)
  {
    |s.log| == |w.data| && forall o :: 0 <= o < |w.data| ==> s.log[o] == w.data[o][Start(w, o)..]
  }

  /** From a state with marks, pages with a limit reach `done` without reading the unmarked partitions. */
  lemma ReachDone(w: World, s0: Sys, m: nat) returns (s2: Sys)
    requires Marks(w, s0) && m < |w.data| && s0.t.all.parts[m].retry
    ensures Reaches(w, s0, s2) && s2.t.all.done && |s2.log| == |w.data|
    ensures forall o :: 0 <= o < |w.data| && !s0.t.all.parts[o].retry ==> s2.log[o] == s0.log[o]
  {
    hide Reaches, WorldOk;
    s2 := DrainPage(w, s0, m);
    if !s2.t.all.done {
      var s1 := s2;
      s2 := DrainPage(w, s1, m);
      ReachesTrans(w, s0, s1, s2);
    }
  }

  /** After an unsafe start some run reports `done` although a record was never delivered. */
  lemma UnsafeStartLoses(w: World, s: Sys, max: nat, maxRetries: nat, choice: seq<Choice>) returns (s2: Sys)
    requires Inv(w, s) && Enabled(w, s, BeginPage(max, maxRetries, choice, false))
    requires Assign(Resume(s.t.all, max, maxRetries), choice).0 != Ok && !SafeStart(w, s.t.all, max, choice)
    ensures Reaches(w, Apply(w, s, BeginPage(max, maxRetries, choice, false)), s2)
    ensures s2.t.all.done && !AllDelivered(w, s2)
  {
    var s' := Apply(w, s, BeginPage(max, maxRetries, choice, false));
    var o := UnsafeTable(w, s, max, maxRetries, choice);
    var n := FirstNodeless(s.t.all.parts, choice, 0);
    UnsafeMarks(w, s, s');
    assert LogOk(w, s.t.all, s.log, o);
    s2 := ReachDone(w, s', n);
    assert |s2.log[o]| < |w.data[o][Start(w, o)..]|;
  }

  lemma UnsafeMarks(w: World, s: Sys, s': Sys)
    requires Inv(w, s) && !s'.active && SameCursors(s.t.all, s'.t.all) && !s'.t.all.retry
    requires s'.log == s.log && s'.handed == s.handed
    ensures Marks(w, s')
  {
    hide WorldOk;
  }

  /** A start that fails is safe exactly if no continuation reports `done` with a record missing. */
  lemma StartSafeIff(w: World, s: Sys, max: nat, maxRetries: nat, choice: seq<Choice>)
    requires Inv(w, s) && Enabled(w, s, BeginPage(max, maxRetries, choice, false))
    requires Assign(Resume(s.t.all, max, maxRetries), choice).0 != Ok
    ensures var s' := Apply(w, s, BeginPage(max, maxRetries, choice, false));
            SafeStart(w, s.t.all, max, choice)
            <==> forall s2 :: Reaches(w, s', s2) && s2.t.all.done ==> AllDelivered(w, s2)
  {
    var s' := Apply(w, s, BeginPage(max, maxRetries, choice, false));
    if SafeStart(w, s.t.all, max, choice) {
      AsyncStartExact(w, s, max, maxRetries, choice);
      hide SafeStart, Apply, Inv, Reaches, Enabled;
      forall s2 | Reaches(w, s', s2) && s2.t.all.done ensures AllDelivered(w, s2) { DoneDelivered(w, s', s2); }
    } else {
      var s2 := UnsafeStartLoses(w, s, max, maxRetries, choice);
    }
  }

  lemma DoneDelivered(w: World, s: Sys, s2: Sys)
    requires Inv(w, s) && Reaches(w, s, s2) && s2.t.all.done
    ensures AllDelivered(w, s2)
  {
    assert Inv(w, s2) by {
      hide Inv, Valid, CarefulRun, Run;
      var events :| Valid(w, s, events) && CarefulRun(w, s, events) && Run(w, s, events) == s2;
      RunKeeps(w, s, events);
    }
    hide Reaches, Sorted, WorldOk;
    forall o | 0 <= o < |w.data| ensures s2.log[o] == w.data[o][Start(w, o)..] {
      assert LogOk(w, s2.t.all, s2.log, o) && Exhausted(w, s2.t.all, o);
    }
  }

  // ---------- the condition a client can check ----------

  /** Nothing about the server: all partitions will be retried anyway, or no marked partition comes before the first one
      without a node. */
  predicate KnownSafe(all: Parts, max: nat, choice: seq<Choice>)
    requires |choice| == |all.parts|
  {
    all.retry || max == 0 || forall o :: 0 <= o < FirstNodeless(all.parts, choice, 0) ==> !all.parts[o].retry
  }

  /** One more record at the end of partition o. */
  function Longer(w: World, o: nat, d: Digest): World
    requires o < |w.data|
  {
    w.(data := w.data[o := w.data[o] + [d]])
  }

  lemma PosLonger(s: seq<Digest>, d: Digest, cursor: Option<Digest>)
    requires cursor.Some? ==> cursor.value.rank < d.rank
    ensures Pos(s + [d], cursor) == Pos(s, cursor)
  {
    assert (s + [d])[..|s|] == s;
  }

  function RankOf(c: Option<Digest>): nat { if c.Some? then c.value.rank else 0 }

  /** A digest of partition o that comes after its records, its cursor and the filter's start. */
  lemma LaterDigest(w: World, all: Parts, o: nat) returns (d: Digest)
    requires WorldOk(w) && o < |w.data| == |all.parts|
    ensures OffsetOf(w, d) == o && RankOf(all.parts[o].cursor) < d.rank && RankOf(w.after) < d.rank
    ensures forall i :: 0 <= i < |w.data[o]| ==> w.data[o][i].rank < d.rank
  {
    hide PartitionId;
    assert Addressable(w, o) && Sorted(w.data[o]);
    hide WorldOk;
    var d0 :| OffsetOf(w, d0) == o;
    var last := if w.data[o] == [] then 0 else w.data[o][|w.data[o]| - 1].rank;
    d := d0.(rank := last + RankOf(all.parts[o].cursor) + RankOf(w.after) + 1);
    SamePrefix(w, d0, d);
  }

  lemma SamePrefix(w: World, d: Digest, e: Digest)
    requires d.prefix == e.prefix
    ensures OffsetOf(w, d) == OffsetOf(w, e)
  {
  }

  lemma LongerOk(w: World, o: nat, d: Digest)
    requires WorldOk(w) && o < |w.data| && OffsetOf(w, d) == o
    requires forall i :: 0 <= i < |w.data[o]| ==> w.data[o][i].rank < d.rank
    ensures WorldOk(Longer(w, o, d))
  {
    var w' := Longer(w, o, d);
    assert forall x :: OffsetOf(w', x) == OffsetOf(w, x);
    forall p | 0 <= p < |w.data| ensures Sorted(w'.data[p]) && Addressable(w', p) {
      assert Sorted(w.data[p]) && Addressable(w, p);
      var x :| OffsetOf(w, x) == p;
      assert OffsetOf(w', x) == p;
    }
  }

  /** The same table and log belong to the longer world too. */
  lemma LongerInv(w: World, s: Sys, o: nat, d: Digest)
    requires Inv(w, s) && !s.active && !s.t.all.retry && o < |w.data| && s.t.all.parts[o].retry && OffsetOf(w, d) == o
    requires RankOf(s.t.all.parts[o].cursor) < d.rank && RankOf(w.after) < d.rank
    requires forall i :: 0 <= i < |w.data[o]| ==> w.data[o][i].rank < d.rank
    ensures Inv(Longer(w, o, d), s)
  {
    hide WorldOk, Sorted, LogOk, At, Exhausted;
    var w' := Longer(w, o, d);
    LongerOk(w, o, d);
    assert |w'.data| == |w.data|;
    forall p | 0 <= p < |w.data|
      ensures LogOk(w', s.t.all, s.log, p) && (p != o ==> (Exhausted(w', s.t.all, p) <==> Exhausted(w, s.t.all, p)))
    {
      assert LogOk(w, s.t.all, s.log, p);
      LongerAt(w, s, o, d, p);
    }
    forall p | 0 <= p < |w.data| ensures s.t.all.parts[p].retry || Exhausted(w', s.t.all, p) {
      assert s.t.all.parts[p].retry || Exhausted(w, s.t.all, p);
    }
  }

  lemma LongerAt(w: World, s: Sys, o: nat, d: Digest, p: nat)
    requires o < |w.data| == |s.t.all.parts| == |s.log| && p < |w.data| && LogOk(w, s.t.all, s.log, p)
    requires RankOf(s.t.all.parts[o].cursor) < d.rank && RankOf(w.after) < d.rank
    ensures |Longer(w, o, d).data| == |w.data| && LogOk(Longer(w, o, d), s.t.all, s.log, p)
    ensures p != o ==> (Exhausted(Longer(w, o, d), s.t.all, p) <==> Exhausted(w, s.t.all, p))
  {
    PosLonger(w.data[o], d, s.t.all.parts[o].cursor);
    PosLonger(w.data[o], d, w.after);
    hide Pos;
  }

  /** A failing start is safe in every world that fits the client's table and log exactly if the client can tell: no
      marked partition precedes the first one without a node, or all are retried anyway. */
  lemma KnownSafeIff(w: World, s: Sys, max: nat, choice: seq<Choice>)
    requires Inv(w, s) && !s.active && |choice| == |w.data|
    ensures KnownSafe(s.t.all, max, choice)
            <==> forall w': World :: |w'.data| == |w.data| && Inv(w', s) ==> SafeStart(w', s.t.all, max, choice)
  {
    if !KnownSafe(s.t.all, max, choice) {
      var n := FirstNodeless(s.t.all.parts, choice, 0);
      var o :| 0 <= o < n && s.t.all.parts[o].retry;
      var d := LaterDigest(w, s.t.all, o);
      LongerInv(w, s, o, d);
      var w' := Longer(w, o, d);
      PosLonger(w.data[o], d, s.t.all.parts[o].cursor);
      assert !Exhausted(w', s.t.all, o);
    }
  }
}
