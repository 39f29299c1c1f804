/** The end of a round, whole runs, and the theorems about pagination. */
module TrackerPages {
  import opened PartitionTracker
  import opened TrackerAssign
  import opened TrackerSystem
  import opened TrackerInvariant
  import opened TrackerSteps
  import opened TrackerRounds

  // ---------- the end of a round ----------

  /** All threads ended, none fatally. */
  ghost predicate RoundOver(w: World, s: Sys)
  {
    Inv(w, s) && s.active && Stopped(s) && !SomeDead(s)
  }

  lemma OverAt(w: World, s: Sys, k: nat)
    requires RoundOver(w, s) && k < |s.t.nodes|
    ensures s.threads[k].run.Finished? || s.threads[k].run.Broken?
    ensures NodeOk(w, s.t, s.t.nodes[k], s.threads[k])
    ensures s.threads[k].pending.None?
    ensures SumUnavailable(s.t.nodes) == 0 ==> s.threads[k].run.Finished? && s.t.nodes[k].unavailable == 0
  {
    hide Sorted, WorldOk, LogOk, OwnsOk, FreeOk, Limits, PageOk;
    assert !s.threads[k].run.Dead? && !s.threads[k].run.Running?;
    if SumUnavailable(s.t.nodes) == 0 { SumUnavailableZero(s.t.nodes, k); }
  }

  /** A partition whose node was not stopped by the limit is read to its end or marked for retry. */
  lemma OwnedOver(w: World, s: Sys, k: nat, o: nat)
    requires RoundOver(w, s) && k < |s.t.nodes| && o < |w.data| && Owns(s.t.nodes[k], w.begin + o)
    requires !s.t.nodes[k].retry && Unlimited(s.t.nodes[k], s.threads[k].arrived, w.partitionQuery)
    ensures s.t.all.parts[o].retry || Exhausted(w, s.t.all, o)
    ensures SumUnavailable(s.t.nodes) == 0 ==> Exhausted(w, s.t.all, o)
  {
    hide Sorted, WorldOk, FreeOk, Limits, PageOk, NodesOk;
    OverAt(w, s, k);
    OwnAt(w, s, k, o);
  }

  /** Without a limit every partition is read to its end or marked for retry. */
  lemma UnlimitedOver(w: World, s: Sys, o: nat)
    requires RoundOver(w, s) && s.t.maxRecords == 0 && o < |w.data|
    ensures s.t.all.parts[o].retry || Exhausted(w, s.t.all, o)
    ensures SumUnavailable(s.t.nodes) == 0 ==> Exhausted(w, s.t.all, o)
  {
    hide Sorted, WorldOk, PageOk, LogOk;
    if Unowned(s.t.nodes, w.begin + o) {
      assert Exhausted(w, s.t.all, o);
    } else {
      var k :| 0 <= k < |s.t.nodes| && Owns(s.t.nodes[k], w.begin + o);
      OverAt(w, s, k);
      OwnedOver(w, s, k, o);
    }
  }

  /** If nothing was recorded in a round, nothing was discarded either. */
  lemma NothingDiscarded(w: World, s: Sys, k: nat)
    requires RoundOver(w, s) && SumCount(s.t.nodes) == 0 && k < |s.t.nodes|
    ensures !s.t.nodes[k].retry && s.threads[k].arrived == 0
  {
    hide Sorted, WorldOk, PageOk, LogOk, OwnsOk, FreeOk;
    forall j | 0 <= j < |s.threads| ensures s.threads[j].pending.None? { OverAt(w, s, j); }
    NothingPending(s.threads);
    SumCountZero(s.t.nodes);
    OverAt(w, s, k);
  }

  /** In the first round a partition is marked or read to its end. */
  lemma FirstRoundOver(w: World, s: Sys, o: nat)
    requires RoundOver(w, s) && s.t.maxRecords > 0 && s.t.iteration == 1 && SumUnavailable(s.t.nodes) == 0
             && o < |w.data|
    ensures MoreFor(s.t.nodes, w.partitionQuery, w.begin + o) || Exhausted(w, s.t.all, o)
    ensures SumCount(s.t.nodes) == 0 ==> Exhausted(w, s.t.all, o)
  {
    hide Sorted, WorldOk, PageOk, LogOk, Limits;
    if Unowned(s.t.nodes, w.begin + o) {
      assert Exhausted(w, s.t.all, o);
    } else {
      var k :| 0 <= k < |s.t.nodes| && Owns(s.t.nodes[k], w.begin + o);
      OverAt(w, s, k);
      if SumCount(s.t.nodes) == 0 {
        NothingDiscarded(w, s, k);
        OwnedOver(w, s, k, o);
      } else if !MayHaveMore(s.t.nodes[k], w.partitionQuery) {
        OwnedOver(w, s, k, o);
      }
    }
  }

  /** When a first round reports done, no node may have more, and without unavailable partitions nothing is marked. */
  lemma DoneNoMore(w: World, s: Sys, o: nat)
    requires RoundOver(w, s) && SumUnavailable(s.t.nodes) == 0 && o < |w.data|
    requires if w.partitionQuery then !AnyMore(s.t.nodes, true) else SumCount(s.t.nodes) == 0
    ensures !MoreFor(s.t.nodes, w.partitionQuery, w.begin + o) && !s.t.all.parts[o].retry
  {
    hide Sorted, WorldOk, LogOk, PageOk, Limits;
    forall k | 0 <= k < |s.t.nodes| ensures !MayHaveMore(s.t.nodes[k], w.partitionQuery) {
      if w.partitionQuery {
        AnyMoreAt(s.t.nodes, true, k);
      } else {
        NothingDiscarded(w, s, k);
        SumCountZero(s.t.nodes);
      }
    }
    if !Unowned(s.t.nodes, w.begin + o) {
      var k :| 0 <= k < |s.t.nodes| && Owns(s.t.nodes[k], w.begin + o);
      OverAt(w, s, k);
      OwnAt(w, s, k, o);
    }
  }

  /** The table a completed first round leaves. */
  lemma FirstRoundTable(w: World, s: Sys, timedOut: bool)
    requires RoundOver(w, s) && s.t.maxRecords > 0 && s.t.iteration == 1 && SumUnavailable(s.t.nodes) == 0
    ensures var (st, t') := IsComplete(s.t, w.partitionQuery, timedOut);
            && st == Ok && SameCursors(s.t.all.(done := t'.all.done), t'.all) && t'.all.begin == w.begin
            && (forall o :: 0 <= o < |w.data| ==> t'.all.parts[o].retry || Exhausted(w, s.t.all, o))
            && (t'.all.done ==> forall o :: 0 <= o < |w.data| ==> Exhausted(w, s.t.all, o) && !t'.all.parts[o].retry)
            && (SumCount(s.t.nodes) == 0 ==> t'.all.done)
  {
    hide Sorted, WorldOk, LogOk, MarkMore, AnyMore, NodesOk, OwnsOk, FreeOk, Exhausted;
    var pq := w.partitionQuery;
    var t' := IsComplete(s.t, pq, timedOut).1;
    forall o | 0 <= o < |w.data|
      ensures t'.all.parts[o]
              == s.t.all.parts[o].(retry := t'.all.parts[o].retry, replicaIndex := t'.all.parts[o].replicaIndex)
      ensures t'.all.parts[o].retry || Exhausted(w, s.t.all, o)
      ensures t'.all.done ==> Exhausted(w, s.t.all, o) && !t'.all.parts[o].retry
    {
      MarkMoreAt(s.t.all.parts, w.begin, s.t.nodes, pq, o);
      FirstRoundOver(w, s, o);
      if t'.all.done { DoneNoMore(w, s, o); }
    }
    if SumCount(s.t.nodes) == 0 && pq {
      forall k | 0 <= k < |s.t.nodes| ensures !MayHaveMore(s.t.nodes[k], pq) {
        NothingDiscarded(w, s, k);
        OverAt(w, s, k);
        SumCountZero(s.t.nodes);
      }
      NoMore(s.t.nodes, pq);
    }
  }

  lemma EndKeeps(w: World, s: Sys, t: Tracker)
    requires Common(w, s) && SameCursors(s.t.all.(done := t.all.done), t.all)
    requires t.all.done ==> forall o :: 0 <= o < |w.data| ==> Exhausted(w, s.t.all, o)
    requires t.all.retry || forall o :: 0 <= o < |w.data| ==> t.all.parts[o].retry || Exhausted(w, s.t.all, o)
    requires t.all.retry || (t.all.done ==> forall o :: 0 <= o < |w.data| ==> !t.all.parts[o].retry)
    ensures Inv(w, EndPage(s, t, t.all))
  {
    hide Sorted, WorldOk;
    var a := s.t.all.(done := t.all.done);
    forall o | 0 <= o < |w.data| ensures LogOk(w, a, s.log, o) && (a.done ==> Exhausted(w, a, o)) {
      assert LogOk(w, s.t.all, s.log, o);
      if a.done { assert Exhausted(w, s.t.all, o); }
    }
    CursorsCarry(w, a, t.all, s.log);
    var s' := EndPage(s, t, t.all);
    forall o | 0 <= o < |w.data| ensures LogOk(w, s'.t.all, s'.log, o) { assert LogOk(w, t.all, s.log, o); }
    if t.all.done {
      forall o | 0 <= o < |w.data| ensures Exhausted(w, s'.t.all, o) { assert Exhausted(w, t.all, o); }
    }
    if !t.all.retry {
      forall o | 0 <= o < |w.data| ensures s'.t.all.parts[o].retry || Exhausted(w, s'.t.all, o) {
        assert t.all.parts[o].retry || Exhausted(w, s.t.all, o);
      }
    }
  }

  /** A page that completes leaves a table from which the next page can go on. */
  lemma CompleteOkKeeps(w: World, s: Sys, timedOut: bool)
    requires RoundOver(w, s) && IsComplete(s.t, w.partitionQuery, timedOut).0 == Ok
    ensures var t' := IsComplete(s.t, w.partitionQuery, timedOut).1; Inv(w, EndPage(s, t', t'.all))
  {
    hide Sorted, WorldOk, LogOk, NodesOk, OwnsOk, FreeOk, MarkMore, AnyMore, SumCount, SumUnavailable;
    var t' := IsComplete(s.t, w.partitionQuery, timedOut).1;
    if SumUnavailable(s.t.nodes) == 0 {
      if s.t.maxRecords == 0 {
        forall o | 0 <= o < |w.data| ensures Exhausted(w, s.t.all, o) { UnlimitedOver(w, s, o); }
      } else if s.t.iteration == 1 {
        FirstRoundTable(w, s, timedOut);
      }
    }
    EndKeeps(w, s, t');
  }

  /** The next round of a page starts from a table with the marks and the limit it needs. */
  lemma RetryReady(w: World, s: Sys, timedOut: bool)
    requires RoundOver(w, s) && IsComplete(s.t, w.partitionQuery, timedOut).0 == RetryRound
    ensures Ready(w, s, IsComplete(s.t, w.partitionQuery, timedOut).1)
  {
    hide Sorted, WorldOk, LogOk, NodesOk, OwnsOk, FreeOk, MarkMore, AnyMore, SumUnavailable;
    var t' := IsComplete(s.t, w.partitionQuery, timedOut).1;
    assert t'.all == s.t.all;
    if t'.maxRecords == 0 {
      forall o | 0 <= o < |w.data| ensures Selected(t'.all.parts, false, o) || Exhausted(w, t'.all, o) {
        UnlimitedOver(w, s, o);
      }
    }
  }

  lemma CompleteKeeps(w: World, s: Sys, timedOut: bool, choice: seq<Choice>)
    requires Inv(w, s) && Enabled(w, s, Complete(timedOut, choice))
    ensures Inv(w, Apply(w, s, Complete(timedOut, choice)))
  {
    var (st, t') := IsComplete(s.t, w.partitionQuery, timedOut);
    assert RoundOver(w, s);
    if st == Ok {
      CompleteOkKeeps(w, s, timedOut);
    } else if st == RetryRound {
      RetryReady(w, s, timedOut);
      AssignKeepsLength(t', choice);
      assert s.pageMax > 0 ==> Total(s.log) <= s.base + s.pageMax;
      hide Inv, Ready, Assign, StartRound, IsComplete;
      RoundOrMarked(w, s, t', choice);
    } else {
      assert t'.all == s.t.all;
      hide IsComplete;
      EndMarked(w, s, t');
    }
  }

  // ---------- the asynchronous start that finds no node ----------

  /** The first marked partition for which no node is found. */
  function FirstNodeless(parts: seq<PartStatus>, choice: seq<Choice>, i: nat): (n: nat)
    requires |parts| == |choice| && i <= |parts|
    ensures i <= n <= |parts|
    ensures n < |parts| ==> parts[n].retry && choice[n].node.None?
    ensures forall o :: i <= o < n ==> !(parts[o].retry && choice[o].node.None?)
    decreases |parts| - i
  {
    if i == |parts| || (parts[i].retry && choice[i].node.None?) then i else FirstNodeless(parts, choice, i + 1)
  }

  /** The start is safe if all partitions will be retried anyway, or if every marked partition that got a node
      before the failure has no records left. */
  ghost predicate SafeStart(w: World, all: Parts, max: nat, choice: seq<Choice>)
    requires |choice| == |w.data| == |all.parts|
  {
    || all.retry || max == 0
    || forall o :: 0 <= o < FirstNodeless(all.parts, choice, 0) && all.parts[o].retry ==> Exhausted(w, all, o)
  }

  /** Where the assignment loop stops when it fails. */
  lemma {:induction false} FailedTable(t: Tracker, choice: seq<Choice>)
    requires |choice| == |t.all.parts| && Everywhere(choice) && t.nodes == [] && IdsOk(t.all.parts, t.all.begin)
    requires !(t.all.retry && t.iteration == 1) && Assign(t, choice).0 != Ok
    ensures var n := FirstNodeless(t.all.parts, choice, 0);
            var t' := Assign(t, choice).1;
            && |t'.all.parts| == |choice|
            && forall o :: 0 <= o < |choice| ==> t'.all.parts[o].retry == (o >= n && t.all.parts[o].retry)
  {
    hide NodesUpTo, HoldsUpTo;
    var n := FirstNodeless(t.all.parts, choice, 0);
    FirstNodes(t.all.parts, t.all.begin, false, choice);
    AssignLoop(t.all.parts, t.all.parts, [], t.all.begin, false, choice, 0);
    var r := AssignFrom(t.all.parts, [], false, choice, 0);
    forall o | 0 <= o < |choice| ensures r.parts[o].retry == (o >= n && t.all.parts[o].retry) {
      if r.AllAssigned? {
        assert AssignedPart(t.all.parts[o], r.parts[o], Selected(t.all.parts, false, o), choice[o]);
        if Selected(t.all.parts, false, o) { SomeEntry(t.all.parts, r.nodes, t.all.begin, false, choice, o); }
      } else {
        FirstIs(t.all.parts, choice, r.at, r.parts);
        if o < r.at { assert AssignedPart(t.all.parts[o], r.parts[o], Selected(t.all.parts, false, o), choice[o]); }
      }
    }
  }

  /** A complete assignment that selected a partition has a node entry. */
  lemma SomeEntry(parts: seq<PartStatus>, nodes: seq<NodeParts>, begin: nat, sel: bool, choice: seq<Choice>, o: nat)
    requires |parts| == |choice| && Everywhere(choice) && NodesUpTo(parts, nodes, begin, sel, choice, |parts|)
    requires o < |parts| && Selected(parts, sel, o)
    ensures nodes != []
  {
    assert Wanted(parts, sel, choice, o);
  }

  lemma FirstIs(parts: seq<PartStatus>, choice: seq<Choice>, at: nat, after: seq<PartStatus>)
    requires |parts| == |choice| == |after| && at < |parts| && Selected(parts, false, at) && choice[at].node.None?
    requires forall o :: 0 <= o < at ==> AssignedPart(parts[o], after[o], Selected(parts, false, o), choice[o])
    ensures FirstNodeless(parts, choice, 0) == at
  {
    forall o | 0 <= o < at ensures !(parts[o].retry && choice[o].node.None?) {
      assert AssignedPart(parts[o], after[o], Selected(parts, false, o), choice[o]);
    }
  }

  /** An asynchronous page that fails to start keeps pagination sound exactly if the start was safe. */
  lemma AsyncStartExact(w: World, s: Sys, max: nat, maxRetries: nat, choice: seq<Choice>)
    requires Inv(w, s) && Enabled(w, s, BeginPage(max, maxRetries, choice, false))
    requires Assign(Resume(s.t.all, max, maxRetries), choice).0 != Ok
    ensures Inv(w, Apply(w, s, BeginPage(max, maxRetries, choice, false))) <==> SafeStart(w, s.t.all, max, choice)
  {
    var e := BeginPage(max, maxRetries, choice, false);
    var t := Resume(s.t.all, max, maxRetries);
    var t' := Assign(t, choice).1;
    var s' := Apply(w, s, e);
    ResumeReady(w, s, max, maxRetries);
    AssignGives(t, choice);
    CursorsCarry(w, t.all, t'.all, s.log);
    assert s'.t.all == t'.all && !s'.active && s'.log == s.log;
    AsyncTable(w, s, max, maxRetries, choice);
    hide Assign, Sorted, WorldOk, LogOk, FirstNodeless;
    assert Common(w, s');
  }

  lemma AsyncTable(w: World, s: Sys, max: nat, maxRetries: nat, choice: seq<Choice>)
    requires Inv(w, s) && !s.active && ChoiceOk(w, choice)
    requires Assign(Resume(s.t.all, max, maxRetries), choice).0 != Ok
    requires |Assign(Resume(s.t.all, max, maxRetries), choice).1.all.parts| == |w.data|
    requires SameCursors(Resume(s.t.all, max, maxRetries).all, Assign(Resume(s.t.all, max, maxRetries), choice).1.all)
    ensures Between(w, Assign(Resume(s.t.all, max, maxRetries), choice).1.all) <==> SafeStart(w, s.t.all, max, choice)
  {
    var t := Resume(s.t.all, max, maxRetries);
    var t' := Assign(t, choice).1;
    AssignGives(t, choice);
    if !t.all.retry {
      FailedTable(t, choice);
      hide Assign, Sorted, WorldOk, LogOk, FirstNodeless;
      SameFirst(s.t.all.parts, t.all.parts, choice, 0);
      var n := FirstNodeless(s.t.all.parts, choice, 0);
      if Between(w, t'.all) {
        forall o | 0 <= o < n && s.t.all.parts[o].retry ensures Exhausted(w, s.t.all, o) {
          assert t'.all.parts[o].retry || Exhausted(w, t'.all, o);
        }
      }
      if SafeStart(w, s.t.all, max, choice) {
        forall o | 0 <= o < |w.data| ensures t'.all.parts[o].retry || Exhausted(w, t'.all, o) {
          assert s.t.all.parts[o].retry || Exhausted(w, s.t.all, o);
          assert t.all.parts[o].retry == s.t.all.parts[o].retry;
        }
      }
    }
  }

  lemma {:induction false} SameFirst(a: seq<PartStatus>, b: seq<PartStatus>, choice: seq<Choice>, i: nat)
    requires |a| == |b| == |choice| && i <= |a|
    requires forall o :: 0 <= o < |a| ==> a[o].retry == b[o].retry
    ensures FirstNodeless(a, choice, i) == FirstNodeless(b, choice, i)
    decreases |a| - i
  {
    if i < |a| { SameFirst(a, b, choice, i + 1); }
  }

  /** An unsafe start leaves some partition with records without its mark. */
  lemma UnsafeTable(w: World, s: Sys, max: nat, maxRetries: nat, choice: seq<Choice>) returns (o: nat)
    requires Inv(w, s) && Enabled(w, s, BeginPage(max, maxRetries, choice, false))
    requires Assign(Resume(s.t.all, max, maxRetries), choice).0 != Ok && !SafeStart(w, s.t.all, max, choice)
    ensures var all := Apply(w, s, BeginPage(max, maxRetries, choice, false)).t.all;
            && SameCursors(s.t.all, all) && |all.parts| == |w.data| && !all.retry
            && o < FirstNodeless(s.t.all.parts, choice, 0) < |w.data|
            && !all.parts[o].retry && !Exhausted(w, s.t.all, o)
            && all.parts[FirstNodeless(s.t.all.parts, choice, 0)].retry
  {
    var t := Resume(s.t.all, max, maxRetries);
    ResumeReady(w, s, max, maxRetries);
    AssignGives(t, choice);
    FailedTable(t, choice);
    SameFirst(s.t.all.parts, t.all.parts, choice, 0);
    var n := FirstNodeless(s.t.all.parts, choice, 0);
    o :| 0 <= o < n && s.t.all.parts[o].retry && !Exhausted(w, s.t.all, o);
    NodelessExists(t, choice, o);
  }

  /** If a partition was marked and the assignment failed, then for want of a node. */
  lemma {:induction false} NodelessExists(t: Tracker, choice: seq<Choice>, o: nat)
    requires |choice| == |t.all.parts| && Everywhere(choice) && t.nodes == [] && IdsOk(t.all.parts, t.all.begin)
    requires !(t.all.retry && t.iteration == 1) && Assign(t, choice).0 != Ok
    requires o < |choice| && t.all.parts[o].retry
    ensures FirstNodeless(t.all.parts, choice, 0) < |choice|
  {
    hide NodesUpTo, HoldsUpTo;
    FirstNodes(t.all.parts, t.all.begin, false, choice);
    AssignLoop(t.all.parts, t.all.parts, [], t.all.begin, false, choice, 0);
    var r := AssignFrom(t.all.parts, [], false, choice, 0);
    SomeNode(t.all.parts, r, t.all.begin, choice, o);
    FirstIs(t.all.parts, choice, r.at, r.parts);
  }

  /** A complete assignment of a selected partition has a node entry. */
  lemma {:induction false} SomeNode(parts: seq<PartStatus>, r: Assigned, begin: nat, choice: seq<Choice>, o: nat)
    requires |parts| == |choice| && Everywhere(choice) && o < |parts| && Selected(parts, false, o)
    requires r.AllAssigned? ==> NodesUpTo(parts, r.nodes, begin, false, choice, |parts|)
    ensures r.AllAssigned? ==> r.nodes != []
  {
    if r.AllAssigned? { SomeEntry(parts, r.nodes, begin, false, choice, o); }
  }

  /** After an unsafe start some partition with records left is in no node's request on the next page with a limit,
      whatever the cluster looks like then. */
  lemma UnsafeStartSkips(w: World, s: Sys, max: nat, maxRetries: nat, choice: seq<Choice>) returns (o: nat)
    requires Inv(w, s) && Enabled(w, s, BeginPage(max, maxRetries, choice, false))
    requires Assign(Resume(s.t.all, max, maxRetries), choice).0 != Ok && !SafeStart(w, s.t.all, max, choice)
    ensures var s' := Apply(w, s, BeginPage(max, maxRetries, choice, false));
            && o < |w.data| && |s'.t.all.parts| == |w.data| && !Exhausted(w, s'.t.all, o)
            && forall max2: nat, retries2: nat, choice2: seq<Choice> :: max2 > 0 && |choice2| == |w.data| ==>
                 Unowned(Assign(Resume(s'.t.all, max2, retries2), choice2).1.nodes, w.begin + o)
  {
    var all := Apply(w, s, BeginPage(max, maxRetries, choice, false)).t.all;
    o := UnsafeTable(w, s, max, maxRetries, choice);
    CursorsCarry(w, s.t.all, all, s.log);
    assert all.begin == w.begin;
    hide Assign, Sorted, WorldOk, LogOk, FirstNodeless, SafeStart, Resume, Apply, Inv, SameCursors;
    forall max2: nat, retries2: nat, choice2: seq<Choice> | max2 > 0 && |choice2| == |w.data|
      ensures Unowned(Assign(Resume(all, max2, retries2), choice2).1.nodes, w.begin + o)
    {
      SkippedBy(all, max2, retries2, choice2, o);
    }
  }

  lemma SkippedBy(all: Parts, max: nat, retries: nat, choice: seq<Choice>, o: nat)
    requires IdsOk(all.parts, all.begin) && |choice| == |all.parts| && o < |all.parts|
    requires max > 0 && !all.retry && !all.parts[o].retry
    ensures Unowned(Assign(Resume(all, max, retries), choice).1.nodes, all.begin + o)
  {
    var t := Resume(all, max, retries);
    var t' := Assign(t, choice).1;
    assert !Selected(t.all.parts, false, o) && IdsOk(t.all.parts, all.begin);
    FirstNodes(t.all.parts, all.begin, false, choice);
    AssignLoop(t.all.parts, t.all.parts, [], all.begin, false, choice, 0);
    var r := AssignFrom(t.all.parts, [], false, choice, 0);
    hide AssignFrom;
    var i := if r.AllAssigned? then |choice| else r.at;
    forall k | 0 <= k < |r.nodes| ensures !Owns(r.nodes[k], all.begin + o) {
      assert HoldsUpTo(t.all.parts, r.nodes[k], all.begin, false, choice, i);
      NotHeld(t.all.parts, r.nodes[k], all.begin, choice, i, o);
    }
    forall k | 0 <= k < |t'.nodes| ensures !Owns(t'.nodes[k], all.begin + o) {
      assert !Owns(r.nodes[k], all.begin + o);
    }
  }

  lemma NotHeld(parts: seq<PartStatus>, np: NodeParts, begin: nat, choice: seq<Choice>, i: nat, o: nat)
    requires |parts| == |choice| && i <= |parts| && HoldsUpTo(parts, np, begin, false, choice, i)
    requires o < |parts| && !Selected(parts, false, o)
    ensures !Owns(np, begin + o)
  {
    assert begin + o - begin == o;
  }

  // ---------- whole runs ----------

  /** No asynchronous page of the run fails to start in an unsafe way. */
  ghost predicate Careful(w: World, s: Sys, e: Event)
    requires Enabled(w, s, e)
  {
    e.BeginPage? && !e.sync && Assign(Resume(s.t.all, e.max, e.maxRetries), e.choice).0 != Ok ==>
      SafeStart(w, s.t.all, e.max, e.choice)
  }

  ghost predicate CarefulRun(w: World, s: Sys, events: seq<Event>)
    requires Valid(w, s, events)
    decreases |events|
  {
    events == [] || (Careful(w, s, events[0]) && CarefulRun(w, Apply(w, s, events[0]), events[1..]))
  }

  lemma StepKeeps(w: World, s: Sys, e: Event)
    requires Inv(w, s) && Enabled(w, s, e) && Careful(w, s, e)
    ensures Inv(w, Apply(w, s, e))
  {
    match e {
      case BeginPage(max, maxRetries, choice, sync) => PageKeeps(w, s, max, maxRetries, choice, sync);
      case Arrive(k, o) => ArriveKeeps(w, s, k, o);
      case Hand(k, keep) => if keep { AcceptKeeps(w, s, k); } else { RefuseKeeps(w, s, k); }
      case Unavailable(k, o) => UnavailableKeeps(w, s, k, o);
      case Finish(k) => FinishKeeps(w, s, k);
      case NodeFail(k) => NodeFailKeeps(w, s, k);
      case Die(k) => DieKeeps(w, s, k);
      case Stop => StopKeeps(w, s);
      case Complete(timedOut, choice) => CompleteKeeps(w, s, timedOut, choice);
    }
  }

  lemma PageKeeps(w: World, s: Sys, max: nat, maxRetries: nat, choice: seq<Choice>, sync: bool)
    requires var e := BeginPage(max, maxRetries, choice, sync); Inv(w, s) && Enabled(w, s, e) && Careful(w, s, e)
    ensures Inv(w, Apply(w, s, BeginPage(max, maxRetries, choice, sync)))
  {
    if sync {
      SyncPageKeeps(w, s, max, maxRetries, choice);
    } else if Assign(Resume(s.t.all, max, maxRetries), choice).0 == Ok {
      ResumeReady(w, s, max, maxRetries);
      AssignKeepsLength(Resume(s.t.all, max, maxRetries), choice);
      hide Inv, Ready, Assign, Resume, StartRound;
      RoundStarts(w, s.(base := Total(s.log), pageMax := max, handedBase := Total(s.handed)),
                  Resume(s.t.all, max, maxRetries), choice, false);
    } else {
      AsyncStartExact(w, s, max, maxRetries, choice);
    }
  }

  lemma InitInv(w: World)
    requires WorldOk(w)
    ensures Inv(w, Init(w))
  {
    hide Sorted;
    var s := Init(w);
    forall o | 0 <= o < |w.data| ensures LogOk(w, s.t.all, s.log, o) {
    }
  }

  lemma {:induction false} RunKeeps(w: World, s: Sys, events: seq<Event>)
    requires Inv(w, s) && Valid(w, s, events) && CarefulRun(w, s, events)
    ensures Inv(w, Run(w, s, events))
    decreases |events|
  {
    hide Inv, Enabled, Apply, Careful;
    if events != [] {
      StepKeeps(w, s, events[0]);
      RunKeeps(w, Apply(w, s, events[0]), events[1..]);
    }
  }

  ghost predicate Reachable(w: World, s: Sys)
  {
    && WorldOk(w)
    && exists events :: Valid(w, Init(w), events) && CarefulRun(w, Init(w), events) && s == Run(w, Init(w), events)
  }

  lemma ReachableInv(w: World, s: Sys)
    requires Reachable(w, s)
    ensures Inv(w, s)
  {
    assert |w.data| > 0;
    hide Inv, Valid, CarefulRun, Run, Init, WorldOk;
    var events :| Valid(w, Init(w), events) && CarefulRun(w, Init(w), events) && s == Run(w, Init(w), events);
    InitInv(w);
    RunKeeps(w, Init(w), events);
  }

  // ---------- theorems ----------

  /** At every moment of every run the application has kept, of each partition, an initial piece of the records after
      the filter's start, in order: nothing lost in between, nothing twice. */
  lemma NoLossNoDuplicate(w: World, s: Sys, o: nat)
    requires Reachable(w, s) && o < |w.data|
    ensures |s.log| == |w.data| && Start(w, o) + |s.log[o]| <= |w.data[o]|
    ensures s.log[o] == w.data[o][Start(w, o)..Start(w, o) + |s.log[o]|]
    ensures forall i, j :: 0 <= i < j < |s.log[o]| ==> s.log[o][i] != s.log[o][j]
  {
    ReachableInv(w, s);
    assert LogOk(w, s.t.all, s.log, o);
    assert Sorted(w.data[o]);
  }

  /** Pagination reports `done` only when every record of every partition was kept by the application. */
  lemma DoneMeansAll(w: World, s: Sys, o: nat)
    requires Reachable(w, s) && s.t.all.done && o < |w.data|
    ensures |s.log| == |w.data| && s.log[o] == w.data[o][Start(w, o)..]
  {
    ReachableInv(w, s);
    assert LogOk(w, s.t.all, s.log, o) && Exhausted(w, s.t.all, o);
  }

  /** Between pages, a partition the next page will not ask for has been delivered completely. */
  lemma UnmarkedMeansAll(w: World, s: Sys, o: nat)
    requires Reachable(w, s) && !s.active && o < |w.data|
    requires |s.t.all.parts| == |w.data| && !s.t.all.retry && !s.t.all.parts[o].retry
    ensures |s.log| == |w.data| && s.log[o] == w.data[o][Start(w, o)..]
  {
    ReachableInv(w, s);
    assert LogOk(w, s.t.all, s.log, o) && Exhausted(w, s.t.all, o);
  }

  /** The application never keeps more records of a page than its limit, over all its rounds. */
  lemma PageLimit(w: World, s: Sys)
    requires Reachable(w, s) && s.pageMax > 0
    ensures Total(s.log) <= s.base + s.pageMax
  {
    ReachableInv(w, s);
  }

  /** Exact limit: when the limit is below the node count, the records accepted in a round are the smaller of the
      records that arrived and the limit, and a node is marked for retry exactly if a record of it was discarded. */
  lemma ExactLimit(w: World, s: Sys)
    requires Reachable(w, s) && s.active && s.t.checkMax
    ensures SumCount(s.t.nodes) + SumPending(s.threads) == Min(SumArrived(s.threads), s.t.maxRecords)
    ensures |s.threads| == |s.t.nodes|
    ensures forall k :: 0 <= k < |s.threads| ==>
              (s.t.nodes[k].retry <==> s.threads[k].arrived > s.t.nodes[k].recordCount + Pend(s.threads[k]))
  {
    ReachableInv(w, s);
    forall k | 0 <= k < |s.threads|
      ensures s.t.nodes[k].retry <==> s.threads[k].arrived > s.t.nodes[k].recordCount + Pend(s.threads[k])
    {
      assert NodeOk(w, s.t, s.t.nodes[k], s.threads[k]);
    }
  }

  lemma {:induction false} TotalMonotone(log: seq<seq<Digest>>, data: seq<seq<Digest>>)
    requires |log| == |data| && forall o :: 0 <= o < |log| ==> |log[o]| <= |data[o]|
    ensures Total(log) <= Total(data)
  {
    if log != [] { TotalMonotone(log[..|log| - 1], data[..|data| - 1]); }
  }

  /** The page that `e` ends had a limit and ended in its first round with all partitions available. */
  ghost predicate FullPage(s: Sys, e: Event)
  {
    e.Complete? && s.pageMax > 0 && s.t.iteration == 1 && SumUnavailable(s.t.nodes) == 0
  }

  /** Progress: such a page either is the last one or delivers something. */
  lemma PageProgress(w: World, s: Sys, e: Event)
    requires Inv(w, s) && Enabled(w, s, e) && FullPage(s, e)
    ensures var s' := Apply(w, s, e);
            !s'.active && s'.log == s.log && (s'.t.all.done || s.base < Total(s.log))
  {
    assert RoundOver(w, s);
    FirstRoundTable(w, s, e.timedOut);
    hide Sorted, WorldOk, LogOk, NodesOk, OwnsOk, FreeOk, MarkMore, AnyMore, Total;
  }

  /** What can be kept is bounded by what the servers hold. */
  lemma KeptBounded(w: World, s: Sys)
    requires Inv(w, s)
    ensures Total(s.log) <= Total(w.data)
  {
    forall o | 0 <= o < |w.data| ensures |s.log[o]| <= |w.data[o]| { assert LogOk(w, s.t.all, s.log, o); }
    TotalMonotone(s.log, w.data);
  }

  // ---------- pagination ends ----------

  /** Number of such pages in a run that end without `done`. */
  ghost function Unfinished(w: World, s: Sys, events: seq<Event>): nat
    requires Valid(w, s, events)
    decreases |events|
  {
    if events == [] then 0
    else
      var s' := Apply(w, s, events[0]);
      (if FullPage(s, events[0]) && !s'.t.all.done then 1 else 0) + Unfinished(w, s', events[1..])
  }

  /** Records kept in the pages before the current one. */
  ghost function Settled(s: Sys): nat { if s.active then s.base else Total(s.log) }

  ghost predicate BaseOk(s: Sys) { s.active ==> s.base <= Total(s.log) }

  lemma SettledGrows(w: World, s: Sys, e: Event)
    requires Inv(w, s) && Enabled(w, s, e) && BaseOk(s)
    ensures var s' := Apply(w, s, e);
            BaseOk(s') && Settled(s) + (if FullPage(s, e) && !s'.t.all.done then 1 else 0) <= Settled(s')
  {
    if FullPage(s, e) { PageProgress(w, s, e); }
    hide Sorted, WorldOk, LogOk, InRound, Between, FullPage, Assign, Resume, IsComplete, Total;
    if e.Hand? && e.keep {
      var d := s.threads[e.k].pending.value;
      TotalUpdate(s.log, OffsetOf(w, d), d);
    }
  }

  lemma {:induction false} UnfinishedFrom(w: World, s: Sys, events: seq<Event>)
    requires Inv(w, s) && BaseOk(s) && Valid(w, s, events) && CarefulRun(w, s, events)
    ensures Settled(s) + Unfinished(w, s, events) <= Total(w.data)
    decreases |events|
  {
    if events == [] {
      KeptBounded(w, s);
    } else {
      hide Inv, Enabled, Apply, Careful, FullPage, Settled, BaseOk;
      SettledGrows(w, s, events[0]);
      StepKeeps(w, s, events[0]);
      UnfinishedFrom(w, Apply(w, s, events[0]), events[1..]);
    }
  }

  /** Pagination ends: in no run do more pages of this kind end without `done` than there are records. */
  lemma PagesBounded(w: World, events: seq<Event>)
    requires WorldOk(w) && Valid(w, Init(w), events) && CarefulRun(w, Init(w), events)
    ensures Unfinished(w, Init(w), events) <= Total(w.data)
  {
    InitInv(w);
    hide Inv, WorldOk, Valid, CarefulRun, Unfinished;
    UnfinishedFrom(w, Init(w), events);
  }
}
