/** What a page asks the nodes for, how its rounds end, and how many rounds it has. */
module TrackerOutcomes {
  import opened Prelude
  import opened PartitionTracker
  import opened TrackerAssign
  import opened TrackerSystem
  import opened TrackerInvariant
  import opened TrackerSteps
  import opened TrackerRounds
  import opened TrackerPages

  // ---------- what a round asks for ----------

  /** An assignment succeeds exactly if some partition is selected and every selected one has a node. */
  ghost predicate Assignable(parts: seq<PartStatus>, retryAll: bool, choice: seq<Choice>)
    requires |parts| == |choice|
  {
    && (exists o :: 0 <= o < |parts| && Selected(parts, retryAll, o))
    && (forall o :: 0 <= o < |parts| && Selected(parts, retryAll, o) ==> choice[o].node.Some?)
  }

  lemma {:induction false} AssignOkIff(t: Tracker, choice: seq<Choice>)
    requires |choice| == |t.all.parts| && Everywhere(choice) && t.nodes == [] && IdsOk(t.all.parts, t.all.begin)
    ensures Assign(t, choice).0 == Ok <==> Assignable(t.all.parts, t.all.retry && t.iteration == 1, choice)
  {
    hide NodesUpTo, HoldsUpTo;
    var sel := t.all.retry && t.iteration == 1;
    FirstNodes(t.all.parts, t.all.begin, sel, choice);
    AssignLoop(t.all.parts, t.all.parts, [], t.all.begin, sel, choice, 0);
    var r := AssignFrom(t.all.parts, [], sel, choice, 0);
    hide AssignFrom;
    if r.AllAssigned? {
      forall o | 0 <= o < |choice| && Selected(t.all.parts, sel, o) ensures choice[o].node.Some? && r.nodes != [] {
        assert AssignedPart(t.all.parts[o], r.parts[o], Selected(t.all.parts, sel, o), choice[o]);
        SomeEntry(t.all.parts, r.nodes, t.all.begin, sel, choice, o);
      }
      if r.nodes != [] { SomeSelected(t.all.parts, r.nodes, t.all.begin, sel, choice); }
    }
  }

  lemma SomeSelected(parts: seq<PartStatus>, nodes: seq<NodeParts>, begin: nat, sel: bool, choice: seq<Choice>)
    requires |parts| == |choice| && NodesUpTo(parts, nodes, begin, sel, choice, |parts|) && nodes != []
    ensures exists o :: 0 <= o < |parts| && Selected(parts, sel, o)
  {
    var np := nodes[0];
    assert FreshNode(np) && HoldsUpTo(parts, np, begin, sel, choice, |parts|);
    var id := if |np.full| > 0 then np.full[0] else np.partial[0];
    assert id in np.full || id in np.partial;
    assert Selected(parts, sel, id - begin);
  }

  /** The nodes of a round are asked exactly for the given partitions. */
  ghost predicate Asked(w: World, s: Sys, wanted: set<nat>)
  {
    forall o :: 0 <= o < |w.data| ==> (!Unowned(s.t.nodes, w.begin + o) <==> o in wanted)
  }

  /** The partitions of a table that are marked, or all of them. */
  ghost function ToRead(all: Parts, everything: bool): set<nat>
  {
    set o: nat | o < |all.parts| && (everything || all.parts[o].retry)
  }

  ghost predicate NodeForAll(wanted: set<nat>, choice: seq<Choice>)
  {
    wanted != {} && forall o :: o in wanted && o < |choice| ==> choice[o].node.Some?
  }

  /** A partition is in some request exactly if it is selected. */
  lemma AskedAt(parts: seq<PartStatus>, nodes: seq<NodeParts>, begin: nat, sel: bool, choice: seq<Choice>, o: nat)
    requires |choice| == |parts| && SelectedHeld(parts, nodes, begin, sel, choice) && o < |choice|
    ensures !Unowned(nodes, begin + o) <==> Selected(parts, sel, o)
  {
    if !Unowned(nodes, begin + o) {
      var k :| 0 <= k < |nodes| && Owns(nodes[k], begin + o);
      assert choice[o].node == Some(nodes[k].node);
    }
  }

  lemma AssignableIff(all: Parts, retryAll: bool, choice: seq<Choice>)
    requires |choice| == |all.parts|
    ensures Assignable(all.parts, retryAll, choice) <==> NodeForAll(ToRead(all, retryAll), choice)
  {
    var wanted := ToRead(all, retryAll);
    if Assignable(all.parts, retryAll, choice) {
      var o :| 0 <= o < |all.parts| && Selected(all.parts, retryAll, o);
      assert o in wanted;
    }
    if NodeForAll(wanted, choice) {
      var o :| o in wanted;
      assert Selected(all.parts, retryAll, o);
      forall p | 0 <= p < |all.parts| && Selected(all.parts, retryAll, p) ensures choice[p].node.Some? {
        assert p in wanted;
      }
    }
  }

  lemma AskedFor(w: World, s: Sys, t: Tracker, choice: seq<Choice>, mark: bool, wanted: set<nat>)
    requires ChoiceOk(w, choice) && |t.all.parts| == |w.data| && t.nodes == [] && IdsOk(t.all.parts, t.all.begin)
    requires t.all.begin == w.begin && |Assign(t, choice).1.all.parts| == |w.data|
    requires wanted == ToRead(t.all, t.all.retry && t.iteration == 1)
    ensures var s' := StartRound(w, s, Assign(t, choice), mark);
            && (s'.active <==> NodeForAll(wanted, choice))
            && (s'.active ==> Asked(w, s', wanted) && s'.t.iteration == t.iteration && s'.t.maxRetries == t.maxRetries)
  {
    hide Assign, Assignable, NodeForAll, Unowned, PartsUpTo, SameCursors;
    AssignGives(t, choice);
    AssignOkIff(t, choice);
    AssignableIff(t.all, t.all.retry && t.iteration == 1, choice);
    var (st, t') := Assign(t, choice);
    if st == Ok {
      forall o | 0 <= o < |w.data| ensures !Unowned(t'.nodes, w.begin + o) <==> o in wanted {
        AskedAt(t.all.parts, t'.nodes, w.begin, t.all.retry && t.iteration == 1, choice, o);
      }
    }
  }

  /** A page starts exactly if there is a node for everything it is to read: all partitions, if all are to be retried or
      there is no limit, and otherwise the marked ones.  Its first round asks for exactly those. */
  lemma PageAsks(w: World, s: Sys, e: Event)
    requires Inv(w, s) && Enabled(w, s, e) && e.BeginPage?
    ensures var wanted := ToRead(s.t.all, s.t.all.retry || e.max == 0);
            var s' := Apply(w, s, e);
            && (s'.active <==> NodeForAll(wanted, e.choice))
            && (s'.active ==> Asked(w, s', wanted) && s'.t.iteration == 1 && s'.t.maxRetries == e.maxRetries)
  {
    var t := Resume(s.t.all, e.max, e.maxRetries);
    var wanted := ToRead(s.t.all, s.t.all.retry || e.max == 0);
    assert wanted == ToRead(t.all, t.all.retry);
    ResumeReady(w, s, e.max, e.maxRetries);
    AssignKeepsLength(t, e.choice);
    hide Inv, NodeForAll, Assign;
    AskedFor(w, s.(base := Total(s.log), pageMax := e.max, handedBase := Total(s.handed)), t, e.choice, e.sync, wanted);
  }

  // ---------- the end of a round ----------

  /** A round is repeated for partitions that were unavailable, as long as the limit is not reached, there are retries
      left and the time is not up. */
  ghost predicate Again(s: Sys, timedOut: bool)
  {
    && SumUnavailable(s.t.nodes) > 0
    && (s.pageMax == 0 || Total(s.log) < s.base + s.pageMax)
    && s.t.iteration <= s.t.maxRetries && !timedOut
  }

  lemma AgainIff(w: World, s: Sys, e: Event)
    requires Inv(w, s) && Enabled(w, s, e) && e.Complete?
    ensures IsComplete(s.t, w.partitionQuery, e.timedOut).0 == RetryRound <==> Again(s, e.timedOut)
  {
    hide Sorted, WorldOk, LogOk, NodesOk, OwnsOk, FreeOk, MarkMore, AnyMore, Total;
  }

  /** Then, and only then, the page goes on: with the next round, if the marked partitions have nodes, and that round
      asks for exactly the marked ones. */
  lemma RoundRepeated(w: World, s: Sys, e: Event)
    requires Inv(w, s) && Enabled(w, s, e) && e.Complete?
    ensures var s' := Apply(w, s, e);
            && (s'.active <==> Again(s, e.timedOut) && NodeForAll(ToRead(s.t.all, false), e.choice))
            && (s'.active ==> && Asked(w, s', ToRead(s.t.all, false))
                              && s'.t.iteration == s.t.iteration + 1 && s'.t.maxRetries == s.t.maxRetries)
  {
    AgainIff(w, s, e);
    var (st, t) := IsComplete(s.t, w.partitionQuery, e.timedOut);
    if st == RetryRound {
      assert t.all == s.t.all && t.nodes == [] && t.iteration == s.t.iteration + 1 && t.iteration > 1;
      AssignKeepsLength(t, e.choice);
      hide Assign, IsComplete, NodeForAll, Again, InRound, Asked;
      AskedFor(w, s, t, e.choice, true, ToRead(t.all, false));
    }
  }

  /** A page without a limit that ends with all partitions available is done, in whatever round, and the application
      has kept every record. */
  lemma UnlimitedPageEnds(w: World, s: Sys, e: Event)
    requires Reachable(w, s) && Enabled(w, s, e) && e.Complete?
    requires s.pageMax == 0 && SumUnavailable(s.t.nodes) == 0
    ensures var s' := Apply(w, s, e);
            && !s'.active && s'.t.all.done && |s'.log| == |w.data|
            && forall o :: 0 <= o < |w.data| ==> s'.log[o] == w.data[o][Start(w, o)..]
  {
    ReachableInv(w, s);
    hide Sorted, WorldOk, Reachable, NodesOk, OwnsOk, FreeOk, MarkMore, AnyMore;
    forall o | 0 <= o < |w.data| ensures s.log[o] == w.data[o][Start(w, o)..] {
      UnlimitedOver(w, s, o);
      assert LogOk(w, s.t.all, s.log, o);
    }
  }

  /** A node sent everything: nothing of it was discarded and it stopped below its limit, or, before partition queries,
      it sent nothing at all. */
  ghost predicate Drained(s: Sys, k: nat, partitionQuery: bool)
    requires k < |s.t.nodes| == |s.threads|
  {
    if partitionQuery then s.threads[k].arrived == s.t.nodes[k].recordCount < s.t.nodes[k].recordMax
    else s.threads[k].arrived == 0
  }

  lemma MoreIffNotDrained(w: World, s: Sys, k: nat)
    requires RoundOver(w, s) && k < |s.t.nodes|
    ensures w.partitionQuery ==> (MayHaveMore(s.t.nodes[k], true) <==> !Drained(s, k, true))
    ensures !w.partitionQuery && SumCount(s.t.nodes) == 0 ==> Drained(s, k, false)
    ensures !w.partitionQuery && Drained(s, k, false) ==> s.t.nodes[k].recordCount == 0
  {
    hide Sorted, WorldOk, LogOk, PageOk, Limits, OwnsOk, FreeOk;
    OverAt(w, s, k);
    if SumCount(s.t.nodes) == 0 { NothingDiscarded(w, s, k); }
  }

  /** A limited page that ends in its first round with all partitions available is done exactly if every node sent
      everything. */
  lemma LimitedDoneIff(w: World, s: Sys, e: Event)
    requires Inv(w, s) && Enabled(w, s, e) && FullPage(s, e)
    ensures var s' := Apply(w, s, e);
            && !s'.active && |s.threads| == |s.t.nodes| && !s'.t.all.retry
            && (s'.t.all.done <==> forall k :: 0 <= k < |s.t.nodes| ==> Drained(s, k, w.partitionQuery))
  {
    assert RoundOver(w, s);
    hide Sorted, WorldOk, LogOk, NodesOk, OwnsOk, FreeOk, MarkMore, Drained, MayHaveMore, AnyMore, Limits;
    var pq := w.partitionQuery;
    forall k | 0 <= k < |s.t.nodes|
      ensures pq ==> (MayHaveMore(s.t.nodes[k], true) <==> !Drained(s, k, true))
      ensures !pq && SumCount(s.t.nodes) == 0 ==> Drained(s, k, false)
      ensures !pq && Drained(s, k, false) ==> s.t.nodes[k].recordCount == 0
    {
      MoreIffNotDrained(w, s, k);
    }
    SumCountZero(s.t.nodes);
    if AnyMore(s.t.nodes, pq) {
      if forall k :: 0 <= k < |s.t.nodes| ==> !MayHaveMore(s.t.nodes[k], pq) { NoMore(s.t.nodes, pq); }
    } else {
      forall k | 0 <= k < |s.t.nodes| ensures !MayHaveMore(s.t.nodes[k], pq) { AnyMoreAt(s.t.nodes, pq, k); }
    }
  }

  /** Afterwards exactly the partitions of the other nodes are marked, on the same replica. */
  lemma LimitedMarks(w: World, s: Sys, e: Event, o: nat)
    requires Inv(w, s) && Enabled(w, s, e) && FullPage(s, e) && o < |w.data|
    ensures var ps := Apply(w, s, e).t.all.parts;
            && |ps| == |w.data|
            && ps[o] == s.t.all.parts[o].(retry := ps[o].retry)
            && (ps[o].retry <==> MoreFor(s.t.nodes, w.partitionQuery, w.begin + o))
  {
    hide Sorted, WorldOk, LogOk, MarkMore, AnyMore, Limits, MoreFor, NodesOk, OwnsOk, FreeOk;
    assert RoundOver(w, s);
    MarkMoreAt(s.t.all.parts, w.begin, s.t.nodes, w.partitionQuery, o);
    NotMarkedYet(w, s, o);
  }

  lemma NotMarkedYet(w: World, s: Sys, o: nat)
    requires RoundOver(w, s) && SumUnavailable(s.t.nodes) == 0 && o < |w.data|
    ensures !s.t.all.parts[o].retry
  {
    hide Sorted, WorldOk, LogOk, Limits, PageOk;
    if !Unowned(s.t.nodes, w.begin + o) {
      var k :| 0 <= k < |s.t.nodes| && Owns(s.t.nodes[k], w.begin + o);
      OverAt(w, s, k);
      OwnAt(w, s, k, o);
    }
  }

  /** Every other end of a page leaves all partitions to be retried, and `done` only as it was. */
  lemma OtherwiseRetried(w: World, s: Sys, e: Event)
    requires Inv(w, s) && Enabled(w, s, e) && (e.Stop? || e.Complete?) && !Apply(w, s, e).active && !FullPage(s, e)
    requires !(e.Complete? && s.pageMax == 0 && SumUnavailable(s.t.nodes) == 0)
    ensures var all := Apply(w, s, e).t.all; all.retry && (all.done ==> s.t.all.done)
    ensures e.Complete? && SumUnavailable(s.t.nodes) == 0 ==> !Apply(w, s, e).t.all.done
  {
    hide Sorted, WorldOk, LogOk, NodesOk, OwnsOk, FreeOk, MarkMore, AnyMore, Limits, Total;
    if e.Complete? {
      var (st, t) := IsComplete(s.t, w.partitionQuery, e.timedOut);
      if st == RetryRound {
        AssignGives(t, e.choice);
        hide Assign;
      }
    }
  }

  // ---------- the number of rounds ----------

  ghost predicate RoundsOk(s: Sys) { s.active ==> 1 <= s.t.iteration <= s.t.maxRetries + 1 }

  lemma RoundStep(w: World, s: Sys, e: Event)
    requires Inv(w, s) && Enabled(w, s, e) && RoundsOk(s)
    ensures RoundsOk(Apply(w, s, e))
  {
    if e.BeginPage? {
      PageAsks(w, s, e);
    } else if e.Complete? {
      RoundRepeated(w, s, e);
    } else {
      hide Sorted, WorldOk, LogOk, InRound, Between, Total;
    }
  }

  lemma {:induction false} RoundsKept(w: World, s: Sys, events: seq<Event>)
    requires Inv(w, s) && RoundsOk(s) && Valid(w, s, events) && CarefulRun(w, s, events)
    ensures RoundsOk(Run(w, s, events))
    decreases |events|
  {
    hide Inv, Enabled, Apply, Careful, RoundsOk;
    if events != [] {
      RoundStep(w, s, events[0]);
      StepKeeps(w, s, events[0]);
      RoundsKept(w, Apply(w, s, events[0]), events[1..]);
    }
  }

  /** A page has at most one round more than it has retries. */
  lemma RoundsBounded(w: World, s: Sys)
    requires Reachable(w, s) && s.active
    ensures 1 <= s.t.iteration <= s.t.maxRetries + 1
  {
    assert |w.data| > 0;
    InitInv(w);
    assert RoundsOk(Init(w));
    hide Inv, Valid, CarefulRun, Run, Init, WorldOk;
    var events :| Valid(w, Init(w), events) && CarefulRun(w, Init(w), events) && s == Run(w, Init(w), events);
    RoundsKept(w, Init(w), events);
  }
}
