/** What the application's callback sees.  A record is handed over before the cursor moves, and the cursor moves only if
the callback returns true: a refused record ends the command and is handed over again when the partition is read on. */
module TrackerHanded {
  import opened PartitionTracker
  import opened TrackerAssign
  import opened TrackerSystem
  import opened TrackerInvariant
  import opened TrackerPages

  // ---------- the calls of one partition ----------

  /** The records kept, in order. */
  function KeptOf(calls: seq<Handed>): seq<Digest>
  {
    if calls == [] then []
    else
      var last := calls[|calls| - 1];
      KeptOf(calls[..|calls| - 1]) + if last.kept then [last.rec] else []
  }

  /** Every call hands over the record after those kept so far. */
  ghost predicate CallsOk(data: seq<Digest>, start: nat, calls: seq<Handed>)
  {
    forall j :: 0 <= j < |calls| ==> CallOk(data, start, calls, j)
  }

  ghost predicate CallOk(data: seq<Digest>, start: nat, calls: seq<Handed>, j: nat)
    requires j < |calls|
  {
    var n := start + |KeptOf(calls[..j])|;
    n < |data| && calls[j].rec == data[n]
  }

  ghost predicate HandedOk(w: World, s: Sys)
    requires |w.data| == |s.log| == |s.handed|
  {
    forall o :: 0 <= o < |w.data| ==> KeptOf(s.handed[o]) == s.log[o] && CallsOk(w.data[o], Start(w, o), s.handed[o])
  }

  lemma CallAdded(data: seq<Digest>, start: nat, calls: seq<Handed>, c: Handed)
    requires CallsOk(data, start, calls)
    requires start + |KeptOf(calls)| < |data| && c.rec == data[start + |KeptOf(calls)|]
    ensures CallsOk(data, start, calls + [c])
    ensures KeptOf(calls + [c]) == KeptOf(calls) + if c.kept then [c.rec] else []
  {
    var all := calls + [c];
    assert all[..|calls|] == calls;
    forall j | 0 <= j < |all| ensures CallOk(data, start, all, j) {
      if j < |calls| {
        assert CallOk(data, start, calls, j);
        assert all[..j] == calls[..j];
      }
    }
  }

  lemma {:induction false} KeptGrows(calls: seq<Handed>, i: nat, j: nat)
    requires i <= j <= |calls|
    ensures |KeptOf(calls[..i])| <= |KeptOf(calls[..j])|
    ensures |KeptOf(calls[..i])| == |KeptOf(calls[..j])| <==> forall k :: i <= k < j ==> !calls[k].kept
    decreases j - i
  {
    if i < j {
      KeptGrows(calls, i, j - 1);
      assert calls[..j][..j - 1] == calls[..j - 1];
      assert |KeptOf(calls[..j])| == |KeptOf(calls[..j - 1])| + if calls[j - 1].kept then 1 else 0;
      if forall k :: i <= k < j ==> !calls[k].kept {
        assert !calls[j - 1].kept;
        assert forall k :: i <= k < j - 1 ==> !calls[k].kept;
      }
    }
  }

  /** Two calls hand over the same record exactly if every call from the first up to the second was refused. */
  lemma SameRecord(data: seq<Digest>, start: nat, calls: seq<Handed>, i: nat, j: nat)
    requires Sorted(data) && CallsOk(data, start, calls) && i < j < |calls|
    ensures calls[i].rec == calls[j].rec <==> forall k :: i <= k < j ==> !calls[k].kept
  {
    assert CallOk(data, start, calls, i) && CallOk(data, start, calls, j);
    KeptGrows(calls, i, j);
    var m, n := start + |KeptOf(calls[..i])|, start + |KeptOf(calls[..j])|;
    if m < n { assert data[m].rank < data[n].rank; }
  }

  lemma NoRepetition(data: seq<Digest>, start: nat, calls: seq<Handed>)
    requires Sorted(data) && CallsOk(data, start, calls)
    ensures (forall i, j :: 0 <= i < j < |calls| ==> calls[i].rec != calls[j].rec)
            <==> forall i :: 0 <= i < |calls| - 1 ==> calls[i].kept
  {
    hide Sorted, CallsOk;
    if forall i :: 0 <= i < |calls| - 1 ==> calls[i].kept {
      forall i, j | 0 <= i < j < |calls| ensures calls[i].rec != calls[j].rec {
        SameRecord(data, start, calls, i, j);
        assert calls[i].kept;
      }
    } else {
      var i :| 0 <= i < |calls| - 1 && !calls[i].kept;
      SameRecord(data, start, calls, i, i + 1);
      assert calls[i].rec == calls[i + 1].rec;
    }
  }

  lemma {:induction false} AllKept(calls: seq<Handed>)
    requires forall j :: 0 <= j < |calls| ==> calls[j].kept
    ensures |KeptOf(calls)| == |calls| && forall j :: 0 <= j < |calls| ==> KeptOf(calls)[j] == calls[j].rec
  {
    if calls != [] { AllKept(calls[..|calls| - 1]); }
  }

  // ---------- every step keeps it ----------

  /** The record a thread is about to hand over is the next one of its partition. */
  lemma NextRecord(w: World, s: Sys, k: nat, keep: bool)
    requires Inv(w, s) && Enabled(w, s, Hand(k, keep))
    ensures var d := s.threads[k].pending.value;
            var o := OffsetOf(w, d);
            var n := Start(w, o) + |s.log[o]|;
            n < |w.data[o]| && w.data[o][n] == d
  {
    hide Sorted, WorldOk, Limits, PageOk, FreeOk, Exhausted;
    var o := OffsetOf(w, s.threads[k].pending.value);
    assert NodeOk(w, s.t, s.t.nodes[k], s.threads[k]);
    assert OwnOk(w, s.t.all.parts[o], s.sent[o], s.t.nodes[k], s.threads[k], o);
    assert LogOk(w, s.t.all, s.log, o);
  }

  lemma HandKeepsHanded(w: World, s: Sys, k: nat, keep: bool)
    requires Inv(w, s) && HandedOk(w, s) && Enabled(w, s, Hand(k, keep))
    ensures HandedOk(w, Apply(w, s, Hand(k, keep)))
  {
    var s' := Apply(w, s, Hand(k, keep));
    var d := s.threads[k].pending.value;
    var o := OffsetOf(w, d);
    NextRecord(w, s, k, keep);
    CallAdded(w.data[o], Start(w, o), s.handed[o], Handed(d, keep));
    hide Inv, CallsOk, KeptOf, Start;
    forall p | 0 <= p < |w.data|
      ensures KeptOf(s'.handed[p]) == s'.log[p]
              && CallsOk(w.data[p], Start(w, p), s'.handed[p])
    {
      assert KeptOf(s.handed[p]) == s.log[p] && CallsOk(w.data[p], Start(w, p), s.handed[p]);
    }
  }

  /** Only a call of the callback changes what was handed over or kept. */
  lemma OthersKeepHanded(w: World, s: Sys, e: Event)
    requires Enabled(w, s, e) && !e.Hand?
    ensures Apply(w, s, e).handed == s.handed && Apply(w, s, e).log == s.log
  {
  }

  lemma StepKeepsHanded(w: World, s: Sys, e: Event)
    requires Inv(w, s) && HandedOk(w, s) && Enabled(w, s, e)
    ensures |Apply(w, s, e).log| == |Apply(w, s, e).handed| == |w.data| && HandedOk(w, Apply(w, s, e))
  {
    if e.Hand? {
      HandKeepsHanded(w, s, e.k, e.keep);
    } else {
      OthersKeepHanded(w, s, e);
    }
  }

  // ---------- the limit of a page, counting refused records too ----------

  function Refused(th: Thread): nat { if th.run.Dead? && th.pending.Some? then 1 else 0 }

  function SumRefused(ths: seq<Thread>): nat
  {
    if ths == [] then 0 else SumRefused(ths[..|ths| - 1]) + Refused(ths[|ths| - 1])
  }

  lemma {:induction false} SumRefusedUpdate(ths: seq<Thread>, k: nat, th: Thread)
    requires k < |ths|
    ensures SumRefused(ths[k := th]) == SumRefused(ths) - Refused(ths[k]) + Refused(th)
  {
    var n := |ths| - 1;
    if k < n {
      SumRefusedUpdate(ths[..n], k, th);
      assert ths[k := th][..n] == ths[..n][k := th];
    } else {
      assert ths[k := th][..n] == ths[..n];
    }
  }

  lemma {:induction false} RefusedPending(ths: seq<Thread>)
    ensures SumRefused(ths) <= SumPending(ths)
  {
    if ths != [] { RefusedPending(ths[..|ths| - 1]); }
  }

  lemma {:induction false} NoneRefused(ths: seq<Thread>)
    requires forall k :: 0 <= k < |ths| ==> !ths[k].run.Dead?
    ensures SumRefused(ths) == 0
  {
    if ths != [] { NoneRefused(ths[..|ths| - 1]); }
  }

  lemma {:induction false} PendingBounded(nodes: seq<NodeParts>, ths: seq<Thread>)
    requires |nodes| == |ths|
    requires forall k :: 0 <= k < |nodes| ==> nodes[k].recordCount + Pend(ths[k]) <= nodes[k].recordMax
    ensures SumCount(nodes) + SumPending(ths) <= SumMax(nodes)
  {
    if nodes != [] { PendingBounded(nodes[..|nodes| - 1], ths[..|ths| - 1]); }
  }

  /** What a round has handed over beyond what it kept is what its dead threads refused. */
  ghost predicate CountHanded(s: Sys)
  {
    s.pageMax > 0 ==>
      if s.active then Total(s.handed) + s.base == s.handedBase + Total(s.log) + SumRefused(s.threads)
      else Total(s.handed) <= s.handedBase + s.pageMax
  }

  /** A round passes no more records than the page has left, refused ones included. */
  lemma RoundHanded(w: World, s: Sys)
    requires Inv(w, s) && s.active && s.pageMax > 0 && CountHanded(s)
    ensures Total(s.handed) <= s.handedBase + s.pageMax
  {
    hide Sorted, WorldOk, LogOk, OwnsOk, FreeOk, Exhausted;
    RefusedPending(s.threads);
    if !s.t.checkMax {
      forall k | 0 <= k < |s.t.nodes| ensures s.t.nodes[k].recordCount + Pend(s.threads[k]) <= s.t.nodes[k].recordMax {
        assert NodeOk(w, s.t, s.t.nodes[k], s.threads[k]);
      }
      PendingBounded(s.t.nodes, s.threads);
    }
  }

  lemma HandCounts(w: World, s: Sys, k: nat, keep: bool)
    requires Inv(w, s) && CountHanded(s) && Enabled(w, s, Hand(k, keep))
    ensures CountHanded(Apply(w, s, Hand(k, keep)))
  {
    hide Inv;
    var s' := Apply(w, s, Hand(k, keep));
    var d := s.threads[k].pending.value;
    var o := OffsetOf(w, d);
    SumRefusedUpdate(s.threads, k, s'.threads[k]);
    TotalUpdate(s.handed, o, Handed(d, keep));
    if keep { TotalUpdate(s.log, o, d); }
  }

  lemma ThreadCounts(w: World, s: Sys, e: Event)
    requires Inv(w, s) && CountHanded(s) && Enabled(w, s, e)
    requires e.Arrive? || e.Unavailable? || e.Finish? || e.NodeFail? || e.Die?
    ensures CountHanded(Apply(w, s, e))
  {
    hide Inv, Total;
    var s' := Apply(w, s, e);
    SumRefusedUpdate(s.threads, e.k, s'.threads[e.k]);
  }

  lemma RoundCounts(w: World, s: Sys, e: Event)
    requires Inv(w, s) && CountHanded(s) && Enabled(w, s, e) && (e.Stop? || e.Complete?)
    ensures CountHanded(Apply(w, s, e))
  {
    if s.pageMax > 0 { RoundHanded(w, s); }
    hide Inv, Total, Assign, IsComplete;
    var s' := Apply(w, s, e);
    assert s'.handed == s.handed && s'.log == s.log && s'.base == s.base && s'.handedBase == s.handedBase
           && s'.pageMax == s.pageMax;
    if s'.active {
      NoneRefused(s.threads);
      NoneRefused(s'.threads);
    }
  }

  lemma PageCounts(w: World, s: Sys, e: Event)
    requires Enabled(w, s, e) && e.BeginPage?
    ensures CountHanded(Apply(w, s, e))
  {
    hide Total, Assign;
    var s' := Apply(w, s, e);
    NoneRefused(s'.threads);
  }

  lemma StepCounts(w: World, s: Sys, e: Event)
    requires Inv(w, s) && CountHanded(s) && Enabled(w, s, e)
    ensures CountHanded(Apply(w, s, e))
  {
    hide Inv, CountHanded, Apply;
    match e {
      case BeginPage(_, _, _, _) => PageCounts(w, s, e);
      case Hand(k, keep) => HandCounts(w, s, k, keep);
      case Stop => RoundCounts(w, s, e);
      case Complete(_, _) => RoundCounts(w, s, e);
      case _ => ThreadCounts(w, s, e);
    }
  }

  // ---------- whole runs ----------

  ghost predicate Known(w: World, s: Sys)
  {
    Inv(w, s) && |w.data| == |s.log| == |s.handed| && HandedOk(w, s) && CountHanded(s)
  }

  lemma InitKnown(w: World)
    requires WorldOk(w)
    ensures Known(w, Init(w))
  {
    InitInv(w);
  }

  lemma {:induction false} RunKnown(w: World, s: Sys, events: seq<Event>)
    requires Known(w, s) && Valid(w, s, events) && CarefulRun(w, s, events)
    ensures Known(w, Run(w, s, events))
    decreases |events|
  {
    if events != [] {
      assert Enabled(w, s, events[0]) && Careful(w, s, events[0]);
      hide Inv, Enabled, Apply, Careful, HandedOk, CountHanded;
      StepKeeps(w, s, events[0]);
      StepKeepsHanded(w, s, events[0]);
      StepCounts(w, s, events[0]);
      RunKnown(w, Apply(w, s, events[0]), events[1..]);
    }
  }

  lemma ReachableKnown(w: World, s: Sys)
    requires Reachable(w, s)
    ensures Known(w, s)
  {
    assert |w.data| > 0;
    hide Known, Valid, CarefulRun, Run, Init, WorldOk;
    var events :| Valid(w, Init(w), events) && CarefulRun(w, Init(w), events) && s == Run(w, Init(w), events);
    InitKnown(w);
    RunKnown(w, Init(w), events);
  }

  // ---------- theorems ----------

  /** The records kept are what the callback returned true for, in the order of the calls. */
  lemma KeptAreLogged(w: World, s: Sys, o: nat)
    requires Reachable(w, s) && o < |w.data|
    ensures |s.handed| == |s.log| == |w.data| && KeptOf(s.handed[o]) == s.log[o]
  {
    ReachableKnown(w, s);
  }

  /** Two calls of the callback get the same record exactly if the first was refused and so was every call for the
      partition in between. */
  lemma HandedTwiceExactly(w: World, s: Sys, o: nat, i: nat, j: nat)
    requires Reachable(w, s) && o < |w.data| == |s.handed| && i < j < |s.handed[o]|
    ensures s.handed[o][i].rec == s.handed[o][j].rec <==> forall k :: i <= k < j ==> !s.handed[o][k].kept
  {
    hide Reachable, Known;
    ReachableKnown(w, s);
    assert CallsOk(w.data[o], Start(w, o), s.handed[o]) && Sorted(w.data[o]) by { KnownAt(w, s, o); }
    SameRecord(w.data[o], Start(w, o), s.handed[o], i, j);
  }

  lemma KnownAt(w: World, s: Sys, o: nat)
    requires Known(w, s) && o < |w.data|
    ensures |s.log| == |s.handed| == |w.data|
    ensures CallsOk(w.data[o], Start(w, o), s.handed[o]) && KeptOf(s.handed[o]) == s.log[o] && Sorted(w.data[o])
    ensures Start(w, o) + |s.log[o]| <= |w.data[o]| && s.log[o] == w.data[o][Start(w, o)..Start(w, o) + |s.log[o]|]
  {
    assert LogOk(w, s.t.all, s.log, o);
  }

  /** No record of a partition is handed over twice exactly if no call was refused, except perhaps the last. */
  lemma NoRepetitionIff(w: World, s: Sys, o: nat)
    requires Reachable(w, s) && o < |w.data| == |s.handed|
    ensures (forall i, j :: 0 <= i < j < |s.handed[o]| ==> s.handed[o][i].rec != s.handed[o][j].rec)
            <==> forall i :: 0 <= i < |s.handed[o]| - 1 ==> s.handed[o][i].kept
  {
    hide Reachable, Known, CallsOk, Sorted, Start;
    ReachableKnown(w, s);
    KnownAt(w, s, o);
    NoRepetition(w.data[o], Start(w, o), s.handed[o]);
  }

  /** An application whose callback never returns false is handed, of each partition, a gapless initial piece of the
      records after the filter's start, in order and without repetition. */
  lemma NeverRefusing(w: World, s: Sys, o: nat)
    requires Reachable(w, s) && o < |w.data| == |s.handed|
    requires forall j :: 0 <= j < |s.handed[o]| ==> s.handed[o][j].kept
    ensures Start(w, o) + |s.handed[o]| <= |w.data[o]|
    ensures forall j :: 0 <= j < |s.handed[o]| ==> s.handed[o][j].rec == w.data[o][Start(w, o) + j]
  {
    hide Reachable, Known, KeptOf, CallsOk, Sorted, Start;
    ReachableKnown(w, s);
    KnownAt(w, s, o);
    AllKeptPiece(w.data[o], Start(w, o), s.handed[o], s.log[o]);
  }

  lemma AllKeptPiece(data: seq<Digest>, start: nat, calls: seq<Handed>, log: seq<Digest>)
    requires KeptOf(calls) == log && start + |log| <= |data| && log == data[start..start + |log|]
    requires forall j :: 0 <= j < |calls| ==> calls[j].kept
    ensures start + |calls| <= |data| && forall j :: 0 <= j < |calls| ==> calls[j].rec == data[start + j]
  {
    hide KeptOf;
    AllKept(calls);
  }

  /** A page hands over no more records than its limit, those the callback refuses included. */
  lemma HandedLimit(w: World, s: Sys)
    requires Reachable(w, s) && s.pageMax > 0
    ensures Total(s.handed) <= s.handedBase + s.pageMax
  {
    ReachableKnown(w, s);
    if s.active { RoundHanded(w, s); }
  }
}
