/** Pagination as a transition system: an application asks for page after page, every page runs one
thread per node, and records, failures and interleavings are chosen by the environment.

The server holds a fixed list of records per partition and streams a partition in digest order,
starting after the cursor the client sent. */
module TrackerSystem {
  import opened Prelude
  import opened PartitionTracker

  // ---------- what the server holds ----------

  /** `data[o]` are the records of the partition at offset o in digest order; `partitions` is the partition
      count of the cluster, `after` the digest a filter starts after, `partitionQuery` whether the servers
      send everything up to the limit. */
  datatype World = World(partitions: bv16, begin: nat, data: seq<seq<Digest>>, after: Option<Digest>,
                         partitionQuery: bool)

  ghost predicate Sorted(s: seq<Digest>)
  {
    forall i, j :: 0 <= i < j < |s| ==> s[i].rank < s[j].rank
  }

  /** Offset of a digest's partition, as the client computes it. */
  function OffsetOf(w: World, d: Digest): int { PartitionId(d, w.partitions) as int - w.begin }

  /** Some digest belongs to the partition at offset o. */
  ghost predicate Addressable(w: World, o: nat) { exists d :: OffsetOf(w, d) == o }

  /** Sorted partitions, each with the digests that belong to it; every partition of the filter exists. */
  ghost predicate WorldOk(w: World)
  {
    && |w.data| > 0
    && (forall o :: 0 <= o < |w.data| ==> Sorted(w.data[o]))
    && (forall o, i :: 0 <= o < |w.data| && 0 <= i < |w.data[o]| ==> OffsetOf(w, w.data[o][i]) == o)
    && (forall o :: 0 <= o < |w.data| ==> Addressable(w, o))
  }

  /** Number of records at or before the given rank: where a server resumes. */
  function After(s: seq<Digest>, rank: nat): (n: nat)
    ensures n <= |s|
  {
    if s == [] then 0
    else if s[|s| - 1].rank <= rank then |s|
    else After(s[..|s| - 1], rank)
  }

  /** Exactly the records up to the rank are skipped, whether or not there is a record of that rank. */
  lemma {:induction false} AfterIs(s: seq<Digest>, rank: nat, i: nat)
    requires Sorted(s) && i < |s|
    ensures i < After(s, rank) <==> s[i].rank <= rank
  {
    if s[|s| - 1].rank > rank && i < |s| - 1 { AfterIs(s[..|s| - 1], rank, i); }
  }

  function Pos(s: seq<Digest>, cursor: Option<Digest>): (n: nat)
    ensures n <= |s|
  {
    if cursor.None? then 0 else After(s, cursor.value.rank)
  }

  /** A cursor at record i resumes with record i + 1: nothing skipped, nothing repeated. */
  lemma {:induction false} ResumeAfter(s: seq<Digest>, i: nat)
    requires Sorted(s) && i < |s|
    ensures Pos(s, Some(s[i])) == i + 1
  {
    if s[|s| - 1].rank > s[i].rank {
      ResumeAfter(s[..|s| - 1], i);
    }
  }

  function Start(w: World, o: nat): (n: nat)
    requires o < |w.data|
    ensures n <= |w.data[o]|
  {
    if o == 0 then Pos(w.data[0], w.after) else 0
  }

  // ---------- client state ----------

  datatype Progress = Running | Finished | Broken | Dead

  /** The thread of one node entry: its state, the record that passed the limit but is not in the cursor (of a dead
      thread, the one its callback refused), and the number of records the node sent. */
  datatype Thread = Thread(run: Progress, pending: Option<Digest>, arrived: nat)

  /** A call of the application's callback: the record handed over, and whether the callback returned true. */
  datatype Handed = Handed(rec: Digest, kept: bool)

  /** `sent[o]` is the server's position in partition o, `log[o]` the records the application kept, that is, those its
      callback returned true for, and `handed[o]` all calls of the callback; `base` and `handedBase` are the numbers of
      both before this page and `pageMax` the limit of the page. */
  datatype Sys = Sys(active: bool, t: Tracker, sent: seq<nat>, threads: seq<Thread>, log: seq<seq<Digest>>,
                     base: nat, pageMax: nat, handed: seq<seq<Handed>>, handedBase: nat)

  function NoRecords<T>(n: nat): seq<seq<T>> { seq(n, _ => []) }

  function Init(w: World): Sys
    requires |w.data| > 0
  {
    Sys(false, Tracker(Create(w.begin, |w.data|, w.after), [], 0, 0, false, 1, 0), [], [], NoRecords(|w.data|), 0, 0,
        NoRecords(|w.data|), 0)
  }

  function Total<T>(log: seq<seq<T>>): nat
  {
    if log == [] then 0 else Total(log[..|log| - 1]) + |log[|log| - 1]|
  }

  datatype Event =
    | BeginPage(max: nat, maxRetries: nat, choice: seq<Choice>, sync: bool)
    | Arrive(k: nat, o: nat)
    | Hand(k: nat, keep: bool)
    | Unavailable(k: nat, o: nat)
    | Finish(k: nat)
    | NodeFail(k: nat)
    | Die(k: nat)
    | Stop
    | Complete(timedOut: bool, choice: seq<Choice>)

  predicate Shaped(w: World, s: Sys)
  {
    && |s.t.all.parts| == |w.data| && |s.log| == |w.data| && |s.handed| == |w.data|
    && (s.active ==> |s.sent| == |w.data| && |s.threads| == |s.t.nodes|
                     && AllInRange(s.t.nodes, s.t.all.begin, |w.data|))
  }

  predicate RunningAt(s: Sys, k: nat)
  {
    s.active && k < |s.t.nodes| && k < |s.threads| && s.threads[k].run.Running?
  }

  predicate IdleAt(s: Sys, k: nat) { RunningAt(s, k) && s.threads[k].pending.None? }

  predicate Stopped(s: Sys) { forall k :: 0 <= k < |s.threads| ==> !s.threads[k].run.Running? }

  predicate SomeDead(s: Sys) { exists k :: 0 <= k < |s.threads| && s.threads[k].run.Dead? }

  /** What a server owes when it ends the stream of a node: unless the limit stopped it, it sent every
      record of each partition it did not report as unavailable. */
  predicate Unlimited(np: NodeParts, arrived: nat, partitionQuery: bool)
  {
    np.recordMax == 0 || if partitionQuery then arrived < np.recordMax else arrived == 0
  }

  ghost predicate StreamEnded(w: World, s: Sys, k: nat)
    requires Shaped(w, s) && s.active && k < |s.t.nodes|
  {
    Unlimited(s.t.nodes[k], s.threads[k].arrived, w.partitionQuery) ==>
      forall o :: 0 <= o < |w.data| && Owns(s.t.nodes[k], s.t.all.begin + o) && !s.t.all.parts[o].retry ==>
                    s.sent[o] == |w.data[o]|
  }

  /** A choice for every partition, of a scan that is not restricted to a node. */
  predicate ChoiceOk(w: World, choice: seq<Choice>) { |choice| == |w.data| && Everywhere(choice) }

  ghost predicate Enabled(w: World, s: Sys, e: Event)
  {
    && Shaped(w, s)
    && match e
       case BeginPage(_, _, choice, _) => !s.active && ChoiceOk(w, choice)
       case Arrive(k, o) =>
         && IdleAt(s, k) && o < |w.data| && Owns(s.t.nodes[k], s.t.all.begin + o) && s.sent[o] < |w.data[o]|
         && (s.t.nodes[k].recordMax == 0 || s.threads[k].arrived < s.t.nodes[k].recordMax)
       case Hand(k, _) =>
         && RunningAt(s, k) && s.threads[k].pending.Some?
         && 0 <= OffsetOf(w, s.threads[k].pending.value) < |w.data|
       case Unavailable(k, o) => IdleAt(s, k) && o < |w.data| && Owns(s.t.nodes[k], s.t.all.begin + o)
       case Finish(k) => IdleAt(s, k) && StreamEnded(w, s, k)
       case NodeFail(k) => IdleAt(s, k)
       case Die(k) => IdleAt(s, k)
       case Stop => s.active && Stopped(s) && SomeDead(s)
       case Complete(_, choice) => s.active && Stopped(s) && !SomeDead(s) && ChoiceOk(w, choice)
  }

  function NewThreads(n: nat): (r: seq<Thread>)
    ensures |r| == n && forall k :: 0 <= k < n ==> r[k] == Thread(Running, None, 0)
  {
    seq(n, _ => Thread(Running, None, 0))
  }

  /** Server positions when the requests of a round are sent. */
  function Requested(w: World, parts: seq<PartStatus>): (r: seq<nat>)
    requires |parts| == |w.data|
    ensures |r| == |parts| && forall o :: 0 <= o < |r| ==> r[o] == Pos(w.data[o], parts[o].cursor)
  {
    seq(|parts|, o requires 0 <= o < |parts| => Pos(w.data[o], parts[o].cursor))
  }

  /** A round starts if the assignment succeeded; otherwise the page ends, with every partition marked
      when `mark`. */
  function StartRound(w: World, s: Sys, r: (Status, Tracker), mark: bool): Sys
    requires |r.1.all.parts| == |w.data|
  {
    if r.0.Ok? then
      s.(active := true, t := r.1, sent := Requested(w, r.1.all.parts), threads := NewThreads(|r.1.nodes|))
    else EndPage(s, r.1, if mark then Failed(r.1.all) else r.1.all)
  }

  function EndPage(s: Sys, t: Tracker, all: Parts): Sys
  {
    s.(active := false, t := t.(all := all, nodes := []), sent := [], threads := [])
  }

  function SetThread(s: Sys, k: nat, th: Thread): Sys
    requires k < |s.threads|
  {
    s.(threads := s.threads[k := th])
  }

  function Apply(w: World, s: Sys, e: Event): Sys
    requires Enabled(w, s, e)
  {
    match e
    case BeginPage(max, maxRetries, choice, sync) =>
      // Both the failing first assignment of a synchronous page and every later failure mark all
      // partitions; the failing first assignment of an asynchronous page marks none.
      var r := Assign(Resume(s.t.all, max, maxRetries), choice);
      AssignKeepsLength(Resume(s.t.all, max, maxRetries), choice);
      StartRound(w, s.(base := Total(s.log), pageMax := max, handedBase := Total(s.handed)), r, sync)
    case Arrive(k, o) =>
      var d := w.data[o][s.sent[o]];
      var (discard, t) := ReachedMax(s.t, k);
      var th := s.threads[k];
      SetThread(s, k, th.(arrived := th.arrived + 1, pending := if discard then None else Some(d)))
        .(t := t, sent := s.sent[o := s.sent[o] + 1])
    case Hand(k, keep) =>
      // The callback gets the record first; the cursor moves only if it returns true, otherwise the command ends.
      var d := s.threads[k].pending.value;
      var o := OffsetOf(w, d);
      var s' := s.(handed := s.handed[o := s.handed[o] + [Handed(d, keep)]]);
      if keep then
        SetThread(s', k, s.threads[k].(pending := None))
          .(t := SetDigest(s.t, k, o, d), log := s.log[o := s.log[o] + [d]])
      else SetThread(s', k, s.threads[k].(run := Dead))
    case Unavailable(k, o) => s.(t := PartUnavailable(s.t, k, o))
    case Finish(k) => SetThread(s, k, s.threads[k].(run := Finished))
    case NodeFail(k) => SetThread(s, k, s.threads[k].(run := Broken)).(t := NodeFailed(s.t, k))
    case Die(k) => SetThread(s, k, s.threads[k].(run := Dead))
    case Stop => EndPage(s, s.t, Failed(s.t.all))
    case Complete(timedOut, choice) =>
      var (st, t) := IsComplete(s.t, w.partitionQuery, timedOut);
      if st.Ok? then EndPage(s, t, t.all)
      else if st.RetryRound? then
        AssignKeepsLength(t, choice);
        StartRound(w, s, Assign(t, choice), true)
      else EndPage(s, t, Failed(t.all))
  }

  lemma {:induction false} AssignFromLength(parts: seq<PartStatus>, nodes: seq<NodeParts>, retryAll: bool,
                                            choice: seq<Choice>, i: nat)
    requires |choice| == |parts| && i <= |parts|
    ensures |AssignFrom(parts, nodes, retryAll, choice, i).parts| == |parts|
    decreases |parts| - i
  {
    if i < |parts| {
      if !(retryAll || parts[i].retry) {
        AssignFromLength(parts, nodes, retryAll, choice, i + 1);
      } else if choice[i].node.Some? {
        var ps' := parts[i].(replicaIndex := choice[i].replicaIndex, node := choice[i].node, retry := false);
        var nodes' := if choice[i].elsewhere then nodes else AddPart(nodes, ps', choice[i].node.value);
        AssignFromLength(parts[i := ps'], nodes', retryAll, choice, i + 1);
      }
    }
  }

  lemma AssignKeepsLength(t: Tracker, choice: seq<Choice>)
    requires |choice| == |t.all.parts| && t.nodes == []
    ensures |Assign(t, choice).1.all.parts| == |t.all.parts|
  {
    AssignFromLength(t.all.parts, [], t.all.retry && t.iteration == 1, choice, 0);
  }

  // ---------- runs ----------

  /** A run: every event enabled where it happens. */
  ghost predicate Valid(w: World, s: Sys, events: seq<Event>)
    decreases |events|
  {
    events == [] || (Enabled(w, s, events[0]) && Valid(w, Apply(w, s, events[0]), events[1..]))
  }

  ghost function Run(w: World, s: Sys, events: seq<Event>): Sys
    requires Valid(w, s, events)
    decreases |events|
  {
    if events == [] then s else Run(w, Apply(w, s, events[0]), events[1..])
  }

  /** A run goes on with any enabled event. */
  lemma {:induction false} Extend(w: World, s: Sys, events: seq<Event>, e: Event)
    requires Valid(w, s, events) && Enabled(w, Run(w, s, events), e)
    ensures Valid(w, s, events + [e]) && Run(w, s, events + [e]) == Apply(w, Run(w, s, events), e)
    decreases |events|
  {
    hide Enabled, Apply;
    if events == [] {
      assert [e][1..] == [];
      assert events + [e] == [e];
      assert Valid(w, Apply(w, s, e), []);
    } else {
      Extend(w, Apply(w, s, events[0]), events[1..], e);
      assert (events + [e])[1..] == events[1..] + [e];
    }
  }
}
