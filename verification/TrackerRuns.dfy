/** Concrete runs: an asynchronous page that finds no node makes pagination lose a record, and a record the
application's callback refuses is handed over again. */
module TrackerRuns {
  import opened Prelude
  import opened PartitionTracker
  import opened TrackerAssign
  import opened TrackerSystem

  /** Two partitions; the first holds two records, the second none. */
  function TwoParts(): World
  {
    World(4096, 0, [[Digest(0, 1), Digest(0, 2)], []], None, true)
  }

  lemma TwoPartsOk()
    ensures WorldOk(TwoParts())
  {
    var w := TwoParts();
    assert OffsetOf(w, Digest(0, 1)) == OffsetOf(w, Digest(0, 2)) == 0 && OffsetOf(w, Digest(1, 1)) == 1;
    assert Addressable(w, 0) && Addressable(w, 1);
  }

  const BOTH: seq<Choice> := [Choice(Some(7), 0, false), Choice(Some(7), 0, false)]
  const FIRST_ONLY: seq<Choice> := [Choice(Some(7), 0, false), Choice(None, 0, false)]

  function Part(id: nat, retry: bool, cursor: Option<Digest>, node: Option<nat>): PartStatus
  {
    PartStatus(id, 0, retry, cursor, 0, node)
  }

  function Table(done: bool, retry: bool, retry0: bool, cursor0: Option<Digest>, node0: Option<nat>, retry1: bool,
                 node1: Option<nat>): Parts
  {
    Parts(0, done, retry, [Part(0, retry0, cursor0, node0), Part(1, retry1, None, node1)])
  }

  function Page(full: seq<nat>, partial: seq<nat>, count: nat): NodeParts
  {
    NodeParts(7, full, partial, count, 1, 0, false)
  }

  /** The states of the run. */
  function Started(): Sys
  {
    Sys(true, Tracker(Table(false, true, false, None, Some(7), false, Some(7)),
                      [Page([0, 1], [], 0)], 1, 0, false, 1, 0),
        [0, 0], [Thread(Running, None, 0)], [[], []], 0, 1, [[], []], 0)
  }

  function Delivered(run: Progress): Sys
  {
    Sys(true, Tracker(Table(false, true, false, Some(Digest(0, 1)), Some(7), false, Some(7)),
                      [Page([0, 1], [], 1)], 1, 0, false, 1, 0),
        [1, 0], [Thread(run, None, 1)], [[Digest(0, 1)], []], 0, 1, [[Handed(Digest(0, 1), true)], []], 0)
  }

  function PageEnded(): Sys
  {
    Sys(false, Tracker(Table(false, false, true, Some(Digest(0, 1)), Some(7), true, Some(7)), [], 1, 0, false, 1, 0),
        [], [], [[Digest(0, 1)], []], 0, 1, [[Handed(Digest(0, 1), true)], []], 0)
  }

  function StartFailed(): Sys
  {
    Sys(false, Tracker(Table(false, false, false, Some(Digest(0, 1)), Some(7), true, None), [], 1, 0, false, 1, 0),
        [], [], [[Digest(0, 1)], []], 1, 1, [[Handed(Digest(0, 1), true)], []], 1)
  }

  function Restarted(run: Progress): Sys
  {
    Sys(true, Tracker(Table(false, true, false, Some(Digest(0, 1)), None, false, Some(7)),
                      [Page([1], [], 0)], 1, 0, false, 1, 0),
        [1, 0], [Thread(run, None, 0)], [[Digest(0, 1)], []], 1, 1, [[Handed(Digest(0, 1), true)], []], 1)
  }

  function Lost(): Sys
  {
    Sys(false, Tracker(Table(true, false, false, Some(Digest(0, 1)), None, false, Some(7)), [], 1, 0, false, 1, 0),
        [], [], [[Digest(0, 1)], []], 1, 1, [[Handed(Digest(0, 1), true)], []], 1)
  }

  ghost predicate Step(s: Sys, e: Event, s': Sys)
  {
    Enabled(TwoParts(), s, e) && Apply(TwoParts(), s, e) == s'
  }

  lemma Alone(ps: PartStatus)
    requires ps.cursor.None?
    ensures AddPart([], ps, 7) == [NodeParts(7, [ps.id], [], 0, 0, 0, false)]
  {
    assert [] + [ps.id] == [ps.id];
  }

  lemma Joined(np: NodeParts, ps: PartStatus)
    requires ps.cursor.None? && np.node == 7
    ensures AddPart([np], ps, 7) == [np.(full := np.full + [ps.id])]
  {
    assert FindNode([np], 7) == 0;
  }

  lemma AssignBoth(retry: bool)
    ensures AssignFrom([Part(0, retry, None, None), Part(1, retry, None, None)], [], true, BOTH, 0)
            == AllAssigned([Part(0, false, None, Some(7)), Part(1, false, None, Some(7))],
                           [NodeParts(7, [0, 1], [], 0, 0, 0, false)])
  {
    hide AddPart;
    var p0, p1 := Part(0, retry, None, None), Part(1, retry, None, None);
    var q0, q1 := Part(0, false, None, Some(7)), Part(1, false, None, Some(7));
    var n0 := NodeParts(7, [0], [], 0, 0, 0, false);
    var n1 := NodeParts(7, [0, 1], [], 0, 0, 0, false);
    calc {
      AssignFrom([p0, p1], [], true, BOTH, 0);
      { Alone(q0); assert [p0, p1][0 := q0] == [q0, p1]; }
      AssignFrom([q0, p1], [n0], true, BOTH, 1);
      { Joined(n0, q1); assert n0.full + [1] == [0, 1]; assert [q0, p1][1 := q1] == [q0, q1]; }
      AssignFrom([q0, q1], [n1], true, BOTH, 2);
      AllAssigned([q0, q1], [n1]);
    }
  }

  lemma Begin()
    ensures Step(Init(TwoParts()), BeginPage(1, 0, BOTH, true), Started())
  {
    var w := TwoParts();
    var s := Init(w);
    var t := Resume(s.t.all, 1, 0);
    assert s.log == [[], []] && s.handed == [[], []];
    Total2<Digest>([], []);
    Total2<Handed>([], []);
    assert Assign(t, BOTH) == (Ok, Started().t) by { BeginAssign(); }
    hide Assign, Total;
    assert Requested(w, Started().t.all.parts) == [0, 0];
    assert NewThreads(1) == [Thread(Running, None, 0)];
  }

  lemma BeginAssign()
    ensures Assign(Resume(Init(TwoParts()).t.all, 1, 0), BOTH) == (Ok, Started().t)
  {
    hide AssignFrom;
    AssignBoth(true);
    assert Resume(Init(TwoParts()).t.all, 1, 0).all.parts == [Part(0, true, None, None), Part(1, true, None, None)];
    assert Limited([NodeParts(7, [0, 1], [], 0, 0, 0, false)], 1) == [Page([0, 1], [], 0)];
  }

  lemma Total2<T>(a: seq<T>, b: seq<T>)
    ensures Total([a, b]) == |a| + |b|
  {
    assert [a, b][..1] == [a];
    assert [a][..0] == [];
    assert Total([a]) == |a|;
  }

  /** The first record arrives and is accepted; the server stops at the limit. */
  lemma Deliver()
    ensures exists s :: Step(Started(), Arrive(0, 0), s) && Step(s, Hand(0, true), Delivered(Running))
    ensures Step(Delivered(Running), Finish(0), Delivered(Finished))
  {
    var s := Started().(sent := [1, 0], threads := [Thread(Running, Some(Digest(0, 1)), 1)]);
    assert Step(Started(), Arrive(0, 0), s);
    assert OffsetOf(TwoParts(), Digest(0, 1)) == 0;
    assert Step(s, Hand(0, true), Delivered(Running)) by {
      var s' := Apply(TwoParts(), s, Hand(0, true));
      assert s'.log == [[Digest(0, 1)], []] by { assert [] + [Digest(0, 1)] == [Digest(0, 1)]; }
      assert s'.handed == [[Handed(Digest(0, 1), true)], []] by {
        assert [] + [Handed(Digest(0, 1), true)] == [Handed(Digest(0, 1), true)];
      }
      assert s'.threads == [Thread(Running, None, 1)];
      assert s'.t.nodes == [Page([0, 1], [], 1)];
      assert s'.t.all.parts == Delivered(Running).t.all.parts;
    }
    assert Step(Delivered(Running), Finish(0), Delivered(Finished));
  }

  lemma EndPage1()
    ensures Step(Delivered(Finished), Complete(false, BOTH), PageEnded())
  {
    var t := Delivered(Finished).t;
    var np := Page([0, 1], [], 1);
    OneNodeSums(np, true);
    var p0, p1 := t.all.parts[0], t.all.parts[1];
    var q0, q1 := p0.(retry := true), p1.(retry := true);
    assert MarkIds([p0, p1], 0, [0, 1], false) == [q0, q1] by {
      assert [0, 1][..1] == [0];
      assert [0][..0] == [];
      assert MarkIds([p0, p1], 0, [0], false) == [q0, p1];
    }
    assert MarkNode([p0, p1], 0, np, false) == [q0, q1];
    assert MarkMore([p0, p1], 0, [np], true) == [q0, q1] by { assert [np][..0] == []; }
  }

  /** No node for the second partition: the page does not start, and the first partition has lost its mark. */
  lemma FailToStart()
    ensures Step(PageEnded(), BeginPage(1, 0, FIRST_ONLY, false), StartFailed())
  {
    var s := PageEnded();
    var t := Resume(s.t.all, 1, 0);
    var c := Some(Digest(0, 1));
    var p0, p1 := Part(0, true, c, None), Part(1, true, None, None);
    assert t.all.parts == [p0, p1];
    var q0 := Part(0, false, c, Some(7));
    calc {
      AssignFrom([p0, p1], [], false, FIRST_ONLY, 0);
      { assert [p0, p1][0 := q0] == [q0, p1]; }
      AssignFrom([q0, p1], AddPart([], q0, 7), false, FIRST_ONLY, 1);
      { assert [q0, p1][1 := p1] == [q0, p1]; }
      NoNode([q0, p1], AddPart([], q0, 7), 1);
    }
    Total2([Digest(0, 1)], []);
    Total2([Handed(Digest(0, 1), true)], []);
  }

  lemma AssignSecond()
    ensures AssignFrom([Part(0, false, Some(Digest(0, 1)), None), Part(1, true, None, None)], [], false, BOTH, 0)
            == AllAssigned([Part(0, false, Some(Digest(0, 1)), None), Part(1, false, None, Some(7))],
                           [NodeParts(7, [1], [], 0, 0, 0, false)])
  {
    hide AddPart;
    var p0, p1 := Part(0, false, Some(Digest(0, 1)), None), Part(1, true, None, None);
    var q1 := Part(1, false, None, Some(7));
    var n1 := NodeParts(7, [1], [], 0, 0, 0, false);
    calc {
      AssignFrom([p0, p1], [], false, BOTH, 0);
      AssignFrom([p0, p1], [], false, BOTH, 1);
      { Alone(q1); assert [p0, p1][1 := q1] == [p0, q1]; }
      AssignFrom([p0, q1], [n1], false, BOTH, 2);
      AllAssigned([p0, q1], [n1]);
    }
  }

  lemma AgainAssign()
    ensures Assign(Resume(StartFailed().t.all, 1, 0), BOTH) == (Ok, Restarted(Running).t)
  {
    hide AssignFrom;
    AssignSecond();
    assert Resume(StartFailed().t.all, 1, 0).all.parts
           == [Part(0, false, Some(Digest(0, 1)), None), Part(1, true, None, None)];
    assert Limited([NodeParts(7, [1], [], 0, 0, 0, false)], 1) == [Page([1], [], 0)];
  }

  lemma AfterFirst()
    ensures Pos([Digest(0, 1), Digest(0, 2)], Some(Digest(0, 1))) == 1
  {
    assert [Digest(0, 1), Digest(0, 2)][..1] == [Digest(0, 1)];
  }

  lemma BeginAgain()
    ensures Step(StartFailed(), BeginPage(1, 0, BOTH, true), Restarted(Running))
  {
    AgainAssign();
    AfterFirst();
    Total2([Digest(0, 1)], []);
    Total2([Handed(Digest(0, 1), true)], []);
    hide Assign, Total, After;
    assert NewThreads(1) == [Thread(Running, None, 0)];
    assert Requested(TwoParts(), Restarted(Running).t.all.parts) == [1, 0];
  }

  lemma FinishAgain()
    ensures Step(Restarted(Running), Finish(0), Restarted(Finished))
  {
  }

  lemma EndPage2()
    ensures Step(Restarted(Finished), Complete(false, BOTH), Lost())
  {
    var np := Page([1], [], 0);
    OneNodeSums(np, true);
    var parts := Restarted(Finished).t.all.parts;
    assert MarkMore(parts, 0, [np], true) == parts by { assert [np][..0] == []; }
  }

  ghost predicate Leads(events: seq<Event>, s: Sys)
  {
    Valid(TwoParts(), Init(TwoParts()), events) && Run(TwoParts(), Init(TwoParts()), events) == s
  }

  lemma NothingYet()
    ensures Leads([], Init(TwoParts()))
  {
    hide Init;
  }

  lemma Then(events: seq<Event>, s: Sys, e: Event, s': Sys) returns (longer: seq<Event>)
    requires Leads(events, s) && Step(s, e, s')
    ensures Leads(longer, s')
  {
    hide Enabled, Apply, Init;
    longer := events + [e];
    Extend(TwoParts(), Init(TwoParts()), events, e);
  }

  /** The run: pagination says it is done although a record was never delivered. */
  lemma AsyncStartLosesRecord() returns (events: seq<Event>)
    ensures WorldOk(TwoParts())
    ensures Valid(TwoParts(), Init(TwoParts()), events)
    ensures var s := Run(TwoParts(), Init(TwoParts()), events);
            s.t.all.done && s.log == [[Digest(0, 1)], []] && TwoParts().data == [[Digest(0, 1), Digest(0, 2)], []]
  {
    hide WorldOk, Step, Valid, Run, Init;
    TwoPartsOk();
    NothingYet();
    Begin(); Deliver(); EndPage1(); FailToStart(); BeginAgain(); FinishAgain(); EndPage2();
    var s :| Step(Started(), Arrive(0, 0), s) && Step(s, Hand(0, true), Delivered(Running));
    events := LossRun(s);
  }

  lemma LossRun(s: Sys) returns (events: seq<Event>)
    requires Leads([], Init(TwoParts())) && Step(Init(TwoParts()), BeginPage(1, 0, BOTH, true), Started())
    requires Step(Started(), Arrive(0, 0), s) && Step(s, Hand(0, true), Delivered(Running))
    requires Step(Delivered(Running), Finish(0), Delivered(Finished))
             && Step(Delivered(Finished), Complete(false, BOTH), PageEnded())
    requires Step(PageEnded(), BeginPage(1, 0, FIRST_ONLY, false), StartFailed())
    requires Step(StartFailed(), BeginPage(1, 0, BOTH, true), Restarted(Running))
    requires Step(Restarted(Running), Finish(0), Restarted(Finished))
             && Step(Restarted(Finished), Complete(false, BOTH), Lost())
    ensures Leads(events, Lost())
  {
    hide Step, Valid, Run, Leads, Apply, Enabled, Init;
    events := Then([], Init(TwoParts()), BeginPage(1, 0, BOTH, true), Started());
    events := Then(events, Started(), Arrive(0, 0), s);
    events := Then(events, s, Hand(0, true), Delivered(Running));
    events := Then(events, Delivered(Running), Finish(0), Delivered(Finished));
    events := Then(events, Delivered(Finished), Complete(false, BOTH), PageEnded());
    events := Then(events, PageEnded(), BeginPage(1, 0, FIRST_ONLY, false), StartFailed());
    events := Then(events, StartFailed(), BeginPage(1, 0, BOTH, true), Restarted(Running));
    events := Then(events, Restarted(Running), Finish(0), Restarted(Finished));
    events := Then(events, Restarted(Finished), Complete(false, BOTH), Lost());
  }

  // ---------- a refused record ----------

  function Pending(handed: seq<Handed>, handedBase: nat): Sys
  {
    Started().(sent := [1, 0], threads := [Thread(Running, Some(Digest(0, 1)), 1)], handed := [handed, []],
               handedBase := handedBase)
  }

  function Refusing(): Sys
  {
    Pending([Handed(Digest(0, 1), false)], 0).(threads := [Thread(Dead, Some(Digest(0, 1)), 1)])
  }

  function Aborted(): Sys
  {
    Sys(false, Tracker(Table(false, true, false, None, Some(7), false, Some(7)), [], 1, 0, false, 1, 0),
        [], [], [[], []], 0, 1, [[Handed(Digest(0, 1), false)], []], 0)
  }

  function StartedAgain(): Sys
  {
    Started().(handed := [[Handed(Digest(0, 1), false)], []], handedBase := 1)
  }

  function Repeated(): Sys
  {
    Delivered(Running).(handed := [[Handed(Digest(0, 1), false), Handed(Digest(0, 1), true)], []], handedBase := 1)
  }

  lemma Refuse()
    ensures Step(Started(), Arrive(0, 0), Pending([], 0)) && Step(Pending([], 0), Hand(0, false), Refusing())
    ensures Step(Refusing(), Stop, Aborted())
  {
    assert OffsetOf(TwoParts(), Digest(0, 1)) == 0;
    assert Step(Started(), Arrive(0, 0), Pending([], 0));
    assert Step(Pending([], 0), Hand(0, false), Refusing()) by {
      var s' := Apply(TwoParts(), Pending([], 0), Hand(0, false));
      assert s'.handed == [[Handed(Digest(0, 1), false)], []] by {
        assert [] + [Handed(Digest(0, 1), false)] == [Handed(Digest(0, 1), false)];
      }
      assert s'.threads == [Thread(Dead, Some(Digest(0, 1)), 1)];
    }
    assert SomeDead(Refusing()) by { assert Refusing().threads[0].run.Dead?; }
    assert Stopped(Refusing());
  }

  lemma RestartAssign()
    ensures Assign(Resume(Aborted().t.all, 1, 0), BOTH) == (Ok, Started().t)
  {
    hide AssignFrom;
    AssignBoth(false);
    assert Resume(Aborted().t.all, 1, 0).all.parts == [Part(0, false, None, None), Part(1, false, None, None)];
    assert Limited([NodeParts(7, [0, 1], [], 0, 0, 0, false)], 1) == [Page([0, 1], [], 0)];
  }

  lemma Restart()
    ensures Step(Aborted(), BeginPage(1, 0, BOTH, true), StartedAgain())
  {
    hide Assign, AssignFrom, Total;
    RestartAssign();
    Total2<Digest>([], []);
    Total2([Handed(Digest(0, 1), false)], []);
    assert Requested(TwoParts(), Started().t.all.parts) == [0, 0];
    assert NewThreads(1) == [Thread(Running, None, 0)];
  }

  lemma Repeat()
    ensures Step(StartedAgain(), Arrive(0, 0), Pending([Handed(Digest(0, 1), false)], 1))
    ensures Step(Pending([Handed(Digest(0, 1), false)], 1), Hand(0, true), Repeated())
  {
    assert OffsetOf(TwoParts(), Digest(0, 1)) == 0;
    assert Step(StartedAgain(), Arrive(0, 0), Pending([Handed(Digest(0, 1), false)], 1));
    var s' := Apply(TwoParts(), Pending([Handed(Digest(0, 1), false)], 1), Hand(0, true));
    assert s'.handed == Repeated().handed by {
      assert [Handed(Digest(0, 1), false)] + [Handed(Digest(0, 1), true)]
             == [Handed(Digest(0, 1), false), Handed(Digest(0, 1), true)];
    }
    assert s'.log == [[Digest(0, 1)], []] by { assert [] + [Digest(0, 1)] == [Digest(0, 1)]; }
    assert s'.threads == [Thread(Running, None, 1)];
    assert s'.t.nodes == [Page([0, 1], [], 1)];
    assert s'.t.all.parts == Delivered(Running).t.all.parts;
  }

  /** The run: the callback refuses the first record, the page ends, and the next page hands the same record over
      again. */
  lemma RefusedRecordRepeats() returns (events: seq<Event>)
    ensures WorldOk(TwoParts()) && Valid(TwoParts(), Init(TwoParts()), events)
    ensures Run(TwoParts(), Init(TwoParts()), events).handed
            == [[Handed(Digest(0, 1), false), Handed(Digest(0, 1), true)], []]
  {
    hide WorldOk, Step, Valid, Run, Init;
    TwoPartsOk();
    NothingYet();
    Begin(); Refuse(); Restart(); Repeat();
    events := RepeatRun();
  }

  lemma RepeatRun() returns (events: seq<Event>)
    requires Leads([], Init(TwoParts())) && Step(Init(TwoParts()), BeginPage(1, 0, BOTH, true), Started())
    requires Step(Started(), Arrive(0, 0), Pending([], 0)) && Step(Pending([], 0), Hand(0, false), Refusing())
    requires Step(Refusing(), Stop, Aborted()) && Step(Aborted(), BeginPage(1, 0, BOTH, true), StartedAgain())
    requires Step(StartedAgain(), Arrive(0, 0), Pending([Handed(Digest(0, 1), false)], 1))
    requires Step(Pending([Handed(Digest(0, 1), false)], 1), Hand(0, true), Repeated())
    ensures Leads(events, Repeated())
  {
    hide Step, Valid, Run, Leads, Apply, Enabled, Init;
    events := Then([], Init(TwoParts()), BeginPage(1, 0, BOTH, true), Started());
    events := Then(events, Started(), Arrive(0, 0), Pending([], 0));
    events := Then(events, Pending([], 0), Hand(0, false), Refusing());
    events := Then(events, Refusing(), Stop, Aborted());
    events := Then(events, Aborted(), BeginPage(1, 0, BOTH, true), StartedAgain());
    events := Then(events, StartedAgain(), Arrive(0, 0), Pending([Handed(Digest(0, 1), false)], 1));
    events := Then(events, Pending([Handed(Digest(0, 1), false)], 1), Hand(0, true), Repeated());
  }
}
