/** What a deletion achieves: exactly when a session of which nothing is left in memory or in
    the store stays gone, and a run in which an adoption brings it back. */
module Deletion {
  import opened Text
  import opened Ownership
  import opened OwnershipLaws
  import opened OwnershipRaces

  /** Will bring the session into memory if nothing fails. */
  predicate Restores(pc: PC)
  {
    pc.Restoring? || pc.Publishing?
  }

  /** Is going to remove the ownership record. */
  predicate Unregisters(pc: PC)
  {
    Retiring(pc) || pc.Abandoning?
  }

  /** No thread restores the session, and whoever is about to claim it is refused: the record
      names its own node, and nobody is going to remove it. */
  predicate NoWayBack(c: Cluster)
  {
    forall th <- c.threads ::
      && !Restores(c.threads[th].pc)
      && (c.threads[th].pc.Claiming? ==>
            c.record == Some(c.threads[th].node) && forall a <- c.threads :: !Unregisters(c.threads[a].pc))
  }

  /** The session is neither in memory nor in the store. */
  predicate Emptied(c: Cluster)
  {
    c.created && !c.spec && c.memory == {}
  }

  /** The request is served here, or will be. */
  predicate Serves(pc: PC)
  {
    pc.Local? || pc == Leaving(Adopted)
  }

  // ----- with no way back nothing comes back -----

  /** What a step may do to an emptied session whose thread restores nothing. */
  predicate StaysEmpty(c: Cluster, v: Cluster, before: Thread, now: Thread)
  {
    && Emptied(v) && !Restores(now.pc) && (Serves(now.pc) ==> Serves(before.pc))
    && (now.pc.Claiming? ==> before.pc.Claiming? && now.node == before.node)
    && (Unregisters(now.pc) ==> Unregisters(before.pc))
    && (v.record != c.record ==> Unregisters(before.pc) || (before.pc.Claiming? && c.record.None?))
  }

  predicate Steps(c: Cluster, th: ThreadId, t: Thread)
  {
    && Emptied(c) && th in c.threads && c.threads[th] == t && !Restores(t.pc) && !Creates(t.pc)
    && (t.pc.Claiming? ==> c.record.Some?)
  }

  lemma RouteStays(c: Cluster, th: ThreadId, t: Thread, r: Result)
    requires Steps(c, th, t) && Routes(t.pc)
    ensures var v := RouteStep(c, th, t, r); th in v.threads && StaysEmpty(c, v, t, v.threads[th])
  {
  }

  lemma AdoptStays(c: Cluster, th: ThreadId, t: Thread, r: Result)
    requires Steps(c, th, t) && Adopts(t.pc)
    ensures var v := AdoptStep(c, th, t, r); th in v.threads && StaysEmpty(c, v, t, v.threads[th])
  {
  }

  lemma QueueStays(c: Cluster, th: ThreadId, t: Thread, r: Result)
    requires Steps(c, th, t) && Queues(t.pc)
    ensures var v := QueueStep(c, th, t, r); th in v.threads && StaysEmpty(c, v, t, v.threads[th])
  {
  }

  lemma RetireStays(c: Cluster, th: ThreadId, t: Thread, r: Result)
    requires Steps(c, th, t) && !Routes(t.pc) && !Adopts(t.pc) && !Queues(t.pc)
    ensures var v := RetireStep(c, th, t, r); th in v.threads && StaysEmpty(c, v, t, v.threads[th])
  {
  }

  lemma ActStays(c: Cluster, th: ThreadId, t: Thread, r: Result)
    requires Steps(c, th, t)
    ensures var v := ActIn(c, th, t, r); Moves(c, v, th) && StaysEmpty(c, v, t, v.threads[th])
  {
    hide RouteStep, AdoptStep, RetireStep, QueueStep, CreateStep, StaysEmpty, Routes, Adopts, Queues,
         KindIs, Moves, KindOf;
    ActMoves(c, th, t, r);
    if Routes(t.pc) {
      RouteStays(c, th, t, r);
    } else if Adopts(t.pc) {
      AdoptStays(c, th, t, r);
    } else if Queues(t.pc) {
      QueueStays(c, th, t, r);
    } else {
      RetireStays(c, th, t, r);
    }
  }

  lemma ActMoves(c: Cluster, th: ThreadId, t: Thread, r: Result)
    requires Steps(c, th, t)
    ensures Moves(c, ActIn(c, th, t, r), th)
  {
    assert !t.pc.Registering?;
    hide ActIn;
    ActKind(c, th, t, r);
  }

  predicate Gone(c: Cluster)
  {
    Emptied(c) && NoWayBack(c)
  }

  /** The threads served locally in v were so in c. */
  predicate NoneServed(c: Cluster, v: Cluster)
  {
    forall th <- v.threads :: Serves(v.threads[th].pc) ==> th in c.threads && Serves(c.threads[th].pc)
  }

  lemma ActGone(c: Cluster, th: ThreadId, r: Result)
    requires Base(c) && Gone(c) && th in c.threads
    ensures var v := ActIn(c, th, c.threads[th], r); Gone(v) && NoneServed(c, v)
  {
    hide ActIn, Restores, Unregisters, Serves, Running, SingleFlight, HopsOnce, Creates;
    var t := c.threads[th];
    var v := ActIn(c, th, t, r);
    ActStays(c, th, t, r);
    assert forall a <- v.threads :: a != th ==> v.threads[a] == c.threads[a];
    forall a <- v.threads | v.threads[a].pc.Claiming?
      ensures v.record == Some(v.threads[a].node) && forall b <- v.threads :: !Unregisters(v.threads[b].pc)
    {
      assert c.threads[a].pc.Claiming?;
      assert v.threads[a].node == c.threads[a].node;
    }
  }

  lemma QuietPlaces(pc: PC)
    requires pc.Done? || pc.Looking? || pc.RemovingCold? || pc.Removing?
    ensures !Restores(pc) && !Serves(pc) && !pc.Claiming?
    ensures pc.Done? || pc.Looking? ==> !Unregisters(pc)
  {
  }

  lemma ClaimingIsUp(c: Cluster, th: ThreadId)
    requires Running(c) && th in c.threads && c.threads[th].pc.Claiming?
    ensures c.threads[th].node in c.up
  {
  }

  lemma OtherGone(c: Cluster, step: Step)
    requires Running(c) && Gone(c) && !step.Act?
    ensures Gone(Next(c, step)) && NoneServed(c, Next(c, step))
  {
    hide Survivors, Restores, Unregisters, Serves, Running;
    var v := Next(c, step);
    if step.Crash? {
      CrashedThreads(c, step.n);
      QuietPlaces(Done);
    } else if step.Expire? {
      forall th <- c.threads | c.threads[th].pc.Claiming?
        ensures c.threads[th].node in c.up
      {
        ClaimingIsUp(c, th);
      }
    } else if step.Request? {
      QuietPlaces(Looking(step.mayAdopt));
    }
  }

  lemma NextGone(c: Cluster, step: Step)
    requires Base(c) && Gone(c)
    ensures Gone(Next(c, step)) && NoneServed(c, Next(c, step))
  {
    hide Running, CreatorFirst, SingleFlight, HopsOnce, Gone, NoneServed, ActIn;
    if step.Act? {
      if step.th in c.threads { ActGone(c, step.th, step.result); } else { Unmoved(c); }
    } else {
      OtherGone(c, step);
    }
  }

  lemma Unmoved(c: Cluster)
    ensures NoneServed(c, c)
  {
  }

  /** Once a session is gone it stays gone: no node ever has it in memory again, and no
      request is served locally any more. */
  lemma {:induction false} GoneForGood(c: Cluster, steps: seq<Step>)
    requires Base(c) && Gone(c)
    ensures var v := RunFrom(c, steps); Base(v) && Gone(v) && NoneServed(c, v)
  {
    if steps == [] {
      Unmoved(c);
    } else {
      hide Next, Gone, Base;
      var init := steps[..|steps| - 1];
      GoneForGood(c, init);
      NextBase(RunFrom(c, init), steps[|steps| - 1]);
      NextGone(RunFrom(c, init), steps[|steps| - 1]);
    }
  }

  // ----- with a way back something can come back -----

  /** Some run brings the session back into memory. */
  ghost predicate ComesBack(c: Cluster)
  {
    exists steps :: RunFrom(c, steps).memory != {}
  }

  lemma BackFromNext(c: Cluster, step: Step)
    requires ComesBack(Next(c, step))
    ensures ComesBack(c)
  {
    var more :| RunFrom(Next(c, step), more).memory != {};
    hide Next;
    RunOne(c, step);
    RunThen(c, [step], more);
    assert RunFrom(c, [step] + more).memory != {};
  }

  lemma RestorerBringsBack(c: Cluster, th: ThreadId)
    requires th in c.threads && Restores(c.threads[th].pc)
    ensures ComesBack(c)
    decreases if c.threads[th].pc.Restoring? then 1 else 0
  {
    var v := Next(c, Act(th, Ok));
    if c.threads[th].pc.Publishing? {
      assert c.threads[th].node in v.memory;
      assert RunFrom(v, []).memory != {};
    } else {
      assert v.threads[th] == c.threads[th].(pc := Publishing);
      RestorerBringsBack(v, th);
    }
    BackFromNext(c, Act(th, Ok));
  }

  lemma ClaimBringsBack(c: Cluster, th: ThreadId)
    requires th in c.threads && c.threads[th].pc.Claiming? && c.record.None?
    ensures ComesBack(c)
  {
    var v := Next(c, Act(th, Ok));
    assert v.threads[th] == c.threads[th].(pc := Restoring);
    RestorerBringsBack(v, th);
    BackFromNext(c, Act(th, Ok));
  }

  /** The node the record names may crash, and its lease expire. */
  lemma ExpiryBringsBack(c: Cluster, th: ThreadId)
    requires th in c.threads && c.threads[th].pc.Claiming? && c.record.Some? && c.record.value != c.threads[th].node
    ensures ComesBack(c)
  {
    var m := c.record.value;
    var v := Next(c, Crash(m));
    assert v.threads[th] == c.threads[th] && v.record == Some(m) && m !in v.up;
    ClaimBringsBack(Next(v, Expire(m)), th);
    BackFromNext(v, Expire(m));
    BackFromNext(c, Crash(m));
  }

  lemma UnregisterBringsBack(c: Cluster, th: ThreadId, a: ThreadId)
    requires th in c.threads && c.threads[th].pc.Claiming? && a in c.threads && Unregisters(c.threads[a].pc)
    ensures ComesBack(c)
    decreases if c.threads[a].pc.RemovingCold? || c.threads[a].pc.Removing? then 1 else 0
  {
    var v := Next(c, Act(a, Ok));
    assert th != a && v.threads[th] == c.threads[th];
    if c.threads[a].pc.RemovingCold? || c.threads[a].pc.Removing? {
      assert a in v.threads && (v.threads[a].pc.UnregisteringCold? || v.threads[a].pc.Unregistering?);
      UnregisterBringsBack(v, th, a);
    } else {
      assert v.record.None?;
      ClaimBringsBack(v, th);
    }
    BackFromNext(c, Act(a, Ok));
  }

  lemma WayBackBringsBack(c: Cluster)
    requires !NoWayBack(c)
    ensures ComesBack(c)
  {
    hide ComesBack, Restores, Unregisters;
    var th :| th in c.threads && !(
      && !Restores(c.threads[th].pc)
      && (c.threads[th].pc.Claiming? ==>
            c.record == Some(c.threads[th].node) && forall a <- c.threads :: !Unregisters(c.threads[a].pc)));
    if Restores(c.threads[th].pc) {
      RestorerBringsBack(c, th);
    } else if c.record.None? {
      ClaimBringsBack(c, th);
    } else if c.record != Some(c.threads[th].node) {
      ExpiryBringsBack(c, th);
    } else {
      var a :| a in c.threads && Unregisters(c.threads[a].pc);
      UnregisterBringsBack(c, th, a);
    }
  }

  /** When a session whose spec and memory are gone comes back in some run: exactly when a
      thread is restoring it, or one that has read the spec and is about to claim is not kept
      from it by a record that names its own node and that nobody will remove. */
  lemma BackExactly(c: Cluster)
    requires Base(c) && Emptied(c)
    ensures ComesBack(c) <==> !NoWayBack(c)
  {
    if NoWayBack(c) {
      hide NoWayBack, Base;
      forall steps
        ensures RunFrom(c, steps).memory == {}
      {
        GoneForGood(c, steps);
      }
    } else {
      WayBackBringsBack(c);
    }
  }

  /** While no record is left either, only an adoption that has read the spec is a way back. */
  lemma BackWithoutRecord(run: seq<Step>)
    requires Emptied(Run(run)) && Run(run).record.None?
    ensures var c := Run(run);
            ComesBack(c) <==> exists th <- c.threads :: Restores(c.threads[th].pc) || c.threads[th].pc.Claiming?
  {
    hide Run, Base, Restores, Emptied, ComesBack;
    Always(run);
    BackExactly(Run(run));
  }

  // ----- the race between a deletion and an adoption -----

  /** Thread 1 deletes on node 0, thread 2 is a request on node 1. */
  function Race(record: Option<NodeId>, spec: bool, memory: set<NodeId>, adopting: map<NodeId, ThreadId>,
                one: PC, two: PC): Cluster
  {
    With(With(Cluster(record, {0, 1}, {0, 1}, spec, memory, adopting, map[0 := Thread(0, Done, 0)], 2, true),
             1, 0, one), 2, 1, two)
  }

  lemma DeleteStarts()
    ensures Next(Next(Served(), Delete(1, 0)), Request(2, 1, true))
         == Race(Some(0), true, {0}, map[], Removing, Looking(true))
  {
    assert Next(Served(), Delete(1, 0)) == With(Served(), 1, 0, Removing);
  }

  lemma DeleteRemoves()
    ensures Next(Race(Some(0), true, {0}, map[], Removing, Looking(true)), Act(1, Ok))
         == Race(Some(0), true, {}, map[], Unregistering, Looking(true))
  {
  }

  lemma DeleteUnregisters()
    ensures Next(Race(Some(0), true, {}, map[], Unregistering, Looking(true)), Act(1, Ok))
         == Race(None, true, {}, map[], DeletingSpec, Looking(true))
  {
  }

  lemma RequestSeeks()
    ensures Next(Next(Race(None, true, {}, map[], DeletingSpec, Looking(true)), Act(2, Ok)), Act(2, Ok))
         == Race(None, true, {}, map[], DeletingSpec, Adopting)
  {
    assert Next(Race(None, true, {}, map[], DeletingSpec, Looking(true)), Act(2, Ok))
        == Race(None, true, {}, map[], DeletingSpec, Locating(true));
  }

  lemma RequestLoads()
    ensures Next(Next(Race(None, true, {}, map[], DeletingSpec, Adopting), Act(2, Ok)), Act(2, Ok))
         == Race(None, true, {}, map[1 := 2], DeletingSpec, Claiming)
  {
    assert Next(Race(None, true, {}, map[], DeletingSpec, Adopting), Act(2, Ok))
        == Race(None, true, {}, map[1 := 2], DeletingSpec, LoadingSpec);
  }

  lemma DeleteEnds()
    ensures Next(Race(None, true, {}, map[1 := 2], DeletingSpec, Claiming), Act(1, Ok))
         == Race(None, false, {}, map[1 := 2], Done, Claiming)
  {
  }

  lemma RequestClaims()
    ensures Next(Next(Race(None, false, {}, map[1 := 2], Done, Claiming), Act(2, Ok)), Act(2, Ok))
         == Race(Some(1), false, {}, map[1 := 2], Done, Publishing)
  {
    assert Next(Race(None, false, {}, map[1 := 2], Done, Claiming), Act(2, Ok))
        == Race(Some(1), false, {}, map[1 := 2], Done, Restoring);
  }

  lemma RequestPublishes()
    ensures Next(Race(Some(1), false, {}, map[1 := 2], Done, Publishing), Act(2, Ok))
         == Race(Some(1), false, {1}, map[1 := 2], Done, Leaving(Adopted))
  {
  }

  lemma RequestLeaves()
    ensures Next(Race(Some(1), false, {1}, map[1 := 2], Done, Leaving(Adopted)), Act(2, Ok))
         == Race(Some(1), false, {1}, map[], Done, Local)
  {
  }

  lemma Once(run: seq<Step>, step: Step) returns (steps: seq<Step>)
    ensures Run(steps) == Next(Run(run), step)
  {
    steps := Then(Initial(), run, step);
  }

  lemma Twice(run: seq<Step>, first: Step, second: Step) returns (steps: seq<Step>)
    ensures Run(steps) == Next(Next(Run(run), first), second)
  {
    steps := Once(run, first);
    steps := Once(steps, second);
  }

  /** A request that loads the spec between the deletion of the record and that of the spec
      adopts the session: the deletion has finished, and node 1 serves the session. */
  lemma DeletionCanBeOvertaken()
    ensures exists steps :: Run(steps) == Race(Some(1), false, {1}, map[], Done, Local)
  {
    hide Next, Run, Race, Served;
    var s := CreatedOnNode0();
    s := Twice(s, Delete(1, 0), Request(2, 1, true));
    DeleteStarts();
    s := Twice(s, Act(1, Ok), Act(1, Ok));
    DeleteRemoves();
    DeleteUnregisters();
    s := Twice(s, Act(2, Ok), Act(2, Ok));
    RequestSeeks();
    s := Twice(s, Act(2, Ok), Act(2, Ok));
    RequestLoads();
    s := Once(s, Act(1, Ok));
    DeleteEnds();
    s := Twice(s, Act(2, Ok), Act(2, Ok));
    RequestClaims();
    s := Twice(s, Act(2, Ok), Act(2, Ok));
    RequestPublishes();
    RequestLeaves();
  }
}
