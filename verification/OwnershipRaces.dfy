/** What overlapping removals can do: exactly when the record stops naming the node that
    holds the session, and a run that ends with two nodes holding it. */
module OwnershipRaces {
  import opened Text
  import opened Ownership
  import opened OwnershipLaws

  // ----- the record names the holder until it is removed under it -----

  /** Has registered or claimed the session, and has not stored it yet. */
  predicate Claimed(pc: PC)
  {
    pc.Storing? || pc.Restoring? || pc.Abandoning? || pc.Publishing?
  }

  /** Whoever has the session in memory or has claimed it is the one the record names. */
  predicate Backed(c: Cluster)
  {
    && (forall n <- c.memory :: c.record == Some(n))
    && (forall th <- c.threads :: Claimed(c.threads[th].pc) ==> c.record == Some(c.threads[th].node) && c.memory == {})
    && (forall a <- c.threads, b <- c.threads :: Claimed(c.threads[a].pc) && Claimed(c.threads[b].pc) ==> a == b)
  }

  predicate Held(c: Cluster)
  {
    c.memory != {} || exists th <- c.threads :: Claimed(c.threads[th].pc)
  }

  /** A deletion or an eviction removes the record of a session that is held again. */
  predicate Strips(c: Cluster, step: Step)
  {
    && step.Act? && step.th in c.threads && step.result != Failed
    && (c.threads[step.th].pc.UnregisteringCold? || c.threads[step.th].pc.Unregistering?)
    && Held(c)
  }

  predicate NeverStrips(steps: seq<Step>)
  {
    steps == [] || (NeverStrips(steps[..|steps| - 1]) && !Strips(Run(steps[..|steps| - 1]), steps[|steps| - 1]))
  }

  lemma ClaimedMeans(pc: PC)
    ensures Claimed(pc) <==> InHand(pc) && !Retiring(pc)
    ensures Claimed(pc) ==> !Over(pc)
  {
  }

  lemma BackedMove(c: Cluster, v: Cluster, th: ThreadId, k: Kind)
    requires Backed(c) && Moves(c, v, th) && KindIs(c, v, c.threads[th], v.threads[th], k)
    requires k == Releases && !Claimed(c.threads[th].pc) ==> v.record == c.record || !Held(c)
    ensures Backed(v)
  {
    ClaimedMeans(c.threads[th].pc);
    ClaimedMeans(v.threads[th].pc);
    hide Claimed, InHand, Removes, Retiring;
    assert forall a <- v.threads :: a != th ==> v.threads[a] == c.threads[a];
  }

  lemma StripAct(c: Cluster, th: ThreadId, r: Result)
    requires Backed(c) && Strips(c, Act(th, r))
    ensures !Backed(ActIn(c, th, c.threads[th], r))
  {
    var v := ActIn(c, th, c.threads[th], r);
    assert v.record == None && v.memory == c.memory;
    if c.memory == {} {
      var a :| a in c.threads && Claimed(c.threads[a].pc);
      assert a in v.threads && v.threads[a] == c.threads[a];
    } else {
      assert !(forall n :: n !in c.memory) by { assert (forall n :: n !in c.memory) ==> c.memory == {}; }
    }
  }

  lemma ActBacked(c: Cluster, th: ThreadId, r: Result)
    requires Base(c) && Backed(c) && th in c.threads && !Strips(c, Act(th, r))
    ensures Backed(ActIn(c, th, c.threads[th], r))
  {
    hide ActIn, Moves, KindIs, KindOf, Backed, Running, SingleFlight, HopsOnce;
    var t := c.threads[th];
    var v := ActIn(c, th, t, r);
    ActKind(c, th, t, r);
    ReleaseKeeps(c, th, t, r);
    BackedMove(c, v, th, KindOf(c, t.pc, r));
  }

  lemma ReleaseKeeps(c: Cluster, th: ThreadId, t: Thread, r: Result)
    requires th in c.threads && c.threads[th] == t && !Strips(c, Act(th, r))
    ensures KindOf(c, t.pc, r) == Releases && !Claimed(t.pc) ==> ActIn(c, th, t, r).record == c.record || !Held(c)
  {
    hide Held;
    if KindOf(c, t.pc, r) == Releases && !Claimed(t.pc) {
      assert t.pc.UnregisteringCold? || t.pc.Unregistering?;
    }
  }

  lemma OtherBacked(c: Cluster, step: Step)
    requires Running(c) && Backed(c) && (step.Boot? || step.Crash? || step.Expire?)
    ensures Backed(Next(c, step))
  {
    hide Survivors;
    if step.Crash? {
      CrashedThreads(c, step.n);
    } else if step.Expire? {
      forall th <- c.threads | Claimed(c.threads[th].pc)
        ensures c.threads[th].node in c.up
      {
        ClaimedMeans(c.threads[th].pc);
      }
    }
  }

  lemma SpawnBacked(c: Cluster, step: Step)
    requires Backed(c) && (step.Request? || step.Evict? || step.Delete?)
    ensures Backed(Next(c, step))
  {
    hide Claimed;
    var v := Next(c, step);
    if v != c {
      FreshPlaces(v.threads[step.th].pc);
      ClaimedMeans(v.threads[step.th].pc);
      assert forall a <- v.threads :: a != step.th ==> a in c.threads && v.threads[a] == c.threads[a];
    }
  }

  /** However deletions and evictions overlap: a step makes the record stop naming the holder
      exactly when it removes the record of a session that is held. */
  lemma StripsExactly(c: Cluster, step: Step)
    requires Base(c) && Backed(c)
    ensures Backed(Next(c, step)) <==> !Strips(c, step)
  {
    hide Backed, ActIn, Held;
    match step
    case Act(th, r) =>
      if th in c.threads {
        hide Base;
        if Strips(c, step) { StripAct(c, th, r); } else { ActBacked(c, th, r); }
      }
    case Boot => OtherBacked(c, step);
    case Crash(_) => OtherBacked(c, step);
    case Expire(_) => OtherBacked(c, step);
    case _ => SpawnBacked(c, step);
  }

  lemma {:induction false} AlwaysBacked(steps: seq<Step>)
    requires NeverStrips(steps)
    ensures Base(Run(steps)) && Backed(Run(steps))
  {
    Always(steps);
    if steps != [] {
      hide Base, Backed, Next, Strips;
      AlwaysBacked(steps[..|steps| - 1]);
      StripsExactly(Run(steps[..|steps| - 1]), steps[|steps| - 1]);
    }
  }

  /** Over all runs in which no removal strips a held session of its record: who has the
      session in memory or has claimed it is the one the record names, so there is at most
      one, and no adoption replaces a session in memory. */
  lemma HolderIsRecorded(steps: seq<Step>)
    requires NeverStrips(steps)
    ensures var c := Run(steps);
            && (forall n <- c.memory :: c.record == Some(n))
            && (forall m <- c.memory, n <- c.memory :: m == n)
            && (forall th <- c.threads :: Claimed(c.threads[th].pc) ==>
                     c.record == Some(c.threads[th].node) && c.memory == {})
            && (forall a <- c.threads, b <- c.threads ::
                     Claimed(c.threads[a].pc) && Claimed(c.threads[b].pc) ==> a == b)
  {
    hide Run, NeverStrips;
    AlwaysBacked(steps);
  }

  lemma OwnedStripsNot(c: Cluster, step: Step)
    requires Owned(c)
    ensures !Strips(c, step)
  {
    if step.Act? && step.th in c.threads {
      var t := c.threads[step.th];
      if t.pc.UnregisteringCold? || t.pc.Unregistering? {
        assert InHand(t.pc) && c.record == Some(t.node);
        assert forall n <- c.memory :: false;
        forall a <- c.threads
          ensures !Claimed(c.threads[a].pc)
        {
          ClaimedMeans(c.threads[a].pc);
        }
      }
    }
  }

  /** Removals that do not overlap never do that. */
  lemma {:induction false} OneAtATimeStripsNot(steps: seq<Step>)
    requires OneAtATime(steps)
    ensures NeverStrips(steps)
  {
    if steps != [] {
      OneAtATimeStripsNot(steps[..|steps| - 1]);
      AlwaysOwned(steps[..|steps| - 1]);
      hide Run, Strips, Base, Owned;
      OwnedStripsNot(Run(steps[..|steps| - 1]), steps[|steps| - 1]);
    }
  }

  // ----- runs put together -----

  lemma {:induction false} RunThen(c: Cluster, a: seq<Step>, b: seq<Step>)
    ensures RunFrom(c, a + b) == RunFrom(RunFrom(c, a), b)
  {
    if b == [] {
      assert a + b == a;
    } else {
      hide Next;
      RunThen(c, a, b[..|b| - 1]);
      assert (a + b)[..|a + b| - 1] == a + b[..|b| - 1];
    }
  }

  lemma RunOne(c: Cluster, step: Step)
    ensures RunFrom(c, [step]) == Next(c, step)
  {
    hide Next;
    assert [step][..0] == [];
  }

  /** Thread th makes k steps that succeed. */
  function Acts(c: Cluster, th: ThreadId, k: nat): Cluster
  {
    if k == 0 then c else Next(Acts(c, th, k - 1), Act(th, Ok))
  }

  lemma {:induction false} ActsRun(c: Cluster, th: ThreadId, k: nat) returns (steps: seq<Step>)
    ensures RunFrom(c, steps) == Acts(c, th, k)
  {
    hide Next;
    if k == 0 {
      steps := [];
    } else {
      var init := ActsRun(c, th, k - 1);
      RunOne(Acts(c, th, k - 1), Act(th, Ok));
      RunThen(c, init, [Act(th, Ok)]);
      steps := init + [Act(th, Ok)];
    }
  }

  /** A run goes on with k steps of th. */
  lemma Chained(c: Cluster, run: seq<Step>, th: ThreadId, k: nat) returns (steps: seq<Step>)
    ensures RunFrom(c, steps) == Acts(RunFrom(c, run), th, k)
  {
    var more := ActsRun(RunFrom(c, run), th, k);
    RunThen(c, run, more);
    steps := run + more;
  }

  lemma Then(c: Cluster, run: seq<Step>, step: Step) returns (steps: seq<Step>)
    ensures RunFrom(c, steps) == Next(RunFrom(c, run), step)
  {
    RunOne(RunFrom(c, run), step);
    RunThen(c, run, [step]);
    steps := run + [step];
  }

  function With(c: Cluster, th: ThreadId, n: NodeId, pc: PC): Cluster
  {
    c.(threads := c.threads[th := Thread(n, pc, 0)])
  }

  lemma GoWith(c: Cluster, th: ThreadId, n: NodeId, pc: PC, next: PC)
    ensures With(c, th, n, pc).Go(th, next) == With(c, th, n, next)
  {
    assert c.threads[th := Thread(n, pc, 0)][th := Thread(n, next, 0)] == c.threads[th := Thread(n, next, 0)];
  }

  /** A request on node n that may adopt, while no record exists. */
  predicate Adoptable(c: Cluster, th: ThreadId, n: NodeId)
  {
    c.created && c.spec && c.record.None? && n in c.up && n !in c.memory && n !in c.adopting && th !in c.threads
  }

  lemma RequestReaches(c: Cluster, th: ThreadId, n: NodeId)
    requires Adoptable(c, th, n)
    ensures Acts(Next(c, Request(th, n, true)), th, 3)
         == With(c.(adopting := c.adopting[n := th]), th, n, LoadingSpec)
  {
    var v := Next(c, Request(th, n, true));
    assert v == With(c, th, n, Looking(true));
    GoWith(c, th, n, Looking(true), Locating(true));
    assert Acts(v, th, 1) == With(c, th, n, Locating(true));
    GoWith(c, th, n, Locating(true), Adopting);
    assert Acts(v, th, 2) == With(c, th, n, Adopting);
    GoWith(c.(adopting := c.adopting[n := th]), th, n, Adopting, LoadingSpec);
  }

  lemma LoadedRestores(c: Cluster, th: ThreadId, n: NodeId)
    requires c.spec && c.record.None?
    ensures Acts(With(c, th, n, LoadingSpec), th, 2) == With(c.(record := Some(n)), th, n, Restoring)
  {
    var v := With(c, th, n, LoadingSpec);
    GoWith(c, th, n, LoadingSpec, Claiming);
    assert Acts(v, th, 1) == With(c, th, n, Claiming);
    GoWith(c.(record := Some(n)), th, n, Claiming, Restoring);
  }

  lemma RestoredPublishes(c: Cluster, th: ThreadId, n: NodeId)
    ensures Acts(With(c, th, n, Restoring), th, 2) == With(c.(memory := c.memory + {n}), th, n, Leaving(Adopted))
  {
    var v := With(c, th, n, Restoring);
    GoWith(c, th, n, Restoring, Publishing);
    assert Acts(v, th, 1) == With(c, th, n, Publishing);
    GoWith(c.(memory := c.memory + {n}), th, n, Publishing, Leaving(Adopted));
  }

  /** Without a record any running node can adopt the session, whoever has it already. */
  lemma Adoption(c: Cluster, th: ThreadId, n: NodeId) returns (steps: seq<Step>)
    requires Adoptable(c, th, n)
    ensures RunFrom(c, steps)
         == With(c.(record := Some(n), memory := c.memory + {n}, adopting := c.adopting[n := th]),
                 th, n, Leaving(Adopted))
  {
    var flying := c.(adopting := c.adopting[n := th]);
    RequestReaches(c, th, n);
    LoadedRestores(flying, th, n);
    RestoredPublishes(flying.(record := Some(n)), th, n);
    hide Next, Acts, RunFrom, With;
    var v := Next(c, Request(th, n, true));
    RunOne(c, Request(th, n, true));
    steps := Chained(c, [Request(th, n, true)], th, 3);
    steps := Chained(c, steps, th, 2);
    steps := Chained(c, steps, th, 2);
  }

  // ----- what follows once a holder has lost its record -----

  /** Once a held session has lost its record, while its spec exists, any other node that is
      not busy adopting can come to hold it too. */
  lemma StripSplits(c: Cluster, step: Step, th: ThreadId, n: NodeId) returns (more: seq<Step>)
    requires Strips(c, step) && c.memory != {} && c.spec && c.created
    requires th !in c.threads && n in c.up && n !in c.memory && n !in c.adopting
    ensures RunFrom(Next(c, step), more).memory == c.memory + {n}
  {
    more := Adoption(Next(c, step), th, n);
  }

  /** Node 0 holds the created session, node 1 has joined. */
  function Served(): Cluster
  {
    Cluster(Some(0), {0, 1}, {0, 1}, true, {0}, map[], map[0 := Thread(0, Done, 0)], 2, true)
  }

  lemma CreatedOnNode0() returns (steps: seq<Step>)
    ensures Run(steps) == Served()
  {
    var c := Cluster(None, {0}, {0}, false, {}, map[], map[], 1, false);
    var r := c.(spec := true, record := Some(0));
    assert Initial() == With(c, 0, 0, WritingSpec);
    GoWith(c.(spec := true), 0, 0, WritingSpec, Registering);
    assert Acts(Initial(), 0, 1) == With(c.(spec := true), 0, 0, Registering);
    GoWith(r, 0, 0, Registering, Storing);
    assert Acts(Initial(), 0, 2) == With(r, 0, 0, Storing);
    GoWith(r.(memory := {0}, created := true), 0, 0, Storing, Done);
    assert Acts(Initial(), 0, 3) == With(r.(memory := {0}, created := true), 0, 0, Done);
    assert Next(Acts(Initial(), 0, 3), Boot) == Served();
    hide Next, Acts;
    steps := ActsRun(Initial(), 0, 3);
    steps := Then(Initial(), steps, Boot);
  }

  /** Two deletions have begun on node 0 while it held the session; the first has removed the
      record. */
  function Overlapping(): Cluster
  {
    With(With(Served().(record := None, memory := {}), 1, 0, DeletingSpec), 2, 0, Removing)
  }

  /** The second deletion, before and while the first one goes on. */
  function Second(record: Option<NodeId>, memory: set<NodeId>): Cluster
  {
    With(Served().(record := record, memory := memory), 2, 0, Removing)
  }

  lemma SwapThreads(c: Cluster, pc: PC)
    ensures With(With(c, 1, 0, pc), 2, 0, Removing) == With(With(c, 2, 0, Removing), 1, 0, pc)
  {
    assert With(With(c, 1, 0, pc), 2, 0, Removing).threads == With(With(c, 2, 0, Removing), 1, 0, pc).threads;
  }

  lemma DeletionsBegin()
    ensures Next(Next(Served(), Delete(1, 0)), Delete(2, 0)) == With(Second(Some(0), {0}), 1, 0, Removing)
  {
    assert Next(Served(), Delete(1, 0)) == With(Served(), 1, 0, Removing);
    SwapThreads(Served(), Removing);
  }

  lemma FirstRemoves()
    ensures Acts(With(Second(Some(0), {0}), 1, 0, Removing), 1, 2) == With(Second(None, {}), 1, 0, DeletingSpec)
  {
    hide Served;
    var v := With(Second(Some(0), {0}), 1, 0, Removing);
    assert {0} - {0} == {};
    GoWith(Second(Some(0), {}), 1, 0, Removing, Unregistering);
    assert Acts(v, 1, 1) == With(Second(Some(0), {}), 1, 0, Unregistering);
    GoWith(Second(None, {}), 1, 0, Unregistering, DeletingSpec);
  }

  lemma DeletionsOverlap() returns (steps: seq<Step>)
    ensures Run(steps) == Overlapping()
  {
    DeletionsBegin();
    FirstRemoves();
    SwapThreads(Served().(record := None, memory := {}), DeletingSpec);
    hide Next, Acts, Served, RunFrom, With;
    steps := CreatedOnNode0();
    steps := Then(Initial(), steps, Delete(1, 0));
    steps := Then(Initial(), steps, Delete(2, 0));
    steps := Chained(Initial(), steps, 1, 2);
  }

  /** The second deletion goes on after node 1 has adopted the session. */
  lemma SecondRemoves() returns (steps: seq<Step>, c: Cluster)
    ensures Run(steps) == c && Strips(c, Act(2, Ok)) && c.memory == {1} && c.spec && c.created
    ensures 4 !in c.threads && 0 in c.up && 0 !in c.adopting
  {
    steps := DeletionsOverlap();
    var o := Overlapping();
    var a := Adoption(o, 3, 1);
    RunThen(Initial(), steps, a);
    var b := RunFrom(o, a);
    assert b.threads[2] == Thread(0, Removing, 0) && b.memory == {1};
    c := Next(b, Act(2, Ok));
    assert c.memory == {1} && c.threads[2] == Thread(0, Unregistering, 0);
    steps := Then(Initial(), steps + a, Act(2, Ok));
  }

  /** Two deletions overlap, and a request on node 1 comes between them: the second one
      removes the record of node 1, and in the end both nodes hold the session. */
  lemma TwoOwners()
    ensures exists steps :: Run(steps).memory == {0, 1}
  {
    hide Strips, Next, RunFrom;
    var steps, c := SecondRemoves();
    var more := StripSplits(c, Act(2, Ok), 4, 0);
    assert {1} + {0} == {0, 1};
    steps := Then(Initial(), steps, Act(2, Ok));
    RunThen(Initial(), steps, more);
    assert Run(steps + more).memory == {0, 1};
  }
}
