/** The event log of a session over every interleaving: turns do not overlap, each accepted
    turn is announced once and finished once, a cancelled status means a cancel, and a
    running turn keeps its sandbox. */
module TurnLog {
  import opened Text
  import opened Session
  import opened TurnProtocol
  import opened TurnInvariants
  import SandboxLedger

  // ----- the shape of a log -----

  /** What a reader of the log knows: no turn is open, one is, or the log is malformed. */
  datatype Reading = Between | Within(t: TurnId) | Broken

  function Feed(r: Reading, e: Entry): Reading
  {
    match e.kind
    case TurnStarted => if r.Between? then Within(e.t) else Broken
    case TurnFinished(_) => if r == Within(e.t) then Between else Broken
    case _ => if r == Within(e.t) then r else Broken
  }

  function Read(log: seq<Entry>): Reading
  {
    if log == [] then Between else Feed(Read(log[..|log| - 1]), log[|log| - 1])
  }

  function Starts(log: seq<Entry>, t: TurnId): nat
  {
    if log == [] then 0
    else Starts(log[..|log| - 1], t) + if log[|log| - 1].t == t && log[|log| - 1].kind.TurnStarted? then 1 else 0
  }

  function Finishes(log: seq<Entry>, t: TurnId): nat
  {
    if log == [] then 0
    else Finishes(log[..|log| - 1], t) + if log[|log| - 1].t == t && log[|log| - 1].kind.TurnFinished? then 1 else 0
  }

  lemma Snoc(log: seq<Entry>, e: Entry, t: TurnId)
    ensures Read(log + [e]) == Feed(Read(log), e)
    ensures Starts(log + [e], t) == Starts(log, t) + if e.t == t && e.kind.TurnStarted? then 1 else 0
    ensures Finishes(log + [e], t) == Finishes(log, t) + if e.t == t && e.kind.TurnFinished? then 1 else 0
  {
    assert (log + [e])[..|log|] == log;
  }

  // ----- how far a thread is with its turn -----

  datatype Stage = NoTurn | Before | Open | After

  function StageOf(pc: PC): Stage
  {
    if Owned(pc).None? then NoTurn
    else if pc.Accepted? || pc.Announcing? then Before
    else if pc.Ended? || pc.Closing? then After
    else Open
  }

  /** What the thread's turn has published, it may not yet have recorded as activity. */
  predicate Active(pc: PC)
  {
    StageOf(pc).Open? || pc.Ended?
  }

  // ----- the invariants -----

  /** The reader of the log is inside the turn of the one thread that has it open. */
  predicate LogFollowsThreads(w: World)
  {
    && !Read(w.log).Broken?
    && (forall th <- w.threads :: StageOf(w.threads[th]).Open? ==> Within(Owned(w.threads[th]).value) == Read(w.log))
    && (Read(w.log).Within? ==> exists th <- w.threads :: StageOf(w.threads[th]).Open?)
  }

  predicate CountsOf(w: World, t: TurnId, starts: nat, finishes: nat)
  {
    Starts(w.log, t) == starts && Finishes(w.log, t) == finishes
  }

  predicate CountsFit(w: World, pc: PC)
  {
    Owned(pc).Some? ==>
      CountsOf(w, Owned(pc).value, if StageOf(pc).Before? then 0 else 1, if StageOf(pc).After? then 1 else 0)
  }

  ghost predicate Counts(w: World)
  {
    && (forall t <- w.turnsDone :: CountsOf(w, t, 1, 1))
    && (forall t: TurnId :: t !in w.turnsDone && w.s.turn != Some(t) ==> CountsOf(w, t, 0, 0))
    && (forall th <- w.threads :: CountsFit(w, w.threads[th]))
  }

  predicate Over(w: World, t: TurnId)
  {
    t in w.turnsDone || w.s.turn == Some(t)
  }

  ghost predicate Cancels(w: World)
  {
    && (forall e <- w.log :: e.kind == TurnFinished(StatusCancelled) ==> e.t in w.cancelHits)
    && (forall th <- w.threads :: w.threads[th].Reporting? && w.threads[th].asCancelled ==>
             w.threads[th].t in w.cancelHits)
    && (w.s.cancelled && w.s.turn.Some? ==> w.s.turn.value in w.cancelHits)
  }

  /** A cancel has hit a turn that was running; it is accepted once that turn is over. */
  ghost predicate Hits(w: World)
  {
    && (forall t <- w.cancelHits :: Over(w, t))
    && (forall th <- w.threads :: w.threads[th].AwaitingDone? ==> w.threads[th].t in w.cancelHits)
    && (forall th <- w.threads :: w.threads[th].CancelAccepted? ==>
          w.threads[th].t in w.cancelHits && w.threads[th].t in w.turnsDone)
  }

  /** Activity covers every event published, unless a turn is on its way to record it. */
  predicate Clock(w: World)
  {
    && w.s.lastActivity <= w.now
    && (forall e <- w.log :: e.time <= w.now)
    && ((exists th <- w.threads :: Active(w.threads[th])) || forall e <- w.log :: e.time <= w.s.lastActivity)
  }

  predicate RunningHasSandbox(w: World)
  {
    forall th <- w.threads :: w.threads[th].Running? ==> w.s.closed || w.s.sandbox == Some(w.threads[th].sb)
  }

  // ----- what one step does -----

  predicate Appends(w: World, v: World, pc: PC, pc': PC, e: Entry)
  {
    && v.log == w.log + [e] && Owned(pc) == Some(e.t) == Owned(pc') && e.time == w.now
    && match e.kind
       case TurnStarted => StageOf(pc).Before? && StageOf(pc').Open?
       case TurnFinished(status) =>
         StageOf(pc).Open? && StageOf(pc').After? && pc'.Ended?
         && (status.StatusCancelled? ==> pc.Reporting? && pc.asCancelled && pc.t == e.t)
       case _ => StageOf(pc).Open? && StageOf(pc').Open? && pc' == pc
  }

  predicate LogEffect(w: World, v: World, pc: PC, pc': PC)
  {
    if v.log == w.log then
      || StageOf(pc') == StageOf(pc)
      || (pc.Starting? && StageOf(pc').Before? && w.s.turn.None?)
      || (pc.Closing? && StageOf(pc').NoTurn?)
    else
      |v.log| > 0 && Appends(w, v, pc, pc', v.log[|v.log| - 1])
  }

  predicate CancelEffect(w: World, v: World, pc: PC, pc': PC)
  {
    && w.cancelHits <= v.cancelHits <= w.cancelHits + (if w.s.turn.Some? then {w.s.turn.value} else {})
    && (pc'.Reporting? && pc'.asCancelled ==> pc == pc' || (pc == Failing(pc'.t) && w.s.cancelled))
    && (v.s.cancelled && v.s.turn.Some? ==> (w.s.cancelled && v.s.turn == w.s.turn) || v.s.turn.value in v.cancelHits)
    && (pc'.AwaitingDone? ==> pc == pc' || pc'.t in v.cancelHits)
    && (pc'.CancelAccepted? ==> pc == pc' || (pc == AwaitingDone(pc'.t) && pc'.t in w.turnsDone))
  }

  predicate ClockEffect(w: World, v: World, pc: PC, pc': PC)
  {
    && v.now == w.now
    && (v.s.lastActivity == w.s.lastActivity || v.s.lastActivity == w.now)
    && (Active(pc) && !Active(pc') ==> v.s.lastActivity == w.now)
    && (v.log != w.log ==> Active(pc'))
  }

  predicate SandboxEffect(w: World, v: World, pc: PC, pc': PC)
  {
    && (w.s.closed ==> v.s.closed)
    && (pc'.Running? ==> pc == pc' || v.s.sandbox == Some(pc'.sb))
    && (v.s.sandbox == w.s.sandbox || v.s.closed || pc.Installing? || pc.RollingBack? || w.s.turn.None?)
  }

  ghost predicate Effect(w: World, v: World, pc: PC, pc': PC)
  {
    LogEffect(w, v, pc, pc') && CancelEffect(w, v, pc, pc')
    && ClockEffect(w, v, pc, pc') && SandboxEffect(w, v, pc, pc')
  }

  lemma BuilderEffect(w: World, th: ThreadId, pc: PC, choice: Choice)
    requires JobOf(pc).Some?
    ensures var v := ActIn(w, th, pc, choice);
            LogEffect(w, v, pc, PcOf(v, th)) && CancelEffect(w, v, pc, PcOf(v, th))
  {
  }

  lemma BuilderEffect'(w: World, th: ThreadId, pc: PC, choice: Choice)
    requires JobOf(pc).Some?
    ensures var v := ActIn(w, th, pc, choice);
            ClockEffect(w, v, pc, PcOf(v, th)) && SandboxEffect(w, v, pc, PcOf(v, th))
  {
  }

  lemma InTurnEffect(w: World, th: ThreadId, pc: PC, choice: Choice)
    requires InTurn(pc) && PcOf(w, th) == pc
    ensures var v := ActIn(w, th, pc, choice);
            LogEffect(w, v, pc, PcOf(v, th))
  {
  }

  lemma InTurnEffect'(w: World, th: ThreadId, pc: PC, choice: Choice)
    requires InTurn(pc) && PcOf(w, th) == pc
    ensures var v := ActIn(w, th, pc, choice);
            CancelEffect(w, v, pc, PcOf(v, th)) && ClockEffect(w, v, pc, PcOf(v, th))
            && SandboxEffect(w, v, pc, PcOf(v, th))
  {
  }

  lemma OtherEffect(w: World, th: ThreadId, pc: PC, choice: Choice)
    requires JobOf(pc).None? && !InTurn(pc) && PcOf(w, th) == pc
    ensures var v := ActIn(w, th, pc, choice); LogEffect(w, v, pc, PcOf(v, th))
  {
  }

  lemma OtherCancels(w: World, th: ThreadId, pc: PC, choice: Choice)
    requires JobOf(pc).None? && !InTurn(pc) && PcOf(w, th) == pc
    ensures var v := ActIn(w, th, pc, choice); CancelEffect(w, v, pc, PcOf(v, th))
  {
  }

  lemma OtherEffect'(w: World, th: ThreadId, pc: PC, choice: Choice)
    requires JobOf(pc).None? && !InTurn(pc) && PcOf(w, th) == pc
    ensures var v := ActIn(w, th, pc, choice);
            ClockEffect(w, v, pc, PcOf(v, th)) && SandboxEffect(w, v, pc, PcOf(v, th))
  {
  }

  lemma ActEffect(w: World, th: ThreadId, choice: Choice)
    requires th in w.threads
    ensures var v := ActIn(w, th, w.threads[th], choice); Effect(w, v, w.threads[th], PcOf(v, th))
  {
    hide ActIn, LogEffect, CancelEffect, ClockEffect, SandboxEffect;
    var pc := w.threads[th];
    if JobOf(pc).Some? {
      BuilderEffect(w, th, pc, choice);
      BuilderEffect'(w, th, pc, choice);
    } else if InTurn(pc) {
      InTurnEffect(w, th, pc, choice);
      InTurnEffect'(w, th, pc, choice);
    } else {
      OtherEffect(w, th, pc, choice);
      OtherCancels(w, th, pc, choice);
      OtherEffect'(w, th, pc, choice);
    }
  }

  lemma SpawnLogs(w: World, step: Step, th: ThreadId)
    requires Spawns(w, step, th)
    ensures var v := Next(w, step); LogEffect(w, v, Done, PcOf(v, th))
  {
  }

  lemma SpawnCancels(w: World, step: Step, th: ThreadId)
    requires Spawns(w, step, th)
    ensures var v := Next(w, step); CancelEffect(w, v, Done, PcOf(v, th))
  {
  }

  lemma SpawnEffect(w: World, step: Step, th: ThreadId)
    requires Spawns(w, step, th)
    ensures var v := Next(w, step); Effect(w, v, Done, PcOf(v, th))
  {
    hide LogEffect, CancelEffect;
    SpawnLogs(w, step, th);
    SpawnCancels(w, step, th);
    var v := Next(w, step);
    assert v.log == w.log && v.now == w.now && v.s.lastActivity == w.s.lastActivity;
  }

  // ----- every step keeps the invariants -----

  /** Two threads in a turn are the same thread. */
  lemma SameOwner(w: World, a: ThreadId, b: ThreadId)
    requires OneTurn(w) && a in w.threads && b in w.threads
    requires Owned(w.threads[a]).Some? && Owned(w.threads[b]).Some?
    ensures a == b
  {
  }

  lemma LogMove(w: World, v: World, th: ThreadId, pc': PC)
    requires OneTurn(w) && LogFollowsThreads(w)
    requires Moves(w, v, th, pc') && TurnEffect(w, v, PcOf(w, th), pc') && LogEffect(w, v, PcOf(w, th), pc')
    ensures LogFollowsThreads(v)
  {
    hide Owned, Read, Feed, OneTurn;
    var pc := PcOf(w, th);
    StartingOwnsNothing(pc);
    if v.log == w.log {
      if Read(w.log).Within? {
        var a :| a in w.threads && StageOf(w.threads[a]).Open?;
        assert a in v.threads && StageOf(v.threads[a]).Open?;
      }
    } else {
      var e := v.log[|v.log| - 1];
      Snoc(w.log, e, e.t);
      forall a <- w.threads | Owned(w.threads[a]).Some?
        ensures a == th
      {
        SameOwner(w, a, th);
      }
      FeedKinds(Read(w.log), e);
      assert v.threads[th] == pc';
    }
  }

  lemma FeedKinds(r: Reading, e: Entry)
    ensures e.kind.TurnStarted? && r.Between? ==> Feed(r, e) == Within(e.t)
    ensures e.kind.TurnFinished? && r == Within(e.t) ==> Feed(r, e) == Between
    ensures !e.kind.TurnStarted? && !e.kind.TurnFinished? && r == Within(e.t) ==> Feed(r, e) == r
  {
  }

  lemma CountsAfter(w: World, v: World, pc: PC, pc': PC, e: Entry, t: TurnId)
    requires Appends(w, v, pc, pc', e)
    ensures t != e.t ==> Starts(v.log, t) == Starts(w.log, t) && Finishes(v.log, t) == Finishes(w.log, t)
    ensures CountsFit(w, pc) ==> CountsFit(v, pc')
  {
    hide Owned, Starts, Finishes, StageOf, JobOf, Read, Feed;
    Snoc(w.log, e, t);
    Snoc(w.log, e, e.t);
  }

  lemma CountsMove(w: World, v: World, th: ThreadId, pc': PC)
    requires OneTurn(w) && Counts(w)
    requires Moves(w, v, th, pc') && TurnEffect(w, v, PcOf(w, th), pc') && LogEffect(w, v, PcOf(w, th), pc')
    ensures Counts(v)
  {
    hide Owned, Starts, Finishes, StageOf;
    var pc := PcOf(w, th);
    StartingOwnsNothing(pc);
    if v.log == w.log {
      QuietCounts(w, v, th, pc');
    } else {
      var e := v.log[|v.log| - 1];
      forall t: TurnId
        ensures t != e.t ==> CountsOf(v, t, Starts(w.log, t), Finishes(w.log, t))
        ensures CountsFit(w, pc) ==> CountsFit(v, pc')
      {
        CountsAfter(w, v, pc, pc', e, t);
      }
      forall a <- v.threads
        ensures CountsFit(v, v.threads[a])
      {
        if a != th && Owned(w.threads[a]).Some? {
          SameOwner(w, a, th);
        }
      }
    }
  }

  lemma QuietCounts(w: World, v: World, th: ThreadId, pc': PC)
    requires OneTurn(w) && Counts(w) && v.log == w.log
    requires Moves(w, v, th, pc') && TurnEffect(w, v, PcOf(w, th), pc') && LogEffect(w, v, PcOf(w, th), pc')
    ensures Counts(v)
  {
    hide Owned, Starts, Finishes;
    var pc := PcOf(w, th);
    StartingOwnsNothing(pc);
    assert forall t, a: nat, b: nat :: CountsOf(w, t, a, b) <==> CountsOf(v, t, a, b);
    assert CountsFit(w, pc);
  }

  lemma CancelMove(w: World, v: World, th: ThreadId, pc': PC)
    requires OneTurn(w) && Cancels(w)
    requires Moves(w, v, th, pc') && LogEffect(w, v, PcOf(w, th), pc') && CancelEffect(w, v, PcOf(w, th), pc')
    ensures Cancels(v)
  {
    hide OneTurn, StageOf, JobOf;
    var pc := PcOf(w, th);
    if pc.Failing? {
      TurnOf(w, th);
    }
    if v.log != w.log {
      var e := v.log[|v.log| - 1];
      assert forall x <- v.log :: x in w.log || x == e;
    }
  }

  lemma HitsMove(w: World, v: World, th: ThreadId, pc': PC)
    requires OneTurn(w) && Hits(w)
    requires Moves(w, v, th, pc') && TurnEffect(w, v, PcOf(w, th), pc') && CancelEffect(w, v, PcOf(w, th), pc')
    ensures Hits(v)
  {
    hide OneTurn, JobOf, Owned;
    forall t <- v.cancelHits
      ensures Over(v, t)
    {
      assert Over(w, t);
    }
  }

  lemma TurnOf(w: World, th: ThreadId)
    requires OneTurn(w) && th in w.threads && Owned(w.threads[th]).Some?
    ensures w.s.turn == Owned(w.threads[th])
  {
  }

  lemma ClockMove(w: World, v: World, th: ThreadId, pc': PC)
    requires Clock(w)
    requires Moves(w, v, th, pc')
    requires LogEffect(w, v, PcOf(w, th), pc') && ClockEffect(w, v, PcOf(w, th), pc')
    ensures Clock(v)
  {
    hide Active, StageOf, Owned;
    var pc := PcOf(w, th);
    DoneIsQuiet();
    if v.log != w.log {
      var e := v.log[|v.log| - 1];
      assert forall x <- v.log :: x in w.log || x == e;
      assert Active(v.threads[th]);
    } else if a :| a in w.threads && Active(w.threads[a]) && a != th {
      assert a in v.threads && Active(v.threads[a]);
    } else if Active(pc') {
      assert Active(v.threads[th]);
    }
  }

  lemma DoneIsQuiet()
    ensures !Active(Done)
  {
  }

  lemma SandboxMove(w: World, v: World, th: ThreadId, pc': PC)
    requires OneTurn(w) && CreatorAlone(w) && RunningHasSandbox(w)
    requires Moves(w, v, th, pc') && SandboxEffect(w, v, PcOf(w, th), pc')
    ensures RunningHasSandbox(v)
  {
    var pc := PcOf(w, th);
    forall a <- v.threads | v.threads[a].Running?
      ensures v.s.closed || v.s.sandbox == Some(v.threads[a].sb)
    {
      if v.threads[a] == PcOf(w, a) {
        RunnerAlone(w, th, a);
      }
    }
  }

  /** Whoever installs or rolls back does so when no turn has its sandbox. */
  lemma RunnerAlone(w: World, th: ThreadId, a: ThreadId)
    requires OneTurn(w) && CreatorAlone(w) && a in w.threads && w.threads[a].Running?
    ensures w.s.turn.Some?
    ensures !PcOf(w, th).Installing? && !PcOf(w, th).RollingBack?
  {
    assert Owned(w.threads[a]).Some?;
    if th in w.threads && Owned(w.threads[th]).Some? {
      SameOwner(w, a, th);
    }
  }

  ghost predicate Inv(w: World)
  {
    LogFollowsThreads(w) && Counts(w) && Cancels(w) && Hits(w) && Clock(w) && RunningHasSandbox(w)
  }

  lemma MoveKeeps(w: World, v: World, th: ThreadId, pc': PC)
    requires OneTurn(w) && CreatorAlone(w) && Inv(w)
    requires Moves(w, v, th, pc') && TurnEffect(w, v, PcOf(w, th), pc') && Effect(w, v, PcOf(w, th), pc')
    ensures Inv(v)
  {
    hide OneTurn, CreatorAlone, LogFollowsThreads, Counts, Cancels, Hits, Clock, RunningHasSandbox, Moves, TurnEffect;
    hide LogEffect, CancelEffect, ClockEffect, SandboxEffect;
    LogMove(w, v, th, pc');
    CountsMove(w, v, th, pc');
    CancelMove(w, v, th, pc');
    HitsMove(w, v, th, pc');
    ClockMove(w, v, th, pc');
    SandboxMove(w, v, th, pc');
  }

  lemma ActKeeps(w: World, th: ThreadId, choice: Choice)
    requires SandboxLedger.Inv(w) && Inv(w) && th in w.threads
    ensures Inv(ActIn(w, th, w.threads[th], choice))
  {
    hide ActIn, Inv, OneTurn, CreatorAlone, TurnEffect, Effect, Moves;
    var v := ActIn(w, th, w.threads[th], choice);
    OnlyOneThread(w, th, w.threads[th], choice);
    ActTurn(w, th, choice);
    ActEffect(w, th, choice);
    MoveKeeps(w, v, th, v.threads[th]);
  }

  lemma SpawnKeeps(w: World, step: Step, th: ThreadId)
    requires SandboxLedger.Inv(w) && Inv(w) && Spawns(w, step, th)
    ensures Inv(Next(w, step))
  {
    hide Next, Inv, OneTurn, CreatorAlone, TurnEffect, Effect, Moves;
    var v := Next(w, step);
    SpawnTurn(w, step, th);
    SpawnEffect(w, step, th);
    MoveKeeps(w, v, th, PcOf(v, th));
  }

  lemma TickKeeps(w: World)
    requires Inv(w)
    ensures Inv(w.(now := w.now + 1))
  {
    hide Read, Starts, Finishes, StageOf, Owned, Active;
    var v := w.(now := w.now + 1);
    assert forall t, a: nat, b: nat :: CountsOf(w, t, a, b) <==> CountsOf(v, t, a, b);
    assert forall t :: Over(w, t) <==> Over(v, t);
    assert forall pc: PC :: CountsFit(w, pc) <==> CountsFit(v, pc);
  }

  lemma NextKeeps(w: World, step: Step)
    requires SandboxLedger.Inv(w) && Inv(w)
    ensures Inv(Next(w, step))
  {
    hide Inv, ActIn, ReapIt, EvictIt;
    hide SandboxLedger.Inv;
    match step
    case Tick => TickKeeps(w);
    case Act(th, choice) => if th in w.threads { ActKeeps(w, th, choice); }
    case Message(th) => if Spawns(w, step, th) { SpawnKeeps(w, step, th); }
    case ProcessExits(th) => if Spawns(w, step, th) { SpawnKeeps(w, step, th); }
    case Delete(th) => if Spawns(w, step, th) { SpawnKeeps(w, step, th); }
    case Cancel(th) => if Spawns(w, step, th) { SpawnKeeps(w, step, th); }
    case Reap(th, _) => if Spawns(w, step, th) { SpawnKeeps(w, step, th); }
    case Evict(th, _) => if Spawns(w, step, th) { SpawnKeeps(w, step, th); }
  }

  lemma {:induction false} Always(created: bool, steps: seq<Step>)
    ensures Inv(Run(created, steps))
  {
    hide Next, SandboxLedger.Inv;
    if steps != [] {
      Always(created, steps[..|steps| - 1]);
      SandboxLedger.Always(created, steps[..|steps| - 1]);
      NextKeeps(Run(created, steps[..|steps| - 1]), steps[|steps| - 1]);
    }
  }

  // ----- what every run shows -----

  /** A turn starts exactly where the log begins or the previous turn has just finished, and
      every other event belongs to the turn of the event before it. */
  predicate Alternates(log: seq<Entry>)
  {
    && (log != [] ==> log[0].kind.TurnStarted?)
    && (forall i :: 0 < i < |log| ==> (log[i].kind.TurnStarted? <==> log[i - 1].kind.TurnFinished?))
    && (forall i :: 0 < i < |log| && !log[i].kind.TurnStarted? ==> log[i].t == log[i - 1].t)
  }

  lemma {:induction false} ReadAlternates(log: seq<Entry>)
    requires !Read(log).Broken?
    ensures Alternates(log)
    ensures Read(log).Between? <==> log == [] || log[|log| - 1].kind.TurnFinished?
    ensures Read(log).Within? ==> log != [] && log[|log| - 1].t == Read(log).t
  {
    if log != [] {
      var init := log[..|log| - 1];
      ReadAlternates(init);
      assert forall i :: 0 <= i < |init| ==> init[i] == log[i];
      FeedBroken(Read(init), log[|log| - 1]);
    }
  }

  lemma FeedBroken(r: Reading, e: Entry)
    ensures !Feed(r, e).Broken? ==> !r.Broken? && (e.kind.TurnStarted? <==> r.Between?) && (r.Within? ==> r.t == e.t)
    ensures !Feed(r, e).Broken? ==> Feed(r, e) == if e.kind.TurnFinished? then Between else Within(e.t)
  {
  }

  /** Over every interleaving: turns do not overlap in the log and no event falls outside
      one; a turn is announced at most once and finished at most once, exactly once if its
      goroutine has finished; and a turn reported as cancelled was hit by CancelTurn while
      it ran. */
  lemma TurnsAlternate(created: bool, steps: seq<Step>)
    ensures var w := Run(created, steps);
            && Alternates(w.log)
            && (forall t: TurnId :: Finishes(w.log, t) <= Starts(w.log, t) <= 1)
            && (forall t <- w.turnsDone :: Starts(w.log, t) == 1 == Finishes(w.log, t))
            && (forall t: TurnId :: Starts(w.log, t) == 1 ==> t in w.turnsDone || w.s.turn == Some(t))
            && (forall e <- w.log :: e.kind == TurnFinished(StatusCancelled) ==> e.t in w.cancelHits)
  {
    hide Run, Read, Starts, Finishes;
    Always(created, steps);
    SandboxLedger.Always(created, steps);
    var w := Run(created, steps);
    ReadAlternates(w.log);
    forall t: TurnId
      ensures Finishes(w.log, t) <= Starts(w.log, t) <= 1
      ensures Starts(w.log, t) == 1 ==> t in w.turnsDone || w.s.turn == Some(t)
    {
      if t in w.turnsDone {
        assert CountsOf(w, t, 1, 1);
      } else if w.s.turn != Some(t) {
        assert CountsOf(w, t, 0, 0);
      } else {
        var th :| th in w.threads && Owned(w.threads[th]).Some?;
        assert CountsFit(w, w.threads[th]);
      }
    }
    forall t <- w.turnsDone
      ensures Starts(w.log, t) == 1 == Finishes(w.log, t)
    {
      assert CountsOf(w, t, 1, 1);
    }
  }

  /** When the cancel endpoint reports success, the turn it cancelled has finished: its one
      terminal event is in the log and the session is not busy with it any more. */
  lemma CancelMeansFinished(created: bool, steps: seq<Step>, th: ThreadId)
    requires PcOf(Run(created, steps), th).CancelAccepted?
    ensures var w := Run(created, steps); var t := PcOf(w, th).t;
            t in w.turnsDone && w.s.turn != Some(t) && Finishes(w.log, t) == 1 && t in w.cancelHits
  {
    hide Run, Read, Starts, Finishes;
    Always(created, steps);
    SandboxLedger.Always(created, steps);
    var w := Run(created, steps);
    assert CountsOf(w, PcOf(w, th).t, 1, 1);
  }

  /** The step closes the session, rolls its creation back, or is a sweep that came at least
      its bound after every event published so far. */
  predicate MayDetach(w: World, step: Step)
  {
    match step
    case Act(th, _) => PcOf(w, th).Deleting? || (PcOf(w, th).RollingBack? && !w.published)
    case Reap(_, d) => w.s.turn.None? && forall e <- w.log :: w.now - e.time >= d
    case Evict(_, d) => w.s.turn.None? && forall e <- w.log :: w.now - e.time >= d
    case _ => false
  }

  /** An attached sandbox leaves the session in no other way; and a running turn's sandbox is
      the attached one until the session is closed. */
  lemma {:induction false} DetachOnlyWhenIdle(created: bool, steps: seq<Step>, step: Step)
    ensures var w := Run(created, steps);
            w.s.sandbox.Some? && Next(w, step).s.sandbox != w.s.sandbox ==>
              Next(w, step).s.sandbox.None? && MayDetach(w, step)
    ensures forall th <- Run(created, steps).threads :: Run(created, steps).threads[th].Running? ==>
              Run(created, steps).s.closed || Run(created, steps).s.sandbox == Some(Run(created, steps).threads[th].sb)
  {
    hide Run, Next, SandboxLedger.Inv;
    var w := Run(created, steps);
    Always(created, steps);
    SandboxLedger.Always(created, steps);
    if w.s.sandbox.Some? && Next(w, step).s.sandbox != w.s.sandbox {
      DetachSteps(w, step);
      if step.Reap? || step.Evict? {
        QuietMeansRecorded(w);
      }
    }
  }

  lemma QuietMeansRecorded(w: World)
    requires SandboxLedger.Inv(w) && Clock(w) && w.s.turn.None?
    ensures forall e <- w.log :: e.time <= w.s.lastActivity
  {
    hide Owned;
    forall th <- w.threads
      ensures !Active(w.threads[th])
    {
      ActiveOwns(w.threads[th]);
    }
  }

  lemma ActiveOwns(pc: PC)
    ensures Active(pc) ==> Owned(pc).Some?
  {
  }

  lemma DetachSteps(w: World, step: Step)
    requires SandboxLedger.Inv(w)
    requires w.s.sandbox.Some? && Next(w, step).s.sandbox != w.s.sandbox
    ensures Next(w, step).s.sandbox.None?
    ensures match step
            case Act(th, _) => PcOf(w, th).Deleting? || (PcOf(w, th).RollingBack? && !w.published)
            case Reap(_, d) => w.s.IdleFor(w.now, d)
            case Evict(_, d) => w.s.IdleFor(w.now, d)
            case _ => false
  {
    hide OneTurn, SandboxLedger.OnePlace, SandboxLedger.Renewal, ActIn;
    if step.Act? && step.th in w.threads {
      ActDetach(w, step.th, w.threads[step.th], step.choice);
    }
  }

  lemma ActDetach(w: World, th: ThreadId, pc: PC, choice: Choice)
    requires CreatorAlone(w) && SandboxLedger.NoneWhileFetching(w) && w.s.sandbox.Some?
    requires th in w.threads && w.threads[th] == pc
    ensures var v := ActIn(w, th, pc, choice);
            v.s.sandbox == w.s.sandbox || (v.s.sandbox.None? && (pc.Deleting? || (pc.RollingBack? && !w.published)))
  {
    assert pc.Installing? ==> SandboxLedger.Fetches(pc);
    assert pc.RollingBack? ==> Creates(pc);
  }
}
