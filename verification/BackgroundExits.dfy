/** Background-process exits on their way from the sandbox to a turn's message: none is lost
    while the session is open, none is reported twice, and exactly one step can strand one. */
module BackgroundExits {
  import opened Text
  import opened Session
  import opened TurnProtocol
  import opened TurnInvariants
  import opened SandboxLedger
  import TurnLog

  /** Where an exit can be: queued, carried by a thread, reported in a turn, or dropped. */
  datatype Place = Queue | Hand(th: ThreadId) | Turn(t: TurnId) | Dropped

  function Carried(pc: PC): seq<ExitId>
  {
    match pc
    case Starting(exits) => exits
    case Requeueing(exits) => exits
    case Recording(e) => [e]
    case _ => []
  }

  function At(w: World, p: Place): seq<ExitId>
  {
    match p
    case Queue => w.s.bgExited
    case Hand(th) => Carried(PcOf(w, th))
    case Turn(t) => if t in w.reported then w.reported[t] else []
    case Dropped => w.dropped
  }

  ghost predicate Somewhere(w: World, e: ExitId)
  {
    exists p: Place :: e in At(w, p)
  }

  /** Every exit that happened is in one place, once. */
  ghost predicate EachOnce(w: World)
  {
    && (forall e: ExitId :: e < w.nextExit ==> Somewhere(w, e))
    && (forall p: Place, e :: e in At(w, p) ==> e < w.nextExit)
    && (forall p: Place :: NoDuplicates(At(w, p)))
    && (forall p: Place, q: Place, e :: e in At(w, p) && e in At(w, q) ==> p == q)
  }

  /** The turns accepted so far are the ones over and the one running. */
  ghost predicate Accepts(w: World)
  {
    && (forall t: TurnId :: t in w.reported <==> t in w.turnsDone || w.s.turn == Some(t))
    && (!w.s.closed ==> w.dropped == [])
  }

  // ----- the moves -----

  /** The whole content of src goes in front of, or behind, what dst has. */
  ghost predicate Moved(w: World, v: World, src: Place, dst: Place)
  {
    && src != dst && v.nextExit == w.nextExit
    && At(v, src) == [] && (At(v, dst) == At(w, src) + At(w, dst) || At(v, dst) == At(w, dst) + At(w, src))
    && forall p: Place :: p != src && p != dst ==> At(v, p) == At(w, p)
  }

  ghost predicate Appears(w: World, v: World, dst: Place)
  {
    && v.nextExit == w.nextExit + 1 && At(w, dst) == [] && At(v, dst) == [w.nextExit]
    && forall p: Place :: p != dst ==> At(v, p) == At(w, p)
  }

  ghost predicate Unmoved(w: World, v: World)
  {
    v.nextExit == w.nextExit && forall p: Place :: At(v, p) == At(w, p)
  }

  lemma MovedKeeps(w: World, v: World, src: Place, dst: Place)
    requires EachOnce(w) && Moved(w, v, src, dst)
    ensures EachOnce(v)
  {
    hide At;
    forall e: ExitId | e < v.nextExit
      ensures Somewhere(v, e)
    {
      assert Somewhere(w, e);
      var p: Place :| e in At(w, p);
      assert e in At(v, if p == src then dst else p);
    }
    forall p: Place, e | e in At(v, p)
      ensures e in At(w, if p == dst && e !in At(w, dst) then src else p)
    {
    }
    var (a, b) := (At(w, src), At(w, dst));
    assert forall e :: e in a ==> e !in b;
    NoDuplicatesConcat(a, b);
    NoDuplicatesConcat(b, a);
    forall p: Place
      ensures NoDuplicates(At(v, p))
    {
      assert NoDuplicates(At(w, p));
    }
  }

  lemma NoDuplicatesConcat(a: seq<ExitId>, b: seq<ExitId>)
    requires NoDuplicates(a) && NoDuplicates(b) && forall e :: e in a ==> e !in b
    ensures NoDuplicates(a + b)
  {
    var c := a + b;
    forall i, j | 0 <= i < j < |c|
      ensures c[i] != c[j]
    {
      assert i < |a| <= j ==> a[i] in a && b[j - |a|] in b;
    }
  }

  lemma AppearsKeeps(w: World, v: World, dst: Place)
    requires EachOnce(w) && Appears(w, v, dst)
    ensures EachOnce(v)
  {
    hide At;
    forall e: ExitId | e < v.nextExit
      ensures Somewhere(v, e)
    {
      if e < w.nextExit {
        assert Somewhere(w, e);
        var p: Place :| e in At(w, p);
        assert e in At(v, p);
      } else {
        assert e in At(v, dst);
      }
    }
    forall p: Place, e | e in At(v, p)
      ensures e in At(w, p) || (p == dst && e == w.nextExit)
    {
    }
    forall p: Place
      ensures NoDuplicates(At(v, p))
    {
      assert NoDuplicates(At(w, p));
    }
  }

  lemma UnmovedKeeps(w: World, v: World)
    requires EachOnce(w) && Unmoved(w, v)
    ensures EachOnce(v)
  {
    hide At;
    forall e: ExitId | e < v.nextExit
      ensures Somewhere(v, e)
    {
      assert Somewhere(w, e);
      var p: Place :| e in At(w, p);
      assert e in At(v, p);
    }
  }

  // ----- what each step moves -----

  /** The steps that touch exits. */
  predicate MovesExits(pc: PC)
  {
    pc.Starting? || pc.Requeueing? || pc.Recording? || pc.Draining?
  }

  lemma StartMoves(w: World, th: ThreadId, exits: seq<ExitId>)
    requires Accepts(w) && OneTurn(w) && PcOf(w, th) == Starting(exits)
    ensures var v := Start(w, th, exits);
            if w.s.turn.None? then Moved(w, v, Hand(th), Turn(w.nextTurn)) else Unmoved(w, v)
  {
    var v := Start(w, th, exits);
    assert w.nextTurn !in w.reported;
    assert exits + [] == exits;
    forall p: Place | p != Hand(th) && p != Turn(w.nextTurn)
      ensures At(v, p) == At(w, p)
    {
    }
  }

  lemma RequeueMoves(w: World, th: ThreadId, exits: seq<ExitId>)
    requires PcOf(w, th) == Requeueing(exits)
    ensures Moved(w, Requeue(w, th, exits), Hand(th), if w.s.closed then Dropped else Queue)
  {
  }

  lemma RecordMoves(w: World, th: ThreadId, e: ExitId)
    requires PcOf(w, th) == Recording(e)
    ensures Moved(w, Record(w, th, e), Hand(th), if w.s.closed then Dropped else Queue)
  {
  }

  lemma DrainMoves(w: World, th: ThreadId)
    requires PcOf(w, th).Draining?
    ensures var v := Drain(w, th); if w.s.closed then Unmoved(w, v) else Moved(w, v, Queue, Hand(th))
  {
    assert w.s.bgExited + [] == w.s.bgExited;
  }

  predicate SameExits(w: World, v: World, pc: PC, pc': PC)
  {
    && v.s.bgExited == w.s.bgExited && v.reported == w.reported && v.dropped == w.dropped && v.nextExit == w.nextExit
    && Carried(pc) == [] == Carried(pc')
  }

  lemma BuilderExits(w: World, th: ThreadId, pc: PC, choice: Choice)
    requires JobOf(pc).Some?
    ensures var v := ActIn(w, th, pc, choice); SameExits(w, v, pc, PcOf(v, th))
  {
  }

  lemma InTurnExits(w: World, th: ThreadId, pc: PC, choice: Choice)
    requires InTurn(pc) && PcOf(w, th) == pc
    ensures var v := ActIn(w, th, pc, choice); SameExits(w, v, pc, PcOf(v, th))
  {
  }

  lemma OtherExits(w: World, th: ThreadId, pc: PC, choice: Choice)
    requires JobOf(pc).None? && !InTurn(pc) && !MovesExits(pc) && PcOf(w, th) == pc
    ensures var v := ActIn(w, th, pc, choice); SameExits(w, v, pc, PcOf(v, th))
  {
  }

  lemma SameIsUnmoved(w: World, v: World, th: ThreadId, pc': PC)
    requires Moves(w, v, th, pc') && SameExits(w, v, PcOf(w, th), pc')
    ensures Unmoved(w, v)
  {
  }

  lemma ActExits(w: World, th: ThreadId, choice: Choice)
    requires SandboxLedger.Inv(w) && EachOnce(w) && Accepts(w) && th in w.threads
    ensures EachOnce(ActIn(w, th, w.threads[th], choice))
  {
    hide EachOnce, Moved, Unmoved, Moves, SameExits, Accepts, OneTurn;
    var pc := w.threads[th];
    var v := ActIn(w, th, pc, choice);
    if MovesExits(pc) {
      match pc
      case Starting(exits) =>
        StartMoves(w, th, exits);
        if w.s.turn.None? { MovedKeeps(w, v, Hand(th), Turn(w.nextTurn)); } else { UnmovedKeeps(w, v); }
      case Requeueing(exits) =>
        RequeueMoves(w, th, exits);
        MovedKeeps(w, v, Hand(th), if w.s.closed then Dropped else Queue);
      case Recording(e) =>
        RecordMoves(w, th, e);
        MovedKeeps(w, v, Hand(th), if w.s.closed then Dropped else Queue);
      case Draining =>
        DrainMoves(w, th);
        if w.s.closed { UnmovedKeeps(w, v); } else { MovedKeeps(w, v, Queue, Hand(th)); }
    } else {
      QuietExits(w, th, choice);
    }
  }

  lemma QuietExits(w: World, th: ThreadId, choice: Choice)
    requires EachOnce(w) && th in w.threads && !MovesExits(w.threads[th])
    ensures EachOnce(ActIn(w, th, w.threads[th], choice))
  {
    hide EachOnce, Unmoved, Moves, SameExits, ActIn;
    var pc := w.threads[th];
    var v := ActIn(w, th, pc, choice);
    if JobOf(pc).Some? {
      BuilderExits(w, th, pc, choice);
    } else if InTurn(pc) {
      InTurnExits(w, th, pc, choice);
    } else {
      OtherExits(w, th, pc, choice);
    }
    OnlyOneThread(w, th, pc, choice);
    SameIsUnmoved(w, v, th, PcOf(v, th));
    UnmovedKeeps(w, v);
  }

  lemma SpawnExits(w: World, step: Step, th: ThreadId)
    requires Spawns(w, step, th) && EachOnce(w)
    ensures EachOnce(Next(w, step))
  {
    hide EachOnce;
    var v := Next(w, step);
    if step.ProcessExits? {
      AppearsKeeps(w, v, Hand(th));
    } else {
      UnmovedKeeps(w, v);
    }
  }

  // ----- accepted turns -----

  /** A successful start accepts a turn; nothing is dropped while the session is open. */
  predicate AcceptEffect(w: World, v: World, pc: PC)
  {
    && v.reported.Keys == w.reported.Keys + (if pc.Starting? && w.s.turn.None? then {w.nextTurn} else {})
    && (w.s.closed || v.dropped == w.dropped)
  }

  lemma ActAccepts(w: World, th: ThreadId, choice: Choice)
    requires th in w.threads
    ensures AcceptEffect(w, ActIn(w, th, w.threads[th], choice), w.threads[th])
  {
    var pc := w.threads[th];
    if !MovesExits(pc) {
      hide ActIn;
      if JobOf(pc).Some? {
        BuilderExits(w, th, pc, choice);
      } else if InTurn(pc) {
        InTurnExits(w, th, pc, choice);
      } else {
        OtherExits(w, th, pc, choice);
      }
    }
  }

  lemma AcceptsMove(w: World, v: World, th: ThreadId, pc': PC)
    requires OneTurn(w) && Accepts(w)
    requires TurnEffect(w, v, PcOf(w, th), pc') && AcceptEffect(w, v, PcOf(w, th)) && (w.s.closed ==> v.s.closed)
    ensures Accepts(v)
  {
    hide Owned;
    assert forall t: TurnId :: t in w.reported.Keys <==> t in w.reported;
    assert forall t: TurnId :: t in v.reported.Keys <==> t in v.reported;
  }

  // ----- every step -----

  ghost predicate ExitInv(w: World)
  {
    EachOnce(w) && Accepts(w)
  }

  lemma ActKeepsExits(w: World, th: ThreadId, choice: Choice)
    requires SandboxLedger.Inv(w) && ExitInv(w) && th in w.threads
    ensures ExitInv(ActIn(w, th, w.threads[th], choice))
  {
    hide ActIn, EachOnce, Accepts, OneTurn, TurnEffect, AcceptEffect;
    hide TurnLog.LogEffect, TurnLog.CancelEffect, TurnLog.ClockEffect;
    var pc := w.threads[th];
    var v := ActIn(w, th, pc, choice);
    ActExits(w, th, choice);
    ActTurn(w, th, choice);
    ActAccepts(w, th, choice);
    TurnLog.ActEffect(w, th, choice);
    AcceptsMove(w, v, th, PcOf(v, th));
  }

  lemma SpawnKeepsExits(w: World, step: Step, th: ThreadId)
    requires SandboxLedger.Inv(w) && ExitInv(w) && Spawns(w, step, th)
    ensures ExitInv(Next(w, step))
  {
    hide EachOnce;
    SpawnExits(w, step, th);
    var v := Next(w, step);
    assert v.reported == w.reported && v.dropped == w.dropped && v.turnsDone == w.turnsDone && v.s.turn == w.s.turn;
  }

  lemma TickKeepsExits(w: World)
    requires ExitInv(w)
    ensures ExitInv(w.(now := w.now + 1))
  {
    hide EachOnce;
    UnmovedKeeps(w, w.(now := w.now + 1));
  }

  lemma NextKeepsExits(w: World, step: Step)
    requires SandboxLedger.Inv(w) && ExitInv(w)
    ensures ExitInv(Next(w, step))
  {
    hide ExitInv, SandboxLedger.Inv, ActIn, ReapIt, EvictIt;
    match step
    case Tick => TickKeepsExits(w);
    case Act(th, choice) => if th in w.threads { ActKeepsExits(w, th, choice); }
    case Message(th) => if Spawns(w, step, th) { SpawnKeepsExits(w, step, th); }
    case ProcessExits(th) => if Spawns(w, step, th) { SpawnKeepsExits(w, step, th); }
    case Delete(th) => if Spawns(w, step, th) { SpawnKeepsExits(w, step, th); }
    case Cancel(th) => if Spawns(w, step, th) { SpawnKeepsExits(w, step, th); }
    case Reap(th, _) => if Spawns(w, step, th) { SpawnKeepsExits(w, step, th); }
    case Evict(th, _) => if Spawns(w, step, th) { SpawnKeepsExits(w, step, th); }
  }

  lemma {:induction false} AlwaysExits(created: bool, steps: seq<Step>)
    ensures ExitInv(Run(created, steps))
  {
    if steps == [] {
      assert forall p: Place :: At(Initial(created), p) == [];
    } else {
      hide Next, ExitInv, SandboxLedger.Inv;
      AlwaysExits(created, steps[..|steps| - 1]);
      SandboxLedger.Always(created, steps[..|steps| - 1]);
      NextKeepsExits(Run(created, steps[..|steps| - 1]), steps[|steps| - 1]);
    }
  }

  // ----- what every run shows -----

  /** Each background exit is in exactly one place, once: queued, carried by one thread,
      reported in one accepted turn, or dropped, and it is dropped only after the session
      has been closed. So none is reported in two turns. */
  lemma ExitsConserved(created: bool, steps: seq<Step>)
    ensures var w := Run(created, steps);
            && (forall e: ExitId :: e < w.nextExit <==> Somewhere(w, e))
            && (forall p: Place :: NoDuplicates(At(w, p)))
            && (forall p: Place, q: Place, e :: e in At(w, p) && e in At(w, q) ==> p == q)
            && (!w.s.closed ==> At(w, Dropped) == [])
            && (forall t: TurnId :: t in w.reported <==> t in w.turnsDone || w.s.turn == Some(t))
  {
    hide Run, At;
    AlwaysExits(created, steps);
    var w := Run(created, steps);
    assert At(w, Dropped) == w.dropped by { DroppedPlace(w); }
  }

  lemma DroppedPlace(w: World)
    ensures At(w, Dropped) == w.dropped
  {
  }

  // ----- arrivals, and a batch that is put back -----

  function RecordAll(s: State, arrivals: seq<ExitId>): State
  {
    if arrivals == [] then s else RecordAll(s, arrivals[..|arrivals| - 1]).RecordExit(arrivals[|arrivals| - 1])
  }

  lemma {:induction false} RecordAllAppends(s: State, arrivals: seq<ExitId>)
    ensures RecordAll(s, arrivals) == if s.closed then s else s.(bgExited := s.bgExited + arrivals)
  {
    if arrivals == [] {
      assert s.bgExited + arrivals == s.bgExited;
    } else {
      var init := arrivals[..|arrivals| - 1];
      RecordAllAppends(s, init);
      assert (s.bgExited + init) + [arrivals[|arrivals| - 1]] == s.bgExited + arrivals;
    }
  }

  /** Taking the queue and putting it back leaves no trace, whatever arrived in between: the
      batch is ahead of the arrivals, each in its order. */
  lemma RequeueUndoesTake(s: State, arrivals: seq<ExitId>)
    ensures var (taken, batch) := s.TakeExits();
            RecordAll(taken, arrivals).RequeueExits(batch) == RecordAll(s, arrivals)
  {
    var (taken, batch) := s.TakeExits();
    RecordAllAppends(taken, arrivals);
    RecordAllAppends(s, arrivals);
    assert [] + arrivals == arrivals;
  }

  // ----- the lost wakeup -----

  predicate HasDrainer(w: World)
  {
    exists th <- w.threads :: w.threads[th].Draining?
  }

  /** An open, idle session whose queue nobody is about to drain. */
  predicate Stranded(w: World)
  {
    !w.s.closed && w.s.bgExited != [] && w.s.turn.None? && !HasDrainer(w)
  }

  /** A drain that found the session busy puts its batch back after the turn has finished
      and drained. */
  predicate LateRequeue(w: World, step: Step)
  {
    && step.Act? && PcOf(w, step.th).Requeueing? && PcOf(w, step.th).exits != []
    && !w.s.closed && w.s.turn.None? && !HasDrainer(w)
  }

  lemma DrainerStays(w: World, v: World, th: ThreadId, pc': PC)
    requires Moves(w, v, th, pc') && !PcOf(w, th).Draining? && HasDrainer(w)
    ensures HasDrainer(v)
  {
    var a :| a in w.threads && w.threads[a].Draining?;
    assert v.threads[a].Draining?;
  }

  lemma DrainerNew(w: World, v: World, th: ThreadId, pc': PC)
    requires Moves(w, v, th, pc')
    ensures pc'.Draining? ==> HasDrainer(v)
    ensures !HasDrainer(w) && !pc'.Draining? ==> !HasDrainer(v)
  {
    assert pc'.Draining? ==> v.threads[th].Draining?;
  }

  lemma ActStrands(w: World, th: ThreadId, choice: Choice)
    requires th in w.threads && !Stranded(w)
    ensures var v := ActIn(w, th, w.threads[th], choice);
            Stranded(v) <==> LateRequeue(w, Act(th, choice))
  {
    hide ActIn, HasDrainer, Moves, Stranded, MovesExits;
    if MovesExits(w.threads[th]) {
      MoverStrands(w, th, choice);
    } else {
      QuietStrands(w, th, choice);
      QuietIsNotLate(w, th, choice);
    }
  }

  lemma QuietIsNotLate(w: World, th: ThreadId, choice: Choice)
    requires th in w.threads && !MovesExits(w.threads[th])
    ensures !LateRequeue(w, Act(th, choice))
  {
  }

  lemma MoverStrands(w: World, th: ThreadId, choice: Choice)
    requires th in w.threads && MovesExits(w.threads[th]) && !Stranded(w)
    ensures var v := ActIn(w, th, w.threads[th], choice);
            Stranded(v) <==> LateRequeue(w, Act(th, choice))
  {
    hide HasDrainer, TurnEffect, Moves;
    var pc := w.threads[th];
    var v := ActIn(w, th, pc, choice);
    OnlyOneThread(w, th, pc, choice);
    if HasDrainer(w) && !pc.Draining? {
      DrainerStays(w, v, th, v.threads[th]);
    }
    DrainerNew(w, v, th, v.threads[th]);
  }

  lemma QuietStrands(w: World, th: ThreadId, choice: Choice)
    requires th in w.threads && !MovesExits(w.threads[th]) && !Stranded(w)
    ensures !Stranded(ActIn(w, th, w.threads[th], choice))
  {
    hide ActIn, HasDrainer, Moves, AcceptEffect;
    hide TurnLog.LogEffect, TurnLog.CancelEffect, TurnLog.ClockEffect;
    var pc := w.threads[th];
    var v := ActIn(w, th, pc, choice);
    OnlyOneThread(w, th, pc, choice);
    if HasDrainer(w) {
      DrainerStays(w, v, th, v.threads[th]);
    }
    DrainerNew(w, v, th, v.threads[th]);
    ActTurn(w, th, choice);
    TurnLog.ActEffect(w, th, choice);
    if JobOf(pc).Some? {
      BuilderExits(w, th, pc, choice);
    } else if InTurn(pc) {
      InTurnExits(w, th, pc, choice);
    } else {
      OtherExits(w, th, pc, choice);
    }
    if pc.Closing? {
      ClosingDrains(w, th, choice);
    }
  }

  lemma ClosingDrains(w: World, th: ThreadId, choice: Choice)
    requires th in w.threads && w.threads[th].Closing?
    ensures PcOf(ActIn(w, th, w.threads[th], choice), th).Draining?
  {
  }

  /** Exactly one kind of step strands an exit in an idle session: a requeue that comes too
      late. */
  lemma StrandedExactly(w: World, step: Step)
    requires !Stranded(w)
    ensures Stranded(Next(w, step)) <==> LateRequeue(w, step)
  {
    hide HasDrainer, ActIn;
    if step.Act? {
      if step.th in w.threads {
        ActStrands(w, step.th, step.choice);
      }
    } else if !step.Tick? && Next(w, step) != w {
      SpawnStrands(w, step, step.th);
    } else if step.Tick? {
      assert HasDrainer(Next(w, step)) == HasDrainer(w) by { TickDrainer(w); }
    }
  }

  lemma TickDrainer(w: World)
    ensures HasDrainer(w.(now := w.now + 1)) == HasDrainer(w)
  {
  }

  lemma SpawnStrands(w: World, step: Step, th: ThreadId)
    requires Spawns(w, step, th) && !Stranded(w)
    ensures !Stranded(Next(w, step))
  {
    hide HasDrainer;
    var v := Next(w, step);
    SpawnTurn(w, step, th);
    if HasDrainer(w) {
      DrainerStays(w, v, th, PcOf(v, th));
    }
    DrainerNew(w, v, th, PcOf(v, th));
  }

  /** As long as no requeue comes late, an open session that is idle and has no drain under
      way has an empty queue. */
  lemma {:induction false} IdleMeansDrained(created: bool, steps: seq<Step>)
    requires forall i :: 0 <= i < |steps| ==> !LateRequeue(Run(created, steps[..i]), steps[i])
    ensures !Stranded(Run(created, steps))
  {
    if steps != [] {
      hide Next, LateRequeue, Stranded;
      var init := steps[..|steps| - 1];
      forall i | 0 <= i < |init|
        ensures !LateRequeue(Run(created, init[..i]), init[i])
      {
        assert init[..i] == steps[..i];
      }
      IdleMeansDrained(created, init);
      StrandedExactly(Run(created, init), steps[|steps| - 1]);
    }
  }

  /** Two threads, the queue and the running turn of an open session without a sandbox. */
  predicate Two(w: World, one: PC, two: PC, queue: seq<ExitId>, turn: Option<TurnId>)
  {
    && w.published && !w.s.closed && w.s.sandbox.None?
    && w.threads == map[1 := one, 2 := two] && w.s.bgExited == queue && w.s.turn == turn
  }

  lemma Arrive()
    ensures var w := Next(Next(Next(Initial(false), Message(1)), Act(1, Ok)), ProcessExits(2));
            Two(w, Accepted(0), Recording(0), [], Some(0))
  {
  }

  lemma FindBusy(w: World)
    requires Two(w, Accepted(0), Recording(0), [], Some(0))
    ensures Two(Next(Next(w, Act(2, Ok)), Act(2, Ok)), Accepted(0), Starting([0]), [], Some(0))
  {
    var v := Next(w, Act(2, Ok));
    assert [] + [0] == [0 as ExitId];
    assert Two(v, Accepted(0), Draining, [0], Some(0));
  }

  lemma GiveUp(w: World)
    requires Two(w, Accepted(0), Starting([0]), [], Some(0))
    ensures Two(Next(w, Act(2, Ok)), Accepted(0), Requeueing([0]), [], Some(0))
  {
  }

  lemma Announce(w: World)
    requires Two(w, Accepted(0), Requeueing([0]), [], Some(0))
    ensures Two(Next(Next(w, Act(1, Ok)), Act(1, Ok)), Ensuring(ForTurn(0)), Requeueing([0]), [], Some(0))
  {
    var v := Next(w, Act(1, Ok));
    assert Two(v, Announcing(0), Requeueing([0]), [], Some(0));
  }

  lemma FailBuild(w: World)
    requires Two(w, Ensuring(ForTurn(0)), Requeueing([0]), [], Some(0))
    ensures Two(Next(Next(w, Act(1, Ok)), Act(1, Fail)), Failing(0), Requeueing([0]), [], Some(0))
  {
    var v := Next(w, Act(1, Ok));
    assert Two(v, Allocating(ForTurn(0)), Requeueing([0]), [], Some(0));
  }

  lemma ReportFailure(w: World)
    requires Two(w, Failing(0), Requeueing([0]), [], Some(0))
    ensures Two(Next(Next(w, Act(1, Ok)), Act(1, Ok)), Ended(0), Requeueing([0]), [], Some(0))
  {
    var v := Next(w, Act(1, Ok));
    assert v.threads[1].Reporting? && v.threads[1].t == 0 && Two(v, v.threads[1], Requeueing([0]), [], Some(0));
  }

  lemma EndTurn(w: World)
    requires Two(w, Ended(0), Requeueing([0]), [], Some(0))
    ensures Two(Next(Next(w, Act(1, Ok)), Act(1, Ok)), Draining, Requeueing([0]), [], None)
  {
    var v := Next(w, Act(1, Ok));
    assert Two(v, Closing(0), Requeueing([0]), [], Some(0));
  }

  lemma DrainNothing(w: World)
    requires Two(w, Draining, Requeueing([0]), [], None)
    ensures Two(Next(w, Act(1, Ok)), Done, Requeueing([0]), [], None)
  {
  }

  /** While thread 1 runs turn 0, thread 2 records an exit, takes it from the queue and finds
      the session busy; the turn finishes and drains an empty queue; then thread 2 puts the
      exit back. So an idle open session can hold an exit that no thread is about to report. */
  lemma AnExitCanBeStranded()
    ensures exists steps ::
              Stranded(Run(false, steps)) &&
                 forall th <- Run(false, steps).threads :: Run(false, steps).threads[th].Done?
  {
    hide Next, Initial, Stranded, Two;
    var s0 := [Message(1)];
    var s1 := s0 + [Act(1, Ok)];
    var s2 := s1 + [ProcessExits(2)];
    RunMore(false, [], Message(1));
    assert [] + [Message(1)] == s0;
    RunMore(false, s0, Act(1, Ok));
    RunMore(false, s1, ProcessExits(2));
    Arrive();
    var s3 := Twice(s2, 2, Ok, Ok);
    FindBusy(Run(false, s2));
    var s4 := s3 + [Act(2, Ok)];
    RunMore(false, s3, Act(2, Ok));
    GiveUp(Run(false, s3));
    var s5 := Twice(s4, 1, Ok, Ok);
    Announce(Run(false, s4));
    var s6 := Twice(s5, 1, Ok, Fail);
    FailBuild(Run(false, s5));
    var s7 := Twice(s6, 1, Ok, Ok);
    ReportFailure(Run(false, s6));
    var s8 := Twice(s7, 1, Ok, Ok);
    EndTurn(Run(false, s7));
    var s9 := s8 + [Act(1, Ok)];
    RunMore(false, s8, Act(1, Ok));
    DrainNothing(Run(false, s8));
    RunMore(false, s9, Act(2, Ok));
    PutBack(Run(false, s9));
  }

  lemma {:induction false} Twice(steps: seq<Step>, th: ThreadId, first: Choice, second: Choice)
    returns (more: seq<Step>)
    ensures Run(false, more) == Next(Next(Run(false, steps), Act(th, first)), Act(th, second))
  {
    RunMore(false, steps, Act(th, first));
    RunMore(false, steps + [Act(th, first)], Act(th, second));
    more := steps + [Act(th, first)] + [Act(th, second)];
  }

  lemma PutBack(w: World)
    requires Two(w, Done, Requeueing([0]), [], None)
    ensures var v := Next(w, Act(2, Ok)); Stranded(v) && forall th <- v.threads :: v.threads[th].Done?
  {
    var v := Next(w, Act(2, Ok));
    assert [0 as ExitId] + [] == [0];
    assert v.threads == map[1 := Done, 2 := Done];
  }
}
