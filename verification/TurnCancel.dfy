/** How turns end, over every interleaving: exactly when a turn's terminal event says done,
    error or cancelled, and an accepted cancel whose turn ends as done. */
module TurnCancel {
  import opened Text
  import opened Session
  import opened TurnProtocol
  import opened TurnInvariants
  import opened TurnLog
  import SandboxLedger

  /** A turn that has failed reads why it is being ended. */
  predicate ReadsCause(w: World, step: Step, t: TurnId)
  {
    step.Act? && PcOf(w, step.th) == Failing(t)
  }

  /** The agent loop comes to the end of the turn. */
  predicate Completes(w: World, step: Step, t: TurnId)
  {
    step.Act? && step.choice == Ok && PcOf(w, step.th).Running? && PcOf(w, step.th).t == t
  }

  /** How a step decides the turn: it completes it; or it reads why the turn has failed, and
      then a cancel has hit the turn by now or not. */
  function Verdict(w: World, step: Step, t: TurnId): Option<Status>
  {
    if Completes(w, step, t) then Some(StatusDone)
    else if ReadsCause(w, step, t) then Some(if t in w.cancelHits then StatusCancelled else StatusError)
    else None
  }

  predicate Decided(created: bool, steps: seq<Step>, t: TurnId, status: Status)
  {
    steps != [] && (
      var init, step := steps[..|steps| - 1], steps[|steps| - 1];
      Decided(created, init, t, status) || Verdict(Run(created, init), step, t) == Some(status))
  }

  predicate Says(e: Entry, t: TurnId, status: Status)
  {
    e.t == t && e.kind == TurnFinished(status)
  }

  /** The turn is about to be reported with this status, or has been. */
  predicate Marked(w: World, t: TurnId, status: Status)
  {
    || (status != StatusDone && exists th <- w.threads :: w.threads[th] == Reporting(t, status == StatusCancelled))
    || exists e <- w.log :: Says(e, t, status)
  }

  /** A running turn that a cancel has hit carries the mark. */
  predicate HitIsSeen(w: World)
  {
    w.s.turn.Some? && w.s.turn.value in w.cancelHits ==> w.s.cancelled
  }

  // ----- what one step does -----

  function StatusOf(asCancelled: bool): Status
  {
    if asCancelled then StatusCancelled else StatusError
  }

  predicate MarkEffect(w: World, v: World, pc: PC, pc': PC, choice: Choice)
  {
    && (pc.Failing? ==> pc' == Reporting(pc.t, w.s.cancelled))
    && (pc'.Reporting? ==> pc.Failing?)
    && if pc.Reporting? then v.log == w.log + [Entry(pc.t, TurnFinished(StatusOf(pc.asCancelled)), w.now)]
       else if pc.Running? && choice == Ok then v.log == w.log + [Entry(pc.t, TurnFinished(StatusDone), w.now)]
       else
         || v.log == w.log
         || (|v.log| > 0 && v.log == w.log + [v.log[|v.log| - 1]] && !v.log[|v.log| - 1].kind.TurnFinished?)
  }

  lemma BuilderMarks(w: World, th: ThreadId, pc: PC, choice: Choice)
    requires JobOf(pc).Some? && HitIsSeen(w)
    ensures var v := ActIn(w, th, pc, choice); MarkEffect(w, v, pc, PcOf(v, th), choice) && HitIsSeen(v)
  {
  }

  lemma InTurnMarks(w: World, th: ThreadId, pc: PC, choice: Choice)
    requires InTurn(pc) && PcOf(w, th) == pc && HitIsSeen(w)
    ensures var v := ActIn(w, th, pc, choice); MarkEffect(w, v, pc, PcOf(v, th), choice) && HitIsSeen(v)
  {
  }

  lemma OtherMarks(w: World, th: ThreadId, pc: PC, choice: Choice)
    requires JobOf(pc).None? && !InTurn(pc) && PcOf(w, th) == pc && HitIsSeen(w) && w.nextTurn !in w.cancelHits
    ensures var v := ActIn(w, th, pc, choice); MarkEffect(w, v, pc, PcOf(v, th), choice) && HitIsSeen(v)
  {
  }

  lemma ActMarks(w: World, th: ThreadId, choice: Choice)
    requires th in w.threads && HitIsSeen(w) && w.nextTurn !in w.cancelHits
    ensures var v := ActIn(w, th, w.threads[th], choice);
            MarkEffect(w, v, w.threads[th], PcOf(v, th), choice) && HitIsSeen(v)
  {
    hide ActIn, MarkEffect, HitIsSeen;
    var pc := w.threads[th];
    if JobOf(pc).Some? {
      BuilderMarks(w, th, pc, choice);
    } else if InTurn(pc) {
      InTurnMarks(w, th, pc, choice);
    } else {
      OtherMarks(w, th, pc, choice);
    }
  }

  /** A turn gets marked exactly by the step that decides it. */
  lemma MarkedMove(w: World, v: World, th: ThreadId, choice: Choice, t: TurnId, status: Status)
    requires OneTurn(w) && Cancels(w) && HitIsSeen(w)
    requires th in w.threads && Moves(w, v, th, PcOf(v, th)) && MarkEffect(w, v, w.threads[th], PcOf(v, th), choice)
    ensures Marked(v, t, status) <==> Marked(w, t, status) || Verdict(w, Act(th, choice), t) == Some(status)
  {
    hide OneTurn, Cancels;
    var pc, pc' := w.threads[th], PcOf(v, th);
    if pc.Failing? {
      TurnOf(w, th);
      CancelledIsHit(w);
    }
    if x :| x in w.log && Says(x, t, status) {
      assert x in v.log;
    }
    if a :| a in w.threads && w.threads[a] == Reporting(t, status == StatusCancelled) && status != StatusDone {
      if a == th {
        assert v.log[|w.log|] in v.log && Says(v.log[|w.log|], t, status);
      } else {
        assert a in v.threads && v.threads[a] == w.threads[a];
      }
    }
    if Verdict(w, Act(th, choice), t) == Some(status) {
      if pc.Failing? {
        assert v.threads[th] == Reporting(t, status == StatusCancelled);
      } else {
        assert v.log[|w.log|] in v.log && Says(v.log[|w.log|], t, status);
      }
    }
    if x :| x in v.log && Says(x, t, status) {
      assert x in w.log || x == v.log[|v.log| - 1];
    }
  }

  lemma CancelledIsHit(w: World)
    requires Cancels(w)
    ensures w.s.cancelled && w.s.turn.Some? ==> w.s.turn.value in w.cancelHits
  {
  }

  lemma NextIsFresh(w: World)
    requires OneTurn(w) && Hits(w)
    ensures w.nextTurn !in w.cancelHits
  {
    assert w.nextTurn in w.cancelHits ==> Over(w, w.nextTurn);
  }

  /** Steps other than a thread's next one mark nothing. */
  lemma OtherStep(w: World, step: Step, t: TurnId, status: Status)
    requires HitIsSeen(w) && !(step.Act? && step.th in w.threads)
    ensures var v := Next(w, step); HitIsSeen(v) && (Marked(v, t, status) <==> Marked(w, t, status))
    ensures Verdict(w, step, t).None?
  {
    var v := Next(w, step);
    assert v.log == w.log;
    assert forall a <- v.threads :: a in w.threads || !v.threads[a].Reporting?;
    assert forall a <- w.threads :: a in v.threads && v.threads[a] == w.threads[a];
  }

  lemma NextMarks(w: World, step: Step, t: TurnId, status: Status)
    requires SandboxLedger.Inv(w) && TurnLog.Inv(w) && HitIsSeen(w)
    ensures var v := Next(w, step);
            HitIsSeen(v) && (Marked(v, t, status) <==> Marked(w, t, status) || Verdict(w, step, t) == Some(status))
  {
    hide OneTurn, Cancels, Hits, HitIsSeen, Marked, MarkEffect, ActIn, Moves, CreatorAlone, Verdict;
    hide LogFollowsThreads, Counts, Clock, RunningHasSandbox;
    if step.Act? && step.th in w.threads {
      NextIsFresh(w);
      OnlyOneThread(w, step.th, w.threads[step.th], step.choice);
      ActMarks(w, step.th, step.choice);
      MarkedMove(w, Next(w, step), step.th, step.choice, t, status);
    } else {
      hide Next;
      OtherStep(w, step, t, status);
    }
  }

  lemma {:induction false} MarkedExactly(created: bool, steps: seq<Step>, t: TurnId, status: Status)
    ensures HitIsSeen(Run(created, steps))
    ensures Marked(Run(created, steps), t, status) <==> Decided(created, steps, t, status)
  {
    hide Next, SandboxLedger.Inv, TurnLog.Inv, HitIsSeen, Marked, Verdict;
    if steps == [] {
      StartsUnmarked(created, t, status);
    } else {
      var init := steps[..|steps| - 1];
      MarkedExactly(created, init, t, status);
      SandboxLedger.Always(created, init);
      TurnLog.Always(created, init);
      NextMarks(Run(created, init), steps[|steps| - 1], t, status);
    }
  }

  lemma StartsUnmarked(created: bool, t: TurnId, status: Status)
    ensures HitIsSeen(Initial(created)) && !Marked(Initial(created), t, status)
  {
  }

  // ----- what every run shows -----

  lemma {:induction false} FinishCounted(log: seq<Entry>, e: Entry)
    requires e in log && e.kind.TurnFinished?
    ensures Finishes(log, e.t) >= 1
  {
    if e != log[|log| - 1] {
      assert e in log[..|log| - 1];
      FinishCounted(log[..|log| - 1], e);
    }
  }

  /** Two different terminal events of a turn count twice. */
  lemma {:induction false} FinishesCounted(log: seq<Entry>, d: Entry, e: Entry)
    requires d in log && e in log && d != e && d.t == e.t && d.kind.TurnFinished? && e.kind.TurnFinished?
    ensures Finishes(log, e.t) >= 2
  {
    var last, init := log[|log| - 1], log[..|log| - 1];
    assert forall x <- log :: x in init || x == last;
    if d == last {
      FinishCounted(init, e);
    } else if e == last {
      FinishCounted(init, d);
    } else {
      FinishesCounted(init, d, e);
    }
  }

  lemma ReportingIsOpen(w: World, th: ThreadId, t: TurnId)
    requires TurnLog.Inv(w) && th in w.threads && w.threads[th].Reporting? && w.threads[th].t == t
    ensures Finishes(w.log, t) == 0
  {
    assert CountsFit(w, w.threads[th]);
  }

  /** What a turn's terminal event says: done exactly when the agent loop has come to the end
      of the turn; cancelled exactly when the turn failed and a cancel had hit it by the time
      it read the cause; error exactly when it failed and none had. A cancel that comes later
      does not change it. */
  lemma StatusExactly(created: bool, steps: seq<Step>, e: Entry, status: Status)
    requires e in Run(created, steps).log && e.kind.TurnFinished?
    ensures e.kind == TurnFinished(status) <==> Decided(created, steps, e.t, status)
  {
    hide Run, Starts, Finishes, SandboxLedger.Inv, TurnLog.Inv;
    var w := Run(created, steps);
    MarkedExactly(created, steps, e.t, status);
    if e.kind == TurnFinished(status) {
      assert Says(e, e.t, status);
    } else if Marked(w, e.t, status) {
      TurnsAlternate(created, steps);
      FinishCounted(w.log, e);
      if d :| d in w.log && Says(d, e.t, status) {
        FinishesCounted(w.log, d, e);
      } else {
        var th :| th in w.threads && w.threads[th] == Reporting(e.t, status == StatusCancelled);
        TurnLog.Always(created, steps);
        ReportingIsOpen(w, th, e.t);
      }
    }
  }

  /** So when the cancel endpoint reports success, the turn has one terminal event, and that
      says cancelled exactly on the same condition. */
  lemma AcceptedExactly(created: bool, steps: seq<Step>, th: ThreadId)
    requires PcOf(Run(created, steps), th).CancelAccepted?
    ensures var w := Run(created, steps); var t := PcOf(w, th).t;
            && Finishes(w.log, t) == 1 && t in w.cancelHits
            && ((exists e <- w.log :: Says(e, t, StatusCancelled)) <==> Decided(created, steps, t, StatusCancelled))
  {
    hide Run, Starts, Finishes;
    var w := Run(created, steps);
    CancelMeansFinished(created, steps, th);
    MarkedExactly(created, steps, PcOf(w, th).t, StatusCancelled);
    TurnLog.Always(created, steps);
    forall a <- w.threads
      ensures w.threads[a] != Reporting(PcOf(w, th).t, true)
    {
      if w.threads[a] == Reporting(PcOf(w, th).t, true) {
        ReportingIsOpen(w, a, PcOf(w, th).t);
      }
    }
  }

  // ----- an accepted cancel of a turn that is done -----

  /** Thread 1 runs turn 0, no one else is there. */
  predicate Alone(w: World, pc: PC)
  {
    && w.now == 0 && w.published && w.threads == map[1 := pc]
    && w.s.turn == Some(0) && w.turnsDone == {} && !w.s.closed
  }

  predicate SaysDone(w: World)
  {
    Entry(0, TurnFinished(StatusDone), 0) in w.log
  }

  lemma TurnStarts()
    ensures var v := Next(Next(Initial(false), Message(1)), Act(1, Ok)); Alone(v, Accepted(0)) && v.s.sandbox.None?
  {
    assert map[][1 := Starting([])] == map[1 := Starting([])];
  }

  lemma TurnAnnounced(w: World)
    requires Alone(w, Accepted(0)) && w.s.sandbox.None?
    ensures var v := Next(Next(Next(w, Act(1, Ok)), Act(1, Ok)), Act(1, Ok)); Alone(v, Allocating(ForTurn(0)))
  {
    assert Alone(Next(w, Act(1, Ok)), Announcing(0));
    assert Alone(Next(Next(w, Act(1, Ok)), Act(1, Ok)), Ensuring(ForTurn(0)));
  }

  lemma SandboxBuilt(w: World)
    requires Alone(w, Allocating(ForTurn(0)))
    ensures var sb := w.nextSandbox; var v := Next(Next(Next(w, Act(1, Ok)), Act(1, Ok)), Act(1, Ok));
            Alone(v, Running(0, sb))
  {
    assert Alone(Next(w, Act(1, Ok)), Building(ForTurn(0), w.nextSandbox));
    assert Alone(Next(Next(w, Act(1, Ok)), Act(1, Ok)), Installing(ForTurn(0), w.nextSandbox));
  }

  lemma TurnEnds(w: World, sb: SandboxId)
    requires Alone(w, Running(0, sb))
    ensures var v := Next(w, Act(1, Ok)); Alone(v, Ended(0)) && SaysDone(v)
  {
    assert Next(w, Act(1, Ok)).log[|w.log|] == Entry(0, TurnFinished(StatusDone), 0);
  }

  /** Thread 2 cancels the turn, which has said that it is done. */
  predicate Both(w: World, one: PC, two: PC)
  {
    && w.threads == map[1 := one, 2 := two] && SaysDone(w)
    && if one.Draining? then w.turnsDone == {0} else w.turnsDone == {} && w.s.turn == Some(0)
  }

  lemma CancelComes(w: World)
    requires Alone(w, Ended(0)) && SaysDone(w)
    ensures Both(Next(Next(w, Cancel(2)), Act(2, Ok)), Ended(0), AwaitingDone(0))
  {
    assert Both(Next(w, Cancel(2)), Ended(0), Cancelling);
  }

  lemma TurnCloses(w: World)
    requires Both(w, Ended(0), AwaitingDone(0))
    ensures Both(Next(Next(w, Act(1, Ok)), Act(1, Ok)), Draining, AwaitingDone(0))
  {
    assert Both(Next(w, Act(1, Ok)), Closing(0), AwaitingDone(0));
  }

  lemma CancelReturns(w: World)
    requires Both(w, Draining, AwaitingDone(0))
    ensures Both(Next(w, Act(2, Ok)), Draining, CancelAccepted(0))
  {
  }

  lemma Then(steps: seq<Step>, step: Step) returns (more: seq<Step>)
    ensures Run(false, more) == Next(Run(false, steps), step)
  {
    RunMore(false, steps, step);
    more := steps + [step];
  }

  /** A cancel that comes between the event that says done and the end of the turn is
      accepted, and the turn is not reported as cancelled. */
  lemma AcceptedButDone()
    ensures exists steps ::
              var w := Run(false, steps);
              PcOf(w, 2) == CancelAccepted(0) && SaysDone(w) && !Decided(false, steps, 0, StatusCancelled)
  {
    hide Next, Alone, Both, Decided;
    var s := Then([], Message(1));
    s := Then(s, Act(1, Ok));
    TurnStarts();
    TurnAnnounced(Run(false, s));
    s := Then(s, Act(1, Ok));
    s := Then(s, Act(1, Ok));
    s := Then(s, Act(1, Ok));
    var sb := Run(false, s).nextSandbox;
    SandboxBuilt(Run(false, s));
    s := Then(s, Act(1, Ok));
    s := Then(s, Act(1, Ok));
    s := Then(s, Act(1, Ok));
    TurnEnds(Run(false, s), sb);
    s := Then(s, Act(1, Ok));
    CancelComes(Run(false, s));
    s := Then(s, Cancel(2));
    s := Then(s, Act(2, Ok));
    TurnCloses(Run(false, s));
    s := Then(s, Act(1, Ok));
    s := Then(s, Act(1, Ok));
    CancelReturns(Run(false, s));
    s := Then(s, Act(2, Ok));
    BothAt(Run(false, s), Draining, CancelAccepted(0));
    StatusExactly(false, s, Entry(0, TurnFinished(StatusDone), 0), StatusCancelled);
  }

  lemma BothAt(w: World, one: PC, two: PC)
    requires Both(w, one, two)
    ensures PcOf(w, 2) == two && SaysDone(w)
  {
  }
}
