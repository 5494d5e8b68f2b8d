/** What holds in every reachable state of a session: one turn at a time, and a ledger of
    its sandboxes. */
module TurnInvariants {
  import opened Text
  import opened Session
  import opened TurnProtocol

  // ----- one turn at a time -----

  function JobTurn(job: Job): Option<TurnId>
  {
    if job.ForTurn? then Some(job.t) else None
  }

  function JobOf(pc: PC): Option<Job>
  {
    match pc
    case Ensuring(job) => Some(job)
    case Allocating(job) => Some(job)
    case Building(job, _) => Some(job)
    case Discarding(job, _) => Some(job)
    case Installing(job, _) => Some(job)
    case Refused(job, _) => Some(job)
    case _ => None
  }

  /** The turn a thread runs, from startTurn to finishTurn. */
  function Owned(pc: PC): Option<TurnId>
  {
    match pc
    case Accepted(t) => Some(t)
    case Announcing(t) => Some(t)
    case Running(t, _) => Some(t)
    case Failing(t) => Some(t)
    case Reporting(t, _) => Some(t)
    case Ended(t) => Some(t)
    case Closing(t) => Some(t)
    case _ => if JobOf(pc).Some? then JobTurn(JobOf(pc).value) else None
  }

  /** The creating request, before the session is published. */
  predicate Creates(pc: PC)
  {
    pc.Registering? || pc.RollingBack? || JobOf(pc) == Some(ForCreation)
  }

  /** The counter of a thread; one that does not exist yet has nothing to do. */
  function PcOf(w: World, th: ThreadId): PC
  {
    if th in w.threads then w.threads[th] else Done
  }

  /** v differs from w, as far as threads go, in the one counter of th. */
  predicate Moves(w: World, v: World, th: ThreadId, pc': PC)
  {
    v.threads == w.threads[th := pc']
  }

  predicate OneTurn(w: World)
  {
    && (forall th <- w.threads :: Owned(w.threads[th]).Some? ==> w.s.turn == Owned(w.threads[th]))
    && (forall a <- w.threads, b <- w.threads :: Owned(w.threads[a]).Some? && Owned(w.threads[b]).Some? ==> a == b)
    && (w.s.turn.Some? ==> w.s.turn.value < w.nextTurn && w.s.turn.value !in w.turnsDone)
    && (forall t <- w.turnsDone :: t < w.nextTurn)
    && (w.s.turn.Some? ==> exists th <- w.threads :: Owned(w.threads[th]).Some?)
  }

  /** Before the session is published there is no thread but its creator; afterwards there is
      no creator. */
  predicate CreatorAlone(w: World)
  {
    && (w.published ==> forall th <- w.threads :: !Creates(w.threads[th]))
    && (!w.published ==>
          && w.s.turn.None? && !w.s.closed && w.threads.Keys == {0}
          && (Creates(w.threads[0]) || w.threads[0].Done? || w.threads[0].Releasing?)
          && (w.s.sandbox.None? || w.threads[0].Registering? || w.threads[0].RollingBack?))
  }

  /** The steps of a turn between its announcement and its end, and around it. */
  predicate InTurn(pc: PC)
  {
    pc.Accepted? || pc.Announcing? || pc.Running? || pc.Failing? || pc.Reporting? || pc.Ended? || pc.Closing?
  }

  /** A step of a thread changes no other thread. */
  lemma OnlyOneThread(w: World, th: ThreadId, pc: PC, choice: Choice)
    requires th in w.threads
    ensures var v := ActIn(w, th, pc, choice);
            th in v.threads && Moves(w, v, th, v.threads[th])
  {
    match pc
    case _ =>
  }

  /** What a step does to the turn and to who owns it. */
  ghost predicate TurnEffect(w: World, v: World, pc: PC, pc': PC)
  {
    if pc.Starting? && w.s.turn.None? then
      Owned(pc') == v.s.turn == Some(w.nextTurn) && v.nextTurn == w.nextTurn + 1 && v.turnsDone == w.turnsDone
    else if pc.Closing? then
      && Owned(pc').None? && v.s.turn.None? && v.nextTurn == w.nextTurn
      && v.turnsDone == w.turnsDone + (if w.s.turn.Some? then {w.s.turn.value} else {})
    else
      Owned(pc') == Owned(pc) && v.s.turn == w.s.turn && v.turnsDone == w.turnsDone && w.nextTurn <= v.nextTurn
  }

  lemma BuilderTurn(w: World, th: ThreadId, pc: PC, choice: Choice)
    requires JobOf(pc).Some?
    ensures var v := ActIn(w, th, pc, choice); TurnEffect(w, v, pc, PcOf(v, th))
  {
  }

  lemma InTurnTurn(w: World, th: ThreadId, pc: PC, choice: Choice)
    requires InTurn(pc) && PcOf(w, th) == pc
    ensures var v := ActIn(w, th, pc, choice); TurnEffect(w, v, pc, PcOf(v, th))
  {
  }

  lemma ExitsTurn(w: World, th: ThreadId, pc: PC, choice: Choice)
    requires pc.Starting? || pc.Requeueing? || pc.Recording? || pc.Draining?
    ensures var v := ActIn(w, th, pc, choice); TurnEffect(w, v, pc, PcOf(v, th))
  {
  }

  lemma OutsideTurn(w: World, th: ThreadId, pc: PC, choice: Choice)
    requires JobOf(pc).None? && !InTurn(pc) && PcOf(w, th) == pc
    requires !pc.Starting? && !pc.Requeueing? && !pc.Recording? && !pc.Draining?
    ensures var v := ActIn(w, th, pc, choice); TurnEffect(w, v, pc, PcOf(v, th))
  {
  }

  lemma OtherTurn(w: World, th: ThreadId, pc: PC, choice: Choice)
    requires JobOf(pc).None? && !InTurn(pc) && PcOf(w, th) == pc
    ensures var v := ActIn(w, th, pc, choice); TurnEffect(w, v, pc, PcOf(v, th))
  {
    hide ActIn, TurnEffect;
    if pc.Starting? || pc.Requeueing? || pc.Recording? || pc.Draining? {
      ExitsTurn(w, th, pc, choice);
    } else {
      OutsideTurn(w, th, pc, choice);
    }
  }

  lemma ActTurn(w: World, th: ThreadId, choice: Choice)
    requires th in w.threads
    ensures var v := ActIn(w, th, w.threads[th], choice); TurnEffect(w, v, w.threads[th], PcOf(v, th))
  {
    hide ActIn, TurnEffect;
    var pc := w.threads[th];
    if JobOf(pc).Some? {
      BuilderTurn(w, th, pc, choice);
    } else if InTurn(pc) {
      InTurnTurn(w, th, pc, choice);
    } else {
      OtherTurn(w, th, pc, choice);
    }
  }

  lemma OneTurnMove(w: World, v: World, th: ThreadId, pc': PC)
    requires OneTurn(w) && Moves(w, v, th, pc') && TurnEffect(w, v, PcOf(w, th), pc')
    ensures OneTurn(v)
  {
    hide Owned;
    StartingOwnsNothing(PcOf(w, th));
    if v.s.turn.Some? && v.s.turn == w.s.turn {
      var o :| o in w.threads && Owned(w.threads[o]).Some?;
      assert o in v.threads && Owned(v.threads[o]).Some?;
    } else if v.s.turn.Some? {
      assert Owned(v.threads[th]).Some?;
    }
  }

  lemma StartingOwnsNothing(pc: PC)
    ensures pc.Starting? || pc.Done? ==> Owned(pc).None?
    ensures pc.Closing? ==> Owned(pc) == Some(pc.t)
  {
  }

  /** A step by which a thread appears. */
  predicate Spawns(w: World, step: Step, th: ThreadId)
  {
    && th !in w.threads && w.published
    && (step == Message(th) || step == ProcessExits(th) || step == Delete(th) || step == Cancel(th)
        || (step.Reap? && step.th == th) || (step.Evict? && step.th == th))
  }

  /** A request or a sweep that starts: no turn is touched. */
  lemma SpawnTurn(w: World, step: Step, th: ThreadId)
    requires Spawns(w, step, th)
    ensures var v := Next(w, step);
            Moves(w, v, th, PcOf(v, th)) && TurnEffect(w, v, Done, PcOf(v, th))
  {
  }

  // ----- the creator -----

  lemma CreatorBuilds(w: World, choice: Choice)
    requires CreatorAlone(w) && 0 in w.threads && !w.published && JobOf(w.threads[0]).Some?
    ensures CreatorAlone(ActIn(w, 0, w.threads[0], choice))
  {
  }

  lemma CreatorEnds(w: World, choice: Choice)
    requires CreatorAlone(w) && 0 in w.threads && !w.published && JobOf(w.threads[0]).None?
    ensures CreatorAlone(ActIn(w, 0, w.threads[0], choice))
  {
  }

  lemma NoCreatorAppears(w: World, th: ThreadId, pc: PC, choice: Choice)
    requires !Creates(pc) && w.published && PcOf(w, th) == pc
    ensures var v := ActIn(w, th, pc, choice); v.published && !Creates(PcOf(v, th))
  {
  }

  lemma CreatorStep(w: World, th: ThreadId, choice: Choice)
    requires CreatorAlone(w) && th in w.threads
    ensures CreatorAlone(ActIn(w, th, w.threads[th], choice))
  {
    hide ActIn, Creates, JobOf;
    if w.published {
      OnlyOneThread(w, th, w.threads[th], choice);
      NoCreatorAppears(w, th, w.threads[th], choice);
    } else if JobOf(w.threads[0]).Some? {
      CreatorBuilds(w, choice);
    } else {
      CreatorEnds(w, choice);
    }
  }

  lemma SpawnCreator(w: World, step: Step, th: ThreadId)
    requires Spawns(w, step, th) && CreatorAlone(w)
    ensures CreatorAlone(Next(w, step))
  {
    var v := Next(w, step);
    assert v.published && !Creates(v.threads[th]);
  }
}
