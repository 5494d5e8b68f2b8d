/** Every sandbox ever allocated is in one place: with a thread that builds or releases it,
    attached to the session, or released, once. */
module SandboxLedger {
  import opened Text
  import opened Session
  import opened TurnProtocol
  import opened TurnInvariants

  /** The sandbox a thread has in hand: one it builds, or one it took to release. */
  function Held(pc: PC): Option<SandboxId>
  {
    match pc
    case Building(_, sb) => Some(sb)
    case Discarding(_, sb) => Some(sb)
    case Installing(_, sb) => Some(sb)
    case Refused(_, sb) => Some(sb)
    case Releasing(sb) => Some(sb)
    case _ => None
  }

  /** On the way to setSandbox. */
  predicate Fetches(pc: PC)
  {
    pc.Allocating? || pc.Building? || pc.Installing?
  }

  predicate NoDuplicates<T(==)>(xs: seq<T>)
  {
    forall i, j :: 0 <= i < j < |xs| ==> xs[i] != xs[j]
  }

  /** The places a sandbox can be in. */
  predicate Attached(w: World, sb: SandboxId)
  {
    w.s.sandbox == Some(sb)
  }

  predicate HeldBy(w: World, th: ThreadId, sb: SandboxId)
  {
    th in w.threads && Held(w.threads[th]) == Some(sb)
  }

  predicate InHand(w: World, sb: SandboxId)
  {
    exists th <- w.threads :: HeldBy(w, th, sb)
  }

  /** Each allocated sandbox is in exactly one place, with at most one thread. */
  ghost predicate OnePlace(w: World)
  {
    && (forall sb: SandboxId :: sb < w.nextSandbox ==> Attached(w, sb) || sb in w.released || InHand(w, sb))
    && (forall sb: SandboxId :: Attached(w, sb) ==> sb !in w.released && sb < w.nextSandbox)
    && (forall th, sb: SandboxId :: HeldBy(w, th, sb) ==> sb !in w.released && !Attached(w, sb) && sb < w.nextSandbox)
    && (forall a, b, sb: SandboxId :: HeldBy(w, a, sb) && HeldBy(w, b, sb) ==> a == b)
    && (forall sb <- w.released :: sb < w.nextSandbox)
    && NoDuplicates(w.released)
  }

  /** The lease of an attached sandbox is being renewed, that of a released one is not. */
  ghost predicate Renewal(w: World)
  {
    && (forall sb: SandboxId :: Attached(w, sb) ==> sb in w.renewing)
    && (forall th <- w.threads :: w.threads[th].Installing? ==> w.threads[th].sb in w.renewing)
    && (forall sb <- w.renewing :: sb !in w.released && sb < w.nextSandbox)
  }

  /** Whoever builds a sandbox finds none attached; a closed session has none. */
  predicate NoneWhileFetching(w: World)
  {
    && (forall th <- w.threads :: Fetches(w.threads[th]) ==> w.s.sandbox.None?)
    && (w.s.closed ==> w.s.sandbox.None?)
  }

  // ----- the moves of the ledger -----

  datatype Move = Same | Allocates | Attaches | Detaches | Releases

  predicate MoveIs(w: World, v: World, pc: PC, pc': PC, m: Move)
  {
    match m
    case Same =>
      v.s.sandbox == w.s.sandbox && v.released == w.released && v.nextSandbox == w.nextSandbox && Held(pc') == Held(pc)
    case Allocates =>
      && v.s.sandbox == w.s.sandbox && v.released == w.released && v.nextSandbox == w.nextSandbox + 1
      && Held(pc).None? && Held(pc') == Some(w.nextSandbox)
    case Attaches =>
      && w.s.sandbox.None? && v.s.sandbox == Held(pc) && Held(pc).Some? && Held(pc').None?
      && v.released == w.released && v.nextSandbox == w.nextSandbox
    case Detaches =>
      && v.s.sandbox.None? && Held(pc).None? && Held(pc') == w.s.sandbox
      && v.released == w.released && v.nextSandbox == w.nextSandbox
    case Releases =>
      && v.s.sandbox == w.s.sandbox && Held(pc).Some? && Held(pc').None?
      && v.released == w.released + [Held(pc).value] && v.nextSandbox == w.nextSandbox
  }

  function MoveOf(w: World, pc: PC, choice: Choice): Move
  {
    match pc
    case Allocating(_) => if choice == Ok then Allocates else Same
    case Installing(_, _) => if w.s.closed then Same else Attaches
    case Discarding(_, _) => Releases
    case Refused(_, _) => Releases
    case Releasing(_) => Releases
    case RollingBack => Detaches
    case Deleting => Detaches
    case _ => Same
  }

  lemma BuilderMove(w: World, th: ThreadId, pc: PC, choice: Choice)
    requires JobOf(pc).Some? && (pc.Installing? ==> w.s.sandbox.None?)
    ensures var v := ActIn(w, th, pc, choice); MoveIs(w, v, pc, PcOf(v, th), MoveOf(w, pc, choice))
  {
  }

  lemma InTurnMove(w: World, th: ThreadId, pc: PC, choice: Choice)
    requires InTurn(pc) && PcOf(w, th) == pc
    ensures var v := ActIn(w, th, pc, choice); MoveIs(w, v, pc, PcOf(v, th), MoveOf(w, pc, choice))
  {
  }

  lemma OtherMove(w: World, th: ThreadId, pc: PC, choice: Choice)
    requires JobOf(pc).None? && !InTurn(pc) && PcOf(w, th) == pc
    ensures var v := ActIn(w, th, pc, choice); MoveIs(w, v, pc, PcOf(v, th), MoveOf(w, pc, choice))
  {
  }

  lemma ActMove(w: World, th: ThreadId, choice: Choice)
    requires th in w.threads && (w.threads[th].Installing? ==> w.s.sandbox.None?)
    ensures var pc := w.threads[th]; var v := ActIn(w, th, pc, choice);
            MoveIs(w, v, pc, PcOf(v, th), MoveOf(w, pc, choice))
  {
    hide ActIn, MoveIs;
    var pc := w.threads[th];
    if JobOf(pc).Some? {
      BuilderMove(w, th, pc, choice);
    } else if InTurn(pc) {
      InTurnMove(w, th, pc, choice);
    } else {
      OtherMove(w, th, pc, choice);
    }
  }

  // ----- every move keeps one place -----

  lemma HeldAfter(w: World, v: World, th: ThreadId, pc': PC, a: ThreadId, sb: SandboxId)
    requires Moves(w, v, th, pc')
    ensures HeldBy(v, a, sb) <==> if a == th then Held(pc') == Some(sb) else HeldBy(w, a, sb)
  {
  }

  lemma InHandAfter(w: World, v: World, th: ThreadId, pc': PC, sb: SandboxId)
    requires Moves(w, v, th, pc')
    requires InHand(w, sb) && (HeldBy(w, th, sb) ==> Held(pc') == Some(sb))
    ensures InHand(v, sb)
  {
    var a :| a in w.threads && HeldBy(w, a, sb);
    HeldAfter(w, v, th, pc', a, sb);
  }

  lemma OnePlaceMove(w: World, v: World, th: ThreadId, pc': PC, m: Move)
    requires OnePlace(w) && Moves(w, v, th, pc') && MoveIs(w, v, PcOf(w, th), pc', m)
    ensures OnePlace(v)
  {
    hide Held, InHand;
    var pc := PcOf(w, th);
    HeldDone();
    assert forall sb: SandboxId :: HeldBy(w, th, sb) <==> Held(pc) == Some(sb);
    assert Held(pc).Some? ==> HeldBy(w, th, Held(pc).value);
    assert w.s.sandbox.Some? ==> Attached(w, w.s.sandbox.value);
    forall sb: SandboxId | sb < v.nextSandbox
      ensures Attached(v, sb) || sb in v.released || InHand(v, sb)
    {
      if sb < w.nextSandbox && InHand(w, sb) && (HeldBy(w, th, sb) ==> Held(pc') == Some(sb)) {
        InHandAfter(w, v, th, pc', sb);
      } else if Held(pc') == Some(sb) {
        HeldBySelf(v, th, sb);
      }
    }
    forall a, sb: SandboxId
      ensures HeldBy(v, a, sb) <==> if a == th then Held(pc') == Some(sb) else HeldBy(w, a, sb)
    {
      HeldAfter(w, v, th, pc', a, sb);
    }
  }

  lemma HeldDone()
    ensures Held(Done).None?
  {
  }

  lemma HeldBySelf(v: World, th: ThreadId, sb: SandboxId)
    requires th in v.threads && Held(v.threads[th]) == Some(sb)
    ensures InHand(v, sb)
  {
    assert HeldBy(v, th, sb);
  }

  // ----- one builder, and what it finds -----

  /** Two builders would be two turns, or two creators. */
  lemma OneBuilder(w: World, a: ThreadId, b: ThreadId)
    requires OneTurn(w) && CreatorAlone(w)
    requires a in w.threads && b in w.threads && JobOf(w.threads[a]).Some? && JobOf(w.threads[b]).Some?
    ensures a == b
  {
    if w.published {
      assert !Creates(w.threads[a]) && !Creates(w.threads[b]);
      assert Owned(w.threads[a]).Some? && Owned(w.threads[b]).Some?;
    }
  }

  /** What a step does to the sandbox a builder would find. */
  predicate FetchEffect(w: World, v: World, pc: PC, pc': PC)
  {
    && (v.s.sandbox.Some? ==> v.s.sandbox == w.s.sandbox || (pc.Installing? && !Fetches(pc') && !v.s.closed))
    && (Fetches(pc') ==> v.s.sandbox == w.s.sandbox && (Fetches(pc) || w.s.closed || w.s.sandbox.None?))
    && (v.s.closed ==> w.s.closed || v.s.sandbox.None?)
  }

  lemma BuilderFetch(w: World, th: ThreadId, pc: PC, choice: Choice)
    requires JobOf(pc).Some?
    ensures var v := ActIn(w, th, pc, choice); FetchEffect(w, v, pc, PcOf(v, th))
  {
  }

  lemma OtherFetch(w: World, th: ThreadId, pc: PC, choice: Choice)
    requires JobOf(pc).None? && PcOf(w, th) == pc
    ensures var v := ActIn(w, th, pc, choice); FetchEffect(w, v, pc, PcOf(v, th))
  {
  }

  lemma FetchMove(w: World, v: World, th: ThreadId, pc': PC)
    requires OneTurn(w) && CreatorAlone(w) && NoneWhileFetching(w)
    requires Moves(w, v, th, pc') && FetchEffect(w, v, PcOf(w, th), pc')
    ensures NoneWhileFetching(v)
  {
    hide JobOf, OneTurn, CreatorAlone;
    var pc := PcOf(w, th);
    forall a <- v.threads | Fetches(v.threads[a])
      ensures v.s.sandbox.None?
    {
      if a != th && pc.Installing? {
        FetchersBuild(pc);
        FetchersBuild(w.threads[a]);
        OneBuilder(w, th, a);
      }
    }
  }

  lemma FetchersBuild(pc: PC)
    ensures Fetches(pc) ==> JobOf(pc).Some?
  {
  }

  // ----- renewal -----

  predicate RenewalEffect(w: World, v: World, pc: PC, pc': PC)
  {
    && (pc'.Installing? ==> pc.Building? && pc'.sb == pc.sb)
    && v.renewing == if pc.Building? && pc'.Installing? then w.renewing + {pc.sb}
                     else if v.released != w.released && Held(pc).Some? then w.renewing - {Held(pc).value}
                     else w.renewing
  }

  lemma BuilderRenewal(w: World, th: ThreadId, pc: PC, choice: Choice)
    requires JobOf(pc).Some?
    ensures var v := ActIn(w, th, pc, choice); RenewalEffect(w, v, pc, PcOf(v, th))
  {
  }

  lemma OtherRenewal(w: World, th: ThreadId, pc: PC, choice: Choice)
    requires JobOf(pc).None? && PcOf(w, th) == pc
    ensures var v := ActIn(w, th, pc, choice); RenewalEffect(w, v, pc, PcOf(v, th))
  {
  }

  lemma RenewalMove(w: World, v: World, th: ThreadId, pc': PC, m: Move)
    requires OnePlace(w) && Renewal(w)
    requires Moves(w, v, th, pc') && MoveIs(w, v, PcOf(w, th), pc', m) && RenewalEffect(w, v, PcOf(w, th), pc')
    requires m == Attaches ==> PcOf(w, th).Installing?
    ensures Renewal(v)
  {
    hide InHand, NoDuplicates;
    var pc := PcOf(w, th);
    if Held(pc).Some? {
      assert HeldBy(w, th, Held(pc).value);
    }
    forall sb: SandboxId | Attached(v, sb)
      ensures sb in v.renewing
    {
      assert m != Attaches ==> Attached(w, sb);
    }
    forall a <- v.threads | v.threads[a].Installing?
      ensures v.threads[a].sb in v.renewing
    {
      if a != th {
        assert HeldBy(w, a, w.threads[a].sb);
      }
    }
  }

  // ----- every step -----

  ghost predicate Inv(w: World)
  {
    OneTurn(w) && CreatorAlone(w) && OnePlace(w) && Renewal(w) && NoneWhileFetching(w)
  }

  lemma ActKeeps(w: World, th: ThreadId, choice: Choice)
    requires Inv(w) && th in w.threads
    ensures Inv(ActIn(w, th, w.threads[th], choice))
  {
    hide ActIn, OneTurn, CreatorAlone, OnePlace, Renewal, TurnEffect, FetchEffect, RenewalEffect, MoveIs, Moves;
    var pc := w.threads[th];
    var v := ActIn(w, th, pc, choice);
    OnlyOneThread(w, th, pc, choice);
    ActTurn(w, th, choice);
    OneTurnMove(w, v, th, v.threads[th]);
    CreatorStep(w, th, choice);
    ActMove(w, th, choice);
    if JobOf(pc).Some? {
      BuilderFetch(w, th, pc, choice);
      BuilderRenewal(w, th, pc, choice);
    } else {
      OtherFetch(w, th, pc, choice);
      OtherRenewal(w, th, pc, choice);
    }
    OnePlaceMove(w, v, th, v.threads[th], MoveOf(w, pc, choice));
    RenewalMove(w, v, th, v.threads[th], MoveOf(w, pc, choice));
    FetchMove(w, v, th, v.threads[th]);
  }

  lemma SpawnMove(w: World, step: Step, th: ThreadId) returns (m: Move)
    requires Spawns(w, step, th)
    ensures var v := Next(w, step);
            && Moves(w, v, th, PcOf(v, th)) && MoveIs(w, v, Done, PcOf(v, th), m) && m != Attaches
            && FetchEffect(w, v, Done, PcOf(v, th)) && RenewalEffect(w, v, Done, PcOf(v, th))
  {
    m := if step.Reap? && w.s.IdleFor(w.now, step.idleTimeout) then Detaches
         else if step.Evict? && !w.s.closed && w.s.IdleFor(w.now, step.coldTimeout) then Detaches
         else Same;
  }

  lemma SpawnKeeps(w: World, step: Step, th: ThreadId)
    requires Inv(w) && Spawns(w, step, th)
    ensures Inv(Next(w, step))
  {
    hide Next, OneTurn, CreatorAlone, OnePlace, Renewal, TurnEffect, FetchEffect, RenewalEffect, MoveIs, Moves;
    var v := Next(w, step);
    SpawnTurn(w, step, th);
    OneTurnMove(w, v, th, PcOf(v, th));
    SpawnCreator(w, step, th);
    var m := SpawnMove(w, step, th);
    OnePlaceMove(w, v, th, PcOf(v, th), m);
    RenewalMove(w, v, th, PcOf(v, th), m);
    FetchMove(w, v, th, PcOf(v, th));
  }

  lemma TickKeeps(w: World)
    requires Inv(w)
    ensures Inv(w.(now := w.now + 1))
  {
    var v := w.(now := w.now + 1);
    assert forall th, sb: SandboxId :: HeldBy(v, th, sb) <==> HeldBy(w, th, sb);
    assert forall sb: SandboxId :: Attached(v, sb) <==> Attached(w, sb);
    forall sb: SandboxId | InHand(w, sb)
      ensures InHand(v, sb)
    {
      var a :| a in w.threads && HeldBy(w, a, sb);
      assert HeldBy(v, a, sb);
    }
  }

  lemma NextKeeps(w: World, step: Step)
    requires Inv(w)
    ensures Inv(Next(w, step))
  {
    hide Inv, ActIn, ReapIt, EvictIt;
    match step
    case Tick => TickKeeps(w);
    case Act(th, choice) => if th in w.threads { ActKeeps(w, th, choice); }
    case Message(th) => if Spawns(w, step, th) { SpawnKeeps(w, step, th); }
    case ProcessExits(th) => if Spawns(w, step, th) { SpawnKeeps(w, step, th); }
    case Delete(th) => if Spawns(w, step, th) { SpawnKeeps(w, step, th); }
    case Cancel(th) => if Spawns(w, step, th) { SpawnKeeps(w, step, th); }
    case Reap(th, _) => if Spawns(w, step, th) { SpawnKeeps(w, step, th); }
    case Evict(th, _) => if Spawns(w, step, th) { SpawnKeeps(w, step, th); }
  }

  lemma InitialInv(created: bool)
    ensures Inv(Initial(created))
  {
  }

  lemma {:induction false} Always(created: bool, steps: seq<Step>)
    ensures Inv(Run(created, steps))
  {
    hide Inv, Next, Initial;
    if steps == [] {
      InitialInv(created);
    } else {
      Always(created, steps[..|steps| - 1]);
      NextKeeps(Run(created, steps[..|steps| - 1]), steps[|steps| - 1]);
    }
  }

  // ----- the ledger of every run -----

  /** In every reachable state an allocated sandbox is attached, in the hand of a single
      thread, or released, and only one of these; no sandbox is released twice. */
  lemma LedgerOfEveryRun(created: bool, steps: seq<Step>)
    ensures var w := Run(created, steps);
            && NoDuplicates(w.released)
            && forall sb: SandboxId :: sb < w.nextSandbox ==>
                 && (Attached(w, sb) || InHand(w, sb) || sb in w.released)
                 && !(Attached(w, sb) && InHand(w, sb)) && !(Attached(w, sb) && sb in w.released)
                 && !(InHand(w, sb) && sb in w.released)
                 && forall a, b :: HeldBy(w, a, sb) && HeldBy(w, b, sb) ==> a == b
  {
    hide Run;
    Always(created, steps);
  }

  /** The lease of the attached sandbox is renewed; renewal of a released one has stopped. */
  lemma RenewalOfEveryRun(created: bool, steps: seq<Step>)
    ensures var w := Run(created, steps);
            && (w.s.sandbox.Some? ==> w.s.sandbox.value in w.renewing)
            && forall sb <- w.released :: sb !in w.renewing
  {
    hide Run;
    Always(created, steps);
    var w := Run(created, steps);
    assert w.s.sandbox.Some? ==> Attached(w, w.s.sandbox.value);
  }

  /** Nothing leaks: once the session is closed, or its creation has failed, and no thread
      has a sandbox in hand, every sandbox ever allocated has been released, exactly once. */
  lemma NothingLeaks(created: bool, steps: seq<Step>)
    requires var w := Run(created, steps);
             && (w.s.closed || (!w.published && PcOf(w, 0).Done?))
             && forall th <- w.threads :: Held(w.threads[th]).None?
    ensures var w := Run(created, steps);
            NoDuplicates(w.released) && forall sb: SandboxId :: sb < w.nextSandbox <==> sb in w.released
  {
    hide Run;
    Always(created, steps);
    var w := Run(created, steps);
    forall sb: SandboxId | sb < w.nextSandbox
      ensures sb in w.released
    {
      assert !Attached(w, sb) && !InHand(w, sb);
    }
  }

  /** A closed session has no sandbox, and gets none. */
  lemma ClosedHasNone(created: bool, steps: seq<Step>)
    ensures Run(created, steps).s.closed ==> Run(created, steps).s.sandbox.None?
  {
    hide Run;
    Always(created, steps);
  }

  /** setSandbox never replaces an attached sandbox, and whoever is about to call it is the
      only one that builds a sandbox. */
  lemma NeverOverwrites(created: bool, steps: seq<Step>, th: ThreadId)
    requires var w := Run(created, steps); th in w.threads && w.threads[th].Installing?
    ensures Run(created, steps).s.sandbox.None?
    ensures forall other <- Run(created, steps).threads ::
              JobOf(Run(created, steps).threads[other]).Some? ==> other == th
  {
    hide Run, JobOf;
    Always(created, steps);
    var w := Run(created, steps);
    FetchersBuild(w.threads[th]);
    forall other <- w.threads | JobOf(w.threads[other]).Some?
      ensures other == th
    {
      OneBuilder(w, th, other);
    }
  }
}
