/** One owner at a time, over every run of the cluster. */
module OwnershipLaws {
  import opened Text
  import opened Ownership

  // ----- who holds the session -----

  /** Has the session, or the right to it, outside its node's memory: registered or claimed
      but not stored yet, or removed but not unregistered yet. */
  predicate InHand(pc: PC)
  {
    pc.Storing? || pc.Restoring? || pc.Abandoning? || pc.Publishing? || pc.UnregisteringCold? || pc.Unregistering?
  }

  /** About to remove the session from memory. */
  predicate Removes(pc: PC)
  {
    pc.RemovingCold? || pc.Removing?
  }

  predicate Over(pc: PC)
  {
    pc.Local? || pc.NotFound? || pc.BadGateway? || pc.Done?
  }

  predicate HoldsAt(c: Cluster, th: ThreadId)
  {
    th in c.threads && InHand(c.threads[th].pc)
  }

  /** A running node holds the session: in memory, or in the hand of one of its threads. */
  predicate Holds(c: Cluster, n: NodeId)
  {
    n in c.up && (n in c.memory || exists th <- c.threads :: c.threads[th].node == n && HoldsAt(c, th))
  }

  // ----- the invariants -----

  predicate Owned(c: Cluster)
  {
    && (forall n <- c.memory :: c.record == Some(n))
    && (forall th <- c.threads :: InHand(c.threads[th].pc) ==>
          c.record == Some(c.threads[th].node) && c.threads[th].node !in c.memory)
    && (forall a <- c.threads, b <- c.threads :: InHand(c.threads[a].pc) && InHand(c.threads[b].pc) ==> a == b)
    && (forall th <- c.threads :: Removes(c.threads[th].pc) ==> c.threads[th].node in c.memory)
    && (forall a <- c.threads, b <- c.threads :: Retiring(c.threads[a].pc) && Retiring(c.threads[b].pc) ==> a == b)
  }

  predicate Running(c: Cluster)
  {
    && c.memory <= c.up <= c.leases
    && (forall th <- c.threads :: !Over(c.threads[th].pc) ==> c.threads[th].node in c.up)
    && (forall n <- c.leases :: n < c.nextNode)
  }

  predicate CreatorFirst(c: Cluster)
  {
    && (c.created ==> forall th <- c.threads :: !Creates(c.threads[th].pc))
    && (!c.created ==>
          && c.threads.Keys == {0} && c.memory == {} && c.adopting == map[]
          && (Creates(c.threads[0].pc) || c.threads[0].pc.Done?)
          && (c.threads[0].pc.WritingSpec? || c.threads[0].pc.Registering? ==> c.record.None?))
  }

  predicate SingleFlight(c: Cluster)
  {
    forall th <- c.threads :: Adopts(c.threads[th].pc) ==>
      c.threads[th].node in c.adopting && c.adopting[c.threads[th].node] == th
  }

  /** Past the check for a forwarded request. */
  predicate Seeks(pc: PC)
  {
    pc.Locating? || pc.Relocating? || pc.Forwarding? || pc.Adopting? || pc.Joining? || Adopts(pc)
  }

  predicate HopsOnce(c: Cluster)
  {
    forall th <- c.threads :: c.threads[th].hops <= if Seeks(c.threads[th].pc) then 0 else 1
  }

  // ----- the effect of one thread's step -----

  predicate Moves(c: Cluster, v: Cluster, th: ThreadId)
  {
    && th in c.threads && th in v.threads && v.threads == c.threads[th := v.threads[th]]
    && v.up == c.up && v.leases == c.leases && v.nextNode == c.nextNode
  }

  datatype Kind = Keeps | Gains | Registers | Stores | Takes | Releases

  /** The ways the record and the memory change, and with them what the thread has in hand. */
  predicate KindIs(c: Cluster, v: Cluster, before: Thread, now: Thread, k: Kind)
  {
    match k
    case Keeps =>
      v.record == c.record && v.memory == c.memory && InHand(now.pc) == InHand(before.pc)
      && Removes(now.pc) == Removes(before.pc)
      && Retiring(now.pc) == Retiring(before.pc) && (InHand(now.pc) || Removes(now.pc) ==> now.node == before.node)
    case Gains =>
      && c.record.None? && v.record == Some(now.node) && v.memory == c.memory && now.node == before.node
      && !InHand(before.pc) && !Removes(before.pc) && InHand(now.pc) && !Retiring(now.pc)
    case Registers =>
      && c.record.None? && v.record == Some(now.node) && v.memory == c.memory && now.node == before.node
      && !InHand(before.pc) && !Removes(before.pc) && !InHand(now.pc) && !Retiring(now.pc)
    case Stores =>
      && v.record == c.record && v.memory == c.memory + {before.node} && InHand(before.pc) && !Retiring(before.pc)
      && !InHand(now.pc) && !Retiring(now.pc)
    case Takes =>
      && v.record == c.record && v.memory == c.memory - {before.node} && Removes(before.pc) && now.node == before.node
      && InHand(now.pc) && !Removes(now.pc) && Retiring(now.pc) && Retiring(before.pc)
    case Releases =>
      && (v.record == c.record || v.record.None?) && v.memory == c.memory && InHand(before.pc)
      && !InHand(now.pc) && !Retiring(now.pc)
  }

  function KindOf(c: Cluster, pc: PC, r: Result): Kind
  {
    match pc
    case Registering => if r == Ok then Gains else if r == Unsure then Registers else Keeps
    case Claiming => if r == Failed || c.record.Some? then Keeps else if r == Ok then Gains else Registers
    case Storing => Stores
    case Publishing => Stores
    case RemovingCold => Takes
    case Removing => Takes
    case UnregisteringCold => Releases
    case Unregistering => Releases
    case Abandoning => Releases
    case _ => Keeps
  }

  lemma KeepsMove(c: Cluster, v: Cluster, th: ThreadId)
    requires Owned(c) && Moves(c, v, th) && KindIs(c, v, c.threads[th], v.threads[th], Keeps)
    ensures Owned(v)
  {
    hide InHand, Removes, Retiring;
    assert forall a <- v.threads :: a != th ==> v.threads[a] == c.threads[a];
  }

  lemma GainsMove(c: Cluster, v: Cluster, th: ThreadId, k: Kind)
    requires Owned(c) && Moves(c, v, th) && KindIs(c, v, c.threads[th], v.threads[th], k)
    requires (k == Gains || k == Registers)
    ensures Owned(v)
  {
    hide InHand, Removes, Retiring;
    RemovesMeansRetiring(v.threads[th].pc);
    NobodyHolds(c);
    assert forall a <- v.threads :: a != th ==> v.threads[a] == c.threads[a];
  }

  lemma StoresMove(c: Cluster, v: Cluster, th: ThreadId)
    requires Owned(c) && Moves(c, v, th) && KindIs(c, v, c.threads[th], v.threads[th], Stores)
    ensures Owned(v)
  {
    hide InHand, Removes, Retiring;
    RemovesMeansRetiring(v.threads[th].pc);
    assert forall a <- v.threads :: a != th ==> v.threads[a] == c.threads[a];
  }

  lemma TakesMove(c: Cluster, v: Cluster, th: ThreadId)
    requires Owned(c) && Moves(c, v, th) && KindIs(c, v, c.threads[th], v.threads[th], Takes)
    ensures Owned(v)
  {
    hide InHand, Removes, Retiring;
    assert forall a <- v.threads :: a != th ==> v.threads[a] == c.threads[a];
    forall a <- c.threads | a != th
      ensures !InHand(c.threads[a].pc) && !Removes(c.threads[a].pc)
    {
      RemovesMeansRetiring(c.threads[a].pc);
    }
  }

  lemma ReleasesMove(c: Cluster, v: Cluster, th: ThreadId)
    requires Owned(c) && Moves(c, v, th) && KindIs(c, v, c.threads[th], v.threads[th], Releases)
    ensures Owned(v)
  {
    hide InHand, Removes, Retiring;
    RemovesMeansRetiring(v.threads[th].pc);
    assert forall a <- v.threads :: a != th ==> v.threads[a] == c.threads[a];
  }

  lemma OwnedMove(c: Cluster, v: Cluster, th: ThreadId, k: Kind)
    requires Owned(c) && Moves(c, v, th) && KindIs(c, v, c.threads[th], v.threads[th], k)
    ensures Owned(v)
  {
    hide Owned, Moves, KindIs;
    match k
    case Keeps => KeepsMove(c, v, th);
    case Gains => GainsMove(c, v, th, k);
    case Registers => GainsMove(c, v, th, k);
    case Stores => StoresMove(c, v, th);
    case Takes => TakesMove(c, v, th);
    case Releases => ReleasesMove(c, v, th);
  }

  lemma RemovesMeansRetiring(pc: PC)
    ensures Removes(pc) ==> Retiring(pc)
  {
  }

  lemma NobodyHolds(c: Cluster)
    requires Owned(c) && c.record.None?
    ensures c.memory == {} && forall th <- c.threads :: !InHand(c.threads[th].pc) && !Removes(c.threads[th].pc)
  {
    assert forall n <- c.memory :: false;
  }

  // ----- which step has which effect -----

  lemma CreateKind(c: Cluster, th: ThreadId, t: Thread, r: Result)
    requires th in c.threads && c.threads[th] == t && Creates(t.pc) && (t.pc.Registering? ==> c.record.None?)
    ensures var v := CreateStep(c, th, t, r); Moves(c, v, th) && KindIs(c, v, t, v.threads[th], KindOf(c, t.pc, r))
  {
  }

  lemma LookKind(c: Cluster, th: ThreadId, t: Thread, r: Result)
    requires th in c.threads && c.threads[th] == t && (t.pc.Looking? || t.pc.Waiting?)
    ensures var v := RouteStep(c, th, t, r); Moves(c, v, th) && KindIs(c, v, t, v.threads[th], KindOf(c, t.pc, r))
  {
  }

  lemma LocateKind(c: Cluster, th: ThreadId, t: Thread, r: Result)
    requires th in c.threads && c.threads[th] == t && (t.pc.Locating? || t.pc.Relocating? || t.pc.Forwarding?)
    ensures var v := RouteStep(c, th, t, r); Moves(c, v, th) && KindIs(c, v, t, v.threads[th], KindOf(c, t.pc, r))
  {
  }

  lemma RouteKind(c: Cluster, th: ThreadId, t: Thread, r: Result)
    requires th in c.threads && c.threads[th] == t && Routes(t.pc)
    ensures var v := RouteStep(c, th, t, r); Moves(c, v, th) && KindIs(c, v, t, v.threads[th], KindOf(c, t.pc, r))
  {
    hide RouteStep, Moves, KindIs, KindOf;
    if t.pc.Looking? || t.pc.Waiting? {
      LookKind(c, th, t, r);
    } else {
      LocateKind(c, th, t, r);
    }
  }

  lemma ClaimKind(c: Cluster, th: ThreadId, t: Thread, r: Result)
    requires th in c.threads && c.threads[th] == t && t.pc.Claiming?
    ensures var v := AdoptStep(c, th, t, r); Moves(c, v, th) && KindIs(c, v, t, v.threads[th], KindOf(c, t.pc, r))
  {
  }

  lemma AdoptKind(c: Cluster, th: ThreadId, t: Thread, r: Result)
    requires th in c.threads && c.threads[th] == t && Adopts(t.pc) && !t.pc.Claiming?
    ensures var v := AdoptStep(c, th, t, r); Moves(c, v, th) && KindIs(c, v, t, v.threads[th], KindOf(c, t.pc, r))
  {
  }

  lemma QueueKind(c: Cluster, th: ThreadId, t: Thread, r: Result)
    requires th in c.threads && c.threads[th] == t && Queues(t.pc)
    ensures var v := QueueStep(c, th, t, r); Moves(c, v, th) && KindIs(c, v, t, v.threads[th], KindOf(c, t.pc, r))
  {
  }

  lemma RetireKind(c: Cluster, th: ThreadId, t: Thread, r: Result)
    requires th in c.threads && c.threads[th] == t && !Creates(t.pc) && !Routes(t.pc) && !Adopts(t.pc) && !Queues(t.pc)
    ensures var v := RetireStep(c, th, t, r); Moves(c, v, th) && KindIs(c, v, t, v.threads[th], KindOf(c, t.pc, r))
  {
  }

  lemma ClaimingAdopts(pc: PC)
    requires pc.Claiming?
    ensures Adopts(pc) && !Creates(pc) && !Routes(pc)
  {
  }

  lemma ActKind(c: Cluster, th: ThreadId, t: Thread, r: Result)
    requires th in c.threads && c.threads[th] == t && (t.pc.Registering? ==> c.record.None?)
    ensures var v := ActIn(c, th, t, r); Moves(c, v, th) && KindIs(c, v, t, v.threads[th], KindOf(c, t.pc, r))
  {
    hide CreateStep, RouteStep, AdoptStep, QueueStep, RetireStep, KindIs, Moves, KindOf,
         Creates, Routes, Adopts, Queues;
    if Creates(t.pc) {
      CreateKind(c, th, t, r);
    } else if Routes(t.pc) {
      RouteKind(c, th, t, r);
    } else if t.pc.Claiming? {
      ClaimKind(c, th, t, r);
      assert Adopts(t.pc) by { ClaimingAdopts(t.pc); }
    } else if Adopts(t.pc) {
      AdoptKind(c, th, t, r);
    } else if Queues(t.pc) {
      QueueKind(c, th, t, r);
    } else {
      RetireKind(c, th, t, r);
    }
  }

  // ----- the other invariants -----

  /** What a step does to where the thread is and to what it has on its way. */
  predicate SideEffect(c: Cluster, v: Cluster, before: Thread, now: Thread)
  {
    && (Over(now.pc) || now.node in c.up)
    && (v.created ==> c.created || !Creates(now.pc)) && (c.created ==> v.created)
    && (Creates(now.pc) ==> Creates(before.pc))
    && (now.hops == before.hops || (now.hops == before.hops + 1 && Seeks(before.pc)))
    && (Seeks(now.pc) ==> now.hops == 0 && before.hops == 0)
  }

  predicate FlightEffect(c: Cluster, v: Cluster, th: ThreadId, before: Thread, now: Thread)
  {
    if !Adopts(before.pc) && Adopts(now.pc) then
      now.node == before.node && now.node !in c.adopting && v.adopting == c.adopting[now.node := th]
    else if Adopts(before.pc) && !Adopts(now.pc) then
      v.adopting == c.adopting - {before.node}
    else
      v.adopting == c.adopting && (Adopts(now.pc) ==> now.node == before.node)
  }

  /** A thread that is not over runs on a running node, and seeks only if not forwarded. */
  predicate Placed(c: Cluster, t: Thread)
  {
    (!Over(t.pc) ==> t.node in c.up) && (Seeks(t.pc) ==> t.hops == 0)
  }

  lemma CreateSide(c: Cluster, th: ThreadId, t: Thread, r: Result)
    requires th in c.threads && c.threads[th] == t && Creates(t.pc) && Placed(c, t)
    ensures var v := CreateStep(c, th, t, r); th in v.threads && SideEffect(c, v, t, v.threads[th])
  {
  }

  lemma CreateFlight(c: Cluster, th: ThreadId, t: Thread, r: Result)
    requires th in c.threads && c.threads[th] == t && Creates(t.pc)
    ensures var v := CreateStep(c, th, t, r); th in v.threads && FlightEffect(c, v, th, t, v.threads[th])
  {
  }

  lemma LookSide(c: Cluster, th: ThreadId, t: Thread, r: Result)
    requires th in c.threads && c.threads[th] == t && (t.pc.Looking? || t.pc.Waiting?) && Placed(c, t)
    ensures var v := RouteStep(c, th, t, r); th in v.threads && SideEffect(c, v, t, v.threads[th])
  {
  }

  lemma LocateSide(c: Cluster, th: ThreadId, t: Thread, r: Result)
    requires th in c.threads && c.threads[th] == t && Placed(c, t)
    requires t.pc.Locating? || t.pc.Relocating? || t.pc.Forwarding?
    ensures var v := RouteStep(c, th, t, r); th in v.threads && SideEffect(c, v, t, v.threads[th])
  {
  }

  lemma RouteSide(c: Cluster, th: ThreadId, t: Thread, r: Result)
    requires th in c.threads && c.threads[th] == t && Routes(t.pc) && Placed(c, t)
    ensures var v := RouteStep(c, th, t, r); th in v.threads && SideEffect(c, v, t, v.threads[th])
  {
    hide RouteStep, SideEffect, Placed;
    if t.pc.Looking? || t.pc.Waiting? {
      LookSide(c, th, t, r);
    } else {
      LocateSide(c, th, t, r);
    }
  }

  lemma RouteFlight(c: Cluster, th: ThreadId, t: Thread, r: Result)
    requires th in c.threads && c.threads[th] == t && Routes(t.pc)
    ensures var v := RouteStep(c, th, t, r); th in v.threads && FlightEffect(c, v, th, t, v.threads[th])
  {
  }

  lemma AdoptSide(c: Cluster, th: ThreadId, t: Thread, r: Result)
    requires th in c.threads && c.threads[th] == t && Adopts(t.pc) && Placed(c, t)
    ensures var v := AdoptStep(c, th, t, r); th in v.threads && SideEffect(c, v, t, v.threads[th])
  {
  }

  lemma AdoptFlight(c: Cluster, th: ThreadId, t: Thread, r: Result)
    requires th in c.threads && c.threads[th] == t && Adopts(t.pc)
    ensures var v := AdoptStep(c, th, t, r); th in v.threads && FlightEffect(c, v, th, t, v.threads[th])
  {
  }

  lemma QueueSide(c: Cluster, th: ThreadId, t: Thread, r: Result)
    requires th in c.threads && c.threads[th] == t && Queues(t.pc) && Placed(c, t)
    ensures var v := QueueStep(c, th, t, r); th in v.threads && SideEffect(c, v, t, v.threads[th])
  {
  }

  lemma QueueFlight(c: Cluster, th: ThreadId, t: Thread, r: Result)
    requires th in c.threads && c.threads[th] == t && Queues(t.pc)
    ensures var v := QueueStep(c, th, t, r); th in v.threads && FlightEffect(c, v, th, t, v.threads[th])
  {
  }

  lemma RemovalSide(c: Cluster, th: ThreadId, t: Thread, r: Result)
    requires th in c.threads && c.threads[th] == t && Placed(c, t) && (Retiring(t.pc) || t.pc.DeletingSpec?)
    ensures var v := RetireStep(c, th, t, r); th in v.threads && SideEffect(c, v, t, v.threads[th])
  {
  }

  lemma EndedSide(c: Cluster, th: ThreadId, t: Thread, r: Result)
    requires th in c.threads && c.threads[th] == t && Placed(c, t) && !Retiring(t.pc) && !t.pc.DeletingSpec?
    ensures var v := RetireStep(c, th, t, r); th in v.threads && SideEffect(c, v, t, v.threads[th])
  {
  }

  lemma RetireSide(c: Cluster, th: ThreadId, t: Thread, r: Result)
    requires th in c.threads && c.threads[th] == t && Placed(c, t)
    requires !Creates(t.pc) && !Routes(t.pc) && !Adopts(t.pc) && !Queues(t.pc)
    ensures var v := RetireStep(c, th, t, r); th in v.threads && SideEffect(c, v, t, v.threads[th])
  {
    hide RetireStep, SideEffect, Placed, Creates, Routes, Adopts, Queues;
    if Retiring(t.pc) || t.pc.DeletingSpec? {
      RemovalSide(c, th, t, r);
    } else {
      hide Retiring;
      EndedSide(c, th, t, r);
    }
  }

  lemma RetireFlight(c: Cluster, th: ThreadId, t: Thread, r: Result)
    requires th in c.threads && c.threads[th] == t && !Creates(t.pc) && !Routes(t.pc) && !Adopts(t.pc) && !Queues(t.pc)
    ensures var v := RetireStep(c, th, t, r); th in v.threads && FlightEffect(c, v, th, t, v.threads[th])
  {
  }

  lemma ActSide(c: Cluster, th: ThreadId, t: Thread, r: Result)
    requires th in c.threads && c.threads[th] == t && Placed(c, t)
    ensures var v := ActIn(c, th, t, r);
            th in v.threads && SideEffect(c, v, t, v.threads[th]) && FlightEffect(c, v, th, t, v.threads[th])
  {
    hide CreateStep, RouteStep, AdoptStep, QueueStep, RetireStep, SideEffect, FlightEffect, Moves, Placed;
    hide Creates, Routes, Adopts, Queues;
    if Creates(t.pc) {
      CreateSide(c, th, t, r);
      CreateFlight(c, th, t, r);
    } else if Routes(t.pc) {
      RouteSide(c, th, t, r);
      RouteFlight(c, th, t, r);
    } else if Adopts(t.pc) {
      AdoptSide(c, th, t, r);
      AdoptFlight(c, th, t, r);
    } else if Queues(t.pc) {
      QueueSide(c, th, t, r);
      QueueFlight(c, th, t, r);
    } else {
      RetireSide(c, th, t, r);
      RetireFlight(c, th, t, r);
    }
  }

  lemma RunningMove(c: Cluster, v: Cluster, th: ThreadId, k: Kind)
    requires Running(c) && Moves(c, v, th) && Placed(c, c.threads[th])
    requires KindIs(c, v, c.threads[th], v.threads[th], k) && SideEffect(c, v, c.threads[th], v.threads[th])
    ensures Running(v)
  {
    InHandRuns(c.threads[th].pc);
    hide Over, InHand, Removes, Retiring, Seeks;
    assert forall a <- v.threads :: a != th ==> v.threads[a] == c.threads[a];
  }

  lemma InHandRuns(pc: PC)
    ensures InHand(pc) ==> !Over(pc)
  {
  }

  lemma FlightMove(c: Cluster, v: Cluster, th: ThreadId)
    requires SingleFlight(c) && Moves(c, v, th) && FlightEffect(c, v, th, c.threads[th], v.threads[th])
    ensures SingleFlight(v)
  {
    hide Adopts;
    assert forall a <- v.threads :: a != th ==> v.threads[a] == c.threads[a];
  }

  lemma HopsMove(c: Cluster, v: Cluster, th: ThreadId)
    requires HopsOnce(c) && Moves(c, v, th) && SideEffect(c, v, c.threads[th], v.threads[th])
    ensures HopsOnce(v)
  {
    hide Seeks, Over;
    assert forall a <- v.threads :: a != th ==> v.threads[a] == c.threads[a];
  }

  lemma CreatorAct(c: Cluster, r: Result)
    requires CreatorFirst(c) && !c.created && 0 in c.threads
    ensures CreatorFirst(ActIn(c, 0, c.threads[0], r))
  {
    var t := c.threads[0];
    if Creates(t.pc) {
      hide ActIn;
      CreatorStep(c, t, r);
      assert ActIn(c, 0, t, r) == CreateStep(c, 0, t, r) by { CreatorActs(c, t, r); }
    }
  }

  lemma CreatorActs(c: Cluster, t: Thread, r: Result)
    requires 0 in c.threads && Creates(t.pc)
    ensures ActIn(c, 0, t, r) == CreateStep(c, 0, t, r)
  {
  }

  lemma CreatorStep(c: Cluster, t: Thread, r: Result)
    requires CreatorFirst(c) && !c.created && 0 in c.threads && c.threads[0] == t && Creates(t.pc)
    ensures CreatorFirst(CreateStep(c, 0, t, r))
  {
    assert c.threads.Keys == {0};
  }

  lemma CreatorMove(c: Cluster, v: Cluster, th: ThreadId)
    requires CreatorFirst(c) && c.created && Moves(c, v, th) && SideEffect(c, v, c.threads[th], v.threads[th])
    ensures CreatorFirst(v)
  {
    hide Creates, Over, Seeks;
    assert forall a <- v.threads :: a != th ==> v.threads[a] == c.threads[a];
  }

  /** What every run keeps, however removals overlap. */
  ghost predicate Base(c: Cluster)
  {
    Running(c) && CreatorFirst(c) && SingleFlight(c) && HopsOnce(c)
  }

  ghost predicate Inv(c: Cluster)
  {
    Owned(c) && Base(c)
  }

  lemma ActBase(c: Cluster, th: ThreadId, r: Result)
    requires Base(c) && th in c.threads
    ensures Base(ActIn(c, th, c.threads[th], r))
  {
    hide ActIn, Moves, KindIs, SideEffect, FlightEffect, KindOf, SingleFlight, Over, Seeks;
    var t := c.threads[th];
    var v := ActIn(c, th, t, r);
    ActKind(c, th, t, r);
    ActSide(c, th, t, r);
    RunningMove(c, v, th, KindOf(c, t.pc, r));
    FlightMove(c, v, th);
    HopsMove(c, v, th);
    if c.created {
      CreatorMove(c, v, th);
    } else {
      CreatorAct(c, r);
    }
  }

  lemma ActOwned(c: Cluster, th: ThreadId, r: Result)
    requires Inv(c) && th in c.threads
    ensures Owned(ActIn(c, th, c.threads[th], r))
  {
    hide ActIn, Moves, KindIs, KindOf, Owned;
    var t := c.threads[th];
    ActKind(c, th, t, r);
    OwnedMove(c, ActIn(c, th, t, r), th, KindOf(c, t.pc, r));
  }

  lemma FreshPlaces(pc: PC)
    requires pc.Done? || pc.Looking? || pc.RemovingCold? || pc.Removing?
    ensures !InHand(pc) && !Creates(pc) && !Adopts(pc) && !Seeks(pc)
    ensures pc.Done? <==> Over(pc)
    ensures Removes(pc) == Retiring(pc) == (pc.RemovingCold? || pc.Removing?)
  {
  }

  lemma CrashedThreads(c: Cluster, n: NodeId)
    ensures var v := Survivors(c, n);
            && v.Keys == c.threads.Keys
            && forall a <- v :: v[a] == if c.threads[a].node == n then c.threads[a].(pc := Done) else c.threads[a]
  {
  }

  lemma CrashOwned(c: Cluster, n: NodeId)
    requires Owned(c)
    ensures Owned(Next(c, Crash(n)))
  {
    hide InHand, Removes, Retiring, Survivors;
    FreshPlaces(Done);
    CrashedThreads(c, n);
  }

  lemma CrashBase(c: Cluster, n: NodeId)
    requires Base(c)
    ensures Base(Next(c, Crash(n)))
  {
    hide Creates, Adopts, Seeks, Over, Survivors;
    FreshPlaces(Done);
    CrashedThreads(c, n);
  }

  lemma ExpireOwned(c: Cluster, n: NodeId)
    requires Owned(c) && Running(c)
    ensures Owned(Next(c, Expire(n)))
  {
    hide Retiring;
    if n !in c.up && c.record == Some(n) {
      assert forall m <- c.memory :: m == n;
    }
  }

  lemma QuietBase(c: Cluster, step: Step)
    requires Base(c) && (step.Boot? || step.Expire?)
    ensures Base(Next(c, step))
  {
    hide Seeks, Adopts, Creates, Over;
  }

  lemma SpawnBase(c: Cluster, step: Step)
    requires Base(c) && (step.Request? || step.Evict? || step.Delete?)
    ensures Base(Next(c, step))
  {
    hide Creates, Adopts, Seeks, Over;
    var v := Next(c, step);
    if v != c {
      FreshPlaces(v.threads[step.th].pc);
      assert step.th !in c.threads;
      assert forall a <- v.threads :: a != step.th ==> a in c.threads && v.threads[a] == c.threads[a];
    }
  }

  lemma SpawnOwned(c: Cluster, step: Step)
    requires Owned(c) && (step.Request? || ((step.Evict? || step.Delete?) && Calm(c)))
    ensures Owned(Next(c, step))
  {
    hide InHand, Removes, Retiring;
    var v := Next(c, step);
    if v != c {
      FreshPlaces(v.threads[step.th].pc);
      assert step.th !in c.threads;
      assert forall a <- v.threads :: a != step.th ==> a in c.threads && v.threads[a] == c.threads[a];
    }
  }

  lemma NextBase(c: Cluster, step: Step)
    requires Base(c)
    ensures Base(Next(c, step))
  {
    hide Base, ActIn, Survivors;
    match step
    case Act(th, r) => if th in c.threads { ActBase(c, th, r); }
    case Crash(n) => CrashBase(c, n);
    case Boot => QuietBase(c, step);
    case Expire(n) => QuietBase(c, step);
    case _ => SpawnBase(c, step);
  }

  lemma NextOwned(c: Cluster, step: Step)
    requires Inv(c) && (step.Evict? || step.Delete? ==> Calm(c))
    ensures Owned(Next(c, step))
  {
    hide Owned, ActIn, Calm, Survivors, CreatorFirst, SingleFlight, HopsOnce;
    match step
    case Act(th, r) => if th in c.threads { ActOwned(c, th, r); }
    case Boot => BootOwned(c);
    case Crash(n) => CrashOwned(c, n);
    case Expire(n) => ExpireOwned(c, n);
    case _ => SpawnOwned(c, step);
  }

  lemma BootOwned(c: Cluster)
    requires Owned(c)
    ensures Owned(Next(c, Boot))
  {
    hide InHand, Removes, Retiring;
  }

  lemma {:induction false} Always(steps: seq<Step>)
    ensures Base(Run(steps))
  {
    if steps != [] {
      hide Base, Next;
      Always(steps[..|steps| - 1]);
      NextBase(Run(steps[..|steps| - 1]), steps[|steps| - 1]);
    }
  }

  lemma {:induction false} AlwaysOwned(steps: seq<Step>)
    requires OneAtATime(steps)
    ensures Inv(Run(steps))
  {
    Always(steps);
    if steps != [] {
      hide Base, Owned, Next;
      Always(steps[..|steps| - 1]);
      AlwaysOwned(steps[..|steps| - 1]);
      NextOwned(Run(steps[..|steps| - 1]), steps[|steps| - 1]);
    }
  }

  // ----- what every run shows -----

  /** Over all runs of creation, routing, adoption, eviction, deletion, crashes and lease
      expiry in which removals do not overlap: a running node that holds the session is the
      one the record names, so no two nodes hold it. */
  lemma SingleOwner(steps: seq<Step>)
    requires OneAtATime(steps)
    ensures var c := Run(steps);
            && (forall n: NodeId :: Holds(c, n) ==> c.record == Some(n))
            && (forall m: NodeId, n: NodeId :: Holds(c, m) && Holds(c, n) ==> m == n)
            && (forall n <- c.memory :: Holds(c, n))
  {
    hide Run, InHand, OneAtATime;
    AlwaysOwned(steps);
    var c := Run(steps);
    forall n: NodeId | Holds(c, n)
      ensures c.record == Some(n)
    {
      if n !in c.memory {
        var th :| th in c.threads && c.threads[th].node == n && HoldsAt(c, th);
      }
    }
  }

  /** An adoption never replaces a session its node has in memory; there is one adoption at a
      time on a node; and what an adoption or a creation has in hand no other thread in the
      cluster has. */
  lemma AdoptionAlone(steps: seq<Step>, th: ThreadId)
    requires OneAtATime(steps) && th in Run(steps).threads
    ensures var c := Run(steps); var t := c.threads[th];
            && (t.pc.Publishing? ==> t.node !in c.memory)
            && (Adopts(t.pc) ==>
                   forall a <- c.threads :: Adopts(c.threads[a].pc) && c.threads[a].node == t.node ==> a == th)
            && (InHand(t.pc) ==> c.memory == {} && forall a <- c.threads :: InHand(c.threads[a].pc) ==> a == th)
  {
    hide Run, OneAtATime;
    AlwaysOwned(steps);
    var c := Run(steps);
    assert forall n <- c.memory :: c.record == Some(n);
  }

  /** A request is forwarded at most once. */
  lemma {:induction false} ForwardedOnce(steps: seq<Step>, th: ThreadId)
    requires th in Run(steps).threads
    ensures Run(steps).threads[th].hops <= 1
    ensures Run(steps).threads[th].pc.Forwarding? ==> Run(steps).threads[th].hops == 0
  {
    hide Run;
    Always(steps);
  }
}
