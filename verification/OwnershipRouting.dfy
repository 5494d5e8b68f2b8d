/** Where a request ends that nothing disturbs: served by the node that has the session, or
    answered in one of the other ways, exactly when. */
module OwnershipRouting {
  import opened Text
  import opened Ownership
  import opened OwnershipLaws
  import opened OwnershipRaces

  function At(c: Cluster, th: ThreadId, n: NodeId, pc: PC, hops: nat): Cluster
  {
    c.(threads := c.threads[th := Thread(n, pc, hops)])
  }

  lemma GoAt(c: Cluster, th: ThreadId, n: NodeId, pc: PC, hops: nat, m: NodeId, next: PC, more: nat)
    ensures At(At(c, th, n, pc, hops), th, m, next, more) == At(c, th, m, next, more)
    ensures At(c, th, n, pc, hops).Go(th, next) == At(c, th, n, next, hops)
  {
    assert c.threads[th := Thread(n, pc, hops)][th := Thread(m, next, more)] == c.threads[th := Thread(m, next, more)];
    assert c.threads[th := Thread(n, pc, hops)][th := Thread(n, next, hops)] == c.threads[th := Thread(n, next, hops)];
  }

  /** The first of the steps taken. */
  lemma {:induction false} Ahead(c: Cluster, th: ThreadId, k: nat)
    requires k > 0
    ensures Acts(c, th, k) == Acts(Next(c, Act(th, Ok)), th, k - 1)
  {
    hide Next;
    if k > 1 {
      Ahead(c, th, k - 1);
    }
  }

  lemma Goes(c: Cluster, d: Cluster, th: ThreadId, k: nat)
    requires k > 0 && Next(c, Act(th, Ok)) == d
    ensures Acts(c, th, k) == Acts(d, th, k - 1)
  {
    hide Next;
    Ahead(c, th, k);
  }

  /** A thread that has nothing to do stays where it is. */
  lemma {:induction false} Rests(c: Cluster, th: ThreadId, k: nat)
    requires Next(c, Act(th, Ok)) == c
    ensures Acts(c, th, k) == c
  {
    hide Next;
    if k > 0 {
      Rests(c, th, k - 1);
    }
  }

  lemma OverRests(c: Cluster, th: ThreadId, n: NodeId, pc: PC, hops: nat, k: nat)
    requires Over(pc) || (pc.Waiting? && c.InFlight(n, pc.on))
    ensures Acts(At(c, th, n, pc, hops), th, k) == At(c, th, n, pc, hops)
    ensures EndsAs(Acts(At(c, th, n, pc, hops), th, k), th, Ending(n, pc, hops))
  {
    Rests(At(c, th, n, pc, hops), th, k);
  }

  /** How the way of a request ends, and where. */
  datatype Ending = Ending(node: NodeId, pc: PC, hops: nat)

  predicate EndsAs(c: Cluster, th: ThreadId, e: Ending)
  {
    th in c.threads && c.threads[th] == Thread(e.node, e.pc, e.hops)
  }

  // ----- on the node a request has been forwarded to -----

  /** The owner has the session, is still adopting it, or does not have it. */
  function AtOwner(c: Cluster, m: NodeId, hops: nat): Ending
  {
    if m in c.memory then Ending(m, Local, hops)
    else if m in c.adopting then Ending(m, Waiting(true, c.adopting[m]), hops)
    else Ending(m, NotFound, hops)
  }

  /** The way of a request on n whose owner is to be found with one lookup. */
  function Onward(c: Cluster, n: NodeId, m: NodeId, hops: nat): Ending
  {
    if m in c.up then AtOwner(c, m, hops + 1) else Ending(n, BadGateway, hops)
  }

  lemma ForwardStep(c: Cluster, th: ThreadId, n: NodeId, m: NodeId, hops: nat)
    ensures Next(At(c, th, n, Forwarding(m), hops), Act(th, Ok))
         == if m in c.up then At(c, th, m, Looking(true), hops + 1) else At(c, th, n, BadGateway, hops)
  {
    GoAt(c, th, n, Forwarding(m), hops, m, Looking(true), hops + 1);
    GoAt(c, th, n, Forwarding(m), hops, n, BadGateway, hops);
  }

  lemma ArriveStep(c: Cluster, th: ThreadId, m: NodeId, hops: nat)
    requires hops > 0
    ensures Next(At(c, th, m, Looking(true), hops), Act(th, Ok)) == At(c, th, m, AtOwner(c, m, hops).pc, hops)
  {
    GoAt(c, th, m, Looking(true), hops, m, AtOwner(c, m, hops).pc, hops);
  }

  lemma OwnerAnswers(c: Cluster, n: NodeId, m: NodeId, hops: nat)
    requires m in c.up
    ensures var pc := AtOwner(c, m, hops + 1).pc;
            Onward(c, n, m, hops) == Ending(m, pc, hops + 1) && (Over(pc) || (pc.Waiting? && c.InFlight(m, pc.on)))
  {
  }

  lemma OwnerIsDown(c: Cluster, n: NodeId, m: NodeId, hops: nat)
    requires m !in c.up
    ensures Onward(c, n, m, hops) == Ending(n, BadGateway, hops) && Over(BadGateway)
  {
  }

  lemma ForwardedEnds(c: Cluster, th: ThreadId, n: NodeId, m: NodeId, hops: nat, k: nat)
    requires k >= 2
    ensures EndsAs(Acts(At(c, th, n, Forwarding(m), hops), th, k), th, Onward(c, n, m, hops))
  {
    hide *;
    var v := At(c, th, n, Forwarding(m), hops);
    ForwardStep(c, th, n, m, hops);
    if m in c.up {
      var w, pc := At(c, th, m, Looking(true), hops + 1), AtOwner(c, m, hops + 1).pc;
      ArriveStep(c, th, m, hops + 1);
      OwnerAnswers(c, n, m, hops);
      Goes(v, w, th, k);
      Goes(w, At(c, th, m, pc, hops + 1), th, k - 1);
      OverRests(c, th, m, pc, hops + 1, k - 2);
    } else {
      OwnerIsDown(c, n, m, hops);
      Goes(v, At(c, th, n, BadGateway, hops), th, k);
      OverRests(c, th, n, BadGateway, hops, k - 1);
    }
  }

  // ----- a fresh request -----

  /** Where a fresh request on node n ends: here if the session is here; behind an adoption
      that is under way here; with its owner, in one hop; with an adoption of its own, if
      there is no record, and there is a spec, and it may; and otherwise nowhere. */
  function Destination(c: Cluster, n: NodeId, adopt: bool): Ending
  {
    if n in c.memory then Ending(n, Local, 0)
    else if n in c.adopting then Ending(n, Waiting(adopt, c.adopting[n]), 0)
    else if Owner(c).Some? then Onward(c, n, Owner(c).value, 0)
    else if adopt && c.spec && c.record.None? then Ending(n, Local, 0)
    else Ending(n, NotFound, 0)
  }

  /** What a fresh request finds on its node. */
  function Around(c: Cluster, n: NodeId, adopt: bool): PC
  {
    if n in c.memory then Local
    else if n in c.adopting then Waiting(adopt, c.adopting[n])
    else Locating(adopt)
  }

  lemma LookStep(c: Cluster, th: ThreadId, n: NodeId, adopt: bool)
    ensures Next(At(c, th, n, Looking(adopt), 0), Act(th, Ok)) == At(c, th, n, Around(c, n, adopt), 0)
  {
    GoAt(c, th, n, Looking(adopt), 0, n, Around(c, n, adopt), 0);
  }

  function Located(c: Cluster, adopt: bool): PC
  {
    if Owner(c).Some? then Forwarding(Owner(c).value) else if adopt then Adopting else NotFound
  }

  lemma LocateStep(c: Cluster, th: ThreadId, n: NodeId, adopt: bool)
    ensures Next(At(c, th, n, Locating(adopt), 0), Act(th, Ok)) == At(c, th, n, Located(c, adopt), 0)
  {
    GoAt(c, th, n, Locating(adopt), 0, n, Located(c, adopt), 0);
  }

  lemma LeadStep(c: Cluster, th: ThreadId, n: NodeId)
    requires n !in c.adopting
    ensures Next(At(c, th, n, Adopting, 0), Act(th, Ok))
         == At(c.(adopting := c.adopting[n := th]), th, n, LoadingSpec, 0)
  {
    GoAt(c.(adopting := c.adopting[n := th]), th, n, Adopting, 0, n, LoadingSpec, 0);
  }

  lemma LoadStep(c: Cluster, th: ThreadId, n: NodeId)
    ensures Next(At(c, th, n, LoadingSpec, 0), Act(th, Ok))
         == At(c, th, n, if c.spec then Claiming else Leaving(Missing), 0)
  {
    GoAt(c, th, n, LoadingSpec, 0, n, if c.spec then Claiming else Leaving(Missing), 0);
  }

  lemma ClaimStep(c: Cluster, th: ThreadId, n: NodeId, hops: nat)
    ensures Next(At(c, th, n, Claiming, hops), Act(th, Ok))
         == if c.record.Some? then At(c, th, n, Leaving(ClaimLost), hops)
            else At(c.(record := Some(n)), th, n, Restoring, hops)
  {
    GoAt(c, th, n, Claiming, hops, n, Leaving(ClaimLost), hops);
    GoAt(c.(record := Some(n)), th, n, Claiming, hops, n, Restoring, hops);
  }

  lemma RestoreStep(c: Cluster, th: ThreadId, n: NodeId, hops: nat)
    ensures Next(At(c, th, n, Restoring, hops), Act(th, Ok)) == At(c, th, n, Publishing, hops)
  {
    GoAt(c, th, n, Restoring, hops, n, Publishing, hops);
  }

  lemma PublishStep(c: Cluster, th: ThreadId, n: NodeId, hops: nat)
    ensures Next(At(c, th, n, Publishing, hops), Act(th, Ok))
         == At(c.(memory := c.memory + {n}), th, n, Leaving(Adopted), hops)
  {
    GoAt(c.(memory := c.memory + {n}), th, n, Publishing, hops, n, Leaving(Adopted), hops);
  }

  /** What the four ways out of an adoption lead to. */
  function Left(v: Verdict): PC
  {
    match v
    case Adopted => Local
    case ClaimLost => Relocating
    case Missing => NotFound
    case Broken => BadGateway
  }

  lemma LeaveStep(c: Cluster, th: ThreadId, n: NodeId, v: Verdict, hops: nat)
    ensures Next(At(c, th, n, Leaving(v), hops), Act(th, Ok)) == At(c.EndAdoption(n), th, n, Left(v), hops)
  {
    GoAt(c.EndAdoption(n), th, n, Leaving(v), hops, n, Left(v), hops);
  }

  function Relocated(c: Cluster, n: NodeId): PC
  {
    if n in c.memory then Local else if Owner(c).Some? then Forwarding(Owner(c).value) else NotFound
  }

  lemma RelocateStep(c: Cluster, th: ThreadId, n: NodeId, hops: nat)
    ensures Next(At(c, th, n, Relocating, hops), Act(th, Ok)) == At(c, th, n, Relocated(c, n), hops)
  {
    GoAt(c, th, n, Relocating, hops, n, Relocated(c, n), hops);
  }

  lemma Endings()
    ensures Over(Local) && Over(NotFound) && Over(BadGateway)
  {
  }

  lemma ClaimWins(c: Cluster, th: ThreadId, n: NodeId, hops: nat, k: nat)
    requires c.record.None? && k >= 4
    ensures EndsAs(Acts(At(c, th, n, Claiming, hops), th, k), th, Ending(n, Local, hops))
  {
    hide *;
    var d := c.(record := Some(n));
    var p := d.(memory := d.memory + {n});
    var e := p.EndAdoption(n);
    ClaimStep(c, th, n, hops);
    RestoreStep(d, th, n, hops);
    PublishStep(d, th, n, hops);
    LeaveStep(p, th, n, Adopted, hops);
    Goes(At(c, th, n, Claiming, hops), At(d, th, n, Restoring, hops), th, k);
    Goes(At(d, th, n, Restoring, hops), At(d, th, n, Publishing, hops), th, k - 1);
    Goes(At(d, th, n, Publishing, hops), At(p, th, n, Leaving(Adopted), hops), th, k - 2);
    LeftAs();
    Goes(At(p, th, n, Leaving(Adopted), hops), At(e, th, n, Local, hops), th, k - 3);
    Endings();
    OverRests(e, th, n, Local, hops, k - 4);
  }

  lemma LeftAs()
    ensures Left(Adopted) == Local && Left(ClaimLost) == Relocating && Left(Missing) == NotFound
  {
  }

  /** Where a request ends that was about to claim and finds a record: here, if the session
      has come here meanwhile; or with the owner, who is looked up again; and nowhere if there
      is none. */
  function AfterLostClaim(c: Cluster, n: NodeId, hops: nat): Ending
  {
    if n in c.memory then Ending(n, Local, hops)
    else if Owner(c).Some? then Onward(c.EndAdoption(n), n, Owner(c).value, hops)
    else Ending(n, NotFound, hops)
  }

  /** It is where the second lookup leads. */
  lemma RelocatedTo(c: Cluster, n: NodeId, hops: nat)
    ensures var e := c.EndAdoption(n); var pc := Relocated(e, n);
            AfterLostClaim(c, n, hops)
            == if pc.Forwarding? then Onward(e, n, pc.owner, hops) else Ending(n, pc, hops)
    ensures Relocated(c.EndAdoption(n), n).Forwarding? || Over(Relocated(c.EndAdoption(n), n))
  {
  }

  lemma LostClaimEnds(c: Cluster, th: ThreadId, n: NodeId, hops: nat, k: nat)
    requires c.record.Some? && k >= 5
    ensures EndsAs(Acts(At(c, th, n, Claiming, hops), th, k), th, AfterLostClaim(c, n, hops))
  {
    hide *;
    var e := c.EndAdoption(n);
    var pc := Relocated(e, n);
    ClaimStep(c, th, n, hops);
    LeaveStep(c, th, n, ClaimLost, hops);
    RelocateStep(e, th, n, hops);
    LeftAs();
    RelocatedTo(c, n, hops);
    Goes(At(c, th, n, Claiming, hops), At(c, th, n, Leaving(ClaimLost), hops), th, k);
    Goes(At(c, th, n, Leaving(ClaimLost), hops), At(e, th, n, Relocating, hops), th, k - 1);
    Goes(At(e, th, n, Relocating, hops), At(e, th, n, pc, hops), th, k - 2);
    if pc.Forwarding? {
      ForwardedEnds(e, th, n, pc.owner, hops, k - 3);
    } else {
      OverRests(e, th, n, pc, hops, k - 3);
    }
  }

  lemma LostWithoutOwner(c: Cluster, th: ThreadId, n: NodeId)
    requires n !in c.memory && Owner(c).None?
    ensures AfterLostClaim(c.(adopting := c.adopting[n := th]), n, 0) == Ending(n, NotFound, 0)
  {
  }

  lemma AdopterEnds(c: Cluster, th: ThreadId, n: NodeId, k: nat)
    requires n !in c.memory && n !in c.adopting && Owner(c).None? && k >= 7
    ensures EndsAs(Acts(At(c, th, n, Adopting, 0), th, k), th,
                   Ending(n, if c.spec && c.record.None? then Local else NotFound, 0))
  {
    hide *;
    var f := c.(adopting := c.adopting[n := th]);
    LeadStep(c, th, n);
    LoadStep(f, th, n);
    Goes(At(c, th, n, Adopting, 0), At(f, th, n, LoadingSpec, 0), th, k);
    if !c.spec {
      LeaveStep(f, th, n, Missing, 0);
      LeftAs();
      Endings();
      Goes(At(f, th, n, LoadingSpec, 0), At(f, th, n, Leaving(Missing), 0), th, k - 1);
      Goes(At(f, th, n, Leaving(Missing), 0), At(f.EndAdoption(n), th, n, NotFound, 0), th, k - 2);
      OverRests(f.EndAdoption(n), th, n, NotFound, 0, k - 3);
    } else {
      Goes(At(f, th, n, LoadingSpec, 0), At(f, th, n, Claiming, 0), th, k - 1);
      if c.record.None? {
        ClaimWins(f, th, n, 0, k - 2);
      } else {
        LostClaimEnds(f, th, n, 0, k - 2);
        LostWithoutOwner(c, th, n);
      }
    }
  }

  /** The destination, by what the request finds and looks up. */
  lemma DestinationIs(c: Cluster, n: NodeId, adopt: bool)
    ensures var pc, next := Around(c, n, adopt), Located(c, adopt);
            Destination(c, n, adopt)
            == if !pc.Locating? then Ending(n, pc, 0)
               else if next.Forwarding? then Onward(c, n, next.owner, 0)
               else if next.Adopting? then Ending(n, if c.spec && c.record.None? then Local else NotFound, 0)
               else Ending(n, next, 0)
    ensures var pc := Around(c, n, adopt);
            if pc.Locating? then pc == Locating(adopt) && n !in c.memory && n !in c.adopting
            else Over(pc) || (pc.Waiting? && c.InFlight(n, pc.on))
    ensures Located(c, adopt).Forwarding? || Owner(c).None?
    ensures Located(c, adopt).Forwarding? || Located(c, adopt).Adopting? || Over(Located(c, adopt))
  {
  }

  lemma RequestStep(c: Cluster, th: ThreadId, n: NodeId, adopt: bool)
    requires c.created && n in c.up && th !in c.threads
    ensures Next(c, Request(th, n, adopt)) == At(c, th, n, Looking(adopt), 0)
  {
  }

  /** A fresh request whose calls all succeed, and which no other thread disturbs, ends at its
      destination. */
  lemma RequestEnds(c: Cluster, th: ThreadId, n: NodeId, adopt: bool, k: nat)
    requires c.created && n in c.up && th !in c.threads && k >= 9
    ensures EndsAs(Acts(Next(c, Request(th, n, adopt)), th, k), th, Destination(c, n, adopt))
  {
    hide *;
    var pc, next := Around(c, n, adopt), Located(c, adopt);
    RequestStep(c, th, n, adopt);
    DestinationIs(c, n, adopt);
    LookStep(c, th, n, adopt);
    Goes(At(c, th, n, Looking(adopt), 0), At(c, th, n, pc, 0), th, k);
    if !pc.Locating? {
      OverRests(c, th, n, pc, 0, k - 1);
    } else {
      LocateStep(c, th, n, adopt);
      Goes(At(c, th, n, pc, 0), At(c, th, n, next, 0), th, k - 1);
      if next.Forwarding? {
        ForwardedEnds(c, th, n, next.owner, 0, k - 2);
      } else if next.Adopting? {
        AdopterEnds(c, th, n, k - 2);
      } else {
        OverRests(c, th, n, next, 0, k - 2);
      }
    }
  }

  // ----- what every run shows -----

  /** In every run: a request on any other node reaches the node that has the session and is
      named by the record, in one hop, unless it finds an adoption under way on its own. */
  lemma ReachesOwner(steps: seq<Step>, th: ThreadId, n: NodeId, m: NodeId, adopt: bool)
    requires var c := Run(steps);
             && c.created && n in c.up && th !in c.threads && n !in c.memory && n !in c.adopting
             && c.record == Some(m) && m in c.memory
    ensures EndsAs(Acts(Next(Run(steps), Request(th, n, adopt)), th, 9), th, Ending(m, Local, 1))
  {
    hide Run;
    Always(steps);
    RequestEnds(Run(steps), th, n, adopt, 9);
  }

  /** When a fresh request is told that there is no such session: exactly when the session is
      not on its node, nor being adopted there, and its owner runs and neither has it nor is
      adopting it, or there is no owner and no way to adopt it. */
  lemma NotFoundExactly(c: Cluster, th: ThreadId, n: NodeId, adopt: bool)
    requires c.created && n in c.up && th !in c.threads
    ensures var v := Acts(Next(c, Request(th, n, adopt)), th, 9);
            (th in v.threads && v.threads[th].pc.NotFound?)
            <==> && n !in c.memory && n !in c.adopting
                 && if c.record.Some? && c.record.value in c.leases then
                      var m := c.record.value;
                      m in c.up && m !in c.memory && m !in c.adopting
                    else !adopt || !c.spec || c.record.Some?
  {
    RequestEnds(c, th, n, adopt, 9);
  }
}
