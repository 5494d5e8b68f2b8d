/** What a thread of the cluster achieves by itself, for every way its calls to the outside
    turn out: a creation, an adoption, a wait for another one, a lookup that fails, an
    eviction and a deletion; and what a crash leaves. */
module OwnershipSolo {
  import opened Text
  import opened Ownership
  import opened OwnershipRouting

  /** The steps of one thread, with the ways they turn out. */
  function Own(c: Cluster, th: ThreadId, results: seq<Result>): Cluster
    decreases |results|
  {
    if results == [] then c else Own(Next(c, Act(th, results[0])), th, results[1..])
  }

  lemma OwnFirst(c: Cluster, th: ThreadId, r: Result, rest: seq<Result>, d: Cluster)
    requires Next(c, Act(th, r)) == d
    ensures Own(c, th, [r] + rest) == Own(d, th, rest)
  {
    hide Next;
    assert ([r] + rest)[0] == r && ([r] + rest)[1..] == rest;
  }

  lemma OwnLast(c: Cluster, th: ThreadId, r: Result)
    ensures Own(c, th, [r]) == Next(c, Act(th, r))
  {
    hide Next;
    assert [r][1..] == [];
  }

  // ----- creation -----

  lemma WriteSpecStep(c: Cluster, th: ThreadId, n: NodeId, r: Result)
    ensures Next(At(c, th, n, WritingSpec, 0), Act(th, r))
         == if r == Ok then At(c.(spec := true), th, n, Registering, 0)
            else At(c.(spec := c.spec || r == Unsure), th, n, Done, 0)
  {
    GoAt(c.(spec := true), th, n, WritingSpec, 0, n, Registering, 0);
    GoAt(c.(spec := c.spec || r == Unsure), th, n, WritingSpec, 0, n, Done, 0);
  }

  function Registered(c: Cluster, n: NodeId, r: Result): Cluster
  {
    if r == Failed then c else c.(record := Some(n))
  }

  lemma RegisterStep(c: Cluster, th: ThreadId, n: NodeId, r: Result)
    ensures Next(At(c, th, n, Registering, 0), Act(th, r))
         == At(Registered(c, n, r), th, n, if r == Ok then Storing else DroppingSpec, 0)
  {
    GoAt(Registered(c, n, r), th, n, Registering, 0, n, if r == Ok then Storing else DroppingSpec, 0);
  }

  lemma StoreStep(c: Cluster, th: ThreadId, n: NodeId, r: Result)
    ensures Next(At(c, th, n, Storing, 0), Act(th, r))
         == At(c.(memory := c.memory + {n}, created := true), th, n, Done, 0)
  {
    GoAt(c.(memory := c.memory + {n}, created := true), th, n, Storing, 0, n, Done, 0);
  }

  lemma DropSpecStep(c: Cluster, th: ThreadId, n: NodeId, r: Result)
    ensures Next(At(c, th, n, DroppingSpec, 0), Act(th, r)) == At(c.(spec := c.spec && r == Failed), th, n, Done, 0)
  {
    GoAt(c.(spec := c.spec && r == Failed), th, n, DroppingSpec, 0, n, Done, 0);
  }

  /** A session whose spec and record are written is served by its node; otherwise it is not,
      and the spec goes unless removing it fails too. A record of which the node was told that
      it could not be written stays. */
  lemma CreateByItself(c: Cluster, th: ThreadId, n: NodeId, wrote: Result, registered: Result, dropped: Result)
    ensures Own(At(c, th, n, WritingSpec, 0), th, if wrote == Ok then [wrote] + ([registered] + [dropped]) else [wrote])
         == if wrote != Ok then At(c.(spec := c.spec || wrote == Unsure), th, n, Done, 0)
            else if registered == Ok then
              At(c.(spec := true, record := Some(n), memory := c.memory + {n}, created := true), th, n, Done, 0)
            else At(Registered(c.(spec := dropped == Failed), n, registered), th, n, Done, 0)
  {
    var s := c.(spec := true);
    var d := Registered(s, n, registered);
    assert registered == Ok ==> d == s.(record := Some(n));
    assert d.spec;
    assert d.(spec := d.spec && dropped == Failed) == Registered(c.(spec := dropped == Failed), n, registered);
    hide *;
    WriteSpecStep(c, th, n, wrote);
    if wrote != Ok {
      OwnLast(At(c, th, n, WritingSpec, 0), th, wrote);
    } else {
      OwnFirst(At(c, th, n, WritingSpec, 0), th, wrote, [registered] + [dropped], At(s, th, n, Registering, 0));
      var pc := if registered == Ok then Storing else DroppingSpec;
      RegisterStep(s, th, n, registered);
      OwnFirst(At(s, th, n, Registering, 0), th, registered, [dropped], At(d, th, n, pc, 0));
      OwnLast(At(d, th, n, pc, 0), th, dropped);
      StoreStep(d, th, n, dropped);
      DropSpecStep(d, th, n, dropped);
    }
  }

  // ----- adoption -----

  /** The spec is loaded and the record claimed or not; why the adoption ends then, if it does. */
  function ClaimEnd(c: Cluster, loaded: Result, claimed: Result): Option<Verdict>
  {
    if loaded != Ok then Some(Broken)
    else if !c.spec then Some(Missing)
    else if c.record.Some? && claimed == Ok then Some(ClaimLost)
    else if claimed != Ok then Some(Broken)
    else None
  }

  /** A claim that took effect without a confirmation leaves the record. */
  function ClaimLeft(c: Cluster, n: NodeId, loaded: Result, claimed: Result): Cluster
  {
    if loaded == Ok && c.spec && claimed == Unsure && c.record.None? then c.(record := Some(n)) else c
  }

  function ClaimPlan(c: Cluster, loaded: Result, claimed: Result): seq<Result>
  {
    if loaded != Ok || !c.spec then [loaded] + [Ok] else [loaded] + ([claimed] + [Ok])
  }

  lemma LoadTurnsOut(c: Cluster, th: ThreadId, n: NodeId, hops: nat, r: Result)
    ensures Next(At(c, th, n, LoadingSpec, hops), Act(th, r))
         == At(c, th, n, if r != Ok then Leaving(Broken) else if c.spec then Claiming else Leaving(Missing), hops)
  {
    GoAt(c, th, n, LoadingSpec, hops, n,
         if r != Ok then Leaving(Broken) else if c.spec then Claiming else Leaving(Missing), hops);
  }

  lemma ClaimTurnsOut(c: Cluster, th: ThreadId, n: NodeId, hops: nat, r: Result)
    ensures Next(At(c, th, n, Claiming, hops), Act(th, r))
         == if c.record.Some? then At(c, th, n, Leaving(if r == Ok then ClaimLost else Broken), hops)
            else if r == Failed then At(c, th, n, Leaving(Broken), hops)
            else At(c.(record := Some(n)), th, n, if r == Ok then Restoring else Leaving(Broken), hops)
  {
    GoAt(c, th, n, Claiming, hops, n, Leaving(if r == Ok then ClaimLost else Broken), hops);
    GoAt(c.(record := Some(n)), th, n, Claiming, hops, n, if r == Ok then Restoring else Leaving(Broken), hops);
    assert c.record.None? ==> c.(record := None) == c;
  }

  lemma RestoreTurnsOut(c: Cluster, th: ThreadId, n: NodeId, hops: nat, r: Result)
    ensures Next(At(c, th, n, Restoring, hops), Act(th, r))
         == At(c, th, n, if r == Ok then Publishing else Abandoning, hops)
    ensures Next(At(c, th, n, Publishing, hops), Act(th, r))
         == At(c.(memory := c.memory + {n}), th, n, Leaving(Adopted), hops)
    ensures Next(At(c, th, n, Abandoning, hops), Act(th, r))
         == At(if r == Failed then c else c.(record := None), th, n, Leaving(Broken), hops)
  {
    GoAt(c, th, n, Restoring, hops, n, if r == Ok then Publishing else Abandoning, hops);
    GoAt(c.(memory := c.memory + {n}), th, n, Publishing, hops, n, Leaving(Adopted), hops);
    GoAt(if r == Failed then c else c.(record := None), th, n, Abandoning, hops, n, Leaving(Broken), hops);
  }

  /** The adoption is over: the session may be adopted on this node again. */
  lemma LeaveTurnsOut(c: Cluster, th: ThreadId, n: NodeId, hops: nat, v: Verdict)
    ensures Next(At(c, th, n, Leaving(v), hops), Act(th, Ok))
         == At(c.(adopting := c.adopting - {n}), th, n, Left(v), hops)
  {
    GoAt(c.(adopting := c.adopting - {n}), th, n, Leaving(v), hops, n, Left(v), hops);
  }

  /** An adoption that finds no spec, loses the claim or fails before it has one leaves the
      cluster as it was, but for a claim that took effect without a confirmation. */
  lemma ClaimEnds(c: Cluster, th: ThreadId, n: NodeId, hops: nat, loaded: Result, claimed: Result)
    requires ClaimEnd(c, loaded, claimed).Some?
    ensures Own(At(c, th, n, LoadingSpec, hops), th, ClaimPlan(c, loaded, claimed))
         == At(ClaimLeft(c, n, loaded, claimed).(adopting := c.adopting - {n}), th, n,
               Left(ClaimEnd(c, loaded, claimed).value), hops)
  {
    var d, v := ClaimLeft(c, n, loaded, claimed), ClaimEnd(c, loaded, claimed).value;
    var start := At(c, th, n, LoadingSpec, hops);
    LoadTurnsOut(c, th, n, hops, loaded);
    LeaveTurnsOut(d, th, n, hops, v);
    OwnLast(At(d, th, n, Leaving(v), hops), th, Ok);
    hide Own, At, Left, Next;
    if loaded != Ok || !c.spec {
      OwnFirst(start, th, loaded, [Ok], At(d, th, n, Leaving(v), hops));
    } else {
      ClaimTurnsOut(c, th, n, hops, claimed);
      OwnFirst(start, th, loaded, [claimed] + [Ok], At(c, th, n, Claiming, hops));
      OwnFirst(At(c, th, n, Claiming, hops), th, claimed, [Ok], At(d, th, n, Leaving(v), hops));
    }
  }

  /** An adoption that has the claim serves the session if it can be restored, and gives the
      record back otherwise. */
  lemma ClaimHolds(c: Cluster, th: ThreadId, n: NodeId, hops: nat, restored: Result, ended: Result)
    requires c.spec && c.record.None?
    ensures Own(At(c, th, n, LoadingSpec, hops), th, [Ok] + ([Ok] + ([restored] + ([ended] + [Ok]))))
         == if restored == Ok then
              At(c.(record := Some(n), memory := c.memory + {n}, adopting := c.adopting - {n}), th, n, Local, hops)
            else
              At(c.(record := if ended == Failed then Some(n) else None, adopting := c.adopting - {n}),
                 th, n, BadGateway, hops)
  {
    var d := c.(record := Some(n));
    var pc := if restored == Ok then Publishing else Abandoning;
    var e := if restored == Ok then d.(memory := c.memory + {n}) else if ended == Failed then d else c;
    var v := if restored == Ok then Adopted else Broken;
    assert d.(record := None) == c;
    assert Left(Adopted) == Local && Left(Broken) == BadGateway;
    hide *;
    LoadTurnsOut(c, th, n, hops, Ok);
    ClaimTurnsOut(c, th, n, hops, Ok);
    RestoreTurnsOut(d, th, n, hops, restored);
    RestoreTurnsOut(d, th, n, hops, ended);
    LeaveTurnsOut(e, th, n, hops, v);
    OwnLast(At(e, th, n, Leaving(v), hops), th, Ok);
    OwnFirst(At(d, th, n, pc, hops), th, ended, [Ok], At(e, th, n, Leaving(v), hops));
    OwnFirst(At(d, th, n, Restoring, hops), th, restored, [ended] + [Ok], At(d, th, n, pc, hops));
    OwnFirst(At(c, th, n, Claiming, hops), th, Ok, [restored] + ([ended] + [Ok]), At(d, th, n, Restoring, hops));
    OwnFirst(At(c, th, n, LoadingSpec, hops), th, Ok, [Ok] + ([restored] + ([ended] + [Ok])),
             At(c, th, n, Claiming, hops));
  }

  // ----- waiting, and looking up -----

  /** A request that is to adopt the session leads the adoption on its node, or joins the one
      that is under way there. */
  lemma AdoptByItself(c: Cluster, th: ThreadId, n: NodeId, hops: nat)
    ensures Own(At(c, th, n, Adopting, hops), th, [Ok])
         == if n in c.adopting then At(c, th, n, Joining(c.adopting[n]), hops)
            else At(c.(adopting := c.adopting[n := th]), th, n, LoadingSpec, hops)
  {
    OwnLast(At(c, th, n, Adopting, hops), th, Ok);
    if n in c.adopting {
      GoAt(c, th, n, Adopting, hops, n, Joining(c.adopting[n]), hops);
    } else {
      GoAt(c.(adopting := c.adopting[n := th]), th, n, Adopting, hops, n, LoadingSpec, hops);
    }
  }

  /** What a request does that waits for the adoption led by on: nothing as long as that is
      under way; and it ends if its caller goes. */
  function Awaited(c: Cluster, n: NodeId, waiting: PC, on: ThreadId, after: PC, r: Result): PC
  {
    if r != Ok then BadGateway
    else if n in c.adopting && c.adopting[n] == on then waiting
    else if n in c.memory then Local
    else after
  }

  /** A request that has joined an adoption is answered by what that leaves. */
  lemma JoinByItself(c: Cluster, th: ThreadId, n: NodeId, hops: nat, on: ThreadId, r: Result)
    ensures Own(At(c, th, n, Joining(on), hops), th, [r])
         == At(c, th, n, Awaited(c, n, Joining(on), on, NotFound, r), hops)
  {
    OwnLast(At(c, th, n, Joining(on), hops), th, r);
    GoAt(c, th, n, Joining(on), hops, n, Awaited(c, n, Joining(on), on, NotFound, r), hops);
  }

  /** A request that has found an adoption under way goes on when that is over. */
  lemma WaitByItself(c: Cluster, th: ThreadId, n: NodeId, hops: nat, adopt: bool, on: ThreadId, r: Result)
    ensures var after := if hops > 0 then NotFound else Locating(adopt);
            Own(At(c, th, n, Waiting(adopt, on), hops), th, [r])
            == At(c, th, n, Awaited(c, n, Waiting(adopt, on), on, after, r), hops)
  {
    var after := if hops > 0 then NotFound else Locating(adopt);
    OwnLast(At(c, th, n, Waiting(adopt, on), hops), th, r);
    GoAt(c, th, n, Waiting(adopt, on), hops, n, Awaited(c, n, Waiting(adopt, on), on, after, r), hops);
  }

  /** A lookup that fails ends the request; one after a lost claim only hides the owner. */
  lemma LookupFails(c: Cluster, th: ThreadId, n: NodeId, hops: nat, adopt: bool, r: Result)
    requires r != Ok
    ensures Own(At(c, th, n, Locating(adopt), hops), th, [r]) == At(c, th, n, BadGateway, hops)
    ensures Own(At(c, th, n, Relocating, hops), th, [r])
         == At(c, th, n, if n in c.memory then Local else NotFound, hops)
  {
    OwnLast(At(c, th, n, Locating(adopt), hops), th, r);
    OwnLast(At(c, th, n, Relocating, hops), th, r);
    GoAt(c, th, n, Locating(adopt), hops, n, BadGateway, hops);
    GoAt(c, th, n, Relocating, hops, n, if n in c.memory then Local else NotFound, hops);
  }

  // ----- removal -----

  /** An eviction takes the session out of memory and the record away, and keeps the spec. */
  lemma EvictByItself(c: Cluster, th: ThreadId, n: NodeId, r: Result)
    requires th !in c.threads && n in c.memory
    ensures Own(Next(c, Evict(th, n)), th, [Ok] + [r])
         == At(c.(memory := c.memory - {n}, record := if r == Failed then c.record else None), th, n, Done, 0)
  {
    var d := c.(memory := c.memory - {n});
    var e := d.(record := if r == Failed then c.record else None);
    GoAt(d, th, n, RemovingCold, 0, n, UnregisteringCold, 0);
    GoAt(e, th, n, UnregisteringCold, 0, n, Done, 0);
    OwnLast(At(d, th, n, UnregisteringCold, 0), th, r);
    OwnFirst(At(c, th, n, RemovingCold, 0), th, Ok, [r], At(d, th, n, UnregisteringCold, 0));
  }

  lemma RemoveStep(c: Cluster, th: ThreadId, n: NodeId, r: Result)
    ensures Next(At(c, th, n, Removing, 0), Act(th, r)) == At(c.(memory := c.memory - {n}), th, n, Unregistering, 0)
  {
    GoAt(c.(memory := c.memory - {n}), th, n, Removing, 0, n, Unregistering, 0);
  }

  lemma UnregisterStep(c: Cluster, th: ThreadId, n: NodeId, r: Result)
    ensures Next(At(c, th, n, Unregistering, 0), Act(th, r))
         == At(c.(record := if r == Failed then c.record else None), th, n, DeletingSpec, 0)
  {
    GoAt(c.(record := if r == Failed then c.record else None), th, n, Unregistering, 0, n, DeletingSpec, 0);
  }

  lemma DeleteSpecStep(c: Cluster, th: ThreadId, n: NodeId, r: Result)
    ensures Next(At(c, th, n, DeletingSpec, 0), Act(th, r)) == At(c.(spec := c.spec && r == Failed), th, n, Done, 0)
  {
    GoAt(c.(spec := c.spec && r == Failed), th, n, DeletingSpec, 0, n, Done, 0);
  }

  /** A deletion takes the spec away as well, whatever becomes of the record. */
  lemma DeleteByItself(c: Cluster, th: ThreadId, n: NodeId, r: Result, dropped: Result)
    requires th !in c.threads && n in c.memory
    ensures Own(Next(c, Delete(th, n)), th, [Ok] + ([r] + [dropped]))
         == At(c.(memory := c.memory - {n}, record := if r == Failed then c.record else None,
                  spec := c.spec && dropped == Failed), th, n, Done, 0)
  {
    var d := c.(memory := c.memory - {n});
    var e := d.(record := if r == Failed then c.record else None);
    var f := e.(spec := c.spec && dropped == Failed);
    assert Next(c, Delete(th, n)) == At(c, th, n, Removing, 0);
    hide Next, At, Own;
    RemoveStep(c, th, n, Ok);
    UnregisterStep(d, th, n, r);
    DeleteSpecStep(e, th, n, dropped);
    OwnLast(At(e, th, n, DeletingSpec, 0), th, dropped);
    OwnFirst(At(d, th, n, Unregistering, 0), th, r, [dropped], At(e, th, n, DeletingSpec, 0));
    OwnFirst(At(c, th, n, Removing, 0), th, Ok, [r] + [dropped], At(d, th, n, Unregistering, 0));
  }

  /** A crash takes the node's memory, its adoption and its requests with it, and nothing of
      another node; the lease stays until it expires, and takes the record with it then. */
  lemma CrashThenExpiry(c: Cluster, n: NodeId)
    ensures var d := Next(c, Crash(n)); var e := Next(d, Expire(n));
            && d.up == c.up - {n} && d.memory == c.memory - {n} && d.adopting == c.adopting - {n}
            && d.record == c.record && d.leases == c.leases && d.spec == c.spec
            && d.threads.Keys == c.threads.Keys
            && (forall th <- c.threads :: if c.threads[th].node == n then d.threads[th].pc == Done
                                          else d.threads[th] == c.threads[th])
            && e == d.(leases := c.leases - {n}, record := if c.record == Some(n) then None else c.record)
    ensures n in c.up ==> Next(c, Expire(n)) == c
  {
    assert forall th <- c.threads :: th in Survivors(c, n);
  }
}
