/** What a thread of the session achieves by itself: a turn from its acceptance to the drain
    that follows it, a drain, the creation of a session, a deletion, a sweep and a cancel,
    for every way its calls to the outside turn out. */
module TurnSolo {
  import opened Text
  import opened Session
  import opened TurnProtocol

  /** The steps of one thread, with the ways they turn out. */
  function Own(w: World, th: ThreadId, choices: seq<Choice>): World
    decreases |choices|
  {
    if choices == [] then w else Own(Next(w, Act(th, choices[0])), th, choices[1..])
  }

  lemma {:induction false} OwnThen(w: World, th: ThreadId, a: seq<Choice>, b: seq<Choice>)
    ensures Own(w, th, a + b) == Own(Own(w, th, a), th, b)
    decreases |a|
  {
    hide Next;
    if a == [] {
      assert a + b == b;
    } else {
      assert (a + b)[0] == a[0] && (a + b)[1..] == a[1..] + b;
      OwnThen(Next(w, Act(th, a[0])), th, a[1..], b);
    }
  }

  lemma OwnOne(w: World, th: ThreadId, c: Choice)
    ensures Own(w, th, [c]) == Next(w, Act(th, c))
  {
    hide Next;
    assert [c][1..] == [];
  }

  /** One step, and then the others. */
  lemma OwnFirst(w: World, th: ThreadId, c: Choice, rest: seq<Choice>, v: World)
    requires Next(w, Act(th, c)) == v
    ensures Own(w, th, [c] + rest) == Own(v, th, rest)
  {
    hide Next;
    OwnThen(w, th, [c], rest);
    OwnOne(w, th, c);
  }

  lemma GoGo(w: World, th: ThreadId, a: PC, b: PC)
    ensures w.Go(th, a).Go(th, b) == w.Go(th, b)
  {
    assert w.threads[th := a][th := b] == w.threads[th := b];
  }

  // ----- getting a sandbox -----

  /** What follows once a sandbox is there, and if none can be had. */
  function Supplied(job: Job, sb: SandboxId): PC
  {
    match job
    case ForTurn(t) => Running(t, sb)
    case ForCreation => Registering
  }

  function Unsupplied(job: Job): PC
  {
    match job
    case ForTurn(t) => Failing(t)
    case ForCreation => Done
  }

  /** The steps it takes: none to allocate if there is a live sandbox; else to allocate, to
      build and to install; what has been allocated in vain is released. */
  function SupplyPlan(w: World, allocates: bool, builds: bool): seq<Choice>
  {
    if !w.s.closed && w.s.sandbox.Some? then [Ok]
    else if !allocates then [Ok] + [Fail]
    else if !builds then [Ok] + [Ok] + [Fail] + [Ok]
    else if w.s.closed then [Ok] + [Ok] + [Ok] + [Ok] + [Ok]
    else [Ok] + [Ok] + [Ok] + [Ok]
  }

  /** Whether there is one in the end, and what the attempt leaves. */
  predicate Supplies(w: World, allocates: bool, builds: bool)
  {
    !w.s.closed && (w.s.sandbox.Some? || (allocates && builds))
  }

  function SuppliedWorld(w: World, allocates: bool, builds: bool): World
  {
    var sb := w.nextSandbox;
    if (!w.s.closed && w.s.sandbox.Some?) || !allocates then w
    else if builds && !w.s.closed then
      w.(nextSandbox := sb + 1, renewing := w.renewing + {sb}, s := w.s.(sandbox := Some(sb)))
    else w.(nextSandbox := sb + 1, renewing := w.renewing - {sb}, released := w.released + [sb])
  }

  function SuppliedId(w: World): SandboxId
  {
    if w.s.sandbox.Some? then w.s.sandbox.value else w.nextSandbox
  }

  lemma EnsureStep(w: World, th: ThreadId, job: Job, c: Choice)
    ensures Next(w.Go(th, Ensuring(job)), Act(th, c))
         == w.Go(th, if !w.s.closed && w.s.sandbox.Some? then Supplied(job, w.s.sandbox.value) else Allocating(job))
  {
    GoGo(w, th, Ensuring(job), Allocating(job));
    if w.s.sandbox.Some? {
      GoGo(w, th, Ensuring(job), Supplied(job, w.s.sandbox.value));
    }
  }

  lemma AllocateStep(w: World, th: ThreadId, job: Job, c: Choice)
    ensures Next(w.Go(th, Allocating(job)), Act(th, c))
         == if c == Ok then w.(nextSandbox := w.nextSandbox + 1).Go(th, Building(job, w.nextSandbox))
            else w.Go(th, Unsupplied(job))
  {
    GoGo(w, th, Allocating(job), Unsupplied(job));
    GoGo(w.(nextSandbox := w.nextSandbox + 1), th, Allocating(job), Building(job, w.nextSandbox));
  }

  lemma BuildStep(w: World, th: ThreadId, job: Job, sb: SandboxId, c: Choice)
    ensures Next(w.Go(th, Building(job, sb)), Act(th, c))
         == if c == Ok then w.(renewing := w.renewing + {sb}).Go(th, Installing(job, sb))
            else w.Go(th, Discarding(job, sb))
  {
    GoGo(w, th, Building(job, sb), Discarding(job, sb));
    GoGo(w.(renewing := w.renewing + {sb}), th, Building(job, sb), Installing(job, sb));
  }

  lemma InstallStep(w: World, th: ThreadId, job: Job, sb: SandboxId, c: Choice)
    ensures Next(w.Go(th, Installing(job, sb)), Act(th, c))
         == if w.s.closed then w.Go(th, Refused(job, sb))
            else w.(s := w.s.(sandbox := Some(sb))).Go(th, Supplied(job, sb))
  {
    GoGo(w, th, Installing(job, sb), Refused(job, sb));
    GoGo(w.(s := w.s.(sandbox := Some(sb))), th, Installing(job, sb), Supplied(job, sb));
  }

  /** A sandbox that is not wanted after all: its renewal stops, and it is released. */
  function ReleasedOne(w: World, sb: SandboxId): World
  {
    w.(renewing := w.renewing - {sb}, released := w.released + [sb])
  }

  lemma ReleaseStep(w: World, th: ThreadId, job: Job, sb: SandboxId, c: Choice)
    ensures Next(w.Go(th, Discarding(job, sb)), Act(th, c)) == ReleasedOne(w, sb).Go(th, Unsupplied(job))
    ensures Next(w.Go(th, Refused(job, sb)), Act(th, c)) == ReleasedOne(w, sb).Go(th, Unsupplied(job))
    ensures Next(w.Go(th, Releasing(sb)), Act(th, c)) == ReleasedOne(w, sb).Go(th, Done)
  {
    GoGo(ReleasedOne(w, sb), th, Discarding(job, sb), Unsupplied(job));
    GoGo(ReleasedOne(w, sb), th, Refused(job, sb), Unsupplied(job));
    GoGo(ReleasedOne(w, sb), th, Releasing(sb), Done);
  }

  lemma RenewalEnds(w: World, sb: SandboxId)
    ensures ReleasedOne(w.(renewing := w.renewing + {sb}), sb) == ReleasedOne(w, sb)
  {
    assert w.renewing + {sb} - {sb} == w.renewing - {sb};
  }

  /** The allocated sandbox is built and installed, or given back. */
  lemma Fetched(w: World, th: ThreadId, job: Job, builds: bool, rest: seq<Choice>)
    requires w.s.closed || w.s.sandbox.None?
    requires rest == if !builds then [Fail] + [Ok] else if w.s.closed then [Ok] + [Ok] + [Ok] else [Ok] + [Ok]
    ensures var sb := w.nextSandbox; var v := w.(nextSandbox := sb + 1);
            Own(v.Go(th, Building(job, sb)), th, rest)
            == SuppliedWorld(w, true, builds)
                 .Go(th, if builds && !w.s.closed then Supplied(job, sb) else Unsupplied(job))
  {
    hide Next, Own;
    var sb := w.nextSandbox;
    var v := w.(nextSandbox := sb + 1);
    var n := v.(renewing := v.renewing + {sb});
    BuildStep(v, th, job, sb, Fail);
    BuildStep(v, th, job, sb, Ok);
    InstallStep(n, th, job, sb, Ok);
    ReleaseStep(v, th, job, sb, Ok);
    ReleaseStep(n, th, job, sb, Ok);
    RenewalEnds(v, sb);
    if !builds {
      OwnFirst(v.Go(th, Building(job, sb)), th, Fail, [Ok], v.Go(th, Discarding(job, sb)));
      OwnOne(v.Go(th, Discarding(job, sb)), th, Ok);
    } else if w.s.closed {
      assert rest == [Ok] + ([Ok] + [Ok]);
      OwnFirst(v.Go(th, Building(job, sb)), th, Ok, [Ok] + [Ok], n.Go(th, Installing(job, sb)));
      OwnFirst(n.Go(th, Installing(job, sb)), th, Ok, [Ok], n.Go(th, Refused(job, sb)));
      OwnOne(n.Go(th, Refused(job, sb)), th, Ok);
    } else {
      OwnFirst(v.Go(th, Building(job, sb)), th, Ok, [Ok], n.Go(th, Installing(job, sb)));
      OwnOne(n.Go(th, Installing(job, sb)), th, Ok);
    }
  }

  /** ensureSandbox: a live sandbox is used as it is; otherwise one is allocated, built and
      attached; and if that fails, or the session is closed, it is released again. */
  lemma Supply(w: World, th: ThreadId, job: Job, allocates: bool, builds: bool)
    ensures Own(w.Go(th, Ensuring(job)), th, SupplyPlan(w, allocates, builds))
         == SuppliedWorld(w, allocates, builds)
              .Go(th, if Supplies(w, allocates, builds) then Supplied(job, SuppliedId(w)) else Unsupplied(job))
  {
    hide Next, Own;
    var e, a := w.Go(th, Ensuring(job)), w.Go(th, Allocating(job));
    var b := w.(nextSandbox := w.nextSandbox + 1).Go(th, Building(job, w.nextSandbox));
    EnsureStep(w, th, job, Ok);
    if !w.s.closed && w.s.sandbox.Some? {
      OwnOne(e, th, Ok);
    } else {
      AllocateStep(w, th, job, Ok);
      AllocateStep(w, th, job, Fail);
      if !allocates {
        OwnFirst(e, th, Ok, [Fail], a);
        OwnOne(a, th, Fail);
      } else {
        var rest := if !builds then [Fail] + [Ok] else if w.s.closed then [Ok] + [Ok] + [Ok] else [Ok] + [Ok];
        assert SupplyPlan(w, allocates, builds) == [Ok] + ([Ok] + rest);
        OwnFirst(e, th, Ok, [Ok] + rest, a);
        OwnFirst(a, th, Ok, rest, b);
        Fetched(w, th, job, builds, rest);
      }
    }
  }

  // ----- a turn -----

  /** The rest of a turn: the loop runs to its end or fails; a failure is reported, as a cancel
      if the turn has been cancelled by then. */
  function EndPlan(supplied: bool, completes: bool): seq<Choice>
  {
    if supplied && completes then [Ok] else if supplied then [Fail] + [Ok] + [Ok] else [Ok] + [Ok]
  }

  function EndStatus(w: World, supplied: bool, completes: bool): Status
  {
    if supplied && completes then StatusDone else if w.s.cancelled then StatusCancelled else StatusError
  }

  lemma RunStep(w: World, th: ThreadId, t: TurnId, sb: SandboxId)
    ensures Next(w.Go(th, Running(t, sb)), Act(th, Ok)) == Logged(w, t, TurnFinished(StatusDone)).Go(th, Ended(t))
    ensures Next(w.Go(th, Running(t, sb)), Act(th, Fail)) == w.Go(th, Failing(t))
    ensures forall kind :: kind == Delta || kind == ToolCall ==>
              Next(w.Go(th, Running(t, sb)), Act(th, Emit(kind))) == Logged(w, t, kind).Go(th, Running(t, sb))
  {
    GoGo(w, th, Running(t, sb), Failing(t));
    GoGo(Logged(w, t, TurnFinished(StatusDone)), th, Running(t, sb), Ended(t));
  }

  function Logged(w: World, t: TurnId, kind: Kind): World
  {
    w.(log := w.log + [Entry(t, kind, w.now)])
  }

  lemma FailStep(w: World, th: ThreadId, t: TurnId, c: Choice)
    ensures Next(w.Go(th, Failing(t)), Act(th, c)) == w.Go(th, Reporting(t, w.s.cancelled))
    ensures forall cancelled ::
              Next(w.Go(th, Reporting(t, cancelled)), Act(th, c))
              == Logged(w, t, TurnFinished(if cancelled then StatusCancelled else StatusError)).Go(th, Ended(t))
  {
    GoGo(w, th, Failing(t), Reporting(t, w.s.cancelled));
    forall cancelled
      ensures Next(w.Go(th, Reporting(t, cancelled)), Act(th, c))
           == Logged(w, t, TurnFinished(if cancelled then StatusCancelled else StatusError)).Go(th, Ended(t))
    {
      GoGo(Logged(w, t, TurnFinished(if cancelled then StatusCancelled else StatusError)), th,
           Reporting(t, cancelled), Ended(t));
    }
  }

  lemma Ends(w: World, th: ThreadId, t: TurnId, sb: SandboxId, supplied: bool, completes: bool)
    ensures Own(w.Go(th, if supplied then Running(t, sb) else Failing(t)), th, EndPlan(supplied, completes))
         == Logged(w, t, TurnFinished(EndStatus(w, supplied, completes))).Go(th, Ended(t))
  {
    hide Next, Own, Logged;
    var f, report := w.Go(th, Failing(t)), w.Go(th, Reporting(t, w.s.cancelled));
    RunStep(w, th, t, sb);
    FailStep(w, th, t, Ok);
    if supplied && completes {
      OwnOne(w.Go(th, Running(t, sb)), th, Ok);
    } else {
      OwnFirst(f, th, Ok, [Ok], report);
      OwnOne(report, th, Ok);
      if supplied {
        assert [Fail] + [Ok] + [Ok] == [Fail] + ([Ok] + [Ok]);
        OwnFirst(w.Go(th, Running(t, sb)), th, Fail, [Ok] + [Ok], f);
      }
    }
  }

  /** Activity is recorded, and the turn is over: the session is idle, unclaimed results are
      gone, and whoever waits for the end is released. */
  function Closed(w: World, t: TurnId): World
  {
    w.(s := w.s.(lastActivity := w.now, turn := None, pending := map[]), turnsDone := w.turnsDone + {t})
  }

  lemma Closes(w: World, th: ThreadId, t: TurnId)
    requires w.s.turn == Some(t)
    ensures Own(w.Go(th, Ended(t)), th, [Ok] + [Ok]) == Closed(w, t).Go(th, Draining)
  {
    var touched := w.(s := w.s.(lastActivity := w.now));
    GoGo(touched, th, Ended(t), Closing(t));
    GoGo(Closed(w, t), th, Closing(t), Draining);
    assert Next(w.Go(th, Ended(t)), Act(th, Ok)) == touched.Go(th, Closing(t));
    assert Next(touched.Go(th, Closing(t)), Act(th, Ok)) == Closed(w, t).Go(th, Draining);
    hide Next, Own;
    OwnFirst(w.Go(th, Ended(t)), th, Ok, [Ok], touched.Go(th, Closing(t)));
    OwnOne(touched.Go(th, Closing(t)), th, Ok);
  }

  /** The turn is announced, and its activity recorded. */
  function Announced(w: World, t: TurnId): World
  {
    Logged(w.(s := w.s.(lastActivity := w.now)), t, TurnStarted)
  }

  lemma Begins(w: World, th: ThreadId, t: TurnId)
    ensures Own(w.Go(th, Accepted(t)), th, [Ok] + [Ok]) == Announced(w, t).Go(th, Ensuring(ForTurn(t)))
  {
    var touched := w.(s := w.s.(lastActivity := w.now));
    GoGo(touched, th, Accepted(t), Announcing(t));
    GoGo(Announced(w, t), th, Announcing(t), Ensuring(ForTurn(t)));
    assert Next(w.Go(th, Accepted(t)), Act(th, Ok)) == touched.Go(th, Announcing(t));
    assert Next(touched.Go(th, Announcing(t)), Act(th, Ok)) == Announced(w, t).Go(th, Ensuring(ForTurn(t)));
    hide Next, Own;
    OwnFirst(w.Go(th, Accepted(t)), th, Ok, [Ok], touched.Go(th, Announcing(t)));
    OwnOne(touched.Go(th, Announcing(t)), th, Ok);
  }

  function TurnPlan(w: World, allocates: bool, builds: bool, completes: bool): seq<Choice>
  {
    ([Ok] + [Ok]) + SupplyPlan(w, allocates, builds)
    + EndPlan(Supplies(w, allocates, builds), completes) + ([Ok] + [Ok])
  }

  /** A turn that nothing disturbs, from its acceptance on: it announces itself, gets its
      sandbox or not, ends with one terminal event, done, cancelled or error, and leaves the
      session idle, about to drain the exits that came meanwhile. */
  lemma TurnByItself(w: World, th: ThreadId, t: TurnId, allocates: bool, builds: bool, completes: bool)
    requires w.s.turn == Some(t)
    ensures var status := EndStatus(w, Supplies(w, allocates, builds), completes);
            Own(w.Go(th, Accepted(t)), th, TurnPlan(w, allocates, builds, completes))
            == Closed(Logged(SuppliedWorld(Announced(w, t), allocates, builds), t, TurnFinished(status)), t)
                 .Go(th, Draining)
  {
    var a := Announced(w, t);
    var b := SuppliedWorld(a, allocates, builds);
    var supplied := Supplies(w, allocates, builds);
    var c := Logged(b, t, TurnFinished(EndStatus(w, supplied, completes)));
    var pc := if supplied then Running(t, SuppliedId(a)) else Failing(t);
    assert SupplyPlan(a, allocates, builds) == SupplyPlan(w, allocates, builds);
    assert Supplies(a, allocates, builds) == supplied;
    assert EndStatus(b, supplied, completes) == EndStatus(w, supplied, completes);
    assert pc == if supplied then Supplied(ForTurn(t), SuppliedId(a)) else Unsupplied(ForTurn(t));
    assert c.s.turn == Some(t);
    hide *;
    Begins(w, th, t);
    Supply(a, th, ForTurn(t), allocates, builds);
    Ends(b, th, t, SuppliedId(a), supplied, completes);
    Closes(c, th, t);
    PlanParts(w, th, t, allocates, builds, completes);
  }

  lemma PlanParts(w: World, th: ThreadId, t: TurnId, allocates: bool, builds: bool, completes: bool)
    ensures var p := SupplyPlan(w, allocates, builds); var e := EndPlan(Supplies(w, allocates, builds), completes);
            var v := w.Go(th, Accepted(t));
            Own(v, th, TurnPlan(w, allocates, builds, completes))
            == Own(Own(Own(Own(v, th, [Ok] + [Ok]), th, p), th, e), th, [Ok] + [Ok])
  {
    var p, e := SupplyPlan(w, allocates, builds), EndPlan(Supplies(w, allocates, builds), completes);
    var v := w.Go(th, Accepted(t));
    hide Next, Own, SupplyPlan, EndPlan;
    OwnThen(v, th, ([Ok] + [Ok]) + p + e, [Ok] + [Ok]);
    OwnThen(v, th, ([Ok] + [Ok]) + p, e);
    OwnThen(v, th, [Ok] + [Ok], p);
  }

  // ----- what else reaches a session -----

  /** The next turn, accepted with these exits to report. */
  function TurnTaken(w: World, exits: seq<ExitId>): World
  {
    w.(nextTurn := w.nextTurn + 1, reported := w.reported[w.nextTurn := exits],
       s := w.s.(turn := Some(w.nextTurn), cancelled := false))
  }

  /** A message starts a turn on an idle session, and is refused on a busy one. */
  lemma MessageByItself(w: World, th: ThreadId)
    requires w.published && th !in w.threads
    ensures Own(Next(w, Message(th)), th, [Ok])
         == if w.s.turn.None? then TurnTaken(w, []).Go(th, Accepted(w.nextTurn))
            else w.(nextTurn := w.nextTurn + 1).Go(th, Done)
  {
    OwnOne(w.Go(th, Starting([])), th, Ok);
    GoGo(TurnTaken(w, []), th, Starting([]), Accepted(w.nextTurn));
    GoGo(w.(nextTurn := w.nextTurn + 1), th, Starting([]), Done);
  }

  /** An exit joins the queue of an open session; a closed one drops it. */
  lemma ExitByItself(w: World, th: ThreadId)
    requires w.published && th !in w.threads
    ensures var v := w.(nextExit := w.nextExit + 1); var e := w.nextExit;
            Own(Next(w, ProcessExits(th)), th, [Ok])
            == if w.s.closed then v.(dropped := w.dropped + [e]).Go(th, Draining)
               else v.(s := w.s.(bgExited := w.s.bgExited + [e])).Go(th, Draining)
  {
    var v := w.(nextExit := w.nextExit + 1);
    var e := w.nextExit;
    OwnOne(v.Go(th, Recording(e)), th, Ok);
    GoGo(v.(dropped := w.dropped + [e]), th, Recording(e), Draining);
    GoGo(v.(s := w.s.(bgExited := w.s.bgExited + [e])), th, Recording(e), Draining);
  }

  lemma DrainStep(w: World, th: ThreadId)
    ensures Next(w.Go(th, Draining), Act(th, Ok))
         == if w.s.closed || w.s.bgExited == [] then w.Go(th, Done)
            else w.(s := w.s.(bgExited := [])).Go(th, Starting(w.s.bgExited))
  {
    GoGo(w, th, Draining, Done);
    GoGo(w.(s := w.s.(bgExited := [])), th, Draining, Starting(w.s.bgExited));
  }

  lemma StartStep(w: World, th: ThreadId, exits: seq<ExitId>)
    requires exits != []
    ensures Next(w.Go(th, Starting(exits)), Act(th, Ok))
         == if w.s.turn.Some? then w.(nextTurn := w.nextTurn + 1).Go(th, Requeueing(exits))
            else TurnTaken(w, exits).Go(th, Accepted(w.nextTurn))
  {
    GoGo(TurnTaken(w, exits), th, Starting(exits), Accepted(w.nextTurn));
    GoGo(w.(nextTurn := w.nextTurn + 1), th, Starting(exits), Requeueing(exits));
  }

  lemma RequeueStep(w: World, th: ThreadId, exits: seq<ExitId>)
    requires !w.s.closed
    ensures Next(w.Go(th, Requeueing(exits)), Act(th, Ok))
         == w.(s := w.s.(bgExited := exits + w.s.bgExited)).Go(th, Done)
  {
    GoGo(w.(s := w.s.(bgExited := exits + w.s.bgExited)), th, Requeueing(exits), Done);
  }

  lemma DoneStep(w: World, th: ThreadId)
    ensures Next(w.Go(th, Done), Act(th, Ok)) == w.Go(th, Done)
  {
  }

  /** The queued exits begin a turn that reports them all in order; a busy session keeps its
      queue; and there is nothing to do for a closed one or an empty queue. */
  lemma DrainByItself(w: World, th: ThreadId)
    ensures Own(w.Go(th, Draining), th, [Ok] + [Ok] + [Ok])
         == if w.s.closed || w.s.bgExited == [] then w.Go(th, Done)
            else if w.s.turn.Some? then w.(nextTurn := w.nextTurn + 1).Go(th, Done)
            else Own(TurnTaken(w.(s := w.s.(bgExited := [])), w.s.bgExited).Go(th, Accepted(w.nextTurn)), th, [Ok])
  {
    hide Next, Own, TurnTaken;
    var q := w.s.bgExited;
    var empty := w.(s := w.s.(bgExited := []));
    var d, s := w.Go(th, Draining), empty.Go(th, Starting(q));
    var busy := empty.(nextTurn := w.nextTurn + 1);
    assert [Ok] + [Ok] + [Ok] == [Ok] + ([Ok] + [Ok]);
    DrainStep(w, th);
    if w.s.closed || q == [] {
      DoneStep(w, th);
      OwnFirst(d, th, Ok, [Ok] + [Ok], w.Go(th, Done));
      OwnFirst(w.Go(th, Done), th, Ok, [Ok], w.Go(th, Done));
      OwnOne(w.Go(th, Done), th, Ok);
    } else {
      OwnFirst(d, th, Ok, [Ok] + [Ok], s);
      StartStep(empty, th, q);
      if w.s.turn.Some? {
        OwnFirst(s, th, Ok, [Ok], busy.Go(th, Requeueing(q)));
        RequeueStep(busy, th, q);
        assert q + [] == q;
        OwnOne(busy.Go(th, Requeueing(q)), th, Ok);
      } else {
        OwnFirst(s, th, Ok, [Ok], TurnTaken(empty, q).Go(th, Accepted(w.nextTurn)));
      }
    }
  }

  /** The attached sandbox, if any, is detached and released. */
  function Without(w: World): World
  {
    if w.s.sandbox.None? then w else ReleasedOne(w.(s := w.s.(sandbox := None)), w.s.sandbox.value)
  }

  lemma ReleaseTaken(w: World, th: ThreadId)
    ensures Own(w.(s := w.s.(sandbox := None)).Go(th, if w.s.sandbox.Some? then Releasing(w.s.sandbox.value) else Done),
                th, [Ok])
         == Without(w).Go(th, Done)
  {
    var v := w.(s := w.s.(sandbox := None));
    if w.s.sandbox.Some? {
      ReleaseStep(v, th, ForCreation, w.s.sandbox.value, Ok);
      OwnOne(v.Go(th, Releasing(w.s.sandbox.value)), th, Ok);
    } else {
      OwnOne(w.Go(th, Done), th, Ok);
      GoGo(w, th, Done, Done);
    }
  }

  /** A deletion or a shutdown closes the session and releases its sandbox, turn or no turn. */
  lemma DeleteByItself(w: World, th: ThreadId)
    requires w.published && th !in w.threads
    ensures Own(Next(w, Delete(th)), th, [Ok] + [Ok]) == Without(w.(s := w.s.(closed := true))).Go(th, Done)
  {
    var c := w.(s := w.s.(closed := true));
    var v := c.(s := c.s.(sandbox := None));
    var pc := if w.s.sandbox.Some? then Releasing(w.s.sandbox.value) else Done;
    GoGo(v, th, Deleting, pc);
    ReleaseTaken(c, th);
    OwnFirst(w.Go(th, Deleting), th, Ok, [Ok], v.Go(th, pc));
  }

  /** The idle sweep detaches and releases the sandbox if no turn runs and the session has been
      idle for that long, and otherwise does nothing. */
  lemma ReapByItself(w: World, th: ThreadId, d: nat)
    requires w.published && th !in w.threads
    ensures Own(Next(w, Reap(th, d)), th, [Ok])
         == (if w.s.turn.None? && w.now - w.s.lastActivity >= d then Without(w) else w).Go(th, Done)
  {
    ReleaseTaken(w, th);
    OwnOne(w.Go(th, Done), th, Ok);
    GoGo(w, th, Done, Done);
  }

  function Ticks(w: World, k: nat): World
  {
    if k == 0 then w else Next(Ticks(w, k - 1), Tick)
  }

  lemma {:induction false} TimePasses(w: World, k: nat)
    ensures Ticks(w, k) == w.(now := w.now + k)
  {
    if k > 0 {
      TimePasses(w, k - 1);
    }
  }

  /** An idle session that nothing happens to is reaped as soon as its bound has passed since
      its last activity, and not earlier. */
  lemma ReapedInTime(w: World, th: ThreadId, d: nat, k: nat)
    requires w.published && th !in w.threads && w.s.turn.None?
    ensures var v := w.(now := w.now + k);
            Own(Next(Ticks(w, k), Reap(th, d)), th, [Ok])
            == (if k >= d - (w.now - w.s.lastActivity) then Without(v) else v).Go(th, Done)
  {
    hide Own, Without, Next, Ticks;
    TimePasses(w, k);
    ReapByItself(w.(now := w.now + k), th, d);
  }

  /** The cold sweep closes such a session as well, unless it is closed already. */
  lemma EvictByItself(w: World, th: ThreadId, d: nat)
    requires w.published && th !in w.threads
    ensures Own(Next(w, Evict(th, d)), th, [Ok])
         == (if !w.s.closed && w.s.turn.None? && w.now - w.s.lastActivity >= d
             then Without(w.(s := w.s.(closed := true))) else w).Go(th, Done)
  {
    ReleaseTaken(w.(s := w.s.(closed := true)), th);
    OwnOne(w.Go(th, Done), th, Ok);
    GoGo(w, th, Done, Done);
  }

  /** A cancel marks the running turn; it is accepted when the turn is over, and given up when
      its caller goes. */
  lemma CancelByItself(w: World, th: ThreadId, t: TurnId)
    requires w.published && th !in w.threads
    ensures Own(Next(w, Cancel(th)), th, [Ok])
         == if w.s.turn.None? then w.Go(th, Done)
            else w.(s := w.s.(cancelled := true), cancelHits := w.cancelHits + {w.s.turn.value})
                  .Go(th, AwaitingDone(w.s.turn.value))
    ensures Own(w.Go(th, AwaitingDone(t)), th, [Ok])
         == w.Go(th, if t in w.turnsDone then CancelAccepted(t) else AwaitingDone(t))
    ensures Own(w.Go(th, AwaitingDone(t)), th, [Fail]) == w.Go(th, Done)
  {
    OwnOne(w.Go(th, Cancelling), th, Ok);
    OwnOne(w.Go(th, AwaitingDone(t)), th, Ok);
    OwnOne(w.Go(th, AwaitingDone(t)), th, Fail);
    GoGo(w, th, Cancelling, Done);
    GoGo(w, th, AwaitingDone(t), Done);
    GoGo(w, th, AwaitingDone(t), CancelAccepted(t));
    if w.s.turn.Some? {
      var v := w.(s := w.s.(cancelled := true), cancelHits := w.cancelHits + {w.s.turn.value});
      GoGo(v, th, Cancelling, AwaitingDone(w.s.turn.value));
    }
  }

  function RegisterPlan(supplied: bool, registers: bool): seq<Choice>
  {
    if !supplied then [] else if registers then [Ok] else [Fail] + [Ok] + [Ok]
  }

  lemma RegisterStep(w: World, th: ThreadId)
    ensures Next(w.Go(th, Registering), Act(th, Ok)) == w.(published := true).Go(th, Done)
    ensures Next(w.Go(th, Registering), Act(th, Fail)) == w.Go(th, RollingBack)
  {
    GoGo(w.(published := true), th, Registering, Done);
    GoGo(w, th, Registering, RollingBack);
  }

  lemma RollBackStep(w: World, th: ThreadId)
    ensures Own(w.Go(th, RollingBack), th, [Ok] + [Ok]) == Without(w).Go(th, Done)
  {
    var v := w.(s := w.s.(sandbox := None));
    var pc := if w.s.sandbox.Some? then Releasing(w.s.sandbox.value) else Done;
    GoGo(v, th, RollingBack, pc);
    assert Next(w.Go(th, RollingBack), Act(th, Ok)) == v.Go(th, pc);
    hide *;
    ReleaseTaken(w, th);
    OwnFirst(w.Go(th, RollingBack), th, Ok, [Ok], v.Go(th, pc));
  }

  /** A session is published with its sandbox if one could be had and the session registered;
      otherwise no sandbox is left behind. */
  lemma CreationByItself(w: World, th: ThreadId, allocates: bool, builds: bool, registers: bool)
    ensures var v := SuppliedWorld(w, allocates, builds); var supplied := Supplies(w, allocates, builds);
            Own(w.Go(th, Ensuring(ForCreation)), th,
                SupplyPlan(w, allocates, builds) + RegisterPlan(supplied, registers))
            == (if !supplied then v else if registers then v.(published := true) else Without(v)).Go(th, Done)
  {
    var v, supplied := SuppliedWorld(w, allocates, builds), Supplies(w, allocates, builds);
    var plan := RegisterPlan(supplied, registers);
    var pc := if supplied then Registering else Done;
    assert pc == if supplied then Supplied(ForCreation, SuppliedId(w)) else Unsupplied(ForCreation);
    assert !supplied ==> plan == [];
    assert supplied && registers ==> plan == [Ok];
    assert supplied && !registers ==> plan == [Fail] + ([Ok] + [Ok]);
    assert Own(v.Go(th, Done), th, []) == v.Go(th, Done);
    hide *;
    Supply(w, th, ForCreation, allocates, builds);
    OwnThen(w.Go(th, Ensuring(ForCreation)), th, SupplyPlan(w, allocates, builds), plan);
    RegisterStep(v, th);
    if supplied && registers {
      OwnOne(v.Go(th, Registering), th, Ok);
    } else if supplied {
      OwnFirst(v.Go(th, Registering), th, Fail, [Ok] + [Ok], v.Go(th, RollingBack));
      RollBackStep(v, th);
    }
  }
}
