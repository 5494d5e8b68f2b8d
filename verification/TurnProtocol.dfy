/** All interleavings of the goroutines that act on one session: messages, turns, sandbox
    builds, background-exit drains, cancels, deletes, sweeps, and the session's creation.
    Each step is one critical section or one call to the outside; a thread's program counter
    says which comes next. */
module TurnProtocol {
  import opened Text
  import opened Session

  type ThreadId = nat

  /** Who a sandbox is built for. */
  datatype Job = ForTurn(t: TurnId) | ForCreation

  datatype PC =
    // runTurn, up to the goroutine
    | Starting(exits: seq<ExitId>)
    | Requeueing(exits: seq<ExitId>)
    | Accepted(t: TurnId)
    | Announcing(t: TurnId)
    // ensureSandbox
    | Ensuring(job: Job)
    | Allocating(job: Job)
    | Building(job: Job, sb: SandboxId)
    | Discarding(job: Job, sb: SandboxId)
    | Installing(job: Job, sb: SandboxId)
    | Refused(job: Job, sb: SandboxId)
    // the turn's goroutine
    | Running(t: TurnId, sb: SandboxId)
    | Failing(t: TurnId)
    | Reporting(t: TurnId, asCancelled: bool)
    | Ended(t: TurnId)
    | Closing(t: TurnId)
    | Draining
    // the background-exit callback
    | Recording(exit: ExitId)
    // session creation, after its sandbox is installed
    | Registering
    | RollingBack
    // DELETE, node shutdown, idle reap, cold eviction
    | Deleting
    | Releasing(sb: SandboxId)
    // the cancel endpoint
    | Cancelling
    | AwaitingDone(t: TurnId)
    | CancelAccepted(t: TurnId)
    | Done

  datatype Status = StatusDone | StatusError | StatusCancelled

  datatype Kind = TurnStarted | Delta | ToolCall | TurnFinished(status: Status)

  /** One published event: its turn, its kind, and when it was published. */
  datatype Entry = Entry(t: TurnId, kind: Kind, time: nat)

  datatype World = World(
    s: State,
    now: nat,
    threads: map<ThreadId, PC>,
    published: bool,
    nextTurn: TurnId,
    nextSandbox: SandboxId,
    nextExit: ExitId,
    /** the turns whose done channel is closed */
    turnsDone: set<TurnId>,
    /** the sandboxes whose lease is being renewed */
    renewing: set<SandboxId>,
    /** the release calls, in order */
    released: seq<SandboxId>,
    log: seq<Entry>,
    /** the exits each accepted turn reports in its message */
    reported: map<TurnId, seq<ExitId>>,
    /** the exits ignored or thrown away because the session was closed */
    dropped: seq<ExitId>,
    /** the turns that were running when CancelTurn was called */
    cancelHits: set<TurnId>)
  {
    function Go(th: ThreadId, pc: PC): World
    {
      this.(threads := threads[th := pc])
    }

    function Publish(t: TurnId, kind: Kind): World
    {
      this.(log := log + [Entry(t, kind, now)])
    }

    function Release(sb: SandboxId): World
    {
      this.(renewing := renewing - {sb}, released := released + [sb])
    }
  }

  /** How a call to the outside turns out, or what the agent loop does next. */
  datatype Choice = Ok | Fail | Emit(kind: Kind)

  datatype Step =
    | Act(th: ThreadId, choice: Choice)
    | Message(th: ThreadId)
    | ProcessExits(th: ThreadId)
    | Delete(th: ThreadId)
    | Cancel(th: ThreadId)
    | Reap(th: ThreadId, idleTimeout: nat)
    | Evict(th: ThreadId, coldTimeout: nat)
    | Tick

  // ----- the steps of a thread -----

  function Start(w: World, th: ThreadId, exits: seq<ExitId>): World
  {
    var t := w.nextTurn;
    var (s, started) := w.s.StartTurn(t);
    var v := w.(nextTurn := t + 1);
    if started then v.(s := s, reported := w.reported[t := exits]).Go(th, Accepted(t))
    else v.Go(th, if exits == [] then Done else Requeueing(exits))
  }

  function Requeue(w: World, th: ThreadId, exits: seq<ExitId>): World
  {
    w.(s := w.s.RequeueExits(exits), dropped := if w.s.closed then w.dropped + exits else w.dropped).Go(th, Done)
  }

  /** What follows a successful build, and a failed one. */
  function AfterBuild(job: Job, sb: SandboxId): PC
  {
    if job.ForTurn? then Running(job.t, sb) else Registering
  }

  function AfterFailure(job: Job): PC
  {
    if job.ForTurn? then Failing(job.t) else Done
  }

  function Ensure(w: World, th: ThreadId, job: Job): World
  {
    w.Go(th, if w.s.Live() then AfterBuild(job, w.s.sandbox.value) else Allocating(job))
  }

  function Allocate(w: World, th: ThreadId, job: Job, choice: Choice): World
  {
    if choice == Ok then w.(nextSandbox := w.nextSandbox + 1).Go(th, Building(job, w.nextSandbox))
    else w.Go(th, AfterFailure(job))
  }

  /** Skills, persisted files, user files and history; then the lease renewal starts. */
  function Build(w: World, th: ThreadId, job: Job, sb: SandboxId, choice: Choice): World
  {
    if choice == Ok then w.(renewing := w.renewing + {sb}).Go(th, Installing(job, sb))
    else w.Go(th, Discarding(job, sb))
  }

  function Install(w: World, th: ThreadId, job: Job, sb: SandboxId): World
  {
    var (s, ok) := w.s.SetSandbox(sb);
    w.(s := s).Go(th, if ok then AfterBuild(job, sb) else Refused(job, sb))
  }

  function RunTurn(w: World, th: ThreadId, t: TurnId, sb: SandboxId, choice: Choice): World
  {
    match choice
    case Ok => w.Publish(t, TurnFinished(StatusDone)).Go(th, Ended(t))
    case Fail => w.Go(th, Failing(t))
    case Emit(kind) => if kind == Delta || kind == ToolCall then w.Publish(t, kind) else w
  }

  function Finish(w: World, th: ThreadId): World
  {
    w.(s := w.s.FinishTurn(),
       turnsDone := w.turnsDone + (if w.s.turn.Some? then {w.s.turn.value} else {})).Go(th, Draining)
  }

  function Drain(w: World, th: ThreadId): World
  {
    var (s, exits) := w.s.TakeExits();
    w.(s := s).Go(th, if exits == [] then Done else Starting(exits))
  }

  function Record(w: World, th: ThreadId, e: ExitId): World
  {
    w.(s := w.s.RecordExit(e), dropped := if w.s.closed then w.dropped + [e] else w.dropped).Go(th, Draining)
  }

  function Register(w: World, th: ThreadId, choice: Choice): World
  {
    if choice == Ok then w.(published := true).Go(th, Done) else w.Go(th, RollingBack)
  }

  function Taken(sb: Option<SandboxId>): PC
  {
    if sb.Some? then Releasing(sb.value) else Done
  }

  function RollBack(w: World, th: ThreadId): World
  {
    var (s, sb) := w.s.TakeSandbox();
    w.(s := s).Go(th, Taken(sb))
  }

  function CloseIt(w: World, th: ThreadId): World
  {
    var (s, sb) := w.s.Close();
    w.(s := s).Go(th, Taken(sb))
  }

  function CancelIt(w: World, th: ThreadId): World
  {
    var (s, t) := w.s.CancelTurn();
    if t.None? then w.(s := s).Go(th, Done)
    else w.(s := s, cancelHits := w.cancelHits + {t.value}).Go(th, AwaitingDone(t.value))
  }

  function ActIn(w: World, th: ThreadId, pc: PC, choice: Choice): World
  {
    match pc
    case Starting(exits) => Start(w, th, exits)
    case Requeueing(exits) => Requeue(w, th, exits)
    case Accepted(t) => w.(s := w.s.Touch(w.now)).Go(th, Announcing(t))
    case Announcing(t) => w.Publish(t, TurnStarted).Go(th, Ensuring(ForTurn(t)))
    case Ensuring(job) => Ensure(w, th, job)
    case Allocating(job) => Allocate(w, th, job, choice)
    case Building(job, sb) => Build(w, th, job, sb, choice)
    case Discarding(job, sb) => w.Release(sb).Go(th, AfterFailure(job))
    case Installing(job, sb) => Install(w, th, job, sb)
    case Refused(job, sb) => w.Release(sb).Go(th, AfterFailure(job))
    case Running(t, sb) => RunTurn(w, th, t, sb, choice)
    case Failing(t) => w.Go(th, Reporting(t, w.s.cancelled))
    case Reporting(t, c) => w.Publish(t, TurnFinished(if c then StatusCancelled else StatusError)).Go(th, Ended(t))
    case Ended(t) => w.(s := w.s.Touch(w.now)).Go(th, Closing(t))
    case Closing(_) => Finish(w, th)
    case Draining => Drain(w, th)
    case Recording(e) => Record(w, th, e)
    case Registering => Register(w, th, choice)
    case RollingBack => RollBack(w, th)
    case Deleting => CloseIt(w, th)
    case Releasing(sb) => w.Release(sb).Go(th, Done)
    case Cancelling => CancelIt(w, th)
    case AwaitingDone(t) =>
      if choice == Fail then w.Go(th, Done)
      else if t in w.turnsDone then w.Go(th, CancelAccepted(t)) else w
    case CancelAccepted(_) => w
    case Done => w
  }

  function ReapIt(w: World, th: ThreadId, d: nat): World
  {
    var (s, sb) := w.s.TakeSandboxIfIdle(w.now, d);
    w.(s := s).Go(th, Taken(sb))
  }

  function EvictIt(w: World, th: ThreadId, d: nat): World
  {
    var (s, sb, _) := w.s.TakeIfCold(w.now, d);
    w.(s := s).Go(th, Taken(sb))
  }

  /** Requests and the sweeper reach a session only once it is in the sessions map; they may
      still hold it after it has left the map. A step that cannot happen changes nothing. */
  function Next(w: World, step: Step): World
  {
    match step
    case Tick => w.(now := w.now + 1)
    case Act(th, choice) => if th in w.threads then ActIn(w, th, w.threads[th], choice) else w
    case Message(th) => if th in w.threads || !w.published then w else w.Go(th, Starting([]))
    case ProcessExits(th) =>
      if th in w.threads || !w.published then w
      else w.(nextExit := w.nextExit + 1).Go(th, Recording(w.nextExit))
    case Delete(th) => if th in w.threads || !w.published then w else w.Go(th, Deleting)
    case Cancel(th) => if th in w.threads || !w.published then w else w.Go(th, Cancelling)
    case Reap(th, d) => if th in w.threads || !w.published then w else ReapIt(w, th, d)
    case Evict(th, d) => if th in w.threads || !w.published then w else EvictIt(w, th, d)
  }

  /** A session starts in its creating request, or adopted from storage without a sandbox. */
  function Initial(created: bool): World
  {
    World(NewSession(0), 0, if created then map[0 := Ensuring(ForCreation)] else map[], !created,
          0, 0, 0, {}, {}, [], [], map[], [], {})
  }

  function Run(created: bool, steps: seq<Step>): World
  {
    if steps == [] then Initial(created) else Next(Run(created, steps[..|steps| - 1]), steps[|steps| - 1])
  }

  lemma RunMore(created: bool, steps: seq<Step>, step: Step)
    ensures Run(created, steps + [step]) == Next(Run(created, steps), step)
  {
    assert (steps + [step])[..|steps|] == steps;
  }
}
