/** Who owns a session in the cluster: creation, routing with adoption, eviction, deletion,
    crashes and lease expiry, step by step, for one session id. */
module Ownership {
  import opened Text

  /** A node is one process with one lease; a restarted process is another node. */
  type NodeId = nat
  type ThreadId = nat

  /** How an adoption has ended: the session is here, another node claimed it, there is no
      spec, or an error. */
  datatype Verdict = Adopted | ClaimLost | Missing | Broken

  datatype PC =
    // handleCreateSession, once the sandbox is built
    | WritingSpec
    | Registering
    | Storing
    | DroppingSpec
    // routeSessionMode
    | Looking(mayAdopt: bool)
    | Waiting(mayAdopt: bool, on: ThreadId)
    | Locating(mayAdopt: bool)
    | Relocating
    | Forwarding(owner: NodeId)
    // adoptSession
    | Adopting
    | Joining(on: ThreadId)
    | LoadingSpec
    | Claiming
    | Restoring
    | Abandoning
    | Publishing
    | Leaving(verdict: Verdict)
    // evictColdSessions, from takeIfCold on
    | RemovingCold
    | UnregisteringCold
    // handleDeleteSession, once routed here
    | Removing
    | Unregistering
    | DeletingSpec
    // a request's answer; BadGateway is that of one that gives up waiting, too
    | Local
    | NotFound
    | BadGateway
    | Done

  /** hops counts how often the request has been forwarded. */
  datatype Thread = Thread(node: NodeId, pc: PC, hops: nat)

  datatype Cluster = Cluster(
    /** the ownership record, attached to the lease of the node it names */
    record: Option<NodeId>,
    /** the nodes that are running, and the leases that have not expired */
    up: set<NodeId>,
    leases: set<NodeId>,
    /** the persisted spec, and the nodes that have the session in memory */
    spec: bool,
    memory: set<NodeId>,
    /** the adoption in flight on each node */
    adopting: map<NodeId, ThreadId>,
    threads: map<ThreadId, Thread>,
    nextNode: NodeId,
    /** the id has been handed out in a response */
    created: bool)
  {
    function Go(th: ThreadId, pc: PC): Cluster
      requires th in threads
    {
      this.(threads := threads[th := threads[th].(pc := pc)])
    }

    function EndAdoption(n: NodeId): Cluster
    {
      this.(adopting := adopting - {n})
    }

    /** The channel of the adoption that th led on n is still open. */
    predicate InFlight(n: NodeId, th: ThreadId)
    {
      n in adopting && adopting[n] == th
    }
  }

  /** A call to the outside succeeds, fails without effect, or takes effect and is reported
      as failed. */
  datatype Result = Ok | Failed | Unsure

  datatype Step =
    | Act(th: ThreadId, result: Result)
    | Boot
    | Crash(n: NodeId)
    | Expire(n: NodeId)
    | Request(th: ThreadId, n: NodeId, mayAdopt: bool)
    | Evict(th: ThreadId, n: NodeId)
    | Delete(th: ThreadId, n: NodeId)

  /** Registry.SessionOwner: the record, unless the node it names is gone. */
  function Owner(c: Cluster): Option<NodeId>
  {
    if c.record.Some? && c.record.value in c.leases then c.record else None
  }

  /** handleCreateSession: the spec, the record, the memory; a failure is rolled back. */
  predicate Creates(pc: PC)
  {
    pc.WritingSpec? || pc.Registering? || pc.Storing? || pc.DroppingSpec?
  }

  function CreateStep(c: Cluster, th: ThreadId, t: Thread, r: Result): Cluster
    requires th in c.threads
  {
    match t.pc
    case WritingSpec =>
      if r == Ok then c.(spec := true).Go(th, Registering)
      else c.(spec := c.spec || r == Unsure).Go(th, Done)
    case Registering =>
      if r == Ok then c.(record := Some(t.node)).Go(th, Storing)
      else c.(record := if r == Unsure then Some(t.node) else c.record).Go(th, DroppingSpec)
    case Storing => c.(memory := c.memory + {t.node}, created := true).Go(th, Done)
    case DroppingSpec => c.(spec := c.spec && r == Failed).Go(th, Done)
    case _ => c
  }

  /** routeSessionMode, up to the adoption. */
  predicate Routes(pc: PC)
  {
    pc.Looking? || pc.Waiting? || pc.Locating? || pc.Relocating? || pc.Forwarding?
  }

  /** The session is here, or the request was forwarded here in vain, or its owner is to be
      found. */
  function Found(n: NodeId, c: Cluster, hops: nat, adopt: bool): PC
  {
    if n in c.memory then Local else if hops > 0 then NotFound else Locating(adopt)
  }

  function RouteStep(c: Cluster, th: ThreadId, t: Thread, r: Result): Cluster
    requires th in c.threads
  {
    match t.pc
    case Looking(adopt) =>
      if t.node !in c.memory && t.node in c.adopting then c.Go(th, Waiting(adopt, c.adopting[t.node]))
      else c.Go(th, Found(t.node, c, t.hops, adopt))
    case Waiting(adopt, on) =>
      if r != Ok then c.Go(th, BadGateway)
      else if c.InFlight(t.node, on) then c
      else c.Go(th, Found(t.node, c, t.hops, adopt))
    case Locating(adopt) =>
      if r != Ok then c.Go(th, BadGateway)
      else if Owner(c).Some? then c.Go(th, Forwarding(Owner(c).value))
      else c.Go(th, if adopt then Adopting else NotFound)
    case Relocating =>
      if t.node in c.memory then c.Go(th, Local)
      else if r == Ok && Owner(c).Some? then c.Go(th, Forwarding(Owner(c).value))
      else c.Go(th, NotFound)
    case Forwarding(m) =>
      if m in c.up then c.(threads := c.threads[th := Thread(m, Looking(true), t.hops + 1)]) else c.Go(th, BadGateway)
    case _ => c
  }

  /** adoptSession, once its caller has become the adoption in flight on its node, until it
      has left the map of adoptions, by its deferred call, and closed its channel. */
  predicate Adopts(pc: PC)
  {
    pc.LoadingSpec? || pc.Claiming? || pc.Restoring? || pc.Abandoning? || pc.Publishing? || pc.Leaving?
  }

  /** What routeSessionMode does with the end of the adoption it led. */
  function After(v: Verdict): PC
  {
    match v
    case Adopted => Local
    case ClaimLost => Relocating
    case Missing => NotFound
    case Broken => BadGateway
  }

  function AdoptStep(c: Cluster, th: ThreadId, t: Thread, r: Result): Cluster
    requires th in c.threads
  {
    match t.pc
    case LoadingSpec =>
      if r == Ok && c.spec then c.Go(th, Claiming)
      else c.Go(th, Leaving(if r == Ok then Missing else Broken))
    case Claiming =>
      if c.record.Some? then c.Go(th, Leaving(if r == Ok then ClaimLost else Broken))
      else if r == Ok then c.(record := Some(t.node)).Go(th, Restoring)
      else c.(record := if r == Unsure then Some(t.node) else None).Go(th, Leaving(Broken))
    case Restoring => c.Go(th, if r == Ok then Publishing else Abandoning)
    case Abandoning => c.(record := if r == Failed then c.record else None).Go(th, Leaving(Broken))
    case Publishing => c.(memory := c.memory + {t.node}).Go(th, Leaving(Adopted))
    case Leaving(v) => c.EndAdoption(t.node).Go(th, After(v))
    case _ => c
  }

  /** Callers of adoptSession that have not become the adoption in flight. */
  predicate Queues(pc: PC)
  {
    pc.Adopting? || pc.Joining?
  }

  function QueueStep(c: Cluster, th: ThreadId, t: Thread, r: Result): Cluster
    requires th in c.threads
  {
    match t.pc
    case Adopting =>
      if t.node in c.adopting then c.Go(th, Joining(c.adopting[t.node]))
      else c.(adopting := c.adopting[t.node := th]).Go(th, LoadingSpec)
    case Joining(on) =>
      if r != Ok then c.Go(th, BadGateway)
      else if c.InFlight(t.node, on) then c
      else c.Go(th, if t.node in c.memory then Local else NotFound)
    case _ => c
  }

  /** Between taking a session out of use and having removed its record. */
  predicate Retiring(pc: PC)
  {
    pc.RemovingCold? || pc.UnregisteringCold? || pc.Removing? || pc.Unregistering?
  }

  /** evictColdSessions and handleDeleteSession. */
  function RetireStep(c: Cluster, th: ThreadId, t: Thread, r: Result): Cluster
    requires th in c.threads
  {
    match t.pc
    case RemovingCold => c.(memory := c.memory - {t.node}).Go(th, UnregisteringCold)
    case UnregisteringCold => c.(record := if r == Failed then c.record else None).Go(th, Done)
    case Removing => c.(memory := c.memory - {t.node}).Go(th, Unregistering)
    case Unregistering => c.(record := if r == Failed then c.record else None).Go(th, DeletingSpec)
    case DeletingSpec => c.(spec := c.spec && r == Failed).Go(th, Done)
    case _ => c
  }

  function ActIn(c: Cluster, th: ThreadId, t: Thread, r: Result): Cluster
    requires th in c.threads
  {
    if Creates(t.pc) then CreateStep(c, th, t, r)
    else if Routes(t.pc) then RouteStep(c, th, t, r)
    else if Adopts(t.pc) then AdoptStep(c, th, t, r)
    else if Queues(t.pc) then QueueStep(c, th, t, r)
    else RetireStep(c, th, t, r)
  }

  /** The threads of a crashed node are gone. */
  function Survivors(c: Cluster, n: NodeId): map<ThreadId, Thread>
  {
    map th | th in c.threads :: if c.threads[th].node == n then c.threads[th].(pc := Done) else c.threads[th]
  }

  /** Requests for the id come once it has been handed out. A lease expires only after its
      node has crashed. A step that cannot happen changes nothing. */
  function Next(c: Cluster, step: Step): Cluster
  {
    match step
    case Act(th, r) =>
      if th in c.threads then ActIn(c, th, c.threads[th], r) else c
    case Boot => c.(up := c.up + {c.nextNode}, leases := c.leases + {c.nextNode}, nextNode := c.nextNode + 1)
    case Crash(n) =>
      c.(up := c.up - {n}, memory := c.memory - {n}, threads := Survivors(c, n)).EndAdoption(n)
    case Expire(n) =>
      if n in c.up then c else c.(leases := c.leases - {n}, record := if c.record == Some(n) then None else c.record)
    case Request(th, n, adopt) =>
      if th in c.threads || n !in c.up || !c.created then c
      else c.(threads := c.threads[th := Thread(n, Looking(adopt), 0)])
    case Evict(th, n) =>
      if th in c.threads || n !in c.memory then c
      else c.(threads := c.threads[th := Thread(n, RemovingCold, 0)])
    case Delete(th, n) =>
      if th in c.threads || n !in c.memory then c
      else c.(threads := c.threads[th := Thread(n, Removing, 0)])
  }

  /** Node 0 is about to create the session. */
  function Initial(): Cluster
  {
    Cluster(None, {0}, {0}, false, {}, map[], map[0 := Thread(0, WritingSpec, 0)], 1, false)
  }

  function RunFrom(c: Cluster, steps: seq<Step>): Cluster
  {
    if steps == [] then c else Next(RunFrom(c, steps[..|steps| - 1]), steps[|steps| - 1])
  }

  function Run(steps: seq<Step>): Cluster
  {
    RunFrom(Initial(), steps)
  }

  // ----- runs in which removals do not overlap -----

  predicate Calm(c: Cluster)
  {
    forall th <- c.threads :: !Retiring(c.threads[th].pc)
  }

  /** No deletion or eviction begins while another one is between taking the session out of
      use and having removed its record. The code does not see to this. */
  predicate OneAtATime(steps: seq<Step>)
  {
    steps == [] || (
      && OneAtATime(steps[..|steps| - 1])
      && (steps[|steps| - 1].Evict? || steps[|steps| - 1].Delete? ==> Calm(Run(steps[..|steps| - 1]))))
  }
}
