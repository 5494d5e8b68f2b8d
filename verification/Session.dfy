/** One session of a node: the state behind its mutex, each critical section as a function
    of that state, and the session object whose methods carry them out. */
module Session {
  import opened Text

  type TurnId = nat
  type SandboxId = nat
  type ExitId = nat
  type CallId = string
  type ReportId = nat
  type ChanId = nat

  /** pendingToolResultsCap. */
  const PENDING_CAP: nat := 256

  /** What the mutex guards. The turn's cancel function and done channel are set and cleared
      together with its id, so they are part of turn; a sandbox and its renewal's stop
      function are always set and taken together. */
  datatype State = State(
    sandbox: Option<SandboxId>,
    closed: bool,
    turn: Option<TurnId>,
    cancelled: bool,
    lastActivity: nat,
    pending: map<CallId, ReportId>,
    waiters: map<CallId, ChanId>,
    bgExited: seq<ExitId>) {

    /** touch */
    function Touch(now: nat): State
    {
      this.(lastActivity := now)
    }

    /** liveSandbox */
    predicate Live()
    {
      !closed && sandbox.Some?
    }

    /** setSandbox: refused once the session is closed. */
    function SetSandbox(sb: SandboxId): (State, bool)
    {
      if closed then (this, false) else (this.(sandbox := Some(sb)), true)
    }

    /** takeSandbox */
    function TakeSandbox(): (State, Option<SandboxId>)
    {
      (this.(sandbox := None), sandbox)
    }

    predicate IdleFor(now: nat, d: nat)
    {
      turn.None? && now - lastActivity >= d
    }

    /** takeSandboxIfIdle */
    function TakeSandboxIfIdle(now: nat, d: nat): (State, Option<SandboxId>)
    {
      if IdleFor(now, d) then TakeSandbox() else (this, None)
    }

    /** closeSession */
    function Close(): (State, Option<SandboxId>)
    {
      (this.(closed := true, sandbox := None), sandbox)
    }

    /** takeIfCold: the flag tells an eviction from a refusal. */
    function TakeIfCold(now: nat, d: nat): (State, Option<SandboxId>, bool)
    {
      if closed || !IdleFor(now, d) then (this, None, false) else (Close().0, sandbox, true)
    }

    /** recordBackgroundExit */
    function RecordExit(e: ExitId): State
    {
      if closed then this else this.(bgExited := bgExited + [e])
    }

    /** takeBackgroundExits */
    function TakeExits(): (State, seq<ExitId>)
    {
      if closed then (this, []) else (this.(bgExited := []), bgExited)
    }

    /** requeueBackgroundExits */
    function RequeueExits(exits: seq<ExitId>): State
    {
      if closed then this else this.(bgExited := exits + bgExited)
    }

    /** startTurn: refused while a turn is running, and only then. */
    function StartTurn(t: TurnId): (State, bool)
    {
      if turn.Some? then (this, false) else (this.(turn := Some(t), cancelled := false), true)
    }

    /** finishTurn */
    function FinishTurn(): State
    {
      this.(turn := None, pending := map[])
    }

    /** CancelTurn: marks the running turn, if any, and returns it. */
    function CancelTurn(): (State, Option<TurnId>)
    {
      if turn.None? then (this, None) else (this.(cancelled := true), turn)
    }

    /** AddToolResult: handed to a waiter, kept as pending, or refused. */
    function AddToolResult(call: CallId, r: ReportId): (State, Delivery)
    {
      if call in waiters then (this.(waiters := waiters - {call}), Sent(waiters[call]))
      else if call !in pending && |pending| >= PENDING_CAP then (this, Overflow)
      else (this.(pending := pending[call := r]), Kept)
    }

    /** The first critical section of WaitToolResult: a pending result is taken, otherwise ch
        is registered. */
    function BeginWait(call: CallId, ch: ChanId): (State, Option<ReportId>)
    {
      if call in pending then (this.(pending := pending - {call}), Some(pending[call]))
      else (this.(waiters := waiters[call := ch]), None)
    }

    /** The second critical section of WaitToolResult, when its context ends first. */
    function AbandonWait(call: CallId): State
    {
      this.(waiters := waiters - {call})
    }
  }

  datatype Delivery = Sent(ch: ChanId) | Kept | Overflow

  /** A session created or adopted at time now, without a sandbox yet. */
  function NewSession(now: nat): State
  {
    State(None, false, None, false, now, map[], map[], [])
  }

  class SessionObject {
    var sandbox: Option<SandboxId>
    var closed: bool
    var turnID: Option<TurnId>
    /** turnCancelCause is errTurnCancelled. */
    var turnCancelled: bool
    var lastActivity: nat
    var pending: map<CallId, ReportId>
    var waiters: map<CallId, ChanId>
    var bgExited: seq<ExitId>
    /** The turns whose done channel has been closed. */
    var turnsDone: set<TurnId>
    /** What has been sent into the waiters' channels, each of capacity one. */
    var channels: map<ChanId, seq<ReportId>>

    function S(): State
      reads this
    {
      State(sandbox, closed, turnID, turnCancelled, lastActivity, pending, waiters, bgExited)
    }

    constructor (now: nat)
      ensures S() == NewSession(now)
      ensures turnsDone == {} && channels == map[]
    {
      sandbox, closed, turnID, turnCancelled, lastActivity := None, false, None, false, now;
      pending, waiters, bgExited := map[], map[], [];
      turnsDone, channels := {}, map[];
    }

    method Touch(now: nat)
      modifies this`lastActivity
      ensures S() == old(S()).Touch(now)
    {
      lastActivity := now;
    }

    method LiveSandbox() returns (sb: SandboxId, ok: bool)
      ensures ok == S().Live() && (ok ==> S().sandbox == Some(sb))
    {
      if closed || sandbox.None? {
        return 0, false;
      }
      return sandbox.value, true;
    }

    method SetSandbox(sb: SandboxId) returns (ok: bool)
      modifies this`sandbox
      ensures (S(), ok) == old(S()).SetSandbox(sb)
    {
      if closed {
        return false;
      }
      sandbox := Some(sb);
      return true;
    }

    method TakeSandbox() returns (sb: Option<SandboxId>)
      modifies this`sandbox
      ensures (S(), sb) == old(S()).TakeSandbox()
    {
      sb := sandbox;
      sandbox := None;
    }

    method TakeSandboxIfIdle(now: nat, d: nat) returns (sb: Option<SandboxId>)
      modifies this`sandbox
      ensures (S(), sb) == old(S()).TakeSandboxIfIdle(now, d)
    {
      if turnID != None || now - lastActivity < d {
        return None;
      }
      sb := sandbox;
      sandbox := None;
    }

    method CloseSession() returns (sb: Option<SandboxId>)
      modifies this`closed, this`sandbox
      ensures (S(), sb) == old(S()).Close()
    {
      closed := true;
      sb := sandbox;
      sandbox := None;
    }

    method TakeIfCold(now: nat, d: nat) returns (sb: Option<SandboxId>, evicted: bool)
      modifies this`closed, this`sandbox
      ensures (S(), sb, evicted) == old(S()).TakeIfCold(now, d)
    {
      if closed || turnID != None || now - lastActivity < d {
        return None, false;
      }
      closed := true;
      sb, evicted := sandbox, true;
      sandbox := None;
    }

    method RecordBackgroundExit(e: ExitId)
      modifies this`bgExited
      ensures S() == old(S()).RecordExit(e)
    {
      if closed {
        return;
      }
      bgExited := bgExited + [e];
    }

    method TakeBackgroundExits() returns (exits: seq<ExitId>)
      modifies this`bgExited
      ensures (S(), exits) == old(S()).TakeExits()
    {
      if closed || bgExited == [] {
        return [];
      }
      exits := bgExited;
      bgExited := [];
    }

    method RequeueBackgroundExits(exits: seq<ExitId>)
      modifies this`bgExited
      ensures S() == old(S()).RequeueExits(exits)
    {
      if closed {
        return;
      }
      bgExited := exits + bgExited;
    }

    method StartTurn(t: TurnId) returns (ok: bool)
      modifies this`turnID, this`turnCancelled
      ensures (S(), ok) == old(S()).StartTurn(t)
    {
      if turnID != None {
        return false;
      }
      turnID := Some(t);
      turnCancelled := false;
      return true;
    }

    /** The done channel of the turn is closed here. */
    method FinishTurn()
      modifies this`turnID, this`pending, this`turnsDone
      ensures S() == old(S()).FinishTurn()
      ensures turnsDone == old(turnsDone) + (if old(turnID).Some? then {old(turnID).value} else {})
    {
      if turnID.Some? {
        turnsDone := turnsDone + {turnID.value};
      }
      turnID := None;
      pending := map[];
    }

    method CancelTurn() returns (t: Option<TurnId>)
      modifies this`turnCancelled
      ensures (S(), t) == old(S()).CancelTurn()
    {
      if turnID == None {
        return None;
      }
      t := turnID;
      turnCancelled := true;
    }

    /** The send into the waiter's channel happens under the mutex: the channel must be
        empty, or the session would block. */
    method AddToolResult(call: CallId, r: ReportId) returns (d: Delivery)
      requires call in waiters ==> waiters[call] in channels && channels[waiters[call]] == []
      modifies this`pending, this`waiters, this`channels
      ensures (S(), d) == old(S()).AddToolResult(call, r)
      ensures channels == if d.Sent? then old(channels)[d.ch := [r]] else old(channels)
    {
      if call in waiters {
        var ch := waiters[call];
        waiters := waiters - {call};
        assert channels[ch] + [r] == [r];
        channels := channels[ch := channels[ch] + [r]];
        return Sent(ch);
      }
      if call !in pending && |pending| >= PENDING_CAP {
        return Overflow;
      }
      pending := pending[call := r];
      return Kept;
    }

    /** WaitToolResult up to the wait itself. */
    method BeginWait(call: CallId, ch: ChanId) returns (r: Option<ReportId>)
      modifies this`pending, this`waiters, this`channels
      ensures (S(), r) == old(S()).BeginWait(call, ch)
      ensures channels == if r.Some? then old(channels) else old(channels)[ch := []]
    {
      if call in pending {
        r := Some(pending[call]);
        pending := pending - {call};
        return;
      }
      channels := channels[ch := []];
      waiters := waiters[call := ch];
      return None;
    }

    method AbandonWait(call: CallId)
      modifies this`waiters
      ensures S() == old(S()).AbandonWait(call)
    {
      waiters := waiters - {call};
    }
  }
}
