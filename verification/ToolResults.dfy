/** The rendezvous between the agent loop, which waits for external tool results one call at
    a time, and the requests that post them in any order, at any time. */
module ToolResults {
  import opened Text
  import opened Session
  import opened SandboxLedger

  /** A result the loop received: for which call, which report, and how many turns had
      finished when it was received. */
  datatype Receipt = Receipt(call: CallId, report: ReportId, epoch: nat)

  datatype Room = Room(
    s: State,
    /** the loop's wait, if it is blocked in one */
    waiting: Option<(CallId, ChanId)>,
    channels: map<ChanId, seq<ReportId>>,
    nextChan: ChanId,
    nextTurn: TurnId,
    /** for each report posted so far, its call and the number of turns finished by then */
    posted: seq<(CallId, nat)>,
    received: seq<Receipt>,
    epoch: nat)

  datatype Event =
    | Post(call: CallId)
    | Begin
    | Wait(call: CallId)
    | Receive
    | Abandon
    | Finish

  function Posted(m: Room, call: CallId): Room
  {
    var (s, d) := m.s.AddToolResult(call, |m.posted|);
    var n := m.(s := s, posted := m.posted + [(call, m.epoch)]);
    if d.Sent? && d.ch in m.channels then n.(channels := m.channels[d.ch := m.channels[d.ch] + [|m.posted|]]) else n
  }

  function Waited(m: Room, call: CallId): Room
  {
    var (s, r) := m.s.BeginWait(call, m.nextChan);
    if r.Some? then m.(s := s, received := m.received + [Receipt(call, r.value, m.epoch)])
    else m.(s := s, waiting := Some((call, m.nextChan)),
            channels := m.channels[m.nextChan := []], nextChan := m.nextChan + 1)
  }

  function Received(m: Room, call: CallId, ch: ChanId): Room
  {
    if ch !in m.channels || m.channels[ch] == [] then m
    else m.(waiting := None, channels := m.channels[ch := m.channels[ch][1..]],
            received := m.received + [Receipt(call, m.channels[ch][0], m.epoch)])
  }

  /** The loop runs inside a turn and dispatches its calls in sequence; posting is always
      possible. When the context ends while a result is in the channel, either may win. */
  function Happen(m: Room, e: Event): Room
  {
    match e
    case Post(call) => Posted(m, call)
    case Begin => if m.s.turn.Some? then m else m.(s := m.s.StartTurn(m.nextTurn).0, nextTurn := m.nextTurn + 1)
    case Wait(call) => if m.waiting.Some? || m.s.turn.None? then m else Waited(m, call)
    case Receive => if m.waiting.None? then m else Received(m, m.waiting.value.0, m.waiting.value.1)
    case Abandon => if m.waiting.None? then m else m.(waiting := None, s := m.s.AbandonWait(m.waiting.value.0))
    case Finish => if m.waiting.Some? || m.s.turn.None? then m else m.(s := m.s.FinishTurn(), epoch := m.epoch + 1)
  }

  function Play(events: seq<Event>): Room
  {
    if events == [] then Room(NewSession(0), None, map[], 0, 0, [], [], 0)
    else Happen(Play(events[..|events| - 1]), events[|events| - 1])
  }

  // ----- the invariant -----

  /** A report was posted for this call since the last finished turn. */
  predicate Current(m: Room, call: CallId, r: ReportId)
  {
    r < |m.posted| && m.posted[r] == (call, m.epoch)
  }

  /** A result is on hand: kept as pending, or in the channel of the wait under way. */
  predicate OnHand(m: Room, call: CallId, r: ReportId)
  {
    || (call in m.s.pending && m.s.pending[call] == r)
    || (m.waiting.Some? && m.waiting.value.0 == call
        && m.waiting.value.1 in m.channels && r in m.channels[m.waiting.value.1])
  }

  /** The loop's wait is registered over an empty channel, or has been answered once. */
  predicate WaitState(m: Room)
  {
    match m.waiting
    case None => m.s.waiters == map[]
    case Some(w) =>
      && w.1 in m.channels
      && ((m.s.waiters == map[w.0 := w.1] && m.channels[w.1] == []) || (m.s.waiters == map[] && |m.channels[w.1]| == 1))
      && (w.0 in m.s.pending ==> m.s.pending[w.0] !in m.channels[w.1])
  }

  predicate Consumed(m: Room, r: ReportId)
  {
    exists x <- m.received :: x.report == r
  }

  predicate ReceivedOnce(m: Room)
  {
    && (forall x <- m.received :: x.report < |m.posted| && m.posted[x.report] == (x.call, x.epoch))
    && (forall i, j :: 0 <= i < j < |m.received| ==> m.received[i].report != m.received[j].report)
  }

  ghost predicate Inv(m: Room)
  {
    && WaitState(m)
    && m.s.pending.Keys !! m.s.waiters.Keys
    && |m.s.pending| <= PENDING_CAP
    && (forall call, r :: OnHand(m, call, r) ==> Current(m, call, r) && !Consumed(m, r))
    && (m.waiting.Some? ==> m.s.turn.Some?)
    && ReceivedOnce(m)
  }

  lemma AddShrinks(pending: map<CallId, ReportId>, call: CallId, r: ReportId)
    ensures |pending[call := r]| == if call in pending then |pending| else |pending| + 1
    ensures |pending - {call}| <= |pending|
  {
    assert pending[call := r].Keys == pending.Keys + {call};
    assert (pending - {call}).Keys == pending.Keys - {call};
    assert |pending.Keys - {call}| <= |pending.Keys|;
  }

  lemma PostWait(m: Room, call: CallId)
    requires Inv(m)
    ensures WaitState(Posted(m, call))
  {
    hide ReceivedOnce, Consumed;
    if m.waiting.Some? {
      forall x <- m.channels[m.waiting.value.1]
        ensures x < |m.posted|
      {
        assert OnHand(m, m.waiting.value.0, x);
      }
    }
  }

  lemma PostHands(m: Room, call: CallId)
    requires Inv(m)
    ensures var n := Posted(m, call);
            forall c, x :: OnHand(n, c, x) ==> Current(n, c, x) && !Consumed(n, x)
  {
    var n := Posted(m, call);
    var r := |m.posted|;
    assert forall x: ReportId :: Consumed(n, x) <==> Consumed(m, x);
    assert !Consumed(m, r);
    forall c, x | OnHand(n, c, x)
      ensures Current(n, c, x) && !Consumed(n, x)
    {
      assert OnHand(m, c, x) || (c == call && x == r);
    }
  }

  lemma PostKeeps(m: Room, call: CallId)
    requires Inv(m)
    ensures Inv(Posted(m, call))
  {
    hide Current, OnHand, Consumed, WaitState;
    PostWait(m, call);
    PostHands(m, call);
    AddShrinks(m.s.pending, call, |m.posted|);
  }

  lemma ConsumedMore(m: Room, n: Room, x: Receipt)
    requires n.received == m.received + [x]
    ensures forall r: ReportId :: Consumed(n, r) <==> Consumed(m, r) || r == x.report
  {
    assert n.received[|m.received|] == x;
    forall r: ReportId | Consumed(m, r)
      ensures Consumed(n, r)
    {
      var y :| y in m.received && y.report == r;
      assert y in n.received;
    }
  }

  lemma OnceMore(m: Room, n: Room, x: Receipt)
    requires ReceivedOnce(m) && n.received == m.received + [x] && n.posted == m.posted
    requires !Consumed(m, x.report) && x.report < |m.posted| && m.posted[x.report] == (x.call, x.epoch)
    ensures ReceivedOnce(n)
  {
    forall i | 0 <= i < |m.received|
      ensures m.received[i].report != x.report
    {
      assert m.received[i] in m.received;
    }
  }

  lemma TakePending(m: Room, call: CallId)
    requires Inv(m) && m.waiting.None? && m.s.turn.Some? && call in m.s.pending
    ensures Inv(Waited(m, call))
  {
    var n := Waited(m, call);
    var r := m.s.pending[call];
    AddShrinks(m.s.pending, call, 0);
    assert OnHand(m, call, r);
    ConsumedMore(m, n, Receipt(call, r, m.epoch));
    OnceMore(m, n, Receipt(call, r, m.epoch));
    forall c, x | OnHand(n, c, x)
      ensures Current(n, c, x) && !Consumed(n, x)
    {
      assert OnHand(m, c, x) && c != call;
      assert Current(m, c, x);
    }
  }

  lemma StartWaiting(m: Room, call: CallId)
    requires Inv(m) && m.waiting.None? && m.s.turn.Some? && call !in m.s.pending
    ensures Inv(Waited(m, call))
  {
    var n := Waited(m, call);
    assert m.s.waiters[call := m.nextChan] == map[call := m.nextChan];
    assert forall x: ReportId :: Consumed(n, x) <==> Consumed(m, x);
    assert forall c, x :: OnHand(n, c, x) ==> OnHand(m, c, x);
  }

  lemma WaitKeeps(m: Room, call: CallId)
    requires Inv(m) && m.waiting.None? && m.s.turn.Some?
    ensures Inv(Waited(m, call))
  {
    hide Inv, Waited;
    if call in m.s.pending {
      TakePending(m, call);
    } else {
      StartWaiting(m, call);
    }
  }

  lemma ReceiveKeeps(m: Room)
    requires Inv(m) && m.waiting.Some?
    ensures Inv(Received(m, m.waiting.value.0, m.waiting.value.1))
  {
    var (call, ch) := m.waiting.value;
    var n := Received(m, call, ch);
    if m.channels[ch] != [] {
      var r := m.channels[ch][0];
      assert OnHand(m, call, r);
      ConsumedMore(m, n, Receipt(call, r, m.epoch));
      OnceMore(m, n, Receipt(call, r, m.epoch));
      forall c, x | OnHand(n, c, x)
        ensures Current(n, c, x) && !Consumed(n, x)
      {
        assert OnHand(m, c, x);
      }
    }
  }

  lemma QuietKeeps(m: Room, e: Event)
    requires Inv(m) && (e.Begin? || e.Abandon? || e.Finish?)
    ensures Inv(Happen(m, e))
  {
    var n := Happen(m, e);
    assert forall x: ReportId :: Consumed(n, x) <==> Consumed(m, x);
    assert forall c, x :: OnHand(n, c, x) ==> OnHand(m, c, x);
  }

  lemma {:induction false} Always(events: seq<Event>)
    ensures Inv(Play(events))
  {
    if events != [] {
      var m := Play(events[..|events| - 1]);
      var e := events[|events| - 1];
      Always(events[..|events| - 1]);
      hide Inv, Posted, Waited, Received, Play;
      assert Play(events) == Happen(m, e) by { PlayLast(events); }
      match e
      case Post(call) => PostKeeps(m, call);
      case Wait(call) => if m.waiting.None? && m.s.turn.Some? { WaitKeeps(m, call); }
      case Receive => if m.waiting.Some? { ReceiveKeeps(m); }
      case _ => QuietKeeps(m, e);
    }
  }

  lemma PlayLast(events: seq<Event>)
    requires events != []
    ensures Play(events) == Happen(Play(events[..|events| - 1]), events[|events| - 1])
  {
  }

  // ----- what every run shows -----

  /** Whatever is posted, and whenever: no call is both pending and waited for, the buffer
      keeps its bound, a registered waiter's channel is empty, so that the send made under
      the mutex never blocks, no report is received twice, and a wait only ever receives a
      report posted for its own call since the last turn finished. */
  lemma {:induction false} Rendezvous(events: seq<Event>)
    ensures var m := Play(events);
            && m.s.pending.Keys !! m.s.waiters.Keys
            && |m.s.pending| <= PENDING_CAP
            && (forall call <- m.s.waiters :: m.s.waiters[call] in m.channels && m.channels[m.s.waiters[call]] == [])
            && (forall x <- m.received :: x.report < |m.posted| && m.posted[x.report] == (x.call, x.epoch))
            && (forall i, j :: 0 <= i < j < |m.received| ==> m.received[i].report != m.received[j].report)
  {
    hide Play;
    Always(events);
  }

  /** Posting a result before the loop waits for it, or while it waits, comes to the same:
      the loop receives that report, and the session is left as it was. */
  lemma PostingEarlyOrLate(events: seq<Event>, call: CallId)
    requires var m := Play(events);
             m.waiting.None? && m.s.turn.Some? && call !in m.s.pending && |m.s.pending| < PENDING_CAP
    ensures var m := Play(events);
            var early := Happen(Happen(m, Post(call)), Wait(call));
            var late := Happen(Happen(Happen(m, Wait(call)), Post(call)), Receive);
            && early.received == m.received + [Receipt(call, |m.posted|, m.epoch)] == late.received
            && early.s == m.s == late.s && early.waiting == m.waiting == late.waiting
  {
    hide Play;
    Always(events);
    var m := Play(events);
    Early(m, call);
    Late(m, call);
  }

  lemma Early(m: Room, call: CallId)
    requires m.waiting.None? && m.s.turn.Some? && call !in m.s.pending && |m.s.pending| < PENDING_CAP
    requires m.s.waiters == map[]
    ensures var v := Happen(Happen(m, Post(call)), Wait(call));
            v.received == m.received + [Receipt(call, |m.posted|, m.epoch)] && v.s == m.s && v.waiting == m.waiting
  {
    assert m.s.pending[call := |m.posted|] - {call} == m.s.pending;
  }

  lemma Late(m: Room, call: CallId)
    requires m.waiting.None? && m.s.turn.Some? && call !in m.s.pending && m.s.waiters == map[]
    ensures var v := Happen(Happen(Happen(m, Wait(call)), Post(call)), Receive);
            v.received == m.received + [Receipt(call, |m.posted|, m.epoch)] && v.s == m.s && v.waiting == m.waiting
  {
    var a := Happen(m, Wait(call));
    var b := Happen(a, Post(call));
    assert a.s.waiters == map[call := m.nextChan];
    assert b.s.waiters == map[];
    assert b.channels[m.nextChan] == [|m.posted|];
  }

  // ----- which reports reach the next turn -----

  /** A report finds a place: it replaces an older one of its call, or the buffer has room. */
  predicate HasRoom(m: Room, call: CallId)
  {
    call in m.s.pending || |m.s.pending| < PENDING_CAP
  }

  /** What an idle session that has finished no turn since p keeps of a report posted at p. */
  predicate Left(p: Room, m: Room, call: CallId, replaced: bool)
  {
    if HasRoom(p, call) then
      call in m.s.pending && (m.s.pending[call] == |p.posted| <==> !replaced)
    else !HasRoom(m, call)
  }

  /** A later moment: turns only finish, posted reports stay, and within one idle stretch
      the pending buffer loses nothing. */
  predicate Later(p: Room, m: Room, call: CallId, replaced: bool)
  {
    && p.epoch <= m.epoch && p.posted + [(call, p.epoch)] <= m.posted
    && (p.epoch == m.epoch && m.s.turn.None? ==> p.s.turn.None? && Left(p, m, call, replaced))
  }

  lemma PostedLater(p: Room, call: CallId)
    requires Inv(p)
    ensures Later(p, Posted(p, call), call, false)
  {
  }

  lemma PostLeft(p: Room, m: Room, call: CallId, replaced: bool, other: CallId)
    requires m.s.waiters == map[] && |p.posted| < |m.posted| && Left(p, m, call, replaced)
    ensures Left(p, Posted(m, other), call, replaced || other == call)
  {
    AddShrinks(m.s.pending, other, |m.posted|);
  }

  lemma PostLater(p: Room, m: Room, call: CallId, replaced: bool, other: CallId)
    requires Inv(m) && Later(p, m, call, replaced)
    ensures Later(p, Posted(m, other), call, replaced || other == call)
  {
    hide ReceivedOnce, Consumed, OnHand, Current, Left;
    assert Posted(m, other).s.turn == m.s.turn && Posted(m, other).posted == m.posted + [(other, m.epoch)];
    if p.epoch == m.epoch && m.s.turn.None? {
      PostLeft(p, m, call, replaced, other);
    }
  }

  lemma OtherLater(p: Room, m: Room, call: CallId, replaced: bool, e: Event)
    requires Inv(m) && Later(p, m, call, replaced) && !e.Post?
    ensures Later(p, Happen(m, e), call, replaced)
  {
  }

  lemma {:induction false} RunLater(before: seq<Event>, call: CallId, between: seq<Event>)
    ensures Later(Play(before), Play(before + [Post(call)] + between), call, Post(call) in between)
  {
    var all := before + [Post(call)] + between;
    hide Inv, Later, Posted;
    if between == [] {
      Always(before);
      PostedLater(Play(before), call);
      assert all[..|all| - 1] == before;
    } else {
      var i, e := |between| - 1, between[|between| - 1];
      RunLater(before, call, between[..i]);
      assert all[..|all| - 1] == before + [Post(call)] + between[..i];
      Always(all[..|all| - 1]);
      assert between == between[..i] + [e];
      hide Happen;
      if e.Post? {
        PostLater(Play(before), Play(all[..|all| - 1]), call, Post(call) in between[..i], e.call);
        assert Play(all) == Happen(Play(all[..|all| - 1]), e) by { PlayLast(all); }
        PostHappens(Play(all[..|all| - 1]), e.call);
      } else {
        OtherLater(Play(before), Play(all[..|all| - 1]), call, Post(call) in between[..i], e);
      }
    }
  }

  lemma PostHappens(m: Room, call: CallId)
    ensures Happen(m, Post(call)) == Posted(m, call)
  {
  }

  /** Which reports cross into the next turn: when it waits for the call first thing, it
      receives a report exactly if that was posted after the last turn had finished, found a
      place in the buffer, and was not replaced by a later report for the call. */
  lemma ReachesNextTurnExactly(before: seq<Event>, call: CallId, between: seq<Event>)
    ensures var p := Play(before);
            var m := Play(before + [Post(call)] + between);
            var v := Happen(Happen(m, Begin), Wait(call));
            m.s.turn.None? ==>
              (v.received == m.received + [Receipt(call, |p.posted|, m.epoch)]
               <==> p.epoch == m.epoch && HasRoom(p, call) && Post(call) !in between)
  {
    var all := before + [Post(call)] + between;
    Always(all);
    RunLater(before, call, between);
    hide Play, Inv, Later;
    if Play(all).s.turn.None? {
      NextReceives(Play(before), Play(all), call, Post(call) in between);
    }
  }

  lemma NextReceives(p: Room, m: Room, call: CallId, replaced: bool)
    requires Inv(m) && Later(p, m, call, replaced) && m.s.turn.None?
    ensures var v := Happen(Happen(m, Begin), Wait(call));
            (v.received == m.received + [Receipt(call, |p.posted|, m.epoch)])
            <==> (p.epoch == m.epoch && HasRoom(p, call) && !replaced)
  {
    var v := Happen(Happen(m, Begin), Wait(call));
    NextWait(m, call);
    if call in m.s.pending {
      assert OnHand(m, call, m.s.pending[call]);
      assert v.received[|m.received|] == Receipt(call, m.s.pending[call], m.epoch);
      assert m.posted[|p.posted|] == (call, p.epoch);
    } else {
      assert |v.received| == |m.received|;
    }
  }

  lemma NextWait(m: Room, call: CallId)
    requires Inv(m) && m.s.turn.None?
    ensures var v := Happen(Happen(m, Begin), Wait(call));
            v.received == m.received + if call in m.s.pending then [Receipt(call, m.s.pending[call], m.epoch)] else []
  {
  }

  /** A result posted while no turn runs is received by the next turn, in every run that
      leaves room for it: finishing a turn clears only what arrived before. */
  lemma PostedBetweenTurns(events: seq<Event>, call: CallId)
    requires Play(events).s.turn.None?
    ensures var m := Play(events);
            var v := Happen(Happen(Happen(m, Post(call)), Begin), Wait(call));
            v.received == m.received + [Receipt(call, |m.posted|, m.epoch)] <==> HasRoom(m, call)
  {
    var m := Play(events);
    assert (events + [Post(call)])[..|events|] == events;
    assert events + [Post(call)] + [] == events + [Post(call)];
    Always(events);
    ReachesNextTurnExactly(events, call, []);
  }

  // ----- when the loop waits, and for whom -----

  /** A wait that is given up leaves no trace in the session; a report that was handed to it
      before is received by nobody. */
  lemma AbandonedWait(events: seq<Event>, call: CallId)
    requires var m := Play(events); m.waiting.None? && m.s.turn.Some? && call !in m.s.pending
    ensures var m := Play(events);
            var quiet := Happen(Happen(m, Wait(call)), Abandon);
            var answered := Happen(Happen(Happen(m, Wait(call)), Post(call)), Abandon);
            && quiet.s == m.s == answered.s && quiet.waiting == m.waiting == answered.waiting
            && quiet.received == m.received == answered.received
  {
    hide Play;
    Always(events);
    var m := Play(events);
    assert m.s.waiters == map[];
    assert Happen(m, Wait(call)).s.waiters == map[call := m.nextChan];
    assert map[call := m.nextChan] - {call} == m.s.waiters;
  }

  /** The numbers of turns and channels: the turn that runs has the number of turns finished,
      and the channels are those registered so far. */
  ghost predicate Counted(m: Room)
  {
    && m.nextTurn == m.epoch + (if m.s.turn.Some? then 1 else 0)
    && (m.s.turn.Some? ==> m.s.turn.value == m.epoch)
    && (forall ch: ChanId :: ch in m.channels <==> ch < m.nextChan)
    && (m.waiting.Some? ==> m.s.turn.Some?)
  }

  lemma CountedStep(m: Room, e: Event)
    requires Counted(m)
    ensures Counted(Happen(m, e))
  {
  }

  lemma {:induction false} AlwaysCounted(events: seq<Event>)
    ensures Counted(Play(events))
  {
    if events != [] {
      hide Counted, Happen;
      AlwaysCounted(events[..|events| - 1]);
      CountedStep(Play(events[..|events| - 1]), events[|events| - 1]);
    }
  }

  predicate TurnOf(m: Room, t: Option<TurnId>, waits: bool)
  {
    m.s.turn == t && m.waiting.Some? == waits
  }

  predicate CanHappen(m: Room, e: Event)
  {
    match e
    case Post(_) => true
    case Begin => m.s.turn.None?
    case Wait(_) => m.s.turn.Some? && m.waiting.None?
    case Receive => m.waiting.Some?
    case Abandon => m.waiting.Some?
    case Finish => m.s.turn.Some? && m.waiting.None?
  }

  /** In every run: a turn begins exactly if none runs, with a number of its own; the loop
      waits only in a turn, for one call at a time, over a channel of its own; a turn ends
      only when the loop does not wait; and nothing else begins or ends one. */
  lemma LoopIsSequential(events: seq<Event>, e: Event)
    ensures var m := Play(events); var v := Happen(m, e); var idle := m.s.turn.None?;
            && (m.waiting.Some? ==> !idle)
            && (e.Begin? && idle ==> TurnOf(v, Some(m.epoch), false) && v.epoch == m.epoch)
            && (e.Finish? && !idle && m.waiting.None? ==> TurnOf(v, None, false) && v.epoch == m.epoch + 1)
            && (e.Wait? && !idle && m.waiting.None? && e.call !in m.s.pending ==>
                  v.waiting.Some? && v.waiting.value.0 == e.call && v.waiting.value.1 !in m.channels
                  && v.s.turn == m.s.turn && v.epoch == m.epoch)
            && (e.Abandon? && m.waiting.Some? ==> TurnOf(v, m.s.turn, false) && v.epoch == m.epoch)
            && (e.Post? || e.Receive? ==> v.s.turn == m.s.turn && v.epoch == m.epoch)
            && (!CanHappen(m, e) ==> v == m)
  {
    hide Play;
    AlwaysCounted(events);
  }
}
