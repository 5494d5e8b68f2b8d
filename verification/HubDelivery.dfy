/** Every run of a hub and its subscribers, compared with the unbounded log of all
    published events: the replay buffer is the log's tail, and what reaches a subscriber is
    a gap-free stretch of the log, even when it is dropped for lagging behind. */
module HubDelivery {
  import opened Hub

  /** A subscriber: the last_seq it asked for, the log length when it joined, the replayed
      events, and the events its handler has taken from the channel. */
  datatype Client = Client(lastSeq: int, joined: nat, backlog: seq<Event>, received: seq<Event>)

  datatype World = World(hub: HubState, log: seq<Event>, clients: map<ChanId, Client>)

  datatype Step =
    | Publishes(turnID: string, name: string, data: string)
    | Subscribes(ch: ChanId, lastSeq: int)
    | Receives(ch: ChanId)
    | Unsubscribes(ch: ChanId)
    | ClosesAll

  const EMPTY := World(HubState(0, [], "", {}, map[]), [], map[])

  /** One critical section of the hub, or one receive. A step that cannot happen changes nothing. */
  function Next(w: World, step: Step): World
  {
    match step
    case Publishes(turnID, name, data) =>
      w.(hub := w.hub.Publish(turnID, name, data), log := w.log + [Event(w.hub.no + 1, name, data)])
    case Subscribes(ch, lastSeq) =>
      if ch in w.hub.chans then w
      else w.(hub := w.hub.Subscribe(ch),
              clients := w.clients[ch := Client(lastSeq, |w.log|, Backlog(w.hub.buf, lastSeq), [])])
    case Receives(ch) =>
      if ch !in w.hub.chans || ch !in w.clients || w.hub.chans[ch].queue == [] then w
      else
        var q := w.hub.chans[ch].queue;
        w.(hub := w.hub.(chans := w.hub.chans[ch := w.hub.chans[ch].(queue := q[1..])]),
           clients := w.clients[ch := w.clients[ch].(received := w.clients[ch].received + [q[0]])])
    case Unsubscribes(ch) => w.(hub := w.hub.Unsubscribe(ch))
    case ClosesAll => w.(hub := w.hub.CloseAll())
  }

  function Run(steps: seq<Step>): World
  {
    if steps == [] then EMPTY else Next(Run(steps[..|steps| - 1]), steps[|steps| - 1])
  }

  // ----- what a subscriber should get -----

  /** Where in the log the events of a subscriber start: after lastSeq, but no earlier than
      the replay buffer reaches and no later than the moment it joined. */
  function First(lastSeq: int, joined: nat): nat
  {
    var oldest := if joined <= BUFFER_CAP then 0 else joined - BUFFER_CAP;
    if lastSeq <= oldest then oldest else if lastSeq >= joined then joined else lastSeq
  }

  /** What the handler of a subscriber has written out. */
  function Consumed(c: Client): seq<Event>
  {
    c.backlog + c.received
  }

  predicate Numbered(events: seq<Event>, before: nat)
  {
    forall i :: 0 <= i < |events| ==> events[i].no == before + 1 + i
  }

  /** events is the stretch of the log that starts at position first. */
  predicate Stretch(log: seq<Event>, first: nat, events: seq<Event>)
  {
    first + |events| <= |log| && log[first..first + |events|] == events
  }

  predicate ClientInv(hub: HubState, log: seq<Event>, ch: ChanId, c: Client)
    requires ch in hub.chans
  {
    var all := Consumed(c) + hub.chans[ch].queue;
    && c.joined <= |log|
    && |c.backlog| == c.joined - First(c.lastSeq, c.joined)
    && Stretch(log, First(c.lastSeq, c.joined), all)
    && |hub.chans[ch].queue| <= SUBSCRIBER_CAP
    && (ch in hub.subs ==> First(c.lastSeq, c.joined) + |all| == |log|)
  }

  predicate Inv(w: World)
  {
    && w.hub.Valid()
    && w.hub.no == |w.log| && Numbered(w.log, 0)
    && w.hub.buf == LastOf(w.log, BUFFER_CAP)
    && w.clients.Keys == w.hub.chans.Keys
    && forall ch <- w.clients :: ClientInv(w.hub, w.log, ch, w.clients[ch])
  }

  // ----- each step keeps it -----

  lemma {:induction false} BacklogIsTail(buf: seq<Event>, before: nat, lastSeq: int)
    requires Numbered(buf, before)
    ensures var skip := if lastSeq <= before then 0 else if lastSeq >= before + |buf| then |buf| else lastSeq - before;
            Backlog(buf, lastSeq) == buf[skip..]
  {
    if buf != [] {
      assert buf[0].no == before + 1;
      assert forall i :: 0 <= i < |buf| - 1 ==> buf[1..][i] == buf[i + 1];
      BacklogIsTail(buf[1..], before + 1, lastSeq);
    }
  }

  lemma LastOfAppend<T>(log: seq<T>, x: T, n: nat)
    requires n > 0
    ensures LastOf(LastOf(log, n) + [x], n) == LastOf(log + [x], n)
  {
  }

  lemma StretchGrows(log: seq<Event>, first: nat, events: seq<Event>, ev: Event)
    requires Stretch(log, first, events)
    ensures Stretch(log + [ev], first, events)
    ensures first + |events| == |log| ==> Stretch(log + [ev], first, events + [ev])
  {
    assert (log + [ev])[first..first + |events|] == log[first..first + |events|];
  }

  lemma PublishKeepsClient(w: World, turnID: string, name: string, data: string, ch: ChanId)
    requires Inv(w) && ch in w.clients
    ensures var w' := Next(w, Publishes(turnID, name, data));
            ch in w'.hub.chans && ClientInv(w'.hub, w'.log, ch, w.clients[ch])
  {
    hide First, Numbered, LastOf, Stretch;
    var c, ev := w.clients[ch], Event(w.hub.no + 1, name, data);
    var all := Consumed(c) + w.hub.chans[ch].queue;
    assert ClientInv(w.hub, w.log, ch, c);
    StretchGrows(w.log, First(c.lastSeq, c.joined), all, ev);
    assert all + [ev] == Consumed(c) + (w.hub.chans[ch].queue + [ev]);
  }

  /** The subscribers left after a broadcast have open channels. */
  lemma OffersKeep(hub: HubState, ev: Event)
    requires hub.Valid()
    ensures OfferAll(hub.chans, hub.subs, ev).Keys == hub.chans.Keys
    ensures forall ch <- hub.subs - hub.Lagging() ::
              ch in hub.chans && !OfferAll(hub.chans, hub.subs, ev)[ch].closed
  {
  }

  lemma {:induction false} PublishKeeps(w: World, turnID: string, name: string, data: string)
    requires Inv(w)
    ensures Inv(Next(w, Publishes(turnID, name, data)))
  {
    hide ClientInv, TurnAfter, LastOf;
    OffersKeep(w.hub, Event(w.hub.no + 1, name, data));
    LastOfAppend(w.log, Event(w.hub.no + 1, name, data), BUFFER_CAP);
    forall ch <- w.clients
      ensures var w' := Next(w, Publishes(turnID, name, data));
              ch in w'.hub.chans && ClientInv(w'.hub, w'.log, ch, w.clients[ch])
    {
      PublishKeepsClient(w, turnID, name, data, ch);
    }
  }

  lemma TailOfTail<T>(log: seq<T>, a: nat, skip: nat)
    requires a + skip <= |log|
    ensures log[a..][skip..] == log[a + skip..]
  {
  }

  lemma BacklogIsStretch(log: seq<Event>, lastSeq: int)
    requires Numbered(log, 0)
    ensures Backlog(LastOf(log, BUFFER_CAP), lastSeq) == log[First(lastSeq, |log|)..]
  {
    var before := if |log| <= BUFFER_CAP then 0 else |log| - BUFFER_CAP;
    var buf := LastOf(log, BUFFER_CAP);
    assert buf == log[before..];
    TailNumbered(log, before);
    hide LastOf, Numbered;
    BacklogIsTail(buf, before, lastSeq);
    TailOfTail(log, before, if lastSeq <= before then 0
                            else if lastSeq >= before + |buf| then |buf| else lastSeq - before);
  }

  lemma TailNumbered(log: seq<Event>, before: nat)
    requires Numbered(log, 0) && before <= |log|
    ensures Numbered(log[before..], before)
  {
  }

  lemma NewClient(w: World, ch: ChanId, lastSeq: int)
    requires Inv(w) && ch !in w.hub.chans
    ensures ClientInv(w.hub.Subscribe(ch), w.log, ch, Client(lastSeq, |w.log|, Backlog(w.hub.buf, lastSeq), []))
  {
    hide LastOf;
    BacklogIsStretch(w.log, lastSeq);
    var backlog := Backlog(w.hub.buf, lastSeq);
    var queue := w.hub.Subscribe(ch).chans[ch].queue;
    assert backlog + [] + queue == backlog;
    assert w.log[First(lastSeq, |w.log|)..First(lastSeq, |w.log|) + |backlog|] == backlog;
  }

  lemma SubscribeKeeps(w: World, ch: ChanId, lastSeq: int)
    requires Inv(w)
    ensures Inv(Next(w, Subscribes(ch, lastSeq)))
  {
    if ch !in w.hub.chans {
      NewClient(w, ch, lastSeq);
      var w' := Next(w, Subscribes(ch, lastSeq));
      forall other <- w.clients
        ensures ClientInv(w'.hub, w'.log, other, w.clients[other])
      {
        assert ClientInv(w.hub, w.log, other, w.clients[other]);
      }
    }
  }

  lemma {:induction false} ReceiveKeeps(w: World, ch: ChanId)
    requires Inv(w)
    ensures Inv(Next(w, Receives(ch)))
  {
    hide Numbered, LastOf, Stretch, First;
    var w' := Next(w, Receives(ch));
    forall other <- w'.clients
      ensures ClientInv(w'.hub, w'.log, other, w'.clients[other])
    {
      var c := w.clients[other];
      assert ClientInv(w.hub, w.log, other, c);
      if other == ch && w.hub.chans[ch].queue != [] {
        var q := w.hub.chans[ch].queue;
        assert Consumed(c) + q == c.backlog + (c.received + [q[0]]) + q[1..];
      }
    }
  }

  lemma LeaveKeeps(w: World, step: Step)
    requires Inv(w) && (step.Unsubscribes? || step.ClosesAll?)
    ensures Inv(Next(w, step))
  {
    var w' := Next(w, step);
    forall ch <- w'.clients
      ensures ClientInv(w'.hub, w'.log, ch, w'.clients[ch])
    {
      assert ClientInv(w.hub, w.log, ch, w.clients[ch]);
    }
  }

  /** Every run keeps the invariant. */
  lemma {:induction false} AlwaysInv(steps: seq<Step>)
    ensures Inv(Run(steps))
  {
    hide Inv, Next;
    if steps == [] {
      EmptyInv();
    } else {
      var w, step := Run(steps[..|steps| - 1]), steps[|steps| - 1];
      AlwaysInv(steps[..|steps| - 1]);
      match step
      case Publishes(turnID, name, data) => PublishKeeps(w, turnID, name, data);
      case Subscribes(ch, lastSeq) => SubscribeKeeps(w, ch, lastSeq);
      case Receives(ch) => ReceiveKeeps(w, ch);
      case Unsubscribes(_) => LeaveKeeps(w, step);
      case ClosesAll => LeaveKeeps(w, step);
    }
  }

  lemma EmptyInv()
    ensures Inv(EMPTY)
  {
  }

  // ----- what follows for every run -----

  /** The replay buffer holds exactly the last 2000 events of the log, which are numbered
      from 1 without gaps; the latest sequence number counts the log. */
  lemma {:induction false} BufferIsTail(steps: seq<Step>)
    ensures var w := Run(steps);
            && w.hub.buf == LastOf(w.log, BUFFER_CAP)
            && w.hub.no == |w.log|
            && forall i :: 0 <= i < |w.log| ==> w.log[i].no == i + 1
  {
    AlwaysInv(steps);
  }

  /** What a subscriber has consumed and still has queued is one stretch of the log, from the
      position its last_seq asks for; while it is subscribed the stretch reaches the log's end. */
  lemma GapFree(steps: seq<Step>, ch: ChanId)
    requires ch in Run(steps).clients
    ensures var w := Run(steps); var c := w.clients[ch];
            && ch in w.hub.chans
            && var all := Consumed(c) + w.hub.chans[ch].queue; var first := First(c.lastSeq, c.joined);
            && Stretch(w.log, first, Consumed(c)) && Stretch(w.log, first, all)
            && (ch in w.hub.subs ==> all == w.log[first..])
  {
    hide First, Numbered, LastOf, Run;
    AlwaysInv(steps);
    var w := Run(steps);
    var c := w.clients[ch];
    assert ClientInv(w.hub, w.log, ch, c);
    var first := First(c.lastSeq, c.joined);
    var all := Consumed(c) + w.hub.chans[ch].queue;
    assert w.log[first..first + |Consumed(c)|] == all[..|Consumed(c)|] == Consumed(c);
  }

  /** The sequence number of the last event a subscriber consumed is its position in the log. */
  lemma LastReceivedIsPosition(steps: seq<Step>, ch: ChanId)
    requires ch in Run(steps).clients && Consumed(Run(steps).clients[ch]) != []
    ensures var c := Run(steps).clients[ch];
            Consumed(c)[|Consumed(c)| - 1].no == First(c.lastSeq, c.joined) + |Consumed(c)|
  {
    hide First, Run;
    AlwaysInv(steps);
    GapFree(steps, ch);
    var w, c := Run(steps), Run(steps).clients[ch];
    var first, n := First(c.lastSeq, c.joined), |Consumed(c)|;
    assert Consumed(c)[n - 1] == w.log[first..first + n][n - 1] == w.log[first + n - 1];
  }

  /** Reconnecting with the last consumed sequence number continues the log without a gap or a
      repetition, exactly when no more than 2000 events were missed in between. */
  lemma ResumeExactly(steps: seq<Step>, before: ChanId, after: ChanId)
    requires var w := Run(steps); before in w.clients && after in w.clients
    requires var w := Run(steps); var b, a := w.clients[before], w.clients[after];
             a.lastSeq == First(b.lastSeq, b.joined) + |Consumed(b)| && a.lastSeq <= a.joined
    ensures var w := Run(steps); var b, a := w.clients[before], w.clients[after];
            var got, first := Consumed(b) + Consumed(a), First(b.lastSeq, b.joined);
            if a.joined - a.lastSeq <= BUFFER_CAP
            then Stretch(w.log, first, got)
            else First(a.lastSeq, a.joined) == a.joined - BUFFER_CAP > first + |Consumed(b)|
  {
    hide Run, Numbered, LastOf;
    GapFree(steps, before);
    GapFree(steps, after);
    var w := Run(steps);
    var b, a := w.clients[before], w.clients[after];
    var first := First(b.lastSeq, b.joined);
    if a.joined - a.lastSeq <= BUFFER_CAP {
      assert First(a.lastSeq, a.joined) == a.lastSeq;
      Adjoin(w.log, first, Consumed(b), Consumed(a));
    }
  }

  lemma Adjoin(log: seq<Event>, first: nat, x: seq<Event>, y: seq<Event>)
    requires Stretch(log, first, x) && Stretch(log, first + |x|, y)
    ensures Stretch(log, first, x + y)
  {
    assert log[first..first + |x| + |y|] == log[first..first + |x|] + log[first + |x|..first + |x| + |y|];
  }

  /** The backlog lies in the log between where the subscriber starts and where it joined. */
  lemma BacklogPlace(steps: seq<Step>, ch: ChanId, taken: nat)
    requires ch in Run(steps).clients && taken <= |Run(steps).clients[ch].backlog|
    ensures var w := Run(steps); var c := w.clients[ch]; var first := First(c.lastSeq, c.joined);
            && c.joined == first + |c.backlog|
            && Stretch(w.log, first, c.backlog[..taken])
            && Stretch(w.log, first + taken, c.backlog[taken..])
  {
    hide Run, LastOf, First, Numbered;
    AlwaysInv(steps);
    GapFree(steps, ch);
    var w := Run(steps);
    var c := w.clients[ch];
    var first := First(c.lastSeq, c.joined);
    assert ClientInv(w.hub, w.log, ch, c);
    assert w.log[first..first + |c.backlog|] == Consumed(c)[..|c.backlog|] == c.backlog;
    Cut(w.log, first, c.backlog, taken);
  }

  lemma Cut(log: seq<Event>, first: nat, events: seq<Event>, k: nat)
    requires Stretch(log, first, events) && k <= |events|
    ensures Stretch(log, first, events[..k]) && Stretch(log, first + k, events[k..])
  {
    assert log[first..first + k] == log[first..first + |events|][..k];
    assert log[first + k..first + |events|] == log[first..first + |events|][k..];
  }

  /** Events that stand at position from can also be read at an earlier position only if
      sequence numbers repeat, which they do not. */
  lemma OnePlace(log: seq<Event>, at: nat, from: nat, events: seq<Event>)
    requires Numbered(log, 0) && events != []
    requires Stretch(log, at, events) && Stretch(log, from, events)
    ensures at == from
  {
    assert log[at] == log[at..at + |events|][0] == log[from..from + |events|][0] == log[from];
  }

  /** Reconnecting with the sequence number of the sync frame instead (the log length when
      the subscriber joined) skips exactly the part of its backlog that was not consumed. */
  lemma ResumeFromSync(steps: seq<Step>, before: ChanId, after: ChanId, taken: nat)
    requires var w := Run(steps); before in w.clients && after in w.clients
    requires var w := Run(steps); var b, a := w.clients[before], w.clients[after];
             taken <= |b.backlog| && a.lastSeq == b.joined <= a.joined <= b.joined + BUFFER_CAP
    requires Consumed(Run(steps).clients[after]) != []
    ensures var w := Run(steps); var b, a := w.clients[before], w.clients[after];
            var first := First(b.lastSeq, b.joined);
            && Stretch(w.log, first + taken, b.backlog[taken..] + Consumed(a))
            && (Stretch(w.log, first, b.backlog[..taken] + Consumed(a)) <==> taken == |b.backlog|)
  {
    hide Run, LastOf, Numbered, Stretch;
    AlwaysInv(steps);
    GapFree(steps, after);
    BacklogPlace(steps, before, taken);
    var w := Run(steps);
    var b, a := w.clients[before], w.clients[after];
    var first := First(b.lastSeq, b.joined);
    Adjoin(w.log, first + taken, b.backlog[taken..], Consumed(a));
    if Stretch(w.log, first, b.backlog[..taken] + Consumed(a)) {
      Part(w.log, first, b.backlog[..taken], Consumed(a));
      OnePlace(w.log, first + taken, b.joined, Consumed(a));
    }
    if taken == |b.backlog| {
      Adjoin(w.log, first, b.backlog[..taken], Consumed(a));
    }
  }

  lemma Part(log: seq<Event>, first: nat, x: seq<Event>, y: seq<Event>)
    requires Stretch(log, first, x + y)
    ensures Stretch(log, first + |x|, y)
  {
    assert log[first + |x|..first + |x| + |y|] == (x + y)[|x|..] == y;
  }
}
