/** The event hub of one session: sequence numbers, the bounded replay buffer, and the
    bounded channels of its subscribers. */
module Hub {

  const BUFFER_CAP: nat := 2000
  const SUBSCRIBER_CAP: nat := 64

  type ChanId = nat

  datatype Event = Event(no: nat, name: string, data: string)

  /** What a receiver still finds in a channel, and whether it has been closed. */
  datatype Channel = Channel(queue: seq<Event>, closed: bool)

  const TURN_STARTED := "turn_started"
  const TURN_FINISHED := "turn_finished"

  /** The last n elements, or all of them. */
  function LastOf<T>(s: seq<T>, n: nat): (r: seq<T>)
    ensures |r| <= n && |r| <= |s|
  {
    if |s| <= n then s else s[|s| - n..]
  }

  // ----- the transitions -----

  predicate Full(c: Channel)
  {
    |c.queue| >= SUBSCRIBER_CAP
  }

  /** A non-blocking send: a subscriber whose channel is full is closed instead. */
  function Offer(c: Channel, ev: Event): Channel
  {
    if Full(c) then c.(closed := true) else c.(queue := c.queue + [ev])
  }

  function OfferAll(chans: map<ChanId, Channel>, subs: set<ChanId>, ev: Event): map<ChanId, Channel>
  {
    map ch | ch in chans :: if ch in subs then Offer(chans[ch], ev) else chans[ch]
  }

  function TurnAfter(current: string, turnID: string, name: string): string
  {
    if name == TURN_STARTED then turnID else if name == TURN_FINISHED then "" else current
  }

  /** The buffered events after lastSeq. */
  function Backlog(buf: seq<Event>, lastSeq: int): seq<Event>
  {
    if buf == [] then []
    else (if buf[0].no > lastSeq then [buf[0]] else []) + Backlog(buf[1..], lastSeq)
  }

  datatype HubState = HubState(no: nat, buf: seq<Event>, currentTurn: string,
                                 subs: set<ChanId>, chans: map<ChanId, Channel>) {

    /** Every subscriber has an open channel. */
    predicate Valid()
    {
      forall ch <- subs :: ch in chans && !chans[ch].closed
    }

    function Lagging(): set<ChanId>
    {
      set ch | ch in subs && ch in chans && Full(chans[ch])
    }

    function Publish(turnID: string, name: string, data: string): HubState
    {
      var ev := Event(no + 1, name, data);
      HubState(no + 1, LastOf(buf + [ev], BUFFER_CAP), TurnAfter(currentTurn, turnID, name),
               subs - Lagging(), OfferAll(chans, subs, ev))
    }

    function Subscribe(ch: ChanId): HubState
    {
      this.(subs := subs + {ch}, chans := chans[ch := Channel([], false)])
    }

    function Unsubscribe(ch: ChanId): HubState
    {
      if ch in subs && ch in chans
      then this.(subs := subs - {ch}, chans := chans[ch := chans[ch].(closed := true)])
      else this
    }

    function CloseAll(): HubState
    {
      this.(subs := {}, chans := map ch | ch in chans :: if ch in subs then chans[ch].(closed := true) else chans[ch])
    }
  }

  /** Unsubscribing closes the subscriber's channel, with what is still in it, and touches no
      other; doing it again changes nothing. */
  lemma UnsubscribeCloses(s: HubState, ch: ChanId)
    requires s.Valid() && ch in s.subs
    ensures var v := s.Unsubscribe(ch);
            && v.Valid() && v.subs == s.subs - {ch} && v.chans.Keys == s.chans.Keys
            && v.chans[ch].closed && v.chans[ch].queue == s.chans[ch].queue
            && (forall other <- s.chans :: other != ch ==> v.chans[other] == s.chans[other])
            && v.no == s.no && v.buf == s.buf && v.currentTurn == s.currentTurn
            && v.Unsubscribe(ch) == v
  {
  }

  /** Closing all leaves no subscriber and no open channel, and keeps what is in them. */
  lemma CloseAllCloses(s: HubState)
    requires s.Valid() && forall ch <- s.chans :: ch in s.subs || s.chans[ch].closed
    ensures var v := s.CloseAll();
            && v.subs == {} && v.chans.Keys == s.chans.Keys
            && (forall ch <- v.chans :: v.chans[ch].closed && v.chans[ch].queue == s.chans[ch].queue)
            && v.no == s.no && v.buf == s.buf && v.currentTurn == s.currentTurn
  {
  }

  lemma BacklogStep(buf: seq<Event>, k: nat, lastSeq: int, before: seq<Event>)
    requires k < |buf|
    ensures before + Backlog(buf[k..], lastSeq)
            == (if buf[k].no > lastSeq then before + [buf[k]] else before) + Backlog(buf[k + 1..], lastSeq)
  {
    assert buf[k..][0] == buf[k] && buf[k..][1..] == buf[k + 1..];
    assert before + ([buf[k]] + Backlog(buf[k + 1..], lastSeq)) == (before + [buf[k]]) + Backlog(buf[k + 1..], lastSeq);
    assert [] + Backlog(buf[k + 1..], lastSeq) == Backlog(buf[k + 1..], lastSeq);
  }

  // ----- the hub object -----

  class EventHub {
    var seqNo: nat
    var buf: seq<Event>
    var currentTurn: string
    var subs: set<ChanId>
    /** The channels made so far; a channel outlives its subscription. */
    var chans: map<ChanId, Channel>

    function State(): HubState
      reads this
    {
      HubState(seqNo, buf, currentTurn, subs, chans)
    }

    constructor ()
      ensures State() == HubState(0, [], "", {}, map[])
    {
      seqNo, buf, currentTurn, subs, chans := 0, [], "", {}, map[];
    }

    /** The broadcast loop of publish. */
    method Broadcast(ev: Event)
      requires State().Valid()
      modifies this`subs, this`chans
      ensures subs == old(subs) - old(State().Lagging())
      ensures chans == OfferAll(old(chans), old(subs), ev)
    {
      ghost var before := State();
      var todo := subs;
      while todo != {}
        invariant todo <= before.subs
        invariant subs == before.subs - (before.Lagging() - todo)
        invariant chans == OfferAll(before.chans, before.subs - todo, ev)
        decreases todo
      {
        var ch :| ch in todo;
        todo := todo - {ch};
        if |chans[ch].queue| < SUBSCRIBER_CAP {
          chans := chans[ch := chans[ch].(queue := chans[ch].queue + [ev])];
        } else {
          subs := subs - {ch};
          chans := chans[ch := chans[ch].(closed := true)];
        }
      }
    }

    /** publish, for a payload that marshals to data; one that does not marshal changes nothing. */
    method Publish(turnID: string, name: string, data: string)
      requires State().Valid()
      modifies this
      ensures State() == old(State()).Publish(turnID, name, data)
    {
      hide OfferAll;
      seqNo := seqNo + 1;
      var ev := Event(seqNo, name, data);
      buf := buf + [ev];
      if |buf| > BUFFER_CAP {
        buf := buf[|buf| - BUFFER_CAP..];
      }
      if name == TURN_STARTED {
        currentTurn := turnID;
      } else if name == TURN_FINISHED {
        currentTurn := "";
      }
      Broadcast(ev);
    }

    /** The replay loop of subscribe. */
    method Replay(lastSeq: int) returns (backlog: seq<Event>)
      ensures backlog == Backlog(buf, lastSeq)
    {
      backlog := [];
      var k := 0;
      assert buf[0..] == buf;
      while k < |buf|
        invariant k <= |buf|
        invariant Backlog(buf, lastSeq) == backlog + Backlog(buf[k..], lastSeq)
      {
        BacklogStep(buf, k, lastSeq, backlog);
        if buf[k].no > lastSeq {
          backlog := backlog + [buf[k]];
        }
        k := k + 1;
      }
    }

    /** subscribe: ch is the channel it makes. */
    method Subscribe(ch: ChanId, lastSeq: int) returns (backlog: seq<Event>, turn: string, latest: nat)
      requires ch !in chans
      modifies this
      ensures State() == old(State()).Subscribe(ch)
      ensures backlog == Backlog(old(buf), lastSeq)
      ensures turn == old(currentTurn) && latest == old(seqNo)
    {
      backlog := Replay(lastSeq);
      subs := subs + {ch};
      chans := chans[ch := Channel([], false)];
      turn, latest := currentTurn, seqNo;
    }

    /** unsubscribe. */
    method Unsubscribe(ch: ChanId)
      requires State().Valid()
      modifies this
      ensures State() == old(State()).Unsubscribe(ch)
    {
      if ch in subs {
        subs := subs - {ch};
        chans := chans[ch := chans[ch].(closed := true)];
      }
    }

    /** closeAll. */
    method CloseAll()
      requires State().Valid()
      modifies this
      ensures State() == old(State()).CloseAll()
    {
      ghost var before := State();
      var todo := subs;
      while todo != {}
        invariant todo <= before.subs && subs == todo
        invariant chans == map ch | ch in before.chans ::
                    if ch in before.subs - todo then before.chans[ch].(closed := true) else before.chans[ch]
        invariant seqNo == before.no && buf == before.buf && currentTurn == before.currentTurn
        decreases todo
      {
        var ch :| ch in todo;
        todo := todo - {ch};
        subs := subs - {ch};
        chans := chans[ch := chans[ch].(closed := true)];
      }
    }
  }
}
