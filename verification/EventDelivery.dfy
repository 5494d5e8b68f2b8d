/** From the event log to the client's event channel: the hub, the frames of one
    connection, a cut anywhere, and the client's reader, taken together. */
module EventDelivery {
  import opened Text
  import opened Hub
  import opened HubDelivery
  import opened Sse
  import opened SseRoundTrip

  function DataOf(items: seq<Item>): seq<Event>
  {
    if items == [] then [] else (if items[0].Data? then [items[0].event] else []) + DataOf(items[1..])
  }

  /** What a connection writes: the sync frame, then the consumed events in order, with
      keepalives anywhere after the sync frame. */
  predicate Connection(items: seq<Item>, consumed: seq<Event>)
  {
    && items != [] && items[0].Sync?
    && (forall i :: 1 <= i < |items| ==> !items[i].Sync?)
    && DataOf(items[1..]) == consumed
  }

  /** The client's view of a log entry. */
  ghost predicate Shows<P>(d: Decoder<P>, e: Delivered<P>, ev: Event)
  {
    e.kind == ev.name && e.no == ev.no && Some(e.payload) == d.decode(ev.data)
  }

  ghost predicate AllShow<P>(d: Decoder<P>, es: seq<Delivered<P>>, events: seq<Event>)
  {
    |es| == |events| && forall i :: 0 <= i < |es| ==> Shows(d, es[i], events[i])
  }

  lemma {:induction false} DataPrefix(items: seq<Item>, n: nat)
    requires n <= |items|
    ensures DataOf(items[..n]) <= DataOf(items)
  {
    if n > 0 {
      assert items[..n][0] == items[0] && items[..n][1..] == items[1..][..n - 1];
      DataPrefix(items[1..], n - 1);
    }
  }

  lemma {:induction false} DeliveriesShow<P>(d: Decoder<P>, items: seq<Item>)
    requires GoodItems(d, items) && forall i :: 0 <= i < |items| ==> !items[i].Sync?
    ensures AllShow(d, Deliveries(d, items), DataOf(items))
  {
    if items != [] {
      assert GoodItem(d, items[0]);
      DeliveriesShow(d, items[1..]);
      if items[0].Data? {
        assert GoodPayload(d, items[0].event.data);
      }
    }
  }

  /** What a client has delivered, however its stream stops, is some number of whole items. */
  lemma WholeItems<P>(d: Decoder<P>, items: seq<Item>, k: nat, failed: bool) returns (n: nat)
    requires GoodItems(d, items) && k <= |RenderItems(items)|
    ensures n <= |items|
    ensures Consume(d, Fresh([]), RenderItems(items)[..k], failed).events == Deliveries(d, items[..n])
  {
    hide Consume, Deliveries, RenderItems, GoodItem;
    n := Arrived(items, k);
    if failed {
      n := FailStream(d, items, [], k);
    } else {
      CutStream(d, items, [], k);
    }
    assert [] + Deliveries(d, items[..n]) == Deliveries(d, items[..n]);
  }

  /** Whatever cut the connection of a subscriber, an end of the stream or a read error, the
      client has delivered the sync event and then a prefix of the stretch of the log it asked
      for, each event with its own number. */
  lemma ClientSeesLog<P>(d: Decoder<P>, steps: seq<Step>, ch: ChanId, items: seq<Item>, k: nat, failed: bool)
    requires ch in Run(steps).clients && Connection(items, Consumed(Run(steps).clients[ch]))
    requires GoodItems(d, items) && k <= |RenderItems(items)|
    ensures var w := Run(steps); var c := w.clients[ch]; var first := First(c.lastSeq, c.joined);
            var es := Consume(d, Fresh([]), RenderItems(items)[..k], failed).events;
            es == [] ||
            (&& es[0].kind == "sync"
             && |es| - 1 <= |Consumed(c)| && first + |Consumed(c)| <= |w.log|
             && AllShow(d, es[1..], w.log[first..first + |es| - 1])
             && forall i :: 1 <= i < |es| ==> es[i].no == first + i)
  {
    hide Run, Consume, Deliveries, First, RenderItems, Arrived, GoodItem, Stretch, Numbered, Inv, DataOf;
    var n := WholeItems(d, items, k, failed);
    var w := Run(steps);
    var c := w.clients[ch];
    GapFree(steps, ch);
    BufferIsTail(steps);
    var es := Consume(d, Fresh([]), RenderItems(items)[..k], failed).events;
    if n == 0 {
      NoDeliveries(d, items[..n]);
    } else {
      var rest := items[1..][..n - 1];
      assert items[..n] == [items[0]] + rest;
      SyncFirst(d, items[..n]);
      assert items[..n][1..] == rest;
      DeliveriesShow(d, rest);
      DataPrefix(items[1..], n - 1);
      PrefixOfStretch(w.log, First(c.lastSeq, c.joined), Consumed(c), DataOf(rest));
    }
  }

  lemma NoDeliveries<P>(d: Decoder<P>, items: seq<Item>)
    requires items == []
    ensures Deliveries(d, items) == []
  {
  }

  lemma SyncFirst<P>(d: Decoder<P>, items: seq<Item>)
    requires GoodItems(d, items) && items != [] && items[0].Sync?
    ensures var es := Deliveries(d, items);
            es != [] && es[0].kind == "sync" && es[1..] == Deliveries(d, items[1..])
  {
    assert GoodItem(d, items[0]);
  }

  lemma PrefixOfStretch(log: seq<Event>, first: nat, events: seq<Event>, part: seq<Event>)
    requires Stretch(log, first, events) && part <= events
    ensures first + |events| <= |log| && log[first..first + |part|] == part
  {
    assert log[first..first + |part|] == log[first..first + |events|][..|part|];
  }

  /** A client that comes back with the number of the last event it delivered, at most 2000
      events late, goes on with the next event of the log: between its two connections
      nothing is lost and nothing is delivered twice. */
  lemma ReconnectContinues<P>(d: Decoder<P>, steps: seq<Step>, ch1: ChanId, ch2: ChanId,
                              items1: seq<Item>, items2: seq<Item>, k1: nat, k2: nat, failed1: bool, failed2: bool)
    requires ch1 in Run(steps).clients && Connection(items1, Consumed(Run(steps).clients[ch1]))
    requires ch2 in Run(steps).clients && Connection(items2, Consumed(Run(steps).clients[ch2]))
    requires GoodItems(d, items1) && k1 <= |RenderItems(items1)|
    requires GoodItems(d, items2) && k2 <= |RenderItems(items2)|
    ensures var w := Run(steps); var c2 := w.clients[ch2];
            var es1 := Consume(d, Fresh([]), RenderItems(items1)[..k1], failed1).events;
            var es2 := Consume(d, Fresh([]), RenderItems(items2)[..k2], failed2).events;
            var first := First(w.clients[ch1].lastSeq, w.clients[ch1].joined);
            |es1| >= 2 && es2 != []
            && c2.lastSeq == es1[|es1| - 1].no <= c2.joined && c2.joined - c2.lastSeq <= BUFFER_CAP ==>
              var got := es1[1..] + es2[1..];
              first + |got| <= |w.log| && AllShow(d, got, w.log[first..first + |got|])
  {
    hide Run, Consume, RenderItems, GoodItems, Connection, AllShow, First;
    ClientSeesLog(d, steps, ch1, items1, k1, failed1);
    ClientSeesLog(d, steps, ch2, items2, k2, failed2);
    var w := Run(steps);
    var c1, c2 := w.clients[ch1], w.clients[ch2];
    var es1 := Consume(d, Fresh([]), RenderItems(items1)[..k1], failed1).events;
    var es2 := Consume(d, Fresh([]), RenderItems(items2)[..k2], failed2).events;
    var first, m := First(c1.lastSeq, c1.joined), |es1| - 1;
    if |es1| >= 2 && c2.lastSeq == es1[m].no <= c2.joined && c2.joined - c2.lastSeq <= BUFFER_CAP && es2 != [] {
      InWindow(c2.lastSeq, c2.joined);
      var n := |es2| - 1;
      SliceJoin(w.log, first, m, n);
      ShowAppend(d, es1[1..], w.log[first..first + m], es2[1..], w.log[first + m..first + m + n]);
    }
  }

  lemma InWindow(lastSeq: nat, joined: nat)
    requires lastSeq <= joined <= lastSeq + BUFFER_CAP
    ensures First(lastSeq, joined) == lastSeq
  {
  }

  lemma SliceJoin<T>(log: seq<T>, first: nat, m: nat, n: nat)
    requires first + m + n <= |log|
    ensures log[first..first + m + n] == log[first..first + m] + log[first + m..first + m + n]
  {
  }

  lemma ShowAppend<P>(d: Decoder<P>, a: seq<Delivered<P>>, x: seq<Event>, b: seq<Delivered<P>>, y: seq<Event>)
    requires AllShow(d, a, x) && AllShow(d, b, y)
    ensures AllShow(d, a + b, x + y)
  {
  }
}
