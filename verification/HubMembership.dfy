/** Who is subscribed to a hub, in every run: from its subscription on until it falls behind,
    leaves, or all are closed; and what it takes from its channel meanwhile. */
module HubMembership {
  import opened Hub
  import opened HubDelivery

  /** The step ends ch's subscription: it leaves, all are closed, or it has not made room for
      the event that is published. */
  predicate Drops(w: World, ch: ChanId, step: Step)
  {
    match step
    case Publishes(_, _, _) => ch in w.hub.chans && |w.hub.chans[ch].queue| >= SUBSCRIBER_CAP
    case Unsubscribes(other) => other == ch
    case ClosesAll => true
    case _ => false
  }

  lemma RunMore(steps: seq<Step>, step: Step)
    ensures Run(steps + [step]) == Next(Run(steps), step)
  {
    assert (steps + [step])[..|steps|] == steps;
  }

  lemma Membership(w: World, step: Step, ch: ChanId)
    requires Inv(w)
    ensures ch in Next(w, step).hub.subs
            <==> (ch in w.hub.subs && !Drops(w, ch, step)) || (step.Subscribes? && step.ch == ch && ch !in w.clients)
    ensures ch in w.clients ==> ch in Next(w, step).clients
  {
    hide Numbered, LastOf, ClientInv;
  }

  /** Over every run, a step subscribes exactly whom it adds and drops exactly whom it ends. */
  lemma SubscribedExactly(steps: seq<Step>, step: Step, ch: ChanId)
    ensures var w := Run(steps);
            ch in Run(steps + [step]).hub.subs
            <==> (ch in w.hub.subs && !Drops(w, ch, step)) || (step.Subscribes? && step.ch == ch && ch !in w.clients)
  {
    hide Run, Inv, Next;
    AlwaysInv(steps);
    RunMore(steps, step);
    Membership(Run(steps), step, ch);
  }

  /** No step of more ends ch's subscription. */
  predicate Stays(steps: seq<Step>, more: seq<Step>, ch: ChanId)
    decreases |more|
  {
    more == []
    || (Stays(steps, more[..|more| - 1], ch) && !Drops(Run(steps + more[..|more| - 1]), ch, more[|more| - 1]))
  }

  /** A subscriber is subscribed later on exactly if nothing has ended it in between; it does
      not come back. */
  lemma {:induction false} StaysExactly(steps: seq<Step>, more: seq<Step>, ch: ChanId)
    requires ch in Run(steps).hub.subs
    ensures ch in Run(steps + more).hub.subs <==> Stays(steps, more, ch)
    ensures ch in Run(steps + more).clients
    decreases |more|
  {
    hide Run, Inv, Next, Drops;
    if more == [] {
      AlwaysInv(steps);
      assert steps + more == steps;
      KnownClient(Run(steps), ch);
    } else {
      var init, step := more[..|more| - 1], more[|more| - 1];
      assert steps + more == (steps + init) + [step];
      StaysExactly(steps, init, ch);
      AlwaysInv(steps + init);
      RunMore(steps + init, step);
      Membership(Run(steps + init), step, ch);
    }
  }

  lemma KnownClient(w: World, ch: ChanId)
    requires Inv(w) && ch in w.hub.subs
    ensures ch in w.clients
  {
  }

  /** A channel is open exactly as long as its subscriber is subscribed. */
  predicate OpenIff(w: World)
  {
    forall ch <- w.hub.chans :: ch in w.hub.subs <==> !w.hub.chans[ch].closed
  }

  lemma OpenKept(w: World, step: Step)
    requires Inv(w) && OpenIff(w)
    ensures OpenIff(Next(w, step))
  {
    hide Numbered, LastOf, ClientInv;
  }

  /** Over every run. */
  lemma {:induction false} OpenExactly(steps: seq<Step>)
    ensures OpenIff(Run(steps))
  {
    if steps != [] {
      hide Inv, Next, OpenIff;
      OpenExactly(steps[..|steps| - 1]);
      AlwaysInv(steps[..|steps| - 1]);
      OpenKept(Run(steps[..|steps| - 1]), steps[|steps| - 1]);
    }
  }

  lemma TakesFirst(w: World, ch: ChanId)
    requires ch in w.clients && ch in w.hub.chans && w.hub.chans[ch].queue != []
    ensures var q := w.hub.chans[ch].queue; var v := Next(w, Receives(ch));
            && ch in v.clients && ch in v.hub.chans
            && v.hub.chans[ch] == Channel(q[1..], w.hub.chans[ch].closed)
            && Consumed(v.clients[ch]) == Consumed(w.clients[ch]) + [q[0]]
            && v.clients[ch].lastSeq == w.clients[ch].lastSeq && v.clients[ch].joined == w.clients[ch].joined
            && v.log == w.log && v.hub.subs == w.hub.subs
  {
    var c, q := w.clients[ch], w.hub.chans[ch].queue;
    assert c.backlog + (c.received + [q[0]]) == c.backlog + c.received + [q[0]];
  }

  /** Receiving as often as there are events in the channel. */
  function Taking(ch: ChanId, k: nat): seq<Step>
  {
    if k == 0 then [] else Taking(ch, k - 1) + [Receives(ch)]
  }

  lemma {:induction false} Takes(steps: seq<Step>, ch: ChanId, k: nat)
    requires ch in Run(steps).clients && ch in Run(steps).hub.chans && k <= |Run(steps).hub.chans[ch].queue|
    ensures var w, v := Run(steps), Run(steps + Taking(ch, k)); var q := w.hub.chans[ch].queue;
            && ch in v.clients && ch in v.hub.chans
            && v.hub.chans[ch] == Channel(q[k..], w.hub.chans[ch].closed)
            && Consumed(v.clients[ch]) == Consumed(w.clients[ch]) + q[..k]
            && v.clients[ch].lastSeq == w.clients[ch].lastSeq && v.clients[ch].joined == w.clients[ch].joined
            && v.log == w.log && v.hub.subs == w.hub.subs
  {
    hide Run, Next, Consumed;
    var q := Run(steps).hub.chans[ch].queue;
    if k == 0 {
      assert steps + Taking(ch, 0) == steps;
    } else {
      Takes(steps, ch, k - 1);
      var before := steps + Taking(ch, k - 1);
      assert steps + Taking(ch, k) == before + [Receives(ch)];
      RunMore(before, Receives(ch));
      TakesFirst(Run(before), ch);
      assert q[k - 1..][1..] == q[k..] && q[..k - 1] + [q[k - 1]] == q[..k];
    }
  }

  /** A subscriber that takes all that is in its channel has consumed the log from its first
      event to the end if it is subscribed; and otherwise, for all its channel is closed, still
      the whole stretch that was there when it was dropped. */
  lemma TakesAll(steps: seq<Step>, ch: ChanId)
    requires ch in Run(steps).clients
    ensures ch in Run(steps).hub.chans
    ensures var w := Run(steps); var c := w.clients[ch]; var q := w.hub.chans[ch].queue;
            var v := Run(steps + Taking(ch, |q|));
            && ch in v.clients
            && Consumed(v.clients[ch]) == Consumed(c) + q
            && Stretch(w.log, First(c.lastSeq, c.joined), Consumed(v.clients[ch]))
            && (ch in w.hub.subs ==> Consumed(v.clients[ch]) == w.log[First(c.lastSeq, c.joined)..])
  {
    hide Run, Consumed, First, Stretch;
    GapFree(steps, ch);
    var q := Run(steps).hub.chans[ch].queue;
    Takes(steps, ch, |q|);
    assert q[..|q|] == q;
  }
}
