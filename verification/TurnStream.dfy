/** The turns' log as the hub publishes it: the current turn that a sync frame shows. */
module TurnStream {
  import opened Text
  import opened Session
  import opened TurnProtocol
  import opened TurnInvariants
  import SandboxLedger
  import TurnLog
  import Hub

  function EventName(kind: Kind): string
  {
    match kind
    case TurnStarted => Hub.TURN_STARTED
    case TurnFinished(_) => Hub.TURN_FINISHED
    case Delta => "delta"
    case ToolCall => "tool_call"
  }

  /** The hub after the events of a log; id renders turn ids, data the payloads. */
  function Published(log: seq<Entry>, id: TurnId -> string, data: Entry -> string): Hub.HubState
  {
    if log == [] then Hub.HubState(0, [], "", {}, map[])
    else
      var e := log[|log| - 1];
      Published(log[..|log| - 1], id, data).Publish(id(e.t), EventName(e.kind), data(e))
  }

  lemma Names(e: Entry, current: string, turn: string)
    ensures Hub.TurnAfter(current, turn, EventName(e.kind))
            == if e.kind.TurnStarted? then turn else if e.kind.TurnFinished? then "" else current
  {
    assert |Hub.TURN_STARTED| == 12 && |Hub.TURN_FINISHED| == 13;
    assert e.kind.Delta? ==> |EventName(e.kind)| == 5;
    assert e.kind.ToolCall? ==> |EventName(e.kind)| == 9;
  }

  lemma {:induction false} CurrentIsOpen(log: seq<Entry>, id: TurnId -> string, data: Entry -> string)
    requires !TurnLog.Read(log).Broken?
    ensures Published(log, id, data).currentTurn == if TurnLog.Read(log).Within? then id(TurnLog.Read(log).t) else ""
    ensures Published(log, id, data).no == |log|
  {
    if log != [] {
      hide EventName;
      var init := log[..|log| - 1];
      var e := log[|log| - 1];
      TurnLog.FeedBroken(TurnLog.Read(init), e);
      CurrentIsOpen(init, id, data);
      Names(e, Published(init, id, data).currentTurn, id(e.t));
    }
  }

  /** In every reachable state the hub shows as current the turn that has been announced and
      not finished, and none otherwise; its sequence number counts the events so far. */
  lemma {:induction false} SyncShowsOpenTurn(created: bool, steps: seq<Step>, id: TurnId -> string,
                                             data: Entry -> string)
    ensures var w := Run(created, steps); var hub := Published(w.log, id, data);
            && hub.no == |w.log|
            && (forall th <- w.threads :: TurnLog.StageOf(w.threads[th]).Open? ==>
                  w.s.turn == Owned(w.threads[th]) && hub.currentTurn == id(w.s.turn.value))
            && ((forall th <- w.threads :: !TurnLog.StageOf(w.threads[th]).Open?) ==> hub.currentTurn == "")
  {
    hide Run, Published, TurnLog.Read;
    TurnLog.Always(created, steps);
    SandboxLedger.Always(created, steps);
    CurrentIsOpen(Run(created, steps).log, id, data);
  }
}
