/** The agent loop object: RunTurn and its helpers, step by step, against the turn's events. */
module AgentLoop {
  import opened Text
  import opened Context
  import opened TurnHistory

  /** What one streamed completion comes to: an error after some text, a plain reply whose
      usage may overflow the window, or text and tool calls, after which the turn goes on. */
  datatype Completion = Broken(text: string) | Plain(content: string, overflow: bool) | Calls(text: string)

  /** How the calls to the outside turn out during one turn. */
  datatype Outside = Outside(loads: bool, trimSaved: bool, userSaved: bool, endSaved: bool, stream: nat -> Completion)

  datatype Outcome = Busy | LoadFailed | TurnFailed | Replied(saved: bool)

  /** How the turn ends, from a step of its loop on; text is what the step before streamed. */
  function EndFrom(stream: nat -> Completion, step: nat, text: string): End
    decreases MAX_TURN_STEPS - step
  {
    if step >= MAX_TURN_STEPS then Failure(text)
    else
      match stream(step)
      case Broken(partial) => Failure(partial)
      case Plain(content, overflow) => Reply(content, overflow)
      case Calls(more) => EndFrom(stream, step + 1, more)
  }

  function AfterWrite(c: Config, l: Loop, o: Outside): Loop
  {
    var trimmed := Next(c, l, Proceed(true));
    var kept := if trimmed.phase.SavingTrim? then Next(c, trimmed, Proceed(o.trimSaved)) else trimmed;
    Next(c, Next(c, kept, Proceed(true)), Proceed(o.userSaved))
  }

  function AfterEnd(c: Config, l: Loop, o: Outside): Loop
  {
    var ended := Next(c, l, Stop(EndFrom(o.stream, 0, "")));
    var condensed := if ended.phase.Condensing? then Next(c, ended, Proceed(true)) else ended;
    Next(c, condensed, Proceed(o.endSaved))
  }

  /** The turn as a sequence of the events of TurnHistory. */
  function AfterTurn(c: Config, l: Loop, user: string, o: Outside): Loop
  {
    var begun := Next(c, Next(c, l, Begin(user)), Proceed(o.loads));
    if begun.phase.Idle? then begun else AfterEnd(c, AfterWrite(c, begun, o), o)
  }

  /** The history after the write-ahead, and what is stored by then. */
  lemma WriteForm(c: Config, mem: History, disk: History, user: string, o: Outside)
    ensures var base := Trimmed(c, mem);
            var asked := base + [UserMessage(user)];
            AfterWrite(c, Loop(mem, true, disk, Trimming(user)), o)
            == Loop(asked, true, if o.userSaved then asked
                                    else if base != mem && o.trimSaved then base else disk, Streaming)
  {
    hide Trimmed;
  }

  function Closed(c: Config, asked: History, end: End): History
  {
    match end
    case Reply(text, overflow) => Condensed(c, overflow, asked + [AssistantMessage(text)])
    case Failure(text) => asked + [AssistantMessage(text)]
  }

  lemma EndForm(c: Config, asked: History, disk: History, o: Outside)
    ensures var m := Closed(c, asked, EndFrom(o.stream, 0, ""));
            AfterEnd(c, Loop(asked, true, disk, Streaming), o) == Loop(m, true, if o.endSaved then m else disk, Idle)
  {
    hide Condensed, EndFrom;
  }

  class Agent {
    var history: History
    var histReady: bool
    var busy: bool
    /** The object in the history store. */
    var stored: History

    function L(phase: Phase): Loop
      reads this
    {
      Loop(history, histReady, stored, phase)
    }

    constructor (disk: History)
      ensures L(Idle) == Loop([], false, disk, Idle) && !busy
    {
      history, histReady, busy, stored := [], false, false, disk;
    }

    method LoadHistory(ok: bool) returns (err: bool)
      modifies this`history, this`histReady
      ensures err == (!old(histReady) && !ok)
      ensures history == (if old(histReady) || !ok then old(history) else stored)
      ensures histReady == (old(histReady) || ok)
    {
      if histReady {
        return false;
      }
      if !ok {
        return true;
      }
      history := stored;
      histReady := true;
      return false;
    }

    method AppendHistory(m: Message)
      modifies this`history
      ensures history == old(history) + [m]
    {
      history := history + [m];
    }

    method SaveHistory(ok: bool)
      modifies this`stored
      ensures stored == if ok then history else old(stored)
    {
      if ok {
        stored := history;
      }
    }

    method FailTurn(partial: string, saved: bool)
      modifies this`history, this`stored
      ensures history == old(history) + [AssistantMessage(partial)]
      ensures stored == if saved then history else old(stored)
    {
      AppendHistory(AssistantMessage(partial));
      SaveHistory(saved);
    }

    /** The end of a turn with a plain reply, compaction included. */
    method AnswerTurn(c: Config, content: string, overflow: bool, saved: bool)
      modifies this`history, this`stored
      ensures history == Condensed(c, overflow, old(history) + [AssistantMessage(content)])
      ensures stored == if saved then history else old(stored)
    {
      AppendHistory(AssistantMessage(content));
      if c.window.Some? && overflow {
        history := Compact(history, c.summarize);
      }
      SaveHistory(saved);
    }

    /** Seals a turn that a crash interrupted. */
    method SealInterruptedTurn(loads: bool, saved: bool) returns (err: bool)
      modifies this`history, this`histReady, this`stored
      ensures err == (!old(histReady) && !loads)
      ensures var h := if old(histReady) then old(history) else old(stored);
              && (err ==> history == old(history) && histReady == old(histReady) && stored == old(stored))
              && (!err ==> histReady && history == Sealed(h)
                           && stored == if Dangling(h) && saved then history else old(stored))
    {
      err := LoadHistory(loads);
      if err {
        return;
      }
      var dangling := history != [] && history[|history| - 1].role.User?;
      if !dangling {
        return;
      }
      AppendHistory(AssistantMessage(INTERRUPTED));
      SaveHistory(saved);
    }

    /** One user turn: what it leaves in memory and in the store is what the events of the
        turn leave there. While a turn is running another is refused and changes nothing. */
    method RunTurn(c: Config, user: string, o: Outside) returns (r: Outcome)
      modifies this`history, this`histReady, this`stored, this`busy
      ensures busy == old(busy)
      ensures old(busy) ==> r == Busy && L(Idle) == old(L(Idle))
      ensures !old(busy) ==> L(Idle) == AfterTurn(c, old(L(Idle)), user, o)
      ensures !old(busy) ==> (r == LoadFailed <==> !old(histReady) && !o.loads)
      ensures !old(busy) && r != LoadFailed ==>
                r == if EndFrom(o.stream, 0, "").Reply? then Replied(o.endSaved) else TurnFailed
    {
      if busy {
        return Busy;
      }
      hide AfterTurn, AfterWrite, EndFrom, Closed;
      ghost var l := L(Idle);
      busy := true;
      var err := LoadHistory(o.loads);
      if err {
        LoadFails(c, l, user, o);
        busy := false;
        return LoadFailed;
      }
      ghost var asked := WriteAhead(c, user, o);
      r := Converse(c, o);
      TurnForm(c, l, user, o);
      busy := false;
    }

    /** The steps of a turn: completions and tool calls, until a plain reply, an error, or the
        last step. The exchanges with tools stay outside the history. */
    method Converse(c: Config, o: Outside) returns (r: Outcome)
      modifies this`history, this`stored
      ensures history == Closed(c, old(history), EndFrom(o.stream, 0, ""))
      ensures stored == if o.endSaved then history else old(stored)
      ensures r == if EndFrom(o.stream, 0, "").Reply? then Replied(o.endSaved) else TurnFailed
    {
      hide Condensed;
      var step, stepText := 0, "";
      while step < MAX_TURN_STEPS
        invariant 0 <= step <= MAX_TURN_STEPS
        invariant EndFrom(o.stream, 0, "") == EndFrom(o.stream, step, stepText)
        invariant history == old(history) && stored == old(stored)
      {
        match o.stream(step) {
          case Broken(partial) =>
            FailTurn(partial, o.endSaved);
            return TurnFailed;
          case Plain(content, overflow) =>
            AnswerTurn(c, content, overflow, o.endSaved);
            return Replied(o.endSaved);
          case Calls(text) =>
            stepText := text;
        }
        step := step + 1;
      }
      FailTurn(stepText, o.endSaved);
      return TurnFailed;
    }

    /** RunTurn up to the first completion: trim, save what was trimmed, append the user's
        message, save it. */
    method WriteAhead(c: Config, user: string, o: Outside) returns (ghost asked: Loop)
      requires histReady
      modifies this`history, this`stored
      ensures L(Streaming) == asked == AfterWrite(c, old(L(Trimming(user))), o)
    {
      hide AfterWrite, Trimmed, Dropped;
      var mem := history;
      var base, changed := Trim(c, mem);
      history := base;
      if changed {
        SaveHistory(o.trimSaved);
      }
      AppendHistory(UserMessage(user));
      SaveHistory(o.userSaved);
      TrimLength(c, mem);
      WriteForm(c, mem, old(stored), user, o);
      asked := L(Streaming);
    }
  }

  lemma TrimLength(c: Config, mem: History)
    ensures Trimmed(c, mem) == mem <==> |Trimmed(c, mem)| == |mem|
  {
    if c.window.Some? {
      var k := Dropped(mem, c.window.value.maxContext - c.window.value.reserve);
      assert |mem[k..]| == |mem| - k;
      assert mem[0..] == mem;
    }
  }

  method Trim(c: Config, mem: History) returns (base: History, changed: bool)
    ensures base == Trimmed(c, mem)
    ensures changed <==> |base| != |mem|
  {
    if c.window.None? {
      return mem, false;
    }
    base, changed := TruncateToFit(mem, c.window.value.maxContext, c.window.value.reserve);
  }

  lemma LoadFails(c: Config, l: Loop, user: string, o: Outside)
    requires l.phase.Idle? && !l.ready && !o.loads
    ensures AfterTurn(c, l, user, o) == l
  {
  }

  /** The whole turn, once the history is loaded. */
  lemma TurnForm(c: Config, l: Loop, user: string, o: Outside)
    requires l.phase.Idle? && (l.ready || o.loads)
    ensures var mem := if l.ready then l.mem else l.disk;
            var asked := AfterWrite(c, Loop(mem, true, l.disk, Trimming(user)), o);
            var m := Closed(c, asked.mem, EndFrom(o.stream, 0, ""));
            AfterTurn(c, l, user, o) == Loop(m, true, if o.endSaved then m else asked.disk, Idle)
  {
    hide AfterWrite, AfterEnd, Closed, EndFrom;
    var mem := if l.ready then l.mem else l.disk;
    var begun := Loop(mem, true, l.disk, Trimming(user));
    assert Next(c, Next(c, l, Begin(user)), Proceed(o.loads)) == begun;
    WriteForm(c, mem, l.disk, user, o);
    var asked := AfterWrite(c, begun, o);
    EndForm(c, asked.mem, asked.disk, o);
  }

  /** A turn of the loop is a run of events, so that every law about runs holds for it. */
  lemma TurnIsRun(c: Config, l: Loop, user: string, o: Outside)
    ensures exists events :: Run(c, l, events) == AfterTurn(c, l, user, o)
  {
    hide Next;
    var a := One(c, l, [], Begin(user));
    a := One(c, l, a, Proceed(o.loads));
    var begun := Run(c, l, a);
    if !begun.phase.Idle? {
      var b := One(c, l, a, Proceed(true));
      if Run(c, l, b).phase.SavingTrim? {
        b := One(c, l, b, Proceed(o.trimSaved));
      }
      b := One(c, l, b, Proceed(true));
      b := One(c, l, b, Proceed(o.userSaved));
      var e := One(c, l, b, Stop(EndFrom(o.stream, 0, "")));
      if Run(c, l, e).phase.Condensing? {
        e := One(c, l, e, Proceed(true));
      }
      e := One(c, l, e, Proceed(o.endSaved));
    }
  }

  lemma One(c: Config, l: Loop, events: seq<Event>, e: Event) returns (more: seq<Event>)
    ensures Run(c, l, more) == Next(c, Run(c, l, events), e)
  {
    more := events + [e];
    assert more[..|events|] == events;
  }

  /** A turn that begins with an answered, stored history, and whose saves succeed, ends with
      one again, grown by the user's message and one assistant message; the tool exchanges of
      the turn are not in it. */
  lemma TurnAddsOnePair(c: Config, h: History, user: string, o: Outside)
    requires WellFormed(h) && Answered(h) && o.trimSaved && o.userSaved && o.endSaved
    ensures var l := AfterTurn(c, Loop(h, true, h, Idle), user, o);
            && l.phase.Idle? && l.disk == l.mem && Answered(l.mem) && WellFormed(l.mem)
            && l.mem == Closed(c, Trimmed(c, h) + [UserMessage(user)], EndFrom(o.stream, 0, ""))
  {
    hide Trimmed, Condensed, EndFrom, AfterWrite, AfterTurn, WellFormed, Answered;
    TurnForm(c, Loop(h, true, h, Idle), user, o);
    WriteForm(c, h, h, user, o);
    TrimmedWellFormed(c, h);
    Appended(Trimmed(c, h), user);
    var asked := Trimmed(c, h) + [UserMessage(user)];
    match EndFrom(o.stream, 0, "")
    case Reply(t, overflow) =>
      Appended(asked, t);
      CondensedWellFormed(c, overflow, asked + [AssistantMessage(t)]);
    case Failure(t) =>
      Appended(asked, t);
  }

  // ----- what a turn leaves in the store, whatever saves fail -----

  /** The history a turn begins with. */
  function Loaded(l: Loop): History
  {
    if l.ready then l.mem else l.disk
  }

  predicate Begins(l: Loop, o: Outside)
  {
    l.phase.Idle? && (l.ready || o.loads)
  }

  /** What is stored if neither the write-ahead nor the last save of the turn takes effect. */
  function Untouched(c: Config, l: Loop, o: Outside): History
  {
    var base := Trimmed(c, Loaded(l));
    if base != Loaded(l) && o.trimSaved then base else l.disk
  }

  function Asked(c: Config, l: Loop, user: string): History
  {
    Trimmed(c, Loaded(l)) + [UserMessage(user)]
  }

  /** What a turn leaves in memory and in the store; a rebuilt loop begins with the latter. */
  lemma TurnLeaves(c: Config, l: Loop, user: string, o: Outside)
    requires Begins(l, o)
    ensures var v := AfterTurn(c, l, user, o);
            && v.phase.Idle? && v.ready && Next(c, v, Rebuild(true)).mem == v.disk
            && v.mem == Closed(c, Asked(c, l, user), EndFrom(o.stream, 0, ""))
            && v.disk == if o.endSaved then v.mem else if o.userSaved then Asked(c, l, user) else Untouched(c, l, o)
  {
    hide Trimmed, Condensed, EndFrom, AfterWrite, AfterTurn, Closed;
    TurnForm(c, l, user, o);
    WriteForm(c, Loaded(l), l.disk, user, o);
  }

  /** The first k completions of the turn only call tools. */
  predicate CallsTools(stream: nat -> Completion, k: nat)
  {
    forall i: nat :: i < k ==> stream(i).Calls?
  }

  /** The text of the last of k completions that call tools. */
  function LastText(stream: nat -> Completion, k: nat): string
    requires CallsTools(stream, k)
  {
    if k == 0 then "" else stream(k - 1).text
  }

  lemma {:induction false} EndAfter(stream: nat -> Completion, step: nat, k: nat)
    requires step <= k <= MAX_TURN_STEPS && CallsTools(stream, k)
    ensures EndFrom(stream, step, LastText(stream, step)) == EndFrom(stream, k, LastText(stream, k))
    decreases k - step
  {
    if step < k {
      EndAfter(stream, step + 1, k);
    }
  }

  /** A turn that calls tools k times and then replies leaves that reply: after the user's
      message one assistant message with the reply's text, and then perhaps condensed. */
  lemma ReplyIsLeft(c: Config, l: Loop, user: string, o: Outside, k: nat)
    requires Begins(l, o) && k < MAX_TURN_STEPS && CallsTools(o.stream, k) && o.stream(k).Plain?
    ensures AfterTurn(c, l, user, o).mem
         == Condensed(c, o.stream(k).overflow, Asked(c, l, user) + [AssistantMessage(o.stream(k).content)])
  {
    hide AfterTurn, Condensed, Asked;
    TurnLeaves(c, l, user, o);
    EndAfter(o.stream, 0, k);
  }

  /** One whose next completion breaks off leaves what came of it. */
  lemma PartialReplyIsLeft(c: Config, l: Loop, user: string, o: Outside, k: nat)
    requires Begins(l, o) && k < MAX_TURN_STEPS && CallsTools(o.stream, k) && o.stream(k).Broken?
    ensures AfterTurn(c, l, user, o).mem == Asked(c, l, user) + [AssistantMessage(o.stream(k).text)]
  {
    hide AfterTurn, Condensed, Asked;
    TurnLeaves(c, l, user, o);
    EndAfter(o.stream, 0, k);
  }

  /** And one that calls tools in all its steps leaves the text of the last one. */
  lemma LastTextIsLeft(c: Config, l: Loop, user: string, o: Outside)
    requires Begins(l, o) && CallsTools(o.stream, MAX_TURN_STEPS)
    ensures AfterTurn(c, l, user, o).mem
         == Asked(c, l, user) + [AssistantMessage(o.stream(MAX_TURN_STEPS - 1).text)]
  {
    hide AfterTurn, Condensed, Asked;
    TurnLeaves(c, l, user, o);
    EndAfter(o.stream, 0, MAX_TURN_STEPS);
  }

  /** A turn on this history condenses its older messages into a summary. */
  predicate Condenses(c: Config, base: History, end: End)
  {
    c.window.Some? && end.Reply? && end.overflow && |Users(base)| >= KEEP_RECENT_TURNS
  }

  lemma ClosedPairs(c: Config, base: History, user: string, end: End)
    ensures Pairs(Closed(c, base + [UserMessage(user)], end)) <==> Pairs(base) && !Condenses(c, base, end)
  {
    hide Pairs, Users, Compact;
    var text := if end.Reply? then end.content else end.partial;
    var m := base + [UserMessage(user)] + [AssistantMessage(text)];
    PairsAppend(base, UserMessage(user), AssistantMessage(text));
    UsersAppend(base, UserMessage(user), AssistantMessage(text));
    CompactKeepsRecent(m, c.summarize);
    if |Users(m)| > KEEP_RECENT_TURNS {
      CompactIsNotPairs(m, c.summarize);
    }
  }

  /** When only {user, assistant} pairs are stored after a turn, for any history and any store
      it begins with and any saves that fail. If its last save took effect: exactly when what
      was left of the history after trimming was pairs, and the turn did not condense it. If
      not: exactly when the write-ahead did not take effect either, and what was stored
      instead, by the trimming or before the turn, was pairs. */
  lemma StoresPairsExactly(c: Config, l: Loop, user: string, o: Outside)
    requires Begins(l, o)
    ensures Pairs(AfterTurn(c, l, user, o).disk)
       <==> var base := Trimmed(c, Loaded(l));
            if o.endSaved then Pairs(base) && !Condenses(c, base, EndFrom(o.stream, 0, ""))
            else !o.userSaved && Pairs(Untouched(c, l, o))
  {
    hide Trimmed, EndFrom, AfterTurn, Closed, Pairs, Users, Untouched;
    TurnLeaves(c, l, user, o);
    var base, end := Trimmed(c, Loaded(l)), EndFrom(o.stream, 0, "");
    ClosedPairs(c, base, user, end);
    PairsAppend(base, UserMessage(user), AssistantMessage(""));
  }

  /** On pairs the trimming leaves pairs. */
  lemma TrimmedPairs(c: Config, h: History)
    requires Pairs(h)
    ensures Pairs(Trimmed(c, h))
  {
    hide Pairs, WellFormed, Dropped;
    PairsWellFormed(h);
    if c.window.Some? {
      var budget := c.window.value.maxContext - c.window.value.reserve;
      LongestThatFits(h, budget);
      PairsSuffix(h, Dropped(h, budget));
    }
  }

  /** So a turn that begins with pairs in memory stores pairs exactly when its last save took
      effect and it did not condense, or else nothing but trimmed pairs, or the pairs stored
      before, are left. */
  lemma PairsKeptExactly(c: Config, l: Loop, user: string, o: Outside)
    requires Begins(l, o) && Pairs(Loaded(l))
    ensures Pairs(AfterTurn(c, l, user, o).disk)
       <==> var base := Trimmed(c, Loaded(l));
            if o.endSaved then !Condenses(c, base, EndFrom(o.stream, 0, ""))
            else !o.userSaved && ((base != Loaded(l) && o.trimSaved) || Pairs(l.disk))
  {
    hide Trimmed, AfterTurn, Pairs, Condenses, EndFrom;
    StoresPairsExactly(c, l, user, o);
    TrimmedPairs(c, Loaded(l));
  }

  /** Turns one after another. */
  function AfterTurns(c: Config, l: Loop, turns: seq<(string, Outside)>): Loop
  {
    if turns == [] then l
    else
      var t := turns[|turns| - 1];
      AfterTurn(c, AfterTurns(c, l, turns[..|turns| - 1]), t.0, t.1)
  }

  /** Turns whose last save takes effect store pairs, as long as they do not condense. */
  lemma {:induction false} TurnsStorePairs(c: Config, l: Loop, turns: seq<(string, Outside)>)
    requires l.phase.Idle? && l.ready && Pairs(l.mem) && l.disk == l.mem
    requires forall t <- turns :: t.1.endSaved
    requires c.window.None? || forall t <- turns :: !Overflows(t.1)
    ensures var v := AfterTurns(c, l, turns); v.phase.Idle? && v.ready && v.disk == v.mem && Pairs(v.mem)
  {
    hide AfterTurn, Pairs, EndFrom, Trimmed;
    if turns != [] {
      var init, t := turns[..|turns| - 1], turns[|turns| - 1];
      assert forall x <- init :: x in turns;
      TurnsStorePairs(c, l, init);
      var v := AfterTurns(c, l, init);
      TurnLeaves(c, v, t.0, t.1);
      PairsKeptExactly(c, v, t.0, t.1);
    }
  }

  predicate Overflows(o: Outside)
  {
    var end := EndFrom(o.stream, 0, "");
    end.Reply? && end.overflow
  }

  /** Compaction alone breaks the pairs: every save takes effect, and what is stored is a
      summary and two exchanges. */
  lemma CompactionStoresNoPairs(summarize: History -> string)
    ensures var c := Config(Some(Window(1, 0)), summarize);
            var h := [UserMessage(""), AssistantMessage(""), UserMessage(""), AssistantMessage("")];
            var o := Outside(true, true, true, true, _ => Plain("", true));
            Pairs(h) && !Pairs(AfterTurn(c, Loop(h, true, h, Idle), "", o).disk)
  {
    var c := Config(Some(Window(1, 0)), summarize);
    var h := [UserMessage(""), AssistantMessage(""), UserMessage(""), AssistantMessage("")];
    var o := Outside(true, true, true, true, _ => Plain("", true));
    var l := Loop(h, true, h, Idle);
    TwoExchanges(h);
    assert Trimmed(c, h) == h by {
      assert h[0..] == h;
      assert Fits(h, 1);
    }
    assert EndFrom(o.stream, 0, "") == Reply("", true);
    assert Condenses(c, h, EndFrom(o.stream, 0, ""));
    hide AfterTurn, Pairs, Trimmed, Condenses;
    PairsKeptExactly(c, l, "", o);
  }

  lemma TwoExchanges(h: History)
    requires h == [UserMessage(""), AssistantMessage(""), UserMessage(""), AssistantMessage("")]
    ensures Pairs(h) && |Users(h)| == 2 && Estimate(h) == 0
  {
    var two := [UserMessage(""), AssistantMessage("")];
    assert two == [] + [UserMessage("")] + [AssistantMessage("")];
    assert h == two + [UserMessage("")] + [AssistantMessage("")];
    UsersAppend([], UserMessage(""), AssistantMessage(""));
    UsersAppend(two, UserMessage(""), AssistantMessage(""));
    assert h[..3][..2] == two && two[..1][..0] == [];
    assert Estimate(two[..1]) == 0 && Estimate(two) == 0 && Estimate(h[..3]) == 0;
  }

  /** After a turn the stored history, with which a rebuilt loop begins, ends with an answer
      exactly when the last save took effect, or the write-ahead did not and what was stored
      instead ends with one. */
  lemma StoresAnswerExactly(c: Config, l: Loop, user: string, o: Outside)
    requires Begins(l, o) && WellFormed(Loaded(l))
    ensures Answered(Next(c, AfterTurn(c, l, user, o), Rebuild(true)).mem)
       <==> o.endSaved || (!o.userSaved && Answered(Untouched(c, l, o)))
  {
    hide Trimmed, Condensed, EndFrom, AfterTurn, Closed, Untouched, WellFormed, Answered;
    TurnLeaves(c, l, user, o);
    TrimmedWellFormed(c, Loaded(l));
    Appended(Trimmed(c, Loaded(l)), user);
    ClosedAnswered(c, Asked(c, l, user), EndFrom(o.stream, 0, ""));
  }

  lemma ClosedAnswered(c: Config, asked: History, end: End)
    requires WellFormed(asked) && !Answered(asked)
    ensures Answered(Closed(c, asked, end))
  {
    hide Condensed, WellFormed, Answered;
    match end
    case Reply(t, overflow) =>
      Appended(asked, t);
      CondensedWellFormed(c, overflow, asked + [AssistantMessage(t)]);
    case Failure(t) =>
      Appended(asked, t);
  }

  /** And it is the history the turn left in memory exactly when the last save took effect;
      or, with both that save and the write-ahead lost, when what was stored instead happens
      to be the same. */
  lemma StoresReplyExactly(c: Config, l: Loop, user: string, o: Outside)
    requires Begins(l, o) && WellFormed(Loaded(l))
    ensures var v := AfterTurn(c, l, user, o);
            Next(c, v, Rebuild(true)).mem == v.mem <==> o.endSaved || (!o.userSaved && v.mem == Untouched(c, l, o))
  {
    hide Trimmed, Condensed, EndFrom, AfterTurn, Closed, Untouched, WellFormed, Answered;
    TurnLeaves(c, l, user, o);
    TrimmedWellFormed(c, Loaded(l));
    Appended(Trimmed(c, Loaded(l)), user);
    ClosedAnswered(c, Asked(c, l, user), EndFrom(o.stream, 0, ""));
  }
}
