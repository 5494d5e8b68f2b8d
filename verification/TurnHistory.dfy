/** The message history of a session while turns run, sandboxes are rebuilt, and nodes crash:
    what is in memory, what has been stored, and what an adoption recovers. */
module TurnHistory {
  import opened Text
  import opened Context

  const INTERRUPTED := "[turn interrupted: the node running it failed before the turn completed]"

  const MAX_TURN_STEPS: nat := 199

  /** The context window and the part of it to keep free. */
  datatype Window = Window(maxContext: int, reserve: int)

  /** The window, if it is managed; and how older messages are summarized. */
  datatype Config = Config(window: Option<Window>, summarize: History -> string)

  /** Where the agent loop is in a turn, or in the recovery of a session. */
  datatype Phase =
    | Cold
    | Idle
    | Loading(user: string)
    | Trimming(user: string)
    | SavingTrim(user: string)
    | Writing(user: string)
    | SavingUser
    | Streaming
    | Condensing(overflow: bool)
    | SavingReply
    | SavingFailure
    | Sealing
    | SavingSeal

  /** The history in memory, whether it has been loaded, and the stored object. */
  datatype Loop = Loop(mem: History, ready: bool, disk: History, phase: Phase)

  /** How a turn's streaming ends. */
  datatype End = Reply(content: string, overflow: bool) | Failure(partial: string)

  /** Proceed carries out the next operation; ok tells whether a load succeeded, or a save
      replaced the stored object. A rebuilt sandbox comes with a new loop. A crash stands for
      an eviction, too. */
  datatype Event = Begin(user: string) | Proceed(ok: bool) | Stop(end: End)
      | Rebuild(ok: bool) | Crash | Adopt(ok: bool)

  function UserMessage(text: string): Message
  {
    Message(User, text, [])
  }

  function AssistantMessage(text: string): Message
  {
    Message(Assistant, text, [])
  }

  function Trimmed(c: Config, h: History): History
  {
    if c.window.None? then h else h[Dropped(h, c.window.value.maxContext - c.window.value.reserve)..]
  }

  function Condensed(c: Config, overflow: bool, h: History): History
  {
    if c.window.Some? && overflow then Compact(h, c.summarize) else h
  }

  /** The history ends with a user message. */
  predicate Dangling(h: History)
  {
    h != [] && h[|h| - 1].role.User?
  }

  lemma DanglingMeansUnanswered(h: History)
    requires WellFormed(h)
    ensures Dangling(h) <==> !Answered(h)
  {
    if h != [] {
      assert h[|h| - 1] in h;
    }
  }

  /** SealInterruptedTurn on a loaded history. */
  function Sealed(h: History): History
  {
    if Dangling(h) then h + [AssistantMessage(INTERRUPTED)] else h
  }

  function Save(l: Loop, ok: bool, next: Phase): Loop
  {
    l.(disk := if ok then l.mem else l.disk, phase := next)
  }

  function Operate(c: Config, l: Loop, ok: bool): Loop
  {
    match l.phase
    case Loading(user) =>
      if l.ready then l.(phase := Trimming(user))
      else if ok then l.(mem := l.disk, ready := true, phase := Trimming(user))
      else l.(phase := Idle)
    case Trimming(user) =>
      var h := Trimmed(c, l.mem);
      l.(mem := h, phase := if h == l.mem then Writing(user) else SavingTrim(user))
    case SavingTrim(user) => Save(l, ok, Writing(user))
    case Writing(user) => l.(mem := l.mem + [UserMessage(user)], phase := SavingUser)
    case SavingUser => Save(l, ok, Streaming)
    case Condensing(overflow) => l.(mem := Condensed(c, overflow, l.mem), phase := SavingReply)
    case SavingReply => Save(l, ok, Idle)
    case SavingFailure => Save(l, ok, Idle)
    case Sealing => l.(mem := Sealed(l.mem), phase := if Dangling(l.mem) then SavingSeal else Idle)
    case SavingSeal => Save(l, ok, Idle)
    case _ => l
  }

  function Next(c: Config, l: Loop, e: Event): Loop
  {
    match e
    case Begin(user) => if l.phase.Idle? then l.(phase := Loading(user)) else l
    case Proceed(ok) => Operate(c, l, ok)
    case Stop(Reply(content, overflow)) =>
      if l.phase.Streaming? then l.(mem := l.mem + [AssistantMessage(content)], phase := Condensing(overflow)) else l
    case Stop(Failure(partial)) =>
      if l.phase.Streaming? then l.(mem := l.mem + [AssistantMessage(partial)], phase := SavingFailure) else l
    case Rebuild(ok) => if l.phase.Idle? && ok then l.(mem := l.disk, ready := true) else l
    case Crash => Loop([], false, l.disk, Cold)
    case Adopt(ok) => if l.phase.Cold? && ok then l.(mem := l.disk, ready := true, phase := Sealing) else l
  }

  function Run(c: Config, l: Loop, events: seq<Event>): Loop
  {
    if events == [] then l else Next(c, Run(c, l, events[..|events| - 1]), events[|events| - 1])
  }

  lemma {:induction false} RunConcat(c: Config, l: Loop, a: seq<Event>, b: seq<Event>)
    ensures Run(c, l, a + b) == Run(c, Run(c, l, a), b)
  {
    if b == [] {
      assert a + b == a;
    } else {
      RunConcat(c, l, a, b[..|b| - 1]);
      assert (a + b)[..|a + b| - 1] == a + b[..|b| - 1];
    }
  }

  /** A load that fails changes nothing, be it for a turn, a rebuilt sandbox or an adoption;
      and one that succeeds makes the stored history the one in memory. */
  lemma LoadsExactly(c: Config, l: Loop, user: string)
    ensures Run(c, l, [Rebuild(false)]) == l == Run(c, l, [Adopt(false)])
    ensures l.phase.Idle? && !l.ready ==> Run(c, l, [Begin(user)] + [Proceed(false)]) == l
    ensures l.phase.Idle? ==> Run(c, l, [Rebuild(true)]) == l.(mem := l.disk, ready := true)
    ensures l.phase.Idle? && !l.ready ==>
              Run(c, l, [Begin(user)] + [Proceed(true)]) == l.(mem := l.disk, ready := true, phase := Trimming(user))
    ensures l.phase.Cold? ==> Run(c, l, [Adopt(true)]) == Loop(l.disk, true, l.disk, Sealing)
  {
    RunOne(c, l, Rebuild(false));
    RunOne(c, l, Rebuild(true));
    RunOne(c, l, Adopt(false));
    RunOne(c, l, Adopt(true));
    RunOne(c, l, Begin(user));
    RunConcat(c, l, [Begin(user)], [Proceed(false)]);
    RunConcat(c, l, [Begin(user)], [Proceed(true)]);
    RunOne(c, Run(c, l, [Begin(user)]), Proceed(false));
    RunOne(c, Run(c, l, [Begin(user)]), Proceed(true));
  }

  lemma RunOne(c: Config, l: Loop, e: Event)
    ensures Run(c, l, [e]) == Next(c, l, e)
  {
    assert [e][..0] == [];
  }

  // ----- the grammar, over every run -----

  predicate HasUser(p: Phase)
  {
    p.SavingUser? || p.Streaming?
  }

  predicate HasAnswer(p: Phase)
  {
    p.Condensing? || p.SavingReply? || p.SavingFailure? || p.SavingSeal?
  }

  /** Both histories are well formed; between write-ahead and reply the last message in memory
      is the user's, and after it the assistant's. */
  predicate Grammar(l: Loop)
  {
    && WellFormed(l.mem) && WellFormed(l.disk)
    && (HasUser(l.phase) ==> !Answered(l.mem))
    && (HasAnswer(l.phase) ==> Answered(l.mem))
  }

  lemma TrimmedWellFormed(c: Config, h: History)
    requires WellFormed(h)
    ensures WellFormed(Trimmed(c, h))
    ensures Answered(h) ==> Answered(Trimmed(c, h))
  {
    if c.window.Some? {
      LongestThatFits(h, c.window.value.maxContext - c.window.value.reserve);
    }
  }

  lemma CondensedWellFormed(c: Config, overflow: bool, h: History)
    requires WellFormed(h)
    ensures WellFormed(Condensed(c, overflow, h))
    ensures Answered(h) ==> Answered(Condensed(c, overflow, h))
  {
    CompactWellFormed(h, c.summarize);
  }

  /** The shapes a step can give the history in memory. */
  lemma Appended(h: History, text: string)
    requires WellFormed(h)
    ensures WellFormed(h + [UserMessage(text)]) && !Answered(h + [UserMessage(text)])
    ensures !Answered(h) ==> WellFormed(h + [AssistantMessage(text)])
    ensures Answered(h + [AssistantMessage(text)])
  {
    AppendWellFormed(h, UserMessage(text));
    if !Answered(h) {
      AppendWellFormed(h, AssistantMessage(text));
    }
  }

  lemma EmptyWellFormed()
    ensures WellFormed([])
  {
  }

  /** The operations that change the history in memory. */
  predicate Rewrites(p: Phase)
  {
    p.Trimming? || p.Writing? || p.Condensing? || p.Sealing?
  }

  lemma TrimGrammar(c: Config, l: Loop, ok: bool)
    requires Grammar(l) && l.phase.Trimming?
    ensures Grammar(Operate(c, l, ok))
  {
    hide Trimmed, WellFormed, Answered;
    TrimmedWellFormed(c, l.mem);
  }

  lemma WriteGrammar(c: Config, l: Loop, ok: bool)
    requires Grammar(l) && (l.phase.Writing? || l.phase.Sealing?)
    ensures Grammar(Operate(c, l, ok))
  {
    hide WellFormed, Answered;
    Appended(l.mem, if l.phase.Writing? then l.phase.user else INTERRUPTED);
    DanglingMeansUnanswered(l.mem);
  }

  lemma CondenseGrammar(c: Config, l: Loop, ok: bool)
    requires Grammar(l) && l.phase.Condensing?
    ensures Grammar(Operate(c, l, ok))
  {
    hide Condensed, WellFormed, Answered;
    CondensedWellFormed(c, l.phase.overflow, l.mem);
  }

  lemma SaveGrammar(c: Config, l: Loop, ok: bool)
    requires Grammar(l) && !Rewrites(l.phase)
    ensures Grammar(Operate(c, l, ok))
  {
    hide WellFormed, Answered;
  }

  lemma NextGrammar(c: Config, l: Loop, e: Event)
    requires Grammar(l)
    ensures Grammar(Next(c, l, e))
  {
    hide Operate, WellFormed, Answered;
    EmptyWellFormed();
    match e
    case Proceed(ok) =>
      match l.phase {
        case Trimming(_) => TrimGrammar(c, l, ok);
        case Writing(_) => WriteGrammar(c, l, ok);
        case Sealing => WriteGrammar(c, l, ok);
        case Condensing(_) => CondenseGrammar(c, l, ok);
        case _ => SaveGrammar(c, l, ok);
      }
    case Stop(Reply(content, _)) => Appended(l.mem, content);
    case Stop(Failure(partial)) => Appended(l.mem, partial);
    case _ =>
  }

  /** Whatever saves and loads fail, and wherever nodes crash or sandboxes are rebuilt: the
      history in memory and the stored one stay well formed. */
  lemma {:induction false} GrammarKept(c: Config, l: Loop, events: seq<Event>)
    requires Grammar(l)
    ensures Grammar(Run(c, l, events))
  {
    hide Next, Grammar;
    if events != [] {
      GrammarKept(c, l, events[..|events| - 1]);
      NextGrammar(c, Run(c, l, events[..|events| - 1]), events[|events| - 1]);
    }
  }

  // ----- saves that succeed -----

  /** Saves and loads succeed whenever they are made. */
  predicate Succeeds(e: Event)
  {
    match e
    case Proceed(ok) => ok
    case _ => true
  }

  /** What is stored while saves succeed: everything, except what has changed since the save
      before. */
  predicate Stored(l: Loop)
  {
    match l.phase
    case Cold => true
    case Idle => Answered(l.disk) && (l.ready ==> l.mem == l.disk)
    case Loading(_) => Answered(l.disk) && (l.ready ==> l.mem == l.disk)
    case Trimming(_) => l.ready && l.mem == l.disk && Answered(l.mem)
    case SavingTrim(_) => l.ready && Answered(l.mem)
    case Writing(_) => l.ready && l.mem == l.disk && Answered(l.mem)
    case SavingUser => l.ready
    case Streaming => l.ready && l.mem == l.disk
    case Sealing => l.ready && l.mem == l.disk
    case _ => l.ready
  }

  lemma OperateStored(c: Config, l: Loop)
    requires Grammar(l) && Stored(l)
    ensures Stored(Operate(c, l, true))
  {
    hide Trimmed, Condensed, WellFormed, Answered;
    TrimmedWellFormed(c, l.mem);
    if l.phase.Condensing? {
      CondensedWellFormed(c, l.phase.overflow, l.mem);
    }
    Appended(l.mem, INTERRUPTED);
    DanglingMeansUnanswered(l.mem);
  }

  lemma NextStored(c: Config, l: Loop, e: Event)
    requires Grammar(l) && Stored(l) && Succeeds(e)
    ensures Stored(Next(c, l, e))
  {
    hide Operate, WellFormed, Answered;
    if e.Proceed? {
      OperateStored(c, l);
    }
  }

  /** As long as saves succeed, an idle session's history is the stored one and ends with an
      assistant's message, through any crashes and rebuilds. */
  lemma {:induction false} SavesKeepAnswers(c: Config, l: Loop, events: seq<Event>)
    requires Grammar(l) && Stored(l) && forall e <- events :: Succeeds(e)
    ensures var v := Run(c, l, events);
            Grammar(v) && Stored(v) && (v.phase.Idle? && v.ready ==> v.mem == v.disk && Answered(v.mem))
  {
    hide Next, Grammar, Succeeds;
    if events != [] {
      var init := events[..|events| - 1];
      assert forall e <- init :: e in events;
      SavesKeepAnswers(c, l, init);
      NextGrammar(c, Run(c, l, init), events[|events| - 1]);
      NextStored(c, Run(c, l, init), events[|events| - 1]);
    }
  }

  /** Without them it may not: when the last save of a turn fails, a rebuilt sandbox reloads a
      history that ends with the user's message, and nothing seals it. */
  lemma LostReply(c: Config, user: string, partial: string)
    requires c.window.None?
    ensures exists events ::
              var v := Run(c, Loop([], true, [], Idle), events);
              v.phase.Idle? && v.ready && v.mem == [UserMessage(user)]
  {
    hide Run, Next;
    var l := Loop([], true, [], Idle);
    var start := [Begin(user), Proceed(true), Proceed(true)];
    var write := [Proceed(true), Proceed(true), Stop(Failure(partial))];
    var lose := [Proceed(false), Rebuild(true)];
    RunThree(c, l, start);
    StartsTurn(c, user);
    RunThree(c, Loop([], true, [], Writing(user)), write);
    FailsTurn(c, user, partial);
    RunTwo(c, Loop([UserMessage(user), AssistantMessage(partial)], true, [UserMessage(user)], SavingFailure), lose);
    RebuildLoses(c, user, partial);
    RunConcat(c, l, start, write);
    RunConcat(c, l, start + write, lose);
    assert Run(c, l, start + write + lose).mem == [UserMessage(user)];
  }

  lemma StartsTurn(c: Config, user: string)
    requires c.window.None?
    ensures Next(c, Next(c, Next(c, Loop([], true, [], Idle), Begin(user)), Proceed(true)), Proceed(true))
            == Loop([], true, [], Writing(user))
  {
  }

  lemma FailsTurn(c: Config, user: string, partial: string)
    ensures Next(c, Next(c, Next(c, Loop([], true, [], Writing(user)), Proceed(true)), Proceed(true)),
                   Stop(Failure(partial)))
            == Loop([UserMessage(user), AssistantMessage(partial)], true, [UserMessage(user)], SavingFailure)
  {
    assert [] + [UserMessage(user)] == [UserMessage(user)];
    assert [UserMessage(user)] + [AssistantMessage(partial)] == [UserMessage(user), AssistantMessage(partial)];
  }

  lemma RebuildLoses(c: Config, user: string, partial: string)
    ensures var l := Loop([UserMessage(user), AssistantMessage(partial)], true, [UserMessage(user)], SavingFailure);
            Next(c, Next(c, l, Proceed(false)), Rebuild(true))
            == Loop([UserMessage(user)], true, [UserMessage(user)], Idle)
  {
  }

  lemma RunTwo(c: Config, l: Loop, es: seq<Event>)
    requires |es| == 2
    ensures Run(c, l, es) == Next(c, Next(c, l, es[0]), es[1])
  {
    hide Next;
    assert es[..1][..0] == [] && es[..1][0] == es[0];
    assert Run(c, l, es[..1]) == Next(c, l, es[0]);
  }

  lemma RunThree(c: Config, l: Loop, es: seq<Event>)
    requires |es| == 3
    ensures Run(c, l, es) == Next(c, Next(c, Next(c, l, es[0]), es[1]), es[2])
  {
    hide Next;
    RunTwo(c, l, es[..2]);
  }

  // ----- a crash in the middle of a turn -----

  /** base is the history the turn began with, trimmed; m continues it with the user's message
      and an assistant message, perhaps condensed. */
  ghost predicate Exchanged(c: Config, base: History, user: string, m: History)
  {
    exists text, overflow :: m == Condensed(c, overflow, base + [UserMessage(user)] + [AssistantMessage(text)])
  }

  ghost predicate InTurn(c: Config, l: Loop, h: History, user: string)
  {
    var base := Trimmed(c, h);
    var asked := base + [UserMessage(user)];
    && l.ready
    && match l.phase
       case Loading(u) => u == user && l.mem == l.disk == h
       case Trimming(u) => u == user && l.mem == l.disk == h
       case SavingTrim(u) => u == user && l.mem == base && l.disk == h
       case Writing(u) => u == user && l.mem == l.disk == base
       case SavingUser => l.mem == asked && l.disk == base
       case Streaming => l.mem == asked && l.disk == asked
       case Condensing(_) => (exists text :: l.mem == asked + [AssistantMessage(text)]) && l.disk == asked
       case SavingReply => Exchanged(c, base, user, l.mem) && l.disk == asked
       case SavingFailure => Exchanged(c, base, user, l.mem) && l.disk == asked
       case Idle => l.mem == l.disk && Exchanged(c, base, user, l.mem)
       case _ => false
  }

  lemma NotCondensed(c: Config, h: History)
    ensures Condensed(c, false, h) == h
  {
  }

  lemma StepInTurn(c: Config, l: Loop, e: Event, h: History, user: string)
    requires InTurn(c, l, h, user) && (e == Proceed(true) || e.Stop?)
    ensures InTurn(c, Next(c, l, e), h, user)
  {
    hide Trimmed, Condensed;
    var v := Next(c, l, e);
    var asked := Trimmed(c, h) + [UserMessage(user)];
    if l.phase.Streaming? && e.Stop? && e.end.Failure? {
      NotCondensed(c, asked + [AssistantMessage(e.end.partial)]);
      assert v.mem == Condensed(c, false, asked + [AssistantMessage(e.end.partial)]);
    }
    if l.phase.Condensing? && e.Proceed? {
      var text :| l.mem == asked + [AssistantMessage(text)];
      assert v.mem == Condensed(c, l.phase.overflow, asked + [AssistantMessage(text)]);
    }
  }

  lemma {:induction false} RunInTurn(c: Config, l: Loop, events: seq<Event>, h: History, user: string)
    requires InTurn(c, l, h, user) && forall e <- events :: e == Proceed(true) || e.Stop?
    ensures InTurn(c, Run(c, l, events), h, user)
  {
    hide Next, InTurn;
    if events != [] {
      var init := events[..|events| - 1];
      assert forall e <- init :: e in events;
      RunInTurn(c, l, init, h, user);
      StepInTurn(c, Run(c, l, init), events[|events| - 1], h, user);
    }
  }

  /** The node crashes; another adopts the session, loads its history and seals it. */
  function Recovery(): seq<Event>
  {
    [Crash, Adopt(true)] + [Proceed(true), Proceed(true)]
  }

  lemma RecoveryYields(c: Config, l: Loop)
    ensures Run(c, l, Recovery()) == Loop(Sealed(l.disk), true, Sealed(l.disk), Idle)
  {
    RunConcat(c, l, [Crash, Adopt(true)], [Proceed(true), Proceed(true)]);
    RunTwo(c, l, [Crash, Adopt(true)]);
    var a := Loop(l.disk, true, l.disk, Sealing);
    RunTwo(c, a, [Proceed(true), Proceed(true)]);
  }

  lemma SealTwice(h: History)
    ensures Sealed(Sealed(h)) == Sealed(h)
    ensures WellFormed(h) ==> Answered(Sealed(h))
  {
    if WellFormed(h) {
      DanglingMeansUnanswered(h);
    }
  }

  /** A turn that begins with an answered, stored history h and whose saves succeed: wherever
      the node crashes, recovery yields an answered history, which is h (perhaps trimmed)
      until the user's message has been stored; then that with the user's message and the
      interruption marker, until the end of the turn has been stored; and then the history
      the turn left. Recovering again changes nothing. */
  lemma {:induction false} CrashRecovery(c: Config, h: History, user: string, events: seq<Event>)
    requires WellFormed(h) && Answered(h)
    requires forall e <- events :: e == Proceed(true) || e.Stop?
    ensures var l := Run(c, Loop(h, true, h, Loading(user)), events);
            var r := Run(c, l, Recovery());
            var base := Trimmed(c, h);
            && r.phase.Idle? && r.mem == r.disk && WellFormed(r.mem) && Answered(r.mem)
            && Run(c, r, Recovery()) == r
            && match l.phase
               case Idle => r.mem == l.mem && Exchanged(c, base, user, r.mem)
               case Loading(_) => r.mem == h
               case Trimming(_) => r.mem == h
               case SavingTrim(_) => r.mem == h
               case Writing(_) => r.mem == base
               case SavingUser => r.mem == base
               case _ => r.mem == base + [UserMessage(user), AssistantMessage(INTERRUPTED)]
  {
    hide Run, Trimmed, Exchanged, WellFormed;
    var start := Loop(h, true, h, Loading(user));
    var l := Run(c, start, events);
    RunInTurn(c, start, events, h, user);
    GrammarKept(c, start, events);
    RecoveryYields(c, l);
    SealTwice(l.disk);
    DanglingMeansUnanswered(l.disk);
    RecoveryYields(c, Run(c, l, Recovery()));
    GrammarKept(c, l, Recovery());
    TrimmedWellFormed(c, h);
    var asked := Trimmed(c, h) + [UserMessage(user)];
    assert asked + [AssistantMessage(INTERRUPTED)]
          == Trimmed(c, h) + [UserMessage(user), AssistantMessage(INTERRUPTED)];
    if l.phase.Idle? {
      StoredAtEnd(c, start, events);
    }
  }

  lemma StoredAtEnd(c: Config, start: Loop, events: seq<Event>)
    requires WellFormed(start.mem) && Answered(start.mem)
    requires start.mem == start.disk && start.phase.Loading? && start.ready
    requires forall e <- events :: e == Proceed(true) || e.Stop?
    ensures var l := Run(c, start, events); l.phase.Idle? ==> Answered(l.disk)
  {
    hide Run;
    assert forall e <- events :: Succeeds(e);
    SavesKeepAnswers(c, start, events);
  }
}
