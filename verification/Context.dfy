/** Keeping a message history inside the model's context window: dropping the oldest turns,
    and condensing them into a summary. */
module Context {
  import opened Text
  import opened Llm
  import opened Truncate
  import Utf8

  datatype Role = User | Assistant | Tool | System

  datatype Message = Message(role: Role, content: string, toolCalls: seq<ToolCall>)

  type History = seq<Message>

  const CHARS_PER_TOKEN := 4
  const KEEP_RECENT_TURNS := 2

  // ----- the grammar of a history -----

  /** It starts with a user message, has only user and assistant messages, and no two
      assistant messages in a row. */
  predicate WellFormed(h: History)
  {
    && (h != [] ==> h[0].role.User?)
    && (forall m <- h :: m.role.User? || m.role.Assistant?)
    && (forall i :: 0 < i < |h| && h[i].role.Assistant? ==> h[i - 1].role.User?)
  }

  /** The last message, if there is one, is an assistant's. Messages before it may be without
      an answer. */
  predicate Answered(h: History)
  {
    h == [] || h[|h| - 1].role.Assistant?
  }

  /** Nothing but {user, assistant} pairs. */
  predicate Pairs(h: History)
  {
    |h| % 2 == 0 && forall i :: 0 <= i < |h| ==> h[i].role == if i % 2 == 0 then User else Assistant
  }

  lemma PairsWellFormed(h: History)
    requires Pairs(h)
    ensures WellFormed(h) && Answered(h)
  {
  }

  /** A suffix of pairs that begins at a user message is pairs. */
  lemma PairsSuffix(h: History, k: nat)
    requires Pairs(h) && k <= |h| && (k < |h| ==> h[k].role.User?)
    ensures Pairs(h[k..])
  {
    assert k % 2 == 0;
    assert forall i :: 0 <= i < |h[k..]| ==> h[k..][i] == h[k + i];
  }

  /** An exchange more keeps pairs, and makes none. */
  lemma PairsAppend(h: History, user: Message, reply: Message)
    requires user.role.User? && reply.role.Assistant?
    ensures Pairs(h + [user] + [reply]) <==> Pairs(h)
    ensures !Pairs(h + [user])
  {
    var m := h + [user] + [reply];
    assert m[|h|] == user && m[|h| + 1] == reply;
    assert forall i :: 0 <= i < |h| ==> m[i] == h[i];
    assert (h + [user])[|h|] == user;
  }

  lemma SuffixWellFormed(h: History, k: nat)
    requires WellFormed(h) && k <= |h| && (k < |h| ==> h[k].role.User?)
    ensures WellFormed(h[k..])
  {
    forall i | 0 < i < |h[k..]| && h[k..][i].role.Assistant?
      ensures h[k..][i - 1].role.User?
    {
      assert h[k..][i] == h[k + i] && h[k..][i - 1] == h[k + i - 1];
    }
  }

  lemma AppendWellFormed(h: History, m: Message)
    requires WellFormed(h) && (m.role.User? || (m.role.Assistant? && h != [] && !Answered(h)))
    ensures WellFormed(h + [m])
  {
  }

  // ----- estimates -----

  function EstimateTokens(text: string): nat
  {
    (|text| + CHARS_PER_TOKEN - 1) / CHARS_PER_TOKEN
  }

  function EstimateCalls(calls: seq<ToolCall>): nat
  {
    if calls == [] then 0
    else
      var c := calls[|calls| - 1];
      EstimateCalls(calls[..|calls| - 1]) + EstimateTokens(c.name) + EstimateTokens(c.arguments)
  }

  function EstimateOne(m: Message): nat
  {
    EstimateTokens(m.content) + EstimateCalls(m.toolCalls)
  }

  function Estimate(msgs: History): nat
  {
    if msgs == [] then 0 else Estimate(msgs[..|msgs| - 1]) + EstimateOne(msgs[|msgs| - 1])
  }

  method EstimateMessageTokens(msgs: History) returns (total: nat)
    ensures total == Estimate(msgs)
  {
    total := 0;
    var i := 0;
    while i < |msgs|
      invariant 0 <= i <= |msgs|
      invariant total == Estimate(msgs[..i])
    {
      var m := msgs[i];
      total := total + EstimateTokens(m.content);
      var k := 0;
      while k < |m.toolCalls|
        invariant 0 <= k <= |m.toolCalls|
        invariant total == Estimate(msgs[..i]) + EstimateTokens(m.content) + EstimateCalls(m.toolCalls[..k])
      {
        total := total + EstimateTokens(m.toolCalls[k].name) + EstimateTokens(m.toolCalls[k].arguments);
        assert m.toolCalls[..k + 1][..k] == m.toolCalls[..k];
        k := k + 1;
      }
      assert m.toolCalls[..k] == m.toolCalls;
      assert msgs[..i + 1][..i] == msgs[..i];
      i := i + 1;
    }
    assert msgs[..i] == msgs;
  }

  lemma {:induction false} EstimateSplits(a: History, b: History)
    ensures Estimate(a + b) == Estimate(a) + Estimate(b)
  {
    if b == [] {
      assert a + b == a;
    } else {
      EstimateSplits(a, b[..|b| - 1]);
      assert (a + b)[..|a + b| - 1] == a + b[..|b| - 1];
    }
  }

  /** The characters that a history sends to the model, and the texts they come in. */
  function CallChars(calls: seq<ToolCall>): nat
  {
    if calls == [] then 0 else CallChars(calls[1..]) + |calls[0].name| + |calls[0].arguments|
  }

  function Chars(h: History): nat
  {
    if h == [] then 0 else |h[0].content| + CallChars(h[0].toolCalls) + Chars(h[1..])
  }

  function TextCount(h: History): nat
  {
    if h == [] then 0 else 1 + 2 * |h[0].toolCalls| + TextCount(h[1..])
  }

  lemma {:induction false} CallsEstimated(calls: seq<ToolCall>)
    ensures CallChars(calls) <= CHARS_PER_TOKEN * EstimateCalls(calls) <= CallChars(calls) + 3 * 2 * |calls|
  {
    if calls != [] {
      CallsEstimated(calls[..|calls| - 1]);
      CallCharsMore(calls[..|calls| - 1], calls[|calls| - 1]);
      assert calls == calls[..|calls| - 1] + [calls[|calls| - 1]];
    }
  }

  lemma {:induction false} CallCharsMore(calls: seq<ToolCall>, c: ToolCall)
    ensures CallChars(calls + [c]) == CallChars(calls) + |c.name| + |c.arguments|
  {
    if calls == [] {
      assert [c][1..] == [];
    } else {
      assert (calls + [c])[1..] == calls[1..] + [c];
      CallCharsMore(calls[1..], c);
    }
  }

  lemma {:induction false} CharsMore(h: History, m: Message)
    ensures Chars(h + [m]) == Chars(h) + |m.content| + CallChars(m.toolCalls)
    ensures TextCount(h + [m]) == TextCount(h) + 1 + 2 * |m.toolCalls|
  {
    if h == [] {
      assert [m][1..] == [];
    } else {
      assert (h + [m])[1..] == h[1..] + [m];
      CharsMore(h[1..], m);
    }
  }

  /** Four characters are a token, and each text is rounded up on its own: contents, and the
      names and arguments of tool calls. */
  lemma {:induction false} EstimateCountsChars(h: History)
    ensures Chars(h) <= CHARS_PER_TOKEN * Estimate(h) <= Chars(h) + 3 * TextCount(h)
  {
    if h != [] {
      var init, m := h[..|h| - 1], h[|h| - 1];
      EstimateCountsChars(init);
      CharsMore(init, m);
      CallsEstimated(m.toolCalls);
      assert h == init + [m];
    }
  }

  /** Dropping messages from the front never makes the estimate larger. */
  lemma EstimateShrinks(h: History, j: nat, k: nat)
    requires j <= k <= |h|
    ensures Estimate(h[k..]) <= Estimate(h[j..])
  {
    EstimateSplits(h[j..k], h[k..]);
    assert h[j..k] + h[k..] == h[j..];
  }

  // ----- TruncateToFit -----

  predicate Fits(h: History, budget: int)
  {
    budget > 0 && Estimate(h) <= budget
  }

  /** Where the turn that begins at k ends: after the user message, and the assistant's if it
      follows. */
  function TurnEnd(h: History, k: nat): (n: nat)
    requires k + 1 < |h|
    ensures k < n <= |h|
  {
    if h[k + 1].role.Assistant? then k + 2 else k + 1
  }

  /** Where dropping stops that has got to position k. */
  function DropFrom(h: History, k: nat, budget: int): (n: nat)
    requires k <= |h|
    ensures k <= n <= |h|
    decreases |h| - k
  {
    if k == |h| || Fits(h[k..], budget) || !h[k].role.User? || |h| - k <= 2 then k
    else DropFrom(h, TurnEnd(h, k), budget)
  }

  /** The number of messages dropped from h: whole turns, until the rest fits. */
  function Dropped(h: History, budget: int): (n: nat)
    ensures n <= |h|
  {
    DropFrom(h, 0, budget)
  }

  method TruncateToFit(history: History, maxContext: int, reserve: int) returns (out: History, changed: bool)
    ensures out == history[Dropped(history, maxContext - reserve)..]
    ensures changed <==> Dropped(history, maxContext - reserve) > 0
  {
    hide Estimate, EstimateOne;
    var budget := maxContext - reserve;
    var total := EstimateMessageTokens(history);
    if budget > 0 && total <= budget {
      return history, false;
    }
    out, changed := history, false;
    ghost var k := 0;
    assert history[0..] == history;
    while out != []
      invariant 0 <= k <= |history| && out == history[k..] && changed == (k > 0)
      invariant Dropped(history, budget) == DropFrom(history, k, budget)
      decreases |out|
    {
      total := EstimateMessageTokens(out);
      if budget > 0 && total <= budget {
        break;
      }
      var head := out[0];
      if !head.role.User? || |out| <= 2 {
        break;
      }
      assert out[1..] == history[k + 1..] && history[k + 1..][1..] == history[k + 2..];
      out, k := out[1..], k + 1;
      if out != [] && out[0].role.Assistant? {
        out, k := out[1..], k + 1;
      }
      changed := true;
    }
  }

  /** In a well-formed history another turn begins where one ends. */
  lemma TurnEnds(h: History, k: nat)
    requires WellFormed(h) && |h| - k > 2 && h[k].role.User?
    ensures TurnEnd(h, k) < |h| && h[TurnEnd(h, k)].role.User?
    ensures forall j :: k < j < TurnEnd(h, k) ==> !h[j].role.User?
  {
    assert h[k + 1] in h && h[k + 2] in h;
  }

  lemma {:induction false} StopsAtFirstFit(h: History, k: nat, budget: int)
    requires WellFormed(h) && k < |h| && h[k].role.User?
    ensures var n := DropFrom(h, k, budget);
            && n < |h| && h[n].role.User? && (Fits(h[n..], budget) || |h| - n <= 2)
            && forall j :: k <= j < n && h[j].role.User? ==> !Fits(h[j..], budget) && |h| - j > 2
    decreases |h| - k
  {
    hide Fits, WellFormed, TurnEnd;
    if !Fits(h[k..], budget) && |h| - k > 2 {
      TurnEnds(h, k);
      StopsAtFirstFit(h, TurnEnd(h, k), budget);
    }
  }

  /** On a well-formed history what is kept is well formed, begins at a user message, and is
      the longest such suffix that fits the budget, or else the first one of at most two
      messages. */
  lemma LongestThatFits(h: History, budget: int)
    requires WellFormed(h)
    ensures var k := Dropped(h, budget);
            && WellFormed(h[k..])
            && (h != [] ==> k < |h| && h[k].role.User?)
            && (h == [] || (0 < budget && Estimate(h[k..]) <= budget) || |h| - k <= 2)
            && forall j :: 0 <= j < k && h[j].role.User? ==>
                 (budget <= 0 || Estimate(h[j..]) > budget) && |h| - j > 2
  {
    hide Estimate, DropFrom;
    if h != [] {
      StopsAtFirstFit(h, 0, budget);
      SuffixWellFormed(h, Dropped(h, budget));
    }
  }

  /** It stays the longest among all suffixes that fit, wherever they begin. */
  lemma NothingLongerFits(h: History, budget: int, j: nat)
    requires WellFormed(h) && j < Dropped(h, budget) && h[j].role.User?
    ensures forall i :: 0 <= i <= j ==> budget <= 0 || Estimate(h[i..]) > budget
  {
    LongestThatFits(h, budget);
    forall i | 0 <= i <= j
      ensures budget <= 0 || Estimate(h[i..]) > budget
    {
      EstimateShrinks(h, i, j);
    }
  }

  // ----- the last user message -----

  predicate LastUser(h: History, u: nat)
  {
    u < |h| && h[u].role.User? && forall i :: u < i < |h| ==> !h[i].role.User?
  }

  /** Dropping whole turns, from position k on, can get to position u. */
  predicate Reaches(h: History, k: nat, u: nat)
    decreases |h| - k
  {
    k == u || (k < u && k + 2 < |h| && h[k].role.User? && Reaches(h, TurnEnd(h, k), u))
  }

  lemma {:induction false} DropsUnderPressure(h: History, k: nat, u: nat)
    requires LastUser(h, u) && k <= |h|
    ensures k <= u ==> (DropFrom(h, k, 0) > u <==> Reaches(h, k, u) && |h| - u > 2)
    ensures k > u ==> !Reaches(h, k, u)
    decreases |h| - k
  {
    if k + 2 < |h| && h[k].role.User? {
      DropsUnderPressure(h, TurnEnd(h, k), u);
    }
  }

  /** A smaller budget drops no less. */
  lemma {:induction false} DropsMore(h: History, k: nat, budget: int)
    requires k <= |h|
    ensures DropFrom(h, k, budget) <= DropFrom(h, k, 0)
    decreases |h| - k
  {
    hide Estimate, TurnEnd;
    if k + 2 < |h| && !Fits(h[k..], budget) && h[k].role.User? {
      DropsMore(h, TurnEnd(h, k), budget);
    }
  }

  /** The last user message survives every budget exactly when at most one message follows
      it, or the dropping cannot get to it. */
  lemma LastUserKeptExactly(h: History, u: nat)
    requires LastUser(h, u)
    ensures (forall budget: int :: Dropped(h, budget) <= u) <==> |h| - u <= 2 || !Reaches(h, 0, u)
  {
    DropsUnderPressure(h, 0, u);
    forall budget: int
      ensures Dropped(h, budget) <= Dropped(h, 0)
    {
      DropsMore(h, 0, budget);
    }
  }

  lemma UserAmongTwo(h: History, u: nat)
    requires WellFormed(h) && u + 2 < |h|
    ensures h[u + 1].role.User? || h[u + 2].role.User?
  {
    assert h[u + 2] in h;
  }

  /** So it always survives in a well-formed history. */
  lemma LastUserKept(h: History, u: nat, budget: int)
    requires WellFormed(h) && LastUser(h, u)
    ensures Dropped(h, budget) <= u
  {
    LastUserKeptExactly(h, u);
    if u + 2 < |h| {
      UserAmongTwo(h, u);
    }
  }

  /** And it is lost in a history with two assistant messages after it. */
  lemma LastUserLost(text: string)
    ensures var m := r => Message(r, text, []); var h := [m(User), m(Assistant), m(Assistant)];
            LastUser(h, 0) && Dropped(h, 0) == 2
  {
    var m := r => Message(r, text, []);
    var h := [m(User), m(Assistant), m(Assistant)];
    assert TurnEnd(h, 0) == 2 && DropFrom(h, 2, 0) == 2;
  }

  // ----- compaction -----

  /** The positions of the user messages. */
  function Users(h: History): (us: seq<nat>)
    ensures forall i :: 0 <= i < |us| ==> us[i] < |h|
  {
    if h == [] then []
    else
      var us := Users(h[..|h| - 1]);
      if h[|h| - 1].role.User? then us + [|h| - 1] else us
  }

  lemma {:induction false} UsersAre(h: History, i: nat)
    requires i < |Users(h)|
    ensures h[Users(h)[i]].role.User?
    ensures i > 0 ==> Users(h)[i - 1] < Users(h)[i]
  {
    if i < |Users(h[..|h| - 1])| {
      UsersAre(h[..|h| - 1], i);
    }
  }

  function Cutoff(h: History, keep: nat): (cut: nat)
    ensures cut <= |h|
  {
    if keep == 0 || |Users(h)| <= keep then 0 else Users(h)[|Users(h)| - keep]
  }

  method CompactCutoff(history: History, keepTurns: nat) returns (cutoff: nat)
    requires keepTurns > 0
    ensures cutoff == Cutoff(history, keepTurns)
  {
    var userIdx: seq<nat> := [];
    var i := 0;
    while i < |history|
      invariant 0 <= i <= |history|
      invariant userIdx == Users(history[..i])
    {
      assert history[..i + 1][..i] == history[..i];
      if history[i].role.User? {
        userIdx := userIdx + [i];
      }
      i := i + 1;
    }
    assert history[..i] == history;
    if |userIdx| <= keepTurns {
      return 0;
    }
    return userIdx[|userIdx| - keepTurns];
  }

  function SummaryMessage(summary: string): Message
  {
    Message(User, "<context-summary>\n" + summary + "\n</context-summary>", [])
  }

  /** Whatever the summary of the older messages says. */
  function Compact(h: History, summarize: History -> string): History
  {
    var cut := Cutoff(h, KEEP_RECENT_TURNS);
    if cut == 0 then h else [SummaryMessage(summarize(h[..cut]))] + h[cut..]
  }

  /** The last turns are kept verbatim: a compacted history is one user message, standing for
      everything before the last two user messages, and then the rest as it was. */
  lemma CompactKeepsRecent(h: History, summarize: History -> string)
    ensures var cut := Cutoff(h, KEEP_RECENT_TURNS);
            && (cut > 0 <==> |Users(h)| > KEEP_RECENT_TURNS)
            && (cut > 0 ==> cut < |h| && h[cut].role.User? && |Users(h[cut..])| == KEEP_RECENT_TURNS
                            && Compact(h, summarize)[0].role.User? && Compact(h, summarize)[1..] == h[cut..])
            && (cut == 0 ==> Compact(h, summarize) == h)
            && (cut > 0 ==> Compact(h, summarize)[0]
                            == Message(User, "<context-summary>\n" + summarize(h[..cut]) + "\n</context-summary>", []))
  {
    var us := Users(h);
    var cut := Cutoff(h, KEEP_RECENT_TURNS);
    if |us| > KEEP_RECENT_TURNS {
      UsersAre(h, |us| - 2);
      UsersOfSuffix(h, |us| - 2);
    }
  }

  function CountUsers(h: History): nat
  {
    if h == [] then 0 else CountUsers(h[..|h| - 1]) + if h[|h| - 1].role.User? then 1 else 0
  }

  lemma {:induction false} CountUsersSplits(a: History, b: History)
    ensures CountUsers(a + b) == CountUsers(a) + CountUsers(b)
  {
    if b == [] {
      assert a + b == a;
    } else {
      CountUsersSplits(a, b[..|b| - 1]);
      assert (a + b)[..|a + b| - 1] == a + b[..|b| - 1];
    }
  }

  lemma {:induction false} UsersCounted(h: History)
    ensures |Users(h)| == CountUsers(h)
  {
    if h != [] {
      UsersCounted(h[..|h| - 1]);
    }
  }

  lemma {:induction false} UsersBefore(h: History, i: nat)
    requires i < |Users(h)|
    ensures CountUsers(h[..Users(h)[i]]) == i
  {
    var init := h[..|h| - 1];
    if i < |Users(init)| {
      UsersBefore(init, i);
      assert h[..Users(h)[i]] == init[..Users(init)[i]];
    } else {
      UsersCounted(init);
    }
  }

  /** The user messages from the i-th on are those of the suffix that begins there. */
  lemma UsersOfSuffix(h: History, i: nat)
    requires i < |Users(h)|
    ensures |Users(h[Users(h)[i]..])| == |Users(h)| - i
  {
    var u := Users(h)[i];
    UsersBefore(h, i);
    UsersCounted(h);
    UsersCounted(h[u..]);
    CountUsersSplits(h[..u], h[u..]);
    assert h[..u] + h[u..] == h;
  }

  lemma SummaryWellFormed(rest: History, summary: string)
    requires WellFormed(rest)
    ensures WellFormed([SummaryMessage(summary)] + rest)
  {
  }

  /** The summary stands alone: what compaction has changed is not pairs any more. */
  lemma CompactIsNotPairs(h: History, summarize: History -> string)
    requires |Users(h)| > KEEP_RECENT_TURNS
    ensures !Pairs(Compact(h, summarize))
  {
    hide Cutoff, Users;
    CompactKeepsRecent(h, summarize);
    var v := Compact(h, summarize);
    assert v[1] == v[1..][0];
  }

  lemma UsersAppend(h: History, user: Message, reply: Message)
    requires user.role.User? && reply.role.Assistant?
    ensures |Users(h + [user] + [reply])| == |Users(h)| + 1
  {
    assert (h + [user])[..|h|] == h;
    assert (h + [user] + [reply])[..|h| + 1] == h + [user];
  }

  /** Compaction keeps the grammar, and an assistant's message at the end. */
  lemma CompactWellFormed(h: History, summarize: History -> string)
    requires WellFormed(h)
    ensures WellFormed(Compact(h, summarize))
    ensures Answered(h) ==> Answered(Compact(h, summarize))
    ensures h != [] ==> Compact(h, summarize) != [] && Compact(h, summarize)[|Compact(h, summarize)| - 1] == h[|h| - 1]
  {
    hide Cutoff, Users;
    var cut := Cutoff(h, KEEP_RECENT_TURNS);
    CompactKeepsRecent(h, summarize);
    if cut > 0 {
      SuffixWellFormed(h, cut);
      SummaryWellFormed(h[cut..], summarize(h[..cut]));
    }
  }

  // ----- truncateText -----

  /** Shortens a text of the summary, keeping its head. */
  method TruncateText(text: string, maxTokens: nat, marker: string) returns (r: string)
    ensures EstimateTokens(text) <= maxTokens ==> r == text
    ensures EstimateTokens(text) > maxTokens ==>
              Cut(text, maxTokens * CHARS_PER_TOKEN).Some? && r == Cut(text, maxTokens * CHARS_PER_TOKEN).value + marker
  {
    if EstimateTokens(text) <= maxTokens {
      return text;
    }
    var maxChars := maxTokens * CHARS_PER_TOKEN;
    if |text| <= maxChars {
      return text;
    }
    var cut := CutToBytes(text, maxChars);
    CutSafe(text, maxChars);
    return cut.value + marker;
  }
}
