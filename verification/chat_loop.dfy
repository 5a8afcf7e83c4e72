/** One turn after another of the chat loop in main.go: for every line the
    user types, a chat call on the whole conversation, the fence-stripped
    reply offered as an action menu when it decodes to one, and the raw
    reply kept in the conversation. */
module ChatLoop {
  import opened Wrappers
  import opened Strings
  import Decimal

  datatype Role = System | User | Assistant

  /** One entry of the conversation sent on every chat call. */
  datatype Message = Message(role: Role, content: string)

  /** A command the model offers, with the label shown for it (`Label` in the source). */
  datatype Action = Action(description: string, command: string)

  /** A reply that decodes to some text and a list of actions. */
  datatype StructuredResponse = StructuredResponse(text: string, actions: seq<Action>)

  /** A chat call: the streamed chunks in arrival order, or the error it
      returned. */
  datatype ChatReply = Streamed(chunks: seq<string>) | ChatFailed(err: string)

  /** What the loop consults besides its input lines: the chat call for the
      `k`-th turn on the conversation so far, and the JSON decoder. */
  datatype ChatEnv = ChatEnv(
    chat: (nat, seq<Message>) -> ChatReply,
    unmarshal: string -> Result<StructuredResponse, string>)

  /** The lines that end the loop, matched exactly. */
  predicate IsExitCommand(line: string) {
    line == "exit" || line == "quit"
  }

  const JsonFence: string := "```json"
  const Fence: string := "```"

  /** The reply with a leading "```json" fence and then one trailing
      "```" fence removed, or the whole reply when it has no leading fence. */
  function Unfenced(full: string): (r: string)
    ensures OccursAt(full, r, if HasPrefix(full, JsonFence) then |JsonFence| else 0)
    ensures !HasPrefix(full, JsonFence) ==> r == full
    ensures HasPrefix(full, JsonFence) ==>
      var body := full[|JsonFence|..];
      && (HasSuffix(body, Fence) ==> r + Fence == body)
      && (!HasSuffix(body, Fence) ==> r == body)
  {
    if HasPrefix(full, JsonFence) then
      var body := full[|JsonFence|..];
      var r := TrimSuffix(body, Fence);
      assert full[|JsonFence|..|JsonFence| + |r|] == r;
      r
    else
      assert full[0..|full|] == full;
      full
  }

  /** The text handed to the decoder: the unfenced reply without white
      space at either end. It is a piece of the reply, and a reply without
      a leading fence is only trimmed. */
  function CleanResponse(full: string): (r: string)
    ensures CleanedFrom(full, r)
  {
    var u := Unfenced(full);
    var r := TrimSpace(u);
    CleanParts(full, u, r);
    r
  }

  /** `r` is a piece of the reply `full` with no white space at either end,
      and just the trim of `full` when `full` has no leading fence. */
  predicate CleanedFrom(full: string, r: string) {
    && (|r| > 0 ==> !IsSpace(r[0]) && !IsSpace(r[|r| - 1]))
    && (!HasPrefix(full, JsonFence) ==> r == TrimSpace(full))
    && Contains(full, r)
  }

  /** The facts about the cleaned text, from those about its two stages. */
  lemma CleanParts(full: string, u: string, r: string)
    requires OccursAt(full, u, if HasPrefix(full, JsonFence) then |JsonFence| else 0)
    requires !HasPrefix(full, JsonFence) ==> u == full
    requires r == TrimSpace(u)
    ensures CleanedFrom(full, r)
  {
    SliceOfSlice(full, u, r, if HasPrefix(full, JsonFence) then |JsonFence| else 0);
  }

  /** A trim of a piece of `s` is a piece of `s`, with no white space at
      either end. */
  lemma SliceOfSlice(s: string, u: string, r: string, i: nat)
    requires OccursAt(s, u, i) && exists a: nat :: TrimmedAt(u, r, a)
    ensures Contains(s, r)
    ensures |r| > 0 ==> !IsSpace(r[0]) && !IsSpace(r[|r| - 1])
  {
    var a: nat :| TrimmedAt(u, r, a);
    assert s[i..i + |u|] == u;
    forall t | 0 <= t < |r|
      ensures s[i + a + t] == r[t]
    {
      assert s[i + a + t] == s[i..i + |u|][a + t];
      assert r[t] == u[a..a + |r|][t];
    }
    assert s[i + a..i + a + |r|] == r;
    assert OccursAt(s, r, i + a);
  }

  /** A reply fenced on both sides is cleaned to the trimmed text between the fences. */
  lemma CleanFencedReply(x: string)
    ensures CleanResponse(JsonFence + x + Fence) == TrimSpace(x)
  {
    var full := JsonFence + x + Fence;
    assert full[..|JsonFence|] == JsonFence;
    assert full[|JsonFence|..] == x + Fence;
    assert (x + Fence)[|x + Fence| - |Fence|..] == Fence;
    assert (x + Fence)[..|x|] == x;
  }

  /** Only one trailing fence is removed: a doubled one leaves the other in place. */
  lemma CleanRemovesOneFence(x: string)
    ensures CleanResponse(JsonFence + x + Fence + Fence) == TrimSpace(x + Fence)
  {
    CleanFencedReply(x + Fence);
    Regroup4(JsonFence, x, Fence, Fence);
  }

  /** A leading fence without a trailing one is removed alone. */
  lemma CleanOpenFence(x: string)
    requires !HasSuffix(x, Fence)
    ensures CleanResponse(JsonFence + x) == TrimSpace(x)
  {
    var full := JsonFence + x;
    assert full[..|JsonFence|] == JsonFence;
    assert full[|JsonFence|..] == x;
  }

  /** A reply the decoder gets back unchanged: no leading fence and no white
      space at either end. */
  lemma CleanPlainTrimmed(s: string)
    requires !HasPrefix(s, JsonFence)
    requires |s| > 0 ==> !IsSpace(s[0]) && !IsSpace(s[|s| - 1])
    ensures CleanResponse(s) == s
  {
    TrimSpaceOfTrimmed(s);
  }

  /** What the user's answer to the action menu leads to. */
  datatype Choice = Skip | Execute(action: Action) | Invalid

  /** The menu choice: an empty line does nothing, a number from 1 to the
      number of actions runs that action, and anything else is rejected. */
  function Choose(line: string, actions: seq<Action>): (c: Choice)
    ensures c == Skip <==> line == ""
    ensures c.Execute? ==> exists n :: 1 <= n <= |actions| && Decimal.Atoi(line) == Some(n) && c.action == actions[n - 1]
  {
    if line == "" then Skip
    else
      match Decimal.Atoi(line)
      case Some(n) => if 0 < n <= |actions| then Execute(actions[n - 1]) else Invalid
      case None => Invalid
  }

  /** A line is accepted exactly when it reads as a number of one of the actions. */
  lemma ChooseExecutesIff(line: string, actions: seq<Action>)
    ensures Choose(line, actions).Execute? <==>
      exists n :: 1 <= n <= |actions| && Decimal.Atoi(line) == Some(n)
  {
  }

  /** The number of an action, written as `%d` would, with or without a plus
      sign, selects that action (as long as it fits Go's `int`); 0 and every
      number past the last action are rejected. */
  lemma ChooseByNumber(n: nat, actions: seq<Action>)
    ensures 1 <= n <= |actions| && n <= Decimal.MaxInt ==> Choose(Decimal.NatToString(n), actions) == Execute(actions[n - 1])
    ensures 1 <= n <= |actions| && n <= Decimal.MaxInt ==> Choose("+" + Decimal.NatToString(n), actions) == Execute(actions[n - 1])
    ensures n == 0 || n > |actions| ==> Choose(Decimal.NatToString(n), actions) == Invalid
  {
    var t := Decimal.NatToString(n);
    if n <= Decimal.MaxInt {
      Decimal.NatToStringRoundTrip(n);
    } else {
      assert Decimal.Atoi(t).None?;
    }
  }

  /** Typing "exit" or "quit" at the menu is not a way out: it is an invalid choice. */
  lemma ExitAtMenuIsInvalid(line: string, actions: seq<Action>)
    requires IsExitCommand(line)
    ensures Choose(line, actions) == Invalid
  {
    assert !Decimal.IsDigit(line[0]) && line[0] != '+' && line[0] != '-';
  }

  /** The action menu shown after a reply: the decoded text and actions, the
      line read as the choice (none when the input ended) and its effect. */
  datatype Menu = Menu(text: string, actions: seq<Action>, line: Option<string>, choice: Choice)

  /** One turn of the loop: the line read, the chat call's reply, and the
      menu if one was shown. */
  datatype TurnLog = TurnLog(input: string, reply: ChatReply, menu: Option<Menu>)

  /** The conversation at the end, the turns in order, and the lines left
      unread after an exit command (none when the input ran out). */
  datatype ReplResult = ReplResult(messages: seq<Message>, turns: seq<TurnLog>, unread: seq<string>)

  /** The reply as it arrived, all chunks concatenated in order. */
  function FullResponse(chunks: seq<string>): (r: string)
    ensures chunks == [] ==> r == ""
    ensures forall j :: 0 <= j < |chunks| ==> Contains(r, chunks[j])
  {
    if chunks == [] then ""
    else
      var rest := FullResponse(chunks[1..]);
      assert OccursAt(chunks[0], chunks[0], 0);
      ContainsConcat(chunks[0], rest, chunks[0]);
      forall j | 1 <= j < |chunks|
        ensures Contains(chunks[0] + rest, chunks[j])
      {
        assert chunks[j] == chunks[1..][j - 1];
        ContainsConcat(chunks[0], rest, chunks[j]);
      }
      chunks[0] + rest
  }

  /** Each chunk that arrives is appended to what arrived before it, which
      is how the handler collects the reply. */
  lemma {:induction false} FullResponseSnoc(chunks: seq<string>, c: string)
    ensures FullResponse(chunks + [c]) == FullResponse(chunks) + c
  {
    if chunks == [] {
      assert chunks + [c] == [c];
      assert FullResponse([c]) == c + FullResponse([]);
    } else {
      assert (chunks + [c])[1..] == chunks[1..] + [c];
      FullResponseSnoc(chunks[1..], c);
      Regroup(chunks[0], FullResponse(chunks[1..]), c);
    }
  }

  /** The choice text: the line read, or "" once the input has ended. */
  function ChoiceText(line: Option<string>): string {
    if line.Some? then line.value else ""
  }

  /** The reply decodes, after cleaning, to a response with at least one action. */
  predicate IsMenuReply(env: ChatEnv, reply: ChatReply) {
    && reply.Streamed?
    && env.unmarshal(CleanResponse(FullResponse(reply.chunks))).Success?
    && |env.unmarshal(CleanResponse(FullResponse(reply.chunks))).value.actions| > 0
  }

  /** The menu a reply leads to, reading the choice from `rest`, the lines
      after the one that was sent. */
  function MenuOf(env: ChatEnv, reply: ChatReply, rest: seq<string>): (m: Option<Menu>)
    ensures m.Some? <==> IsMenuReply(env, reply)
    ensures m.Some? ==> m.value.line == (if rest == [] then None else Some(rest[0]))
  {
    if reply.ChatFailed? then None
    else
      match env.unmarshal(CleanResponse(FullResponse(reply.chunks)))
      case Failure(_) => None
      case Success(sr) =>
        if |sr.actions| == 0 then None
        else
          var line := if rest == [] then None else Some(rest[0]);
          Some(Menu(sr.text, sr.actions, line, Choose(ChoiceText(line), sr.actions)))
  }

  /** The messages one turn adds: the user's line, then the raw reply unless
      the call failed. */
  function TurnMessages(t: TurnLog): seq<Message> {
    [Message(User, t.input)] + (if t.reply.Streamed? then [Message(Assistant, FullResponse(t.reply.chunks))] else [])
  }

  /** The messages the turns add, in order. */
  function Conversation(turns: seq<TurnLog>): seq<Message> {
    if turns == [] then [] else TurnMessages(turns[0]) + Conversation(turns[1..])
  }

  /** The input lines one turn reads: its own line and the menu choice, if one was read. */
  function TurnLines(t: TurnLog): seq<string> {
    [t.input] + (if t.menu.Some? && t.menu.value.line.Some? then [t.menu.value.line.value] else [])
  }

  /** The input lines the turns read, in order. */
  function LinesOf(turns: seq<TurnLog>): seq<string> {
    if turns == [] then [] else TurnLines(turns[0]) + LinesOf(turns[1..])
  }

  /** How a turn is made from the turn number, the conversation so far,
      the line read and the lines after it. */
  type TurnMaker = (nat, seq<Message>, string, seq<string>) -> TurnLog

  /** The turn records the line it was made from and, if it showed a menu,
      the line after it as the choice (none when there is none). */
  predicate ReadsOwnLines(t: TurnLog, line: string, following: seq<string>) {
    && t.input == line
    && (t.menu.Some? ==> t.menu.value.line == (if following == [] then None else Some(following[0])))
  }

  /** The lines after a turn's own line that the turn leaves unread. */
  function Unread(t: TurnLog, following: seq<string>): (rest: seq<string>)
    ensures |rest| <= |following|
  {
    var used := |TurnLines(t)| - 1;
    if used <= |following| then following[used..] else []
  }

  /** A turn that reads its own lines leaves exactly the lines after them unread. */
  lemma TurnLinesSplit(t: TurnLog, following: seq<string>)
    requires ReadsOwnLines(t, t.input, following)
    ensures following == TurnLines(t)[1..] + Unread(t, following)
  {
    if t.menu.Some? && t.menu.value.line.Some? {
      assert following == [following[0]] + following[1..];
    } else {
      assert following[0..] == following;
    }
  }

  /** The loop from turn `k` on, with the conversation `messages` and the
      lines still to be read: an exit command or the end of the input stops
      it, and any other line makes a turn whose messages are appended. */
  function Loop(next: TurnMaker, messages: seq<Message>, inputs: seq<string>, k: nat): (r: ReplResult)
    ensures |r.turns| <= |inputs| && |r.unread| <= |inputs|
    ensures r.unread == [] || IsExitCommand(r.unread[0])
    decreases |inputs|
  {
    if inputs == [] then ReplResult(messages, [], [])
    else if IsExitCommand(inputs[0]) then ReplResult(messages, [], inputs)
    else
      var t := next(k, messages, inputs[0], inputs[1..]);
      var rest := Loop(next, messages + TurnMessages(t), Unread(t, inputs[1..]), k + 1);
      ReplResult(rest.messages, [t] + rest.turns, rest.unread)
  }

  /** Every turn of the loop leaves its messages after the earlier ones, and
      nothing else is ever added or removed. */
  lemma {:induction false} LoopMessages(next: TurnMaker, messages: seq<Message>, inputs: seq<string>, k: nat)
    ensures var r := Loop(next, messages, inputs, k);
      r.messages == messages + Conversation(r.turns)
    decreases |inputs|
  {
    var r := Loop(next, messages, inputs, k);
    if inputs != [] && !IsExitCommand(inputs[0]) {
      var t := next(k, messages, inputs[0], inputs[1..]);
      var tail := Unread(t, inputs[1..]);
      var rest := Loop(next, messages + TurnMessages(t), tail, k + 1);
      LoopMessages(next, messages + TurnMessages(t), tail, k + 1);
      assert r.turns[0] == t && r.turns[1..] == rest.turns;
      assert Conversation(r.turns) == TurnMessages(t) + Conversation(rest.turns);
      Regroup(messages, TurnMessages(t), Conversation(rest.turns));
    } else {
      assert messages + [] == messages;
    }
  }

  /** The first `j` of `[x] + s` are `x` and then the first `j - 1` of `s`. */
  lemma TakeAfterHead<T>(x: T, s: seq<T>, j: nat)
    requires 0 < j <= |s| + 1
    ensures ([x] + s)[..j][0] == x && ([x] + s)[..j][1..] == s[..j - 1]
  {
  }

  /** When every turn reads its own lines, the turns read the input lines in
      order and what they did not read is left unread. */
  lemma {:induction false} LoopLines(next: TurnMaker, messages: seq<Message>, inputs: seq<string>, k: nat)
    requires forall n, ms, line, following :: ReadsOwnLines(next(n, ms, line, following), line, following)
    ensures var r := Loop(next, messages, inputs, k);
      inputs == LinesOf(r.turns) + r.unread
    decreases |inputs|
  {
    var r := Loop(next, messages, inputs, k);
    if inputs != [] && !IsExitCommand(inputs[0]) {
      var t := next(k, messages, inputs[0], inputs[1..]);
      var tail := Unread(t, inputs[1..]);
      var rest := Loop(next, messages + TurnMessages(t), tail, k + 1);
      LoopLines(next, messages + TurnMessages(t), tail, k + 1);
      assert r.turns[0] == t && r.turns[1..] == rest.turns;
      assert LinesOf(r.turns) == TurnLines(t) + LinesOf(rest.turns);
      LinesOfStep(t, inputs, LinesOf(rest.turns), rest.unread);
    } else {
      assert [] + inputs == inputs;
    }
  }

  /** The lines of a turn that read its own lines, followed by whatever
      became of the lines it left unread, are all the lines. */
  lemma LinesOfStep(t: TurnLog, inputs: seq<string>, later: seq<string>, unread: seq<string>)
    requires inputs != [] && ReadsOwnLines(t, inputs[0], inputs[1..])
    requires Unread(t, inputs[1..]) == later + unread
    ensures inputs == TurnLines(t) + later + unread
  {
    TurnLinesSplit(t, inputs[1..]);
    assert inputs == [inputs[0]] + inputs[1..];
    assert TurnLines(t) == [inputs[0]] + TurnLines(t)[1..];
    Regroup(TurnLines(t), later, unread);
    Regroup([inputs[0]], TurnLines(t)[1..], later + unread);
  }

  /** The `j`-th turn, the `n`-th of the loop, was made from a line other
      than an exit command, on the conversation so far. */
  lemma {:induction false} LoopMade(next: TurnMaker, messages: seq<Message>, inputs: seq<string>, k: nat, j: nat, n: nat)
    requires j < |Loop(next, messages, inputs, k).turns| && n == k + j
    ensures var r := Loop(next, messages, inputs, k);
      exists line, following :: !IsExitCommand(line) && r.turns[j] == next(n, messages + Conversation(r.turns[..j]), line, following)
    decreases j
  {
    var r := Loop(next, messages, inputs, k);
    var t := next(k, messages, inputs[0], inputs[1..]);
    if j == 0 {
      assert r.turns[0] == t;
      assert r.turns[..0] == [] && messages + [] == messages;
      assert !IsExitCommand(inputs[0]) && r.turns[0] == next(n, messages + Conversation(r.turns[..0]), inputs[0], inputs[1..]);
    } else {
      var tail := Unread(t, inputs[1..]);
      var rest := Loop(next, messages + TurnMessages(t), tail, k + 1);
      LoopMade(next, messages + TurnMessages(t), tail, k + 1, j - 1, n);
      assert r.turns == [t] + rest.turns;
      ConversationAfterHead(t, rest.turns, j);
      Regroup(messages, TurnMessages(t), Conversation(rest.turns[..j - 1]));
    }
  }

  /** The messages of the first `j` of `[t] + rest` are `t`'s and then those
      of the first `j - 1` of `rest`. */
  lemma ConversationAfterHead(t: TurnLog, rest: seq<TurnLog>, j: nat)
    requires 0 < j <= |rest|
    ensures ([t] + rest)[j] == rest[j - 1]
    ensures Conversation(([t] + rest)[..j]) == TurnMessages(t) + Conversation(rest[..j - 1])
  {
    TakeAfterHead(t, rest, j);
  }

  /** One turn of main.go on the line `line`, with `following` the lines
      after it: the `k`-th chat call on the conversation with the line
      appended, and the menu its reply leads to. */
  function NextTurn(env: ChatEnv, messages: seq<Message>, line: string, following: seq<string>, k: nat): (t: TurnLog)
    ensures ReadsOwnLines(t, line, following)
    ensures t.reply == env.chat(k, messages + [Message(User, line)])
  {
    var reply := env.chat(k, messages + [Message(User, line)]);
    TurnLog(line, reply, MenuOf(env, reply, following))
  }

  /** The turns of main.go. */
  function TurnsOf(env: ChatEnv): TurnMaker {
    (k: nat, ms: seq<Message>, line: string, following: seq<string>) => NextTurn(env, ms, line, following, k)
  }

  lemma TurnsOfIs(env: ChatEnv, k: nat, ms: seq<Message>, line: string, following: seq<string>)
    ensures TurnsOf(env)(k, ms, line, following) == NextTurn(env, ms, line, following, k)
  {
  }

  /** No turn starts from an exit command, and every turn's menu is the one
      its reply decodes to, with the choice read from the line after it. */
  predicate TurnFollows(env: ChatEnv, t: TurnLog) {
    && !IsExitCommand(t.input)
    && (t.menu.Some? <==> IsMenuReply(env, t.reply))
    && (t.menu.Some? ==>
          var sr := env.unmarshal(CleanResponse(FullResponse(t.reply.chunks))).value;
          && t.menu.value.text == sr.text
          && t.menu.value.actions == sr.actions
          && t.menu.value.choice == Choose(ChoiceText(t.menu.value.line), sr.actions))
  }

  /** A turn made from a line other than an exit command follows from its reply. */
  lemma NextTurnFollows(env: ChatEnv, messages: seq<Message>, line: string, following: seq<string>, k: nat)
    requires !IsExitCommand(line)
    ensures TurnFollows(env, NextTurn(env, messages, line, following, k))
  {
  }

  /** Only the first message is a system message. */
  lemma {:induction false} ConversationHasNoSystemMessage(turns: seq<TurnLog>)
    ensures forall j :: 0 <= j < |Conversation(turns)| ==> Conversation(turns)[j].role != System
  {
    if turns != [] {
      ConversationHasNoSystemMessage(turns[1..]);
      var c := Conversation(turns);
      var head := TurnMessages(turns[0]);
      forall j | 0 <= j < |c|
        ensures c[j].role != System
      {
        if j >= |head| {
          assert c[j] == Conversation(turns[1..])[j - |head|];
        }
      }
    }
  }

  /** The messages of the first `j + 1` turns are those of the first `j` and then the `j`-th's. */
  lemma ConversationUpTo(turns: seq<TurnLog>, j: nat)
    requires j < |turns|
    ensures Conversation(turns[..j + 1]) == Conversation(turns[..j]) + TurnMessages(turns[j])
  {
    assert turns[..j + 1] == turns[..j] + [turns[j]];
    ConversationSnoc(turns[..j], turns[j]);
  }

  lemma {:induction false} ConversationSnoc(turns: seq<TurnLog>, t: TurnLog)
    ensures Conversation(turns + [t]) == Conversation(turns) + TurnMessages(t)
  {
    if turns == [] {
      assert turns + [t] == [t];
      assert Conversation([t]) == TurnMessages(t) + Conversation([]);
    } else {
      assert (turns + [t])[1..] == turns[1..] + [t];
      ConversationSnoc(turns[1..], t);
      assert Conversation(turns + [t]) == TurnMessages(turns[0]) + (Conversation(turns[1..]) + TurnMessages(t));
    }
  }

  /** From a starting conversation `start`: the conversation at the end is
      `start` followed by what the turns added, the turns read the input
      lines in order, and the loop stops when they run out or at an exit
      command. */
  lemma LoopSession(env: ChatEnv, start: seq<Message>, inputs: seq<string>)
    ensures var r := Loop(TurnsOf(env), start, inputs, 0);
      && r.messages == start + Conversation(r.turns)
      && inputs == LinesOf(r.turns) + r.unread
      && (r.unread == [] || IsExitCommand(r.unread[0]))
      && forall j :: |start| <= j < |r.messages| ==> r.messages[j].role != System
  {
    var next := TurnsOf(env);
    var r := Loop(next, start, inputs, 0);
    forall n, ms, line, following
      ensures ReadsOwnLines(next(n, ms, line, following), line, following)
    {
      TurnsOfIs(env, n, ms, line, following);
    }
    LoopMessages(next, start, inputs, 0);
    LoopLines(next, start, inputs, 0);
    ConversationHasNoSystemMessage(r.turns);
    forall j | |start| <= j < |r.messages|
      ensures r.messages[j].role != System
    {
      assert r.messages[j] == Conversation(r.turns)[j - |start|];
    }
  }

  /** The `j`-th chat call from `start` is sent the conversation so far with
      the user's line last; the turn follows from its reply; and what it
      added is that line and, unless the call failed, the reply exactly as
      it streamed in. */
  lemma LoopTurn(env: ChatEnv, start: seq<Message>, inputs: seq<string>, j: nat)
    requires j < |Loop(TurnsOf(env), start, inputs, 0).turns|
    ensures var r := Loop(TurnsOf(env), start, inputs, 0);
      var t := r.turns[j];
      && t.reply == env.chat(j, start + Conversation(r.turns[..j]) + [Message(User, t.input)])
      && TurnFollows(env, t)
      && Conversation(r.turns[..j + 1]) == Conversation(r.turns[..j]) + [Message(User, t.input)]
           + (if t.reply.Streamed? then [Message(Assistant, FullResponse(t.reply.chunks))] else [])
  {
    var r := Loop(TurnsOf(env), start, inputs, 0);
    var ms := start + Conversation(r.turns[..j]);
    LoopMade(TurnsOf(env), start, inputs, 0, j, j);
    var line, following :| !IsExitCommand(line) && r.turns[j] == TurnsOf(env)(j, ms, line, following);
    TurnsOfIs(env, j, ms, line, following);
    NextTurnFollows(env, ms, line, following, j);
    ConversationUpTo(r.turns, j);
    Regroup(Conversation(r.turns[..j]), [Message(User, r.turns[j].input)],
      if r.turns[j].reply.Streamed? then [Message(Assistant, FullResponse(r.turns[j].reply.chunks))] else []);
  }
}
