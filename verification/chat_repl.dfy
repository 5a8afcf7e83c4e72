/** The interactive chat agent of main.go: the conversation opens with one
    system message, and the loop of `ChatLoop` runs on the lines the user
    types. */
module ChatRepl {
  import opened ChatLoop

  /** The instruction the conversation starts with, verbatim (the raw string
      keeps the tab that indents each of its continuation lines). */
  const SystemPrompt: string :=
    "You are a helpful assistant. When the user does asks for a command-line action, you must respond with a JSON object with the following structure Otherwise, you should respond as a normal chatbot:\n"
    + "\t{\n"
    + "\t  \"text\": \"Your response text\",\n"
    + "\t  \"actions\": [\n"
    + "\t    {\n"
    + "\t      \"label\": \"A short description of the action\",\n"
    + "\t      \"command\": \"The command to execute\"\n"
    + "\t    }\n"
    + "\t  ]\n"
    + "\t}\n"
    + "\t."

  /** The conversation before the first line is read. */
  function InitialMessages(): (ms: seq<Message>)
    ensures |ms| == 1 && ms[0].role == System
  {
    [Message(System, SystemPrompt)]
  }

  /** The whole session on the lines the user types: the system message
      stays first, and there is at most one turn per line. */
  function Repl(env: ChatEnv, inputs: seq<string>): (r: ReplResult)
    ensures |r.messages| >= 1 && r.messages[0] == Message(System, SystemPrompt)
    ensures |r.turns| <= |inputs|
  {
    LoopMessages(TurnsOf(env), InitialMessages(), inputs, 0);
    Loop(TurnsOf(env), InitialMessages(), inputs, 0)
  }

  /** Typing an exit command first ends the session with the conversation
      untouched. */
  lemma ExitFirstKeepsConversation(env: ChatEnv, inputs: seq<string>)
    requires |inputs| > 0 && IsExitCommand(inputs[0])
    ensures Repl(env, inputs) == ReplResult(InitialMessages(), [], inputs)
  {
  }

  /** The session's conversation is the system message followed by what the
      turns added, and nothing after the first message is a system message;
      the turns read the input lines in order; and the session ends when
      they run out or at an exit command, which is left unread. */
  lemma ReplConversation(env: ChatEnv, inputs: seq<string>)
    ensures var r := Repl(env, inputs);
      && r.messages == [Message(System, SystemPrompt)] + Conversation(r.turns)
      && (forall j :: 1 <= j < |r.messages| ==> r.messages[j].role != System)
      && inputs == LinesOf(r.turns) + r.unread
      && (r.unread == [] || IsExitCommand(r.unread[0]))
  {
    LoopSession(env, InitialMessages(), inputs);
  }

  /** The `j`-th chat call of the session is sent the conversation so far
      with the user's line last; the turn follows from its reply; and what it
      added is that line and, unless the call failed, the reply exactly as it
      streamed in. */
  lemma ReplTurn(env: ChatEnv, inputs: seq<string>, j: nat)
    requires j < |Repl(env, inputs).turns|
    ensures var r := Repl(env, inputs);
      var t := r.turns[j];
      && t.reply == env.chat(j, [Message(System, SystemPrompt)] + Conversation(r.turns[..j]) + [Message(User, t.input)])
      && TurnFollows(env, t)
      && Conversation(r.turns[..j + 1]) == Conversation(r.turns[..j]) + [Message(User, t.input)]
           + (if t.reply.Streamed? then [Message(Assistant, FullResponse(t.reply.chunks))] else [])
  {
    LoopTurn(env, InitialMessages(), inputs, j);
  }
}
