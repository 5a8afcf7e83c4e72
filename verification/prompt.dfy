/** The prompt the single-shot agent sends on every model call
    (`GetToolsPrompt` and `GeneratePrompt` in experimemt/main.go). */
module Prompt {
  import opened Strings
  import opened AgentTools
  import GoFmt

  /** One `range` over the registry visits every entry exactly once, in an
      order the Go runtime picks afresh each time: `listing` is the tools in
      the order visited. */
  ghost predicate IsListing(listing: seq<Tool>, tools: Registry) {
    && (forall k :: k in tools ==> tools[k] in listing)
    && (forall j :: 0 <= j < |listing| ==> listing[j].name in tools && tools[listing[j].name] == listing[j])
    && (forall i, j :: 0 <= i < j < |listing| ==> listing[i].name != listing[j].name)
  }

  function NameLine(name: string): string {
    "Name: " + name + "\n"
  }

  /** The three lines written for one tool, and the blank line after them. */
  function ToolBlock(t: Tool): (r: string)
    ensures HasPrefix(r, NameLine(t.name))
  {
    NameLine(t.name) + "Description: " + t.description + "\n" + "Arguments: " + GoFmt.FormatStringMap(t.args) + "\n\n"
  }

  function ToolBlocks(listing: seq<Tool>): (r: string)
    ensures forall t :: t in listing ==> Contains(r, NameLine(t.name))
  {
    if listing == [] then ""
    else
      var first := ToolBlock(listing[0]);
      var rest := ToolBlocks(listing[1..]);
      assert OccursAt(first, NameLine(listing[0].name), 0);
      ContainsConcat(first, rest, NameLine(listing[0].name));
      forall t | t in listing[1..]
        ensures Contains(first + rest, NameLine(t.name))
      {
        ContainsConcat(first, rest, NameLine(t.name));
      }
      assert forall t :: t in listing ==> t == listing[0] || t in listing[1..];
      first + rest
  }

  const ToolsHeader: string := "AVAILABLE TOOLS:\n"

  /** `Agent.GetToolsPrompt`, for the tools in the order the runtime visits them. */
  function GetToolsPrompt(listing: seq<Tool>): (r: string)
    ensures HasPrefix(r, ToolsHeader)
    ensures forall t :: t in listing ==> Contains(r, NameLine(t.name))
  {
    var blocks := ToolBlocks(listing);
    forall t | t in listing
      ensures Contains(ToolsHeader + blocks, NameLine(t.name))
    {
      ContainsConcat(ToolsHeader, blocks, NameLine(t.name));
    }
    ToolsHeader + blocks
  }

  const Preamble: string := "\nYou are a helpful assistant. You have access to the following tools:\n\n"

  const Instructions: string :=
    "\n\nThe user has given you a task. You should think step-by-step and then decide to either use one of the tools or respond with the final answer.\n"
    + "Your final response should start with 'Final Answer:'.\n\n"
    + "IMPORTANT: If the user's query contains the phrase \"chris tanti\", you must use the `chris_tanti` tool.\n\n"
    + "Thought: You should always think about what to do first, before using a tool.\n"
    + "Action: To use a tool, you must use the following JSON format:\n"
    + "{ \"name\": \"tool_name\", \"arguments\": { \"arg1\": \"value1\", \"arg2\": \"value2\" } }\n"
    + "Observation: The result of the tool's action.\n\n"
    + "Current conversation history:\n"

  function UserTurn(userInput: string): string {
    "User: " + userInput
  }

  /** The last line of the prompt, after a line break. */
  function UserLine(userInput: string): string {
    "\n" + UserTurn(userInput)
  }

  /** `Agent.GeneratePrompt`: the fixed preamble, the tool list, the fixed
      instructions, then the history and the user's request last. */
  function GeneratePrompt(listing: seq<Tool>, history: string, userInput: string): (r: string)
    ensures HasPrefix(r, Preamble + ToolsHeader)
    ensures HasSuffix(r, Instructions + history + UserLine(userInput))
    ensures forall t :: t in listing ==> Contains(r, NameLine(t.name))
  {
    var tp := GetToolsPrompt(listing);
    Framed(Preamble, tp, ToolsHeader, Instructions + history + UserLine(userInput));
    Preamble + tp + (Instructions + history + UserLine(userInput))
  }

  /** What survives of the middle part `m` once it is framed by `p` and `t`. */
  lemma Framed(p: string, m: string, h: string, t: string)
    requires HasPrefix(m, h)
    ensures HasPrefix(p + m + t, p + h)
    ensures HasSuffix(p + m + t, t)
    ensures forall x :: Contains(m, x) ==> Contains(p + m + t, x)
  {
    assert (p + m + t)[..|p + h|] == p + m[..|h|];
    assert (p + m + t)[|p + m + t| - |t|..] == t;
    forall x | Contains(m, x)
      ensures Contains(p + m + t, x)
    {
      ContainsConcat(p, m, x);
      ContainsConcat(p + m, t, x);
    }
  }

  /** The prompt ends with the user's request, carries the history verbatim,
      and names every registered tool, whatever order the runtime picks. */
  lemma PromptCarriesRequestHistoryAndTools(tools: Registry, listing: seq<Tool>, history: string, userInput: string)
    requires WellKeyed(tools) && IsListing(listing, tools)
    ensures HasSuffix(GeneratePrompt(listing, history, userInput), "User: " + userInput)
    ensures Contains(GeneratePrompt(listing, history, userInput), history)
    ensures forall n :: n in tools ==> Contains(GeneratePrompt(listing, history, userInput), "Name: " + n + "\n")
  {
    var r := GeneratePrompt(listing, history, userInput);
    forall n | n in tools
      ensures Contains(r, "Name: " + n + "\n")
    {
      assert tools[n] in listing;
    }
    SuffixParts(r, Instructions, history, UserLine(userInput));
    SuffixOfSuffix(r, "\n", UserTurn(userInput));
  }

  /** The parts of a suffix `a + b + c`: `c` is a suffix and `b` sits right before it. */
  lemma SuffixParts(r: string, a: string, b: string, c: string)
    requires HasSuffix(r, a + b + c)
    ensures HasSuffix(r, c)
    ensures OccursAt(r, b, |r| - |c| - |b|)
    ensures Contains(r, b)
  {
    var t := a + b + c;
    assert r[|r| - |t|..] == t;
    assert r[|r| - |c|..] == t[|t| - |c|..];
    assert r[|r| - |c| - |b|..|r| - |c|] == t[|a|..|a| + |b|];
    var i: nat := |r| - |c| - |b|;
    assert OccursAt(r, b, i);
  }

  lemma SuffixOfSuffix(r: string, x: string, y: string)
    requires HasSuffix(r, x + y)
    ensures HasSuffix(r, y)
  {
    assert r[|r| - |y|..] == (x + y)[|x|..];
  }

  /** A prompt built on any extension of `history` still carries `history`. */
  lemma PromptCarriesEarlierHistory(tools: Registry, listing: seq<Tool>, history: string, later: string, userInput: string)
    requires WellKeyed(tools) && IsListing(listing, tools) && HasPrefix(later, history)
    ensures var r := GeneratePrompt(listing, later, userInput);
      && HasSuffix(r, "User: " + userInput)
      && Contains(r, history)
      && forall n :: n in tools ==> Contains(r, "Name: " + n + "\n")
  {
    PromptCarriesRequestHistoryAndTools(tools, listing, later, userInput);
    assert OccursAt(later, history, 0);
    ContainsTransitive(GeneratePrompt(listing, later, userInput), later, history);
  }
}
