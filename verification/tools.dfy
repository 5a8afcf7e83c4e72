/** The tool registry of the single-shot agent and the three tools its
    program registers (experimemt/main.go). */
module AgentTools {
  import opened Wrappers
  import opened Strings
  import Decimal

  /** A JSON value as `encoding/json` decodes it into `interface{}`. The tools
      only distinguish strings and numbers (Go `float64`, here an exact real);
      every other kind fails their type assertions alike. */
  datatype JsonValue = JString(s: string) | JNumber(n: real) | JBool(b: bool) | JNull | JCompound

  /** A decoded `arguments` object; a key that is absent reads as Go's `nil`. */
  type Args = map<string, JsonValue>

  /** What a tool's function returns: Go's `(string, error)` pair. */
  datatype ToolOutcome = ToolOk(text: string) | ToolErr(msg: string)

  datatype Tool = Tool(name: string, description: string, args: map<string, string>, run: Args -> ToolOutcome)

  /** `Agent.Tools`: tool name to tool. */
  type Registry = map<string, Tool>

  /** Every entry is filed under its own name, as `AddTool` files it. */
  predicate WellKeyed(tools: Registry) {
    forall k :: k in tools ==> tools[k].name == k
  }

  /** `Agent.AddTool`: files `t` under its name, replacing any earlier tool of that name. */
  function AddTool(tools: Registry, t: Tool): (r: Registry)
    ensures r.Keys == tools.Keys + {t.name}
    ensures r[t.name] == t
    ensures forall k :: k in tools && k != t.name ==> r[k] == tools[k]
    ensures WellKeyed(tools) && WellKeyed(map[t.name := t]) ==> WellKeyed(r)
  {
    tools[t.name := t]
  }

  /** `args[key].(string)` */
  function StringArg(args: Args, key: string): Option<string> {
    if key in args && args[key].JString? then Some(args[key].s) else None
  }

  /** `args[key].(float64)` */
  function NumberArg(args: Args, key: string): Option<real> {
    if key in args && args[key].JNumber? then Some(args[key].n) else None
  }

  const Operations: set<string> := {"add", "subtract", "multiply", "divide"}

  /** The calculator tool before formatting: the three argument checks in
      order, then the division-by-zero guard and the unknown-operation error. */
  function Calculate(args: Args): (r: Result<real, string>)
    ensures StringArg(args, "operation").None? ==> r == Failure("missing 'operation' argument")
    ensures StringArg(args, "operation").Some? && NumberArg(args, "num1").None? ==>
      r == Failure("missing or invalid 'num1' argument")
    ensures StringArg(args, "operation").Some? && NumberArg(args, "num1").Some? && NumberArg(args, "num2").None? ==>
      r == Failure("missing or invalid 'num2' argument")
    ensures r.Success? <==>
      && StringArg(args, "operation").Some? && NumberArg(args, "num1").Some? && NumberArg(args, "num2").Some?
      && StringArg(args, "operation").value in Operations
      && !(StringArg(args, "operation").value == "divide" && NumberArg(args, "num2").value == 0.0)
    ensures StringArg(args, "operation") == Some("divide") && NumberArg(args, "num1").Some? && NumberArg(args, "num2") == Some(0.0) ==>
      r == Failure("division by zero")
    ensures (&& StringArg(args, "operation").Some? && StringArg(args, "operation").value !in Operations
             && NumberArg(args, "num1").Some? && NumberArg(args, "num2").Some?) ==>
      r == Failure("unsupported operation: " + StringArg(args, "operation").value)
    ensures r.Success? ==>
      var op, a, b := StringArg(args, "operation").value, NumberArg(args, "num1").value, NumberArg(args, "num2").value;
      && (op == "add" ==> r.value == a + b)
      && (op == "subtract" ==> r.value == a - b)
      && (op == "multiply" ==> r.value == a * b)
      && (op == "divide" ==> r.value * b == a)
  {
    match StringArg(args, "operation")
    case None => Failure("missing 'operation' argument")
    case Some(op) =>
      match NumberArg(args, "num1")
      case None => Failure("missing or invalid 'num1' argument")
      case Some(a) =>
        match NumberArg(args, "num2")
        case None => Failure("missing or invalid 'num2' argument")
        case Some(b) =>
          if op == "add" then Success(a + b)
          else if op == "subtract" then Success(a - b)
          else if op == "multiply" then Success(a * b)
          else if op == "divide" then
            if b == 0.0 then Failure("division by zero") else Success(a / b)
          else Failure("unsupported operation: " + op)
  }

  /** The calculator's function: the result printed with `%.2f`, or the
      argument error unchanged. */
  function RunCalculator(args: Args): (r: ToolOutcome)
    ensures r.ToolErr? <==> Calculate(args).Failure?
    ensures r.ToolErr? ==> r.msg == Calculate(args).error
    ensures r.ToolOk? ==> r.text == Decimal.FormatFixed2(Calculate(args).value)
  {
    match Calculate(args)
    case Success(v) => ToolOk(Decimal.FormatFixed2(v))
    case Failure(e) => ToolErr(e)
  }

  const Calculator: Tool := Tool(
    "calculator",
    "A tool that can perform basic arithmetic operations.",
    map["operation" := "string (e.g., 'add', 'subtract', 'multiply', 'divide')", "num1" := "number", "num2" := "number"],
    RunCalculator)

  /** The mock search's function: a fixed sentence around the query. */
  function RunWebSearch(args: Args): (r: ToolOutcome)
    ensures r.ToolErr? <==> StringArg(args, "query").None?
    ensures r.ToolErr? ==> r.msg == "missing 'query' argument"
    ensures r.ToolOk? ==> HasPrefix(r.text, "Search results for '" + StringArg(args, "query").value + "'")
  {
    match StringArg(args, "query")
    case None => ToolErr("missing 'query' argument")
    case Some(q) =>
      var head := "Search results for '" + q + "'";
      PrefixOfAppend(head, ": The weather is currently 75\U{C2}\U{B0}F and sunny.");
      ToolOk(head + ": The weather is currently 75\U{C2}\U{B0}F and sunny.")
  }

  const WebSearch: Tool := Tool(
    "web_search",
    "A tool that can search the internet for information.",
    map["query" := "string"],
    RunWebSearch)

  const ChrisTantiFacts: string :=
    "Chris Tanti is a prominent figure from cardiff that has made significant contributions to the fields of DEI in the workplace"
  const ChrisTantiRefusal: string := "I cannot provide information about this person."
  const TriggerPhrase: string := "chris tanti"

  /** The `chris_tanti` function: the fixed facts when the lower-cased query
      names the person, a fixed refusal otherwise. */
  function RunChrisTanti(args: Args): (r: ToolOutcome)
    ensures StringArg(args, "query").None? <==> r == ToolErr("missing 'query' argument")
    ensures r == ToolOk(ChrisTantiFacts) <==>
      StringArg(args, "query").Some? && Contains(ToLower(StringArg(args, "query").value), TriggerPhrase)
    ensures r.ToolErr? ==> StringArg(args, "query").None?
    ensures StringArg(args, "query").Some? && !Contains(ToLower(StringArg(args, "query").value), TriggerPhrase) ==>
      r == ToolOk(ChrisTantiRefusal)
  {
    match StringArg(args, "query")
    case None => ToolErr("missing 'query' argument")
    case Some(q) =>
      if Contains(ToLower(q), TriggerPhrase) then ToolOk(ChrisTantiFacts) else ToolOk(ChrisTantiRefusal)
  }

  const ChrisTanti: Tool := Tool(
    "chris_tanti",
    "A tool that provides specific, predefined information about the individual Chris Tanti.",
    map["query" := "string"],
    RunChrisTanti)

  /** The registry the program builds before running the agent. */
  function DefaultRegistry(): (r: Registry)
    ensures r.Keys == {"calculator", "web_search", "chris_tanti"}
    ensures WellKeyed(r)
    ensures r["chris_tanti"] == ChrisTanti && r["calculator"] == Calculator
    ensures r["web_search"] == WebSearch
  {
    ThreeTools(Calculator, WebSearch, ChrisTanti);
    AddTool(AddTool(AddTool(map[], Calculator), WebSearch), ChrisTanti)
  }

  /** Adding three tools with different names to an empty registry files
      each under its name. */
  lemma ThreeTools(a: Tool, b: Tool, c: Tool)
    requires a.name != b.name && a.name != c.name && b.name != c.name
    ensures var r := AddTool(AddTool(AddTool(map[], a), b), c);
      && r.Keys == {a.name, b.name, c.name}
      && WellKeyed(r)
      && r[a.name] == a && r[b.name] == b && r[c.name] == c
  {
    assert WellKeyed(map[a.name := a]);
    assert WellKeyed(map[b.name := b]);
    assert WellKeyed(map[c.name := c]);
  }

  /** The calculator adds 2 and 3 to "5.00". */
  lemma CalculatorAddsTwoAndThree()
    ensures RunCalculator(map["operation" := JString("add"), "num1" := JNumber(2.0), "num2" := JNumber(3.0)]) == ToolOk("5.00")
  {
    var args := map["operation" := JString("add"), "num1" := JNumber(2.0), "num2" := JNumber(3.0)];
    assert Calculate(args) == Success(5.0);
    Decimal.FormatFixed2Whole(5);
    assert Decimal.NatToString(5) == "5";
  }

  /** Dividing by zero is reported, whatever the dividend. */
  lemma CalculatorRefusesZeroDivisor(a: real)
    ensures RunCalculator(map["operation" := JString("divide"), "num1" := JNumber(a), "num2" := JNumber(0.0)]) == ToolErr("division by zero")
  {
    var args := map["operation" := JString("divide"), "num1" := JNumber(a), "num2" := JNumber(0.0)];
    assert StringArg(args, "operation") == Some("divide");
  }
}
