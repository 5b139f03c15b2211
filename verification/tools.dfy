/** The arithmetic tool catalogue and its dispatcher. `powf` and `sqrt` are
    supplied by a `Libm` value, because the model does not interpret
    floating-point transcendental functions. */
module Tools {
  import opened Base
  import opened Json

  datatype Parameter = Parameter(name: string, paramType: string, description: string)

  datatype Tool = Tool(name: string, description: string, parameters: seq<Parameter>)

  /** A tool invocation; the source always builds its arguments as a JSON object. */
  datatype ToolCall = ToolCall(name: string, arguments: map<string, Value>)

  datatype ToolResult = ToolResult(success: bool, result: Value, error: Option<string>)

  /** The floating-point library. `powf` yields `None` where the IEEE result
      is NaN or infinite, which `json!` turns into `null`; `sqrt` is only
      asked about non-negative numbers, whose roots are finite. */
  datatype Libm = Libm(powf: (real, real) -> Option<real>, sqrt: real -> real)

  function Number(a: string, d: string): Parameter
  {
    Parameter(a, "number", d)
  }

  /** The names `execute_tool` dispatches on. */
  const ToolNames: seq<string> := ["add", "subtract", "multiply", "divide", "power", "sqrt"]

  /** The catalogue offered to the model, in the order it is listed. */
  function AvailableTools(): (tools: seq<Tool>)
  {
    [ Tool("add", "Add two numbers together",
           [Number("a", "First number"), Number("b", "Second number")]),
      Tool("subtract", "Subtract second number from first number",
           [Number("a", "First number"), Number("b", "Second number")]),
      Tool("multiply", "Multiply two numbers together",
           [Number("a", "First number"), Number("b", "Second number")]),
      Tool("divide", "Divide first number by second number",
           [Number("a", "Numerator"), Number("b", "Denominator")]),
      Tool("power", "Raise first number to the power of second number",
           [Number("base", "Base number"), Number("exponent", "Exponent")]),
      Tool("sqrt", "Calculate square root of a number",
           [Number("value", "Number to find square root of")]) ]
  }

  function Names(tools: seq<Tool>): (names: seq<string>)
    ensures |names| == |tools|
    ensures forall i :: 0 <= i < |tools| ==> names[i] == tools[i].name
    decreases |tools|
  {
    if |tools| == 0 then [] else [tools[0].name] + Names(tools[1..])
  }

  /** The argument named `key`, if it is a JSON number. */
  function NumArg(args: map<string, Value>, key: string): Option<real>
  {
    AsF64(Field(args, key))
  }

  function Succeed(v: Value): ToolResult
  {
    ToolResult(true, v, None)
  }

  function Fail(message: string): ToolResult
  {
    ToolResult(false, JNull, Some(message))
  }

  /** `json!(x)` of an `f64` that may be NaN or infinite. */
  function FromFloat(x: Option<real>): Value
  {
    match x
    case Some(r) => JNum(r)
    case None => JNull
  }

  /** The error text for a missing or non-numeric argument of tool `name`. */
  function InvalidArguments(name: string): string
  {
    if name == "sqrt" then "Invalid argument for sqrt" else "Invalid arguments for " + name
  }

  const DivisionByZero: string := "Division by zero"

  /** The text `sqrt` reports for a negative argument. */
  const NegativeRoot: string := "Cannot calculate square root " + "of negative number"

  function UnknownTool(name: string): string
  {
    "Unknown tool: " + name
  }

  function Add(args: map<string, Value>): ToolResult
  {
    var a, b := NumArg(args, "a"), NumArg(args, "b");
    if a.Some? && b.Some? then Succeed(JNum(a.value + b.value)) else Fail(InvalidArguments("add"))
  }

  function Subtract(args: map<string, Value>): ToolResult
  {
    var a, b := NumArg(args, "a"), NumArg(args, "b");
    if a.Some? && b.Some? then Succeed(JNum(a.value - b.value)) else Fail(InvalidArguments("subtract"))
  }

  function Multiply(args: map<string, Value>): ToolResult
  {
    var a, b := NumArg(args, "a"), NumArg(args, "b");
    if a.Some? && b.Some? then Succeed(JNum(a.value * b.value)) else Fail(InvalidArguments("multiply"))
  }

  /** The comparison `b == 0.0` is exact, so only a zero divisor fails. */
  function Divide(args: map<string, Value>): ToolResult
  {
    var a, b := NumArg(args, "a"), NumArg(args, "b");
    if a.Some? && b.Some? then
      if b.value == 0.0 then Fail(DivisionByZero) else Succeed(JNum(a.value / b.value))
    else
      Fail(InvalidArguments("divide"))
  }

  function Power(args: map<string, Value>, libm: Libm): ToolResult
  {
    var base, exponent := NumArg(args, "base"), NumArg(args, "exponent");
    if base.Some? && exponent.Some? then Succeed(FromFloat(libm.powf(base.value, exponent.value)))
    else Fail(InvalidArguments("power"))
  }

  function Sqrt(args: map<string, Value>, libm: Libm): ToolResult
  {
    match NumArg(args, "value")
    case Some(value) => if value < 0.0 then Fail(NegativeRoot) else Succeed(JNum(libm.sqrt(value)))
    case None => Fail(InvalidArguments("sqrt"))
  }

  /** `execute_tool`. Every failure carries an error and a `null` result,
      and every success carries no error: the relay's `unwrap` of the error
      of a failed call can therefore never panic. */
  function Execute(call: ToolCall, libm: Libm): (r: ToolResult)
    ensures r.success <==> r.error.None?
    ensures !r.success ==> r.result == JNull
    ensures call.name !in ToolNames ==> r == Fail("Unknown tool: " + call.name)
  {
    match call.name
    case "add" => Add(call.arguments)
    case "subtract" => Subtract(call.arguments)
    case "multiply" => Multiply(call.arguments)
    case "divide" => Divide(call.arguments)
    case "power" => Power(call.arguments, libm)
    case "sqrt" => Sqrt(call.arguments, libm)
    case _ => Fail(UnknownTool(call.name))
  }

  /** The catalogue lists exactly the dispatched names, in this order. */
  lemma CatalogueNames()
    ensures Names(AvailableTools()) == ToolNames
  {
  }

  /** The dispatcher's four kinds of error text differ pairwise, whatever
      the tool names in them: each starts with its own letter. */
  lemma ErrorTextsDiffer(name: string, other: string)
    ensures UnknownTool(name) != InvalidArguments(other)
    ensures UnknownTool(name) != DivisionByZero && UnknownTool(name) != NegativeRoot
    ensures InvalidArguments(name) != DivisionByZero && InvalidArguments(name) != NegativeRoot
    ensures DivisionByZero != NegativeRoot
  {
    assert UnknownTool(name)[0] == 'U' && InvalidArguments(other)[0] == 'I';
    assert InvalidArguments(name)[0] == 'I';
    assert DivisionByZero[0] == 'D' && NegativeRoot[0] == 'C';
  }

  /** A name is dispatched exactly when the catalogue lists it: only names
      outside the catalogue draw the "Unknown tool" error. */
  lemma DispatchMatchesCatalogue(call: ToolCall, libm: Libm)
    ensures call.name in Names(AvailableTools())
        <==> Execute(call, libm).error != Some(UnknownTool(call.name))
  {
    CatalogueNames();
    DispatchedIffListed(call, libm);
  }

  /** Only names outside `ToolNames` draw the "Unknown tool" error. */
  lemma DispatchedIffListed(call: ToolCall, libm: Libm)
    ensures call.name in ToolNames <==> Execute(call, libm).error != Some(UnknownTool(call.name))
  {
    ErrorTextsDiffer(call.name, call.name);
    var r := Execute(call, libm);
    if call.name in ToolNames && r.error.Some? {
      assert r.error.value in {InvalidArguments(call.name), DivisionByZero, NegativeRoot};
    }
  }

  /** For every listed tool, the arguments the dispatcher reads are exactly
      the parameters the catalogue declares: the call is rejected as invalid
      precisely when one declared parameter is missing or not a number. */
  lemma ParametersMatchCatalogue(i: nat, args: map<string, Value>, libm: Libm)
    requires i < |AvailableTools()|
    ensures var t := AvailableTools()[i];
      Execute(ToolCall(t.name, args), libm) == Fail(InvalidArguments(t.name))
      <==> exists k :: 0 <= k < |t.parameters| && NumArg(args, t.parameters[k].name).None?
  {
    var t := AvailableTools()[i];
    var ps := t.parameters;
    if i < 5 {
      assert |ps| == 2;
      assert (exists k :: 0 <= k < |ps| && NumArg(args, ps[k].name).None?)
         <==> NumArg(args, ps[0].name).None? || NumArg(args, ps[1].name).None?;
      assert i < 4 ==> ps[0].name == "a" && ps[1].name == "b";
      assert i == 4 ==> t.name == "power" && ps[0].name == "base" && ps[1].name == "exponent";
      BinaryInvalid(t.name, ps[0].name, ps[1].name, args, libm);
    } else {
      assert t.name == "sqrt" && |ps| == 1 && ps[0].name == "value";
      assert (exists k :: 0 <= k < |ps| && NumArg(args, ps[k].name).None?) <==> NumArg(args, ps[0].name).None?;
      SqrtInvalid(args, libm);
    }
  }

  /** A two-argument tool is rejected as invalid exactly when one of its two
      arguments is missing or not a number. */
  lemma BinaryInvalid(name: string, x: string, y: string, args: map<string, Value>, libm: Libm)
    requires || (name in ["add", "subtract", "multiply", "divide"] && x == "a" && y == "b")
             || (name == "power" && x == "base" && y == "exponent")
    ensures Execute(ToolCall(name, args), libm) == Fail(InvalidArguments(name))
        <==> NumArg(args, x).None? || NumArg(args, y).None?
  {
    ErrorTextsDiffer(name, name);
  }

  lemma SqrtInvalid(args: map<string, Value>, libm: Libm)
    ensures Execute(ToolCall("sqrt", args), libm) == Fail(InvalidArguments("sqrt"))
        <==> NumArg(args, "value").None?
  {
    ErrorTextsDiffer("sqrt", "sqrt");
  }

  /** With two numeric arguments, the three ring operations succeed with
      the exact sum, difference and product. */
  lemma ArithmeticSucceeds(args: map<string, Value>, libm: Libm)
    requires NumArg(args, "a").Some? && NumArg(args, "b").Some?
    ensures Execute(ToolCall("add", args), libm)
         == ToolResult(true, JNum(NumArg(args, "a").value + NumArg(args, "b").value), None)
    ensures Execute(ToolCall("subtract", args), libm)
         == ToolResult(true, JNum(NumArg(args, "a").value - NumArg(args, "b").value), None)
    ensures Execute(ToolCall("multiply", args), libm)
         == ToolResult(true, JNum(NumArg(args, "a").value * NumArg(args, "b").value), None)
  {
  }

  /** Division by a numeric zero fails with a `null` result; any other
      numeric divisor yields the quotient. */
  lemma DivisionOutcome(args: map<string, Value>, libm: Libm)
    requires NumArg(args, "a").Some? && NumArg(args, "b").Some?
    ensures var r := Execute(ToolCall("divide", args), libm);
      if NumArg(args, "b").value == 0.0
      then r == ToolResult(false, JNull, Some("Division by zero"))
      else r == ToolResult(true, JNum(NumArg(args, "a").value / NumArg(args, "b").value), None)
  {
  }

  /** The square root fails exactly for negative numbers. */
  lemma SqrtOutcome(args: map<string, Value>, libm: Libm)
    requires NumArg(args, "value").Some?
    ensures var r := Execute(ToolCall("sqrt", args), libm);
      var v := NumArg(args, "value").value;
      (r.success <==> v >= 0.0)
      && (v < 0.0 ==> r == ToolResult(false, JNull, Some(NegativeRoot)))
      && (v >= 0.0 ==> r.result == JNum(libm.sqrt(v)))
  {
  }
}
