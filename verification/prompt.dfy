/** `format_tools_for_prompt` and the system entry the transcript starts
    with: the tool catalogue rendered as text for the model. */
module Prompt {
  import opened Base
  import opened Tools

  const Header: string := "\n\nYou have access to the following tools:\n\n"

  /** The usage instructions after the last tool. */
  const Footer: string :=
    "To use a tool, respond with: <tool_request>[{\"name\": \"tool_name\", \"arguments\": {\"param\": value}}]</tool_request>\n"
    + "You can call multiple tools by including multiple objects in the array.\n"
    + "After receiving tool results, provide your final answer to the user.\n"

  /** The line naming a tool, which opens its description. */
  function ToolLine(t: Tool): string
  {
    "Tool: " + t.name + "\n"
  }

  function ParameterLine(p: Parameter): string
  {
    "  - " + p.name + " (" + p.paramType + "): " + p.description + "\n"
  }

  /** One tool's block: name, description, one line per parameter, and a
      blank line. */
  function Describe(t: Tool): string
  {
    ToolLine(t) + "Description: " + t.description + "\n" + "Parameters:\n"
    + Concat(seq(|t.parameters|, k requires 0 <= k < |t.parameters| => ParameterLine(t.parameters[k])))
    + "\n"
  }

  /** The prompt text for a catalogue. */
  function FormatTools(tools: seq<Tool>): string
  {
    Header + Concat(seq(|tools|, i requires 0 <= i < |tools| => Describe(tools[i]))) + Footer
  }

  /** `format_tools_for_prompt`, which lists the built-in catalogue. */
  function FormatToolsForPrompt(): string
  {
    FormatTools(AvailableTools())
  }

  const Preamble: string := "You are a helpful AI assistant with access to mathematical tools."

  const Closing: string :=
    "\n\nWhen users ask mathematical questions that require calculations, "
    + "you should use the appropriate tools. After using tools and receiving results, "
    + "provide a clear answer to the user."

  /** The first transcript entry's text. */
  function SystemPrompt(): string
  {
    Preamble + FormatToolsForPrompt() + Closing
  }

  /** Containment is transitive. */
  lemma ContainsTransitive(s: string, mid: string, p: string)
    requires Contains(s, mid) && Contains(mid, p)
    ensures Contains(s, p)
  {
    var i := IndexOf(s, mid).value;
    assert s == s[..i] + mid + s[i + |mid|..];
    ContainsWithin(s[..i], mid, s[i + |mid|..], p);
  }

  /** A string framed by `a` and `c` starts with `a` and ends with `c`. */
  lemma Framed(a: string, b: string, c: string)
    ensures a <= a + b + c
    ensures var f := a + b + c; |c| <= |f| && f[|f| - |c|..] == c
  {
    var f := a + b + c;
    assert f[..|a|] == a;
    assert f[|f| - |c|..] == c;
  }

  /** A tool's block names it and lists every one of its parameters. */
  lemma DescribeListsParameters(t: Tool)
    ensures Contains(Describe(t), ToolLine(t))
    ensures forall k :: 0 <= k < |t.parameters| ==> Contains(Describe(t), ParameterLine(t.parameters[k]))
  {
    var lines := seq(|t.parameters|, k requires 0 <= k < |t.parameters| => ParameterLine(t.parameters[k]));
    var head := ToolLine(t) + "Description: " + t.description + "\n" + "Parameters:\n";
    var rest := "Description: " + t.description + "\n" + "Parameters:\n" + Concat(lines) + "\n";
    assert Describe(t) == "" + ToolLine(t) + rest;
    ContainsMiddle("", ToolLine(t), rest);
    forall k | 0 <= k < |t.parameters| ensures Contains(Describe(t), ParameterLine(t.parameters[k])) {
      ConcatContainsEach(lines, k);
      assert Describe(t) == head + Concat(lines) + "\n";
      ContainsWithin(head, Concat(lines), "\n", lines[k]);
    }
  }

  /** One tool's block sits in the prompt. */
  lemma PromptHoldsBlock(tools: seq<Tool>, i: nat)
    requires i < |tools|
    ensures Contains(FormatTools(tools), Describe(tools[i]))
  {
    var blocks := seq(|tools|, j requires 0 <= j < |tools| => Describe(tools[j]));
    ConcatContainsEach(blocks, i);
    ContainsWithin(Header, Concat(blocks), Footer, blocks[i]);
  }

  /** The prompt opens with the header, closes with the usage
      instructions, and names every tool of the catalogue together with
      every parameter it takes. */
  lemma PromptListsCatalogue(tools: seq<Tool>)
    ensures Header <= FormatTools(tools)
    ensures var f := FormatTools(tools); |Footer| <= |f| && f[|f| - |Footer|..] == Footer
    ensures forall i :: 0 <= i < |tools| ==> Contains(FormatTools(tools), ToolLine(tools[i]))
    ensures forall i, k :: 0 <= i < |tools| && 0 <= k < |tools[i].parameters| ==>
      Contains(FormatTools(tools), ParameterLine(tools[i].parameters[k]))
  {
    Framed(Header, Concat(seq(|tools|, j requires 0 <= j < |tools| => Describe(tools[j]))), Footer);
    forall i | 0 <= i < |tools|
      ensures Contains(FormatTools(tools), ToolLine(tools[i]))
      ensures forall k :: 0 <= k < |tools[i].parameters| ==>
        Contains(FormatTools(tools), ParameterLine(tools[i].parameters[k]))
    {
      PromptHoldsBlock(tools, i);
      DescribeListsParameters(tools[i]);
      ContainsTransitive(FormatTools(tools), Describe(tools[i]), ToolLine(tools[i]));
      forall k | 0 <= k < |tools[i].parameters|
        ensures Contains(FormatTools(tools), ParameterLine(tools[i].parameters[k]))
      {
        ContainsTransitive(FormatTools(tools), Describe(tools[i]), ParameterLine(tools[i].parameters[k]));
      }
    }
  }

  /** The system entry carries the whole tool listing, and so names every
      built-in tool. */
  lemma SystemPromptListsTools()
    ensures Contains(SystemPrompt(), FormatToolsForPrompt())
    ensures forall i :: 0 <= i < |ToolNames| ==> Contains(SystemPrompt(), "Tool: " + ToolNames[i] + "\n")
  {
    ContainsMiddle(Preamble, FormatToolsForPrompt(), Closing);
    PromptListsCatalogue(AvailableTools());
    CatalogueNames();
    forall i | 0 <= i < |ToolNames| ensures Contains(SystemPrompt(), "Tool: " + ToolNames[i] + "\n") {
      assert ToolLine(AvailableTools()[i]) == "Tool: " + ToolNames[i] + "\n";
      ContainsTransitive(SystemPrompt(), FormatToolsForPrompt(), ToolLine(AvailableTools()[i]));
    }
  }
}
