/** The tagged JSON notices the server sends to viewers. The model keeps
    them structured; their serialisation with `serde_json::to_string` is
    not part of this model. */
module Events {
  import opened Json

  datatype Event =
    /** `{"type": "connected", "message": "Connected to Chat-IBM"}`, sent to one new viewer. */
    | Connected
    /** `{"type": "start", "role": "assistant"}`: a model response begins. */
    | Start
    /** `{"type": "chunk", "content": ...}`: one visible fragment. */
    | Chunk(content: string)
    /** `{"type": "tool_start", "tools": [...]}`: the names about to run. */
    | ToolStart(tools: seq<string>)
    /** `{"type": "tool_result", "tool": ..., "result": ..., "success": ...}`. */
    | ToolFinished(tool: string, result: Value, success: bool)
    /** `{"type": "end"}`: the turn is over. */
    | End

  /** The number of `start` notices in a log. */
  function CountStarts(es: seq<Event>): nat
    decreases |es|
  {
    if |es| == 0 then 0 else CountStarts(es[..|es| - 1]) + (if es[|es| - 1].Start? then 1 else 0)
  }

  lemma {:induction false} CountStartsAppend(a: seq<Event>, b: seq<Event>)
    ensures CountStarts(a + b) == CountStarts(a) + CountStarts(b)
    decreases |b|
  {
    if |b| == 0 {
      assert a + b == a;
    } else {
      assert (a + b)[..|a + b| - 1] == a + b[..|b| - 1];
      CountStartsAppend(a, b[..|b| - 1]);
    }
  }
}
