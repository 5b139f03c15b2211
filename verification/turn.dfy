/** `process_message`: one user turn. The user entry is appended, then up
    to five rounds run: each round sends the whole transcript to the model,
    streams the reply through the markup filter, and either runs the tools
    the reply asks for and goes round again, or keeps the reply as the
    answer. The backend, serde and `Display` for JSON values are parameters. */
module Turn {
  import opened Base
  import opened Json
  import opened Events
  import opened Tools
  import opened Filter
  import opened Extract

  datatype Role = System | User | Assistant | ToolRole

  /** A transcript entry; `ToolRole` is the role written `"tool"`. */
  datatype Message = Message(role: Role, content: string)

  /** The JSON text handling the model leaves to serde: decoding a stream
      payload, reading a capture as an array, and printing a value. */
  datatype Codec = Codec(
    decodeChunk: string -> Option<StreamChunk>,
    parseArray: string -> Option<seq<Value>>,
    render: Value -> string)

  /** Everything outside the relay. The backend answers a request that
      carries the whole transcript; since every request's transcript is
      longer than the one before, this is as general as a script of replies. */
  datatype Env = Env(backend: seq<Message> -> Reply, codec: Codec, libm: Libm)

  /** `max_iterations`. */
  const MaxIterations: nat := 5

  /** The visible fragments as `chunk` notices, in order. */
  function Chunks(visible: seq<string>): (es: seq<Event>)
    ensures |es| == |visible|
    ensures forall k :: 0 <= k < |es| ==> es[k] == Chunk(visible[k])
    decreases |visible|
  {
    if |visible| == 0 then [] else [Chunk(visible[0])] + Chunks(visible[1..])
  }

  /** The names listed by `tool_start`, in request order. */
  function RequestNames(reqs: seq<ToolRequest>): (names: seq<string>)
    ensures |names| == |reqs|
    ensures forall j :: 0 <= j < |reqs| ==> names[j] == reqs[j].name
    decreases |reqs|
  {
    if |reqs| == 0 then [] else [reqs[0].name] + RequestNames(reqs[1..])
  }

  /** The dispatcher's answer to one request. */
  function Outcome(req: ToolRequest, libm: Libm): ToolResult
  {
    Execute(ToolCall(req.name, req.arguments), libm)
  }

  /** The line a tool result contributes to the tool entry. The failure
      line reads the error, which every failed result carries. */
  function ResultLine(name: string, r: ToolResult, render: Value -> string): string
    requires r.success || r.error.Some?
  {
    if r.success then "Tool '" + name + "' returned: " + render(r.result)
    else "Tool '" + name + "' error: " + r.error.value
  }

  /** The `tool` entry: every result line, one per line, between markers. */
  function ToolResults(lines: seq<string>): string
  {
    "<tool_results>\n" + Join(lines, "\n") + "\n</tool_results>"
  }

  datatype Ran = Ran(lines: seq<string>, events: seq<Event>)

  /** Running the requests one after another: one result line and one
      `tool_result` notice per request, in request order. */
  function RunTools(reqs: seq<ToolRequest>, env: Env): (ran: Ran)
    ensures |ran.lines| == |reqs| && |ran.events| == |reqs|
    ensures forall j :: 0 <= j < |ran.events| ==> ran.events[j].ToolFinished?
    decreases |reqs|
  {
    if |reqs| == 0 then Ran([], [])
    else
      var r := Outcome(reqs[0], env.libm);
      var rest := RunTools(reqs[1..], env);
      Ran([ResultLine(reqs[0].name, r, env.codec.render)] + rest.lines,
          [ToolFinished(reqs[0].name, r.result, r.success)] + rest.events)
  }

  /** Request `j` gives line `j` and notice `j`, both from the dispatcher's
      answer to that request alone. */
  lemma {:induction false} RunToolsInOrder(reqs: seq<ToolRequest>, env: Env)
    ensures var ran := RunTools(reqs, env);
      forall j :: 0 <= j < |reqs| ==>
        var r := Outcome(reqs[j], env.libm);
        && ran.lines[j] == ResultLine(reqs[j].name, r, env.codec.render)
        && ran.events[j] == ToolFinished(reqs[j].name, r.result, r.success)
    decreases |reqs|
  {
    if |reqs| > 0 {
      RunToolsInOrder(reqs[1..], env);
      var ran := RunTools(reqs, env);
      var rest := RunTools(reqs[1..], env);
      forall j | 0 < j < |reqs|
        ensures ran.lines[j] == rest.lines[j - 1] && ran.events[j] == rest.events[j - 1] && reqs[j] == reqs[1..][j - 1]
      {
      }
    }
  }

  /** No notice is a `start` or an `end`. */
  ghost predicate Quiet(es: seq<Event>)
  {
    forall k :: 0 <= k < |es| ==> !es[k].Start? && !es[k].End?
  }

  lemma {:induction false} QuietNoStarts(es: seq<Event>)
    requires Quiet(es)
    ensures CountStarts(es) == 0 && End !in es
    decreases |es|
  {
    if |es| > 0 {
      assert Quiet(es[..|es| - 1]) by {
        var init := es[..|es| - 1];
        forall k | 0 <= k < |init| ensures !init[k].Start? && !init[k].End? {
          assert init[k] == es[k];
        }
      }
      QuietNoStarts(es[..|es| - 1]);
    }
  }

  /** One model call over the transcript, with its visible fragments as
      `chunk` notices. */
  datatype Call = Call(shown: seq<Event>, result: Result<string>)

  function ModelCall(transcript: seq<Message>, env: Env): (c: Call)
    ensures CountStarts(c.shown) == 0 && End !in c.shown
    ensures forall k :: 0 <= k < |c.shown| ==> c.shown[k].Chunk?
    ensures env.backend(transcript).SendFailed? ==> c.shown == [] && c.result.Err?
    ensures env.backend(transcript).Streamed? ==>
      var fs := Fragments(env.backend(transcript).chunks, env.codec.decodeChunk);
      var visible := Run(Fresh(), fs).visible;
      && |c.shown| == |visible|
      && (forall k :: 0 <= k < |visible| ==> c.shown[k] == Chunk(visible[k]))
      && (c.result.Ok? ==> c.result.value == Concat(fs))
    ensures c.result.Err? <==>
      (env.backend(transcript).SendFailed?
       || exists i :: 0 <= i < |env.backend(transcript).chunks| && env.backend(transcript).chunks[i].ReadFailed?)
  {
    var out := ChatCompletionStream(env.backend(transcript), env.codec.decodeChunk);
    StreamIsFilteredFragments(env.backend(transcript), env.codec.decodeChunk);
    var shown := Chunks(out.visible);
    assert Quiet(shown);
    QuietNoStarts(shown);
    Call(shown, out.result)
  }

  /** The entries and notices of a round that ran tools: the reply as an
      assistant entry and the results as a tool entry; `tool_start`, then
      one `tool_result` per request. */
  datatype Exchange = Exchange(added: seq<Message>, events: seq<Event>)

  function ToolRound(shown: seq<Event>, response: string, requests: seq<ToolRequest>, env: Env): (x: Exchange)
    requires CountStarts(shown) == 0 && End !in shown
    ensures |x.added| == 2 && x.added[0] == Message(Assistant, response)
    ensures x.added[1] == Message(ToolRole, ToolResults(RunTools(requests, env).lines))
    ensures x.events == shown + [ToolStart(RequestNames(requests))] + RunTools(requests, env).events
    ensures CountStarts(x.events) == 0 && End !in x.events
  {
    var ran := RunTools(requests, env);
    var events := shown + [ToolStart(RequestNames(requests))] + ran.events;
    var tail := [ToolStart(RequestNames(requests))] + ran.events;
    assert Quiet(tail) by {
      forall k | 0 <= k < |tail| ensures !tail[k].Start? && !tail[k].End? {
        if k > 0 {
          assert tail[k] == ran.events[k - 1];
        }
      }
    }
    QuietNoStarts(tail);
    CountStartsAppend(shown, tail);
    assert events == shown + tail;
    Exchange([Message(Assistant, response), Message(ToolRole, ToolResults(ran.lines))], events)
  }

  /** How one round ends: the stream failed; the reply is the answer; or
      the reply asked for tools, which ran. `events` are the round's
      notices, `start` excluded. */
  datatype Reaction =
    | Failed(events: seq<Event>, error: string)
    | Answered(events: seq<Event>, response: string)
    | UsedTools(events: seq<Event>, added: seq<Message>)

  /** A round's notices hold no `start` or `end`, and a tool round adds an
      assistant entry and then a tool entry. */
  ghost predicate Proper(r: Reaction)
  {
    && CountStarts(r.events) == 0 && End !in r.events
    && (r.UsedTools? ==> |r.added| == 2 && r.added[0].role == Assistant && r.added[1].role == ToolRole)
  }

  /** One round over the transcript: one model call, the extractor on its
      raw text, and the requested tools. `Some([])` still counts as a tool
      request. */
  function Answer(transcript: seq<Message>, env: Env): (r: Reaction)
    ensures Proper(r)
    ensures var c := ModelCall(transcript, env);
      && (r.Failed? <==> c.result.Err?)
      && (r.Failed? ==> r.error == c.result.error && r.events == c.shown)
      && (r.Answered? <==> c.result.Ok? && ParseToolRequests(c.result.value, env.codec.parseArray).None?)
      && (r.Answered? ==> r.response == c.result.value && r.events == c.shown)
      && (r.UsedTools? ==> r.added[0] == Message(Assistant, c.result.value) && c.shown <= r.events)
  {
    var call := ModelCall(transcript, env);
    if call.result.Err? then Failed(call.shown, call.result.error)
    else
      var response := call.result.value;
      var requests := ParseToolRequests(response, env.codec.parseArray);
      if requests.None? then Answered(call.shown, response)
      else
        var x := ToolRound(call.shown, response, requests.value, env);
        UsedTools(x.events, x.added)
  }

  /** What the rounds from some iteration on did: the entries they added to
      the transcript, the notices they sent, the transcript each request
      carried, and whether they ended normally. */
  datatype Trace = Trace(added: seq<Message>, events: seq<Event>, prompts: seq<seq<Message>>, outcome: Result<()>)

  /** The entries added by the rounds alternate assistant and tool entries,
      starting with an assistant entry. */
  ghost predicate Alternating(added: seq<Message>)
    decreases |added|
  {
    |added| == 0
    || (added[0].role == Assistant
        && (|added| == 1 || (added[1].role == ToolRole && Alternating(added[2..]))))
  }

  /** The first request carries the transcript, and each later request
      carries the one before it plus the two entries of the round between. */
  ghost predicate Chained(transcript: seq<Message>, added: seq<Message>, prompts: seq<seq<Message>>)
    decreases |prompts|
  {
    |prompts| == 0
    || (prompts[0] == transcript
        && (|prompts| == 1 || (|added| >= 2 && Chained(transcript + added[..2], added[2..], prompts[1..]))))
  }

  /** The rounds from `iteration` on, over `transcript`, each answered by
      `answer`. A tool round re-announces `start` and goes on only while a
      later iteration remains; a failed stream ends everything at once. */
  function Rounds(iteration: nat, transcript: seq<Message>, answer: seq<Message> -> Reaction): (t: Trace)
    requires iteration < MaxIterations
    ensures 1 <= |t.prompts| <= MaxIterations - iteration && t.prompts[0] == transcript
    decreases MaxIterations - iteration
  {
    match answer(transcript)
    case Failed(events, error) => Trace([], events, [transcript], Err(error))
    case Answered(events, response) =>
      Trace([Message(Assistant, response)], events, [transcript], Ok(()))
    case UsedTools(events, added) =>
      if iteration < MaxIterations - 1 then
        var next := Rounds(iteration + 1, transcript + added, answer);
        Trace(added + next.added, events + [Start] + next.events, [transcript] + next.prompts, next.outcome)
      else
        Trace(added, events, [transcript], Ok(()))
  }

  /** The shape of rounds over `transcript` with `left` iterations left:
      the requests chain, the entries alternate assistant and tool, every
      round but a failed one adds its entries (a tool round in the last
      iteration adds both and stops), one `start` is announced between
      rounds, and no `end`. */
  ghost predicate Shaped(transcript: seq<Message>, t: Trace, left: nat)
  {
    && Chained(transcript, t.added, t.prompts)
    && Alternating(t.added)
    && (t.outcome.Err? ==> |t.added| == 2 * (|t.prompts| - 1))
    && (t.outcome.Ok? ==> (|t.added| == 2 * |t.prompts| - 1
                           || (|t.added| == 2 * |t.prompts| && |t.prompts| == left)))
    && CountStarts(t.events) == |t.prompts| - 1
    && End !in t.events
  }

  lemma {:induction false} RoundsShape(iteration: nat, transcript: seq<Message>, answer: seq<Message> -> Reaction)
    requires iteration < MaxIterations
    requires forall m :: Proper(answer(m))
    ensures Shaped(transcript, Rounds(iteration, transcript, answer), MaxIterations - iteration)
    decreases MaxIterations - iteration
  {
    var r := answer(transcript);
    assert Proper(r);
    RoundsUnfold(iteration, transcript, answer);
    var t := Rounds(iteration, transcript, answer);
    if r.UsedTools? && iteration < MaxIterations - 1 {
      var next := Rounds(iteration + 1, transcript + r.added, answer);
      RoundsShape(iteration + 1, transcript + r.added, answer);
      ShapedStep(transcript, r, next, t, MaxIterations - iteration);
    } else {
      ShapedLast(transcript, r, t, MaxIterations - iteration);
    }
  }

  lemma ShapedStep(transcript: seq<Message>, r: Reaction, next: Trace, t: Trace, left: nat)
    requires Proper(r) && r.UsedTools? && left >= 1
    requires Shaped(transcript + r.added, next, left - 1)
    requires t == Trace(r.added + next.added, r.events + [Start] + next.events, [transcript] + next.prompts, next.outcome)
    ensures Shaped(transcript, t, left)
  {
    NextRound(transcript, r.added, r.events, next);
  }

  lemma ShapedLast(transcript: seq<Message>, r: Reaction, t: Trace, left: nat)
    requires Proper(r) && left >= 1
    requires r.UsedTools? ==> left == 1
    requires t.prompts == [transcript] && t.events == r.events
    requires t.added == (if r.Answered? then [Message(Assistant, r.response)] else if r.UsedTools? then r.added else [])
    requires t.outcome == (if r.Failed? then Err(r.error) else Ok(()))
    ensures Shaped(transcript, t, left)
  {
    if r.UsedTools? {
      assert r.added[2..] == [];
    }
  }

  /** The notices of rounds over the given requests, one round per
      request, with a `start` between consecutive rounds. */
  ghost function Announced(prompts: seq<seq<Message>>, answer: seq<Message> -> Reaction): seq<Event>
    decreases |prompts|
  {
    if |prompts| == 0 then []
    else if |prompts| == 1 then answer(prompts[0]).events
    else answer(prompts[0]).events + [Start] + Announced(prompts[1..], answer)
  }

  /** One level of `Rounds`: a tool round with a later iteration left is
      followed by the rounds over the extended transcript; any other reply
      is the last round. */
  lemma RoundsUnfold(iteration: nat, transcript: seq<Message>, answer: seq<Message> -> Reaction)
    requires iteration < MaxIterations
    requires forall m :: Proper(answer(m))
    ensures var t := Rounds(iteration, transcript, answer);
      var r := answer(transcript);
      && (r.UsedTools? && iteration < MaxIterations - 1 ==>
            var next := Rounds(iteration + 1, transcript + r.added, answer);
            && t == Trace(r.added + next.added, r.events + [Start] + next.events, [transcript] + next.prompts, next.outcome)
            && next.prompts[0] == transcript + r.added)
      && (!(r.UsedTools? && iteration < MaxIterations - 1) ==>
            && t.prompts == [transcript] && t.events == r.events
            && t.added == (if r.Answered? then [Message(Assistant, r.response)] else if r.UsedTools? then r.added else [])
            && t.outcome == (if r.Failed? then Err(r.error) else Ok(())))
  {
  }

  /** Every request but the last got a reply that ran tools, and the next
      request carries the transcript of that one plus the round's entries. */
  lemma {:induction false} RoundsFollowAnswers(iteration: nat, transcript: seq<Message>, answer: seq<Message> -> Reaction)
    requires iteration < MaxIterations
    requires forall m :: Proper(answer(m))
    ensures var t := Rounds(iteration, transcript, answer);
      forall k :: 0 <= k < |t.prompts| - 1 ==>
        answer(t.prompts[k]).UsedTools? && t.prompts[k + 1] == t.prompts[k] + answer(t.prompts[k]).added
    decreases MaxIterations - iteration
  {
    var r := answer(transcript);
    RoundsUnfold(iteration, transcript, answer);
    if r.UsedTools? && iteration < MaxIterations - 1 {
      var next := Rounds(iteration + 1, transcript + r.added, answer);
      RoundsFollowAnswers(iteration + 1, transcript + r.added, answer);
      ChainStep(transcript, r.added, next.prompts, answer);
    }
  }

  lemma ChainStep(transcript: seq<Message>, added: seq<Message>, later: seq<seq<Message>>, answer: seq<Message> -> Reaction)
    requires answer(transcript).UsedTools? && added == answer(transcript).added
    requires |later| >= 1 && later[0] == transcript + added
    requires forall k :: 0 <= k < |later| - 1 ==>
      answer(later[k]).UsedTools? && later[k + 1] == later[k] + answer(later[k]).added
    ensures var ps := [transcript] + later;
      forall k :: 0 <= k < |ps| - 1 ==> answer(ps[k]).UsedTools? && ps[k + 1] == ps[k] + answer(ps[k]).added
  {
    var ps := [transcript] + later;
    forall k | 0 <= k < |ps| - 1 ensures answer(ps[k]).UsedTools? && ps[k + 1] == ps[k] + answer(ps[k]).added {
      if k > 0 {
        assert ps[k] == later[k - 1] && ps[k + 1] == later[k];
      }
    }
  }

  /** The last reply decides how rounds over `transcript` ended, with
      `left` iterations left: a failed stream is the outcome's error and
      adds nothing, an answer is appended as the final entry, and tools
      asked for in the last allowed round leave their two entries last. */
  ghost predicate EndsWithLastReply(transcript: seq<Message>, t: Trace, answer: seq<Message> -> Reaction, left: nat)
    requires |t.prompts| >= 1
  {
    var n := |t.prompts|;
    var a := answer(t.prompts[n - 1]);
    && (t.outcome.Err? <==> a.Failed?)
    && (a.Failed? ==> t.outcome == Err(a.error) && transcript + t.added == t.prompts[n - 1])
    && (a.Answered? ==> transcript + t.added == t.prompts[n - 1] + [Message(Assistant, a.response)])
    && (a.UsedTools? ==> n == left && transcript + t.added == t.prompts[n - 1] + a.added)
  }

  lemma {:induction false} RoundsEndWithLastReply(iteration: nat, transcript: seq<Message>, answer: seq<Message> -> Reaction)
    requires iteration < MaxIterations
    requires forall m :: Proper(answer(m))
    ensures EndsWithLastReply(transcript, Rounds(iteration, transcript, answer), answer, MaxIterations - iteration)
    decreases MaxIterations - iteration
  {
    var r := answer(transcript);
    RoundsUnfold(iteration, transcript, answer);
    var t := Rounds(iteration, transcript, answer);
    if r.UsedTools? && iteration < MaxIterations - 1 {
      var next := Rounds(iteration + 1, transcript + r.added, answer);
      RoundsEndWithLastReply(iteration + 1, transcript + r.added, answer);
      EndsStep(transcript, r, next, t, answer, MaxIterations - iteration);
    } else {
      EndsLast(transcript, r, t, answer, MaxIterations - iteration);
    }
  }

  lemma EndsStep(transcript: seq<Message>, r: Reaction, next: Trace, t: Trace, answer: seq<Message> -> Reaction, left: nat)
    requires r.UsedTools? && left >= 1 && |next.prompts| >= 1
    requires EndsWithLastReply(transcript + r.added, next, answer, left - 1)
    requires t == Trace(r.added + next.added, r.events + [Start] + next.events, [transcript] + next.prompts, next.outcome)
    ensures EndsWithLastReply(transcript, t, answer, left)
  {
    assert t.prompts[|t.prompts| - 1] == next.prompts[|next.prompts| - 1];
    assert transcript + t.added == (transcript + r.added) + next.added;
  }

  lemma EndsLast(transcript: seq<Message>, r: Reaction, t: Trace, answer: seq<Message> -> Reaction, left: nat)
    requires r == answer(transcript)
    requires r.UsedTools? ==> left == 1
    requires t.prompts == [transcript]
    requires t.added == (if r.Answered? then [Message(Assistant, r.response)] else if r.UsedTools? then r.added else [])
    requires t.outcome == (if r.Failed? then Err(r.error) else Ok(()))
    ensures EndsWithLastReply(transcript, t, answer, left)
  {
    assert transcript + [] == transcript;
  }

  /** The rounds' notices are each round's own, with `start` between
      consecutive rounds. */
  lemma {:induction false} RoundsAnnounce(iteration: nat, transcript: seq<Message>, answer: seq<Message> -> Reaction)
    requires iteration < MaxIterations
    requires forall m :: Proper(answer(m))
    ensures var t := Rounds(iteration, transcript, answer);
      t.events == Announced(t.prompts, answer)
    decreases MaxIterations - iteration
  {
    var r := answer(transcript);
    RoundsUnfold(iteration, transcript, answer);
    if r.UsedTools? && iteration < MaxIterations - 1 {
      var next := Rounds(iteration + 1, transcript + r.added, answer);
      RoundsAnnounce(iteration + 1, transcript + r.added, answer);
      var ps := [transcript] + next.prompts;
      assert ps[1..] == next.prompts;
    }
  }

  /** The rounds add only assistant and tool entries. */
  lemma {:induction false} AlternatingRoles(added: seq<Message>)
    requires Alternating(added)
    ensures forall k :: 0 <= k < |added| ==> added[k].role in {Assistant, ToolRole}
    decreases |added|
  {
    if |added| >= 2 {
      AlternatingRoles(added[2..]);
      forall k | 2 <= k < |added| ensures added[k].role in {Assistant, ToolRole} {
        assert added[k] == added[2..][k - 2];
      }
    }
  }

  /** Putting one tool round in front of the rounds after it keeps the
      chain, the alternation and the count of `start` notices. */
  lemma NextRound(transcript: seq<Message>, added: seq<Message>, events: seq<Event>, next: Trace)
    requires |added| == 2 && added[0].role == Assistant && added[1].role == ToolRole
    requires Chained(transcript + added, next.added, next.prompts)
    requires Alternating(next.added)
    requires CountStarts(events) == 0 && End !in events && End !in next.events
    ensures Chained(transcript, added + next.added, [transcript] + next.prompts)
    ensures Alternating(added + next.added)
    ensures CountStarts(events + [Start] + next.events) == 1 + CountStarts(next.events)
    ensures End !in events + [Start] + next.events
  {
    var all := added + next.added;
    var prompts := [transcript] + next.prompts;
    assert all[..2] == added && all[2..] == next.added && prompts[1..] == next.prompts;
    CountStartsAppend(events, [Start]);
    CountStartsAppend(events + [Start], next.events);
    assert CountStarts([Start]) == 1 by {
      assert [Start][..0] == [];
    }
  }

  /** The relay's own rounds. */
  function Answers(env: Env): (answer: seq<Message> -> Reaction)
    ensures forall m :: answer(m) == Answer(m, env)
    ensures forall m :: Proper(answer(m))
  {
    m => Answer(m, env)
  }

  /** What one user turn did. */
  datatype TurnResult = TurnResult(transcript: seq<Message>, events: seq<Event>, prompts: seq<seq<Message>>, outcome: Result<()>)

  /** `process_message`: append the user entry, announce `start`, run the
      rounds, and announce `end` unless a stream failed. */
  function ProcessMessage(content: string, transcript: seq<Message>, env: Env): (r: TurnResult)
    ensures TurnShaped(content, transcript, r)
  {
    var withUser := transcript + [Message(User, content)];
    var t := Rounds(0, withUser, Answers(env));
    RoundsShape(0, withUser, Answers(env));
    TurnOfRounds(content, transcript, t);
    TurnResult(withUser + t.added, Bracket(t.events, t.outcome.Ok?), t.prompts, t.outcome)
  }

  /** What every turn looks like: the transcript keeps what it had, gains
      the user entry and then only assistant and tool entries; there are one
      to five requests, the first carrying the transcript with the user
      entry and each a prefix of the final transcript; the notices open with
      `start`, announce one `start` per request, and hold `end`, as their
      last notice, exactly when the turn ended normally. */
  ghost predicate TurnShaped(content: string, transcript: seq<Message>, r: TurnResult)
  {
    && |r.transcript| > |transcript|
    && r.transcript[..|transcript| + 1] == transcript + [Message(User, content)]
    && 1 <= |r.prompts| <= MaxIterations
    && r.prompts[0] == transcript + [Message(User, content)]
    && (forall k :: 0 <= k < |r.prompts| ==> r.prompts[k] <= r.transcript)
    && |r.events| >= 1 && r.events[0] == Start
    && CountStarts(r.events) == |r.prompts|
    && (r.outcome.Ok? <==> End in r.events)
    && (r.outcome.Ok? ==> r.events[|r.events| - 1] == End)
    && (forall k :: |transcript| < k < |r.transcript| ==> r.transcript[k].role in {Assistant, ToolRole})
  }

  /** Rounds of the right shape over the transcript with the user entry
      make a turn of the right shape. */
  lemma TurnOfRounds(content: string, transcript: seq<Message>, t: Trace)
    requires var withUser := transcript + [Message(User, content)];
      && 1 <= |t.prompts| <= MaxIterations && t.prompts[0] == withUser
      && Shaped(withUser, t, MaxIterations)
    ensures var withUser := transcript + [Message(User, content)];
      TurnShaped(content, transcript, TurnResult(withUser + t.added, Bracket(t.events, t.outcome.Ok?), t.prompts, t.outcome))
  {
    var withUser := transcript + [Message(User, content)];
    ChainedPrefixes(withUser, t.added, t.prompts);
    AlternatingRoles(t.added);
    assert (withUser + t.added)[..|transcript| + 1] == withUser;
  }

  /** The turn is the rounds over the transcript with the user entry. */
  lemma TurnIsRounds(content: string, transcript: seq<Message>, env: Env)
    ensures var withUser := transcript + [Message(User, content)];
      var t := Rounds(0, withUser, Answers(env));
      ProcessMessage(content, transcript, env)
        == TurnResult(withUser + t.added, [Start] + t.events + (if t.outcome.Ok? then [End] else []), t.prompts, t.outcome)
  {
  }

  /** Every request of a turn but the last got a reply that asked for
      tools, and the next request carries that request's transcript plus
      the round's assistant and tool entries. */
  lemma TurnChainsToolRounds(content: string, transcript: seq<Message>, env: Env)
    ensures var r := ProcessMessage(content, transcript, env);
      forall k :: 0 <= k < |r.prompts| - 1 ==>
        CallsTools(r.prompts[k], env) && r.prompts[k + 1] == r.prompts[k] + Answer(r.prompts[k], env).added
  {
    var withUser := transcript + [Message(User, content)];
    TurnIsRounds(content, transcript, env);
    RoundsFollowAnswers(0, withUser, Answers(env));
  }

  /** The reply to the turn's last request decides how it ends: a failed
      stream is the turn's error, with nothing appended after that
      request's transcript; a reply without tool requests is appended as
      the answer; a reply asking for tools can only be the fifth, and its
      two entries close the transcript. */
  ghost predicate DecidedByLastReply(r: TurnResult, env: Env)
    requires |r.prompts| >= 1
  {
    var last := r.prompts[|r.prompts| - 1];
    var c := ModelCall(last, env);
    && (r.outcome.Err? <==> c.result.Err?)
    && (c.result.Err? ==> r.outcome == Err(c.result.error) && r.transcript == last)
    && (c.result.Ok? && ParseToolRequests(c.result.value, env.codec.parseArray).None? ==>
          r.transcript == last + [Message(Assistant, c.result.value)])
    && (CallsTools(last, env) ==>
          |r.prompts| == MaxIterations && r.transcript == last + Answer(last, env).added)
  }

  lemma TurnEndsWithLastReply(content: string, transcript: seq<Message>, env: Env)
    ensures var r := ProcessMessage(content, transcript, env);
      |r.prompts| >= 1 && DecidedByLastReply(r, env)
  {
    var withUser := transcript + [Message(User, content)];
    var t := Rounds(0, withUser, Answers(env));
    var r := ProcessMessage(content, transcript, env);
    RoundsEndWithLastReply(0, withUser, Answers(env));
    TurnIsRounds(content, transcript, env);
    LastReplyMeaning(withUser, t, r, env);
  }

  lemma LastReplyMeaning(withUser: seq<Message>, t: Trace, r: TurnResult, env: Env)
    requires |t.prompts| >= 1
    requires EndsWithLastReply(withUser, t, Answers(env), MaxIterations)
    requires r.transcript == withUser + t.added && r.prompts == t.prompts && r.outcome == t.outcome
    ensures |r.prompts| >= 1 && DecidedByLastReply(r, env)
  {
    var last := t.prompts[|t.prompts| - 1];
    assert Answers(env)(last) == Answer(last, env);
  }

  /** A turn fails exactly when one of its model calls failed: every call
      before the last asked for tools, so only the last can have failed. */
  lemma TurnFailsIffSomeCallFails(content: string, transcript: seq<Message>, env: Env)
    ensures var r := ProcessMessage(content, transcript, env);
      r.outcome.Err? <==> exists k :: 0 <= k < |r.prompts| && ModelCall(r.prompts[k], env).result.Err?
  {
    var r := ProcessMessage(content, transcript, env);
    TurnChainsToolRounds(content, transcript, env);
    TurnEndsWithLastReply(content, transcript, env);
    var n := |r.prompts|;
    if r.outcome.Err? {
      assert ModelCall(r.prompts[n - 1], env).result.Err?;
    }
    forall k | 0 <= k < n - 1 ensures ModelCall(r.prompts[k], env).result.Ok? {
      assert CallsTools(r.prompts[k], env);
    }
  }

  /** A turn's notices: `start`, each round's own notices with `start`
      between rounds, and `end` when the turn ended normally. */
  lemma TurnAnnounces(content: string, transcript: seq<Message>, env: Env)
    ensures var r := ProcessMessage(content, transcript, env);
      r.events == [Start] + Announced(r.prompts, Answers(env)) + (if r.outcome.Ok? then [End] else [])
  {
    var withUser := transcript + [Message(User, content)];
    TurnIsRounds(content, transcript, env);
    RoundsAnnounce(0, withUser, Answers(env));
  }

  /** The turn's notices: `start`, the rounds' notices, and `end` when the
      rounds ended normally. */
  function Bracket(es: seq<Event>, ok: bool): (all: seq<Event>)
    requires End !in es
    ensures |all| >= 1 && all[0] == Start
    ensures CountStarts(all) == CountStarts(es) + 1
    ensures ok <==> End in all
    ensures ok ==> all[|all| - 1] == End
  {
    CountStartsAppend([Start], es);
    CountStartsAppend([Start] + es, if ok then [End] else []);
    assert CountStarts([Start]) == 1 by { assert [Start][..0] == []; }
    assert CountStarts([End]) == 0 by { assert [End][..0] == []; }
    [Start] + es + (if ok then [End] else [])
  }

  /** Request `k` carries the transcript plus the entries of the first
      `k` rounds, so every request's transcript is a prefix of the final one. */
  lemma {:induction false} ChainedPrefixes(transcript: seq<Message>, added: seq<Message>, prompts: seq<seq<Message>>)
    requires Chained(transcript, added, prompts)
    ensures forall k :: 0 <= k < |prompts| ==> 2 * k <= |added| && prompts[k] == transcript + added[..2 * k]
    ensures forall k :: 0 <= k < |prompts| ==> prompts[k] <= transcript + added
    decreases |prompts|
  {
    if |prompts| > 1 {
      var t1, a1, p1 := transcript + added[..2], added[2..], prompts[1..];
      ChainedPrefixes(t1, a1, p1);
      forall k | 0 < k < |prompts|
        ensures 2 * k <= |added| && prompts[k] == transcript + added[..2 * k]
      {
        assert prompts[k] == p1[k - 1];
        assert added[..2 * k] == added[..2] + a1[..2 * (k - 1)];
      }
    }
    assert added[..0] == [];
    forall k | 0 <= k < |prompts| ensures prompts[k] <= transcript + added {
      assert 2 * k <= |added|;
      assert transcript + added == transcript + added[..2 * k] + added[2 * k..];
    }
  }

  /** Rounds whose every reply asks for tools run to the cap. */
  lemma {:induction false} RoundsCapped(iteration: nat, transcript: seq<Message>, answer: seq<Message> -> Reaction)
    requires iteration < MaxIterations
    requires forall m :: Proper(answer(m)) && answer(m).UsedTools?
    ensures var r := Rounds(iteration, transcript, answer);
      && |r.prompts| == MaxIterations - iteration
      && |r.added| == 2 * (MaxIterations - iteration)
      && r.outcome.Ok?
    decreases MaxIterations - iteration
  {
    var here := answer(transcript);
    assert Proper(here) && here.UsedTools?;
    var r := Rounds(iteration, transcript, answer);
    if iteration < MaxIterations - 1 {
      var next := Rounds(iteration + 1, transcript + here.added, answer);
      RoundsCapped(iteration + 1, transcript + here.added, answer);
      assert r.added == here.added + next.added;
      assert r.prompts == [transcript] + next.prompts;
      assert |r.added| == 2 + |next.added|;
      assert |next.prompts| == MaxIterations - (iteration + 1);
      assert |r.prompts| == 1 + |next.prompts|;
    } else {
      assert r.added == here.added && r.prompts == [transcript];
    }
  }

  /** The model's reply to this transcript is streamed without error and
      asks for tools (possibly an empty list of them). */
  ghost predicate CallsTools(transcript: seq<Message>, env: Env)
  {
    var c := ModelCall(transcript, env);
    c.result.Ok? && ParseToolRequests(c.result.value, env.codec.parseArray).Some?
  }

  /** A model that asks for tools in every reply is called exactly five
      times; the turn still ends normally, with five tool rounds in the
      transcript and no final answer. */
  lemma PerpetualToolsCapped(content: string, transcript: seq<Message>, env: Env)
    requires forall m :: CallsTools(m, env)
    ensures var r := ProcessMessage(content, transcript, env);
      && |r.prompts| == MaxIterations
      && CountStarts(r.events) == MaxIterations
      && r.outcome.Ok?
      && |r.transcript| == |transcript| + 1 + 2 * MaxIterations
      && r.transcript[|r.transcript| - 1].role == ToolRole
  {
    var withUser := transcript + [Message(User, content)];
    var answer := Answers(env);
    forall m ensures Proper(answer(m)) && answer(m).UsedTools? {
      assert CallsTools(m, env);
    }
    RoundsCapped(0, withUser, answer);
    RoundsShape(0, withUser, answer);
    var t := Rounds(0, withUser, answer);
    AlternatingEven(t.added);
  }

  /** An alternating run of even length ends with a tool entry. */
  lemma {:induction false} AlternatingEven(added: seq<Message>)
    requires Alternating(added) && |added| > 0 && |added| % 2 == 0
    ensures added[|added| - 1].role == ToolRole
    decreases |added|
  {
    if |added| > 2 {
      AlternatingEven(added[2..]);
    }
  }

  /** A reply without tool markup is the answer: the turn makes one call,
      appends the user and assistant entries, and its notices are `start`,
      the reply's visible fragments, and `end`. */
  lemma FinalAnswerFirst(content: string, transcript: seq<Message>, env: Env)
    requires var c := ModelCall(transcript + [Message(User, content)], env);
      c.result.Ok? && ParseToolRequests(c.result.value, env.codec.parseArray).None?
    ensures var withUser := transcript + [Message(User, content)];
      var c := ModelCall(withUser, env);
      var r := ProcessMessage(content, transcript, env);
      && r.transcript == withUser + [Message(Assistant, c.result.value)]
      && r.prompts == [withUser]
      && r.events == [Start] + c.shown + [End]
      && r.outcome == Ok(())
  {
    var withUser := transcript + [Message(User, content)];
    assert Answers(env)(withUser) == Answer(withUser, env);
  }

  /** A failed stream in the first round ends the turn with its error:
      the user entry stays, nothing else is appended, and no `end` is sent. */
  lemma StreamFailureFirst(content: string, transcript: seq<Message>, env: Env)
    requires ModelCall(transcript + [Message(User, content)], env).result.Err?
    ensures var withUser := transcript + [Message(User, content)];
      var c := ModelCall(withUser, env);
      var r := ProcessMessage(content, transcript, env);
      && r.transcript == withUser
      && r.events == [Start] + c.shown
      && r.outcome == Err(c.result.error)
  {
    var withUser := transcript + [Message(User, content)];
    assert Answers(env)(withUser) == Answer(withUser, env);
    assert withUser + [] == withUser;
  }

  /** When the first round runs tools, the second request carries the
      transcript plus that round's two entries, and the rounds' notices
      open with that round's notices and a fresh `start`. */
  lemma ToolRoundThenNext(transcript: seq<Message>, answer: seq<Message> -> Reaction)
    requires forall m :: Proper(answer(m))
    requires answer(transcript).UsedTools?
    ensures var a := answer(transcript);
      var t := Rounds(0, transcript, answer);
      && |t.prompts| >= 2
      && t.prompts[1] == transcript + a.added
      && a.events + [Start] <= t.events
  {
    var a := answer(transcript);
    assert Proper(a);
    var next := Rounds(1, transcript + a.added, answer);
    var t := Rounds(0, transcript, answer);
    assert t.events == a.events + [Start] + next.events;
    assert t.prompts == [transcript] + next.prompts;
    assert next.prompts[0] == transcript + a.added;
  }

  /** A first reply that asks for tools, even for none: the assistant entry
      holds the raw reply, the tool entry holds the result lines, and the
      notices run `start`, visible fragments, `tool_start` with the names,
      one `tool_result` per request, then `start` for the second call. */
  lemma FirstToolRound(content: string, transcript: seq<Message>, env: Env)
    requires CallsTools(transcript + [Message(User, content)], env)
    ensures var withUser := transcript + [Message(User, content)];
      var c := ModelCall(withUser, env);
      var reqs := ParseToolRequests(c.result.value, env.codec.parseArray).value;
      var ran := RunTools(reqs, env);
      var r := ProcessMessage(content, transcript, env);
      var head := [Start] + c.shown + [ToolStart(RequestNames(reqs))] + ran.events + [Start];
      && |r.prompts| >= 2
      && r.prompts[1] == withUser + [Message(Assistant, c.result.value), Message(ToolRole, ToolResults(ran.lines))]
      && head <= r.events
  {
    var withUser := transcript + [Message(User, content)];
    var c := ModelCall(withUser, env);
    var reqs := ParseToolRequests(c.result.value, env.codec.parseArray).value;
    var x := ToolRound(c.shown, c.result.value, reqs, env);
    AnswerRunsTools(withUser, env);
    var answer := Answers(env);
    assert answer(withUser) == UsedTools(x.events, x.added);
    ToolRoundThenNext(withUser, answer);
    var t := Rounds(0, withUser, answer);
    var r := ProcessMessage(content, transcript, env);
    assert r.prompts == t.prompts;
    var tail := if t.outcome.Ok? then [End] else [];
    assert r.events == [Start] + t.events + tail;
    var ran := RunTools(reqs, env);
    assert x.events == c.shown + [ToolStart(RequestNames(reqs))] + ran.events;
    Regroup([Start], c.shown, [ToolStart(RequestNames(reqs))], ran.events, [Start]);
    PrefixInside([Start], x.events + [Start], t.events, tail);
  }

  /** A round whose reply asks for tools is the tool round over that reply. */
  lemma AnswerRunsTools(transcript: seq<Message>, env: Env)
    requires CallsTools(transcript, env)
    ensures var c := ModelCall(transcript, env);
      var x := ToolRound(c.shown, c.result.value, ParseToolRequests(c.result.value, env.codec.parseArray).value, env);
      Answer(transcript, env) == UsedTools(x.events, x.added)
  {
  }

  lemma Regroup<T>(a: seq<T>, b: seq<T>, c: seq<T>, d: seq<T>, e: seq<T>)
    ensures a + b + c + d + e == a + ((b + c + d) + e)
  {
  }

  lemma PrefixInside<T>(a: seq<T>, p: seq<T>, s: seq<T>, b: seq<T>)
    requires p <= s
    ensures a + p <= a + s + b
  {
    assert (a + s + b)[..|a + p|] == a + p;
  }

  /** The tool entry contains the line of every request, in the order of
      the requests. */
  lemma ToolEntryHoldsResults(reqs: seq<ToolRequest>, env: Env)
    ensures var lines := RunTools(reqs, env).lines;
      forall j :: 0 <= j < |reqs| ==>
        Contains(ToolResults(lines), ResultLine(reqs[j].name, Outcome(reqs[j], env.libm), env.codec.render))
  {
    var lines := RunTools(reqs, env).lines;
    RunToolsInOrder(reqs, env);
    forall j | 0 <= j < |reqs|
      ensures Contains(ToolResults(lines), ResultLine(reqs[j].name, Outcome(reqs[j], env.libm), env.codec.render))
    {
      JoinContainsEach(lines, "\n", j);
      ContainsWithin("<tool_results>\n", Join(lines, "\n"), "\n</tool_results>", lines[j]);
    }
  }
}
