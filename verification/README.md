# AI-SERVER relay, modelled in Dafny

AI-SERVER is a small chat relay written in Rust. Viewers send chat messages
through a WebSocket hub. One background loop takes the messages one at a time
and runs each as a user turn against an OpenAI-compatible streaming backend.
During a turn, the relay:

- broadcasts the reply's visible text to every viewer and hides the
  `<tool_request>…</tool_request>` markup;
- extracts tool requests from the reply;
- runs each request through a fixed catalogue of six arithmetic tools;
- feeds the results back to the model, for at most five model calls per turn.

The project models that core as pure functions over immutable datatypes:

- `base.dfy`: `Option`/`Result` and the Rust `str` operations the relay relies
  on: `find`/`contains`, `split`, `join`, `starts_with`, `trim_start_matches`.
- `json.dfy`: JSON values and the `serde_json` accessors the relay uses
  (`get`, `as_str`, `as_object`, `as_f64`).
- `events.dfy`: the notices broadcast to viewers (`connected`, `start`,
  `chunk`, `tool_start`, `tool_result`, `end`).
- `tools.rs` is modelled in `tools.dfy`: the catalogue (`get_available_tools`)
  and the dispatcher (`execute_tool`) with its exact error texts.
- `hub.dfy`: the WebSocket hub. It has the inbound FIFO (`receive_message`),
  the receive task's enqueue filter, `broadcast_json`, and the rule that a new
  viewer's first notice is `connected`. Any non-text item ends the connection.
- `filter.dfy`: the streaming half of `chat_completion_stream`. Reads are cut
  into `\n\n` segments. `data: ` payloads are kept, and `[DONE]` ends only the
  current read. The markup filter works one fragment at a time.
- `extract.dfy`: `parse_tool_requests`. The regex
  `<tool_request>\s*(\[.*?\])\s*</tool_request>` is implemented as a
  leftmost-first scanner and proved against a declarative description of a
  match. Greedy `\s*` takes the whole run of Unicode white space; lazy `.*?`
  stops at the first `]` followed by spaces and the closing tag, and never
  crosses a line break. Then come the "first capture that parses" rule and the
  per-entry filter.
- `prompt.dfy`: `format_tools_for_prompt` and the system prompt that holds it.
- `turn.dfy`: `process_message`, the whole user turn. It covers the rounds of
  model call, extraction and tool runs, the five-call cap, the
  `start`/`end` bracketing, and what the turn leaves in the shared transcript.
- `server.dfy`: the loop in `main`. It polls the hub, runs one turn at a time
  and broadcasts the turn's notices. Actions are an interleaving of
  connections, socket items and polls.

The backend, the JSON text codec and the float library are parameters:

- The backend is a function from the transcript sent to its streamed reply.
  The reply is either a send failure or a sequence of reads, each of which
  is bytes or a read error.
- `serde_json` parsing and display are functions. One decodes a stream chunk,
  one parses a JSON array, one renders a value.
- `powf` and `sqrt` are functions. `powf` may yield no number, which stands
  for NaN or an infinity, whose JSON form is `null`.

Numbers are mathematical reals.

## Model

| member | source | states |
|---|---|---|
| Base.IndexOf | src/main.rs:134 | The index returned is an occurrence of the pattern with none before it; no index means the pattern occurs nowhere. |
| Base.ContainsIff | src/main.rs:148 | `contains` holds exactly when the pattern occurs at some position. |
| Base.JoinSplit | src/main.rs:120 | Splitting a read on `\n\n` loses nothing: joining the pieces with the separator gives the read back. |
| Base.SplitPiecesFree | src/main.rs:120 | No piece of a split contains the separator. Each cut is at the leftmost occurrence, so no occurrence of the separator starts inside any piece's span of the text. |
| Base.SplitNoSeparator | src/main.rs:120 | A read without a separator is a single segment. |
| Base.TrimStartMatchesStrips | src/main.rs:122 | The result is a suffix of the input. What was removed is whole copies of the pattern, and the result does not start with the pattern, so every leading `data: ` is stripped. |
| Base.JoinContainsEach | src/main.rs:249 | Every result line occurs in the lines joined with `\n`. |
| Tools.Execute | src/tools.rs:126-255 | A result succeeds exactly when it has no error. A failure has a `null` result. An unlisted name fails with `Unknown tool: <name>`. |
| Tools.CatalogueNames | src/tools.rs:30-124 | The catalogue lists exactly add, subtract, multiply, divide, power and sqrt, in that order. |
| Tools.DispatchMatchesCatalogue | src/tools.rs:127-254 | A call draws the unknown-tool error exactly when its name is not in the catalogue. |
| Tools.ErrorTextsDiffer | src/tools.rs:141-252 | The unknown-tool, invalid-arguments, division-by-zero and negative-root texts differ pairwise, whatever tool names they carry. |
| Tools.ParametersMatchCatalogue | src/tools.rs:30-248 | For each catalogued tool, a call fails with its invalid-arguments text exactly when a declared parameter is missing or not a number. |
| Tools.ArithmeticSucceeds | src/tools.rs:128-178 | With numeric `a` and `b`, add, subtract and multiply succeed with the sum, difference and product. |
| Tools.DivisionOutcome | src/tools.rs:179-205 | With numeric `a` and `b`, divide fails with `Division by zero` exactly when `b` is zero, and otherwise returns the quotient. |
| Tools.SqrtOutcome | src/tools.rs:223-248 | With a numeric value, sqrt succeeds exactly when the value is not negative. A negative value gets the negative-root error, and a success carries the square root. |
| Hub.Initial | src/ws_server.rs:30-37 | The hub starts with no viewers, an empty queue and a valid state. |
| Hub.Poll | src/ws_server.rs:63-70 | A poll returns nothing exactly when the queue is empty, and then nothing changes. Otherwise it returns the oldest message, and the rest of the queue is unchanged. |
| Hub.ReceiveText | src/ws_server.rs:114-121 | A text that decodes as a client message is appended to the back of the queue. Any other text leaves the hub unchanged. |
| Hub.Connect | src/ws_server.rs:90-100 | A new viewer gets a fresh identity and a log holding only `connected`. Other viewers and the queue are untouched, and validity is kept. |
| Hub.Disconnect | src/ws_server.rs:124-128 | Teardown removes exactly that viewer, keeps the other logs and the queue, and keeps validity. |
| Hub.Broadcast | src/ws_server.rs:59-61 | Every live viewer's log gets the notice appended. With no viewers, nothing changes. |
| Hub.BroadcastAll | src/ws_server.rs:59-61 | Broadcasting a run of notices keeps the set of viewers, the queue and validity. |
| Hub.BroadcastAllDelivers | src/ws_server.rs:103-109 | Every viewer connected throughout gets the whole run of notices, in order. |
| Hub.Receive | src/ws_server.rs:112-128 | A text item goes to the enqueue filter. Any other item tears down only that connection: the other viewers' logs, the queue and the identity counter are kept. Items for a closed connection are ignored. |
| Hub.QueueStepFifo | src/ws_server.rs:117-120 | One arrival or poll: what was taken, then what is queued, equals the old queue plus the accepted arrival. |
| Hub.QueueIsFifo | src/ws_server.rs:63-70 | Under any interleaving of arrivals and polls, the messages taken and then those left equal the old queue plus the accepted arrivals, in order. |
| Filter.Step | src/main.rs:130-151 | A fragment always joins the accumulated text. It is either shown or hidden, and no other notice is produced. |
| Filter.RunAppend | src/main.rs:112-158 | The filter's state carries over unchanged from one batch of fragments, or one read, to the next. |
| Filter.RawIsConcat | src/main.rs:131 | The accumulated text is the concatenation of every fragment, hidden ones included. |
| Filter.OpeningFragmentHidden | src/main.rs:134-139 | A fragment that contains the opening tag is never shown. |
| Filter.ClosingFragment | src/main.rs:139-150 | A fragment with only the closing tag is shown exactly when the filter was not hiding. After it, the filter is not hiding. |
| Filter.SuppressingIffInside | src/main.rs:112-150 | The filter is hiding exactly when the last fragment that mentions a tag opened and did not close. |
| Filter.VisibleIsShown | src/main.rs:138-146 | The shown fragments are exactly those with no opening tag whose predecessors leave the filter outside markup, in order. |
| Filter.SingleToolBlock | src/main.rs:133-150 | Tag-free text, one tool block, then tag-free text shows exactly the text before and after the block. |
| Filter.TagFreeShown | src/main.rs:139-146 | Outside markup, tag-free fragments are all shown, in order. |
| Filter.BlockHidden | src/main.rs:134-150 | A tool block opened outside markup is hidden entirely, and the filter ends outside markup. |
| Filter.HiddenWhileInside | src/main.rs:135-139 | Inside markup, tag-free fragments are all hidden, and the filter stays inside. |
| Filter.ScanSegmentsIsRun | src/main.rs:120-157 | Scanning a read's segments is the filter run over the fragments those segments carry. |
| Filter.ReadChunksIsRun | src/main.rs:116-158 | Over a stream of reads, the shown fragments and the returned text are those of the filter over all carried fragments. The stream fails exactly when some read failed. |
| Filter.StreamIsFilteredFragments | src/main.rs:97-160 | A completed stream returns the concatenation of its fragments and shows the filtered ones. It fails exactly when sending failed or some read failed. |
| Filter.DoneEndsOnlyItsRead | src/main.rs:120-125 | `[DONE]` drops the rest of its own read, but later reads are still processed. |
| Filter.SegmentsUpToDone | src/main.rs:123-125 | Segments after `[DONE]` in a read carry no fragments. |
| Filter.SkippedSegment | src/main.rs:121-154 | A segment without the `data: ` prefix, or with a payload that does not decode, changes nothing. |
| Extract.SkipSpacesIsRun | src/main.rs:66 | `\s*` takes a run of white space that ends at the end of the text or at a non-space character. |
| Extract.SpacesEndAt | src/main.rs:66 | A white-space run followed by a non-space character is the whole run, so `\s*` has no choice before `[` or `<`. |
| Extract.CloseAfterFinds | src/main.rs:66 | The closing tag found follows white space only. None is found exactly when no run of spaces is followed by the closing tag. |
| Extract.LazyCloseIsLeast | src/main.rs:66 | Finds the least `]` before a line break that is followed by spaces and the closing tag. None is found when no such `]` exists. |
| Extract.MatchAtIsLeast | src/main.rs:66 | A match at a position has the regex's shape and the least possible closing bracket. There is no match exactly when no shape starts there. |
| Extract.Find | src/main.rs:68 | Finds the leftmost match at or after a position; no match means none from there on. |
| Extract.NoCapturesIffNoMatch | src/main.rs:66-68 | The capture list is empty exactly when the text has no match anywhere. |
| Extract.MatchIsBracketed | src/main.rs:66-69 | A match's capture starts with `[` and ends with `]`. |
| Extract.CapturesAreBracketed | src/main.rs:66-69 | Every capture starts with `[` and ends with `]`. |
| Extract.AsRequest | src/main.rs:73-79 | An entry is kept exactly when it is an object with a string `name` and an object `arguments`, and it is kept as that pair. |
| Extract.KeepAppend | src/main.rs:72-81 | The entry filter works entry by entry and keeps their order. |
| Extract.KeepContents | src/main.rs:71-81 | A request is in the result exactly when some entry of the array converts to it. |
| Extract.KeepNoneValid | src/main.rs:72-82 | An array of only invalid entries yields the empty request list. |
| Extract.FirstParsed | src/main.rs:68-86 | Returns none exactly when no capture parses as an array; otherwise returns the array of the first capture that parses. |
| Extract.ParseToolRequests | src/main.rs:65-87 | Returns none exactly when no capture parses as an array. Otherwise it returns the filtered entries of the first capture that parses. |
| Extract.NoMatchNoRequests | src/main.rs:86 | Text with no tool-request match yields none. |
| Extract.AllInvalidIsEmpty | src/main.rs:71-82 | When the first parsable array has only invalid entries, the result is `Some([])`, not none. |
| Prompt.DescribeListsParameters | src/main.rs:47-55 | A tool's block holds its `Tool:` line and one line per parameter. |
| Prompt.PromptHoldsBlock | src/main.rs:47-55 | The tools description holds the block of every tool. |
| Prompt.PromptListsCatalogue | src/main.rs:43-62 | The description opens with the header and ends with the usage footer. It holds every tool's line and every parameter's line. |
| Prompt.SystemPromptListsTools | src/main.rs:287-292 | The system prompt holds the tools description and a `Tool:` line for each of the six tools. |
| Turn.Chunks | src/main.rs:139-145 | Each shown fragment becomes one `chunk` notice, in order. |
| Turn.RequestNames | src/main.rs:213-216 | `tool_start` lists the request names in request order. |
| Turn.RunTools | src/main.rs:218-242 | Each request gives exactly one result line and one `tool_result` notice. |
| Turn.RunToolsInOrder | src/main.rs:218-242 | Line `j` and notice `j` are both built from the dispatcher's result for request `j`, in request order. |
| Turn.ModelCall | src/main.rs:192-199 | A model call sends only `chunk` notices, with no `start` and no `end`. They are exactly the fragments the markup filter shows, in order. It fails exactly when sending failed or some read failed. A success returns the concatenation of all fragments. |
| Turn.ToolRound | src/main.rs:202-251 | A tool round adds the raw reply as an assistant entry and then the results entry. Its notices are the chunks, `tool_start`, then the results. |
| Turn.Answer | src/main.rs:192-269 | A round fails exactly when its stream failed, with that error and the call's chunks. It is the final answer exactly when the stream completed and no request list parsed, and the answer is the raw reply. A tool round adds the raw reply as an assistant entry, then a tool entry, and its notices start with the call's chunks. |
| Turn.Rounds | src/main.rs:187-270 | There are one to five requests, the first carrying the transcript. |
| Turn.RoundsShape | src/main.rs:187-270 | Each request carries the previous one plus two entries, and entries alternate between assistant and tool. A failed round adds nothing. One `start` is re-announced per later request, and no `end` is sent. |
| Turn.RoundsFollowAnswers | src/main.rs:201-258 | Every request but the last got a reply that asked for tools, and the next request carries that transcript plus the reply's two entries. |
| Turn.RoundsEndWithLastReply | src/main.rs:192-270 | The last reply decides the ending. A failed stream is the error and adds nothing. An answer is appended as the final entry. Tools asked for in the fifth round leave their two entries last. |
| Turn.RoundsAnnounce | src/main.rs:192-258 | The rounds' notices are each reply's own notices, with one `start` between consecutive rounds. |
| Turn.NextRound | src/main.rs:253-258 | One tool round followed by a re-announced `start` keeps the chaining, the alternation and the `start` count. |
| Turn.AlternatingRoles | src/main.rs:202-267 | The rounds add only assistant and tool entries. |
| Turn.ProcessMessage | src/main.rs:163-278 | The transcript gains the user entry and then only assistant and tool entries. It makes one to five requests, the first carrying the transcript plus the user entry, and each a prefix of the final transcript. The first notice is `start`, with one `start` per request. `end` is sent exactly when no stream failed, and then it is last. |
| Turn.TurnChainsToolRounds | src/main.rs:187-258 | Every request of a turn but the last got a reply that asked for tools, and the next request carries that transcript plus the round's assistant and tool entries. |
| Turn.TurnEndsWithLastReply | src/main.rs:192-278 | The turn fails exactly when the last model call failed, and then keeps that request's transcript and returns its error. A last reply without requests is appended as the answer. A last reply asking for tools is the fifth, and its two entries close the transcript. |
| Turn.TurnFailsIffSomeCallFails | src/main.rs:192-199 | A turn returns an error exactly when one of its model calls failed. |
| Turn.TurnAnnounces | src/main.rs:181-276 | The turn's notices are `start`, each reply's own notices with `start` between rounds, and `end` on success. |
| Turn.Bracket | src/main.rs:181-276 | The turn's notices open with `start`, contain `end` exactly when the turn succeeded, and then end with it. |
| Turn.ChainedPrefixes | src/main.rs:188-199 | Request `k` carries the transcript plus the first `k` rounds' entries, so it is a prefix of the final transcript. |
| Turn.RoundsCapped | src/main.rs:187-258 | If every reply asks for tools, the rounds make exactly five requests and add ten entries. The outcome is normal, with four re-announced `start`s. |
| Turn.PerpetualToolsCapped | src/main.rs:187-276 | A model that always asks for tools is called five times. The turn still ends normally, eleven entries longer, with a tool entry last. |
| Turn.FinalAnswerFirst | src/main.rs:259-276 | A first reply without a parsable request is the answer. The turn adds the user entry and that reply, and its notices are `start`, the chunks and `end`. |
| Turn.StreamFailureFirst | src/main.rs:192-199 | A failed first stream returns its error, keeps only the user entry and sends no `end`. |
| Turn.ToolRoundThenNext | src/main.rs:253-258 | After a tool round, the next request carries that round's entries, and the notices continue with a fresh `start`. |
| Turn.FirstToolRound | src/main.rs:202-258 | A first reply that asks for tools leads to a second request. That request carries the raw reply and the results entry. The notices open with `start`, the chunks, `tool_start`, one `tool_result` per request and `start`. |
| Turn.AnswerRunsTools | src/main.rs:201-202 | A reply that streams and parses to a request list (even an empty one) is handled as a tool round. |
| Turn.ToolEntryHoldsResults | src/main.rs:225-249 | The results entry contains the line of every request. |
| Server.Boot | src/main.rs:287-292 | At start-up, the transcript is the system prompt alone, with no user entry; the hub is empty and valid. |
| Server.Turns | src/main.rs:314-322 | The relay's turns are `process_message`. Each one appends the user entry and then only entries of other roles. |
| Server.Serve | src/main.rs:311-323 | A poll that finds a message takes the oldest one and keeps the turn's transcript even on error. It delivers the turn's notices to every connected viewer, and the transcript gains exactly that message as a user entry. |
| Server.Step | src/main.rs:309-327 | An action keeps the queue FIFO and validity. Only polls change the transcript, and an empty poll changes nothing. |
| Server.Run | src/main.rs:309-327 | Over any run of actions, the taken messages plus those still queued equal the old queue plus the accepted ones. The transcript only grows, and its user entries grow by exactly the taken messages. |
| Server.ServedInOrderFrom | src/main.rs:309-327 | From an empty queue, the user entries plus the waiting messages are exactly the accepted messages, in arrival order. |
| Server.ServedInArrivalOrder | src/main.rs:289-327 | From start-up, messages are answered one at a time in arrival order, the hub stays valid, and the system prompt stays first. |

## Left out

- HTTP, environment variables, the port and ANSI console output are not
  modelled. The backend is a parameter: a function from the transcript sent
  to its streamed reply.
- `serde_json` text parsing and `Display` are parameters. So are stream-chunk
  decoding, array parsing and rendering a value in a result line.
- IEEE-754 arithmetic is not modelled; numbers are mathematical reals.
  `powf` and `sqrt` are parameters.
- Tools.ArithmeticSucceeds: does not model `f64` overflow. An infinite sum,
  difference or product serialises as `null` in the source, while reals give
  a number.
- Tools.DivisionOutcome: does not model `f64` overflow of a quotient, for the
  same reason.
- `String::from_utf8_lossy` and byte boundaries are not modelled. A read
  arrives as text, so a character split across two reads is not represented.
- Concurrency is not modelled: tokio tasks, the broadcast channel's capacity
  of 100, lagging receivers and the 10 ms pause are left out. Each action is
  atomic, so viewers cannot join or leave in the middle of a turn. The send
  task's failure and the `select!` race are folded into `Hub.Receive`'s
  teardown.
- The stream's `delta` object is flattened into the choice, and
  `finish_reason` is carried but never read, as in the source.
- The markup filter tests each fragment for a tag separately. A tag split
  across two fragments is therefore not detected, as in the source.
- `Regex::new(..).ok()?` cannot fail for this constant pattern, so that early
  return is not modelled.
- Tool-request extraction tries every regex match in turn and uses the first
  whose capture parses as an array, following the code at src/main.rs:68-85.
- src/data_base.rs, src/lms.rs and web/app.js are not part of this model.
