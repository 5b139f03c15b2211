/** The streaming half of one model call: server-sent-event framing of the
    HTTP body and the one-boolean tool-markup filter that decides which
    content fragments viewers see. JSON decoding of an event payload is a
    parameter (`serde_json::from_str::<StreamChunk>`). */
module Filter {
  import opened Base

  const OpenTag: string := "<tool_request>"
  const CloseTag: string := "</tool_request>"

  /** The filter's state: all text so far, whether it is inside tool
      markup, and the fragments it has let through to viewers. */
  datatype Scan = Scan(raw: string, suppressing: bool, visible: seq<string>)

  function Fresh(): Scan
  {
    Scan("", false, [])
  }

  /** One content fragment. The raw text always grows by the fragment; an
      opening tag switches suppression on before the decision to show it,
      a closing tag switches it off only after, so both tag fragments stay
      hidden. Tags are found per fragment: one split across two fragments
      is not seen. */
  function Step(s: Scan, content: string): (s': Scan)
    ensures s'.raw == s.raw + content
    ensures s'.visible == s.visible || s'.visible == s.visible + [content]
  {
    var hiding := s.suppressing || Contains(content, OpenTag);
    Scan(s.raw + content,
         if Contains(content, CloseTag) then false else hiding,
         if hiding then s.visible else s.visible + [content])
  }

  /** The filter run over fragments in order. */
  function Run(s: Scan, fs: seq<string>): Scan
    decreases |fs|
  {
    if |fs| == 0 then s else Step(Run(s, fs[..|fs| - 1]), fs[|fs| - 1])
  }

  lemma {:induction false} RunAppend(s: Scan, a: seq<string>, b: seq<string>)
    ensures Run(s, a + b) == Run(Run(s, a), b)
    decreases |b|
  {
    if |b| == 0 {
      assert a + b == a;
    } else {
      assert (a + b)[..|a + b| - 1] == a + b[..|b| - 1];
      RunAppend(s, a, b[..|b| - 1]);
    }
  }

  /** The raw text is every fragment, shown or hidden, in order. */
  lemma {:induction false} RawIsConcat(s: Scan, fs: seq<string>)
    ensures Run(s, fs).raw == s.raw + Concat(fs)
    decreases |fs|
  {
    if |fs| > 0 {
      RawIsConcat(s, fs[..|fs| - 1]);
    }
  }

  /** A fragment that contains the opening tag is never shown. */
  lemma OpeningFragmentHidden(s: Scan, content: string)
    requires Contains(content, OpenTag)
    ensures Step(s, content).visible == s.visible
  {
  }

  /** A fragment with a closing but no opening tag is shown exactly when
      the filter was not already suppressing, and suppression is off after it. */
  lemma ClosingFragment(s: Scan, content: string)
    requires Contains(content, CloseTag) && !Contains(content, OpenTag)
    ensures Step(s, content).visible == s.visible + [content] <==> !s.suppressing
    ensures !Step(s, content).suppressing
  {
    if s.suppressing {
      assert |Step(s, content).visible| == |s.visible|;
    }
  }

  ghost predicate Opens(f: string) { Contains(f, OpenTag) }
  ghost predicate Closes(f: string) { Contains(f, CloseTag) }

  /** After `fs`, the last fragment with a tag that matters opened markup:
      some fragment opened without closing, and none closed since. */
  ghost predicate InsideMarkup(fs: seq<string>)
  {
    exists j :: 0 <= j < |fs| && Opens(fs[j]) && !Closes(fs[j])
      && forall k :: j < k < |fs| ==> !Closes(fs[k])
  }

  /** The filter's one boolean is exactly `InsideMarkup` of the fragments
      seen so far. */
  lemma {:induction false} SuppressingIffInside(fs: seq<string>)
    ensures Run(Fresh(), fs).suppressing <==> InsideMarkup(fs)
    decreases |fs|
  {
    if |fs| > 0 {
      var init := fs[..|fs| - 1];
      var last := fs[|fs| - 1];
      SuppressingIffInside(init);
      assert Run(Fresh(), fs) == Step(Run(Fresh(), init), last);
      if Closes(last) {
        ClosedNotInside(fs);
      } else if Opens(last) {
        OpenedInside(fs);
      } else {
        UntaggedKeepsInside(fs);
      }
    }
  }

  lemma ClosedNotInside(fs: seq<string>)
    requires |fs| > 0 && Closes(fs[|fs| - 1])
    ensures !InsideMarkup(fs)
  {
  }

  lemma OpenedInside(fs: seq<string>)
    requires |fs| > 0 && Opens(fs[|fs| - 1]) && !Closes(fs[|fs| - 1])
    ensures InsideMarkup(fs)
  {
    var j := |fs| - 1;
    assert Opens(fs[j]) && !Closes(fs[j]);
  }

  /** A fragment without tags leaves the markup state as it was. */
  lemma UntaggedKeepsInside(fs: seq<string>)
    requires |fs| > 0 && !Opens(fs[|fs| - 1]) && !Closes(fs[|fs| - 1])
    ensures InsideMarkup(fs) <==> InsideMarkup(fs[..|fs| - 1])
  {
    var init := fs[..|fs| - 1];
    assert fs == init + [fs[|fs| - 1]];
    if InsideMarkup(init) {
      InsideExtends(init, fs[|fs| - 1]);
    }
    if InsideMarkup(fs) {
      InsideShrinks(init, fs[|fs| - 1]);
    }
  }

  lemma InsideExtends(init: seq<string>, last: string)
    requires InsideMarkup(init) && !Closes(last)
    ensures InsideMarkup(init + [last])
  {
    var fs := init + [last];
    var j :| 0 <= j < |init| && Opens(init[j]) && !Closes(init[j])
      && forall k :: j < k < |init| ==> !Closes(init[k]);
    assert fs[j] == init[j];
    forall k | j < k < |fs| ensures !Closes(fs[k]) {
      if k < |init| { assert fs[k] == init[k]; }
    }
  }

  lemma InsideShrinks(init: seq<string>, last: string)
    requires InsideMarkup(init + [last]) && !Opens(last)
    ensures InsideMarkup(init)
  {
    var fs := init + [last];
    var j :| 0 <= j < |fs| && Opens(fs[j]) && !Closes(fs[j])
      && forall k :: j < k < |fs| ==> !Closes(fs[k]);
    assert fs[|init|] == last;
    assert init[j] == fs[j];
    forall k | j < k < |init| ensures !Closes(init[k]) {
      assert init[k] == fs[k];
    }
  }

  /** The fragment at `i` is shown: it has no opening tag and the fragments
      before it left the stream outside markup. */
  ghost predicate Shown(fs: seq<string>, i: int)
    requires 0 <= i < |fs|
  {
    !Opens(fs[i]) && !InsideMarkup(fs[..i])
  }

  /** The fragments viewers see, defined from `Shown` alone. */
  ghost function ShownFragments(fs: seq<string>): seq<string>
    decreases |fs|
  {
    if |fs| == 0 then []
    else ShownFragments(fs[..|fs| - 1]) + (if Shown(fs, |fs| - 1) then [fs[|fs| - 1]] else [])
  }

  /** The filter shows exactly the fragments `Shown` selects, in order. */
  lemma {:induction false} VisibleIsShown(fs: seq<string>)
    ensures Run(Fresh(), fs).visible == ShownFragments(fs)
    decreases |fs|
  {
    if |fs| > 0 {
      var init := fs[..|fs| - 1];
      VisibleIsShown(init);
      SuppressingIffInside(init);
      assert fs[..|fs| - 1] == init;
    }
  }

  /** No fragment carries either tag. */
  ghost predicate TagFree(fs: seq<string>)
  {
    forall k :: 0 <= k < |fs| ==> !Opens(fs[k]) && !Closes(fs[k])
  }

  /** An opening fragment, tag-free fragments, then a closing fragment; or
      one fragment carrying both tags. */
  ghost predicate ToolBlock(block: seq<string>)
  {
    && |block| > 0
    && Opens(block[0]) && Closes(block[|block| - 1])
    && (|block| > 1 ==> !Closes(block[0]) && !Opens(block[|block| - 1]))
    && (|block| > 1 ==> TagFree(block[1..|block| - 1]))
  }

  /** A stream holding one tool block between tag-free stretches: exactly
      the block's fragments, from the opening one through the closing one,
      are hidden, and every other fragment is shown in order. */
  lemma SingleToolBlock(before: seq<string>, block: seq<string>, after: seq<string>)
    requires TagFree(before) && ToolBlock(block) && TagFree(after)
    ensures Run(Fresh(), before + block + after).visible == before + after
  {
    var s1 := Run(Fresh(), before);
    TagFreeShown(Fresh(), before);
    var s2 := Run(s1, block);
    BlockHidden(s1, block);
    TagFreeShown(s2, after);
    RunAppend(Fresh(), before, block);
    RunAppend(Fresh(), before + block, after);
    assert s1.visible == before;
    assert s2.visible == before;
    assert Run(s2, after).visible == before + after;
    assert Run(Fresh(), before + block + after) == Run(s2, after);
  }

  /** Tag-free fragments from a non-suppressing state are all shown. */
  lemma {:induction false} TagFreeShown(s: Scan, fs: seq<string>)
    requires !s.suppressing && TagFree(fs)
    ensures Run(s, fs).visible == s.visible + fs && !Run(s, fs).suppressing
    decreases |fs|
  {
    if |fs| > 0 {
      var init := fs[..|fs| - 1];
      assert forall k :: 0 <= k < |init| ==> init[k] == fs[k];
      TagFreeShown(s, init);
      assert init + [fs[|fs| - 1]] == fs;
    }
  }

  /** A tool block is hidden as a whole and leaves the filter outside markup. */
  lemma BlockHidden(s: Scan, block: seq<string>)
    requires !s.suppressing && ToolBlock(block)
    ensures Run(s, block).visible == s.visible && !Run(s, block).suppressing
  {
    if |block| == 1 {
      assert Run(s, block) == Step(Run(s, []), block[0]);
    } else {
      var middle := block[1..|block| - 1];
      var s1 := Step(s, block[0]);
      assert Run(s, [block[0]]) == s1;
      HiddenWhileInside(s1, middle);
      RunAppend(s, [block[0]], middle);
      assert [block[0]] + middle == block[..|block| - 1];
    }
  }

  /** While suppressing, tag-free fragments are hidden. */
  lemma {:induction false} HiddenWhileInside(s: Scan, fs: seq<string>)
    requires s.suppressing && TagFree(fs)
    ensures Run(s, fs).visible == s.visible && Run(s, fs).suppressing
    decreases |fs|
  {
    if |fs| > 0 {
      var init := fs[..|fs| - 1];
      assert forall k :: 0 <= k < |init| ==> init[k] == fs[k];
      HiddenWhileInside(s, init);
    }
  }

  // ---------------------------------------------------------------------
  // Server-sent-event framing

  datatype StreamChoice = StreamChoice(content: Option<string>, finishReason: Option<string>)

  /** The decoded payload of one `data: ` event. */
  datatype StreamChunk = StreamChunk(choices: seq<StreamChoice>)

  /** One read from the HTTP body: bytes (as text) or a transport error. */
  datatype NetChunk = Bytes(text: string) | ReadFailed(reason: string)

  /** The backend's answer to one request: the request could not be sent,
      or a body arrived as a sequence of reads. */
  datatype Reply = SendFailed(reason: string) | Streamed(chunks: seq<NetChunk>)

  /** What one model call showed to viewers, and the raw text or the error. */
  datatype StreamOutcome = StreamOutcome(visible: seq<string>, result: Result<string>)

  const EventSeparator: string := "\n\n"
  const DataPrefix: string := "data: "
  const DoneMarker: string := "[DONE]"

  /** The payload of a segment, once every leading `data: ` is stripped. */
  function Payload(segment: string): string
  {
    TrimStartMatches(segment, DataPrefix)
  }

  /** A `data: [DONE]` segment, which ends the current read's segment loop. */
  predicate IsDone(segment: string)
  {
    DataPrefix <= segment && Payload(segment) == DoneMarker
  }

  /** The content fragment a segment carries: only `data: ` segments are
      decoded; an undecodable payload, an empty `choices` list or a first
      choice without content carry nothing. */
  function SegmentContent(segment: string, decode: string -> Option<StreamChunk>): Option<string>
  {
    if !(DataPrefix <= segment) then None
    else match decode(Payload(segment))
      case None => None
      case Some(chunk) => if |chunk.choices| > 0 then chunk.choices[0].content else None
  }

  /** The segment loop over one read, feeding each fragment to the filter. */
  function ScanSegments(s: Scan, segments: seq<string>, decode: string -> Option<StreamChunk>): Scan
    decreases |segments|
  {
    if |segments| == 0 || IsDone(segments[0]) then s
    else
      var content := SegmentContent(segments[0], decode);
      ScanSegments(if content.Some? then Step(s, content.value) else s, segments[1..], decode)
  }

  /** The outer loop over reads of the body. A failed read ends the call
      with an error; fragments shown before it stay shown. */
  function ReadChunks(s: Scan, chunks: seq<NetChunk>, decode: string -> Option<StreamChunk>): StreamOutcome
    decreases |chunks|
  {
    if |chunks| == 0 then StreamOutcome(s.visible, Ok(s.raw))
    else match chunks[0]
      case ReadFailed(reason) => StreamOutcome(s.visible, Err("Error reading stream: " + reason))
      case Bytes(text) => ReadChunks(ScanSegments(s, Split(text, EventSeparator), decode), chunks[1..], decode)
  }

  /** `chat_completion_stream`: one model call, from a fresh filter. */
  function ChatCompletionStream(reply: Reply, decode: string -> Option<StreamChunk>): StreamOutcome
  {
    match reply
    case SendFailed(reason) => StreamOutcome([], Err("Failed to send request to LM Studio: " + reason))
    case Streamed(chunks) => ReadChunks(Fresh(), chunks, decode)
  }

  // The content fragments of a stream, defined apart from the filter.

  function SegmentFragments(segments: seq<string>, decode: string -> Option<StreamChunk>): seq<string>
    decreases |segments|
  {
    if |segments| == 0 || IsDone(segments[0]) then []
    else
      var content := SegmentContent(segments[0], decode);
      (if content.Some? then [content.value] else []) + SegmentFragments(segments[1..], decode)
  }

  /** Every content fragment of the reads up to the first failed read. */
  function Fragments(chunks: seq<NetChunk>, decode: string -> Option<StreamChunk>): seq<string>
    decreases |chunks|
  {
    if |chunks| == 0 || chunks[0].ReadFailed? then []
    else SegmentFragments(Split(chunks[0].text, EventSeparator), decode) + Fragments(chunks[1..], decode)
  }

  /** The segment loop is the filter run over the segments' fragments. */
  lemma {:induction false} ScanSegmentsIsRun(s: Scan, segments: seq<string>, decode: string -> Option<StreamChunk>)
    ensures ScanSegments(s, segments, decode) == Run(s, SegmentFragments(segments, decode))
    decreases |segments|
  {
    if |segments| > 0 && !IsDone(segments[0]) {
      var rest := segments[1..];
      var content := SegmentContent(segments[0], decode);
      if content.Some? {
        var c := content.value;
        ScanSegmentsIsRun(Step(s, c), rest, decode);
        RunAppend(s, [c], SegmentFragments(rest, decode));
        assert Run(s, [c]) == Step(s, c) by { assert [c][..0] == []; }
      } else {
        ScanSegmentsIsRun(s, rest, decode);
        assert ScanSegments(s, segments, decode) == ScanSegments(s, rest, decode);
        assert SegmentFragments(segments, decode) == SegmentFragments(rest, decode);
        assert Run(s, SegmentFragments(rest, decode)) == ScanSegments(s, rest, decode);
      }
    }
  }

  lemma {:induction false} ReadChunksIsRun(s: Scan, chunks: seq<NetChunk>, decode: string -> Option<StreamChunk>)
    ensures ReadChunks(s, chunks, decode).visible == Run(s, Fragments(chunks, decode)).visible
    ensures ReadChunks(s, chunks, decode).result.Ok? ==>
      ReadChunks(s, chunks, decode).result.value == Run(s, Fragments(chunks, decode)).raw
    ensures ReadChunks(s, chunks, decode).result.Err? <==> exists i :: 0 <= i < |chunks| && chunks[i].ReadFailed?
    decreases |chunks|
  {
    if |chunks| > 0 && chunks[0].Bytes? {
      var segments := Split(chunks[0].text, EventSeparator);
      var s1 := ScanSegments(s, segments, decode);
      ScanSegmentsIsRun(s, segments, decode);
      ReadChunksIsRun(s1, chunks[1..], decode);
      RunAppend(s, SegmentFragments(segments, decode), Fragments(chunks[1..], decode));
      assert (exists i :: 0 <= i < |chunks| && chunks[i].ReadFailed?)
         <==> (exists i :: 0 <= i < |chunks[1..]| && chunks[1..][i].ReadFailed?) by {
        if exists i :: 0 <= i < |chunks| && chunks[i].ReadFailed? {
          var i :| 0 <= i < |chunks| && chunks[i].ReadFailed?;
          assert chunks[1..][i - 1].ReadFailed?;
        }
        if exists i :: 0 <= i < |chunks[1..]| && chunks[1..][i].ReadFailed? {
          var i :| 0 <= i < |chunks[1..]| && chunks[1..][i].ReadFailed?;
          assert chunks[i + 1].ReadFailed?;
        }
      }
    }
  }

  /** A model call whose body reads without error returns, as raw text, the
      concatenation of every content fragment, hidden or not, and shows the
      filter's choice among them; it fails exactly when the request could
      not be sent or some read failed. */
  lemma StreamIsFilteredFragments(reply: Reply, decode: string -> Option<StreamChunk>)
    ensures reply.Streamed? ==>
      var fs := Fragments(reply.chunks, decode);
      var out := ChatCompletionStream(reply, decode);
      && out.visible == Run(Fresh(), fs).visible
      && (out.result.Ok? ==> out.result.value == Concat(fs))
    ensures ChatCompletionStream(reply, decode).result.Err? <==>
      reply.SendFailed? || exists i :: 0 <= i < |reply.chunks| && reply.chunks[i].ReadFailed?
  {
    if reply.Streamed? {
      ReadChunksIsRun(Fresh(), reply.chunks, decode);
      RawIsConcat(Fresh(), Fragments(reply.chunks, decode));
    }
  }

  /** `[DONE]` ends only the read it arrives in: the segments after it in
      that read are ignored, and the next read is still processed. */
  lemma DoneEndsOnlyItsRead(s: Scan, text: string, rest: seq<NetChunk>, d: nat, decode: string -> Option<StreamChunk>)
    requires d < |Split(text, EventSeparator)|
    requires IsDone(Split(text, EventSeparator)[d])
    ensures ReadChunks(s, [Bytes(text)] + rest, decode)
         == ReadChunks(Run(s, SegmentFragments(Split(text, EventSeparator)[..d], decode)), rest, decode)
  {
    var segments := Split(text, EventSeparator);
    SegmentsUpToDone(segments, d, decode);
    ScanSegmentsIsRun(s, segments, decode);
    assert ([Bytes(text)] + rest)[1..] == rest;
  }

  lemma {:induction false} SegmentsUpToDone(segments: seq<string>, d: nat, decode: string -> Option<StreamChunk>)
    requires d < |segments| && IsDone(segments[d])
    ensures SegmentFragments(segments, decode) == SegmentFragments(segments[..d], decode)
    decreases d
  {
    if d > 0 && !IsDone(segments[0]) {
      SegmentsUpToDone(segments[1..], d - 1, decode);
      assert segments[1..][..d - 1] == segments[..d][1..];
    } else if d > 0 {
      assert segments[..d][0] == segments[0];
    }
  }

  /** A segment that does not start with `data: `, or whose payload does not
      decode, is skipped without error and without reaching the filter. */
  lemma SkippedSegment(s: Scan, segment: string, rest: seq<string>, decode: string -> Option<StreamChunk>)
    requires !(DataPrefix <= segment) || (!IsDone(segment) && decode(Payload(segment)).None?)
    ensures ScanSegments(s, [segment] + rest, decode) == ScanSegments(s, rest, decode)
  {
    assert ([segment] + rest)[0] == segment && ([segment] + rest)[1..] == rest;
  }
}
