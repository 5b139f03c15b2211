/** `parse_tool_requests`: finding the tool markup in a model response and
    reading the requests inside it. The pattern
    `<tool_request>\s*(\[.*?\])\s*</tool_request>` is modelled as Rust's
    `regex` crate runs it (leftmost-first, Unicode `\s`, a `.` that stops at
    a line feed, lazy `.*?`); the JSON text of a capture is read by a
    parameter standing for `serde_json::from_str::<Vec<Value>>`. */
module Extract {
  import opened Base
  import opened Json
  import Filter

  /** Unicode `White_Space`, which `\s` matches. */
  predicate IsSpace(c: char)
  {
    || ('\t' <= c <= '\r') || c == ' ' || c == '\U{0085}' || c == '\U{00A0}'
    || c == '\U{1680}' || ('\U{2000}' <= c <= '\U{200A}') || c == '\U{2028}'
    || c == '\U{2029}' || c == '\U{202F}' || c == '\U{205F}' || c == '\U{3000}'
  }

  /** `s[a..b]` is white space only. */
  ghost predicate Spaces(s: string, a: int, b: int)
  {
    0 <= a <= b <= |s| && forall k :: a <= k < b ==> IsSpace(s[k])
  }

  /** `s[a..b]` holds no line feed, so `.*` can cover it. */
  ghost predicate NoNewline(s: string, a: int, b: int)
  {
    0 <= a && b <= |s| && forall k :: a <= k < b ==> s[k] != '\n'
  }

  /** `]` at `c`, white space, then the closing tag at `q`. */
  ghost predicate Tail(s: string, c: int, q: int)
  {
    0 <= c < |s| && s[c] == ']' && Spaces(s, c + 1, q) && OccursAt(s, Filter.CloseTag, q)
  }

  /** The pattern matches `s` from `i`, with the captured array running
      from the `[` at `p` through the `]` at `c`, and the closing tag at `q`. */
  ghost predicate Shape(s: string, i: int, p: int, c: int, q: int)
  {
    && OccursAt(s, Filter.OpenTag, i)
    && Spaces(s, i + |Filter.OpenTag|, p)
    && p < c < |s| && s[p] == '['
    && NoNewline(s, p + 1, c)
    && Tail(s, c, q)
  }

  /** Greedy `\s*` from `i`: the end of the white-space run. */
  function SkipSpaces(s: string, i: nat): (j: nat)
    requires i <= |s|
    ensures i <= j <= |s|
    decreases |s| - i
  {
    if i < |s| && IsSpace(s[i]) then SkipSpaces(s, i + 1) else i
  }

  /** The run is all white space and stops at the end of the text or at a
      character that is not white space. */
  lemma {:induction false} SkipSpacesIsRun(s: string, i: nat)
    requires i <= |s|
    ensures var j := SkipSpaces(s, i);
      Spaces(s, i, j) && (j == |s| || !IsSpace(s[j]))
    decreases |s| - i
  {
    if i < |s| && IsSpace(s[i]) {
      SkipSpacesIsRun(s, i + 1);
    }
  }

  /** A white-space run followed by a non-space character can only be the
      whole run: `\s*` never has a choice before `[` or `<`. */
  lemma {:induction false} SpacesEndAt(s: string, e: nat, j: int)
    requires e <= |s| && Spaces(s, e, j) && j < |s| && !IsSpace(s[j])
    ensures j == SkipSpaces(s, e)
    decreases j - e
  {
    if e < j {
      assert IsSpace(s[e]);
      SpacesEndAt(s, e + 1, j);
    }
  }

  /** A closing tag after white space from `e` starts where the run ends. */
  lemma CloseTagAfterSpaces(s: string, e: nat)
    requires e <= |s|
    ensures forall q :: Spaces(s, e, q) && OccursAt(s, Filter.CloseTag, q) ==>
      q == SkipSpaces(s, e) && Filter.CloseTag <= s[q..]
  {
    forall q | Spaces(s, e, q) && OccursAt(s, Filter.CloseTag, q)
      ensures q == SkipSpaces(s, e) && Filter.CloseTag <= s[q..]
    {
      assert s[q] == s[q..q + |Filter.CloseTag|][0] == '<';
      SpacesEndAt(s, e, q);
      StartsWithAt(s, Filter.CloseTag, q);
    }
  }

  /** `\s*</tool_request>` from `e`: where the closing tag starts. */
  function CloseAfter(s: string, e: nat): (r: Option<nat>)
    requires e <= |s|
    ensures r.Some? ==> e <= r.value && r.value + |Filter.CloseTag| <= |s|
  {
    var q := SkipSpaces(s, e);
    if Filter.CloseTag <= s[q..] then Some(q) else None
  }

  /** The closing tag found is preceded by white space only, and there is
      none exactly when no closing tag can follow white space from `e`. */
  lemma CloseAfterFinds(s: string, e: nat)
    requires e <= |s|
    ensures var r := CloseAfter(s, e);
      && (r.Some? ==> Spaces(s, e, r.value) && OccursAt(s, Filter.CloseTag, r.value))
      && (r.None? ==> forall q :: !(Spaces(s, e, q) && OccursAt(s, Filter.CloseTag, q)))
  {
    var q := SkipSpaces(s, e);
    SkipSpacesIsRun(s, e);
    CloseTagAfterSpaces(s, e);
    if Filter.CloseTag <= s[q..] {
      assert s[q..q + |Filter.CloseTag|] == Filter.CloseTag;
    }
  }

  /** Lazy `.*?\]` followed by `\s*</tool_request>`, trying each end `c`
      from the given one on: the first `]` the rest of the pattern can
      follow, unless a line feed comes first. */
  function LazyClose(s: string, c: nat): (r: Option<(nat, nat)>)
    requires c <= |s|
    ensures r.Some? ==> c <= r.value.0 < r.value.1 && r.value.1 + |Filter.CloseTag| <= |s|
    decreases |s| - c
  {
    if c == |s| then None
    else if s[c] == ']' && CloseAfter(s, c + 1).Some? then Some((c, CloseAfter(s, c + 1).value))
    else if s[c] == '\n' then None
    else LazyClose(s, c + 1)
  }

  /** The end found is a `]` the rest of the pattern follows, with no line
      feed before it and no earlier such `]`; there is none exactly when
      every `]` the rest could follow comes after a line feed. */
  lemma {:induction false} LazyCloseIsLeast(s: string, c: nat)
    requires c <= |s|
    ensures var r := LazyClose(s, c);
      && (r.Some? ==> NoNewline(s, c, r.value.0) && Tail(s, r.value.0, r.value.1))
      && (r.Some? ==> forall c', q' :: c <= c' < r.value.0 ==> !Tail(s, c', q'))
      && (r.None? ==> forall c', q' :: c <= c' && NoNewline(s, c, c') ==> !Tail(s, c', q'))
    decreases |s| - c
  {
    if c < |s| {
      CloseAfterFinds(s, c + 1);
      if s[c] == ']' && CloseAfter(s, c + 1).Some? {
      } else if s[c] == '\n' {
        assert forall c' :: c < c' ==> !NoNewline(s, c, c') by {
          forall c' | c < c' ensures !NoNewline(s, c, c') { assert !(s[c] != '\n'); }
        }
      } else {
        LazyCloseIsLeast(s, c + 1);
        assert forall c', q' :: c' == c ==> !Tail(s, c', q');
        assert forall c' :: c < c' && NoNewline(s, c, c') ==> NoNewline(s, c + 1, c');
      }
    }
  }

  /** One match: the opening tag at `start`, the captured array between
      the `[` at `open` and the `]` at `close`, and the match's end. */
  datatype Match = Match(start: nat, open: nat, close: nat, end: nat)

  /** `\s*\[` after an opening tag at `i` has only one way to match. */
  lemma ArrayOpensAfterSpaces(s: string, i: nat)
    requires OccursAt(s, Filter.OpenTag, i)
    ensures forall p, c, q :: Shape(s, i, p, c, q) ==> p == SkipSpaces(s, i + |Filter.OpenTag|)
  {
    forall p, c, q | Shape(s, i, p, c, q) ensures p == SkipSpaces(s, i + |Filter.OpenTag|) {
      SpacesEndAt(s, i + |Filter.OpenTag|, p);
    }
  }

  /** The lazy end is the least end any match at `i` can have. */
  lemma LeastClose(s: string, i: nat, p: nat, c: nat, q: nat)
    requires OccursAt(s, Filter.OpenTag, i) && p == SkipSpaces(s, i + |Filter.OpenTag|) && p < |s|
    requires LazyClose(s, p + 1) == Some((c, q))
    ensures forall p', c', q' :: Shape(s, i, p', c', q') ==> c <= c'
  {
    ArrayOpensAfterSpaces(s, i);
    LazyCloseIsLeast(s, p + 1);
  }

  /** The pattern anchored at `i`: the match the regex prefers there (the
      shortest array), or none when no match starts at `i`. */
  function MatchAt(s: string, i: nat): (r: Option<Match>)
    requires i <= |s|
    ensures r.Some? ==> r.value.start == i < r.value.open < r.value.close < r.value.end <= |s|
  {
    if !(Filter.OpenTag <= s[i..]) then None
    else
      var p := SkipSpaces(s, i + |Filter.OpenTag|);
      if p == |s| || s[p] != '[' then None
      else
        var found := LazyClose(s, p + 1);
        if found.None? then None
        else
          var c, q := found.value.0, found.value.1;
          Some(Match(i, p, c, q + |Filter.CloseTag|))
  }

  /** The match at `i` is a match of the pattern with the least array end
      any match at `i` can have, and there is none exactly when the pattern
      cannot match at `i`. */
  lemma MatchAtIsLeast(s: string, i: nat)
    requires i <= |s|
    ensures var r := MatchAt(s, i);
      && (r.Some? ==> Shape(s, i, r.value.open, r.value.close, r.value.end - |Filter.CloseTag|))
      && (r.Some? ==> forall p, c, q :: Shape(s, i, p, c, q) ==> r.value.close <= c)
      && (r.None? <==> forall p, c, q :: !Shape(s, i, p, c, q))
  {
    if MatchAt(s, i).Some? {
      MatchAtShape(s, i);
      MatchAtLeast(s, i);
    } else {
      MatchAtNone(s, i);
    }
  }

  lemma MatchAtLeast(s: string, i: nat)
    requires i <= |s| && MatchAt(s, i).Some?
    ensures forall p, c, q :: Shape(s, i, p, c, q) ==> MatchAt(s, i).value.close <= c
  {
    StartsWithAt(s, Filter.OpenTag, i);
    var p := SkipSpaces(s, i + |Filter.OpenTag|);
    var c, q := LazyClose(s, p + 1).value.0, LazyClose(s, p + 1).value.1;
    LeastClose(s, i, p, c, q);
  }

  lemma MatchAtNone(s: string, i: nat)
    requires i <= |s| && MatchAt(s, i).None?
    ensures forall p, c, q :: !Shape(s, i, p, c, q)
  {
    if !(Filter.OpenTag <= s[i..]) {
      NoOpenNoShape(s, i);
    } else {
      StartsWithAt(s, Filter.OpenTag, i);
      var p := SkipSpaces(s, i + |Filter.OpenTag|);
      if p == |s| || s[p] != '[' {
        NoArrayNoShape(s, i);
      } else {
        NoCloseNoShape(s, i, p);
      }
    }
  }

  lemma NoOpenNoShape(s: string, i: nat)
    requires i <= |s| && !(Filter.OpenTag <= s[i..])
    ensures forall p, c, q :: !Shape(s, i, p, c, q)
  {
    StartsWithAt(s, Filter.OpenTag, i);
  }

  /** A match found at `i` is a match of the pattern. */
  lemma MatchAtShape(s: string, i: nat)
    requires i <= |s| && MatchAt(s, i).Some?
    ensures var m := MatchAt(s, i).value; Shape(s, i, m.open, m.close, m.end - |Filter.CloseTag|)
  {
    StartsWithAt(s, Filter.OpenTag, i);
    var p := SkipSpaces(s, i + |Filter.OpenTag|);
    var c, q := LazyClose(s, p + 1).value.0, LazyClose(s, p + 1).value.1;
    assert MatchAt(s, i) == Some(Match(i, p, c, q + |Filter.CloseTag|));
    ShapeFound(s, i, p, c, q);
  }

  lemma ShapeFound(s: string, i: nat, p: nat, c: nat, q: nat)
    requires OccursAt(s, Filter.OpenTag, i)
    requires p == SkipSpaces(s, i + |Filter.OpenTag|) && p < |s| && s[p] == '['
    requires LazyClose(s, p + 1) == Some((c, q))
    ensures Shape(s, i, p, c, q)
  {
    SkipSpacesIsRun(s, i + |Filter.OpenTag|);
    LazyCloseIsLeast(s, p + 1);
  }

  lemma NoArrayNoShape(s: string, i: nat)
    requires OccursAt(s, Filter.OpenTag, i)
    requires var p := SkipSpaces(s, i + |Filter.OpenTag|); p == |s| || s[p] != '['
    ensures forall p, c, q :: !Shape(s, i, p, c, q)
  {
    ArrayOpensAfterSpaces(s, i);
  }

  lemma NoCloseNoShape(s: string, i: nat, p: nat)
    requires OccursAt(s, Filter.OpenTag, i)
    requires p == SkipSpaces(s, i + |Filter.OpenTag|) && p < |s| && s[p] == '['
    requires LazyClose(s, p + 1).None?
    ensures forall p', c, q :: !Shape(s, i, p', c, q)
  {
    ArrayOpensAfterSpaces(s, i);
    LazyCloseIsLeast(s, p + 1);
  }

  /** Leftmost-first search from `from`: the first position a match starts at. */
  function Find(s: string, from: nat): (r: Option<Match>)
    requires from <= |s|
    ensures r.Some? ==> from <= r.value.start <= |s| && MatchAt(s, r.value.start) == r
    ensures r.Some? ==> forall j :: from <= j < r.value.start ==> MatchAt(s, j).None?
    ensures r.None? ==> forall j :: from <= j <= |s| ==> MatchAt(s, j).None?
    decreases |s| - from
  {
    var here := MatchAt(s, from);
    if here.Some? then here
    else if from == |s| then None
    else Find(s, from + 1)
  }

  /** `captures_iter` from `from`: the text of capture group 1 of each
      match, every search resuming where the previous match ended. */
  function Captures(s: string, from: nat): seq<string>
    requires from <= |s|
    decreases |s| - from
  {
    match Find(s, from)
    case None => []
    case Some(m) => [s[m.open..m.close + 1]] + Captures(s, m.end)
  }

  /** There are no captures exactly when the pattern matches nowhere. */
  lemma NoCapturesIffNoMatch(s: string)
    ensures Captures(s, 0) == [] <==> forall i, p, c, q :: !Shape(s, i, p, c, q)
  {
    if Find(s, 0).None? {
      forall i, p, c, q ensures !Shape(s, i, p, c, q) {
        if 0 <= i <= |s| {
          assert MatchAt(s, i).None?;
          MatchAtIsLeast(s, i);
        }
      }
    } else {
      var m := Find(s, 0).value;
      MatchAtShape(s, m.start);
      assert Shape(s, m.start, m.open, m.close, m.end - |Filter.CloseTag|);
    }
  }

  /** A captured array: `[`, then anything but a line feed, then `]`. */
  ghost predicate Bracketed(cap: string)
  {
    |cap| >= 2 && cap[0] == '[' && cap[|cap| - 1] == ']' && forall j :: 0 <= j < |cap| ==> cap[j] != '\n'
  }

  lemma MatchIsBracketed(s: string, i: nat)
    requires i <= |s| && MatchAt(s, i).Some?
    ensures Bracketed(s[MatchAt(s, i).value.open..MatchAt(s, i).value.close + 1])
  {
    var m := MatchAt(s, i).value;
    MatchAtShape(s, i);
    ShapeIsBracketed(s, i, m.open, m.close, m.end - |Filter.CloseTag|);
  }

  /** The array of any match of the pattern is bracketed. */
  lemma ShapeIsBracketed(s: string, i: int, p: int, c: int, q: int)
    requires Shape(s, i, p, c, q)
    ensures Bracketed(s[p..c + 1])
  {
    var cap := s[p..c + 1];
    forall j | 0 <= j < |cap| ensures cap[j] != '\n' {
      assert cap[j] == s[p + j];
      if 0 < j < |cap| - 1 {
        assert p + 1 <= p + j < c;
      }
    }
  }

  ghost predicate AllBracketed(caps: seq<string>)
  {
    forall k :: 0 <= k < |caps| ==> Bracketed(caps[k])
  }

  /** Every capture is a bracketed array on one line. */
  lemma {:induction false} CapturesAreBracketed(s: string, from: nat)
    requires from <= |s|
    ensures AllBracketed(Captures(s, from))
    decreases |s| - from
  {
    if Find(s, from).Some? {
      var m := Find(s, from).value;
      FoundIsBracketed(s, from);
      CapturesAreBracketed(s, m.end);
      BracketedCons(s[m.open..m.close + 1], Captures(s, m.end));
    }
  }

  /** The capture of the leftmost match is bracketed, and the later
      captures start after it. */
  lemma FoundIsBracketed(s: string, from: nat)
    requires from <= |s| && Find(s, from).Some?
    ensures var m := Find(s, from).value;
      from < m.end <= |s| && Bracketed(s[m.open..m.close + 1])
      && Captures(s, from) == [s[m.open..m.close + 1]] + Captures(s, m.end)
  {
    var m := Find(s, from).value;
    assert MatchAt(s, m.start) == Some(m);
    MatchIsBracketed(s, m.start);
  }

  lemma BracketedCons(cap: string, rest: seq<string>)
    requires Bracketed(cap) && AllBracketed(rest)
    ensures AllBracketed([cap] + rest)
  {
    var caps := [cap] + rest;
    forall k | 0 <= k < |caps| ensures Bracketed(caps[k]) {
      if k > 0 {
        assert caps[k] == rest[k - 1];
      }
    }
  }

  /** `CustomToolRequest`. */
  datatype ToolRequest = ToolRequest(name: string, arguments: map<string, Value>)

  /** An array entry with a string `name` and an object `arguments`, read
      as a request; any other entry is dropped. */
  function AsRequest(v: Value): (r: Option<ToolRequest>)
    ensures r.Some? <==> (v.JObj? && "name" in v.fields && v.fields["name"].JStr?
                          && "arguments" in v.fields && v.fields["arguments"].JObj?)
    ensures r.Some? ==> r.value == ToolRequest(v.fields["name"].s, v.fields["arguments"].fields)
  {
    var name, args := Get(v, "name"), Get(v, "arguments");
    if name.Some? && args.Some? && AsStr(name.value).Some? && AsObject(args.value).Some? then
      Some(ToolRequest(AsStr(name.value).value, AsObject(args.value).value))
    else
      None
  }

  /** The well-formed entries of an array, in array order. */
  function Keep(items: seq<Value>): (r: seq<ToolRequest>)
    ensures |r| <= |items|
    decreases |items|
  {
    if |items| == 0 then []
    else
      var head := AsRequest(items[0]);
      (if head.Some? then [head.value] else []) + Keep(items[1..])
  }

  /** Filtering distributes over concatenation, so order is kept. */
  lemma {:induction false} KeepAppend(a: seq<Value>, b: seq<Value>)
    ensures Keep(a + b) == Keep(a) + Keep(b)
    decreases |a|
  {
    if |a| == 0 {
      assert a + b == b;
    } else {
      var h := AsRequest(a[0]);
      var hs := if h.Some? then [h.value] else [];
      assert (a + b)[0] == a[0];
      assert (a + b)[1..] == a[1..] + b;
      assert Keep(a + b) == hs + Keep(a[1..] + b);
      assert Keep(a) == hs + Keep(a[1..]);
      KeepAppend(a[1..], b);
    }
  }

  /** Every kept request comes from a well-formed entry, and every
      well-formed entry is kept. */
  lemma {:induction false} KeepContents(items: seq<Value>)
    ensures forall t :: t in Keep(items) <==> exists k :: 0 <= k < |items| && AsRequest(items[k]) == Some(t)
    decreases |items|
  {
    if |items| > 0 {
      KeepContents(items[1..]);
      forall t ensures t in Keep(items) <==> exists k :: 0 <= k < |items| && AsRequest(items[k]) == Some(t) {
        if exists k :: 0 <= k < |items[1..]| && AsRequest(items[1..][k]) == Some(t) {
          var k :| 0 <= k < |items[1..]| && AsRequest(items[1..][k]) == Some(t);
          assert AsRequest(items[k + 1]) == Some(t);
        }
        if exists k :: 0 <= k < |items| && AsRequest(items[k]) == Some(t) {
          var k :| 0 <= k < |items| && AsRequest(items[k]) == Some(t);
          if k > 0 {
            assert AsRequest(items[1..][k - 1]) == Some(t);
          }
        }
      }
    }
  }

  /** An array none of whose entries is well formed yields no requests. */
  lemma {:induction false} KeepNoneValid(items: seq<Value>)
    requires forall k :: 0 <= k < |items| ==> AsRequest(items[k]).None?
    ensures Keep(items) == []
    decreases |items|
  {
    if |items| > 0 {
      assert forall k :: 0 <= k < |items[1..]| ==> items[1..][k] == items[k + 1];
      KeepNoneValid(items[1..]);
    }
  }

  /** The array read from the first capture that parses as one. */
  function FirstParsed(caps: seq<string>, parseArray: string -> Option<seq<Value>>): (r: Option<seq<Value>>)
    ensures r.None? <==> forall k :: 0 <= k < |caps| ==> parseArray(caps[k]).None?
    ensures r.Some? ==> exists k :: (0 <= k < |caps| && parseArray(caps[k]) == r
      && forall j :: 0 <= j < k ==> parseArray(caps[j]).None?)
    decreases |caps|
  {
    if |caps| == 0 then None
    else if parseArray(caps[0]).Some? then
      parseArray(caps[0])
    else
      var r := FirstParsed(caps[1..], parseArray);
      assert forall k :: 0 <= k < |caps[1..]| ==> caps[1..][k] == caps[k + 1];
      if r.Some? then
        var k :| 0 <= k < |caps[1..]| && parseArray(caps[1..][k]) == r
          && forall j :: 0 <= j < k ==> parseArray(caps[1..][j]).None?;
        assert parseArray(caps[k + 1]) == r;
        assert forall j :: 0 <= j < k + 1 ==> parseArray(caps[j]).None? by {
          forall j | 0 <= j < k + 1 ensures parseArray(caps[j]).None? {
            if j > 0 { assert caps[j] == caps[1..][j - 1]; }
          }
        }
        r
      else
        r
  }

  /** `parse_tool_requests`: the well-formed requests of the first capture
      that parses as a JSON array, or nothing when no capture does. A
      capture that does not parse is passed over, not fatal. */
  function ParseToolRequests(text: string, parseArray: string -> Option<seq<Value>>): (r: Option<seq<ToolRequest>>)
    ensures r.None? <==> forall k :: 0 <= k < |Captures(text, 0)| ==> parseArray(Captures(text, 0)[k]).None?
    ensures r.Some? ==> exists k :: (0 <= k < |Captures(text, 0)|
      && parseArray(Captures(text, 0)[k]).Some?
      && r.value == Keep(parseArray(Captures(text, 0)[k]).value)
      && forall j :: 0 <= j < k ==> parseArray(Captures(text, 0)[j]).None?)
  {
    var caps := Captures(text, 0);
    var first := FirstParsed(caps, parseArray);
    if first.None? then None
    else Some(Keep(first.value))
  }

  /** Text in which the pattern matches nowhere holds no tool requests. */
  lemma NoMatchNoRequests(text: string, parseArray: string -> Option<seq<Value>>)
    requires forall i, p, c, q :: !Shape(text, i, p, c, q)
    ensures ParseToolRequests(text, parseArray) == None
  {
    NoCapturesIffNoMatch(text);
  }

  /** When the array that is read holds no well-formed entry, the result is
      an empty list of requests, not "no requests": the caller still takes
      the tool branch. */
  lemma AllInvalidIsEmpty(text: string, parseArray: string -> Option<seq<Value>>)
    requires FirstParsed(Captures(text, 0), parseArray).Some?
    requires forall v :: v in FirstParsed(Captures(text, 0), parseArray).value ==> AsRequest(v).None?
    ensures ParseToolRequests(text, parseArray) == Some([])
  {
    KeepNoneValid(FirstParsed(Captures(text, 0), parseArray).value);
  }
}
