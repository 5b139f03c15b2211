/** Failure-carrying datatypes and the handful of Rust `str` operations the
    relay relies on: substring search (`contains`), `split`, `join`,
    `starts_with` (Dafny's prefix `<=`) and `trim_start_matches`. */
module Base {

  datatype Option<T> = None | Some(value: T)

  /** A `Result` whose error is the human-readable message Rust's boxed
      error would print. */
  datatype Result<T> = Ok(value: T) | Err(error: string)

  /** `p` occurs in `s` starting at index `i`. */
  ghost predicate OccursAt(s: string, p: string, i: int)
  {
    0 <= i && i + |p| <= |s| && s[i..i + |p|] == p
  }

  /** `s[i..]` starts with `p` exactly when `p` occurs at `i`. */
  lemma StartsWithAt(s: string, p: string, i: nat)
    requires i <= |s|
    ensures p <= s[i..] <==> OccursAt(s, p, i)
  {
    if OccursAt(s, p, i) {
      assert s[i..][..|p|] == s[i..i + |p|];
    }
    if p <= s[i..] {
      assert s[i..i + |p|] == s[i..][..|p|];
    }
  }

  /** The first index at which `p` occurs in `s` (Rust's `str::find`). */
  function IndexOf(s: string, p: string): (r: Option<nat>)
    ensures r.Some? ==> OccursAt(s, p, r.value)
    ensures r.Some? ==> forall j :: 0 <= j < r.value ==> !OccursAt(s, p, j)
    ensures r.None? ==> forall j :: 0 <= j <= |s| ==> !OccursAt(s, p, j)
    decreases |s|
  {
    if p <= s then
      assert s[0..|p|] == p;
      Some(0)
    else if |s| == 0 then
      None
    else
      var rest := IndexOf(s[1..], p);
      assert forall j :: 1 <= j <= |s| ==> (OccursAt(s[1..], p, j - 1) <==> OccursAt(s, p, j)) by {
        forall j | 1 <= j <= |s| ensures OccursAt(s[1..], p, j - 1) <==> OccursAt(s, p, j) {
          if j + |p| <= |s| {
            assert s[1..][j - 1..j - 1 + |p|] == s[j..j + |p|];
          }
        }
      }
      assert !OccursAt(s, p, 0);
      match rest
      case None => None
      case Some(i) => Some(i + 1)
  }

  /** Rust's `str::contains` with a string pattern. */
  predicate Contains(s: string, p: string)
  {
    IndexOf(s, p).Some?
  }

  /** `Contains` agrees with the plain "occurs somewhere" reading. */
  lemma ContainsIff(s: string, p: string)
    ensures Contains(s, p) <==> exists i :: OccursAt(s, p, i)
  {
    if exists i :: OccursAt(s, p, i) {
      var i :| OccursAt(s, p, i);
      assert i <= |s|;
    }
  }

  /** A string that occurs inside a concatenation is contained in it. */
  lemma ContainsMiddle(a: string, b: string, c: string)
    ensures Contains(a + b + c, b)
  {
    var s := a + b + c;
    assert s[|a|..|a| + |b|] == b;
    assert OccursAt(s, b, |a|);
    ContainsIff(s, b);
  }

  /** A string that contains `p` still does once text is added around it. */
  lemma ContainsWithin(a: string, b: string, c: string, p: string)
    requires Contains(b, p)
    ensures Contains(a + b + c, p)
  {
    var i := IndexOf(b, p).value;
    var s := a + b + c;
    assert s[|a| + i..|a| + i + |p|] == b[i..i + |p|];
    assert OccursAt(s, p, |a| + i);
    ContainsIff(s, p);
  }

  /** Rust's `str::split` with a non-empty string separator: the pieces
      between successive leftmost non-overlapping occurrences. */
  function Split(s: string, sep: string): (r: seq<string>)
    requires |sep| > 0
    ensures |r| >= 1
    decreases |s|
  {
    match IndexOf(s, sep)
    case None => [s]
    case Some(i) => [s[..i]] + Split(s[i + |sep|..], sep)
  }

  /** Rust's `[String]::join`: the parts with `sep` between neighbours. */
  function Join(parts: seq<string>, sep: string): string
    decreases |parts|
  {
    if |parts| == 0 then ""
    else if |parts| == 1 then parts[0]
    else parts[0] + sep + Join(parts[1..], sep)
  }

  lemma JoinCons(head: string, tail: seq<string>, sep: string)
    requires |tail| >= 1
    ensures Join([head] + tail, sep) == head + sep + Join(tail, sep)
  {
    assert ([head] + tail)[1..] == tail;
  }

  /** Each part occurs in the joined string. */
  lemma {:induction false} JoinContainsEach(parts: seq<string>, sep: string, i: nat)
    requires i < |parts|
    ensures Contains(Join(parts, sep), parts[i])
    decreases |parts|
  {
    if |parts| == 1 {
      ContainsMiddle("", parts[0], "");
      assert "" + parts[0] + "" == parts[0];
    } else if i == 0 {
      ContainsMiddle("", parts[0], sep + Join(parts[1..], sep));
      assert "" + parts[0] + (sep + Join(parts[1..], sep)) == Join(parts, sep);
    } else {
      JoinContainsEach(parts[1..], sep, i - 1);
      ContainsWithin(parts[0] + sep, Join(parts[1..], sep), "", parts[i]);
      assert parts[0] + sep + Join(parts[1..], sep) + "" == Join(parts, sep);
    }
  }

  /** Splitting loses nothing: joining the pieces back gives the input. */
  lemma {:induction false} JoinSplit(s: string, sep: string)
    requires |sep| > 0
    ensures Join(Split(s, sep), sep) == s
    decreases |s|
  {
    var found := IndexOf(s, sep);
    if found.Some? {
      var i := found.value;
      var head := s[..i];
      var rest := s[i + |sep|..];
      var tail := Split(rest, sep);
      assert Split(s, sep) == [head] + tail;
      JoinSplit(rest, sep);
      JoinCons(head, tail, sep);
      assert Join(Split(s, sep), sep) == head + sep + rest;
      SliceAround(s, i, sep);
    }
  }

  lemma SliceAround(s: string, i: nat, sep: string)
    requires OccursAt(s, sep, i)
    ensures s == s[..i] + sep + s[i + |sep|..]
  {
    assert s == s[..i] + s[i..i + |sep|] + s[i + |sep|..];
  }

  /** A prefix of `s` that ends before the first occurrence of `p` does
      not contain `p`. */
  lemma PrefixBeforeFirst(s: string, p: string, i: nat)
    requires |p| > 0 && i <= |s|
    requires forall j :: 0 <= j < i ==> !OccursAt(s, p, j)
    ensures !Contains(s[..i], p)
  {
    var piece := s[..i];
    forall j | OccursAt(piece, p, j) ensures false {
      assert piece[j..j + |p|] == s[j..j + |p|];
      assert OccursAt(s, p, j);
    }
    ContainsIff(piece, p);
  }

  /** Where piece `k` starts in the text that was split: after every
      earlier piece and the separator that followed it. */
  function PieceStart(parts: seq<string>, sep: string, k: nat): nat
    requires k <= |parts|
    decreases k
  {
    if k == 0 then 0 else |parts[0]| + |sep| + PieceStart(parts[1..], sep, k - 1)
  }

  /** No occurrence of `sep` in `s` starts inside the span of any of `parts`. */
  ghost predicate SpansFree(s: string, sep: string, parts: seq<string>)
  {
    forall k, j :: 0 <= k < |parts| && PieceStart(parts, sep, k) <= j < PieceStart(parts, sep, k) + |parts[k]|
      ==> !OccursAt(s, sep, j)
  }

  /** One cut: a piece that ends at the leftmost occurrence, followed by
      pieces whose spans are free in the text after that occurrence. */
  lemma SpansFreeCons(s: string, sep: string, i: nat, tail: seq<string>)
    requires i + |sep| <= |s|
    requires forall j :: 0 <= j < i ==> !OccursAt(s, sep, j)
    requires SpansFree(s[i + |sep|..], sep, tail)
    ensures SpansFree(s, sep, [s[..i]] + tail)
  {
    var rest := s[i + |sep|..];
    var parts := [s[..i]] + tail;
    assert parts[1..] == tail;
    forall k, j | 0 <= k < |parts| && PieceStart(parts, sep, k) <= j < PieceStart(parts, sep, k) + |parts[k]|
      ensures !OccursAt(s, sep, j)
    {
      if k > 0 {
        var j' := j - (i + |sep|);
        assert PieceStart(parts, sep, k) == i + |sep| + PieceStart(tail, sep, k - 1);
        assert parts[k] == tail[k - 1];
        assert !OccursAt(rest, sep, j');
        if j + |sep| <= |s| {
          assert s[j..j + |sep|] == rest[j'..j' + |sep|];
        }
      }
    }
  }

  /** The split cuts at the leftmost occurrences: no occurrence of the
      separator starts anywhere inside a piece's span of the text, so an
      occurrence that overlaps the next one is always the one cut at. */
  lemma {:induction false} SplitSpansFree(s: string, sep: string)
    requires |sep| > 0
    ensures SpansFree(s, sep, Split(s, sep))
    decreases |s|
  {
    match IndexOf(s, sep)
    case None =>
    case Some(i) =>
      var tail := Split(s[i + |sep|..], sep);
      assert Split(s, sep) == [s[..i]] + tail;
      SplitSpansFree(s[i + |sep|..], sep);
      SpansFreeCons(s, sep, i, tail);
  }

  /** No piece of a split contains the separator, and none can have been
      cut later than the leftmost occurrence: no occurrence of the separator
      starts inside any piece's span of the text. */
  lemma {:induction false} SplitPiecesFree(s: string, sep: string)
    requires |sep| > 0
    ensures forall k :: 0 <= k < |Split(s, sep)| ==> !Contains(Split(s, sep)[k], sep)
    ensures SpansFree(s, sep, Split(s, sep))
    decreases |s|
  {
    SplitSpansFree(s, sep);
    match IndexOf(s, sep)
    case None =>
    case Some(i) =>
      var piece := s[..i];
      var rest := s[i + |sep|..];
      SplitPiecesFree(rest, sep);
      PrefixBeforeFirst(s, sep, i);
      var parts := Split(s, sep);
      assert parts == [piece] + Split(rest, sep);
      forall k | 0 < k < |parts| ensures !Contains(parts[k], sep) {
        assert parts[k] == Split(rest, sep)[k - 1];
      }
  }

  /** A string with no separator splits into itself alone. */
  lemma SplitNoSeparator(s: string, sep: string)
    requires |sep| > 0
    requires !Contains(s, sep)
    ensures Split(s, sep) == [s]
  {
  }

  /** `s` is some number of back-to-back copies of `p`. */
  ghost predicate Repeats(s: string, p: string)
    requires |p| > 0
    decreases |s|
  {
    |s| == 0 || (p <= s && Repeats(s[|p|..], p))
  }

  /** Rust's `str::trim_start_matches` with a non-empty string pattern. */
  function TrimStartMatches(s: string, p: string): (r: string)
    requires |p| > 0
    ensures |r| <= |s|
    decreases |s|
  {
    if p <= s then TrimStartMatches(s[|p|..], p) else s
  }

  /** Every leading copy of the pattern is removed, not just one: the result
      is a suffix that does not start with the pattern, and what was cut off
      is whole copies of it. */
  lemma {:induction false} TrimStartMatchesStrips(s: string, p: string)
    requires |p| > 0
    ensures var r := TrimStartMatches(s, p);
      && r == s[|s| - |r|..]
      && !(p <= r)
      && Repeats(s[..|s| - |r|], p)
    decreases |s|
  {
    if p <= s {
      var t := s[|p|..];
      TrimStartMatchesStrips(t, p);
      var r := TrimStartMatches(t, p);
      assert TrimStartMatches(s, p) == r;
      var cut := s[..|s| - |r|];
      assert cut[..|p|] == p;
      assert cut[|p|..] == t[..|t| - |r|];
      assert t[|t| - |r|..] == s[|s| - |r|..];
    } else {
      assert s[..0] == [];
    }
  }

  /** The in-order concatenation of a sequence of strings. */
  function Concat(parts: seq<string>): string
    decreases |parts|
  {
    if |parts| == 0 then "" else Concat(parts[..|parts| - 1]) + parts[|parts| - 1]
  }

  /** Each part occurs in the concatenation. */
  lemma {:induction false} ConcatContainsEach(parts: seq<string>, i: nat)
    requires i < |parts|
    ensures Contains(Concat(parts), parts[i])
    decreases |parts|
  {
    var n := |parts| - 1;
    var init := Concat(parts[..n]);
    assert Concat(parts) == init + parts[n] + "";
    if i == n {
      ContainsMiddle(init, parts[n], "");
    } else {
      assert parts[..n][i] == parts[i];
      ConcatContainsEach(parts[..n], i);
      assert "" + init + parts[n] == init + parts[n] + "";
      ContainsWithin("", init, parts[n], parts[i]);
    }
  }
}
