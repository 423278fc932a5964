/**
 * Rewriting the math of chat answers: how a paragraph is cut into prose,
 * code, existing math and delimited math, and which lines are left alone.
 */
module NormalizeContent {
  import opened Wrappers
  import opened TextLines

  // ------------------------------------------------------------------------
  // Runs of one character
  // ------------------------------------------------------------------------

  /** Where the run of the character at `at` ends. */
  function RunEnd(text: string, at: nat, from: nat): (end: nat)
    requires at < |text| && at <= from <= |text|
    requires forall k | at <= k < from :: text[k] == text[at]
    ensures from <= end <= |text|
    ensures forall k | at <= k < end :: text[k] == text[at]
    ensures end < |text| ==> text[end] != text[at]
    decreases |text| - from
  {
    if from < |text| && text[from] == text[at] then RunEnd(text, at, from + 1) else from
  }

  function RunLength(text: string, at: nat): (size: nat)
    requires at < |text|
    ensures 0 < size <= |text| - at
    ensures forall k | at <= k < at + size :: text[k] == text[at]
    ensures at + size < |text| ==> text[at + size] != text[at]
  {
    RunEnd(text, at, at + 1) - at
  }

  /** Exactly `size` copies of `c` stand at `at`; what is before `from` is not looked at. */
  predicate IsRun(text: string, c: char, size: nat, from: nat, at: nat) {
    && from <= at && 0 < size && at + size <= |text|
    && (forall k | at <= k < at + size :: text[k] == c)
    && (at > from ==> text[at - 1] != c)
    && (at + size < |text| ==> text[at + size] != c)
  }

  predicate NoRunBefore(text: string, c: char, size: nat, from: nat, limit: nat) {
    forall at: nat | at < limit :: !IsRun(text, c, size, from, at)
  }

  function FindRun(text: string, c: char, size: nat, from: nat): (at: Option<nat>)
    requires from <= |text|
    ensures at.Some? ==> from <= at.value && at.value + size <= |text|
    decreases |text| - from
  {
    if from == |text| then None
    else if text[from] != c then FindRun(text, c, size, from + 1)
    else if RunLength(text, from) == size then Some(from)
    else FindRun(text, c, size, from + RunLength(text, from))
  }

  /** The first run of exactly that size, if there is any. */
  lemma {:induction false} FindRunFindsTheFirst(text: string, c: char, size: nat, from: nat)
    requires from <= |text| && size > 0
    ensures match FindRun(text, c, size, from)
      case None => NoRunBefore(text, c, size, from, |text|)
      case Some(found) => IsRun(text, c, size, from, found) && NoRunBefore(text, c, size, from, found)
    decreases |text| - from
  {
    if from < |text| {
      if text[from] != c {
        FindRunFindsTheFirst(text, c, size, from + 1);
        RunsAfterGap(text, c, size, from, from + 1);
      } else if RunLength(text, from) != size {
        var next := from + RunLength(text, from);
        FindRunFindsTheFirst(text, c, size, next);
        RunsAfterGap(text, c, size, from, next);
      }
    }
  }

  /** Past a character that is not `c`, or a run of another size, the runs are those found from there. */
  lemma RunsAfterGap(text: string, c: char, size: nat, from: nat, next: nat)
    requires from < next <= |text|
    requires
      || (text[from] != c && next == from + 1)
      || (text[from] == c && next == from + RunLength(text, from) && next - from != size)
    ensures forall at: nat :: IsRun(text, c, size, from, at) <==> IsRun(text, c, size, next, at)
  {
    forall at: nat
      ensures IsRun(text, c, size, from, at) <==> IsRun(text, c, size, next, at)
    {
      if text[from] == c && from <= at < next {
        if at > from {
          assert text[at - 1] == c;
        } else if size < next - from {
          assert text[at + size] == c;
        } else {
          assert next < |text| ==> text[next] != c;
        }
        assert !IsRun(text, c, size, from, at);
      }
    }
  }

  // ------------------------------------------------------------------------
  // Delimiters and math
  // ------------------------------------------------------------------------

  /** The unescaped `\` before `c`. */
  function FindClosing(text: string, c: char, from: nat): (at: Option<nat>)
    ensures at.Some? ==> from <= at.value && at.value + 1 < |text| && text[at.value] == '\\' && text[at.value + 1] == c
    decreases |text| - from
  {
    if from >= |text| then None
    else if text[from] != '\\' then FindClosing(text, c, from + 1)
    else if from + 1 < |text| && text[from + 1] == c then Some(from)
    else FindClosing(text, c, from + 2)
  }

  /** At `at`, reading from `from`, a backslash stands that no earlier one escapes. */
  predicate IsEscape(text: string, from: nat, at: nat)
    requires at <= |text|
    decreases |text| - from
  {
    from <= at < |text| &&
    if text[from] != '\\' then IsEscape(text, from + 1, at)
    else from == at || (from + 2 <= at && IsEscape(text, from + 2, at))
  }

  /** It is the first backslash before `c` that is not itself escaped. */
  lemma {:induction false} FindClosingFindsTheFirst(text: string, c: char, from: nat)
    requires from <= |text|
    ensures
      var found := FindClosing(text, c, from);
      && (found.Some? ==> IsEscape(text, from, found.value))
      && (forall at | 0 <= at < |text| - 1 && (found.Some? ==> at < found.value) ::
            !(IsEscape(text, from, at) && text[at + 1] == c))
    decreases |text| - from
  {
    if from < |text| {
      if text[from] != '\\' {
        FindClosingFindsTheFirst(text, c, from + 1);
      } else if from + 2 <= |text| && text[from + 1] != c {
        FindClosingFindsTheFirst(text, c, from + 2);
      }
    }
  }

  function InlineMath(inner: string): Option<string> {
    if Trim(inner) == [] then None else Some("$" + Trim(inner) + "$")
  }

  const MATH_MARKS: set<char> := {'\\', '^', '_', '=', '+', '<', '>', '{', '}'}

  function DisplayMath(inner: string): Option<string> {
    if Trim(inner) == [] then None
    else
      var padded := IsSpace(inner[0]) && IsSpace(inner[|inner| - 1]);
      if padded || exists c | c in inner :: c in MATH_MARKS then Some("$$" + inner + "$$") else None
  }

  /** Whether the dollars at `open` and `close` hold math between them. */
  predicate PairsAsMath(text: string, open: nat, close: nat)
    requires open < close < |text|
  {
    var inner := text[open + 1..close];
    && Trim(inner) != []
    && IsSpace(inner[0]) == IsSpace(inner[|inner| - 1])
    && !(close + 1 < |text| && '0' <= text[close + 1] <= '9')
  }

  // ------------------------------------------------------------------------
  // The segments of a paragraph
  // ------------------------------------------------------------------------

  datatype Kind = Prose | Code | Dollars | Rewritten(math: string)

  /** `text[from..to]`. */
  datatype Segment = Segment(kind: Kind, from: nat, to: nat)

  /** What the text at `i` is: how far to go, and whether that is a segment of its own. */
  datatype Found = Skip(next: nat) | Take(segment: Segment)

  function Delimited(text: string, i: nat): (found: Found)
    requires i < |text| && text[i] == '\\'
    ensures found.Take? ==> found.segment.from == i && i < found.segment.to <= |text|
    ensures found.Skip? ==> i < found.next
  {
    if i + 1 < |text| && (text[i + 1] == '(' || text[i + 1] == '[') then
      var round := text[i + 1] == '(';
      var close := FindClosing(text, if round then ')' else ']', i + 2);
      var math :=
        if close.None? then None
        else if round then InlineMath(text[i + 2..close.value])
        else DisplayMath(text[i + 2..close.value]);
      if math.Some? then Take(Segment(Rewritten(math.value), i, close.value + 2)) else Skip(i + 2)
    else Skip(i + 2)
  }

  function Spanned(text: string, i: nat): (found: Found)
    requires i < |text| && (text[i] == '`' || text[i] == '$')
    ensures found.Take? ==> found.segment.from == i && i < found.segment.to <= |text|
    ensures found.Skip? ==> i < found.next
  {
    var c, size := text[i], RunLength(text, i);
    var close := FindRun(text, c, size, i + size);
    if close.Some? && (c == '`' || size > 1 || PairsAsMath(text, i, close.value))
    then Take(Segment(if c == '`' then Code else Dollars, i, close.value + size))
    else Skip(i + size)
  }

  function At(text: string, i: nat): (found: Found)
    requires i < |text|
    ensures found.Take? ==> found.segment.from == i && i < found.segment.to <= |text|
    ensures found.Skip? ==> i < found.next
  {
    if text[i] == '\\' then Delimited(text, i)
    else if text[i] == '`' || text[i] == '$' then Spanned(text, i)
    else Skip(i + 1)
  }

  /** The segments from `prose` on, when everything up to `i` is known to be prose. */
  function SegmentsFrom(text: string, prose: nat, i: nat): seq<Segment>
    requires prose <= |text| && prose <= i
    decreases |text| - i
  {
    if i >= |text| then [Segment(Prose, prose, |text|)]
    else match At(text, i)
      case Skip(next) => SegmentsFrom(text, prose, next)
      case Take(segment) => [Segment(Prose, prose, i), segment] + SegmentsFrom(text, segment.to, segment.to)
  }

  function Segments(text: string): seq<Segment> {
    SegmentsFrom(text, 0, 0)
  }

  /** One after the other, without gap or overlap, from `from` to the end of the text. */
  predicate Tiles(segments: seq<Segment>, text: string, from: nat) {
    if segments == [] then from == |text|
    else segments[0].from == from <= segments[0].to <= |text| && Tiles(segments[1..], text, segments[0].to)
  }

  lemma {:induction false} SegmentsTile(text: string, prose: nat, i: nat)
    requires prose <= |text| && prose <= i
    ensures Tiles(SegmentsFrom(text, prose, i), text, prose)
    decreases |text| - i
  {
    if i < |text| {
      match At(text, i)
      case Skip(next) => SegmentsTile(text, prose, next);
      case Take(segment) =>
        SegmentsTile(text, segment.to, segment.to);
        var rest := SegmentsFrom(text, segment.to, segment.to);
        assert ([Segment(Prose, prose, i), segment] + rest)[1..] == [segment] + rest;
        assert ([segment] + rest)[1..] == rest;
    }
  }

  // ------------------------------------------------------------------------
  // What the segments hold
  // ------------------------------------------------------------------------

  /** A run of `c`, and everything up to the end of the next run of just that length. */
  predicate IsSpan(text: string, c: char, from: nat, to: nat) {
    from < |text| && text[from] == c &&
    var size := RunLength(text, from);
    && from + 2 * size <= to
    && IsRun(text, c, size, from + size, to - size) && NoRunBefore(text, c, size, from + size, to - size)
  }

  /** Read from `from`, no unescaped delimiter with `c` stands before `limit`. */
  ghost predicate NoClosingBefore(text: string, c: char, from: nat, limit: nat) {
    forall at: nat | at < limit && at + 1 < |text| :: !(IsEscape(text, from, at) && text[at + 1] == c)
  }

  /** A delimiter, its first unescaped counterpart, and the math made of what is between. */
  ghost predicate IsDelimitedMath(text: string, from: nat, to: nat, math: string) {
    && from + 4 <= to <= |text|
    && text[from] == '\\' && text[to - 2] == '\\'
    && IsEscape(text, from + 2, to - 2) && NoClosingBefore(text, text[to - 1], from + 2, to - 2)
    && var inner := text[from + 2..to - 2];
       || (text[from + 1] == '(' && text[to - 1] == ')' && InlineMath(inner) == Some(math))
       || (text[from + 1] == '[' && text[to - 1] == ']' && DisplayMath(inner) == Some(math))
  }

  ghost predicate Holds(text: string, s: Segment) {
    match s.kind
    case Prose => true
    case Code => IsSpan(text, '`', s.from, s.to)
    case Dollars =>
      IsSpan(text, '$', s.from, s.to)
      && (RunLength(text, s.from) == 1 ==> s.to <= |text| && PairsAsMath(text, s.from, s.to - 1))
    case Rewritten(math) => IsDelimitedMath(text, s.from, s.to, math)
  }

  lemma SpanHolds(text: string, i: nat)
    requires i < |text| && (text[i] == '`' || text[i] == '$') && Spanned(text, i).Take?
    ensures Holds(text, Spanned(text, i).segment)
  {
    hide IsRun, NoRunBefore, PairsAsMath, FindRun;
    var c, size := text[i], RunLength(text, i);
    var close := FindRun(text, c, size, i + size).value;
    FindRunFindsTheFirst(text, c, size, i + size);
    assert Spanned(text, i).segment.to == close + size;
  }

  lemma DelimitedHolds(text: string, i: nat)
    requires i < |text| && text[i] == '\\' && Delimited(text, i).Take?
    ensures Holds(text, Delimited(text, i).segment)
  {
    FindClosingFindsTheFirst(text, if text[i + 1] == '(' then ')' else ']', i + 2);
  }

  /** Code and dollar segments are spans, rewritten ones are delimited math. */
  lemma {:induction false} SegmentsHold(text: string, prose: nat, i: nat)
    requires prose <= |text| && prose <= i
    ensures forall s | s in SegmentsFrom(text, prose, i) :: Holds(text, s)
    decreases |text| - i
  {
    hide Holds;
    if i >= |text| {
      ProseHolds(text, prose, |text|);
    } else {
      match At(text, i)
      case Skip(next) => SegmentsHold(text, prose, next);
      case Take(segment) =>
        SegmentsHold(text, segment.to, segment.to);
        ProseHolds(text, prose, i);
        if text[i] == '\\' {
          DelimitedHolds(text, i);
        } else {
          SpanHolds(text, i);
        }
    }
  }

  lemma ProseHolds(text: string, from: nat, to: nat)
    ensures Holds(text, Segment(Prose, from, to))
  {
  }

  // ------------------------------------------------------------------------
  // What the math reads
  // ------------------------------------------------------------------------

  /** `t` is `s` without the white space around it. */
  ghost predicate IsInside(s: string, t: string, from: nat) {
    && t != [] && from + |t| <= |s| && t == s[from..from + |t|]
    && Blank(s[..from]) && Blank(s[from + |t|..])
    && !IsSpace(t[0]) && !IsSpace(t[|t| - 1])
  }

  lemma {:induction false} TrimEndIsInside(s: string)
    requires s != [] && !IsSpace(s[0])
    ensures IsInside(s, TrimEnd(s), 0)
  {
    if IsSpace(s[|s| - 1]) {
      hide IsSpace;
      var n := |s| - 1;
      TrimEndIsInside(s[..n]);
      var t := TrimEnd(s[..n]);
      assert forall i | |t| <= i < n :: s[i] == s[..n][|t|..][i - |t|];
    }
  }

  lemma TrimIsInside(s: string)
    ensures Trim(s) == [] <==> Blank(s)
    ensures Trim(s) != [] ==> exists from: nat :: IsInside(s, Trim(s), from)
  {
    var tail := TrimStart(s);
    TrimStartIsSuffix(s);
    if tail != [] {
      var from := |s| - |tail|;
      TrimmedStart(s);
      TrimEndIsInside(tail);
      hide IsSpace, TrimStart, TrimEnd;
      assert s[from..][..|Trim(s)|] == s[from..from + |Trim(s)|];
      assert s[from..][|Trim(s)|..] == s[from + |Trim(s)|..];
      assert IsInside(s, Trim(s), from);
    }
  }

  lemma {:induction false} TrimmedStart(s: string)
    ensures TrimStart(s) != [] ==> !IsSpace(TrimStart(s)[0])
    ensures |TrimStart(s)| <= |s| && Blank(s[..|s| - |TrimStart(s)|])
  {
    TrimStartIsSuffix(s);
    if s != [] && IsSpace(s[0]) {
      TrimmedStart(s[1..]);
      TrimStartIsSuffix(s[1..]);
      hide IsSpace;
      var rest := s[1..];
      assert forall i | 0 < i < |s| :: s[i] == rest[i - 1];
      assert forall i | 0 <= i < |rest| - |TrimStart(rest)| :: rest[i] == rest[..|rest| - |TrimStart(rest)|][i];
    }
  }

  /** White space on both sides, or on neither. */
  predicate PaddedAlike(inner: string)
    requires inner != []
  {
    IsSpace(inner[0]) <==> IsSpace(inner[|inner| - 1])
  }

  /** Between round delimiters: one dollar around what is inside, unless that is blank. */
  lemma RoundReads(inner: string)
    ensures InlineMath(inner).None? <==> Blank(inner)
    ensures !Blank(inner) ==> exists t, from: nat :: IsInside(inner, t, from) && InlineMath(inner) == Some("$" + t + "$")
  {
    TrimIsInside(inner);
    if !Blank(inner) {
      var from: nat :| IsInside(inner, Trim(inner), from);
      assert InlineMath(inner) == Some("$" + Trim(inner) + "$");
    }
  }

  /**
   * Between square delimiters: two dollars around it as it is, if it is padded
   * on both sides or has a mark of math; otherwise, or if it is blank, it stays.
   */
  lemma SquareReads(inner: string)
    ensures DisplayMath(inner).Some? <==>
      && !Blank(inner)
      && ((IsSpace(inner[0]) && IsSpace(inner[|inner| - 1]))
          || exists i :: 0 <= i < |inner| && inner[i] in "\\^_=+<>{}")
    ensures DisplayMath(inner).Some? ==> DisplayMath(inner).value == "$$" + inner + "$$"
  {
    TrimIsInside(inner);
    hide IsSpace, Trim;
    forall c: char
      ensures c in MATH_MARKS <==> c in "\\^_=+<>{}"
    {
    }
  }

  /** Single dollars pair exactly around something padded alike on both sides that no digit follows. */
  lemma DollarsPair(text: string, open: nat, close: nat)
    requires open < close < |text|
    ensures PairsAsMath(text, open, close) <==>
      && !Blank(text[open + 1..close]) && PaddedAlike(text[open + 1..close])
      && (close + 1 < |text| ==> !('0' <= text[close + 1] <= '9'))
  {
    TrimIsInside(text[open + 1..close]);
    hide IsSpace, Trim;
  }

  /** What a rewritten segment becomes, by the delimiters it stands between. */
  lemma RewrittenReads(text: string, s: Segment)
    requires s.kind.Rewritten? && Holds(text, s)
    ensures s.from + 4 <= s.to <= |text|
    ensures
      var inner, math := text[s.from + 2..s.to - 2], s.kind.math;
      && !Blank(inner)
      && (if text[s.from..s.from + 2] == "\\("
          then text[s.to - 2..s.to] == "\\)" && exists t, at: nat :: IsInside(inner, t, at) && math == "$" + t + "$"
          else
            && text[s.from..s.from + 2] == "\\[" && text[s.to - 2..s.to] == "\\]"
            && math == "$$" + inner + "$$")
  {
    var inner := text[s.from + 2..s.to - 2];
    hide InlineMath, DisplayMath, IsEscape, NoClosingBefore, IsInside, Blank;
    RoundReads(inner);
    SquareReads(inner);
    assert text[s.from..s.from + 2] == [text[s.from], text[s.from + 1]];
    assert text[s.to - 2..s.to] == [text[s.to - 2], text[s.to - 1]];
  }

  // ------------------------------------------------------------------------
  // Nothing is overlooked
  // ------------------------------------------------------------------------

  /** Where reading goes on after the character, run or escape at `i`. */
  function Next(text: string, i: nat): (next: nat)
    requires i < |text|
    ensures i < next
  {
    if text[i] == '\\' then i + 2
    else if text[i] == '`' || text[i] == '$' then i + RunLength(text, i)
    else i + 1
  }

  /** Reading from `from` stands at `at`: it is not escaped, and not inside a run. */
  predicate Stands(text: string, from: nat, at: nat)
    decreases |text| - from
  {
    from == at || (from < at && from < |text| && Stands(text, Next(text, from), at))
  }

  lemma {:induction false} StandsNext(text: string, from: nat, at: nat)
    requires Stands(text, from, at) && at < |text|
    ensures Stands(text, from, Next(text, at))
    ensures from <= at
    decreases |text| - from
  {
    if from < at {
      StandsNext(text, Next(text, from), at);
    }
  }

  /** Between two steps of reading it stands nowhere. */
  lemma {:induction false} StandsNowhereBetween(text: string, from: nat, at: nat, p: nat)
    requires Stands(text, from, at) && Stands(text, from, p) && at < |text|
    ensures p <= at || Next(text, at) <= p
    decreases |text| - from
  {
    if from < at && from < p {
      StandsNowhereBetween(text, Next(text, from), at, p);
    } else if from == at && from < p {
      StandsIsLater(text, Next(text, from), p);
    }
  }

  lemma {:induction false} StandsIsLater(text: string, from: nat, at: nat)
    requires Stands(text, from, at)
    ensures from <= at
  {
  }

  /** No code, math or delimited math starts at `p`. */
  ghost predicate NothingStartsAt(text: string, p: nat) {
    forall s: Segment | s.from == p && s.kind != Prose :: !Holds(text, s)
  }

  /** The run that ends a span is the one that is found. */
  lemma SpanIsFound(text: string, c: char, from: nat, to: nat)
    requires IsSpan(text, c, from, to)
    ensures
      var size := RunLength(text, from);
      from + size <= |text| && FindRun(text, c, size, from + size) == Some(to - size)
  {
    var size := RunLength(text, from);
    FindRunFindsTheFirst(text, c, size, from + size);
    RunIsInText(text, c, size, from + size, to - size);
  }

  lemma RunIsInText(text: string, c: char, size: nat, from: nat, at: nat)
    requires IsRun(text, c, size, from, at)
    ensures at < |text| && at + size <= |text|
  {
  }

  /** The delimiter that ends delimited math is the one that is found. */
  lemma ClosingIsFound(text: string, from: nat, to: nat, math: string)
    requires IsDelimitedMath(text, from, to, math)
    ensures FindClosing(text, text[to - 1], from + 2) == Some(to - 2)
  {
    hide InlineMath, DisplayMath, IsEscape, FindClosing;
    FindClosingFindsTheFirst(text, text[to - 1], from + 2);
    assert text[to - 2 + 1] == text[to - 1];
  }

  lemma NoSpanStarts(text: string, p: nat, s: Segment)
    requires p < |text| && (text[p] == '`' || text[p] == '$') && Spanned(text, p).Skip?
    requires s.from == p && (s.kind.Code? || s.kind.Dollars?)
    ensures !Holds(text, s)
  {
    hide IsRun, PairsAsMath, FindRun, NoRunBefore;
    if Holds(text, s) {
      SpanIsFound(text, text[p], p, s.to);
    }
  }

  lemma NoDelimitedMathStarts(text: string, p: nat, s: Segment)
    requires p < |text| && text[p] == '\\' && Delimited(text, p).Skip?
    requires s.from == p && s.kind.Rewritten?
    ensures !Holds(text, s)
  {
    hide InlineMath, DisplayMath, IsEscape, FindClosing, NoClosingBefore;
    if Holds(text, s) {
      ClosingIsFound(text, p, s.to, s.kind.math);
    }
  }

  lemma SkippedMeansNothing(text: string, p: nat)
    requires p < |text| && At(text, p).Skip?
    ensures NothingStartsAt(text, p) && At(text, p).next == Next(text, p)
  {
    forall s: Segment | s.from == p && s.kind != Prose
      ensures !Holds(text, s)
    {
      if s.kind.Rewritten? {
        if text[p] == '\\' {
          NoDelimitedMathStarts(text, p, s);
        }
      } else if text[p] == '`' || text[p] == '$' {
        NoSpanStarts(text, p, s);
      }
    }
  }

  /** Reading the prose from `from` to `to` stands nowhere where something starts. */
  ghost predicate OverlooksNothing(text: string, from: nat, to: nat) {
    forall p: nat | from <= p < to && p < |text| && Stands(text, from, p) :: NothingStartsAt(text, p)
  }

  lemma OverlooksNothingFurther(text: string, prose: nat, i: nat)
    requires i < |text| && Stands(text, prose, i) && OverlooksNothing(text, prose, i) && NothingStartsAt(text, i)
    ensures OverlooksNothing(text, prose, Next(text, i))
  {
    hide NothingStartsAt, Stands;
    forall p: nat | prose <= p < Next(text, i) && p < |text| && Stands(text, prose, p)
      ensures NothingStartsAt(text, p)
    {
      StandsNowhereBetween(text, prose, i, p);
    }
  }

  /**
   * At every unescaped place in a prose segment: no run there is closed as
   * code or math, and no delimiter has a counterpart that makes math.
   */
  lemma {:induction false} ProseOverlooksNothing(text: string, prose: nat, i: nat)
    requires prose <= |text| && prose <= i && Stands(text, prose, i) && OverlooksNothing(text, prose, i)
    ensures forall s | s in SegmentsFrom(text, prose, i) && s.kind == Prose :: OverlooksNothing(text, s.from, s.to)
    decreases |text| - i
  {
    hide OverlooksNothing, Stands, At;
    if i >= |text| {
      OverlooksLess(text, prose, |text|, i);
    } else {
      match At(text, i)
      case Skip(next) =>
        SkippedMeansNothing(text, i);
        StandsNext(text, prose, i);
        OverlooksNothingFurther(text, prose, i);
        ProseOverlooksNothing(text, prose, next);
      case Take(segment) =>
        FreshStart(text, segment.to);
        ProseOverlooksNothing(text, segment.to, segment.to);
        TakenIsNoProse(text, i);
    }
  }

  lemma OverlooksLess(text: string, from: nat, to: nat, limit: nat)
    requires OverlooksNothing(text, from, limit) && to <= limit
    ensures OverlooksNothing(text, from, to)
  {
  }

  lemma FreshStart(text: string, at: nat)
    ensures Stands(text, at, at) && OverlooksNothing(text, at, at)
  {
  }

  lemma TakenIsNoProse(text: string, i: nat)
    requires i < |text| && At(text, i).Take?
    ensures At(text, i).segment.kind != Prose
  {
  }

  // ------------------------------------------------------------------------
  // Rewriting a paragraph
  // ------------------------------------------------------------------------

  /** What is not modelled: the rewriting of bare groups in `text[from..to]`. */
  type Bare = (string, nat, nat) -> string

  function Rendered(bare: Bare, text: string, segments: seq<Segment>): string {
    if segments == [] then []
    else Rendered(bare, text, segments[..|segments| - 1]) + RenderedOne(bare, text, segments[|segments| - 1])
  }

  function RenderedOne(bare: Bare, text: string, s: Segment): string {
    match s.kind
    case Prose => bare(text, s.from, s.to)
    case Rewritten(math) => math
    case _ => if s.from <= s.to <= |text| then text[s.from..s.to] else []
  }

  function Normalized(bare: Bare, text: string): string {
    Rendered(bare, text, Segments(text))
  }

  lemma RenderedSnoc(bare: Bare, text: string, a: seq<Segment>, s: Segment)
    ensures Rendered(bare, text, a + [s]) == Rendered(bare, text, a) + RenderedOne(bare, text, s)
  {
    assert (a + [s])[..|a|] == a;
  }

  lemma {:induction false} RenderedConcat(bare: Bare, text: string, a: seq<Segment>, b: seq<Segment>)
    ensures Rendered(bare, text, a + b) == Rendered(bare, text, a) + Rendered(bare, text, b)
  {
    hide Rendered, RenderedOne;
    if b == [] {
      RenderNone(bare, text);
      assert a + b == a;
    } else {
      var n := |b| - 1;
      var init, last := b[..n], b[n];
      assert b == init + [last] && a + b == (a + init) + [last];
      RenderedConcat(bare, text, a, init);
      RenderedSnoc(bare, text, a + init, last);
      RenderedSnoc(bare, text, init, last);
    }
  }

  /** No bare group of the text is rewritten, wherever prose is cut. */
  ghost predicate LeavesBareGroups(bare: Bare, text: string) {
    forall a, b | 0 <= a <= b <= |text| :: bare(text, a, b) == text[a..b]
  }

  lemma CopiedSegment(bare: Bare, text: string, s: Segment)
    requires s.from <= s.to <= |text| && !s.kind.Rewritten? && LeavesBareGroups(bare, text)
    ensures RenderedOne(bare, text, s) + text[s.to..] == text[s.from..]
  {
  }

  /** If bare groups stay as they are and there is no delimited math, the paragraph stays as it is. */
  lemma {:induction false} ParagraphStays(bare: Bare, text: string, segments: seq<Segment>, from: nat)
    requires Tiles(segments, text, from) && from <= |text|
    requires forall s | s in segments :: !s.kind.Rewritten?
    requires LeavesBareGroups(bare, text)
    ensures Rendered(bare, text, segments) == text[from..]
  {
    hide LeavesBareGroups, RenderedOne;
    if segments != [] {
      var s, rest := segments[0], segments[1..];
      hide Rendered;
      assert forall t | t in rest :: t in segments;
      ParagraphStays(bare, text, rest, s.to);
      assert segments == [s] + rest;
      RenderedConcat(bare, text, [s], rest);
      RenderOne(bare, text, s);
      CopiedSegment(bare, text, s);
    }
  }

  method RunLengthAt(text: string, at: nat) returns (size: nat)
    requires at < |text|
    ensures size == RunLength(text, at)
  {
    var end := at;
    while end < |text| && text[end] == text[at]
      invariant at <= end <= |text| && forall k | at <= k < end :: text[k] == text[at]
    {
      end := end + 1;
    }
    size := end - at;
  }

  method FindRunOf(text: string, c: char, size: nat, from: nat) returns (at: Option<nat>)
    requires from <= |text|
    ensures at == FindRun(text, c, size, from)
  {
    var i := from;
    while i < |text|
      invariant from <= i <= |text| && FindRun(text, c, size, i) == FindRun(text, c, size, from)
    {
      if text[i] != c {
        i := i + 1;
        continue;
      }
      var run := RunLengthAt(text, i);
      if run == size {
        return Some(i);
      }
      i := i + run;
    }
    return None;
  }

  method FindClosingDelimiter(text: string, c: char, from: nat) returns (at: Option<nat>)
    ensures at == FindClosing(text, c, from)
  {
    var i := from;
    while i < |text|
      invariant from <= i && FindClosing(text, c, i) == FindClosing(text, c, from)
    {
      if text[i] != '\\' {
        i := i + 1;
        continue;
      }
      if i + 1 < |text| && text[i + 1] == c {
        return Some(i);
      }
      i := i + 2;
    }
    return None;
  }

  /** Looks at the character at `i` and, for a delimiter or a run, for what closes it. */
  method LookAt(text: string, i: nat) returns (found: Found)
    requires i < |text|
    ensures found == At(text, i)
  {
    hide InlineMath, DisplayMath, PairsAsMath, FindRun, FindClosing, Trim;
    var c := text[i];
    if c == '\\' {
      if i + 1 < |text| && (text[i + 1] == '(' || text[i + 1] == '[') {
        var round := text[i + 1] == '(';
        var close := FindClosingDelimiter(text, if round then ')' else ']', i + 2);
        if close.Some? {
          var inner := text[i + 2..close.value];
          var math := if round then InlineMath(inner) else DisplayMath(inner);
          if math.Some? {
            return Take(Segment(Rewritten(math.value), i, close.value + 2));
          }
        }
      }
      return Skip(i + 2);
    }
    if c != '`' && c != '$' {
      return Skip(i + 1);
    }
    var size := RunLengthAt(text, i);
    var close := FindRunOf(text, c, size, i + size);
    if close.None? || !(c == '`' || size > 1 || PairsAsMath(text, i, close.value)) {
      return Skip(i + size);
    }
    return Take(Segment(if c == '`' then Code else Dollars, i, close.value + size));
  }

  lemma NextSegments(text: string, prose: nat, i: nat)
    requires prose <= i < |text|
    ensures At(text, i).Skip? ==> SegmentsFrom(text, prose, i) == SegmentsFrom(text, prose, At(text, i).next)
    ensures At(text, i).Take? ==>
      var segment := At(text, i).segment;
      SegmentsFrom(text, prose, i) == [Segment(Prose, prose, i), segment] + SegmentsFrom(text, segment.to, segment.to)
  {
  }

  /** Rewrites one paragraph: prose and delimited math are rewritten, code and math that is there is copied. */
  method NormalizeParagraph(bare: Bare, text: string) returns (result: string)
    ensures result == Normalized(bare, text)
  {
    hide Rendered, RenderedOne, At, SegmentsFrom;
    var prose: nat, i: nat := 0, 0;
    var out: string := [];
    ghost var before: seq<Segment> := [];
    RenderNone(bare, text);
    while i < |text|
      invariant prose <= i && prose <= |text|
      invariant before + SegmentsFrom(text, prose, i) == Segments(text)
      invariant out == Rendered(bare, text, before)
      decreases |text| - i
    {
      var found := LookAt(text, i);
      NextSegments(text, prose, i);
      match found {
        case Skip(next) =>
          i := next;
        case Take(segment) =>
          out, before := Keep(bare, text, out, prose, i, before, segment);
          prose, i := segment.to, segment.to;
      }
    }
    result := out + bare(text, prose, |text|);
    LastSegment(text, prose, i);
    RenderedConcat(bare, text, before, [Segment(Prose, prose, |text|)]);
    RenderProse(bare, text, prose, |text|);
  }

  lemma LastSegment(text: string, prose: nat, i: nat)
    requires prose <= |text| <= i
    ensures SegmentsFrom(text, prose, i) == [Segment(Prose, prose, |text|)]
  {
  }

  lemma RenderProse(bare: Bare, text: string, from: nat, to: nat)
    ensures Rendered(bare, text, [Segment(Prose, from, to)]) == bare(text, from, to)
  {
    RenderOne(bare, text, Segment(Prose, from, to));
  }

  lemma RenderNone(bare: Bare, text: string)
    ensures Rendered(bare, text, []) == []
  {
  }

  lemma RenderOne(bare: Bare, text: string, s: Segment)
    ensures Rendered(bare, text, [s]) == RenderedOne(bare, text, s)
  {
    assert [s][..0] == [];
  }

  /** The prose up to `from`, then what replaces the segment that starts there. */
  method Keep(bare: Bare, text: string, out: string, prose: nat, from: nat, ghost before: seq<Segment>, segment: Segment)
    returns (more: string, ghost after: seq<Segment>)
    requires out == Rendered(bare, text, before)
    ensures after == before + [Segment(Prose, prose, from), segment]
    ensures more == Rendered(bare, text, after)
  {
    hide Rendered, RenderedOne;
    more := out + (bare(text, prose, from) + RenderedOne(bare, text, segment));
    after := before + [Segment(Prose, prose, from), segment];
    assert [Segment(Prose, prose, from), segment] == [Segment(Prose, prose, from)] + [segment];
    RenderedConcat(bare, text, before, [Segment(Prose, prose, from), segment]);
    RenderedConcat(bare, text, [Segment(Prose, prose, from)], [segment]);
    RenderProse(bare, text, prose, from);
    RenderOne(bare, text, segment);
  }

  // ------------------------------------------------------------------------
  // Rewriting a text, paragraph by paragraph
  // ------------------------------------------------------------------------

  /** How a line reads as a fence: its run of marks, if it has one, and what follows. */
  datatype Mark = Mark(run: string, rest: string)

  /** What is not modelled: finding fence marks and blank lines behind quotes and indents. */
  datatype LineRules = LineRules(mark: string -> Mark, blank: string -> bool)

  datatype Fence = Fence(c: char, size: nat)

  predicate Closes(fence: Fence, mark: Mark) {
    StartsWith(mark.run, [fence.c]) && |mark.run| >= fence.size && Trim(mark.rest) == []
  }

  /** An info string can hold no mark of its own fence, unless that is a tilde. */
  predicate Opens(mark: Mark) {
    mark.run != [] && (mark.run[0] == '~' || mark.run[0] !in mark.rest)
  }

  /** The fence that is open before line `k`. */
  function FenceBefore(rules: LineRules, lines: seq<string>, k: nat): Option<Fence>
    requires k <= |lines|
  {
    if k == 0 then None else AfterLine(rules, FenceBefore(rules, lines, k - 1), lines[k - 1])
  }

  function AfterLine(rules: LineRules, fence: Option<Fence>, line: string): Option<Fence> {
    var mark := rules.mark(line);
    match fence
    case Some(open) => if Closes(open, mark) then None else fence
    case None => if Opens(mark) then Some(Fence(mark.run[0], |mark.run|)) else None
  }

  /** Fence lines, the lines between them, and blank lines are left as they are. */
  predicate LeftAlone(rules: LineRules, lines: seq<string>, k: nat)
    requires k < |lines|
  {
    FenceBefore(rules, lines, k).Some? || Opens(rules.mark(lines[k])) || rules.blank(lines[k])
  }

  /** Line `o` opens a fence: a run of marks that are tildes or that no mark of the same kind follows. */
  ghost predicate OpensAt(rules: LineRules, lines: seq<string>, o: nat) {
    && o < |lines|
    && var mark := rules.mark(lines[o]);
       mark.run != [] && (mark.run[0] == '~' || forall i | 0 <= i < |mark.rest| :: mark.rest[i] != mark.run[0])
  }

  /** Line `j` closes what line `o` opened: at least as many of the same marks, and only white space after them. */
  ghost predicate ClosesAt(rules: LineRules, lines: seq<string>, o: nat, j: nat) {
    && o < |lines| && j < |lines|
    && var opening, mark := rules.mark(lines[o]), rules.mark(lines[j]);
       && opening.run != [] && mark.run != [] && mark.run[0] == opening.run[0]
       && |mark.run| >= |opening.run| && Blank(mark.rest)
  }

  /** The fence of line `o`, which no earlier one holds, is still open before line `k`. */
  ghost predicate OpenSince(rules: LineRules, lines: seq<string>, o: nat, k: nat) {
    && o < k <= |lines| && FenceBefore(rules, lines, o).None? && OpensAt(rules, lines, o)
    && forall j | o < j < k :: !ClosesAt(rules, lines, o, j)
  }

  lemma FencesRead(rules: LineRules, lines: seq<string>, o: nat, j: nat)
    requires o < |lines| && j < |lines|
    ensures OpensAt(rules, lines, o) <==> Opens(rules.mark(lines[o]))
    ensures OpensAt(rules, lines, o) ==>
      var mark := rules.mark(lines[o]);
      ClosesAt(rules, lines, o, j) <==> Closes(Fence(mark.run[0], |mark.run|), rules.mark(lines[j]))
  {
    TrimIsInside(rules.mark(lines[j]).rest);
    hide Trim, IsSpace;
  }

  lemma FencesReadBefore(rules: LineRules, lines: seq<string>, k: nat)
    requires 0 < k <= |lines|
    ensures
      var before, after := FenceBefore(rules, lines, k - 1), FenceBefore(rules, lines, k);
      && (before.None? && OpensAt(rules, lines, k - 1) ==>
            after == Some(Fence(rules.mark(lines[k - 1]).run[0], |rules.mark(lines[k - 1]).run|)))
      && (before.None? && !OpensAt(rules, lines, k - 1) ==> after == None)
      && forall o: nat | o < k - 1 && OpensAt(rules, lines, o)
           && before == Some(Fence(rules.mark(lines[o]).run[0], |rules.mark(lines[o]).run|)) ::
           after == if ClosesAt(rules, lines, o, k - 1) then None else before
  {
    hide OpensAt, ClosesAt, Opens, Closes;
    forall o: nat | o < |lines|
      ensures OpensAt(rules, lines, o) <==> Opens(rules.mark(lines[o]))
      ensures OpensAt(rules, lines, o) ==> rules.mark(lines[o]).run != []
      ensures OpensAt(rules, lines, o) ==>
        var mark := rules.mark(lines[o]);
        ClosesAt(rules, lines, o, k - 1) <==> Closes(Fence(mark.run[0], |mark.run|), rules.mark(lines[k - 1]))
    {
      FencesRead(rules, lines, o, k - 1);
      OpenersHaveMarks(rules, lines, o);
    }
  }

  lemma OpenersHaveMarks(rules: LineRules, lines: seq<string>, o: nat)
    ensures OpensAt(rules, lines, o) ==> o < |lines| && rules.mark(lines[o]).run != []
  {
  }

  lemma OpenSinceBefore(rules: LineRules, lines: seq<string>, o: nat, k: nat)
    requires 0 < k <= |lines|
    ensures o < k - 1 ==>
      (OpenSince(rules, lines, o, k) <==> OpenSince(rules, lines, o, k - 1) && !ClosesAt(rules, lines, o, k - 1))
    ensures OpenSince(rules, lines, k - 1, k) <==>
      FenceBefore(rules, lines, k - 1).None? && OpensAt(rules, lines, k - 1)
    ensures OpenSince(rules, lines, o, k) ==>
      OpensAt(rules, lines, o) && o < k && rules.mark(lines[o]).run != []
  {
    hide ClosesAt, FenceBefore;
  }

  /** A fence is open exactly since the unfenced line that opened it and that no line has closed. */
  lemma {:induction false} FenceIsOpenSince(rules: LineRules, lines: seq<string>, k: nat)
    requires k <= |lines|
    ensures FenceBefore(rules, lines, k).Some? <==> exists o: nat :: OpenSince(rules, lines, o, k)
    ensures forall o: nat | OpenSince(rules, lines, o, k) ::
      OpensAt(rules, lines, o) && o < |lines| && rules.mark(lines[o]).run != []
      && FenceBefore(rules, lines, k) == Some(Fence(rules.mark(lines[o]).run[0], |rules.mark(lines[o]).run|))
  {
    if k > 0 {
      FenceIsOpenSince(rules, lines, k - 1);
      FencesReadBefore(rules, lines, k);
      forall o: nat
        ensures o < k - 1 ==>
          (OpenSince(rules, lines, o, k) <==> OpenSince(rules, lines, o, k - 1) && !ClosesAt(rules, lines, o, k - 1))
        ensures OpenSince(rules, lines, o, k) ==>
          OpensAt(rules, lines, o) && o < k && rules.mark(lines[o]).run != []
      {
        OpenSinceBefore(rules, lines, o, k);
      }
      OpenSinceBefore(rules, lines, k - 1, k);
      hide OpenSince, OpensAt, ClosesAt, FenceBefore;
      if FenceBefore(rules, lines, k - 1).Some? {
        var o: nat :| OpenSince(rules, lines, o, k - 1);
        OpenIsEarlier(rules, lines, o, k - 1);
      }
    }
  }

  lemma OpenIsEarlier(rules: LineRules, lines: seq<string>, o: nat, k: nat)
    requires OpenSince(rules, lines, o, k)
    ensures o < k
  {
  }

  /** A line left alone, or a paragraph of lines that are not. */
  datatype Block = Alone(line: string) | Paragraph(lines: seq<string>)

  function BlockLines(blocks: seq<Block>): seq<string> {
    if blocks == [] then []
    else
      var last := blocks[|blocks| - 1];
      BlockLines(blocks[..|blocks| - 1]) + (if last.Alone? then [last.line] else last.lines)
  }

  function Flushed(blocks: seq<Block>, paragraph: seq<string>): seq<Block> {
    if paragraph == [] then blocks else blocks + [Paragraph(paragraph)]
  }

  /** The closed blocks and the open paragraph of the first `k` lines. */
  function BlocksOf(rules: LineRules, lines: seq<string>, k: nat): (r: (seq<Block>, seq<string>))
    requires k <= |lines|
  {
    if k == 0 then ([], [])
    else
      var (blocks, paragraph) := BlocksOf(rules, lines, k - 1);
      if LeftAlone(rules, lines, k - 1) then (Flushed(blocks, paragraph) + [Alone(lines[k - 1])], [])
      else (blocks, paragraph + [lines[k - 1]])
  }

  function Blocks(rules: LineRules, lines: seq<string>): seq<Block> {
    var (blocks, paragraph) := BlocksOf(rules, lines, |lines|);
    Flushed(blocks, paragraph)
  }

  lemma BlockLinesGrow(blocks: seq<Block>, b: Block)
    ensures BlockLines(blocks + [b]) == BlockLines(blocks) + (if b.Alone? then [b.line] else b.lines)
  {
    assert (blocks + [b])[..|blocks|] == blocks;
  }

  lemma BlockLinesFlushed(blocks: seq<Block>, paragraph: seq<string>)
    ensures BlockLines(Flushed(blocks, paragraph)) == BlockLines(blocks) + paragraph
  {
    if paragraph != [] {
      BlockLinesGrow(blocks, Paragraph(paragraph));
    }
  }

  lemma NextBlocks(rules: LineRules, lines: seq<string>, k: nat)
    requires k < |lines|
    ensures
      var (blocks, paragraph) := BlocksOf(rules, lines, k);
      BlocksOf(rules, lines, k + 1)
      == if LeftAlone(rules, lines, k) then (Flushed(blocks, paragraph) + [Alone(lines[k])], [])
         else (blocks, paragraph + [lines[k]])
  {
  }

  lemma OneMoreLine(blocks: seq<Block>, paragraph: seq<string>, line: string)
    ensures BlockLines(Flushed(blocks, paragraph) + [Alone(line)]) == BlockLines(blocks) + paragraph + [line]
  {
    hide BlockLines, Flushed;
    BlockLinesFlushed(blocks, paragraph);
    BlockLinesGrow(Flushed(blocks, paragraph), Alone(line));
  }

  /** The blocks hold every line once, in order. */
  lemma {:induction false} BlocksHoldTheLines(rules: LineRules, lines: seq<string>, k: nat)
    requires k <= |lines|
    ensures BlockLines(BlocksOf(rules, lines, k).0) + BlocksOf(rules, lines, k).1 == lines[..k]
  {
    if k == 0 {
      NoLines();
    } else {
      hide LeftAlone, BlockLines, Flushed, BlocksOf;
      var (blocks, paragraph) := BlocksOf(rules, lines, k - 1);
      BlocksHoldTheLines(rules, lines, k - 1);
      NextBlocks(rules, lines, k - 1);
      OneMoreLine(blocks, paragraph, lines[k - 1]);
      TakeOneMore(lines, k - 1, BlockLines(blocks), paragraph);
    }
  }

  lemma TakeOneMore(lines: seq<string>, k: nat, closed: seq<string>, open: seq<string>)
    requires k < |lines| && closed + open == lines[..k]
    ensures closed + (open + [lines[k]]) == lines[..k + 1]
    ensures closed + open + [lines[k]] == lines[..k + 1]
    ensures (closed + open + [lines[k]]) + [] == lines[..k + 1]
  {
  }

  lemma NoLines()
    ensures BlockLines([]) == []
  {
  }

  /** Two paragraphs never adjoin: a line left alone lies between them. */
  ghost predicate ParagraphsApart(blocks: seq<Block>) {
    forall i | 0 <= i < |blocks| - 1 :: blocks[i].Alone? || blocks[i + 1].Alone?
  }

  lemma ApartStays(blocks: seq<Block>, paragraph: seq<string>, line: string)
    requires ParagraphsApart(Flushed(blocks, paragraph)) && (blocks != [] ==> blocks[|blocks| - 1].Alone?)
    ensures ParagraphsApart(Flushed(Flushed(blocks, paragraph) + [Alone(line)], []))
    ensures ParagraphsApart(Flushed(blocks, paragraph + [line]))
  {
    var before, after := Flushed(blocks, paragraph), Flushed(blocks, paragraph + [line]);
    forall i | 0 <= i < |after| - 1
      ensures after[i].Alone? || after[i + 1].Alone?
    {
      assert i + 1 < |blocks| ==> before[i] == blocks[i] && before[i + 1] == blocks[i + 1];
    }
  }

  /** Paragraphs are as long as they can be. */
  lemma {:induction false} ParagraphsAreWhole(rules: LineRules, lines: seq<string>, k: nat)
    requires k <= |lines|
    ensures
      var (blocks, paragraph) := BlocksOf(rules, lines, k);
      ParagraphsApart(Flushed(blocks, paragraph)) && (blocks != [] ==> blocks[|blocks| - 1].Alone?)
  {
    if k > 0 {
      hide LeftAlone, Flushed, BlocksOf;
      ParagraphsAreWhole(rules, lines, k - 1);
      NextBlocks(rules, lines, k - 1);
      var (blocks, paragraph) := BlocksOf(rules, lines, k - 1);
      ApartStays(blocks, paragraph, lines[k - 1]);
    }
  }

  /** The lines of the blocks that are left alone. */
  function AloneLines(blocks: seq<Block>): seq<string> {
    if blocks == [] then []
    else
      var last := blocks[|blocks| - 1];
      AloneLines(blocks[..|blocks| - 1]) + (if last.Alone? then [last.line] else [])
  }

  function LeftAloneLines(rules: LineRules, lines: seq<string>, k: nat): seq<string>
    requires k <= |lines|
  {
    if k == 0 then []
    else LeftAloneLines(rules, lines, k - 1) + (if LeftAlone(rules, lines, k - 1) then [lines[k - 1]] else [])
  }

  lemma AloneLinesGrow(blocks: seq<Block>, b: Block)
    ensures AloneLines(blocks + [b]) == AloneLines(blocks) + (if b.Alone? then [b.line] else [])
  {
    assert (blocks + [b])[..|blocks|] == blocks;
  }

  lemma AloneLinesFlushed(blocks: seq<Block>, paragraph: seq<string>)
    ensures AloneLines(Flushed(blocks, paragraph)) == AloneLines(blocks)
  {
    if paragraph != [] {
      AloneLinesGrow(blocks, Paragraph(paragraph));
    }
  }

  /** Blocks of their own are exactly the fence lines, fenced lines and blank lines, in order. */
  lemma {:induction false} AloneLinesAreLeftAlone(rules: LineRules, lines: seq<string>, k: nat)
    requires k <= |lines|
    ensures AloneLines(BlocksOf(rules, lines, k).0) == LeftAloneLines(rules, lines, k)
  {
    if k > 0 {
      hide LeftAlone, AloneLines;
      AloneLinesAreLeftAlone(rules, lines, k - 1);
      var (blocks, paragraph) := BlocksOf(rules, lines, k - 1);
      AloneLinesFlushed(blocks, paragraph);
      AloneLinesGrow(Flushed(blocks, paragraph), Alone(lines[k - 1]));
    } else {
      assert AloneLines([]) == [];
    }
  }

  function BlockText(bare: Bare, block: Block): string {
    match block
    case Alone(line) => line
    case Paragraph(lines) => Normalized(bare, Join(lines))
  }

  function BlockTexts(bare: Bare, blocks: seq<Block>): (texts: seq<string>)
    ensures |texts| == |blocks|
    ensures forall i | 0 <= i < |blocks| :: texts[i] == BlockText(bare, blocks[i])
  {
    seq(|blocks|, (i: nat) requires i < |blocks| => BlockText(bare, blocks[i]))
  }

  predicate HasMathSigns(text: string) {
    '\\' in text || exists i | 0 <= i < |text| - 1 :: (text[i] == '_' || text[i] == '^') && text[i + 1] == '{'
  }

  function NormalizedText(rules: LineRules, bare: Bare, markdown: string): string {
    if HasMathSigns(markdown) then Join(BlockTexts(bare, Blocks(rules, Split(markdown)))) else markdown
  }

  function GroupOf(block: Block): seq<string> {
    if block.Alone? then [block.line] else block.lines
  }

  function GroupsOf(blocks: seq<Block>): (groups: seq<seq<string>>)
    ensures |groups| == |blocks|
    ensures forall i | 0 <= i < |blocks| :: groups[i] == GroupOf(blocks[i])
  {
    seq(|blocks|, (i: nat) requires i < |blocks| => GroupOf(blocks[i]))
  }

  lemma {:induction false} GroupsFlatten(blocks: seq<Block>)
    ensures Flatten(GroupsOf(blocks)) == BlockLines(blocks)
  {
    if blocks != [] {
      var n := |blocks| - 1;
      GroupsFlatten(blocks[..n]);
      assert GroupsOf(blocks) == GroupsOf(blocks[..n]) + [GroupOf(blocks[n])];
      FlattenAppend(GroupsOf(blocks[..n]), GroupOf(blocks[n]));
    }
  }

  ghost predicate NoneEmpty(blocks: seq<Block>) {
    forall i | 0 <= i < |blocks| :: GroupOf(blocks[i]) != []
  }

  lemma {:induction false} BlocksAreNotEmpty(rules: LineRules, lines: seq<string>, k: nat)
    requires k <= |lines|
    ensures NoneEmpty(BlocksOf(rules, lines, k).0)
    ensures NoneEmpty(Flushed(BlocksOf(rules, lines, k).0, BlocksOf(rules, lines, k).1))
  {
    hide LeftAlone;
    if k > 0 {
      BlocksAreNotEmpty(rules, lines, k - 1);
    }
  }

  /** If every paragraph stays as it is, the whole text does. */
  lemma TextStays(rules: LineRules, bare: Bare, markdown: string)
    requires forall b | b in Blocks(rules, Split(markdown)) && b.Paragraph? :: Normalized(bare, Join(b.lines)) == Join(b.lines)
    ensures NormalizedText(rules, bare, markdown) == markdown
  {
    var lines := Split(markdown);
    var blocks := Blocks(rules, lines);
    BlocksHoldTheLines(rules, lines, |lines|);
    BlockLinesFlushed(BlocksOf(rules, lines, |lines|).0, BlocksOf(rules, lines, |lines|).1);
    BlocksAreNotEmpty(rules, lines, |lines|);
    hide BlockLines, Normalized, BlocksOf, Split, Flatten, Flushed;
    assert lines[..|lines|] == lines;
    UnchangedTexts(bare, blocks);
    JoinOfSplit(markdown);
  }

  lemma UnchangedTexts(bare: Bare, blocks: seq<Block>)
    requires NoneEmpty(blocks)
    requires forall b | b in blocks && b.Paragraph? :: Normalized(bare, Join(b.lines)) == Join(b.lines)
    ensures Join(BlockTexts(bare, blocks)) == Join(BlockLines(blocks))
  {
    var groups := GroupsOf(blocks);
    JoinOfGroups(groups);
    GroupsFlatten(blocks);
    var joined := seq(|groups|, (i: nat) requires i < |groups| => Join(groups[i]));
    forall i | 0 <= i < |blocks|
      ensures BlockText(bare, blocks[i]) == joined[i]
    {
      hide Normalized;
      assert blocks[i] in blocks;
      if blocks[i].Alone? {
        assert Join(groups[i]) == blocks[i].line;
      }
    }
    assert BlockTexts(bare, blocks) == joined;
  }

  /** Rewrites a text: fenced code, blank lines and fences are copied, paragraphs are rewritten. */
  method NormalizeMath(rules: LineRules, bare: Bare, markdown: string) returns (result: string)
    ensures result == NormalizedText(rules, bare, markdown)
  {
    if !HasMathSigns(markdown) {
      return markdown;
    }
    hide Normalized, HasMathSigns, BlockTexts;
    var lines := Split(markdown);
    var out: seq<string> := [];
    var paragraph: seq<string> := [];
    var fence: Option<Fence> := None;
    ghost var blocks: seq<Block> := [];
    NoTexts(bare);
    for k := 0 to |lines|
      invariant fence == FenceBefore(rules, lines, k)
      invariant (blocks, paragraph) == BlocksOf(rules, lines, k)
      invariant out == BlockTexts(bare, blocks)
    {
      var line := lines[k];
      var mark := rules.mark(line);
      if fence.Some? {
        FlushOfAlone(rules, lines, k);
        out, blocks := Push(bare, out, blocks, Alone(line));
        if Closes(fence.value, mark) {
          fence := None;
        }
        continue;
      }
      if Opens(mark) {
        out, blocks := FlushParagraph(bare, out, blocks, paragraph);
        paragraph := [];
        out, blocks := Push(bare, out, blocks, Alone(line));
        fence := Some(Fence(mark.run[0], |mark.run|));
        continue;
      }
      if rules.blank(line) {
        out, blocks := FlushParagraph(bare, out, blocks, paragraph);
        paragraph := [];
        out, blocks := Push(bare, out, blocks, Alone(line));
        continue;
      }
      paragraph := paragraph + [line];
    }
    out, blocks := FlushParagraph(bare, out, blocks, paragraph);
    result := Join(out);
  }

  lemma NoTexts(bare: Bare)
    ensures BlockTexts(bare, []) == []
  {
  }

  /** Inside a fence no paragraph is open. */
  lemma {:induction false} FlushOfAlone(rules: LineRules, lines: seq<string>, k: nat)
    requires k <= |lines| && FenceBefore(rules, lines, k).Some?
    ensures BlocksOf(rules, lines, k).1 == []
  {
    assert k > 0;
    assert LeftAlone(rules, lines, k - 1);
  }

  method Push(bare: Bare, out: seq<string>, ghost blocks: seq<Block>, block: Block)
    returns (more: seq<string>, ghost after: seq<Block>)
    requires out == BlockTexts(bare, blocks)
    ensures after == blocks + [block] && more == BlockTexts(bare, after)
  {
    hide Normalized;
    var text: string;
    match block {
      case Alone(line) => text := line;
      case Paragraph(lines) => text := NormalizeParagraph(bare, Join(lines));
    }
    more, after := out + [text], blocks + [block];
  }

  method FlushParagraph(bare: Bare, out: seq<string>, ghost blocks: seq<Block>, paragraph: seq<string>)
    returns (more: seq<string>, ghost after: seq<Block>)
    requires out == BlockTexts(bare, blocks)
    ensures after == Flushed(blocks, paragraph) && more == BlockTexts(bare, after)
  {
    more, after := out, blocks;
    if |paragraph| > 0 {
      more, after := Push(bare, out, blocks, Paragraph(paragraph));
    }
  }
}
