/** Counting what a streamed model call used, while passing the stream on untouched. */
module UsageMeter {
  import opened Wrappers
  import opened TextLines
  import opened Json

  datatype Usage = Usage(input: real, output: real, reasoning: Option<real>, cached: Option<real>)

  /** A finite number of at least zero. */
  function Count(value: Option<Json>): (count: Option<real>)
    ensures count.Some? ==> count.value >= 0.0
  {
    if value.Some? && value.value.Num? && value.value.value >= 0.0 then Some(value.value.value) else None
  }

  function CountOf(block: Option<Json>, name: string, other: string): Option<real> {
    OrElse(Count(Field(block, name)), Count(Field(block, other)))
  }

  function DetailsOf(block: Option<Json>, name: string, other: string): Option<Json> {
    OrElse(Record(Field(block, name)), Record(Field(block, other)))
  }

  function ReadReportedUsage(usage: Option<Json>): Option<Usage> {
    var block := Record(usage);
    var input := CountOf(block, "prompt_tokens", "input_tokens");
    var output := CountOf(block, "completion_tokens", "output_tokens");
    if block.None? || (input.None? && output.None?) then None
    else Some(Usage(
      if input.Some? then input.value else 0.0,
      if output.Some? then output.value else 0.0,
      Count(Field(DetailsOf(block, "completion_tokens_details", "output_tokens_details"), "reasoning_tokens")),
      Count(Field(DetailsOf(block, "prompt_tokens_details", "input_tokens_details"), "cached_tokens"))))
  }

  /** The names under which a provider may report a token count. */
  const TOKEN_NAMES: set<string> := {"prompt_tokens", "input_tokens", "completion_tokens", "output_tokens"}

  /** There is a report exactly if one of the four counts is there, and it never holds a negative count. */
  lemma ReportedWhenCounted(usage: Option<Json>)
    ensures ReadReportedUsage(usage).Some? <==> exists name :: name in TOKEN_NAMES && Count(Field(usage, name)).Some?
    ensures ReadReportedUsage(usage).Some? ==>
      var u := ReadReportedUsage(usage).value;
      && u.input >= 0.0 && u.output >= 0.0
      && (u.reasoning.Some? ==> u.reasoning.value >= 0.0) && (u.cached.Some? ==> u.cached.value >= 0.0)
  {
    if exists name :: name in TOKEN_NAMES && Count(Field(usage, name)).Some? {
      var name :| name in TOKEN_NAMES && Count(Field(usage, name)).Some?;
      assert Record(usage) == usage;
    } else {
      assert "prompt_tokens" in TOKEN_NAMES && "input_tokens" in TOKEN_NAMES;
      assert "completion_tokens" in TOKEN_NAMES && "output_tokens" in TOKEN_NAMES;
    }
  }

  /** The field is there and holds the count `x`. */
  predicate HasCount(f: map<string, Json>, name: string, x: real) {
    name in f && f[name] == Num(x) && x >= 0.0
  }

  predicate HasNoCount(f: map<string, Json>, name: string) {
    !(name in f && f[name].Num? && f[name].value >= 0.0)
  }

  /** `x` is the count under the first name, else that under the second, else zero. */
  predicate CountedAs(f: map<string, Json>, first: string, second: string, x: real) {
    || HasCount(f, first, x)
    || (HasNoCount(f, first) && HasCount(f, second, x))
    || (HasNoCount(f, first) && HasNoCount(f, second) && x == 0.0)
  }

  /** The field holds an object or a list, which has no fields by name. */
  predicate HasBlock(f: map<string, Json>, name: string) {
    name in f && (f[name].Obj? || f[name].Arr?)
  }

  /** `x` is the count `name` of the block `details`, absent if there is none. */
  predicate DetailedAs(f: map<string, Json>, details: string, name: string, x: Option<real>)
    requires details in f
  {
    match x
    case Some(count) => f[details].Obj? && HasCount(f[details].fields, name, count)
    case None => !f[details].Obj? || HasNoCount(f[details].fields, name)
  }

  /** The same for the first of two blocks that is there. */
  predicate BrokenDownAs(f: map<string, Json>, first: string, second: string, name: string, x: Option<real>) {
    if HasBlock(f, first) then DetailedAs(f, first, name, x)
    else if HasBlock(f, second) then DetailedAs(f, second, name, x)
    else x == None
  }

  /** The usage is what the block says, the names of chat completions first. */
  predicate SaysUsage(f: map<string, Json>, u: Usage) {
    && CountedAs(f, "prompt_tokens", "input_tokens", u.input)
    && CountedAs(f, "completion_tokens", "output_tokens", u.output)
    && BrokenDownAs(f, "completion_tokens_details", "output_tokens_details", "reasoning_tokens", u.reasoning)
    && BrokenDownAs(f, "prompt_tokens_details", "input_tokens_details", "cached_tokens", u.cached)
  }

  /** Each number of a report is the one the block gives under its own names. */
  lemma UsageIsRead(usage: Option<Json>)
    ensures
      var u := ReadReportedUsage(usage);
      u.Some? ==> usage.Some? && usage.value.Obj? && SaysUsage(usage.value.fields, u.value)
  {
  }

  /** Names that differ are read apart: what a block says of its usage is one thing. */
  lemma UsageIsOne(f: map<string, Json>, u: Usage, w: Usage)
    requires SaysUsage(f, u) && SaysUsage(f, w)
    ensures u == w
  {
  }

  // ------------------------------------------------------------------------
  // One line of a stream
  // ------------------------------------------------------------------------

  /** What is not modelled of reading a line: the search for a usage object, and parsing JSON, which may fail. */
  datatype Reader = Reader(mentionsUsage: string -> bool, parse: string -> Option<Json>)

  datatype Report = Report(usage: Usage, model: Option<string>)

  /** What a line reports; the model stays open if the event does not name one. */
  function LineReport(reader: Reader, raw: string): Option<Report> {
    var line := Trim(raw);
    if !StartsWith(line, "data:") || !reader.mentionsUsage(line) then None
    else
      var event := Record(reader.parse(line[5..]));
      var usage := ReadReportedUsage(Field(event, "usage"));
      if usage.None? then None
      else
        var model := Field(event, "model");
        Some(Report(usage.value, if model.Some? && model.value.Str? then Some(model.value.text) else None))
  }

  /** The line is a data line of an event with this usage object. */
  predicate CarriesUsage(reader: Reader, raw: string, f: map<string, Json>) {
    var line := Trim(raw);
    && |line| >= 5 && line[..5] == "data:" && reader.mentionsUsage(line)
    && var event := reader.parse(line[5..]);
       && event.Some? && event.value.Obj? && "usage" in event.value.fields
       && event.value.fields["usage"] == Obj(f)
  }

  /** A line reports exactly if it carries a usage object with a count, and then what that object says. */
  lemma LineIsRead(reader: Reader, raw: string)
    ensures LineReport(reader, raw).Some? <==>
      exists f, name :: CarriesUsage(reader, raw, f) && name in TOKEN_NAMES && !HasNoCount(f, name)
    ensures LineReport(reader, raw).Some? ==>
      forall f | CarriesUsage(reader, raw, f) ::
        && SaysUsage(f, LineReport(reader, raw).value.usage)
        && LineReport(reader, raw).value.model == ModelOf(reader.parse(Trim(raw)[5..]).value)
  {
    var line := Trim(raw);
    if StartsWith(line, "data:") && reader.mentionsUsage(line) {
      var event := Record(reader.parse(line[5..]));
      var usage := Field(event, "usage");
      hide ReadReportedUsage, SaysUsage, Trim;
      UsageIsRead(usage);
      ReportedWhenCounted(usage);
      if ReadReportedUsage(usage).Some? {
        var name :| name in TOKEN_NAMES && Count(Field(usage, name)).Some?;
        assert CarriesUsage(reader, raw, usage.value.fields) && !HasNoCount(usage.value.fields, name);
      }
    }
  }

  /** The model an event names, if it names one by a text. */
  function ModelOf(event: Json): (model: Option<string>)
    ensures forall text :: model == Some(text) <==>
      event.Obj? && "model" in event.fields && event.fields["model"] == Str(text)
  {
    if event.Obj? && "model" in event.fields && event.fields["model"].Str?
    then Some(event.fields["model"].text) else None
  }

  /** What is known so far: the last usage, and the last model named with one. */
  datatype Known = Known(last: Option<Usage>, model: Option<string>)

  const NOTHING := Known(None, None)

  function Learn(known: Known, report: Option<Report>): Known {
    match report
    case None => known
    case Some(r) => Known(Some(r.usage), OrElse(r.model, known.model))
  }

  function ReadLines(reader: Reader, known: Known, lines: seq<string>): Known {
    if lines == [] then known
    else Learn(ReadLines(reader, known, lines[..|lines| - 1]), LineReport(reader, lines[|lines| - 1]))
  }

  lemma {:induction false} ReadLinesConcat(reader: Reader, known: Known, a: seq<string>, b: seq<string>)
    ensures ReadLines(reader, known, a + b) == ReadLines(reader, ReadLines(reader, known, a), b)
  {
    hide LineReport, Learn;
    if b == [] {
      assert a + b == a;
    } else {
      ReadLinesConcat(reader, known, a, b[..|b| - 1]);
      assert (a + b)[..|a + b| - 1] == a + b[..|b| - 1];
    }
  }

  lemma ReadNone(reader: Reader, known: Known)
    ensures ReadLines(reader, known, []) == known
  {
  }

  lemma ReadOneMore(reader: Reader, known: Known, lines: seq<string>, line: string)
    ensures ReadLines(reader, known, lines + [line])
         == Learn(ReadLines(reader, known, lines), LineReport(reader, line))
  {
    assert (lines + [line])[..|lines|] == lines;
  }

  /** Line `k` is the last that reports usage, and `known` has what it reports. */
  ghost predicate IsLastReport(reader: Reader, lines: seq<string>, known: Known, k: nat) {
    && k < |lines| && LineReport(reader, lines[k]).Some?
    && known.last == Some(LineReport(reader, lines[k]).value.usage)
    && forall j | k < j < |lines| :: LineReport(reader, lines[j]).None?
  }

  predicate NamesModel(reader: Reader, line: string) {
    LineReport(reader, line).Some? && LineReport(reader, line).value.model.Some?
  }

  /** Line `k` is the last that names a model with its usage, and `known` has it. */
  ghost predicate IsLastNaming(reader: Reader, lines: seq<string>, known: Known, k: nat) {
    && k < |lines| && NamesModel(reader, lines[k]) && known.model == LineReport(reader, lines[k]).value.model
    && forall j | k < j < |lines| :: !NamesModel(reader, lines[j])
  }

  ghost predicate NoneNamed(reader: Reader, lines: seq<string>) {
    forall j | 0 <= j < |lines| :: !NamesModel(reader, lines[j])
  }

  ghost predicate NoReport(reader: Reader, lines: seq<string>) {
    forall j | 0 <= j < |lines| :: LineReport(reader, lines[j]).None?
  }

  /** Nothing is known exactly if no line reports usage; otherwise it is what the last such line says. */
  lemma {:induction false} KnowsTheLastReport(reader: Reader, lines: seq<string>)
    ensures ReadLines(reader, NOTHING, lines).last.None? <==> NoReport(reader, lines)
    ensures NoReport(reader, lines) || exists k: nat :: IsLastReport(reader, lines, ReadLines(reader, NOTHING, lines), k)
  {
    hide LineReport;
    if lines != [] {
      var n := |lines| - 1;
      var before, known := lines[..n], ReadLines(reader, NOTHING, lines);
      KnowsTheLastReport(reader, before);
      if LineReport(reader, lines[n]).Some? {
        assert IsLastReport(reader, lines, known, n);
      } else if !NoReport(reader, before) {
        var k: nat :| IsLastReport(reader, before, known, k);
        assert IsLastReport(reader, lines, known, k);
      }
    }
  }

  /** The model is the one named by the last reporting line that names one, which may be before the last report. */
  lemma {:induction false} KnowsTheLastModel(reader: Reader, lines: seq<string>)
    ensures ReadLines(reader, NOTHING, lines).model.None? <==> NoneNamed(reader, lines)
    ensures NoneNamed(reader, lines) || exists k: nat :: IsLastNaming(reader, lines, ReadLines(reader, NOTHING, lines), k)
  {
    hide LineReport;
    if lines != [] {
      var n := |lines| - 1;
      var before, known := lines[..n], ReadLines(reader, NOTHING, lines);
      KnowsTheLastModel(reader, before);
      if NamesModel(reader, lines[n]) {
        assert IsLastNaming(reader, lines, known, n);
      } else if !NoneNamed(reader, before) {
        var k: nat :| IsLastNaming(reader, before, ReadLines(reader, NOTHING, before), k);
        assert IsLastNaming(reader, lines, known, k);
      }
    }
  }

  // ------------------------------------------------------------------------
  // A stream in pieces
  // ------------------------------------------------------------------------

  /** A line that has not ended yet, and what the lines before it told. */
  datatype Scanner = Scanner(pending: string, known: Known)

  const FRESH := Scanner([], NOTHING)

  function ScanText(reader: Reader, s: Scanner, text: string): Scanner {
    var lines := Split(s.pending + text);
    var n := |lines| - 1;
    Scanner(lines[n], ReadLines(reader, s.known, lines[..n]))
  }

  function ScanChunks(reader: Reader, s: Scanner, chunks: seq<string>): Scanner {
    if chunks == [] then s
    else ScanText(reader, ScanChunks(reader, s, chunks[..|chunks| - 1]), chunks[|chunks| - 1])
  }

  function Concat(chunks: seq<string>): string {
    if chunks == [] then [] else Concat(chunks[..|chunks| - 1]) + chunks[|chunks| - 1]
  }

  /** The lines of a text with one more character in front. */
  function Prepend(c: char, lines: seq<string>): (more: seq<string>)
    requires lines != []
    ensures more != []
  {
    if c == '\n' then [[]] + lines else [[c] + lines[0]] + lines[1..]
  }

  lemma SplitHead(c: char, text: string)
    ensures Split([c] + text) == Prepend(c, Split(text))
  {
    assert ([c] + text)[1..] == text;
  }

  /** All lines but the last stay; what follows the last line's start becomes `later`. */
  ghost predicate Appended(lines: seq<string>, more: seq<string>, later: seq<string>) {
    lines != [] && more != [] && more == lines[..|lines| - 1] + later
  }

  lemma AppendedBelow(c: char, lines: seq<string>, more: seq<string>, later: seq<string>)
    requires Appended(lines, more, later) && (c == '\n' || |lines| > 1)
    ensures Appended(Prepend(c, lines), Prepend(c, more), later)
    ensures Prepend(c, lines)[|Prepend(c, lines)| - 1] == lines[|lines| - 1]
  {
    var n := |lines| - 1;
    if c == '\n' {
      assert ([[]] + lines)[..|lines|] == [[]] + lines[..n];
    } else {
      assert more[0] == lines[0] && more[1..] == lines[1..n] + later;
      assert ([[c] + lines[0]] + lines[1..])[..n] == [[c] + lines[0]] + lines[1..n];
    }
  }

  lemma AppendedBeside(c: char, line: string, b: string)
    requires c != '\n'
    ensures Prepend(c, [line]) == [[c] + line]
    ensures Appended([[c] + line], Prepend(c, Split(line + b)), Split([c] + line + b))
  {
    SplitHead(c, line + b);
    assert [c] + line + b == [c] + (line + b);
  }

  lemma {:induction false} SplitAppend(a: string, b: string)
    ensures Appended(Split(a), Split(a + b), Split(Split(a)[|Split(a)| - 1] + b))
  {
    if a == [] {
      assert a + b == b;
    } else {
      hide Split, Prepend;
      var c, tail := a[0], a[1..];
      var rest := Split(tail);
      assert a == [c] + tail && a + b == [c] + (tail + b);
      SplitAppend(tail, b);
      SplitHead(c, tail);
      SplitHead(c, tail + b);
      if c == '\n' || |rest| > 1 {
        AppendedBelow(c, rest, Split(tail + b), Split(rest[|rest| - 1] + b));
      } else {
        assert rest == [rest[0]];
        AppendedBeside(c, rest[0], b);
      }
    }
  }

  /** Cutting a text in two and scanning both parts is scanning it whole. */
  lemma ScanInTwo(reader: Reader, s: Scanner, a: string, b: string)
    ensures ScanText(reader, ScanText(reader, s, a), b) == ScanText(reader, s, a + b)
  {
    hide Split, ReadLines;
    var head := Split(s.pending + a);
    var n := |head| - 1;
    var tail := Split(head[n] + b);
    SplitAppend(s.pending + a, b);
    assert s.pending + (a + b) == s.pending + a + b;
    var all := head[..n] + tail;
    assert all[..|all| - 1] == head[..n] + tail[..|tail| - 1];
    ReadLinesConcat(reader, s.known, head[..n], tail[..|tail| - 1]);
  }

  /** However a stream is cut into chunks, it tells what its whole text tells. */
  lemma {:induction false} ChunksDoNotMatter(reader: Reader, chunks: seq<string>)
    ensures ScanChunks(reader, FRESH, chunks) == ScanText(reader, FRESH, Concat(chunks))
  {
    if chunks != [] {
      var n := |chunks| - 1;
      ChunksDoNotMatter(reader, chunks[..n]);
      ScanInTwo(reader, FRESH, Concat(chunks[..n]), chunks[n]);
    } else {
      assert Split([]) == [[]];
    }
  }

  /** The end of the stream ends its last line too, so all its lines are read. */
  lemma EndReadsAll(reader: Reader, text: string)
    ensures ScanText(reader, ScanText(reader, FRESH, text), "\n") == Scanner([], ReadLines(reader, NOTHING, Split(text)))
  {
    hide Split, ReadLines;
    ScanInTwo(reader, FRESH, text, "\n");
    SplitAppend(text, "\n");
    var lines := Split(text);
    var n := |lines| - 1;
    SplitAfterLine(lines[n], []);
    SplitOfLine([]);
    assert lines[n] + "\n" + [] == lines[n] + "\n";
    var all := Split(text + "\n");
    assert all == lines[..n] + [lines[n], []];
    assert all[..|all| - 1] == lines;
    assert FRESH.pending + (text + "\n") == text + "\n";
  }

  // ------------------------------------------------------------------------
  // The meter
  // ------------------------------------------------------------------------

  /** What reading the provider's stream gives next. */
  datatype Pulled = Chunk(text: string) | Done | Broken

  class Meter {
    const reader: Reader
    var pending: string
    var last: Option<Usage>
    var model: Option<string>
    var finished: bool
    /** Reports handed on, and chunks passed to the caller. */
    var reports: seq<Report>
    var passed: seq<string>
    ghost var scanned: string

    ghost function Seen(): Scanner
      reads this
    {
      Scanner(pending, Known(last, model))
    }

    /** All text so far has been scanned; the report went out if the stream is finished. */
    ghost predicate Valid()
      reads this
    {
      && Seen() == ScanText(reader, FRESH, scanned)
      && (!finished ==> scanned == Concat(passed) && reports == [])
    }

    constructor (reader: Reader)
      ensures Valid() && this.reader == reader && passed == [] && reports == [] && !finished
    {
      this.reader := reader;
      pending, last, model, finished := [], None, None, false;
      reports, passed, scanned := [], [], [];
    }

    /** Reads every line that `text` completes. */
    method Scan(text: string)
      modifies this`pending, this`last, this`model
      ensures Seen() == ScanText(reader, old(Seen()), text)
    {
      hide Split, ReadLines, LineReport, OneLine;
      ghost var known := Known(last, model);
      pending := pending + text;
      ghost var all := Split(pending);
      ghost var done: seq<string> := [];
      ReadNone(reader, known);
      var newline := IndexOfNewline(pending);
      while newline.Some?
        invariant done + Split(pending) == all
        invariant Known(last, model) == ReadLines(reader, known, done)
        invariant IsNewline(pending, newline)
        decreases |pending|
      {
        var line := pending[..newline.value];
        CutAtNewline(pending, newline.value, done, all);
        ReadOneMore(reader, known, done, line);
        var report := LineReport(reader, line);
        if report.Some? {
          last := Some(report.value.usage);
          if report.value.model.Some? {
            model := report.value.model;
          }
        }
        done := done + [line];
        pending := pending[newline.value + 1..];
        newline := IndexOfNewline(pending);
      }
      LastLineIsPending(pending, done, all);
    }

    /** The stream is over: its last line counts as ended, and what is known is reported, once. */
    method Finish()
      requires Valid()
      modifies this
      ensures Valid() && finished && passed == old(passed)
      ensures old(finished) ==> reports == old(reports)
      ensures !old(finished) ==>
        var known := ReadLines(reader, NOTHING, Split(Concat(passed)));
        reports == if known.last.Some? then [Report(known.last.value, known.model)] else []
    {
      if finished {
        return;
      }
      finished := true;
      EndReadsAll(reader, scanned);
      ScanInTwo(reader, FRESH, scanned, "\n");
      Scan("\n");
      scanned := scanned + "\n";
      if last.Some? {
        reports := reports + [Report(last.value, model)];
      }
    }

    /** The caller asks for more; whatever comes is passed on as it is. */
    method Pull(pulled: Pulled)
      requires Valid()
      modifies this
      ensures Valid() && finished == (old(finished) || !pulled.Chunk?)
      ensures passed == old(passed) + (if pulled.Chunk? then [pulled.text] else [])
      ensures old(finished) || pulled.Chunk? ==> reports == old(reports)
      ensures !old(finished) && !pulled.Chunk? ==>
        var known := ReadLines(reader, NOTHING, Split(Concat(passed)));
        reports == if known.last.Some? then [Report(known.last.value, known.model)] else []
    {
      match pulled {
        case Broken => Finish();
        case Done => Finish();
        case Chunk(text) =>
          ScanInTwo(reader, FRESH, scanned, text);
          ghost var before := passed;
          passed := passed + [text];
          assert passed[..|passed| - 1] == before;
          Scan(text);
          scanned := scanned + text;
      }
    }

    /** The caller gives up. */
    method Cancel()
      requires Valid()
      modifies this
      ensures Valid() && finished && passed == old(passed)
      ensures old(finished) ==> reports == old(reports)
      ensures !old(finished) ==>
        var known := ReadLines(reader, NOTHING, Split(Concat(passed)));
        reports == if known.last.Some? then [Report(known.last.value, known.model)] else []
    {
      Finish();
    }
  }

  lemma CutAtNewline(pending: string, i: nat, done: seq<string>, all: seq<string>)
    requires IsNewline(pending, Some(i)) && done + Split(pending) == all
    ensures done + [pending[..i]] + Split(pending[i + 1..]) == all
    ensures OneLine(pending[..i])
  {
    hide Split;
    var line, rest := pending[..i], pending[i + 1..];
    assert pending == line + "\n" + rest;
    SplitAfterLine(line, rest);
  }

  lemma LastLineIsPending(pending: string, done: seq<string>, all: seq<string>)
    requires OneLine(pending) && done + Split(pending) == all
    ensures all == done + [pending] && all[..|all| - 1] == done && all[|all| - 1] == pending
  {
    SplitOfLine(pending);
  }

  predicate IsNewline(s: string, at: Option<nat>) {
    match at
    case None => OneLine(s)
    case Some(i) => i < |s| && s[i] == '\n' && OneLine(s[..i])
  }

  method IndexOfNewline(s: string) returns (at: Option<nat>)
    ensures IsNewline(s, at)
  {
    for i := 0 to |s|
      invariant OneLine(s[..i])
    {
      if s[i] == '\n' {
        return Some(i);
      }
    }
    assert s[..|s|] == s;
    return None;
  }
}
