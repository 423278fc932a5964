/** Splitting a text into lines and joining it back, with the offsets at which lines start. */
module TextLines {

  /** The characters that trimming removes and the whitespace class matches. */
  predicate IsSpace(c: char) {
    var n := c as int;
    || 9 <= n <= 13 || n == 0x20 || n == 0xA0 || n == 0x1680 || 0x2000 <= n <= 0x200A
    || n == 0x2028 || n == 0x2029 || n == 0x202F || n == 0x205F || n == 0x3000 || n == 0xFEFF
  }

  predicate Blank(s: string) {
    forall i | 0 <= i < |s| :: IsSpace(s[i])
  }

  function TrimStart(s: string): string {
    if s != [] && IsSpace(s[0]) then TrimStart(s[1..]) else s
  }

  function TrimEnd(s: string): string {
    if s != [] && IsSpace(s[|s| - 1]) then TrimEnd(s[..|s| - 1]) else s
  }

  function Trim(s: string): string {
    TrimEnd(TrimStart(s))
  }

  predicate StartsWith(s: string, prefix: string) {
    |prefix| <= |s| && s[..|prefix|] == prefix
  }

  predicate OneLine(s: string) {
    '\n' !in s
  }

  /** The lines of a text; there is always at least one. */
  function Split(text: string): (lines: seq<string>)
    ensures |lines| > 0
    ensures forall i | 0 <= i < |lines| :: OneLine(lines[i])
  {
    if text == [] then [[]]
    else
      var rest := Split(text[1..]);
      if text[0] == '\n' then [[]] + rest else [[text[0]] + rest[0]] + rest[1..]
  }

  function JoinWith(separator: string, parts: seq<string>): string {
    if parts == [] then []
    else if |parts| == 1 then parts[0]
    else parts[0] + separator + JoinWith(separator, parts[1..])
  }

  function Join(lines: seq<string>): string {
    JoinWith("\n", lines)
  }

  lemma {:induction false} JoinOfSplit(text: string)
    ensures Join(Split(text)) == text
  {
    if text != [] {
      JoinOfSplit(text[1..]);
      var rest := Split(text[1..]);
      var lines := Split(text);
      if text[0] == '\n' {
        assert lines[1..] == rest;
      } else {
        assert lines[1..] == rest[1..];
        assert Join(lines) == [text[0]] + Join(rest);
      }
      assert text == [text[0]] + text[1..];
    }
  }

  lemma {:induction false} SplitOfLine(line: string)
    requires OneLine(line)
    ensures Split(line) == [line]
  {
    if line != [] {
      assert forall c | c in line[1..] :: c in line;
      SplitOfLine(line[1..]);
      assert line == [line[0]] + line[1..];
    }
  }

  lemma {:induction false} SplitAfterLine(line: string, rest: string)
    requires OneLine(line)
    ensures Split(line + "\n" + rest) == [line] + Split(rest)
  {
    var text := line + "\n" + rest;
    if line == [] {
      assert text[1..] == rest;
    } else {
      assert forall c | c in line[1..] :: c in line;
      SplitAfterLine(line[1..], rest);
      assert text[1..] == line[1..] + "\n" + rest;
      assert line == [line[0]] + line[1..];
    }
  }

  /** A list of lines survives the round trip through a text. */
  lemma {:induction false} SplitOfJoin(lines: seq<string>)
    requires lines != [] && forall i | 0 <= i < |lines| :: OneLine(lines[i])
    ensures Split(Join(lines)) == lines
  {
    if |lines| == 1 {
      SplitOfLine(lines[0]);
    } else {
      SplitOfJoin(lines[1..]);
      SplitAfterLine(lines[0], Join(lines[1..]));
    }
  }

  lemma {:induction false} JoinConcat(a: seq<string>, b: seq<string>)
    requires a != [] && b != []
    ensures Join(a + b) == Join(a) + "\n" + Join(b)
  {
    if |a| == 1 {
      assert (a + b)[1..] == b;
    } else {
      assert (a + b)[1..] == a[1..] + b;
      JoinConcat(a[1..], b);
    }
  }

  function Flatten(groups: seq<seq<string>>): seq<string> {
    if groups == [] then [] else groups[0] + Flatten(groups[1..])
  }

  /** Joining groups of lines one by one and then the results is joining all the lines. */
  lemma {:induction false} JoinOfGroups(groups: seq<seq<string>>)
    requires forall i | 0 <= i < |groups| :: groups[i] != []
    ensures Join(seq(|groups|, (i: nat) requires i < |groups| => Join(groups[i]))) == Join(Flatten(groups))
    ensures groups != [] ==> Flatten(groups) != []
  {
    var joined := seq(|groups|, (i: nat) requires i < |groups| => Join(groups[i]));
    if |groups| == 1 {
      assert Flatten(groups) == groups[0];
      assert joined == [Join(groups[0])];
    } else if groups != [] {
      JoinOfGroups(groups[1..]);
      var rest := seq(|groups[1..]|, (i: nat) requires i < |groups[1..]| => Join(groups[1..][i]));
      assert joined[1..] == rest;
      JoinConcat(groups[0], Flatten(groups[1..]));
    }
  }

  lemma {:induction false} FlattenAppend(groups: seq<seq<string>>, g: seq<string>)
    ensures Flatten(groups + [g]) == Flatten(groups) + g
  {
    if groups == [] {
      assert groups + [g] == [g];
    } else {
      FlattenAppend(groups[1..], g);
      assert (groups + [g])[1..] == groups[1..] + [g];
    }
  }

  /** Where line `i` starts when every line before it costs its length and one separator. */
  function LineStart(lines: seq<string>, i: nat): nat
    requires i <= |lines|
  {
    if i == 0 then 0 else LineStart(lines, i - 1) + |lines[i - 1]| + 1
  }

  lemma {:induction false} LineStartShift(lines: seq<string>, i: nat)
    requires 1 <= i <= |lines|
    ensures LineStart(lines, i) == |lines[0]| + 1 + LineStart(lines[1..], i - 1)
  {
    if i > 1 {
      LineStartShift(lines, i - 1);
    }
  }

  lemma SliceOfTail(head: string, tail: string, start: nat, n: nat)
    requires start + n <= |tail|
    ensures (head + tail)[|head| + start..|head| + start + n] == tail[start..start + n]
  {
    var a, b := (head + tail)[|head| + start..|head| + start + n], tail[start..start + n];
    assert |a| == |b| && forall k | 0 <= k < n :: a[k] == b[k];
  }

  /** In the joined text each line stands at its start. */
  lemma {:induction false} LineStandsAtStart(lines: seq<string>, i: nat)
    requires i < |lines|
    ensures LineStart(lines, i) + |lines[i]| <= |Join(lines)|
    ensures Join(lines)[LineStart(lines, i)..LineStart(lines, i) + |lines[i]|] == lines[i]
  {
    if |lines| > 1 {
      var head, tail := lines[0] + "\n", Join(lines[1..]);
      assert Join(lines) == head + tail;
      if i == 0 {
        assert Join(lines)[..|lines[0]|] == lines[0];
      } else {
        LineStartShift(lines, i);
        LineStandsAtStart(lines[1..], i - 1);
        var start := LineStart(lines[1..], i - 1);
        SliceOfTail(head, tail, start, |lines[i]|);
      }
    }
  }

  lemma {:induction false} TrimStartIsSuffix(s: string)
    ensures |TrimStart(s)| <= |s| && TrimStart(s) == s[|s| - |TrimStart(s)|..]
    ensures TrimStart(s) == [] <==> Blank(s)
  {
    if s != [] && IsSpace(s[0]) {
      hide IsSpace;
      var rest := s[1..];
      TrimStartIsSuffix(rest);
      assert s == [s[0]] + rest;
    }
  }
}
