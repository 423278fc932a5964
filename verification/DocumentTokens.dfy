/** The lines of a document read as tokens: single lines and whole fenced blocks. */
module DocumentTokens {
  import opened Wrappers
  import opened TextLines
  import opened NearestSmaller

  datatype TextKind = Paragraph | Table | Quote

  datatype LineClass =
    | FenceLine(marker: string)
    | HeadingLine(level: nat, title: string)
    | ItemLine(indent: nat, title: string)
    | BlankLine
    | TextLine(kind: TextKind)

  /** How lines are recognised and labels cleaned. Only blank lines read as blank. */
  datatype Rules = Rules(classify: string -> LineClass, plainText: string -> string)

  ghost predicate FitRules(rules: Rules) {
    forall line :: rules.classify(line).BlankLine? <==> Blank(line)
  }

  /** A line, or a whole fenced block; `offset` is where it starts in the text. */
  datatype Token = Token(shape: LineClass, lines: seq<string>, offset: nat)

  predicate ClosesFence(marker: string, line: string) {
    StartsWith(TrimStart(line), marker)
  }

  /** Lines of the block after its opening line: up to the closing one, or all. */
  function FenceLength(marker: string, lines: seq<string>): (n: nat)
    ensures n <= |lines|
  {
    if lines == [] then 0
    else if ClosesFence(marker, lines[0]) then 1
    else 1 + FenceLength(marker, lines[1..])
  }

  /** The first closing line ends the block and belongs to it; without one the block is the rest of the text. */
  lemma {:induction false} FenceEndsAtItsClosing(marker: string, lines: seq<string>)
    ensures
      var n := FenceLength(marker, lines);
      && (forall k | 0 <= k < n - 1 :: !ClosesFence(marker, lines[k]))
      && (n < |lines| ==> n > 0 && ClosesFence(marker, lines[n - 1]))
  {
    if lines != [] && !ClosesFence(marker, lines[0]) {
      FenceEndsAtItsClosing(marker, lines[1..]);
      assert forall k | 0 < k < |lines| :: lines[k] == lines[1..][k - 1];
    }
  }

  /** Lines that belong together from the first one on: a whole fenced block, or one line. */
  function TokenLength(rules: Rules, lines: seq<string>): (n: nat)
    requires lines != []
    ensures 0 < n <= |lines|
  {
    var shape := rules.classify(lines[0]);
    if shape.FenceLine? then 1 + FenceLength(shape.marker, lines[1..]) else 1
  }

  /** All lines but the blank ones outside fenced blocks, in order. */
  function KeptLines(rules: Rules, lines: seq<string>): seq<string> {
    if lines == [] then []
    else
      var n := TokenLength(rules, lines);
      (if rules.classify(lines[0]).BlankLine? then [] else lines[..n]) + KeptLines(rules, lines[n..])
  }

  /** A fenced block ends at the same line whatever follows it; an open one is the end of the text. */
  lemma {:induction false} FenceEndsAlike(marker: string, lines: seq<string>, later: seq<string>)
    ensures
      var n := FenceLength(marker, lines);
      (n == |lines| ==> later == []) ==> FenceLength(marker, lines[..n] + later) == n
  {
    if lines != [] && !ClosesFence(marker, lines[0]) {
      FenceEndsAlike(marker, lines[1..], later);
      var n := FenceLength(marker, lines);
      assert (lines[..n] + later)[1..] == lines[1..][..n - 1] + later;
    }
  }

  lemma TokenEndsAlike(rules: Rules, lines: seq<string>, later: seq<string>)
    requires lines != []
    requires TokenLength(rules, lines) == |lines| ==> later == []
    ensures TokenLength(rules, lines[..TokenLength(rules, lines)] + later) == TokenLength(rules, lines)
  {
    var shape, n := rules.classify(lines[0]), TokenLength(rules, lines);
    if shape.FenceLine? {
      FenceEndsAlike(shape.marker, lines[1..], later);
      assert (lines[..n] + later)[1..] == lines[1..][..n - 1] + later;
    }
  }

  /** Dropping blank lines once drops all there are: what is kept reads as it did before. */
  lemma {:induction false} KeptLinesAreKept(rules: Rules, lines: seq<string>)
    ensures KeptLines(rules, KeptLines(rules, lines)) == KeptLines(rules, lines)
  {
    if lines != [] {
      var n := TokenLength(rules, lines);
      var later := KeptLines(rules, lines[n..]);
      KeptLinesAreKept(rules, lines[n..]);
      if rules.classify(lines[0]).BlankLine? {
        assert KeptLines(rules, lines) == later;
      } else {
        TokenEndsAlike(rules, lines, later);
        var again := lines[..n] + later;
        assert again[..n] == lines[..n] && again[n..] == later;
      }
    }
  }

  /** Only a fenced block takes more than one line. */
  predicate IsToken(token: Token) {
    token.lines != [] && (!token.shape.FenceLine? ==> |token.lines| == 1)
  }

  function TokenAt(rules: Rules, lines: seq<string>, i: nat): (token: Token)
    requires i < |lines|
    ensures IsToken(token) && i + |token.lines| <= |lines|
    ensures token.lines == lines[i..i + |token.lines|]
  {
    var n := TokenLength(rules, lines[i..]);
    Token(rules.classify(lines[i]), lines[i..i + n], LineStart(lines, i))
  }

  /** The lines from `i` on, as tokens. */
  function TokensFrom(rules: Rules, lines: seq<string>, i: nat): seq<Token>
    requires i <= |lines|
    decreases |lines| - i
  {
    if i == |lines| then []
    else
      var token := TokenAt(rules, lines, i);
      [token] + TokensFrom(rules, lines, i + |token.lines|)
  }

  function Tokens(rules: Rules, lines: seq<string>): seq<Token> {
    TokensFrom(rules, lines, 0)
  }

  function KeptOf(token: Token): seq<string> {
    if token.shape.BlankLine? then [] else token.lines
  }

  /** The lines of the tokens, without blank lines. */
  function Kept(tokens: seq<Token>): seq<string> {
    if tokens == [] then []
    else
      var n := |tokens| - 1;
      Kept(tokens[..n]) + KeptOf(tokens[n])
  }

  lemma {:induction false} KeptCons(token: Token, tokens: seq<Token>)
    ensures Kept([token] + tokens) == KeptOf(token) + Kept(tokens)
  {
    hide KeptOf;
    if tokens == [] {
      assert [token] + tokens == [token] && [token][..0] == [];
    } else {
      var n := |tokens| - 1;
      KeptCons(token, tokens[..n]);
      assert ([token] + tokens)[..n + 1] == [token] + tokens[..n];
    }
  }

  lemma KeptLinesStep(rules: Rules, lines: seq<string>, i: nat)
    requires i < |lines|
    ensures
      var token := TokenAt(rules, lines, i);
      KeptLines(rules, lines[i..]) == KeptOf(token) + KeptLines(rules, lines[i + |token.lines|..])
  {
    hide TokenLength, LineStart;
    var token, tail := TokenAt(rules, lines, i), lines[i..];
    var n := |token.lines|;
    assert tail[0] == lines[i] && tail[n..] == lines[i + n..] && tail[..n] == token.lines;
  }

  lemma NothingKept(rules: Rules)
    ensures Kept([]) == [] && KeptLines(rules, []) == []
  {
  }

  lemma TokensFromStep(rules: Rules, lines: seq<string>, i: nat)
    requires i < |lines|
    ensures
      var token := TokenAt(rules, lines, i);
      i + |token.lines| <= |lines| && TokensFrom(rules, lines, i) == [token] + TokensFrom(rules, lines, i + |token.lines|)
  {
    hide TokenAt;
  }

  lemma NoMoreTokens(rules: Rules, lines: seq<string>)
    ensures TokensFrom(rules, lines, |lines|) == []
  {
  }

  /** The tokens keep exactly the lines to be kept. */
  lemma {:induction false} TokensKeep(rules: Rules, lines: seq<string>, i: nat)
    requires i <= |lines|
    ensures Kept(TokensFrom(rules, lines, i)) == KeptLines(rules, lines[i..])
    decreases |lines| - i
  {
    hide Kept, KeptOf, KeptLines, TokenAt, TokensFrom;
    if i < |lines| {
      var token := TokenAt(rules, lines, i);
      TokensFromStep(rules, lines, i);
      TokensKeep(rules, lines, i + |token.lines|);
      KeptCons(token, TokensFrom(rules, lines, i + |token.lines|));
      KeptLinesStep(rules, lines, i);
    } else {
      NoMoreTokens(rules, lines);
      NothingKept(rules);
      assert lines[i..] == [];
    }
  }

  function HeadingKeys(tokens: seq<Token>): (keys: Keys)
    ensures |keys| == |tokens|
  {
    seq(|tokens|, (i: nat) requires i < |tokens| =>
      if tokens[i].shape.HeadingLine? then Some(tokens[i].shape.level) else None)
  }

  /** A heading, or a line of text that starts in the first column, ends every open list. */
  predicate EndsLists(token: Token) {
    || token.shape.HeadingLine?
    || (token.shape.TextLine? && |token.lines| > 0 && token.lines[0] != [] && !IsSpace(token.lines[0][0]))
  }

  function NoKeys(n: nat): (keys: Keys)
    ensures |keys| == n
  {
    seq(n, _ => None)
  }

  /** Indents of the items of the open lists. */
  function ItemKeys(tokens: seq<Token>): (keys: Keys)
    ensures |keys| == |tokens|
  {
    if tokens == [] then []
    else
      var n := |tokens| - 1;
      if EndsLists(tokens[n]) then NoKeys(n + 1)
      else ItemKeys(tokens[..n]) + [if tokens[n].shape.ItemLine? then Some(tokens[n].shape.indent) else None]
  }
}
