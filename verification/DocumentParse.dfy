/** The whole parse on values: every document it makes is placed, complete and in order. */
module DocumentParse {
  import opened Wrappers
  import opened TextLines
  import opened DocumentTokens
  import opened DocumentPages
  import opened DocumentEntries
  import opened DocumentDraft
  import opened DocumentPlacement
  import opened DocumentSteps

  function Parse(rules: Rules, starts: seq<nat>, tokens: seq<Token>): Draft {
    if tokens == [] then EMPTY
    else
      var token := tokens[|tokens| - 1];
      Step(rules, Parse(rules, starts, tokens[..|tokens| - 1]), token, PageAt(starts, token.offset))
  }

  /** Where a run of text is hung is fixed by the token after it: one token later exactly if that is text of another kind. */
  predicate RunEnds(seen: seq<Token>, e: Entry) {
    e.kind.Text? ==>
      var end := e.token + |e.lines|;
      && end <= |seen|
      && (end < |seen| ==> seen[end].shape != TextLine(e.kind.textKind))
      && e.placed == if end < |seen| && seen[end].shape.TextLine? then end + 1 else end
  }

  /** No run reaches the end of what has been read, except the open one. */
  ghost predicate ClosedRunsEnd(seen: seq<Token>, entries: Entries) {
    forall i | 0 <= i < |entries| ::
      RunEnds(seen, entries[i]) && (entries[i].kind.Text? ==> entries[i].token + |entries[i].lines| < |seen|)
  }

  lemma ClosedRunsStay(seen: seq<Token>, entries: Entries, token: Token)
    requires ClosedRunsEnd(seen, entries)
    ensures ClosedRunsEnd(seen + [token], entries)
  {
  }

  lemma ClosedRunsGrow(seen: seq<Token>, entries: Entries, e: Entry)
    requires ClosedRunsEnd(seen, entries)
    requires RunEnds(seen, e) && (e.kind.Text? ==> e.token + |e.lines| < |seen|)
    ensures ClosedRunsEnd(seen, entries + [e])
  {
  }

  lemma FlushedRunEnds(rules: Rules, starts: seq<nat>, d: Draft, token: Token, placed: nat)
    requires d.run.Some? && RunReaches(starts, d, |d.seen|)
    requires token.shape != TextLine(d.run.value.kind)
    requires placed == if token.shape.TextLine? then |d.seen| + 1 else |d.seen|
    ensures
      var e := RunEntry(rules, d.run.value, Container(d), placed);
      RunEnds(d.seen + [token], e) && e.token + |e.lines| < |d.seen + [token]|
  {
  }

  lemma ClosedRunsStep(rules: Rules, starts: seq<nat>, d: Draft, token: Token, page: nat)
    requires ClosedRunsEnd(d.seen, d.entries) && RunReaches(starts, d, |d.seen|)
    ensures ClosedRunsEnd(d.seen + [token], Step(rules, d, token, page).entries)
  {
    var seen := d.seen + [token];
    ClosedRunsStay(d.seen, d.entries, token);
    var flushed := Flush(rules, d).entries;
    if !token.shape.TextLine? && d.run.Some? {
      FlushedRunEnds(rules, starts, d, token, |d.seen|);
      ClosedRunsGrow(seen, d.entries, RunEntry(rules, d.run.value, Container(d), |d.seen|));
    }
    hide ClosedRunsEnd, RunReaches, Pop;
    match token.shape
    case FenceLine(_) =>
      ClosedRunsGrow(seen, flushed, FenceEntry(token, page, Container(Flush(rules, d)), |d.seen|));
    case HeadingLine(level, _) =>
      ClosedRunsGrow(seen, flushed, HeadingEntry(rules, token, page, Top(Pop(d.headings, level), 0), |d.seen|));
    case ItemLine(indent, _) =>
      var above := Pop(d.items, indent);
      ClosedRunsGrow(seen, flushed, ItemEntry(rules, token, page, |above| + 1, Top(above, Top(d.headings, 0)), |d.seen|));
    case BlankLine =>
    case TextLine(kind) =>
      if d.run.Some? && d.run.value.kind != kind {
        ClosedRunsText(rules, starts, d, token);
      }
  }

  lemma ClosedRunsText(rules: Rules, starts: seq<nat>, d: Draft, token: Token)
    requires ClosedRunsEnd(d.seen + [token], d.entries) && RunReaches(starts, d, |d.seen|)
    requires d.run.Some? && token.shape.TextLine? && token.shape.kind != d.run.value.kind
    ensures ClosedRunsEnd(d.seen + [token], Flush(rules, ReadText(d, token)).entries)
  {
    var read := ReadText(d, token);
    var e := RunEntry(rules, d.run.value, Container(read), |d.seen| + 1);
    FlushedRunEnds(rules, starts, d, token, |d.seen| + 1);
    ClosedRunsGrow(d.seen + [token], d.entries, e);
  }

  ghost predicate Good(rules: Rules, starts: seq<nat>, d: Draft) {
    && Shaped(d) && Stacked(d) && AllFit(rules, starts, d.seen, d.entries)
    && RunReaches(starts, d, |d.seen|) && Complete(d) && StructureKnown(d) && ClosedRunsEnd(d.seen, d.entries)
  }

  lemma EmptyIsGood(rules: Rules, starts: seq<nat>)
    ensures Good(rules, starts, EMPTY)
  {
    hide Shaped, Stacked;
    EmptyIsShaped();
    EmptyIsStacked();
    assert EntryLines([ROOT][..0]) == [];
  }

  lemma EmptyIsShaped()
    ensures Shaped(EMPTY)
  {
    assert Kids([ROOT], 0) == [];
    assert Preorder([ROOT], 0) == [0] == seq(1, (i: nat) => i);
  }

  lemma EmptyIsStacked()
    ensures Stacked(EMPTY)
  {
    hide StackFits;
    EmptyStackFits([ROOT], 0, Heading);
    EmptyStackFits([ROOT], 0, Item);
    assert HeadingKeys([]) == NoKeys(0) && ItemKeys([]) == NoKeys(0);
  }

  lemma SeenGrows(rules: Rules, d: Draft, token: Token, page: nat)
    ensures Step(rules, d, token, page).seen == d.seen + [token]
  {
  }

  lemma ShapedStep(rules: Rules, d: Draft, token: Token, page: nat)
    requires Shaped(d)
    ensures Shaped(Step(rules, d, token, page))
  {
    ShapedFlush(rules, d);
    ShapedText(d, token);
    ShapedFlush(rules, ReadText(d, token));
    var f := Flush(rules, d);
    hide InOrder, LastChildren, Spine, Flush, Pop;
    match token.shape
    case FenceLine(_) => ShapedLeaf(f, FenceEntry(token, page, Container(f), |f.seen|));
    case HeadingLine(_, _) => ShapedHeading(rules, f, token, page);
    case ItemLine(_, _) => ShapedItem(rules, f, token, page);
    case BlankLine =>
    case TextLine(_) =>
  }

  lemma StackedStep(rules: Rules, d: Draft, token: Token, page: nat)
    requires Stacked(d)
    ensures Stacked(Step(rules, d, token, page))
  {
    hide Stacked, Flush, Pop, AddText, FenceEntry, Container;
    StackedFlush(rules, d);
    var f := Flush(rules, d);
    match token.shape
    case FenceLine(_) =>
      var e := FenceEntry(token, page, Container(f), |f.seen|);
      StackedLeaf(f, e);
      StackedRead(f.(entries := f.entries + [e]), token);
    case HeadingLine(_, _) => StackedHeading(rules, f, token, page);
    case ItemLine(_, _) => StackedItem(rules, f, token, page);
    case BlankLine => StackedRead(f, token);
    case TextLine(_) => StackedText(rules, d, token, page);
  }

  lemma StackedText(rules: Rules, d: Draft, token: Token, page: nat)
    requires Stacked(d) && token.shape.TextLine?
    ensures Stacked(AddText(rules, d, token, page))
  {
    StackedRead(d, token);
    StackedFlush(rules, ReadText(d, token));
    var kind, read := token.shape.kind, ReadText(d, token);
    var c := if d.run.Some? && d.run.value.kind != kind then Flush(rules, read) else read;
    hide StackFits, LevelsFit, Flush;
    assert Stacked(c);
    assert Stacked(JoinRun(c, kind, token, page));
  }

  lemma AllFitStep(rules: Rules, starts: seq<nat>, d: Draft, token: Token, page: nat)
    requires Stacked(d) && AllFit(rules, starts, d.seen, d.entries) && RunReaches(starts, d, |d.seen|)
    requires page == PageAt(starts, token.offset)
    ensures AllFit(rules, starts, d.seen + [token], Step(rules, d, token, page).entries)
  {
    StackedFlush(rules, d);
    AllFitFlush(rules, starts, d, |d.seen|);
    var f := Flush(rules, d);
    assert f.seen == d.seen;
    hide Stacked, AllFit, Flush, Pop, PageAt;
    match token.shape
    case FenceLine(_) => AllFitFence(rules, starts, f, token, page);
    case HeadingLine(_, _) => AllFitHeading(rules, starts, f, token, page);
    case ItemLine(_, _) => AllFitItem(rules, starts, f, token, page);
    case BlankLine => AllFitRead(rules, starts, f, token);
    case TextLine(_) => AllFitText(rules, starts, d, token, page);
  }

  lemma AllFitText(rules: Rules, starts: seq<nat>, d: Draft, token: Token, page: nat)
    requires Stacked(d) && AllFit(rules, starts, d.seen, d.entries) && RunReaches(starts, d, |d.seen|)
    requires token.shape.TextLine?
    ensures AllFit(rules, starts, d.seen + [token], AddText(rules, d, token, page).entries)
  {
    var read := ReadText(d, token);
    StackedRead(d, token);
    AllFitRead(rules, starts, d, token);
    RunStays(starts, d, token);
    hide Stacked, AllFit, RunReaches, EndsLists;
    AllFitFlush(rules, starts, read, |d.seen|);
  }

  lemma RunStays(starts: seq<nat>, d: Draft, token: Token)
    requires RunReaches(starts, d, |d.seen|)
    ensures RunReaches(starts, ReadText(d, token), |d.seen|)
  {
    if d.run.Some? {
      var run, seen := d.run.value, d.seen + [token];
      forall k | 0 <= k < |run.lines|
        ensures IsTextAt(seen, run.kind, run.token + k, run.lines[k])
      {
        assert IsTextAt(d.seen, run.kind, run.token + k, run.lines[k]);
      }
    }
  }

  lemma RunStep(rules: Rules, starts: seq<nat>, d: Draft, token: Token, page: nat)
    requires RunReaches(starts, d, |d.seen|) && IsToken(token) && page == PageAt(starts, token.offset)
    ensures
      var next := Step(rules, d, token, page);
      |next.seen| == |d.seen| + 1 && RunReaches(starts, next, |next.seen|)
  {
    SeenGrows(rules, d, token, page);
    if token.shape.TextLine? {
      RunText(rules, starts, d, token, page);
    } else {
      assert Step(rules, d, token, page).run == None;
    }
  }

  lemma StepKeeps(rules: Rules, starts: seq<nat>, d: Draft, token: Token)
    requires Good(rules, starts, d) && IsToken(token)
    ensures Good(rules, starts, Step(rules, d, token, PageAt(starts, token.offset)))
  {
    var page := PageAt(starts, token.offset);
    hide Shaped, Stacked, AllFit, RunReaches, Complete, StructureKnown, ClosedRunsEnd, Step, PageAt;
    SeenGrows(rules, d, token, page);
    ShapedStep(rules, d, token, page);
    StackedStep(rules, d, token, page);
    AllFitStep(rules, starts, d, token, page);
    RunStep(rules, starts, d, token, page);
    CompleteStep(rules, d, token, page);
    StructureStep(rules, d, token, page);
    ClosedRunsStep(rules, starts, d, token, page);
  }

  ghost predicate AreTokens(tokens: seq<Token>) {
    forall k | 0 <= k < |tokens| :: IsToken(tokens[k])
  }

  lemma {:induction false} ParseIsGood(rules: Rules, starts: seq<nat>, tokens: seq<Token>)
    requires AreTokens(tokens)
    ensures Good(rules, starts, Parse(rules, starts, tokens)) && Parse(rules, starts, tokens).seen == tokens
  {
    hide Good, Step, PageAt, IsToken;
    if tokens == [] {
      EmptyIsGood(rules, starts);
    } else {
      var before, token := tokens[..|tokens| - 1], tokens[|tokens| - 1];
      ParseIsGood(rules, starts, before);
      StepKeeps(rules, starts, Parse(rules, starts, before), token);
      SeenGrows(rules, Parse(rules, starts, before), token, PageAt(starts, token.offset));
    }
  }

  lemma {:induction false} TokensAreTokens(rules: Rules, lines: seq<string>, i: nat)
    requires i <= |lines|
    ensures AreTokens(TokensFrom(rules, lines, i))
    decreases |lines| - i
  {
    hide TokenLength, LineStart;
    if i < |lines| {
      TokensAreTokens(rules, lines, i + |TokenAt(rules, lines, i).lines|);
    }
  }

  // ------------------------------------------------------------------------
  // The finished document
  // ------------------------------------------------------------------------

  function Document(rules: Rules, starts: seq<nat>, text: string): Draft {
    Flush(rules, Parse(rules, starts, Tokens(rules, Split(text))))
  }

  lemma LastRunEnds(rules: Rules, starts: seq<nat>, d: Draft)
    requires ClosedRunsEnd(d.seen, d.entries) && RunReaches(starts, d, |d.seen|)
    ensures forall i | 0 <= i < |Flush(rules, d).entries| :: RunEnds(d.seen, Flush(rules, d).entries[i])
  {
  }

  /** Every node is where it belongs, none is missing, and the preorder is the source order. */
  lemma EveryNodeFits(rules: Rules, starts: seq<nat>, text: string)
    ensures
      var d, tokens := Document(rules, starts, text), Tokens(rules, Split(text));
      && InOrder(d.entries) && d.entries[0] == ROOT
      && AllFit(rules, starts, tokens, d.entries)
      && EntryLines(d.entries) == KeptLines(rules, Split(text))
      && StructureKnown(d)
      && (forall i | 0 <= i < |d.entries| :: RunEnds(tokens, d.entries[i]))
  {
    var lines := Split(text);
    var tokens := Tokens(rules, lines);
    TokensAreTokens(rules, lines, 0);
    TokensKeep(rules, lines, 0);
    assert lines[0..] == lines;
    hide AreTokens, TokensFrom, KeptLines, Flush, Parse, InOrder, LastChildren, Spine, AllFit, RunReaches, StructureKnown, Stacked;
    ParseIsGood(rules, starts, tokens);
    var d := Parse(rules, starts, tokens);
    LastRunEnds(rules, starts, d);
    ShapedFlush(rules, d);
    AllFitFlush(rules, starts, d, |d.seen|);
    CompleteFlush(rules, d);
    StructureFlush(rules, d);
  }

  /** A node that starts in the text of page `i` of the joined pages says it is on page `i + 1`. */
  lemma NodeIsOnItsPage(rules: Rules, parts: seq<string>, i: nat, k: nat)
    requires i < |parts|
    requires 0 < k < |Document(rules, PageStarts(parts), JoinWith(PAGE_BREAK, parts)).entries|
    ensures
      var text := JoinWith(PAGE_BREAK, parts);
      var tokens, e := Tokens(rules, Split(text)), Document(rules, PageStarts(parts), text).entries[k];
      && e.token < |tokens|
      && (PageStart(parts, i) <= tokens[e.token].offset < PageStart(parts, i) + |parts[i]| + 2 ==> e.page == i + 1)
  {
    var text, starts := JoinWith(PAGE_BREAK, parts), PageStarts(parts);
    var tokens := Tokens(rules, Split(text));
    hide Document, Tokens, KeptLines, InOrder, StructureKnown, PageAt, HeadingFits, ItemFits, CodeFits, TextFits, PageStart, PageStarts;
    EveryNodeFits(rules, starts, text);
    var e := Document(rules, starts, text).entries[k];
    assert Fits(rules, starts, tokens, Document(rules, starts, text).entries, e);
    var at := tokens[e.token].offset;
    if PageStart(parts, i) <= at < PageStart(parts, i) + |parts[i]| + 2 {
      PageOfItsOwnText(parts, i, at);
    }
  }
}
