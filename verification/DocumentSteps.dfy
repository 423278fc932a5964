/** What every step of the parse keeps, and so what holds of every document. */
module DocumentSteps {
  import opened Wrappers
  import opened TextLines
  import opened NearestSmaller
  import opened DocumentTokens
  import opened DocumentPages
  import opened DocumentEntries
  import opened DocumentDraft
  import opened DocumentPlacement

  // ------------------------------------------------------------------------
  // Shape: nodes are only ever added on the rightmost spine
  // ------------------------------------------------------------------------

  /** Root, open headings, open items: a path of last children. */
  function Spine(headings: seq<Open<nat>>, items: seq<Open<nat>>): (spine: seq<nat>)
    ensures |spine| == 1 + |headings| + |items|
  {
    [0] + Nodes(headings) + Nodes(items)
  }

  ghost predicate Shaped(d: Draft) {
    && d.entries != [] && d.entries[0] == ROOT
    && InOrder(d.entries) && LastChildren(d.entries, Spine(d.headings, d.items))
  }

  lemma SpineEnd(headings: seq<Open<nat>>, items: seq<Open<nat>>)
    ensures Spine(headings, items)[|headings|] == Top(headings, 0)
    ensures Spine(headings, items)[|headings| + |items|] == Top(items, Top(headings, 0))
  {
  }

  lemma SpineCut(headings: seq<Open<nat>>, items: seq<Open<nat>>, m: nat)
    ensures m <= |headings| ==> Spine(headings, items)[..m + 1] == Spine(headings[..m], [])
    ensures m <= |items| ==> Spine(headings, items)[..|headings| + m + 1] == Spine(headings, items[..m])
  {
  }

  lemma SpinePush(headings: seq<Open<nat>>, items: seq<Open<nat>>, o: Open<nat>)
    ensures Spine(headings, []) + [o.node] == Spine(headings + [o], [])
    ensures Spine(headings, items) + [o.node] == Spine(headings, items + [o])
  {
  }

  lemma ShapedFlush(rules: Rules, d: Draft)
    requires Shaped(d)
    ensures Shaped(Flush(rules, d))
  {
    if d.run.Some? {
      ShapedLeaf(d, RunEntry(rules, d.run.value, Container(d), |d.seen|));
    }
  }

  lemma ShapedLeaf(d: Draft, e: Entry)
    requires Shaped(d) && e.parent == Container(d)
    ensures Shaped(d.(entries := d.entries + [e]))
  {
    hide InOrder, LastChildren;
    var spine := Spine(d.headings, d.items);
    SpineEnd(d.headings, d.items);
    GrowInOrder(d.entries, e, spine, |spine| - 1);
    assert spine[..|spine|] == spine;
  }

  lemma ShapedHeading(rules: Rules, d: Draft, token: Token, page: nat)
    requires Shaped(d) && token.shape.HeadingLine?
    ensures Shaped(AddHeading(rules, d, token, page))
  {
    hide InOrder, LastChildren, Pop, Spine;
    var above := Pop(d.headings, token.shape.level);
    var spine := Spine(d.headings, d.items);
    assert above == d.headings[..|above|];
    SpineCut(d.headings, d.items, |above|);
    SpineEnd(above, []);
    GrowInOrder(d.entries, HeadingEntry(rules, token, page, Top(above, 0), |d.seen|), spine, |above|);
    SpinePush(above, [], Open(token.shape.level, |d.entries|));
  }

  lemma ShapedItem(rules: Rules, d: Draft, token: Token, page: nat)
    requires Shaped(d) && token.shape.ItemLine?
    ensures Shaped(AddItem(rules, d, token, page))
  {
    hide InOrder, LastChildren, Pop, Spine;
    var above := Pop(d.items, token.shape.indent);
    var spine := Spine(d.headings, d.items);
    assert above == d.items[..|above|];
    SpineCut(d.headings, d.items, |above|);
    SpineEnd(d.headings, above);
    GrowInOrder(d.entries,
      ItemEntry(rules, token, page, |above| + 1, Top(above, Top(d.headings, 0)), |d.seen|),
      spine, |d.headings| + |above|);
    SpinePush(d.headings, above, Open(token.shape.indent, |d.entries|));
  }

  lemma ShapedText(d: Draft, token: Token)
    requires Shaped(d)
    ensures Shaped(ReadText(d, token))
  {
    SpineCut(d.headings, d.items, 0);
    assert d.items[..0] == [];
  }

  // ------------------------------------------------------------------------
  // Stacks
  // ------------------------------------------------------------------------

  lemma HeadingKeysOfNext(seen: seq<Token>, token: Token)
    ensures HeadingKeys(seen + [token])
         == HeadingKeys(seen) + [if token.shape.HeadingLine? then Some(token.shape.level) else None]
  {
  }

  lemma ItemKeysOfNext(seen: seq<Token>, token: Token)
    ensures EndsLists(token) ==> ItemKeys(seen + [token]) == NoKeys(|seen| + 1)
    ensures !EndsLists(token) ==>
      ItemKeys(seen + [token]) == ItemKeys(seen) + [if token.shape.ItemLine? then Some(token.shape.indent) else None]
  {
    hide EndsLists, NoKeys;
    assert (seen + [token])[..|seen|] == seen;
  }

  lemma KeysOfNext(seen: seq<Token>, token: Token)
    ensures HeadingKeys(seen + [token])
         == HeadingKeys(seen) + [if token.shape.HeadingLine? then Some(token.shape.level) else None]
    ensures EndsLists(token) ==> ItemKeys(seen + [token]) == NoKeys(|seen| + 1)
    ensures !EndsLists(token) ==>
      ItemKeys(seen + [token]) == ItemKeys(seen) + [if token.shape.ItemLine? then Some(token.shape.indent) else None]
  {
    hide HeadingKeys, ItemKeys, EndsLists, NoKeys;
    HeadingKeysOfNext(seen, token);
    ItemKeysOfNext(seen, token);
  }

  lemma StackedFlush(rules: Rules, d: Draft)
    requires Stacked(d)
    ensures Stacked(Flush(rules, d))
  {
    hide StackFits, LevelsFit, RunEntry;
    if d.run.Some? {
      StackedLeaf(d, RunEntry(rules, d.run.value, Container(d), |d.seen|));
    }
  }

  lemma StackedLeaf(d: Draft, e: Entry)
    requires Stacked(d)
    ensures Stacked(d.(entries := d.entries + [e]))
  {
    hide StackFits;
    StackStays(d.headings, d.entries, HeadingKeys(d.seen), Heading, d.entries + [e]);
    StackStays(d.items, d.entries, ItemKeys(d.seen), Item, d.entries + [e]);
  }

  /** A line that is neither heading nor item changes the stacks only if it ends the list. */
  lemma StackedRead(d: Draft, token: Token)
    requires Stacked(d) && !token.shape.HeadingLine? && !token.shape.ItemLine?
    ensures Stacked(ReadText(d, token))
    ensures !token.shape.TextLine? ==> Stacked(Read(d, token))
  {
    hide StackFits;
    KeysOfNext(d.seen, token);
    StackSkips(d.headings, d.entries, HeadingKeys(d.seen), Heading);
    StackSkips(d.items, d.entries, ItemKeys(d.seen), Item);
    EmptyStackFits(d.entries, |d.seen| + 1, Item);
  }

  lemma StackedHeading(rules: Rules, d: Draft, token: Token, page: nat)
    requires Stacked(d) && token.shape.HeadingLine?
    ensures Stacked(AddHeading(rules, d, token, page))
  {
    hide StackFits, Pop;
    KeysOfNext(d.seen, token);
    var above := Pop(d.headings, token.shape.level);
    var e := HeadingEntry(rules, token, page, Top(above, 0), |d.seen|);
    StackPushes(d.headings, d.entries, HeadingKeys(d.seen), Heading, token.shape.level, e);
    EmptyStackFits(d.entries + [e], |d.seen| + 1, Item);
  }

  lemma StackedItem(rules: Rules, d: Draft, token: Token, page: nat)
    requires Stacked(d) && token.shape.ItemLine?
    ensures Stacked(AddItem(rules, d, token, page))
  {
    hide StackFits, Pop;
    KeysOfNext(d.seen, token);
    var above := Pop(d.items, token.shape.indent);
    var e := ItemEntry(rules, token, page, |above| + 1, Top(above, Top(d.headings, 0)), |d.seen|);
    StackPushes(d.items, d.entries, ItemKeys(d.seen), Item, token.shape.indent, e);
    StackSkips(d.headings, d.entries, HeadingKeys(d.seen), Heading);
    StackStays(d.headings, d.entries, HeadingKeys(d.seen) + [None], Heading, d.entries + [e]);
    LevelsPush(d.items, d.entries, |above|, token.shape.indent, e);
    assert above == d.items[..|above|];
  }

  lemma LevelsPush(items: seq<Open<nat>>, entries: Entries, m: nat, k: nat, e: Entry)
    requires LevelsFit(items, entries) && m <= |items| && entries != [] && e.level == m + 1
    ensures LevelsFit(items[..m] + [Open(k, |entries|)], entries + [e])
  {
  }

  // ------------------------------------------------------------------------
  // Placement of every node
  // ------------------------------------------------------------------------

  ghost predicate AllFit(rules: Rules, starts: seq<nat>, seen: seq<Token>, entries: Entries) {
    forall i | 0 < i < |entries| :: Fits(rules, starts, seen, entries, entries[i])
  }

  lemma AllFitGrows(rules: Rules, starts: seq<nat>, seen: seq<Token>, entries: Entries, seen': seq<Token>, e: Entry)
    requires AllFit(rules, starts, seen, entries) && seen <= seen' && entries != []
    requires Fits(rules, starts, seen', entries, e)
    ensures AllFit(rules, starts, seen', entries + [e])
  {
    hide Fits;
    var more := entries + [e];
    forall i | 0 < i < |more|
      ensures Fits(rules, starts, seen', more, more[i])
    {
      if i < |entries| {
        FitsStays(rules, starts, seen, entries, entries[i], seen', more);
      } else {
        FitsStays(rules, starts, seen', entries, e, seen', more);
      }
    }
  }

  lemma AllFitRead(rules: Rules, starts: seq<nat>, d: Draft, token: Token)
    requires AllFit(rules, starts, d.seen, d.entries)
    ensures AllFit(rules, starts, d.seen + [token], d.entries)
  {
    hide Fits;
    forall i | 0 < i < |d.entries|
      ensures Fits(rules, starts, d.seen + [token], d.entries, d.entries[i])
    {
      FitsStays(rules, starts, d.seen, d.entries, d.entries[i], d.seen + [token], d.entries);
    }
  }

  /** The open run ends with token `n - 1`; without one, that token is not a line of text. */
  ghost predicate RunReaches(starts: seq<nat>, d: Draft, n: nat)
    requires n <= |d.seen|
  {
    match d.run
    case None => n > 0 ==> !d.seen[n - 1].shape.TextLine?
    case Some(run) =>
      && IsRun(d.seen, run.kind, run.token, run.lines)
      && run.token + |run.lines| == n
      && run.page == PageAt(starts, d.seen[run.token].offset)
  }

  lemma RunEntryFits(rules: Rules, starts: seq<nat>, d: Draft, n: nat)
    requires n <= |d.seen| <= n + 1
    requires Stacked(d) && RunReaches(starts, d, n) && d.run.Some?
    ensures Fits(rules, starts, d.seen, d.entries, RunEntry(rules, d.run.value, Container(d), |d.seen|))
  {
    ContainerFits(d);
    hide IsContainer, PageAt, IsTextAt, Stacked, Container, HeadingFits, ItemFits, CodeFits, Join, Trim;
    assert d.seen[..|d.seen|] == d.seen;
  }

  lemma AllFitFlush(rules: Rules, starts: seq<nat>, d: Draft, n: nat)
    requires n <= |d.seen| <= n + 1
    requires Stacked(d) && AllFit(rules, starts, d.seen, d.entries) && RunReaches(starts, d, n)
    ensures AllFit(rules, starts, d.seen, Flush(rules, d).entries)
  {
    if d.run.Some? {
      StackedHasRoot(d);
      hide AllFit, Stacked, Fits, RunReaches, RunEntry;
      RunEntryFits(rules, starts, d, n);
      AllFitGrows(rules, starts, d.seen, d.entries, d.seen, RunEntry(rules, d.run.value, Container(d), |d.seen|));
    }
  }

  lemma StackedHasRoot(d: Draft)
    requires Stacked(d)
    ensures d.entries != []
  {
  }

  lemma FenceEntryFits(rules: Rules, starts: seq<nat>, d: Draft, token: Token, page: nat)
    requires Stacked(d) && token.shape.FenceLine? && page == PageAt(starts, token.offset)
    ensures Fits(rules, starts, d.seen + [token], d.entries, FenceEntry(token, page, Container(d), |d.seen|))
  {
    ContainerFits(d);
    hide IsContainer, PageAt, Stacked, Container, HeadingFits, ItemFits, TextFits, Join;
    assert (d.seen + [token])[..|d.seen|] == d.seen;
  }

  lemma AllFitFence(rules: Rules, starts: seq<nat>, d: Draft, token: Token, page: nat)
    requires Stacked(d) && AllFit(rules, starts, d.seen, d.entries)
    requires token.shape.FenceLine? && page == PageAt(starts, token.offset)
    ensures AllFit(rules, starts, d.seen + [token], AddFence(d, token, page).entries)
  {
    StackedHasRoot(d);
    hide AllFit, Stacked, Fits, PageAt, FenceEntry;
    FenceEntryFits(rules, starts, d, token, page);
    AllFitGrows(rules, starts, d.seen, d.entries, d.seen + [token], FenceEntry(token, page, Container(d), |d.seen|));
  }

  lemma AllFitHeading(rules: Rules, starts: seq<nat>, d: Draft, token: Token, page: nat)
    requires Stacked(d) && AllFit(rules, starts, d.seen, d.entries)
    requires token.shape.HeadingLine? && page == PageAt(starts, token.offset)
    ensures AllFit(rules, starts, d.seen + [token], AddHeading(rules, d, token, page).entries)
  {
    hide PageAt, AllFit, StackFits, Pop, IsNearest;
    var above := Pop(d.headings, token.shape.level);
    StackPops(d.headings, d.entries, HeadingKeys(d.seen), Heading, token.shape.level);
    assert (d.seen + [token])[..|d.seen|] == d.seen;
    AllFitGrows(rules, starts, d.seen, d.entries, d.seen + [token],
      HeadingEntry(rules, token, page, Top(above, 0), |d.seen|));
  }

  lemma AllFitItem(rules: Rules, starts: seq<nat>, d: Draft, token: Token, page: nat)
    requires Stacked(d) && AllFit(rules, starts, d.seen, d.entries)
    requires token.shape.ItemLine? && page == PageAt(starts, token.offset)
    ensures AllFit(rules, starts, d.seen + [token], AddItem(rules, d, token, page).entries)
  {
    hide PageAt, AllFit, StackFits, Pop, IsNearest, IsLast;
    var above := Pop(d.items, token.shape.indent);
    StackPops(d.items, d.entries, ItemKeys(d.seen), Item, token.shape.indent);
    StackTop(d.headings, d.entries, HeadingKeys(d.seen), Heading);
    assert above == d.items[..|above|];
    assert (d.seen + [token])[..|d.seen|] == d.seen;
    AllFitGrows(rules, starts, d.seen, d.entries, d.seen + [token],
      ItemEntry(rules, token, page, |above| + 1, Top(above, Top(d.headings, 0)), |d.seen|));
  }

  // ------------------------------------------------------------------------
  // Text: nothing is lost or moved
  // ------------------------------------------------------------------------

  function EntryLines(entries: Entries): seq<string> {
    if entries == [] then [] else EntryLines(entries[..|entries| - 1]) + entries[|entries| - 1].lines
  }

  function RunLines(run: Option<Run>): seq<string> {
    if run.Some? then run.value.lines else []
  }

  /** The lines of the entries in order, then those of the open run, are the lines kept so far. */
  ghost predicate Complete(d: Draft) {
    EntryLines(d.entries) + RunLines(d.run) == Kept(d.seen)
  }

  lemma EntryLinesGrow(entries: Entries, e: Entry)
    ensures EntryLines(entries + [e]) == EntryLines(entries) + e.lines
  {
    assert (entries + [e])[..|entries|] == entries;
  }

  lemma KeptGrows(seen: seq<Token>, token: Token)
    ensures Kept(seen + [token]) == Kept(seen) + KeptOf(token)
  {
    assert (seen + [token])[..|seen|] == seen;
  }

  lemma CompleteFlush(rules: Rules, d: Draft)
    ensures EntryLines(Flush(rules, d).entries) == EntryLines(d.entries) + RunLines(d.run)
    ensures Flush(rules, d).seen == d.seen && Flush(rules, d).run == None
  {
    if d.run.Some? {
      EntryLinesGrow(d.entries, RunEntry(rules, d.run.value, Container(d), |d.seen|));
    }
  }

  lemma EntryIsKept(entries: Entries, e: Entry, seen: seq<Token>, token: Token)
    requires EntryLines(entries) == Kept(seen) && e.lines == KeptOf(token)
    ensures EntryLines(entries + [e]) == Kept(seen + [token])
  {
    hide EntryLines, Kept, KeptOf;
    EntryLinesGrow(entries, e);
    KeptGrows(seen, token);
  }

  lemma CompleteStep(rules: Rules, d: Draft, token: Token, page: nat)
    requires Complete(d)
    ensures Complete(Step(rules, d, token, page))
  {
    hide Kept, EntryLines, Pop, Flush;
    CompleteFlush(rules, d);
    var f := Flush(rules, d);
    match token.shape
    case FenceLine(_) =>
      EntryIsKept(f.entries, FenceEntry(token, page, Container(f), |f.seen|), d.seen, token);
    case HeadingLine(_, _) =>
      EntryIsKept(f.entries, HeadingEntry(rules, token, page, Top(Pop(f.headings, token.shape.level), 0), |f.seen|), d.seen, token);
    case ItemLine(_, _) =>
      var above := Pop(f.items, token.shape.indent);
      EntryIsKept(f.entries, ItemEntry(rules, token, page, |above| + 1, Top(above, Top(f.headings, 0)), |f.seen|), d.seen, token);
    case BlankLine =>
      KeptGrows(d.seen, token);
    case TextLine(_) =>
      CompleteText(rules, d, token, page);
  }

  lemma CompleteText(rules: Rules, d: Draft, token: Token, page: nat)
    requires Complete(d) && token.shape.TextLine?
    ensures Complete(AddText(rules, d, token, page))
  {
    hide Kept, EntryLines, Flush, EndsLists;
    KeptGrows(d.seen, token);
    var read := ReadText(d, token);
    CompleteFlush(rules, read);
    var c := if d.run.Some? && d.run.value.kind != token.shape.kind then Flush(rules, read) else read;
    assert EntryLines(c.entries) + RunLines(c.run) == Kept(d.seen) && c.seen == read.seen;
    CompleteJoin(c, token.shape.kind, token, page);
  }

  lemma CompleteJoin(c: Draft, kind: TextKind, token: Token, page: nat)
    requires c.seen != []
    ensures
      var joined := JoinRun(c, kind, token, page);
      && EntryLines(joined.entries) + RunLines(joined.run) == EntryLines(c.entries) + RunLines(c.run) + token.lines
      && joined.seen == c.seen
  {
  }

  // ------------------------------------------------------------------------
  // The open run, and the whole step
  // ------------------------------------------------------------------------

  lemma RunText(rules: Rules, starts: seq<nat>, d: Draft, token: Token, page: nat)
    requires RunReaches(starts, d, |d.seen|)
    requires token.shape.TextLine? && |token.lines| == 1 && page == PageAt(starts, token.offset)
    ensures RunReaches(starts, AddText(rules, d, token, page), |d.seen| + 1)
  {
    hide PageAt, RunEntry, Container, EndsLists;
    var seen := d.seen + [token];
    var kind := token.shape.kind;
    assert IsTextAt(seen, kind, |d.seen|, token.lines[0]);
    if d.run.Some? {
      var run := d.run.value;
      assert IsTextAt(d.seen, run.kind, run.token + (|run.lines| - 1), run.lines[|run.lines| - 1]);
      RunGrows(d.seen, run, token);
    }
  }

  lemma RunGrows(seen: seq<Token>, run: Run, token: Token)
    requires IsRun(seen, run.kind, run.token, run.lines) && run.token + |run.lines| == |seen|
    requires |token.lines| == 1
    ensures token.shape == TextLine(run.kind) ==> IsRun(seen + [token], run.kind, run.token, run.lines + token.lines)
  {
    var more, lines := seen + [token], run.lines + token.lines;
    if token.shape == TextLine(run.kind) {
      forall k | 0 <= k < |lines|
        ensures IsTextAt(more, run.kind, run.token + k, lines[k])
      {
        if k < |run.lines| {
          assert IsTextAt(seen, run.kind, run.token + k, run.lines[k]);
        }
      }
    }
  }

  /** Whether there was a heading or a nested item is remembered. */
  ghost predicate StructureKnown(d: Draft) {
    d.structured <==> exists i | 0 <= i < |d.entries| :: IsStructure(d.entries[i])
  }

  predicate IsStructure(e: Entry) {
    e.kind == Heading || (e.kind == Item && e.level > 1)
  }

  lemma StructureGrows(d: Draft, e: Entry)
    requires StructureKnown(d)
    ensures StructureKnown(d.(entries := d.entries + [e], structured := d.structured || IsStructure(e)))
  {
    var more := d.entries + [e];
    assert more[|d.entries|] == e;
    if d.structured {
      var i :| 0 <= i < |d.entries| && IsStructure(d.entries[i]);
      assert IsStructure(more[i]);
    }
  }

  lemma StructureFlush(rules: Rules, d: Draft)
    requires StructureKnown(d)
    ensures StructureKnown(Flush(rules, d))
  {
    if d.run.Some? {
      StructureGrows(d, RunEntry(rules, d.run.value, Container(d), |d.seen|));
    }
  }

  lemma StructureStep(rules: Rules, d: Draft, token: Token, page: nat)
    requires StructureKnown(d)
    ensures StructureKnown(Step(rules, d, token, page))
  {
    StructureFlush(rules, d);
    StructureFlush(rules, ReadText(d, token));
    var f := Flush(rules, d);
    hide Flush, Pop, StructureKnown;
    match token.shape
    case FenceLine(_) =>
      StructureGrows(f, FenceEntry(token, page, Container(f), |f.seen|));
      StructureByParts(AddFence(f, token, page), f.(entries := f.entries + [FenceEntry(token, page, Container(f), |f.seen|)]));
    case HeadingLine(_, _) =>
      var e := HeadingEntry(rules, token, page, Top(Pop(f.headings, token.shape.level), 0), |f.seen|);
      StructureGrows(f, e);
      StructureByParts(AddHeading(rules, f, token, page), f.(entries := f.entries + [e], structured := true));
    case ItemLine(_, _) =>
      var above := Pop(f.items, token.shape.indent);
      var e := ItemEntry(rules, token, page, |above| + 1, Top(above, Top(f.headings, 0)), |f.seen|);
      StructureGrows(f, e);
      StructureByParts(AddItem(rules, f, token, page), f.(entries := f.entries + [e], structured := f.structured || |above| > 0));
    case BlankLine =>
      StructureByParts(Read(f, token), f);
    case TextLine(kind) =>
      var read := ReadText(d, token);
      StructureByParts(read, d);
      var c := if d.run.Some? && d.run.value.kind != kind then Flush(rules, read) else read;
      StructureByParts(JoinRun(c, kind, token, page), c);
  }

  lemma StructureByParts(d: Draft, from: Draft)
    requires StructureKnown(from) && d.entries == from.entries && d.structured == from.structured
    ensures StructureKnown(d)
  {
  }
}
