/** Rendering a document tree gives its text back: every line but the blank ones, in order. */
module DocumentRender {
  import opened Wrappers
  import opened TextLines
  import opened NearestSmaller
  import opened DocumentTokens
  import opened DocumentPages
  import opened DocumentEntries
  import opened DocumentDraft
  import opened DocumentPlacement
  import opened DocumentSteps
  import opened DocumentParse

  /** The source text of a node, if there is any. */
  function RawOf(e: Entry): seq<string> {
    var raw := Join(e.lines);
    if Trim(raw) == [] then [] else [raw]
  }

  /** The source texts of some nodes, in that order. */
  function Raws(entries: Entries, order: seq<nat>): seq<string> {
    if order == [] then []
    else
      var last := order[|order| - 1];
      Raws(entries, order[..|order| - 1]) + (if last < |entries| then RawOf(entries[last]) else [])
  }

  lemma RawsSnoc(entries: Entries, a: seq<nat>, last: nat)
    ensures Raws(entries, a + [last]) == Raws(entries, a) + Raws(entries, [last])
  {
    hide RawOf;
    assert (a + [last])[..|a|] == a && [last][..0] == [];
  }

  lemma {:induction false} RawsConcat(entries: Entries, a: seq<nat>, b: seq<nat>)
    ensures Raws(entries, a + b) == Raws(entries, a) + Raws(entries, b)
  {
    if b == [] {
      assert a + b == a;
    } else {
      var n := |b| - 1;
      hide Raws, RawOf;
      assert b == b[..n] + [b[n]] && a + b == a + b[..n] + [b[n]];
      RawsConcat(entries, a, b[..n]);
      RawsSnoc(entries, a + b[..n], b[n]);
      RawsSnoc(entries, b[..n], b[n]);
    }
  }

  /** What rendering from entry `i` gives. */
  function Render(entries: Entries, i: nat): string
    requires ParentsFirst(entries) && i < |entries|
  {
    Join(Raws(entries, Preorder(entries, i)))
  }

  // ------------------------------------------------------------------------
  // No node but the root is blank
  // ------------------------------------------------------------------------

  ghost predicate Classified(rules: Rules, tokens: seq<Token>) {
    forall k | 0 <= k < |tokens| :: IsToken(tokens[k]) && tokens[k].shape == rules.classify(tokens[k].lines[0])
  }

  lemma {:induction false} TokensAreClassified(rules: Rules, lines: seq<string>, i: nat)
    requires i <= |lines|
    ensures Classified(rules, TokensFrom(rules, lines, i))
    decreases |lines| - i
  {
    hide TokenLength, LineStart;
    if i < |lines| {
      TokensAreClassified(rules, lines, i + |TokenAt(rules, lines, i).lines|);
    }
  }

  lemma {:induction false} TrimIsEmpty(s: string)
    ensures Trim(s) == [] ==> Blank(s)
  {
    TrimStartIsSuffix(s);
    TrimEndIsEmpty(TrimStart(s));
    var t := TrimStart(s);
    if t != [] {
      FirstIsNoSpace(s);
    }
  }

  lemma {:induction false} FirstIsNoSpace(s: string)
    ensures TrimStart(s) != [] ==> !IsSpace(TrimStart(s)[0])
  {
    if s != [] && IsSpace(s[0]) {
      FirstIsNoSpace(s[1..]);
    }
  }

  lemma {:induction false} TrimEndIsEmpty(s: string)
    ensures TrimEnd(s) == [] ==> Blank(s)
  {
    if s != [] && IsSpace(s[|s| - 1]) {
      TrimEndIsEmpty(s[..|s| - 1]);
      assert forall i | 0 <= i < |s| - 1 :: s[i] == s[..|s| - 1][i];
    }
  }

  lemma JoinStartsWithFirst(lines: seq<string>)
    requires lines != []
    ensures lines[0] <= Join(lines)
  {
  }

  lemma HasNoBlankStart(rules: Rules, starts: seq<nat>, tokens: seq<Token>, entries: Entries, e: Entry)
    requires FitRules(rules) && Classified(rules, tokens) && Fits(rules, starts, tokens, entries, e)
    ensures e.lines != [] && !Blank(e.lines[0])
  {
    hide PageAt, IsContainer, IsSection, IsNearest, Blank, Join, Trim;
    var token := tokens[e.token];
    assert IsToken(token);
    if e.kind.Text? {
      assert IsTextAt(tokens, e.kind.textKind, e.token + 0, e.lines[0]);
    }
    assert e.lines[0] == token.lines[0];
  }

  lemma HasRaw(rules: Rules, starts: seq<nat>, tokens: seq<Token>, entries: Entries, e: Entry)
    requires FitRules(rules) && Classified(rules, tokens) && Fits(rules, starts, tokens, entries, e)
    ensures e.lines != [] && RawOf(e) == [Join(e.lines)]
  {
    hide FitRules, Classified, Fits, Trim;
    HasNoBlankStart(rules, starts, tokens, entries, e);
    JoinStartsWithFirst(e.lines);
    TrimIsEmpty(Join(e.lines));
    BlankPrefix(e.lines[0], Join(e.lines));
  }

  lemma BlankPrefix(line: string, raw: string)
    requires line <= raw
    ensures Blank(raw) ==> Blank(line)
  {
    assert forall i | 0 <= i < |line| :: line[i] == raw[i];
  }

  // ------------------------------------------------------------------------
  // Rendering the whole tree
  // ------------------------------------------------------------------------

  /** The lines of each node but the root. */
  function Groups(entries: Entries): (groups: seq<seq<string>>)
    requires entries != []
    ensures |groups| == |entries| - 1
    ensures forall k | 0 <= k < |groups| :: groups[k] == entries[k + 1].lines
  {
    seq(|entries| - 1, (k: nat) requires k < |entries| - 1 => entries[k + 1].lines)
  }

  lemma {:induction false} GroupsAreLines(entries: Entries)
    requires entries != [] && entries[0] == ROOT
    ensures Flatten(Groups(entries)) == EntryLines(entries)
  {
    var n := |entries| - 1;
    if n == 0 {
      assert EntryLines(entries[..0]) == [];
    } else {
      GroupsAreLines(entries[..n]);
      FlattenAppend(Groups(entries[..n]), entries[n].lines);
      assert Groups(entries) == Groups(entries[..n]) + [entries[n].lines];
    }
  }

  lemma {:induction false} RawsInOrder(entries: Entries, n: nat)
    requires 0 < n <= |entries| && entries[0] == ROOT
    requires forall i | 0 < i < |entries| :: RawOf(entries[i]) == [Join(entries[i].lines)]
    ensures Raws(entries, seq(n, (i: nat) => i)) == seq(n - 1, (i: nat) requires i < n - 1 => Join(entries[i + 1].lines))
  {
    hide RawOf, Join;
    var order := seq(n, (i: nat) => i);
    assert order[..n - 1] == seq(n - 1, (i: nat) => i);
    if n == 1 {
      RootHasNoRaw();
      assert Raws(entries, order[..0]) == [];
    } else {
      RawsInOrder(entries, n - 1);
    }
  }

  lemma RootHasNoRaw()
    ensures RawOf(ROOT) == []
  {
  }

  /** Rendering the built tree gives the text without the blank lines outside fenced blocks. */
  lemma RenderOfDocument(rules: Rules, starts: seq<nat>, text: string)
    requires FitRules(rules)
    ensures InOrder(Document(rules, starts, text).entries)
    ensures Render(Document(rules, starts, text).entries, 0) == Join(KeptLines(rules, Split(text)))
  {
    var tokens := Tokens(rules, Split(text));
    TokensAreClassified(rules, Split(text), 0);
    hide Document, KeptLines, Split, Join, FitRules, Fits, Tokens, RawOf, Classified, StructureKnown;
    EveryNodeFits(rules, starts, text);
    var entries := Document(rules, starts, text).entries;
    forall i | 0 < i < |entries|
      ensures entries[i].lines != [] && RawOf(entries[i]) == [Join(entries[i].lines)]
    {
      HasRaw(rules, starts, tokens, entries, entries[i]);
    }
    RenderInOrder(entries);
  }

  lemma JoinedGroups(entries: Entries)
    requires entries != [] && entries[0] == ROOT
    requires forall i | 0 < i < |entries| :: entries[i].lines != []
    ensures Join(seq(|entries| - 1, (i: nat) requires i < |entries| - 1 => Join(entries[i + 1].lines)))
         == Join(EntryLines(entries))
  {
    hide Join, EntryLines, Flatten;
    var groups := Groups(entries);
    JoinOfGroups(groups);
    GroupsAreLines(entries);
    assert seq(|groups|, (i: nat) requires i < |groups| => Join(groups[i]))
        == seq(|entries| - 1, (i: nat) requires i < |entries| - 1 => Join(entries[i + 1].lines));
  }

  lemma RenderInOrder(entries: Entries)
    requires InOrder(entries) && entries[0] == ROOT
    requires forall i | 0 < i < |entries| :: entries[i].lines != [] && RawOf(entries[i]) == [Join(entries[i].lines)]
    ensures Render(entries, 0) == Join(EntryLines(entries))
  {
    hide RawOf, Join, Preorder, EntryLines, Raws;
    assert Render(entries, 0) == Join(Raws(entries, seq(|entries|, (i: nat) => i)));
    hide Render, InOrder;
    RawsInOrder(entries, |entries|);
    JoinedGroups(entries);
  }

  // ------------------------------------------------------------------------
  // Rendering is idempotent
  // ------------------------------------------------------------------------

  lemma {:induction false} KeptLinesAreLines(rules: Rules, lines: seq<string>)
    requires forall i | 0 <= i < |lines| :: OneLine(lines[i])
    ensures forall i | 0 <= i < |KeptLines(rules, lines)| :: OneLine(KeptLines(rules, lines)[i])
  {
    hide OneLine, TokenLength;
    if lines != [] {
      KeptLinesAreLines(rules, lines[TokenLength(rules, lines)..]);
    }
  }

  /** Building from what was rendered and rendering again changes nothing. */
  lemma RenderTwice(rules: Rules, starts: seq<nat>, starts': seq<nat>, text: string)
    requires FitRules(rules)
    ensures InOrder(Document(rules, starts, text).entries)
    ensures
      var once := Render(Document(rules, starts, text).entries, 0);
      && InOrder(Document(rules, starts', once).entries)
      && Render(Document(rules, starts', once).entries, 0) == once
  {
    var kept := KeptLines(rules, Split(text));
    KeptLinesAreLines(rules, Split(text));
    KeptLinesAreKept(rules, Split(text));
    if kept == [] {
      assert Split(Join(kept)) == [[]];
      assert rules.classify([]).BlankLine?;
      assert KeptLines(rules, [[]]) == [];
    } else {
      SplitOfJoin(kept);
    }
    hide Document, KeptLines, Split, Join, Render, FitRules;
    RenderOfDocument(rules, starts, text);
    RenderOfDocument(rules, starts', Join(kept));
  }

  // ------------------------------------------------------------------------
  // Rendering a part of the tree
  // ------------------------------------------------------------------------

  lemma {:induction false} IsAKid(entries: Entries, i: nat)
    requires 0 < i < |entries|
    ensures i in Kids(entries, entries[i].parent)
  {
    var n := |entries| - 1;
    if i < n {
      IsAKid(entries[..n], i);
    }
  }

  /** The subtree of a kid is a stretch of the preorder of the kids. */
  lemma {:induction false} KidStretch(entries: Entries, i: nat, c: nat, k: nat) returns (from: nat)
    requires ParentsFirst(entries) && i < |entries| && c < k <= |Kids(entries, i)|
    ensures
      var kid := Kids(entries, i)[c];
      && i < kid < |entries|
      && from + |Preorder(entries, kid)| <= |PreorderKids(entries, i, k)|
      && PreorderKids(entries, i, k)[from..from + |Preorder(entries, kid)|] == Preorder(entries, kid)
    decreases k
  {
    hide Kids, Preorder;
    var kid := Kids(entries, i)[c];
    assert i < kid;
    if c == k - 1 {
      from := |PreorderKids(entries, i, k - 1)|;
    } else {
      from := KidStretch(entries, i, c, k - 1);
    }
  }

  /** A node and everything under it is a stretch of the source: entries `i`, `i + 1`, and so on. */
  lemma {:induction false} SubtreeIsAStretch(entries: Entries, i: nat)
    requires InOrder(entries) && i < |entries|
    ensures forall k | 0 <= k < |Preorder(entries, i)| :: Preorder(entries, i)[k] == i + k
    decreases i
  {
    if i > 0 {
      var p := entries[i].parent;
      SubtreeIsAStretch(entries, p);
      IsAKid(entries, i);
      var kids := Kids(entries, p);
      var c :| 0 <= c < |kids| && kids[c] == i;
      var from := KidStretch(entries, p, c, |kids|);
      StretchOfStretch(entries, p, i, from);
    }
  }

  lemma StretchOfStretch(entries: Entries, p: nat, i: nat, from: nat)
    requires ParentsFirst(entries) && p < i < |entries|
    requires forall k | 0 <= k < |Preorder(entries, p)| :: Preorder(entries, p)[k] == p + k
    requires
      var kids := PreorderKids(entries, p, |Kids(entries, p)|);
      && from + |Preorder(entries, i)| <= |kids|
      && kids[from..from + |Preorder(entries, i)|] == Preorder(entries, i)
    ensures forall k | 0 <= k < |Preorder(entries, i)| :: Preorder(entries, i)[k] == i + k
  {
    var kids, part, all := PreorderKids(entries, p, |Kids(entries, p)|), Preorder(entries, i), Preorder(entries, p);
    assert all == [p] + kids;
    assert part[0] == i;
    hide Kids, Preorder, PreorderKids;
    Stretch(all, kids, part, p, from);
  }

  lemma Stretch(all: seq<nat>, kids: seq<nat>, part: seq<nat>, p: nat, from: nat)
    requires all == [p] + kids && forall k | 0 <= k < |all| :: all[k] == p + k
    requires from + |part| <= |kids| && kids[from..from + |part|] == part
    ensures forall k | 0 <= k < |part| :: part[k] == p + 1 + from + k
  {
    forall k | 0 <= k < |part|
      ensures part[k] == p + 1 + from + k
    {
      assert part[k] == kids[from + k] == all[1 + from + k];
    }
  }
}
