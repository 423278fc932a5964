/** The tree builder: one pass over the lines that appends nodes in place, and the renderer. */
module DocumentTree {
  import opened Wrappers
  import opened TextLines
  import opened DocumentTokens
  import opened DocumentPages
  import opened DocumentEntries
  import opened DocumentDraft
  import opened DocumentPlacement
  import opened DocumentSteps
  import opened DocumentParse
  import opened DocumentRender

  class Node {
    const kind: Kind
    const text: string
    const raw: string
    const level: nat
    const page: nat
    var children: seq<Node>

    constructor (kind: Kind, text: string, raw: string, page: nat, level: nat)
      ensures this.kind == kind && this.text == text && this.raw == raw
      ensures this.page == page && this.level == level && children == []
    {
      this.kind, this.text, this.raw, this.page, this.level := kind, text, raw, page, level;
      children := [];
    }

    /** This node shows entry `e`. */
    predicate Shows(e: Entry) {
      kind == e.kind && text == e.text && raw == Join(e.lines) && level == e.level && page == e.page
    }
  }

  function Pick(nodes: seq<Node>, at: seq<nat>): (picked: seq<Node>)
    requires forall k | 0 <= k < |at| :: at[k] < |nodes|
    ensures |picked| == |at|
    ensures forall k | 0 <= k < |at| :: picked[k] == nodes[at[k]]
  {
    seq(|at|, (k: nat) requires k < |at| => nodes[at[k]])
  }

  ghost predicate Distinct(nodes: seq<Node>) {
    forall i, j | 0 <= i < j < |nodes| :: nodes[i] != nodes[j]
  }

  ghost predicate AllShow(nodes: seq<Node>, entries: Entries) {
    |nodes| == |entries| && forall i | 0 <= i < |nodes| :: nodes[i].Shows(entries[i])
  }

  ghost function ChildrenOf(nodes: seq<Node>): (lists: seq<seq<Node>>)
    reads nodes
    ensures |lists| == |nodes|
    ensures forall i | 0 <= i < |nodes| :: lists[i] == nodes[i].children
  {
    seq(|nodes|, (i: nat) requires i < |nodes| reads nodes => nodes[i].children)
  }

  /** The children of node `i` are the nodes of the kids of entry `i`. */
  ghost predicate ChildrenFit(lists: seq<seq<Node>>, nodes: seq<Node>, entries: Entries) {
    && |lists| == |nodes| == |entries|
    && forall i {:trigger Kids(entries, i)} | 0 <= i < |lists| :: lists[i] == Pick(nodes, Kids(entries, i))
  }

  ghost predicate IsTree(nodes: seq<Node>, entries: Entries)
    reads nodes
  {
    && AllShow(nodes, entries) && Distinct(nodes) && ParentsFirst(entries)
    && ChildrenFit(ChildrenOf(nodes), nodes, entries)
  }

  lemma NoKidsYet(entries: Entries)
    requires ParentsFirst(entries)
    ensures Kids(entries, |entries|) == []
  {
  }

  lemma ChildrenGrow(lists: seq<seq<Node>>, nodes: seq<Node>, entries: Entries, node: Node, e: Entry)
    requires ChildrenFit(lists, nodes, entries) && ParentsFirst(entries) && e.parent < |entries|
    ensures ChildrenFit(lists[e.parent := lists[e.parent] + [node]] + [[]], nodes + [node], entries + [e])
  {
    hide Kids, Pick;
    var lists', nodes', entries' := lists[e.parent := lists[e.parent] + [node]] + [[]], nodes + [node], entries + [e];
    forall i | 0 <= i < |lists'|
      ensures lists'[i] == Pick(nodes', Kids(entries', i))
    {
      KidsGrow(entries, e, i);
      PickGrows(nodes, node, Kids(entries, i));
      if i == |nodes| {
        NoKidsYet(entries);
      }
    }
  }

  lemma PickGrows(nodes: seq<Node>, node: Node, at: seq<nat>)
    requires forall k | 0 <= k < |at| :: at[k] < |nodes|
    ensures Pick(nodes + [node], at) == Pick(nodes, at)
    ensures Pick(nodes + [node], at + [|nodes|]) == Pick(nodes, at) + [node]
  {
  }

  method AppendChild(ghost nodes: seq<Node>, ghost entries: Entries, parent: Node, node: Node, ghost e: Entry)
    requires IsTree(nodes, entries)
    requires e.parent < |nodes| && parent == nodes[e.parent]
    requires node !in nodes && node.Shows(e) && node.children == []
    modifies parent
    ensures IsTree(nodes + [node], entries + [e])
  {
    hide Pick, Kids, ChildrenFit;
    ghost var lists := ChildrenOf(nodes);
    parent.children := parent.children + [node];
    ChildrenGrow(lists, nodes, entries, node, e);
    assert ChildrenOf(nodes + [node]) == lists[e.parent := lists[e.parent] + [node]] + [[]];
  }

  /** The stack of nodes for a stack of entries. */
  ghost predicate OnNodes(stack: seq<Open<Node>>, nodes: seq<Node>, spec: seq<Open<nat>>) {
    && |stack| == |spec|
    && forall j | 0 <= j < |stack| ::
         spec[j].node < |nodes| && stack[j].key == spec[j].key && stack[j].node == nodes[spec[j].node]
  }

  lemma {:induction false} PopOnNodes(stack: seq<Open<Node>>, nodes: seq<Node>, spec: seq<Open<nat>>, k: nat)
    requires OnNodes(stack, nodes, spec)
    ensures OnNodes(Pop(stack, k), nodes, Pop(spec, k))
  {
    if stack != [] && stack[|stack| - 1].key >= k {
      PopOnNodes(stack[..|stack| - 1], nodes, spec[..|spec| - 1], k);
    }
  }

  lemma OnMoreNodes(stack: seq<Open<Node>>, nodes: seq<Node>, spec: seq<Open<nat>>, more: seq<Node>)
    requires OnNodes(stack, nodes, spec)
    ensures OnNodes(stack, nodes + more, spec)
  {
  }

  lemma OnNoNodes(nodes: seq<Node>)
    ensures OnNodes([], nodes, [])
  {
  }

  lemma OpenNode(stack: seq<Open<Node>>, nodes: seq<Node>, spec: seq<Open<nat>>, k: nat)
    requires OnNodes(stack, nodes, spec) && nodes != []
    ensures OnNodes(stack + [Open(k, nodes[|nodes| - 1])], nodes, spec + [Open(k, |nodes| - 1)])
  {
  }

  lemma SameDepth(stack: seq<Open<Node>>, nodes: seq<Node>, spec: seq<Open<nat>>)
    requires OnNodes(stack, nodes, spec)
    ensures |stack| == |spec|
  {
  }

  datatype OpenRun = OpenRun(kind: TextKind, lines: seq<string>, page: nat)

  ghost predicate SameRun(run: Option<OpenRun>, spec: Option<Run>) {
    match run
    case None => spec.None?
    case Some(r) =>
      && spec.Some? && r == OpenRun(spec.value.kind, spec.value.lines, spec.value.page)
      && r.lines != [] && !Blank(r.lines[0])
  }

  /** The variables that the pass over the lines keeps up to date; `draft` is what they stand for. */
  class TreeBuilder {
    const rules: Rules
    const root: Node
    var headings: seq<Open<Node>>
    var items: seq<Open<Node>>
    var run: Option<OpenRun>
    var structured: bool
    ghost var nodes: seq<Node>
    ghost var draft: Draft

    ghost predicate Valid()
      reads this, nodes
    {
      && IsTree(nodes, draft.entries) && |nodes| == |draft.entries| > 0 && nodes[0] == root
      && OnNodes(headings, nodes, draft.headings)
      && OnNodes(items, nodes, draft.items)
      && SameRun(run, draft.run)
      && structured == draft.structured
    }

    constructor (rules: Rules)
      ensures Valid() && this.rules == rules && draft == EMPTY
      ensures fresh(nodes)
    {
      this.rules := rules;
      var top := new Node(Root, "", "", 1, 0);
      root := top;
      headings, items, run, structured := [], [], None, false;
      nodes, draft := [top], EMPTY;
    }

    /** Hangs a new node under `parent`. */
    method Append(parent: Node, node: Node, ghost e: Entry)
      requires Valid()
      requires e.parent < |nodes| && parent == nodes[e.parent]
      requires node !in nodes && node.Shows(e) && node.children == []
      modifies this`nodes, this`draft, parent
      ensures Valid()
      ensures nodes == old(nodes) + [node]
      ensures draft == old(draft).(entries := old(draft).entries + [e])
    {
      hide IsTree, OnNodes;
      AppendChild(nodes, draft.entries, parent, node, e);
      ghost var before := nodes;
      nodes := nodes + [node];
      draft := draft.(entries := draft.entries + [e]);
      OnMoreNodes(headings, before, draft.headings, [node]);
      OnMoreNodes(items, before, draft.items, [node]);
    }

    /** A new node under `parent`, showing entry `e`. */
    method AddNode(parent: Node, kind: Kind, text: string, raw: string, page: nat, level: nat, ghost e: Entry)
      returns (node: Node)
      requires Valid()
      requires e.parent < |nodes| && parent == nodes[e.parent]
      requires kind == e.kind && text == e.text && raw == Join(e.lines) && level == e.level && page == e.page
      modifies this`nodes, this`draft, parent
      ensures Valid() && fresh(node)
      ensures nodes == old(nodes) + [node]
      ensures draft == old(draft).(entries := old(draft).entries + [e])
    {
      hide Valid, IsTree, Join;
      node := new Node(kind, text, raw, page, level);
      Append(parent, node, e);
    }

    /** The deepest open list item, else the deepest heading, else the root. */
    method ContainerNode() returns (node: Node)
      requires Valid()
      ensures Container(draft) < |nodes| && node == nodes[Container(draft)] && node in nodes
    {
      hide IsTree, SameRun;
      if |items| > 0 {
        node := items[|items| - 1].node;
      } else if |headings| > 0 {
        node := headings[|headings| - 1].node;
      } else {
        node := root;
      }
    }

    /** The open run, if there is one, becomes a node. */
    method FlushRun()
      requires Valid()
      modifies this, nodes
      ensures Valid() && draft == Flush(rules, old(draft)) && run == None
      ensures old(nodes) <= nodes && forall i | |old(nodes)| <= i < |nodes| :: fresh(nodes[i])
      ensures headings == old(headings) && items == old(items)
    {
      hide IsTree, OnNodes, Join, Trim, Blank, Container;
      if run.None? {
        return;
      }
      var raw := Join(run.value.lines);
      var body := Trim(raw);
      RunHasBody(run.value.lines);
      if |body| > 0 {
        var parent := ContainerNode();
        var _ := AddNode(parent, Text(run.value.kind), rules.plainText(body), raw, run.value.page, 0,
          RunEntry(rules, draft.run.value, Container(draft), |draft.seen|));
      }
      run := None;
      draft := draft.(run := None);
    }

    method ReadFence(block: seq<string>, page: nat, ghost token: Token)
      requires Valid() && token.shape.FenceLine? && token.lines == block
      modifies this, nodes
      ensures Valid() && draft == Step(rules, old(draft), token, page)
      ensures old(nodes) <= nodes && forall i | |old(nodes)| <= i < |nodes| :: fresh(nodes[i])
    {
      hide IsTree, OnNodes, Join, Container, Flush;
      FlushRun();
      var raw := Join(block);
      var parent := ContainerNode();
      var _ := AddNode(parent, Code, raw, raw, page, 0, FenceEntry(token, page, Container(draft), |draft.seen|));
      draft := draft.(seen := draft.seen + [token]);
    }

    method ReadHeading(line: string, level: nat, title: string, page: nat, ghost token: Token)
      requires Valid() && token.shape == HeadingLine(level, title) && token.lines == [line]
      modifies this, nodes
      ensures Valid() && draft == Step(rules, old(draft), token, page)
      ensures old(nodes) <= nodes && forall i | |old(nodes)| <= i < |nodes| :: fresh(nodes[i])
    {
      hide IsTree, OnNodes, Flush, AddHeading;
      FlushRun();
      PlaceHeading(line, level, title, page, token);
    }

    /** Closes the list and every heading of this level or deeper. */
    method CloseHeadings(level: nat)
      requires Valid()
      modifies this`headings, this`items, this`draft
      ensures Valid()
      ensures draft == old(draft).(items := [], headings := Pop(old(draft).headings, level))
    {
      hide IsTree, Pop, OnNodes, SameRun;
      OnNoNodes(nodes);
      PopOnNodes(headings, nodes, draft.headings, level);
      items := [];
      headings := PopFrom(headings, level);
      draft := draft.(items := [], headings := Pop(draft.headings, level));
    }

    /** The newest node joins the open headings. */
    method OpenHeading(node: Node, level: nat)
      requires nodes != [] && node == nodes[|nodes| - 1]
      requires Valid()
      modifies this`headings, this`structured, this`draft
      ensures Valid()
      ensures draft == old(draft).(
        headings := old(draft).headings + [Open(level, |nodes| - 1)],
        structured := true)
    {
      hide IsTree, OnNodes, SameRun;
      SameDepth(headings, nodes, draft.headings);
      OpenNode(headings, nodes, draft.headings, level);
      headings := headings + [Open(level, node)];
      structured := true;
      draft := draft.(headings := draft.headings + [Open(level, |nodes| - 1)], structured := structured);
    }

    method PlaceHeading(line: string, level: nat, title: string, page: nat, ghost token: Token)
      requires Valid() && run == None && token.shape == HeadingLine(level, title) && token.lines == [line]
      modifies this, nodes
      ensures Valid() && draft == AddHeading(rules, old(draft), token, page)
      ensures old(nodes) <= nodes && forall i | |old(nodes)| <= i < |nodes| :: fresh(nodes[i])
    {
      hide IsTree, Pop, OnNodes, SameRun, Join;
      JoinOne(line);
      ghost var before := draft;
      CloseHeadings(level);
      var parent := ContainerNode();
      var node := AddNode(parent, Heading, rules.plainText(title), line, page, level,
        HeadingEntry(rules, token, page, Container(draft), |draft.seen|));
      OpenHeading(node, level);
      draft := Read(draft, token);
    }

    method ReadItem(line: string, indent: nat, title: string, page: nat, ghost token: Token)
      requires Valid() && token.shape == ItemLine(indent, title) && token.lines == [line]
      modifies this, nodes
      ensures Valid() && draft == Step(rules, old(draft), token, page)
      ensures old(nodes) <= nodes && forall i | |old(nodes)| <= i < |nodes| :: fresh(nodes[i])
    {
      hide IsTree, OnNodes, Flush, AddItem;
      FlushRun();
      PlaceItem(line, indent, title, page, token);
    }

    /** Closes every open item with this indent or more. */
    method CloseItems(indent: nat)
      requires Valid()
      modifies this`items, this`draft
      ensures Valid()
      ensures draft == old(draft).(items := Pop(old(draft).items, indent))
    {
      hide IsTree, Pop, OnNodes, SameRun;
      PopOnNodes(items, nodes, draft.items, indent);
      items := PopFrom(items, indent);
      draft := draft.(items := Pop(draft.items, indent));
    }

    /** The newest node joins the open items. */
    method OpenItem(node: Node, indent: nat)
      requires nodes != [] && node == nodes[|nodes| - 1]
      requires Valid()
      modifies this`items, this`structured, this`draft
      ensures Valid()
      ensures draft == old(draft).(
        items := old(draft).items + [Open(indent, |nodes| - 1)],
        structured := old(draft).structured || |old(draft).items| > 0)
    {
      hide IsTree, OnNodes, SameRun;
      SameDepth(items, nodes, draft.items);
      OpenNode(items, nodes, draft.items, indent);
      items := items + [Open(indent, node)];
      if |items| > 1 {
        structured := true;
      }
      draft := draft.(items := draft.items + [Open(indent, |nodes| - 1)], structured := structured);
    }

    method PlaceItem(line: string, indent: nat, title: string, page: nat, ghost token: Token)
      requires Valid() && run == None && token.shape == ItemLine(indent, title) && token.lines == [line]
      modifies this, nodes
      ensures Valid() && draft == AddItem(rules, old(draft), token, page)
      ensures old(nodes) <= nodes && forall i | |old(nodes)| <= i < |nodes| :: fresh(nodes[i])
    {
      hide IsTree, Pop, OnNodes, SameRun, Join;
      JoinOne(line);
      ghost var before := draft;
      CloseItems(indent);
      ghost var depth := |draft.items|;
      var parent := ContainerNode();
      SameDepth(items, nodes, draft.items);
      var node := AddNode(parent, Item, rules.plainText(title), line, page, |items| + 1,
        ItemEntry(rules, token, page, depth + 1, Container(draft), |draft.seen|));
      OpenItem(node, indent);
      draft := Read(draft, token);
    }

    method ReadBlank(page: nat, ghost token: Token)
      requires Valid() && token.shape.BlankLine?
      modifies this, nodes
      ensures Valid() && draft == Step(rules, old(draft), token, page)
      ensures old(nodes) <= nodes && forall i | |old(nodes)| <= i < |nodes| :: fresh(nodes[i])
    {
      hide IsTree, Flush, OnNodes;
      FlushRun();
      draft := Read(draft, token);
    }

    method ReadText(line: string, kind: TextKind, page: nat, ghost token: Token)
      requires Valid() && token.shape == TextLine(kind) && token.lines == [line] && !Blank(line)
      modifies this, nodes
      ensures Valid() && draft == Step(rules, old(draft), token, page)
      ensures items == if line != [] && !IsSpace(line[0]) then [] else old(items)
      ensures old(nodes) <= nodes && forall i | |old(nodes)| <= i < |nodes| :: fresh(nodes[i])
    {
      hide IsTree, RunEntry, Container, OnNodes;
      if |items| > 0 && |line| > 0 && !IsSpace(line[0]) {
        items := [];
      }
      OnNoNodes(nodes);
      draft := DocumentDraft.ReadText(draft, token);
      if run.Some? && run.value.kind != kind {
        FlushRun();
      }
      ghost var read := draft;
      if run.None? {
        run := Some(OpenRun(kind, [], page));
      }
      run := Some(run.value.(lines := run.value.lines + [line]));
      draft := JoinRun(read, kind, token, page);
    }

    /** The line at `i`, or the whole fenced block that starts there; `size` is what it takes of the text. */
    method ReadLine(lines: seq<string>, i: nat, page: nat) returns (next: nat, size: nat)
      requires Valid() && FitRules(rules) && i < |lines|
      modifies this, nodes
      ensures Valid() && draft == Step(rules, old(draft), TokenAt(rules, lines, i), page)
      ensures old(nodes) <= nodes && forall i | |old(nodes)| <= i < |nodes| :: fresh(nodes[i])
      ensures next == i + |TokenAt(rules, lines, i).lines|
      ensures LineStart(lines, i) + size == LineStart(lines, next)
    {
      hide Valid, Step, Blank, ClosesFence;
      var line := lines[i];
      ghost var token := TokenAt(rules, lines, i);
      TokenOfLine(rules, lines, i);
      next, size := i + 1, |line| + 1;
      match rules.classify(line) {
        case FenceLine(marker) =>
          var block;
          block, size := FencedBlock(lines, i, marker);
          next := i + |block|;
          ReadFence(block, page, token);
        case HeadingLine(level, title) => ReadHeading(line, level, title, page, token);
        case ItemLine(indent, title) => ReadItem(line, indent, title, page, token);
        case BlankLine => ReadBlank(page, token);
        case TextLine(kind) => ReadText(line, kind, page, token);
      }
    }

    /** The loop over the lines, with the page cursor. */
    method ReadLines(lines: seq<string>, starts: seq<nat>)
      requires Valid() && FitRules(rules) && draft == EMPTY
      modifies this, nodes
      ensures Valid() && draft == Parse(rules, starts, Tokens(rules, lines))
      ensures old(nodes) <= nodes && forall i | |old(nodes)| <= i < |nodes| :: fresh(nodes[i])
    {
      hide FitRules, TokenAt, PageUpTo, Step, Valid, Tokens;
      var i, offset, pageIndex := 0, 0, 0;
      ghost var tokens: seq<Token> := [];
      NothingRead(rules, starts, lines);
      while i < |lines|
        invariant 0 <= i <= |lines|
        invariant Valid() && FitRules(rules)
        invariant old(nodes) <= nodes && forall i | |old(nodes)| <= i < |nodes| :: fresh(nodes[i])
        invariant tokens + TokensFrom(rules, lines, i) == Tokens(rules, lines)
        invariant draft == Parse(rules, starts, tokens)
        invariant offset == LineStart(lines, i)
        invariant IsCursor(starts, offset, pageIndex)
        decreases |lines| - i
      {
        pageIndex := TurnPages(starts, offset, pageIndex);
        ghost var token := TokenAt(rules, lines, i);
        var next, size := ReadLine(lines, i, pageIndex + 1);
        ParseNext(rules, starts, tokens, token);
        TokensStep(rules, lines, i, tokens);
        tokens := tokens + [token];
        i, offset := next, offset + size;
      }
      assert tokens == Tokens(rules, lines);
    }
  }

  lemma NothingRead(rules: Rules, starts: seq<nat>, lines: seq<string>)
    ensures Parse(rules, starts, []) == EMPTY
    ensures [] + TokensFrom(rules, lines, 0) == Tokens(rules, lines)
    ensures TokensFrom(rules, lines, |lines|) == []
    ensures IsCursor(starts, 0, 0)
  {
  }

  lemma TokenOfLine(rules: Rules, lines: seq<string>, i: nat)
    requires i < |lines|
    ensures
      var token, shape := TokenAt(rules, lines, i), rules.classify(lines[i]);
      && token.shape == shape
      && (shape.FenceLine? ==> token.lines == lines[i..i + 1 + FenceLength(shape.marker, lines[i + 1..])])
      && (!shape.FenceLine? ==> token.lines == [lines[i]])
  {
    assert lines[i..][0] == lines[i] && lines[i..][1..] == lines[i + 1..];
  }

  /** The line at `i` and those after it, up to one that closes the block. */
  method FencedBlock(lines: seq<string>, i: nat, marker: string) returns (block: seq<string>, size: nat)
    requires i < |lines|
    ensures block == lines[i..i + 1 + FenceLength(marker, lines[i + 1..])]
    ensures LineStart(lines, i) + size == LineStart(lines, i + |block|)
    ensures forall k | 0 < k < |block| - 1 :: !ClosesFence(marker, block[k])
    ensures i + |block| < |lines| ==> |block| > 1 && ClosesFence(marker, block[|block| - 1])
  {
    hide ClosesFence;
    FenceEndsAtItsClosing(marker, lines[i + 1..]);
    block := [lines[i]];
    size := |lines[i]| + 1;
    var j := i + 1;
    while j < |lines|
      invariant i < j <= |lines| && block == lines[i..j]
      invariant LineStart(lines, i) + size == LineStart(lines, j)
      invariant i + 1 + FenceLength(marker, lines[i + 1..]) == j + FenceLength(marker, lines[j..])
    {
      block := block + [lines[j]];
      size := size + |lines[j]| + 1;
      assert lines[j..][1..] == lines[j + 1..];
      j := j + 1;
      if ClosesFence(marker, lines[j - 1]) {
        return;
      }
    }
  }

  /** From `offset` on, searching pages from `index` gives what searching them all gives. */
  ghost predicate IsCursor(starts: seq<nat>, offset: nat, index: nat) {
    forall at: nat | at >= offset :: PageUpTo(starts, at, index) == PageAt(starts, at)
  }

  /** Moves the page cursor to the page that `at` falls on. */
  method TurnPages(starts: seq<nat>, at: nat, index: nat) returns (turned: nat)
    requires IsCursor(starts, at, index)
    ensures turned + 1 == PageAt(starts, at)
    ensures IsCursor(starts, at, turned)
  {
    turned := index;
    while turned + 1 < |starts| && at >= starts[turned + 1]
      invariant PageUpTo(starts, at, turned) == PageUpTo(starts, at, index)
      decreases |starts| - turned
    {
      turned := turned + 1;
    }
    forall later: nat | later >= at
      ensures PageUpTo(starts, later, turned) == PageAt(starts, later)
    {
      CursorMayStay(starts, at, later, index);
    }
  }

  lemma ParseNext(rules: Rules, starts: seq<nat>, tokens: seq<Token>, token: Token)
    ensures Parse(rules, starts, tokens + [token])
         == Step(rules, Parse(rules, starts, tokens), token, PageAt(starts, token.offset))
  {
    assert (tokens + [token])[..|tokens|] == tokens;
  }

  lemma TokensStep(rules: Rules, lines: seq<string>, i: nat, tokens: seq<Token>)
    requires i < |lines|
    ensures
      var token := TokenAt(rules, lines, i);
      && tokens + TokensFrom(rules, lines, i) == tokens + [token] + TokensFrom(rules, lines, i + |token.lines|)
      && token.offset == LineStart(lines, i)
  {
    hide LineStart, TokenLength;
  }

  /** The tree of a text, whose pages start at the given offsets. */
  method BuildDocumentTree(rules: Rules, text: string, starts: seq<nat>)
    returns (root: Node, structured: bool, ghost nodes: seq<Node>)
    requires FitRules(rules)
    ensures IsTree(nodes, Document(rules, starts, text).entries) && nodes[0] == root && fresh(nodes)
    ensures RootIsEmpty(Document(rules, starts, text).entries)
    ensures structured == Document(rules, starts, text).structured
  {
    hide FitRules, Split, Parse, Flush, IsTree, OnNodes, SameRun, RootIsEmpty;
    var builder := new TreeBuilder(rules);
    builder.ReadLines(Split(text), starts);
    builder.FlushRun();
    DocumentRootIsEmpty(rules, starts, text);
    root, structured, nodes := builder.root, builder.structured, builder.nodes;
  }

  /** Only the root is of kind root, and it has no lines. */
  ghost predicate RootIsEmpty(entries: Entries) {
    forall i | 0 <= i < |entries| :: entries[i].kind == Root ==> entries[i].lines == []
  }

  lemma DocumentRootIsEmpty(rules: Rules, starts: seq<nat>, text: string)
    ensures RootIsEmpty(Document(rules, starts, text).entries)
  {
    var tokens := Tokens(rules, Split(text));
    hide Document, Tokens, KeptLines, InOrder, StructureKnown, PageAt, HeadingFits, ItemFits, CodeFits, TextFits;
    EveryNodeFits(rules, starts, text);
    var entries := Document(rules, starts, text).entries;
    forall i | 0 < i < |entries|
      ensures entries[i].kind != Root
    {
      assert Fits(rules, starts, tokens, entries, entries[i]);
    }
  }

  /** The source texts of a node and everything under it, parents before children, siblings in order. */
  method Walk(n: Node, isRoot: bool, out: seq<string>, ghost nodes: seq<Node>, ghost entries: Entries, ghost i: nat)
    returns (out': seq<string>)
    requires IsTree(nodes, entries) && RootIsEmpty(entries) && i < |nodes| && n == nodes[i]
    ensures out' == out + Raws(entries, Preorder(entries, i))
    decreases |entries| - i
  {
    hide Preorder, PreorderKids, Kids, Join, Trim, Raws;
    out' := out;
    if !isRoot || n.kind != Root {
      if |Trim(n.raw)| > 0 {
        out' := out' + [n.raw];
      }
    } else {
      RawOfRoot(entries, i);
    }
    ghost var start := out';
    assert start == out + RawOf(entries[i]);
    RawsOfKids(entries, i);
    for k := 0 to |n.children|
      invariant |n.children| == |Kids(entries, i)|
      invariant out' == start + Raws(entries, PreorderKids(entries, i, k))
    {
      ghost var kid := Kids(entries, i)[k];
      assert n.children[k] == nodes[kid];
      KidIsLater(entries, i, k);
      out' := Walk(n.children[k], false, out', nodes, entries, kid);
      RawsOfNextKid(entries, i, k);
    }
  }

  lemma RawOfRoot(entries: Entries, i: nat)
    requires RootIsEmpty(entries) && i < |entries| && entries[i].kind == Root
    ensures RawOf(entries[i]) == []
  {
    assert Join(entries[i].lines) == [];
  }

  lemma KidIsLater(entries: Entries, i: nat, k: nat)
    requires ParentsFirst(entries) && i < |entries| && k < |Kids(entries, i)|
    ensures i < Kids(entries, i)[k] < |entries|
  {
  }

  lemma RawsOfNextKid(entries: Entries, i: nat, k: nat)
    requires ParentsFirst(entries) && i < |entries| && k < |Kids(entries, i)|
    ensures Kids(entries, i)[k] < |entries|
    ensures Raws(entries, PreorderKids(entries, i, k + 1))
         == Raws(entries, PreorderKids(entries, i, k)) + Raws(entries, Preorder(entries, Kids(entries, i)[k]))
  {
    KidIsLater(entries, i, k);
    RawsConcat(entries, PreorderKids(entries, i, k), Preorder(entries, Kids(entries, i)[k]));
  }

  lemma RawsOfKids(entries: Entries, i: nat)
    requires ParentsFirst(entries) && i < |entries|
    ensures Raws(entries, PreorderKids(entries, i, 0)) == []
    ensures Raws(entries, Preorder(entries, i))
         == RawOf(entries[i]) + Raws(entries, PreorderKids(entries, i, |Kids(entries, i)|))
  {
    hide RawOf;
    var kids := PreorderKids(entries, i, |Kids(entries, i)|);
    assert Preorder(entries, i) == [i] + kids;
    assert Raws(entries, [i][..0]) == [];
    assert Raws(entries, [i]) == RawOf(entries[i]);
    RawsConcat(entries, [i], PreorderKids(entries, i, |Kids(entries, i)|));
  }

  /** The text of a node and everything under it. */
  method RenderSubtree(n: Node, ghost nodes: seq<Node>, ghost entries: Entries, ghost i: nat) returns (text: string)
    requires IsTree(nodes, entries) && RootIsEmpty(entries) && i < |nodes| && n == nodes[i]
    ensures text == Render(entries, i)
  {
    hide Preorder, Raws, Join;
    var out := Walk(n, true, [], nodes, entries, i);
    assert out == Raws(entries, Preorder(entries, i));
    text := Join(out);
  }

  method PopFrom<N>(stack: seq<Open<N>>, k: nat) returns (left: seq<Open<N>>)
    ensures left == Pop(stack, k)
  {
    left := stack;
    while |left| > 0 && left[|left| - 1].key >= k
      invariant Pop(left, k) == Pop(stack, k)
    {
      left := left[..|left| - 1];
    }
  }

  lemma JoinOne(line: string)
    ensures Join([line]) == line
  {
  }

  lemma RunHasBody(lines: seq<string>)
    requires lines != [] && !Blank(lines[0])
    ensures Trim(Join(lines)) != []
  {
    JoinStartsWithFirst(lines);
    BlankPrefix(lines[0], Join(lines));
    TrimIsEmpty(Join(lines));
  }
}
