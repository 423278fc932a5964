/**
 * The parse on values, token by token: what each kind of line does to the
 * open headings, the open list items, the open run and the table of entries.
 */
module DocumentDraft {
  import opened Wrappers
  import opened TextLines
  import opened DocumentTokens
  import opened DocumentEntries

  /** An open heading or list item: its level or indent, and its node. */
  datatype Open<+N> = Open(key: nat, node: N)

  /** Lines of one kind that are not yet a node. */
  datatype Run = Run(kind: TextKind, lines: seq<string>, page: nat, token: nat)

  datatype Draft = Draft(
    seen: seq<Token>,
    entries: Entries,
    headings: seq<Open<nat>>,
    items: seq<Open<nat>>,
    run: Option<Run>,
    structured: bool
  )

  const ROOT := Entry(Root, [], [], 0, 1, 0, 0, 0)
  const EMPTY := Draft([], [ROOT], [], [], None, false)

  /** Entries at the end of the stack whose key is at least `k` go. */
  function Pop<N>(stack: seq<Open<N>>, k: nat): (left: seq<Open<N>>)
    ensures left <= stack
    ensures left == [] || left[|left| - 1].key < k
    ensures forall j | |left| <= j < |stack| :: stack[j].key >= k
  {
    if stack == [] || stack[|stack| - 1].key < k then stack else Pop(stack[..|stack| - 1], k)
  }

  function Top<N>(stack: seq<Open<N>>, under: N): N {
    if stack == [] then under else stack[|stack| - 1].node
  }

  /** The deepest open list item, else the deepest heading, else the root. */
  function Container(d: Draft): nat {
    Top(d.items, Top(d.headings, 0))
  }

  function RunEntry(rules: Rules, run: Run, parent: nat, placed: nat): Entry {
    Entry(Text(run.kind), rules.plainText(Trim(Join(run.lines))), run.lines, 0, run.page, parent, run.token, placed)
  }

  function Flush(rules: Rules, d: Draft): Draft {
    match d.run
    case None => d
    case Some(run) =>
      d.(entries := d.entries + [RunEntry(rules, run, Container(d), |d.seen|)], run := None)
  }

  function Read(d: Draft, token: Token): Draft {
    d.(seen := d.seen + [token])
  }

  function FenceEntry(token: Token, page: nat, parent: nat, at: nat): Entry {
    Entry(Code, Join(token.lines), token.lines, 0, page, parent, at, at)
  }

  function AddFence(d: Draft, token: Token, page: nat): Draft {
    Read(d.(entries := d.entries + [FenceEntry(token, page, Container(d), |d.seen|)]), token)
  }

  function HeadingEntry(rules: Rules, token: Token, page: nat, parent: nat, at: nat): Entry
    requires token.shape.HeadingLine?
  {
    Entry(Heading, rules.plainText(token.shape.title), token.lines, token.shape.level, page, parent, at, at)
  }

  function AddHeading(rules: Rules, d: Draft, token: Token, page: nat): Draft
    requires token.shape.HeadingLine?
  {
    var above := Pop(d.headings, token.shape.level);
    Read(d.(
      entries := d.entries + [HeadingEntry(rules, token, page, Top(above, 0), |d.seen|)],
      headings := above + [Open(token.shape.level, |d.entries|)],
      items := [],
      structured := true), token)
  }

  function ItemEntry(rules: Rules, token: Token, page: nat, depth: nat, parent: nat, at: nat): Entry
    requires token.shape.ItemLine?
  {
    Entry(Item, rules.plainText(token.shape.title), token.lines, depth, page, parent, at, at)
  }

  function AddItem(rules: Rules, d: Draft, token: Token, page: nat): Draft
    requires token.shape.ItemLine?
  {
    var above := Pop(d.items, token.shape.indent);
    Read(d.(
      entries := d.entries + [ItemEntry(rules, token, page, |above| + 1, Top(above, Top(d.headings, 0)), |d.seen|)],
      items := above + [Open(token.shape.indent, |d.entries|)],
      structured := d.structured || |above| > 0), token)
  }

  /** A line of text that starts in the first column closes the list before it joins or opens a run. */
  function ReadText(d: Draft, token: Token): Draft {
    Read(d.(items := if EndsLists(token) then [] else d.items), token)
  }

  function JoinRun(d: Draft, kind: TextKind, token: Token, page: nat): Draft
    requires d.seen != []
  {
    var run := if d.run.Some? then d.run.value else Run(kind, [], page, |d.seen| - 1);
    d.(run := Some(run.(lines := run.lines + token.lines)))
  }

  function AddText(rules: Rules, d: Draft, token: Token, page: nat): Draft
    requires token.shape.TextLine?
  {
    var kind, read := token.shape.kind, ReadText(d, token);
    JoinRun(if d.run.Some? && d.run.value.kind != kind then Flush(rules, read) else read, kind, token, page)
  }

  function Step(rules: Rules, d: Draft, token: Token, page: nat): Draft {
    match token.shape
    case FenceLine(_) => AddFence(Flush(rules, d), token, page)
    case HeadingLine(_, _) => AddHeading(rules, Flush(rules, d), token, page)
    case ItemLine(_, _) => AddItem(rules, Flush(rules, d), token, page)
    case BlankLine => Read(Flush(rules, d), token)
    case TextLine(_) => AddText(rules, d, token, page)
  }
}
