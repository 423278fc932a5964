/** Where every node of a document tree belongs, and that each step of the parse puts it there. */
module DocumentPlacement {
  import opened Wrappers
  import opened TextLines
  import opened NearestSmaller
  import opened DocumentTokens
  import opened DocumentPages
  import opened DocumentEntries
  import opened DocumentDraft

  // ------------------------------------------------------------------------
  // What is claimed of one node
  // ------------------------------------------------------------------------

  /** The token at which an entry starts; the root has none. */
  function Spot(entries: Entries, p: nat): Option<nat>
    requires p < |entries|
  {
    if p == 0 then None else Some(entries[p].token)
  }

  /** `p` is the last heading read, or the root if there is none. */
  ghost predicate IsSection(seen: seq<Token>, entries: Entries, p: nat) {
    && p < |entries| && (p == 0 || entries[p].kind == Heading)
    && IsLast(HeadingKeys(seen), Spot(entries, p))
  }

  /** `p` is the last item of the open list, or the section if no list is open. */
  ghost predicate IsContainer(seen: seq<Token>, entries: Entries, p: nat) {
    && p < |entries|
    && if p > 0 && entries[p].kind == Item then IsLast(ItemKeys(seen), Some(entries[p].token))
       else IsLast(ItemKeys(seen), None) && IsSection(seen, entries, p)
  }

  ghost predicate IsTextAt(seen: seq<Token>, kind: TextKind, at: nat, line: string) {
    at < |seen| && seen[at].shape == TextLine(kind) && seen[at].lines == [line]
  }

  /** Lines of one kind on consecutive tokens; the token before is of another kind. */
  ghost predicate IsRun(seen: seq<Token>, kind: TextKind, token: nat, lines: seq<string>) {
    && lines != [] && token + |lines| <= |seen|
    && (forall k | 0 <= k < |lines| :: IsTextAt(seen, kind, token + k, lines[k]))
    && (token > 0 ==> seen[token - 1].shape != TextLine(kind))
  }

  /** Under the nearest earlier heading of smaller level, or under the root. */
  ghost predicate HeadingFits(rules: Rules, seen: seq<Token>, entries: Entries, e: Entry) {
    && e.token < |seen| && seen[e.token].shape.HeadingLine?
    && e.level == seen[e.token].shape.level
    && e.text == rules.plainText(seen[e.token].shape.title)
    && e.lines == seen[e.token].lines
    && e.parent < |entries| && (e.parent == 0 || entries[e.parent].kind == Heading)
    && IsNearest(HeadingKeys(seen[..e.token]), e.level, Spot(entries, e.parent))
  }

  /** Under the nearest earlier item of the open list with smaller indent and one deeper, or under the section. */
  ghost predicate ItemFits(rules: Rules, seen: seq<Token>, entries: Entries, e: Entry) {
    && e.token < |seen| && seen[e.token].shape.ItemLine?
    && e.text == rules.plainText(seen[e.token].shape.title)
    && e.lines == seen[e.token].lines
    && e.parent < |entries|
    && (if e.parent > 0 && entries[e.parent].kind == Item then
          && IsNearest(ItemKeys(seen[..e.token]), seen[e.token].shape.indent, Some(entries[e.parent].token))
          && e.level == entries[e.parent].level + 1
        else
          && IsNearest(ItemKeys(seen[..e.token]), seen[e.token].shape.indent, None)
          && e.level == 1
          && IsSection(seen[..e.token], entries, e.parent))
  }

  ghost predicate CodeFits(seen: seq<Token>, entries: Entries, e: Entry) {
    && e.token < |seen| && seen[e.token].shape.FenceLine?
    && e.lines == seen[e.token].lines && e.text == Join(e.lines)
    && IsContainer(seen[..e.token], entries, e.parent)
  }

  /** A run hangs under what was the container when it ended. */
  ghost predicate TextFits(rules: Rules, seen: seq<Token>, entries: Entries, e: Entry) {
    && e.kind.Text? && e.placed <= |seen|
    && e.token + |e.lines| <= e.placed <= e.token + |e.lines| + 1
    && IsRun(seen, e.kind.textKind, e.token, e.lines)
    && e.text == rules.plainText(Trim(Join(e.lines)))
    && IsContainer(seen[..e.placed], entries, e.parent)
  }

  ghost predicate Fits(rules: Rules, starts: seq<nat>, seen: seq<Token>, entries: Entries, e: Entry) {
    && e.token < |seen| && e.page == PageAt(starts, seen[e.token].offset)
    && match e.kind
       case Root => false
       case Heading => HeadingFits(rules, seen, entries, e)
       case Item => ItemFits(rules, seen, entries, e)
       case Code => CodeFits(seen, entries, e)
       case Text(_) => TextFits(rules, seen, entries, e)
  }

  /** What fits keeps fitting as more tokens are read and more entries added. */
  lemma FitsStays(rules: Rules, starts: seq<nat>, seen: seq<Token>, entries: Entries, e: Entry, seen': seq<Token>, entries': Entries)
    requires Fits(rules, starts, seen, entries, e)
    requires seen <= seen' && entries <= entries'
    ensures Fits(rules, starts, seen', entries', e)
  {
    hide PageAt, IsLast, IsNearest, HeadingKeys, ItemKeys, Join, Trim, TextFits;
    assert seen'[..e.token] == seen[..e.token];
    if e.kind.Text? {
      TextFitsStays(rules, seen, entries, e, seen', entries');
    }
  }

  lemma TextFitsStays(rules: Rules, seen: seq<Token>, entries: Entries, e: Entry, seen': seq<Token>, entries': Entries)
    requires TextFits(rules, seen, entries, e)
    requires seen <= seen' && entries <= entries'
    ensures TextFits(rules, seen', entries', e)
  {
    hide IsLast, IsNearest, HeadingKeys, ItemKeys, Join, Trim;
    assert seen'[..e.placed] == seen[..e.placed];
  }

  // ------------------------------------------------------------------------
  // The stacks
  // ------------------------------------------------------------------------

  function Nodes(stack: seq<Open<nat>>): (nodes: seq<nat>)
    ensures |nodes| == |stack|
  {
    seq(|stack|, (j: nat) requires j < |stack| => stack[j].node)
  }

  /** `o` stands for an entry of this kind, with the key of the token where it starts. */
  ghost predicate IsOpen(o: Open<nat>, entries: Entries, keys: Keys, kind: Kind) {
    && 0 < o.node < |entries| && entries[o.node].kind == kind
    && entries[o.node].token < |keys| && keys[entries[o.node].token] == Some(o.key)
  }

  ghost predicate OnEntries(stack: seq<Open<nat>>, entries: Entries) {
    forall j | 0 <= j < |stack| :: 0 < stack[j].node < |entries|
  }

  function Spots(stack: seq<Open<nat>>, entries: Entries): (spots: seq<nat>)
    requires OnEntries(stack, entries)
    ensures |spots| == |stack|
    ensures forall j | 0 <= j < |stack| :: spots[j] == entries[stack[j].node].token
  {
    seq(|stack|, (j: nat) requires j < |stack| => entries[stack[j].node].token)
  }

  /** The stack holds entries of one kind, with their keys, and answers every nearest-smaller query. */
  ghost predicate StackFits(stack: seq<Open<nat>>, entries: Entries, keys: Keys, kind: Kind) {
    && (forall j | 0 <= j < |stack| :: IsOpen(stack[j], entries, keys, kind))
    && OnEntries(stack, entries)
    && Answers(Spots(stack, entries), keys)
  }

  lemma StackStays(stack: seq<Open<nat>>, entries: Entries, keys: Keys, kind: Kind, entries': Entries)
    requires StackFits(stack, entries, keys, kind) && entries <= entries'
    ensures StackFits(stack, entries', keys, kind)
  {
    hide Answers;
    assert Spots(stack, entries') == Spots(stack, entries);
  }

  lemma StackSkips(stack: seq<Open<nat>>, entries: Entries, keys: Keys, kind: Kind)
    requires StackFits(stack, entries, keys, kind)
    ensures StackFits(stack, entries, keys + [None], kind)
  {
    hide Answers;
    SkipAnswers(Spots(stack, entries), keys);
  }

  lemma EmptyStackFits(entries: Entries, n: nat, kind: Kind)
    ensures StackFits([], entries, NoKeys(n), kind)
  {
  }

  lemma SpotKeys(stack: seq<Open<nat>>, entries: Entries, keys: Keys, kind: Kind)
    requires StackFits(stack, entries, keys, kind)
    ensures OnKeys(Spots(stack, entries), keys)
    ensures forall j | 0 <= j < |stack| :: keys[Spots(stack, entries)[j]].value == stack[j].key
  {
    hide Answers;
    var spots := Spots(stack, entries);
    forall j | 0 <= j < |stack|
      ensures spots[j] < |keys| && keys[spots[j]] == Some(stack[j].key)
    {
      assert IsOpen(stack[j], entries, keys, kind);
    }
  }

  lemma PopIsPopsTo(stack: seq<Open<nat>>, entries: Entries, keys: Keys, kind: Kind, k: nat)
    requires StackFits(stack, entries, keys, kind)
    ensures PopsTo(Spots(stack, entries), keys, k, |Pop(stack, k)|)
  {
    SpotKeys(stack, entries, keys, kind);
    hide Answers, Pop, StackFits, Spots, IsOpen;
    var above := Pop(stack, k);
    assert above != [] ==> above[|above| - 1] == stack[|above| - 1];
  }

  lemma StackPops(stack: seq<Open<nat>>, entries: Entries, keys: Keys, kind: Kind, k: nat)
    requires StackFits(stack, entries, keys, kind) && entries != []
    ensures
      var above := Pop(stack, k);
      && Top(above, 0) < |entries|
      && IsNearest(keys, k, Spot(entries, Top(above, 0)))
      && (above != [] ==> Top(above, 0) > 0 && entries[Top(above, 0)].kind == kind)
  {
    PopIsPopsTo(stack, entries, keys, kind, k);
    hide Pop, PopsTo, Answers, IsNearest;
    TopIsNearest(Spots(stack, entries), keys, k, |Pop(stack, k)|);
    var above := Pop(stack, k);
    if above != [] {
      assert above[|above| - 1] == stack[|above| - 1];
      assert IsOpen(stack[|above| - 1], entries, keys, kind);
    }
  }

  lemma StackPushes(stack: seq<Open<nat>>, entries: Entries, keys: Keys, kind: Kind, k: nat, e: Entry)
    requires StackFits(stack, entries, keys, kind) && entries != []
    requires e.kind == kind && e.token == |keys|
    ensures StackFits(Pop(stack, k) + [Open(k, |entries|)], entries + [e], keys + [Some(k)], kind)
  {
    var m := |Pop(stack, k)|;
    assert Pop(stack, k) == stack[..m];
    PopIsPopsTo(stack, entries, keys, kind, k);
    OpensPush(stack, entries, keys, kind, m, k, e);
    hide Pop, PopsTo, Answers, IsOpen, Spots, OnEntries;
    SpotsPush(stack, entries, m, k, e);
    PushAnswers(Spots(stack, entries), keys, k, m);
  }

  lemma OpensPush(stack: seq<Open<nat>>, entries: Entries, keys: Keys, kind: Kind, m: nat, k: nat, e: Entry)
    requires StackFits(stack, entries, keys, kind) && m <= |stack| && entries != []
    requires e.kind == kind && e.token == |keys|
    ensures
      var stack' := stack[..m] + [Open(k, |entries|)];
      forall j | 0 <= j < |stack'| :: IsOpen(stack'[j], entries + [e], keys + [Some(k)], kind)
  {
    hide Answers, IsOpen, Spots;
    forall j | 0 <= j < m
      ensures IsOpen(stack[j], entries + [e], keys + [Some(k)], kind)
    {
      OpenStays(stack[j], entries, keys, kind, e, Some(k));
    }
    OpenNew(entries, keys, k, e);
  }

  lemma OpenStays(o: Open<nat>, entries: Entries, keys: Keys, kind: Kind, e: Entry, key: Option<nat>)
    requires IsOpen(o, entries, keys, kind)
    ensures IsOpen(o, entries + [e], keys + [key], kind)
  {
  }

  lemma OpenNew(entries: Entries, keys: Keys, k: nat, e: Entry)
    requires e.token == |keys| && entries != []
    ensures IsOpen(Open(k, |entries|), entries + [e], keys + [Some(k)], e.kind)
  {
  }

  lemma SpotsPush(stack: seq<Open<nat>>, entries: Entries, m: nat, k: nat, e: Entry)
    requires OnEntries(stack, entries) && m <= |stack| && entries != []
    ensures OnEntries(stack[..m] + [Open(k, |entries|)], entries + [e])
    ensures Spots(stack[..m] + [Open(k, |entries|)], entries + [e]) == Spots(stack, entries)[..m] + [e.token]
  {
    var stack' := stack[..m] + [Open(k, |entries|)];
    assert forall j | 0 <= j < m :: stack'[j] == stack[j];
  }

  lemma StackTop(stack: seq<Open<nat>>, entries: Entries, keys: Keys, kind: Kind)
    requires StackFits(stack, entries, keys, kind) && entries != []
    ensures Top(stack, 0) < |entries|
    ensures IsLast(keys, Spot(entries, Top(stack, 0)))
    ensures stack != [] ==> Top(stack, 0) > 0 && entries[Top(stack, 0)].kind == kind
  {
    hide Answers, IsLast;
    TopIsLast(Spots(stack, entries), keys);
  }

  /** Items nest: the one at depth `j` of the stack is at level `j + 1`. */
  ghost predicate LevelsFit(items: seq<Open<nat>>, entries: Entries) {
    OnEntries(items, entries) && forall j | 0 <= j < |items| :: entries[items[j].node].level == j + 1
  }

  ghost predicate Stacked(d: Draft) {
    && d.entries != []
    && StackFits(d.headings, d.entries, HeadingKeys(d.seen), Heading)
    && StackFits(d.items, d.entries, ItemKeys(d.seen), Item)
    && LevelsFit(d.items, d.entries)
  }

  lemma ContainerFits(d: Draft)
    requires Stacked(d)
    ensures IsContainer(d.seen, d.entries, Container(d))
  {
    hide IsLast, StackFits;
    StackTop(d.headings, d.entries, HeadingKeys(d.seen), Heading);
    StackTop(d.items, d.entries, ItemKeys(d.seen), Item);
  }
}
