/** Which list items are open, told by the lines alone, and what hangs under them. */
module DocumentLists {
  import opened Wrappers
  import opened TextLines
  import opened NearestSmaller
  import opened DocumentTokens
  import opened DocumentEntries
  import opened DocumentDraft
  import opened DocumentPlacement
  import opened DocumentSteps
  import opened DocumentParse

  /** A line of text whose first character is no whitespace. */
  predicate FirstColumnText(token: Token) {
    token.shape.TextLine? && token.lines != [] && token.lines[0] != [] && !IsSpace(token.lines[0][0])
  }

  /** No heading and no text in the first column between `from` and `to`; blank, fenced and indented lines may be. */
  ghost predicate ListGoesOn(seen: seq<Token>, from: nat, to: nat) {
    to <= |seen| && forall u | from < u < to :: !seen[u].shape.HeadingLine? && !FirstColumnText(seen[u])
  }

  /** The item read at `s` is still open when `at` tokens have been read and nothing but its indent may close it. */
  ghost predicate ItemAt(seen: seq<Token>, s: nat, at: nat) {
    s < at <= |seen| && seen[s].shape.ItemLine? && ListGoesOn(seen, s, at)
  }

  lemma {:induction false} ItemKeysAre(seen: seq<Token>, u: nat)
    requires u < |seen|
    ensures ItemKeys(seen)[u] == if ItemAt(seen, u, |seen|) then Some(seen[u].shape.indent) else None
  {
    var n := |seen| - 1;
    if u < n {
      ItemKeysAre(seen[..n], u);
      ItemStaysOpen(seen, u);
    }
  }

  lemma ItemStaysOpen(seen: seq<Token>, u: nat)
    requires u < |seen| - 1
    ensures ItemAt(seen, u, |seen|) <==>
      && ItemAt(seen[..|seen| - 1], u, |seen| - 1)
      && !seen[|seen| - 1].shape.HeadingLine? && !FirstColumnText(seen[|seen| - 1])
  {
    var n := |seen| - 1;
    assert forall k | 0 <= k < n :: seen[..n][k] == seen[k];
  }

  lemma ItemAtPrefix(seen: seq<Token>, at: nat, s: nat)
    requires s < at <= |seen|
    ensures ItemKeys(seen[..at])[s] == if ItemAt(seen, s, at) then Some(seen[s].shape.indent) else None
  {
    ItemKeysAre(seen[..at], s);
    assert forall k | 0 <= k < at :: seen[..at][k] == seen[k];
  }

  /**
   * An item hangs under the nearest earlier item of smaller indent with no
   * heading and no first-column text in between, one level deeper; at level 1
   * under the section if there is no such item.
   */
  ghost predicate ItemPlaced(seen: seq<Token>, entries: Entries, e: Entry) {
    && e.token < |seen| && seen[e.token].shape.ItemLine? && e.parent < |entries|
    && var indent := seen[e.token].shape.indent;
       if e.parent > 0 && entries[e.parent].kind == Item then
         && ItemAt(seen, entries[e.parent].token, e.token)
         && seen[entries[e.parent].token].shape.indent < indent
         && e.level == entries[e.parent].level + 1
         && forall u | entries[e.parent].token < u < e.token && seen[u].shape.ItemLine? ::
              seen[u].shape.indent >= indent
       else
         && e.level == 1 && IsSection(seen[..e.token], entries, e.parent)
         && forall u: nat | ItemAt(seen, u, e.token) :: seen[u].shape.indent >= indent
  }

  /**
   * What is hung when `at` tokens have been read hangs under the last item if
   * no heading and no first-column text came since, otherwise under the section.
   */
  ghost predicate UnderLastItem(seen: seq<Token>, entries: Entries, parent: nat, at: nat) {
    && parent < |entries| && at <= |seen|
    && if parent > 0 && entries[parent].kind == Item then
         && ItemAt(seen, entries[parent].token, at)
         && forall u | entries[parent].token < u < at :: !seen[u].shape.ItemLine?
       else
         && IsSection(seen[..at], entries, parent)
         && forall u: nat | u < at && seen[u].shape.ItemLine? :: !ItemAt(seen, u, at)
  }

  /** A text node with a line that starts in the first column hangs under no item. */
  ghost predicate FirstColumnIsNoItems(seen: seq<Token>, entries: Entries, e: Entry) {
    && e.parent < |entries| && e.token + |e.lines| <= |seen|
    && (entries[e.parent].kind == Item ==>
          forall u | e.token <= u < e.token + |e.lines| :: !FirstColumnText(seen[u]))
  }

  lemma ItemIsPlaced(rules: Rules, seen: seq<Token>, entries: Entries, e: Entry)
    requires ItemFits(rules, seen, entries, e)
    ensures ItemPlaced(seen, entries, e)
  {
    var at := e.token;
    hide IsSection, ListGoesOn, ItemKeys;
    forall u: nat | u < at
      ensures ItemKeys(seen[..at])[u] == if ItemAt(seen, u, at) then Some(seen[u].shape.indent) else None
    {
      ItemAtPrefix(seen, at, u);
    }
    if e.parent > 0 && entries[e.parent].kind == Item {
      LaterItemsAreOpen(seen, entries[e.parent].token, at);
    }
  }

  lemma LaterItemsAreOpen(seen: seq<Token>, s: nat, at: nat)
    requires at <= |seen|
    ensures ItemAt(seen, s, at) ==> forall u | s < u < at && seen[u].shape.ItemLine? :: ItemAt(seen, u, at)
  {
  }

  lemma ContainerIsLastItem(seen: seq<Token>, entries: Entries, parent: nat, at: nat)
    requires at <= |seen| && IsContainer(seen[..at], entries, parent)
    ensures UnderLastItem(seen, entries, parent, at)
  {
    hide IsSection, ListGoesOn, ItemKeys;
    forall u: nat | u < at
      ensures ItemKeys(seen[..at])[u] == if ItemAt(seen, u, at) then Some(seen[u].shape.indent) else None
    {
      ItemAtPrefix(seen, at, u);
    }
    if parent > 0 && entries[parent].kind == Item {
      LaterItemsAreOpen(seen, entries[parent].token, at);
    }
  }

  lemma TextIsPlaced(rules: Rules, seen: seq<Token>, entries: Entries, e: Entry)
    requires TextFits(rules, seen, entries, e) && RunEnds(seen, e) && entries != [] && entries[0].kind == Root
    ensures UnderLastItem(seen, entries, e.parent, e.placed)
    ensures FirstColumnIsNoItems(seen, entries, e)
  {
    hide IsContainer, IsSection, Join, Trim;
    ContainerIsLastItem(seen, entries, e.parent, e.placed);
    if entries[e.parent].kind == Item {
      var s, end := entries[e.parent].token, e.token + |e.lines|;
      assert ItemAt(seen, s, e.placed);
      assert s != end;
      forall u | e.token <= u < end
        ensures seen[u].shape.TextLine?
      {
        RunIsText(seen, e.kind.textKind, e.token, e.lines, u);
      }
    }
  }

  lemma RunIsText(seen: seq<Token>, kind: TextKind, token: nat, lines: seq<string>, u: nat)
    requires IsRun(seen, kind, token, lines) && token <= u < token + |lines|
    ensures seen[u].shape.TextLine?
  {
    assert IsTextAt(seen, kind, token + (u - token), lines[u - token]);
  }

  /** Where an entry hangs as far as lists go. */
  ghost predicate ListsFit(seen: seq<Token>, entries: Entries, e: Entry) {
    match e.kind
    case Root => true
    case Heading => e.parent < |entries| && entries[e.parent].kind != Item
    case Item => ItemPlaced(seen, entries, e)
    case Code => UnderLastItem(seen, entries, e.parent, e.token)
    case Text(_) => UnderLastItem(seen, entries, e.parent, e.placed) && FirstColumnIsNoItems(seen, entries, e)
  }

  /**
   * In every document, told by tokens and characters alone: items nest by
   * indent as long as no heading and no text in the first column comes between;
   * blank, fenced and indented lines leave the list open.
   */
  lemma EveryListFits(rules: Rules, starts: seq<nat>, text: string)
    ensures
      var d, tokens := Document(rules, starts, text), Tokens(rules, Split(text));
      forall i | 0 <= i < |d.entries| :: ListsFit(tokens, d.entries, d.entries[i])
  {
    var d, tokens := Document(rules, starts, text), Tokens(rules, Split(text));
    hide Document, Tokens, KeptLines, InOrder, StructureKnown, ListsFit, Fits;
    EveryNodeFits(rules, starts, text);
    forall i | 0 <= i < |d.entries|
      ensures ListsFit(tokens, d.entries, d.entries[i])
    {
      if i == 0 {
        RootFitsLists(tokens, d.entries);
      } else {
        EntryFitsLists(rules, starts, tokens, d.entries, d.entries[i]);
      }
    }
  }

  lemma RootFitsLists(seen: seq<Token>, entries: Entries)
    ensures ListsFit(seen, entries, ROOT)
  {
  }

  lemma EntryFitsLists(rules: Rules, starts: seq<nat>, seen: seq<Token>, entries: Entries, e: Entry)
    requires Fits(rules, starts, seen, entries, e) && RunEnds(seen, e) && entries != [] && entries[0] == ROOT
    ensures ListsFit(seen, entries, e)
  {
    hide ItemFits, TextFits, ItemPlaced, UnderLastItem, FirstColumnIsNoItems, IsContainer, RunEnds;
    match e.kind
    case Heading =>
    case Item => ItemIsPlaced(rules, seen, entries, e);
    case Code => ContainerIsLastItem(seen, entries, e.parent, e.token);
    case Text(_) => TextIsPlaced(rules, seen, entries, e);
  }
}
