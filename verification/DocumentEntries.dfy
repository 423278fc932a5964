/** A document tree as a table of entries, and the preorder of one grown on its rightmost spine. */
module DocumentEntries {
  import opened DocumentTokens

  datatype Kind = Root | Heading | Item | Code | Text(textKind: TextKind)

  /**
   * One node. `lines` are its source lines, `token` the token it starts at,
   * `parent` the entry it hangs under, `placed` how many tokens had been read
   * when it was hung there. Entry 0 is the root.
   */
  datatype Entry = Entry(kind: Kind, text: string, lines: seq<string>, level: nat, page: nat, parent: nat, token: nat, placed: nat)

  type Entries = seq<Entry>

  ghost predicate ParentsFirst(entries: Entries) {
    entries != [] && forall i | 0 < i < |entries| :: entries[i].parent < i
  }

  /** The children of entry `i`, oldest first. */
  function Kids(entries: Entries, i: nat): (kids: seq<nat>)
    ensures forall k | 0 <= k < |kids| :: 0 < kids[k] < |entries| && entries[kids[k]].parent == i
    ensures (forall k | 0 < k < |entries| :: entries[k].parent != i) ==> kids == []
  {
    if |entries| <= 1 then []
    else
      var n := |entries| - 1;
      Kids(entries[..n], i) + (if entries[n].parent == i then [n] else [])
  }

  /** Entry `i` and everything under it, parents before children, siblings in order. */
  function Preorder(entries: Entries, i: nat): seq<nat>
    requires ParentsFirst(entries) && i < |entries|
    decreases |entries| - i, 0
  {
    [i] + PreorderKids(entries, i, |Kids(entries, i)|)
  }

  function PreorderKids(entries: Entries, i: nat, k: nat): seq<nat>
    requires ParentsFirst(entries) && i < |entries| && k <= |Kids(entries, i)|
    decreases |entries| - i, 0, k
  {
    if k == 0 then []
    else
      assert entries[Kids(entries, i)[k - 1]].parent == i;
      PreorderKids(entries, i, k - 1) + Preorder(entries, Kids(entries, i)[k - 1])
  }

  /** A path from the root along last children: the only place where nodes are added. */
  ghost predicate LastChildren(entries: Entries, spine: seq<nat>) {
    && spine != [] && spine[0] == 0
    && (forall k | 0 <= k < |spine| :: spine[k] < |entries|)
    && (forall k | 0 <= k < |spine| - 1 :: IsLastChild(entries, spine[k], spine[k + 1]))
  }

  ghost predicate IsLastChild(entries: Entries, parent: nat, child: nat) {
    var kids := Kids(entries, parent);
    kids != [] && kids[|kids| - 1] == child
  }

  lemma KidsGrow(entries: Entries, e: Entry, i: nat)
    requires entries != []
    ensures Kids(entries + [e], i) == Kids(entries, i) + (if e.parent == i then [|entries|] else [])
  {
    assert (entries + [e])[..|entries|] == entries;
  }

  lemma {:induction false} KidsAscend(entries: Entries, i: nat)
    ensures forall a, b | 0 <= a < b < |Kids(entries, i)| :: Kids(entries, i)[a] < Kids(entries, i)[b]
  {
    if |entries| > 1 {
      KidsAscend(entries[..|entries| - 1], i);
    }
  }

  /** `a` is `i` or one of its ancestors. */
  predicate Above(entries: Entries, a: nat, i: nat)
    requires ParentsFirst(entries) && i < |entries|
    decreases i
  {
    a == i || (i > 0 && Above(entries, a, entries[i].parent))
  }

  /** A subtree that does not hold the new node's parent keeps its preorder. */
  lemma {:induction false} PreorderElsewhere(entries: Entries, e: Entry, i: nat)
    requires ParentsFirst(entries) && e.parent < |entries| && i < |entries|
    requires !Above(entries, i, e.parent)
    ensures ParentsFirst(entries + [e])
    ensures Preorder(entries + [e], i) == Preorder(entries, i)
    decreases |entries| - i, 1
  {
    KidsGrow(entries, e, i);
    PreorderKidsElsewhere(entries, e, i, |Kids(entries, i)|);
  }

  lemma {:induction false} PreorderKidsElsewhere(entries: Entries, e: Entry, i: nat, k: nat)
    requires ParentsFirst(entries) && e.parent < |entries| && i < |entries|
    requires k <= |Kids(entries, i)| && Kids(entries, i) <= Kids(entries + [e], i)
    requires forall c | 0 <= c < k :: !Above(entries, Kids(entries, i)[c], e.parent) || !Above(entries, i, e.parent)
    ensures ParentsFirst(entries + [e])
    ensures PreorderKids(entries + [e], i, k) == PreorderKids(entries, i, k)
    decreases |entries| - i, 0, k
  {
    if k > 0 {
      hide Kids, Above, Preorder;
      PreorderKidsElsewhere(entries, e, i, k - 1);
      var child := Kids(entries, i)[k - 1];
      assert entries[child].parent == i;
      if !Above(entries, i, e.parent) {
        NotAboveChild(entries, i, child, e.parent);
      }
      PreorderElsewhere(entries, e, child);
    }
  }

  lemma {:induction false} NotAboveChild(entries: Entries, i: nat, child: nat, p: nat)
    requires ParentsFirst(entries) && p < |entries| && 0 < child < |entries| && entries[child].parent == i
    requires !Above(entries, i, p)
    ensures !Above(entries, child, p)
    decreases p
  {
    if p > 0 && p != child {
      NotAboveChild(entries, i, child, entries[p].parent);
    }
  }

  /** Only one child of a node is above a given descendant. */
  lemma {:induction false} OneChildAbove(entries: Entries, c: nat, d: nat, p: nat)
    requires ParentsFirst(entries) && p < |entries| && 0 < c < |entries| && 0 < d < |entries|
    requires entries[c].parent == entries[d].parent && c != d
    requires Above(entries, c, p)
    ensures !Above(entries, d, p)
    decreases p
  {
    if p == c {
      BelowIsLater(entries, d, c);
    } else if p == d {
      BelowIsLater(entries, c, d);
    } else {
      OneChildAbove(entries, c, d, entries[p].parent);
    }
  }

  /** Ancestors are earlier, so siblings are never above each other. */
  lemma {:induction false} BelowIsLater(entries: Entries, d: nat, c: nat)
    requires ParentsFirst(entries) && 0 < c < |entries| && 0 < d < |entries|
    requires entries[c].parent == entries[d].parent && c != d
    ensures !Above(entries, d, c)
  {
    AboveIsEarlier(entries, d, entries[c].parent);
  }

  lemma {:induction false} AboveIsEarlier(entries: Entries, a: nat, i: nat)
    requires ParentsFirst(entries) && i < |entries|
    ensures Above(entries, a, i) ==> a <= i
    decreases i
  {
    if i > 0 && a != i {
      AboveIsEarlier(entries, a, entries[i].parent);
    }
  }

  lemma {:induction false} SpineIsAbove(entries: Entries, spine: seq<nat>, k: nat, m: nat)
    requires ParentsFirst(entries) && LastChildren(entries, spine) && k <= m < |spine|
    ensures Above(entries, spine[k], spine[m])
  {
    if k < m {
      SpineIsAbove(entries, spine, k, m - 1);
      assert IsLastChild(entries, spine[m - 1], spine[m]);
      assert entries[spine[m]].parent == spine[m - 1];
    }
  }

  /** Added right under `i`, a node comes last in the preorder of `i`. */
  lemma AddedChildComesLast(entries: Entries, e: Entry, i: nat)
    requires ParentsFirst(entries) && i < |entries| && e.parent == i
    ensures ParentsFirst(entries + [e])
    ensures Preorder(entries + [e], i) == Preorder(entries, i) + [|entries|]
  {
    var kids, more := Kids(entries, i), entries + [e];
    KidsGrow(entries, e, i);
    forall c | 0 <= c < |kids|
      ensures !Above(entries, kids[c], e.parent)
    {
      hide Above;
      AboveIsEarlier(entries, kids[c], e.parent);
    }
    hide Above, PreorderKids, Preorder, Kids;
    PreorderKidsElsewhere(entries, e, i, |kids|);
    NewLeaf(entries, e);
    LastKid(entries, i, |kids|);
    LastKid(more, i, |kids| + 1);
  }

  /** The preorder of a node ends in that of its last child. */
  lemma LastKid(entries: Entries, i: nat, k: nat)
    requires ParentsFirst(entries) && i < |entries| && k == |Kids(entries, i)|
    ensures k == 0 ==> Preorder(entries, i) == [i]
    ensures k > 0 ==>
      && i < Kids(entries, i)[k - 1]
      && Preorder(entries, i) == [i] + PreorderKids(entries, i, k - 1) + Preorder(entries, Kids(entries, i)[k - 1])
  {
  }

  /** If it comes last under the last child of `i`, it comes last under `i`. */
  lemma AddedBelowComesLast(entries: Entries, e: Entry, i: nat, child: nat)
    requires ParentsFirst(entries) && e.parent < |entries| && i < |entries| && child < |entries|
    requires IsLastChild(entries, i, child) && Above(entries, child, e.parent) && e.parent != i
    requires ParentsFirst(entries + [e])
    requires Preorder(entries + [e], child) == Preorder(entries, child) + [|entries|]
    ensures Preorder(entries + [e], i) == Preorder(entries, i) + [|entries|]
  {
    hide Above, PreorderKids, Preorder, Kids;
    var kids := Kids(entries, i);
    var last := |kids| - 1;
    KidsAscend(entries, i);
    KidsGrow(entries, e, i);
    forall c | 0 <= c < last
      ensures !Above(entries, kids[c], e.parent)
    {
      assert entries[kids[last]].parent == i;
      OneChildAbove(entries, child, kids[c], e.parent);
    }
    PreorderKidsElsewhere(entries, e, i, last);
    LastKid(entries, i, last + 1);
    LastKid(entries + [e], i, last + 1);
  }

  /** A node added under a node of the spine comes last in the preorder. */
  lemma {:induction false} AddedNodeComesLast(entries: Entries, e: Entry, spine: seq<nat>, m: nat, k: nat)
    requires ParentsFirst(entries) && LastChildren(entries, spine)
    requires k <= m < |spine| && e.parent == spine[m]
    ensures ParentsFirst(entries + [e])
    ensures Preorder(entries + [e], spine[k]) == Preorder(entries, spine[k]) + [|entries|]
    decreases m - k
  {
    if k == m {
      AddedChildComesLast(entries, e, spine[k]);
    } else {
      AddedNodeComesLast(entries, e, spine, m, k + 1);
      SpineIsAbove(entries, spine, k + 1, m);
      NotSelf(entries, spine, k, m);
      AddedBelowComesLast(entries, e, spine[k], spine[k + 1]);
    }
  }

  lemma {:induction false} NotSelf(entries: Entries, spine: seq<nat>, k: nat, m: nat)
    requires ParentsFirst(entries) && LastChildren(entries, spine) && k < m < |spine|
    ensures spine[k] < spine[m]
  {
    assert IsLastChild(entries, spine[m - 1], spine[m]);
    assert entries[spine[m]].parent == spine[m - 1];
    if k < m - 1 {
      NotSelf(entries, spine, k, m - 1);
    }
  }

  lemma NewLeaf(entries: Entries, e: Entry)
    requires ParentsFirst(entries) && e.parent < |entries|
    ensures ParentsFirst(entries + [e])
    ensures Preorder(entries + [e], |entries|) == [|entries|]
  {
    assert Kids(entries + [e], |entries|) == [];
  }

  /** The preorder of a tree grown that way is the order of creation. */
  ghost predicate InOrder(entries: Entries) {
    && ParentsFirst(entries)
    && Preorder(entries, 0) == seq(|entries|, (i: nat) => i)
  }

  lemma GrowInOrder(entries: Entries, e: Entry, spine: seq<nat>, m: nat)
    requires InOrder(entries) && LastChildren(entries, spine)
    requires m < |spine| && e.parent == spine[m]
    ensures InOrder(entries + [e])
    ensures LastChildren(entries + [e], spine[..m + 1] + [|entries|])
    ensures LastChildren(entries + [e], spine[..m + 1])
  {
    hide Preorder, Kids;
    AddedNodeComesLast(entries, e, spine, m, 0);
    assert seq(|entries| + 1, (i: nat) => i) == seq(|entries|, (i: nat) => i) + [|entries|];
    var more := entries + [e];
    forall k | 0 <= k < m
      ensures IsLastChild(more, spine[k], spine[k + 1])
    {
      assert IsLastChild(entries, spine[k], spine[k + 1]);
      KidsGrow(entries, e, spine[k]);
      NotSelf(entries, spine, k, m);
    }
    KidsGrow(entries, e, spine[m]);
    assert IsLastChild(more, spine[m], |entries|);
  }
}
