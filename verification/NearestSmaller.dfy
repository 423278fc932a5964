/**
 * The nearest-smaller rule that nests headings and list items: which earlier
 * position is the last one with a smaller key, and the stack that answers it.
 */
module NearestSmaller {
  import opened Wrappers

  /** One key per token; tokens that do not take part have none. */
  type Keys = seq<Option<nat>>

  /** The last position whose key is below `k`, if there is one. */
  ghost predicate IsNearest(keys: Keys, k: nat, at: Option<nat>) {
    match at
    case None => forall u | 0 <= u < |keys| && keys[u].Some? :: keys[u].value >= k
    case Some(s) =>
      && s < |keys| && keys[s].Some? && keys[s].value < k
      && forall u | s < u < |keys| && keys[u].Some? :: keys[u].value >= k
  }

  /** Every position on the stack has a key. */
  ghost predicate OnKeys(stack: seq<nat>, keys: Keys) {
    forall j | 0 <= j < |stack| :: stack[j] < |keys| && keys[stack[j]].Some?
  }

  ghost predicate Ascending(stack: seq<nat>, keys: Keys)
    requires OnKeys(stack, keys)
  {
    forall i, j | 0 <= i < j < |stack| ::
      stack[i] < stack[j] && keys[stack[i]].value < keys[stack[j]].value
  }

  /** Entry `j` of the stack is at or after `u` and has a key no larger. */
  ghost predicate CoveredBy(stack: seq<nat>, keys: Keys, u: nat, j: nat) {
    && j < |stack| && u <= stack[j] < |keys| && keys[u].Some? && keys[stack[j]].Some?
    && keys[stack[j]].value <= keys[u].value
  }

  ghost predicate Covered(stack: seq<nat>, keys: Keys, u: nat) {
    exists j: nat :: CoveredBy(stack, keys, u, j)
  }

  /** A stack of positions, strictly ascending in position and key, that answers every such query. */
  ghost predicate Answers(stack: seq<nat>, keys: Keys) {
    && OnKeys(stack, keys)
    && Ascending(stack, keys)
    && (forall u | 0 <= u < |keys| && keys[u].Some? :: Covered(stack, keys, u))
  }

  /** Popping everything with a key of at least `k` leaves `m` positions. */
  ghost predicate PopsTo(stack: seq<nat>, keys: Keys, k: nat, m: nat) {
    && m <= |stack|
    && OnKeys(stack, keys)
    && (m > 0 ==> keys[stack[m - 1]].value < k)
    && (forall j | m <= j < |stack| :: keys[stack[j]].value >= k)
  }

  /** What the popping loop leaves on top is the nearest smaller position. */
  lemma TopIsNearest(stack: seq<nat>, keys: Keys, k: nat, m: nat)
    requires Answers(stack, keys) && PopsTo(stack, keys, k, m)
    ensures IsNearest(keys, k, if m == 0 then None else Some(stack[m - 1]))
  {
    assert forall j | 0 <= j < m :: stack[j] <= stack[m - 1];
    forall u | 0 <= u < |keys| && keys[u].Some? && (m > 0 ==> stack[m - 1] < u)
      ensures keys[u].value >= k
    {
      assert Covered(stack, keys, u);
      var j: nat :| CoveredBy(stack, keys, u, j);
    }
  }

  /** The top of the stack is the last position with a key at all. */
  ghost predicate IsLast(keys: Keys, at: Option<nat>) {
    match at
    case None => forall u | 0 <= u < |keys| :: keys[u].None?
    case Some(s) => s < |keys| && keys[s].Some? && forall u | s < u < |keys| :: keys[u].None?
  }

  lemma TopIsLast(stack: seq<nat>, keys: Keys)
    requires Answers(stack, keys)
    ensures IsLast(keys, if stack == [] then None else Some(stack[|stack| - 1]))
  {
    var m := |stack|;
    assert forall j | 0 <= j < m :: stack[j] <= stack[m - 1];
    forall u | 0 <= u < |keys| && (m > 0 ==> stack[m - 1] < u)
      ensures keys[u].None?
    {
      assert forall j: nat :: !CoveredBy(stack, keys, u, j);
      assert !Covered(stack, keys, u);
    }
  }

  lemma PushAnswers(stack: seq<nat>, keys: Keys, k: nat, m: nat)
    requires Answers(stack, keys) && PopsTo(stack, keys, k, m)
    ensures Answers(stack[..m] + [|keys|], keys + [Some(k)])
  {
    var later, more := stack[..m] + [|keys|], keys + [Some(k)];
    PushAscends(stack, keys, k, m);
    forall u | 0 <= u < |more| && more[u].Some?
      ensures Covered(later, more, u)
    {
      if u == |keys| {
        assert CoveredBy(later, more, u, m);
      } else {
        assert Covered(stack, keys, u);
        var j: nat :| CoveredBy(stack, keys, u, j);
        PushCovers(stack, keys, k, m, u, j);
      }
    }
  }

  lemma PushAscends(stack: seq<nat>, keys: Keys, k: nat, m: nat)
    requires PopsTo(stack, keys, k, m) && Ascending(stack, keys)
    ensures OnKeys(stack[..m] + [|keys|], keys + [Some(k)])
    ensures Ascending(stack[..m] + [|keys|], keys + [Some(k)])
  {
    assert forall i | 0 <= i < m - 1 :: keys[stack[i]].value < keys[stack[m - 1]].value;
  }

  lemma PushCovers(stack: seq<nat>, keys: Keys, k: nat, m: nat, u: nat, j: nat)
    requires PopsTo(stack, keys, k, m) && u < |keys| && CoveredBy(stack, keys, u, j)
    ensures Covered(stack[..m] + [|keys|], keys + [Some(k)], u)
  {
    assert CoveredBy(stack[..m] + [|keys|], keys + [Some(k)], u, if j < m then j else m);
  }

  lemma SkipAnswers(stack: seq<nat>, keys: Keys)
    requires Answers(stack, keys)
    ensures Answers(stack, keys + [None])
  {
    var more := keys + [None];
    forall u | 0 <= u < |more| && more[u].Some?
      ensures Covered(stack, more, u)
    {
      assert Covered(stack, keys, u);
      var j: nat :| CoveredBy(stack, keys, u, j);
      assert CoveredBy(stack, more, u, j);
    }
  }
}
