/** Two dimensions of the meeting evaluation: human control, and the spread of airtime. */
module Evals {
  import opened Wrappers
  import opened TurnPolicy

  // ------------------------------------------------------------------------
  // Handoff
  // ------------------------------------------------------------------------

  /** A takeover note is newer than any hand-back or resume note. */
  function UnderHumanControl(log: seq<Message>): bool {
    if log == [] then false
    else
      var m := log[|log| - 1];
      if m.kind == System && m.note == TookOver then true
      else if m.kind == System && (m.note == HandedBack || m.note == Resumed) then false
      else UnderHumanControl(log[..|log| - 1])
  }

  predicate IsNote(m: Message, note: Note) {
    m.kind == System && m.note == note
  }

  /** Message `i` is a takeover, and nobody has handed back or resumed since. */
  ghost predicate HeldSince(log: seq<Message>, i: nat) {
    && i < |log| && IsNote(log[i], TookOver)
    && forall j | i < j < |log| :: !IsNote(log[j], HandedBack) && !IsNote(log[j], Resumed)
  }

  lemma {:induction false} HeldSinceTakeover(log: seq<Message>)
    ensures UnderHumanControl(log) <==> exists i: nat :: HeldSince(log, i)
  {
    if log != [] {
      var n := |log| - 1;
      HeldSinceTakeover(log[..n]);
      if IsNote(log[n], TookOver) {
        assert HeldSince(log, n);
      } else if UnderHumanControl(log[..n]) && !IsNote(log[n], HandedBack) && !IsNote(log[n], Resumed) {
        var i: nat :| HeldSince(log[..n], i);
        assert HeldSince(log, i);
      } else {
        assert forall i: nat | i < n && HeldSince(log, i) :: HeldSince(log[..n], i);
      }
    }
  }

  predicate AgentTurn(m: Message) {
    m.kind != System && m.author.kind == Agent && m.author.id != "system"
  }

  /** Message `i` is an agent turn while a human holds the floor. */
  predicate Violates(log: seq<Message>, i: nat)
    requires i < |log|
  {
    AgentTurn(log[i]) && UnderHumanControl(log[..i])
  }

  /** The one-pass scorer, with its flag and its counters. */
  method ScoreHandoff(log: seq<Message>) returns (score: nat, takeovers: nat)
    ensures score == 1 <==> forall i | 0 <= i < |log| :: !Violates(log, i)
    ensures score <= 1
    ensures takeovers == 0 <==> forall i | 0 <= i < |log| :: !(log[i].kind == System && log[i].note == TookOver)
  {
    var underHumanControl, violations := false, 0;
    takeovers := 0;
    for k := 0 to |log|
      invariant underHumanControl == UnderHumanControl(log[..k])
      invariant violations == 0 <==> forall i | 0 <= i < k :: !Violates(log, i)
      invariant takeovers == 0 <==> forall i | 0 <= i < k :: !(log[i].kind == System && log[i].note == TookOver)
    {
      var m := log[k];
      assert log[..k + 1][..k] == log[..k];
      assert Violates(log, k) <==> AgentTurn(m) && underHumanControl;
      if m.kind == System {
        if m.note == TookOver {
          underHumanControl := true;
          takeovers := takeovers + 1;
        } else if m.note == HandedBack || m.note == Resumed {
          underHumanControl := false;
        }
      } else if underHumanControl && m.author.kind == Agent && m.author.id != "system" {
        violations := violations + 1;
      }
    }
    assert log[..|log|] == log;
    score := if violations == 0 then 1 else 0;
  }

  // ------------------------------------------------------------------------
  // Participation
  // ------------------------------------------------------------------------

  function Total(counts: seq<nat>): nat {
    if counts == [] then 0 else Total(counts[..|counts| - 1]) + counts[|counts| - 1]
  }

  /** The sum of (position + 1) times count. */
  function Weighted(counts: seq<nat>): nat {
    if counts == [] then 0 else Weighted(counts[..|counts| - 1]) + |counts| * counts[|counts| - 1]
  }

  predicate Sorted(counts: seq<nat>) {
    forall i, j | 0 <= i < j < |counts| :: counts[i] <= counts[j]
  }

  /** n times total times the Gini coefficient: an integer. */
  function Spread(counts: seq<nat>): int {
    2 * Weighted(counts) - (|counts| + 1) * Total(counts)
  }

  lemma {:induction false} TotalBound(counts: seq<nat>, top: nat)
    requires forall i | 0 <= i < |counts| :: counts[i] <= top
    ensures Total(counts) <= |counts| * top
    ensures Total(counts) == |counts| * top <==> forall i | 0 <= i < |counts| :: counts[i] == top
  {
    if counts != [] {
      var n := |counts| - 1;
      TotalBound(counts[..n], top);
      assert |counts| * top == n * top + top;
      assert forall i | 0 <= i < n :: counts[..n][i] == counts[i];
    }
  }

  /** Adding a largest count adds what the others lack to it. */
  lemma SpreadGrows(counts: seq<nat>)
    requires counts != []
    ensures var n := |counts| - 1;
      Spread(counts) == Spread(counts[..n]) + n * counts[n] - Total(counts[..n])
  {
    var n := |counts| - 1;
    var w, t, c := Weighted(counts[..n]), Total(counts[..n]), counts[n];
    assert |counts[..n]| == n;
    assert Spread(counts) == 2 * (w + (n + 1) * c) - (n + 2) * (t + c);
    assert (n + 2) * (t + c) == (n + 1) * t + t + (n + 2) * c;
  }

  function Distance(a: nat, b: nat): nat {
    if a <= b then b - a else a - b
  }

  /** How far the counts lie from `c`, all together. */
  function DistanceTo(counts: seq<nat>, c: nat): nat {
    if counts == [] then 0 else DistanceTo(counts[..|counts| - 1], c) + Distance(counts[|counts| - 1], c)
  }

  /** The differences between the counts, over all pairs of participants. */
  function Differences(counts: seq<nat>): nat {
    if counts == [] then 0
    else Differences(counts[..|counts| - 1]) + DistanceTo(counts[..|counts| - 1], counts[|counts| - 1])
  }

  lemma {:induction false} DistanceFromAbove(counts: seq<nat>, top: nat)
    requires forall i | 0 <= i < |counts| :: counts[i] <= top
    ensures DistanceTo(counts, top) == |counts| * top - Total(counts)
  {
    if counts != [] {
      var n := |counts| - 1;
      DistanceFromAbove(counts[..n], top);
      assert |counts| * top == n * top + top;
      assert forall i | 0 <= i < n :: counts[..n][i] == counts[i];
    }
  }

  /** The spread of sorted counts is the sum of the differences of all pairs. */
  lemma {:induction false} SpreadIsDifferences(counts: seq<nat>)
    requires Sorted(counts)
    ensures Spread(counts) == Differences(counts)
  {
    if counts != [] {
      var n := |counts| - 1;
      SpreadIsDifferences(counts[..n]);
      SpreadGrows(counts);
      DistanceFromAbove(counts[..n], counts[n]);
    }
  }

  /** All counts are equal. */
  ghost predicate Even(counts: seq<nat>) {
    forall i, j | 0 <= i < j < |counts| :: counts[i] == counts[j]
  }

  /** One participant took every turn. */
  predicate Monologue(counts: seq<nat>) {
    Total(counts) in counts
  }

  lemma {:induction false} SpreadIsZeroWhenEven(counts: seq<nat>)
    requires Sorted(counts)
    ensures Spread(counts) >= 0
    ensures Spread(counts) == 0 <==> Even(counts)
  {
    if counts != [] {
      var n := |counts| - 1;
      SpreadIsZeroWhenEven(counts[..n]);
      SpreadGrows(counts);
      TotalBound(counts[..n], counts[n]);
      assert forall i | 0 <= i < n :: counts[..n][i] == counts[i];
    }
  }

  lemma {:induction false} SpreadIsBounded(counts: seq<nat>)
    requires Sorted(counts) && counts != []
    ensures Spread(counts) <= (|counts| - 1) * Total(counts)
  {
    var n := |counts| - 1;
    var t, top := Total(counts[..n]), counts[n];
    SpreadGrows(counts);
    Distribute(n, t, top);
    if n > 0 {
      SpreadIsBounded(counts[..n]);
      assert Spread(counts[..n]) <= (n - 1) * t;
    }
  }

  lemma Distribute(n: int, t: int, top: int)
    ensures n * (t + top) == n * t + n * top
    ensures (n - 1) * t == n * t - t
  {
  }

  lemma InitIsSorted(counts: seq<nat>)
    requires Sorted(counts) && counts != []
    ensures Sorted(counts[..|counts| - 1])
    ensures Total(counts) == Total(counts[..|counts| - 1]) + counts[|counts| - 1]
  {
  }

  lemma SpreadIsFullForAMonologue(counts: seq<nat>)
    requires Sorted(counts) && counts != []
    ensures Spread(counts) == (|counts| - 1) * Total(counts) <==> Total(counts[..|counts| - 1]) == 0
  {
    hide Spread, Sorted, Total, Even;
    var n := |counts| - 1;
    var init, top := counts[..n], counts[n];
    InitIsSorted(counts);
    SpreadGrows(counts);
    SpreadIsZeroWhenEven(init);
    if n > 0 {
      SpreadIsBounded(init);
    } else {
      NothingCounts(init);
    }
    Slack(n, Total(init), top, Spread(init));
  }

  lemma NothingCounts(counts: seq<nat>)
    requires counts == []
    ensures Total(counts) == 0 && Spread(counts) == 0
  {
  }

  lemma Slack(n: nat, t: nat, top: nat, spread: nat)
    requires if n == 0 then t == 0 && spread == 0 else spread <= (n - 1) * t
    ensures spread + n * top - t == n * (t + top) <==> t == 0
  {
    Distribute(n, t, top);
  }

  lemma {:induction false} PartsAreWithinTotal(counts: seq<nat>, i: nat)
    requires i < |counts|
    ensures counts[i] <= Total(counts)
  {
    if i < |counts| - 1 {
      PartsAreWithinTotal(counts[..|counts| - 1], i);
    }
  }

  lemma MonologueIsLast(counts: seq<nat>)
    requires Sorted(counts) && counts != []
    ensures Monologue(counts) <==> Total(counts[..|counts| - 1]) == 0
  {
    var n := |counts| - 1;
    if Monologue(counts) {
      var i :| 0 <= i < |counts| && counts[i] == Total(counts);
      PartsAreWithinTotal(counts, n);
    }
  }

  /** The score as the code computes it, over exact reals and without its clamp. */
  function ScoreFrom(participants: nat, turns: nat, weighted: nat): real
    requires participants >= 2 && turns > 0
  {
    1.0 - Gini(participants as real, turns as real, weighted as real) / WorstCase(participants as real)
  }

  function Gini(n: real, total: real, weighted: real): real
    requires n >= 2.0 && total > 0.0
  {
    2.0 * weighted / (n * total) - (n + 1.0) / n
  }

  /** The raw coefficient tops out here, at a monologue. */
  function WorstCase(n: real): (ceiling: real)
    requires n >= 2.0
    ensures ceiling > 0.0
  {
    (n - 1.0) / n
  }

  function RawScore(sorted: seq<nat>): real
    requires |sorted| >= 2 && Total(sorted) > 0
  {
    ScoreFrom(|sorted|, Total(sorted), Weighted(sorted))
  }

  /** The two divisions cleared: the score is one less the spread over its ceiling. */
  lemma ScoreIsRelativeSpread(n: nat, total: nat, w: nat)
    requires n >= 2 && total > 0
    ensures (n - 1) * total > 0
    ensures ScoreFrom(n, total, w) == 1.0 - ((2 * w - (n + 1) * total) as real) / (((n - 1) * total) as real)
  {
    var x, t, v := n as real, total as real, w as real;
    GiniOverCeiling(x, t, v);
    RealProducts(n, total, w);
    var spread, ceiling := (2 * w - (n + 1) * total) as real, ((n - 1) * total) as real;
    assert spread == 2.0 * v - (x + 1.0) * t && ceiling == (x - 1.0) * t;
    assert ScoreFrom(n, total, w) == 1.0 - spread / ceiling;
  }

  lemma RealProducts(n: nat, total: nat, w: nat)
    requires n >= 2 && total > 0
    ensures (n - 1) * total > 0
    ensures ((n - 1) * total) as real == (n as real - 1.0) * (total as real)
    ensures (2 * w - (n + 1) * total) as real == 2.0 * (w as real) - (n as real + 1.0) * (total as real)
  {
    Product(n - 1, total);
    Product(n + 1, total);
  }

  lemma {:induction false} Product(a: nat, b: nat)
    ensures (a * b) as real == (a as real) * (b as real)
  {
    if a > 0 {
      Product(a - 1, b);
      assert a * b == (a - 1) * b + b;
      assert (a as real) * (b as real) == ((a - 1) as real) * (b as real) + (b as real);
    }
  }

  lemma GiniOverCeiling(n: real, total: real, w: real)
    requires n >= 2.0 && total > 0.0
    ensures (n - 1.0) * total > 0.0
    ensures Gini(n, total, w) / WorstCase(n) == (2.0 * w - (n + 1.0) * total) / ((n - 1.0) * total)
  {
    var gini, spread := Gini(n, total, w), 2.0 * w - (n + 1.0) * total;
    assert gini * (n * total) == spread by {
      assert 2.0 * w / (n * total) * (n * total) == 2.0 * w;
      assert (n + 1.0) / n * n == n + 1.0;
      assert (n + 1.0) / n * (n * total) == ((n + 1.0) / n * n) * total;
    }
    var q := gini / WorstCase(n);
    assert q * WorstCase(n) == gini;
    assert WorstCase(n) * n == n - 1.0;
    assert q * ((n - 1.0) * total) == q * ((WorstCase(n) * n) * total);
    assert q * ((WorstCase(n) * n) * total) == (q * WorstCase(n)) * (n * total);
    assert q * ((n - 1.0) * total) == spread;
  }

  /**
   * Without its clamp the score lies in [0, 1]; it is 1 exactly for an even
   * spread and 0 exactly when one participant took every turn.
   */
  lemma ScoreMeansBalance(sorted: seq<nat>)
    requires |sorted| >= 2 && Total(sorted) > 0 && Sorted(sorted)
    ensures 0.0 <= RawScore(sorted) <= 1.0
    ensures RawScore(sorted) == 1.0 <==> Even(sorted)
    ensures RawScore(sorted) == 0.0 <==> Monologue(sorted)
  {
    SpreadIsZeroWhenEven(sorted);
    SpreadIsFullForAMonologue(sorted);
    MonologueIsLast(sorted);
    SpreadIsBounded(sorted);
    ScoreIsRelativeSpread(|sorted|, Total(sorted), Weighted(sorted));
    Ratio(Spread(sorted), (|sorted| - 1) * Total(sorted));
  }

  lemma Ratio(a: int, b: int)
    requires 0 <= a <= b && 0 < b
    ensures 0.0 <= (a as real) / (b as real) <= 1.0
    ensures (a as real) / (b as real) == 0.0 <==> a == 0
    ensures (a as real) / (b as real) == 1.0 <==> a == b
  {
    var x, y := a as real, b as real;
    assert x / y * y == x;
    Scale(x / y, y);
  }

  lemma Scale(q: real, y: real)
    requires y > 0.0
    ensures q * y < 0.0 <==> q < 0.0
    ensures q * y > y <==> q > 1.0
    ensures q * y == 0.0 <==> q == 0.0
    ensures q * y == y <==> q == 1.0
  {
  }

  /** Insertion keeps a list of counts sorted. */
  function Insert(sorted: seq<nat>, c: nat): (r: seq<nat>)
    requires Sorted(sorted)
    ensures Sorted(r)
    ensures forall x | x in r :: x == c || x in sorted
  {
    var n := |sorted| - 1;
    if sorted == [] || sorted[n] <= c then sorted + [c]
    else
      var front := Insert(sorted[..n], c);
      assert forall i | 0 <= i < |front| :: front[i] in front;
      front + [sorted[n]]
  }

  lemma {:induction false} InsertAdds(sorted: seq<nat>, c: nat)
    requires Sorted(sorted)
    ensures multiset(Insert(sorted, c)) == multiset(sorted) + multiset{c}
    ensures |Insert(sorted, c)| == |sorted| + 1
  {
    var n := |sorted| - 1;
    if !(sorted == [] || sorted[n] <= c) {
      InsertAdds(sorted[..n], c);
      assert sorted == sorted[..n] + [sorted[n]];
    }
  }

  lemma {:induction false} InsertAddsToTotal(sorted: seq<nat>, c: nat)
    requires Sorted(sorted)
    ensures Total(Insert(sorted, c)) == Total(sorted) + c
  {
    var n := |sorted| - 1;
    if sorted == [] || sorted[n] <= c {
      assert (sorted + [c])[..|sorted|] == sorted;
    } else {
      InsertAddsToTotal(sorted[..n], c);
      var front := Insert(sorted[..n], c);
      assert (front + [sorted[n]])[..|front|] == front;
    }
  }

  function SortCounts(counts: seq<nat>): (r: seq<nat>)
    ensures Sorted(r)
  {
    if counts == [] then [] else Insert(SortCounts(counts[..|counts| - 1]), counts[|counts| - 1])
  }

  /** The sorted counts are a permutation of the counts. */
  lemma {:induction false} SortingPermutes(counts: seq<nat>)
    ensures multiset(SortCounts(counts)) == multiset(counts)
    ensures Total(SortCounts(counts)) == Total(counts)
    ensures |SortCounts(counts)| == |counts|
  {
    if counts != [] {
      var n := |counts| - 1;
      assert counts == counts[..n] + [counts[n]];
      SortingPermutes(counts[..n]);
      InsertAdds(SortCounts(counts[..n]), counts[n]);
      InsertAddsToTotal(SortCounts(counts[..n]), counts[n]);
    }
  }

  lemma {:induction false} InsertAddsDistance(sorted: seq<nat>, c: nat, x: nat)
    requires Sorted(sorted)
    ensures DistanceTo(Insert(sorted, c), x) == DistanceTo(sorted, x) + Distance(c, x)
  {
    var n := |sorted| - 1;
    if sorted == [] || sorted[n] <= c {
      assert (sorted + [c])[..|sorted|] == sorted;
    } else {
      InsertAddsDistance(sorted[..n], c, x);
      var front := Insert(sorted[..n], c);
      assert (front + [sorted[n]])[..|front|] == front;
    }
  }

  lemma {:induction false} InsertAddsDifferences(sorted: seq<nat>, c: nat)
    requires Sorted(sorted)
    ensures Differences(Insert(sorted, c)) == Differences(sorted) + DistanceTo(sorted, c)
  {
    var n := |sorted| - 1;
    if sorted == [] || sorted[n] <= c {
      assert (sorted + [c])[..|sorted|] == sorted;
    } else {
      InsertAddsDifferences(sorted[..n], c);
      InsertAddsDistance(sorted[..n], c, sorted[n]);
      var front := Insert(sorted[..n], c);
      assert (front + [sorted[n]])[..|front|] == front;
    }
  }

  lemma {:induction false} SortingKeepsDistance(counts: seq<nat>, c: nat)
    ensures DistanceTo(SortCounts(counts), c) == DistanceTo(counts, c)
  {
    if counts != [] {
      var n := |counts| - 1;
      SortingKeepsDistance(counts[..n], c);
      InsertAddsDistance(SortCounts(counts[..n]), counts[n], c);
    }
  }

  /** The differences do not depend on the order of the counts. */
  lemma {:induction false} SortingKeepsDifferences(counts: seq<nat>)
    ensures Differences(SortCounts(counts)) == Differences(counts)
  {
    if counts != [] {
      var n := |counts| - 1;
      SortingKeepsDifferences(counts[..n]);
      SortingKeepsDistance(counts[..n], counts[n]);
      InsertAddsDifferences(SortCounts(counts[..n]), counts[n]);
    }
  }

  lemma EvenByMembers(counts: seq<nat>)
    ensures Even(counts) <==> forall c, d | c in counts && d in counts :: c == d
  {
    assert forall i | 0 <= i < |counts| :: counts[i] in counts;
    if Even(counts) {
      forall c, d | c in counts && d in counts
        ensures c == d
      {
        var i, j :| 0 <= i < |counts| && 0 <= j < |counts| && counts[i] == c && counts[j] == d;
      }
    }
  }

  lemma SortingKeepsTheShape(counts: seq<nat>)
    ensures Even(SortCounts(counts)) <==> Even(counts)
    ensures Monologue(SortCounts(counts)) <==> Monologue(counts)
  {
    var sorted := SortCounts(counts);
    SortingPermutes(counts);
    forall c: nat
      ensures c in sorted <==> c in counts
    {
      assert c in sorted <==> c in multiset(sorted);
      assert c in counts <==> c in multiset(counts);
    }
    EvenByMembers(sorted);
    EvenByMembers(counts);
  }

  lemma ScoreOfCounts(counts: seq<nat>)
    requires |counts| >= 2 && Total(counts) > 0
    ensures |SortCounts(counts)| == |counts| && Total(SortCounts(counts)) == Total(counts)
    ensures 0.0 <= RawScore(SortCounts(counts)) <= 1.0
    ensures RawScore(SortCounts(counts)) == 1.0 <==> Even(counts)
    ensures RawScore(SortCounts(counts)) == 0.0 <==> Monologue(counts)
  {
    SortingPermutes(counts);
    SortingKeepsTheShape(counts);
    ScoreMeansBalance(SortCounts(counts));
  }

  /** The score in terms of the counts as they come. */
  function BalanceOf(participants: nat, turns: nat, differences: nat): real
    requires participants >= 2 && turns > 0
  {
    Positive(participants, turns);
    1.0 - (differences as real) / (((participants - 1) * turns) as real)
  }

  lemma Positive(participants: nat, turns: nat)
    requires participants >= 2 && turns > 0
    ensures (participants - 1) * turns > 0
  {
  }

  lemma SpreadTerms(counts: seq<nat>)
    ensures Spread(counts) == 2 * Weighted(counts) - (|counts| + 1) * Total(counts)
  {
  }

  lemma ScoreFromDifferences(counts: seq<nat>)
    requires |counts| >= 2 && Total(counts) > 0
    ensures |SortCounts(counts)| == |counts| && Total(SortCounts(counts)) == Total(counts)
    ensures RawScore(SortCounts(counts)) == BalanceOf(|counts|, Total(counts), Differences(counts))
  {
    hide Spread, Differences, Weighted, Total, ScoreFrom, Sorted;
    var sorted := SortCounts(counts);
    SortingPermutes(counts);
    SpreadIsDifferences(sorted);
    SpreadTerms(sorted);
    SortingKeepsDifferences(counts);
    ScoreIsRelativeSpread(|sorted|, Total(sorted), Weighted(sorted));
  }

  /**
   * The dimension: the two special cases, and otherwise one less the
   * differences of all pairs over what a monologue makes of them, which the
   * clamp never changes.
   */
  method ScoreParticipation(counts: seq<nat>) returns (score: real)
    ensures Total(counts) == 0 ==> score == 0.0
    ensures Total(counts) > 0 && |counts| == 1 ==> score == 1.0
    ensures Total(counts) > 0 && |counts| >= 2 ==>
      && 0.0 <= score <= 1.0
      && (score == 1.0 <==> Even(counts))
      && (score == 0.0 <==> Monologue(counts))
      && score == BalanceOf(|counts|, Total(counts), Differences(counts))
  {
    var total := SumOf(counts);
    if |counts| <= 1 || total == 0 {
      return if total == 0 then 0.0 else 1.0;
    }
    var sorted := SortCounts(counts);
    ScoreOfCounts(counts);
    ScoreFromDifferences(counts);
    hide BalanceOf, ScoreFrom, Differences, Total, Weighted, Sorted;
    var weighted := WeightedSumOf(sorted);
    var raw := ScoreFrom(|counts|, total, weighted);
    assert raw == RawScore(sorted);
    score := if raw < 0.0 then 0.0 else if raw > 1.0 then 1.0 else raw;
  }

  method SumOf(counts: seq<nat>) returns (total: nat)
    ensures total == Total(counts)
  {
    total := 0;
    for i := 0 to |counts|
      invariant total == Total(counts[..i])
    {
      assert counts[..i + 1][..i] == counts[..i];
      total := total + counts[i];
    }
    assert counts[..|counts|] == counts;
  }

  method WeightedSumOf(sorted: seq<nat>) returns (weighted: nat)
    ensures weighted == Weighted(sorted)
  {
    weighted := 0;
    for i := 0 to |sorted|
      invariant weighted == Weighted(sorted[..i])
    {
      assert sorted[..i + 1][..i] == sorted[..i];
      weighted := weighted + (i + 1) * sorted[i];
    }
    assert sorted[..|sorted|] == sorted;
  }
}
