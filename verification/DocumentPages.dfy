/** Page texts put together into one text, and the page that an offset falls on. */
module DocumentPages {
  import opened TextLines

  /** 1-based: every page start from the second up to this page's is at or before `at`. */
  function PageUpTo(starts: seq<nat>, at: nat, index: nat): (page: nat)
    decreases |starts| - index
    ensures page > index
  {
    if index + 1 < |starts| && at >= starts[index + 1] then PageUpTo(starts, at, index + 1) else index + 1
  }

  function PageAt(starts: seq<nat>, at: nat): nat {
    PageUpTo(starts, at, 0)
  }

  /** The page cursor only moves forward, so it may go on from where the last, smaller offset left it. */
  lemma {:induction false} CursorMayStay(starts: seq<nat>, before: nat, at: nat, index: nat)
    requires before <= at
    ensures PageUpTo(starts, at, PageUpTo(starts, before, index) - 1) == PageUpTo(starts, at, index)
    decreases |starts| - index
  {
    if index + 1 < |starts| && before >= starts[index + 1] {
      CursorMayStay(starts, before, at, index + 1);
    }
  }

  ghost predicate Sorted(starts: seq<nat>) {
    forall i, j | 0 <= i <= j < |starts| :: starts[i] <= starts[j]
  }

  /** `page`, counting from 1, is the last one that starts at or before `at`. */
  ghost predicate IsLastStarted(starts: seq<nat>, at: nat, page: nat) {
    && 0 < page <= |starts| && starts[page - 1] <= at
    && (forall q | page <= q < |starts| :: at < starts[q])
  }

  lemma LastStartedIsUnique(starts: seq<nat>, at: nat, p: nat, q: nat)
    requires IsLastStarted(starts, at, p) && IsLastStarted(starts, at, q)
    ensures p == q
  {
    assert starts[p - 1] <= at && starts[q - 1] <= at;
  }

  /** With page starts in order the cursor finds the last page that has started. */
  lemma {:induction false} PageAtIsTheLastStarted(starts: seq<nat>, at: nat, index: nat)
    requires Sorted(starts) && index < |starts| && starts[index] <= at
    ensures IsLastStarted(starts, at, PageUpTo(starts, at, index))
    decreases |starts| - index
  {
    if index + 1 < |starts| && at >= starts[index + 1] {
      PageAtIsTheLastStarted(starts, at, index + 1);
    }
  }

  const PAGE_BREAK := "\n\n"

  /** Where page text `i` starts: after those before it and a break behind each. */
  function PageStart(parts: seq<string>, i: nat): nat
    requires i <= |parts|
  {
    if i == 0 then 0 else PageStart(parts, i - 1) + |parts[i - 1]| + 2
  }

  lemma {:induction false} PageStartShift(parts: seq<string>, i: nat)
    requires 1 <= i <= |parts|
    ensures PageStart(parts, i) == |parts[0]| + 2 + PageStart(parts[1..], i - 1)
  {
    if i > 1 {
      PageStartShift(parts, i - 1);
    }
  }

  /** Each page text stands in the joined text at its start. */
  lemma {:induction false} PageStandsAtStart(parts: seq<string>, i: nat)
    requires i < |parts|
    ensures PageStart(parts, i) + |parts[i]| <= |JoinWith(PAGE_BREAK, parts)|
    ensures JoinWith(PAGE_BREAK, parts)[PageStart(parts, i)..PageStart(parts, i) + |parts[i]|] == parts[i]
  {
    if |parts| > 1 {
      var head, tail := parts[0] + PAGE_BREAK, JoinWith(PAGE_BREAK, parts[1..]);
      assert JoinWith(PAGE_BREAK, parts) == head + tail;
      if i == 0 {
        assert (head + tail)[..|parts[0]|] == parts[0];
      } else {
        PageStartShift(parts, i);
        PageStandsAtStart(parts[1..], i - 1);
        SliceOfTail(head, tail, PageStart(parts[1..], i - 1), |parts[i]|);
      }
    }
  }

  lemma {:induction false} PageStartsAscend(parts: seq<string>, i: nat, j: nat)
    requires i < j <= |parts|
    ensures PageStart(parts, i) + |parts[i]| + 2 <= PageStart(parts, j)
  {
    if i < j - 1 {
      PageStartsAscend(parts, i, j - 1);
    }
  }

  function PageStarts(parts: seq<string>): (starts: seq<nat>)
    ensures |starts| == |parts|
  {
    seq(|parts|, (i: nat) requires i < |parts| => PageStart(parts, i))
  }

  lemma PageStartsAreSorted(parts: seq<string>)
    ensures Sorted(PageStarts(parts))
  {
    hide PageStart;
    var starts := PageStarts(parts);
    forall a, b | 0 <= a <= b < |starts|
      ensures starts[a] <= starts[b]
    {
      if a < b {
        PageStartsAscend(parts, a, b);
      }
    }
  }

  lemma OwnPageIsLastStarted(parts: seq<string>, i: nat, at: nat)
    requires i < |parts|
    requires PageStart(parts, i) <= at < PageStart(parts, i) + |parts[i]| + 2
    ensures IsLastStarted(PageStarts(parts), at, i + 1)
  {
    hide PageStart;
    forall q | i < q < |parts|
      ensures at < PageStarts(parts)[q]
    {
      PageStartsAscend(parts, i, q);
    }
  }

  /** An offset inside the text of page `i`, or in the break behind it, is on page `i + 1`, counting from 1. */
  lemma PageOfItsOwnText(parts: seq<string>, i: nat, at: nat)
    requires i < |parts|
    requires PageStart(parts, i) <= at < PageStart(parts, i) + |parts[i]| + 2
    ensures PageAt(PageStarts(parts), at) == i + 1
  {
    var starts := PageStarts(parts);
    assert starts[0] <= at;
    PageStartsAreSorted(parts);
    OwnPageIsLastStarted(parts, i, at);
    PageAtIsTheLastStarted(starts, at, 0);
    LastStartedIsUnique(starts, at, i + 1, PageAt(starts, at));
  }

  /** `joinPages`: one text for all pages, and where each begins. */
  method JoinPages(pages: seq<seq<string>>) returns (text: string, starts: seq<nat>)
    ensures
      var parts := seq(|pages|, (i: nat) requires i < |pages| => JoinWith(PAGE_BREAK, pages[i]));
      text == JoinWith(PAGE_BREAK, parts) && starts == if pages == [] then [0] else PageStarts(parts)
  {
    ghost var all := seq(|pages|, (i: nat) requires i < |pages| => JoinWith(PAGE_BREAK, pages[i]));
    var parts: seq<string> := [];
    starts := [];
    var offset := 0;
    for i := 0 to |pages|
      invariant parts == all[..i] && starts == PageStarts(all)[..i]
      invariant offset == PageStart(all, i)
    {
      starts := starts + [offset];
      var part := JoinWith(PAGE_BREAK, pages[i]);
      parts := parts + [part];
      offset := offset + |part| + 2;
    }
    assert parts == all && starts == PageStarts(all);
    text := JoinWith(PAGE_BREAK, parts);
    if |starts| == 0 {
      starts := [0];
    }
  }
}
