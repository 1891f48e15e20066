/** The sliding-overlap merger: which runs of splits become chunks. */
module ChunkWindows {
  import opened Common

  /** A run of consecutive splits, `start` included and `end` not. */
  datatype Window = Window(start: nat, end: nat)

  function Sum(tokens: seq<nat>, lo: nat, hi: nat): nat
    requires lo <= hi <= |tokens|
  {
    if lo == hi then 0 else Sum(tokens, lo, hi - 1) + tokens[hi - 1]
  }

  lemma {:induction false} SumFront(tokens: seq<nat>, lo: nat, hi: nat)
    requires lo < hi <= |tokens|
    ensures Sum(tokens, lo, hi) == tokens[lo] + Sum(tokens, lo + 1, hi)
    decreases hi
  {
    if lo + 1 < hi {
      SumFront(tokens, lo, hi - 1);
    }
  }

  lemma {:induction false} SumMonotone(tokens: seq<nat>, lo: nat, mid: nat, hi: nat)
    requires lo <= mid <= hi <= |tokens|
    ensures Sum(tokens, lo, mid) <= Sum(tokens, lo, hi)
    ensures Sum(tokens, mid, hi) <= Sum(tokens, lo, hi)
    decreases hi
  {
    if mid < hi {
      SumMonotone(tokens, lo, mid, hi - 1);
    }
  }

  /** `j` starts the longest part of the run's end that fits the overlap: `overlap` tokens at most. */
  predicate IsCarry(tokens: seq<nat>, overlap: int, w: Window, j: nat)
    requires w.start <= w.end <= |tokens|
  {
    && w.start <= j <= w.end
    && (j == w.end || Sum(tokens, j, w.end) <= overlap)
    && (j == w.start || Sum(tokens, j - 1, w.end) > overlap)
  }

  lemma CarryUnique(tokens: seq<nat>, overlap: int, w: Window, i: nat, j: nat)
    requires w.start <= w.end <= |tokens|
    requires IsCarry(tokens, overlap, w, i) && IsCarry(tokens, overlap, w, j)
    ensures i == j
  {
    if i < j {
      SumMonotone(tokens, i, j - 1, w.end);
    } else if j < i {
      SumMonotone(tokens, j, i - 1, w.end);
    }
  }

  /** The first split a window holds that no earlier window holds. */
  function FirstNew(windows: seq<Window>, k: nat): nat
    requires k < |windows|
  {
    if k == 0 then 0 else windows[k - 1].end
  }

  /** A window takes splits while they fit `size`; its first new split is taken unconditionally. */
  ghost predicate Fits(tokens: seq<nat>, size: int, w: Window, first: nat)
    requires w.start <= first < w.end <= |tokens|
  {
    forall m :: first < m < w.end ==> Sum(tokens, w.start, m) + tokens[m] <= size
  }

  /** The windows of the first `n` splits: a window is closed only by a split that does not fit, and
      the next one starts with the overlap. */
  ghost predicate Greedy(tokens: seq<nat>, size: int, overlap: int, windows: seq<Window>, n: nat)
    requires n <= |tokens|
    decreases |windows|
  {
    if windows == [] then n == 0
    else
      var k := |windows| - 1;
      var last, first := windows[k], FirstNew(windows, k);
      && last.start <= first < last.end == n
      && Fits(tokens, size, last, first)
      && Greedy(tokens, size, overlap, windows[..k], first)
      && if k == 0 then last.start == 0
         else
           var w := windows[k - 1];
           && w.start <= w.end
           && Sum(tokens, w.start, w.end) + tokens[first] > size
           && IsCarry(tokens, overlap, w, last.start)
  }

  /** Window `k` in terms of the window before it. */
  lemma {:induction false} WindowAt(tokens: seq<nat>, size: int, overlap: int, windows: seq<Window>, n: nat, k: nat)
    requires n <= |tokens| && Greedy(tokens, size, overlap, windows, n) && k < |windows|
    ensures var w, first := windows[k], FirstNew(windows, k);
            && w.start <= first < w.end <= n
            && Fits(tokens, size, w, first)
            && (k == 0 ==> w.start == 0)
            && (k > 0 ==> windows[k - 1].start <= windows[k - 1].end && IsCarry(tokens, overlap, windows[k - 1], w.start))
    decreases |windows|
  {
    hide Sum, IsCarry, Fits;
    var last := |windows| - 1;
    if k < last {
      WindowAt(tokens, size, overlap, windows[..last], FirstNew(windows, last), k);
      assert FirstNew(windows[..last], k) == FirstNew(windows, k);
    }
  }

  /** The windows are contiguous, start at the first split and end at the last, leave no gap, and move
      on: ends strictly, starts weakly. */
  lemma WindowsCover(tokens: seq<nat>, size: int, overlap: int, windows: seq<Window>, n: nat)
    requires n <= |tokens| && Greedy(tokens, size, overlap, windows, n)
    ensures windows == [] <==> n == 0
    ensures windows != [] ==> windows[0].start == 0 && windows[|windows| - 1].end == n
    ensures forall k :: 0 <= k < |windows| ==> windows[k].start <= FirstNew(windows, k) < windows[k].end <= n
    ensures forall j, k :: 0 <= j < k < |windows| ==> windows[j].start <= windows[k].start && windows[j].end < windows[k].end
  {
    hide Sum, Fits;
    if windows != [] {
      WindowAt(tokens, size, overlap, windows, n, 0);
    }
    hide Greedy;
    forall k | 0 <= k < |windows|
      ensures windows[k].start <= FirstNew(windows, k) < windows[k].end <= n
    {
      WindowAt(tokens, size, overlap, windows, n, k);
    }
    forall j, k | 0 <= j < k < |windows|
      ensures windows[j].start <= windows[k].start && windows[j].end < windows[k].end
    {
      WindowsOrdered(tokens, size, overlap, windows, n, j, k);
    }
  }

  /** A window that is not the last is closed by a split that does not fit it. */
  lemma {:induction false} ClosedByNext(tokens: seq<nat>, size: int, overlap: int, windows: seq<Window>, n: nat, k: nat)
    requires n <= |tokens| && Greedy(tokens, size, overlap, windows, n) && k < |windows| - 1
    ensures windows[k].start <= windows[k].end < n && Sum(tokens, windows[k].start, windows[k].end) + tokens[windows[k].end] > size
    decreases |windows|
  {
    hide Sum, Fits, IsCarry;
    var last := |windows| - 1;
    if k < last - 1 {
      ClosedByNext(tokens, size, overlap, windows[..last], FirstNew(windows, last), k);
    }
  }

  /** The rule by which the windows are made, split by split. A window takes its first new split, and then
      every further one that does not bring it over the chunk size, up to the first that would; the next
      window starts as early in it as the overlap allows, at a split from which on it holds no more than
      the overlap. */
  lemma WindowRule(tokens: seq<nat>, size: int, overlap: int, windows: seq<Window>, n: nat, k: nat)
    requires n <= |tokens| && Greedy(tokens, size, overlap, windows, n) && k < |windows|
    ensures var w, first := windows[k], if k == 0 then 0 else windows[k - 1].end;
            && w.start <= first < w.end <= n
            && (forall m :: first < m < w.end ==> Sum(tokens, w.start, m) + tokens[m] <= size)
            && (k < |windows| - 1 ==> w.end < n && Sum(tokens, w.start, w.end) + tokens[w.end] > size)
            && (k == |windows| - 1 ==> w.end == n)
            && (k == 0 ==> w.start == 0)
            && (k > 0 && w.start < first ==> Sum(tokens, w.start, first) <= overlap)
            && (k > 0 && w.start > windows[k - 1].start ==> Sum(tokens, w.start - 1, first) > overlap)
  {
    hide Sum;
    WindowAt(tokens, size, overlap, windows, n, k);
    if k < |windows| - 1 {
      ClosedByNext(tokens, size, overlap, windows, n, k);
    } else {
      WindowLast(tokens, size, overlap, windows, n);
    }
  }

  lemma WindowLast(tokens: seq<nat>, size: int, overlap: int, windows: seq<Window>, n: nat)
    requires n <= |tokens| && Greedy(tokens, size, overlap, windows, n) && windows != []
    ensures windows[|windows| - 1].end == n
  {
    hide Sum, Fits, IsCarry;
  }

  lemma {:induction false} WindowsOrdered(tokens: seq<nat>, size: int, overlap: int, windows: seq<Window>, n: nat,
                                          j: nat, k: nat)
    requires n <= |tokens| && Greedy(tokens, size, overlap, windows, n) && j < k < |windows|
    ensures windows[j].start <= windows[k].start && windows[j].end < windows[k].end
    decreases k
  {
    hide Greedy, Sum, Fits;
    WindowAt(tokens, size, overlap, windows, n, k);
    if j < k - 1 {
      WindowsOrdered(tokens, size, overlap, windows, n, j, k - 1);
    }
  }

  /** Each split is new in exactly one window. */
  lemma {:induction false} NewExactlyOnce(tokens: seq<nat>, size: int, overlap: int, windows: seq<Window>, n: nat,
                                          i: nat) returns (k: nat)
    requires n <= |tokens| && Greedy(tokens, size, overlap, windows, n) && i < n
    ensures k < |windows| && FirstNew(windows, k) <= i < windows[k].end
    ensures forall j :: 0 <= j < |windows| && FirstNew(windows, j) <= i < windows[j].end ==> j == k
    decreases |windows|
  {
    WindowsCover(tokens, size, overlap, windows, n);
    k := |windows| - 1;
    if i < FirstNew(windows, k) {
      k := NewExactlyOnce(tokens, size, overlap, windows[..k], FirstNew(windows, k), i);
    }
    hide Greedy;
    forall j | 0 <= j < |windows| && FirstNew(windows, j) <= i < windows[j].end
      ensures j == k
    {
      NewRangesDisjoint(windows, i, j, k);
    }
  }

  lemma NewRangesDisjoint(windows: seq<Window>, i: nat, j: nat, k: nat)
    requires j < |windows| && k < |windows|
    requires forall a, b :: 0 <= a < b < |windows| ==> windows[a].end < windows[b].end
    requires FirstNew(windows, j) <= i < windows[j].end && FirstNew(windows, k) <= i < windows[k].end
    ensures j == k
  {
  }

  /** A window exceeds the chunk size exactly when the overlap it starts with and its first new split
      already do; such a window holds no further split. */
  lemma OversizeCondition(tokens: seq<nat>, size: int, overlap: int, windows: seq<Window>, n: nat, k: nat)
    requires n <= |tokens| && Greedy(tokens, size, overlap, windows, n) && k < |windows|
    ensures var w, first := windows[k], FirstNew(windows, k);
            && w.start <= first < w.end <= |tokens|
            && (Sum(tokens, w.start, w.end) > size <==> Sum(tokens, w.start, first) + tokens[first] > size)
            && (Sum(tokens, w.start, w.end) > size ==> w.end == first + 1)
  {
    hide Greedy, Fits, IsCarry, Sum;
    WindowAt(tokens, size, overlap, windows, n, k);
    OversizeAlone(tokens, size, windows[k], FirstNew(windows, k));
  }

  lemma OversizeAlone(tokens: seq<nat>, size: int, w: Window, first: nat)
    requires w.start <= first < w.end <= |tokens| && Fits(tokens, size, w, first)
    ensures Sum(tokens, w.start, w.end) > size <==> Sum(tokens, w.start, first) + tokens[first] > size
    ensures Sum(tokens, w.start, w.end) > size ==> w.end == first + 1
  {
    hide Sum;
    SumLast(tokens, w.start, first + 1);
    SumLast(tokens, w.start, w.end);
    SumMonotone(tokens, w.start, first + 1, w.end);
    assert w.end > first + 1 ==> Sum(tokens, w.start, w.end - 1) + tokens[w.end - 1] <= size;
  }

  lemma SumLast(tokens: seq<nat>, lo: nat, hi: nat)
    requires lo < hi <= |tokens|
    ensures Sum(tokens, lo, hi) == Sum(tokens, lo, hi - 1) + tokens[hi - 1]
  {
  }

  // When a chunk is too large, from the splits alone

  /** Where the longest run of splits before `i` that fits the overlap starts: read off the whole list,
      without the merger. */
  function Reach(tokens: seq<nat>, overlap: int, i: nat, j: nat): (r: nat)
    requires j <= i <= |tokens|
    ensures r <= j
  {
    if j > 0 && Sum(tokens, j - 1, i) <= overlap then Reach(tokens, overlap, i, j - 1) else j
  }

  function LongestFit(tokens: seq<nat>, overlap: int, i: nat): (r: nat)
    requires i <= |tokens|
    ensures r <= i
  {
    Reach(tokens, overlap, i, i)
  }

  lemma {:induction false} ReachIsCarry(tokens: seq<nat>, overlap: int, i: nat, j: nat)
    requires j <= i <= |tokens| && (j == i || Sum(tokens, j, i) <= overlap)
    ensures IsCarry(tokens, overlap, Window(0, i), Reach(tokens, overlap, i, j))
  {
    if j > 0 && Sum(tokens, j - 1, i) <= overlap {
      ReachIsCarry(tokens, overlap, i, j - 1);
    }
  }

  /** Later splits reach back no further. */
  lemma LongestFitMonotone(tokens: seq<nat>, overlap: int, i: nat, j: nat)
    requires i <= j <= |tokens|
    ensures LongestFit(tokens, overlap, i) <= LongestFit(tokens, overlap, j)
  {
    hide Reach, Sum;
    var a, b := LongestFit(tokens, overlap, i), LongestFit(tokens, overlap, j);
    ReachIsCarry(tokens, overlap, i, i);
    ReachIsCarry(tokens, overlap, j, j);
    if b < a {
      SumMonotone(tokens, a - 1, i, j);
      SumMonotone(tokens, b, a - 1, j);
    }
  }

  /** Every window starts where the longest fitting run before its first new split starts, although the
      merger only looks inside the window before. */
  lemma {:induction false} StartIsLongestFit(tokens: seq<nat>, size: int, overlap: int, windows: seq<Window>,
                                             n: nat, k: nat)
    requires n <= |tokens| && Greedy(tokens, size, overlap, windows, n) && k < |windows|
    ensures FirstNew(windows, k) <= n
    ensures windows[k].start == LongestFit(tokens, overlap, FirstNew(windows, k))
    decreases k
  {
    hide Greedy, Reach, Fits, Sum;
    WindowAt(tokens, size, overlap, windows, n, k);
    var first := FirstNew(windows, k);
    ReachIsCarry(tokens, overlap, first, first);
    if k > 0 {
      StartIsLongestFit(tokens, size, overlap, windows, n, k - 1);
      WindowAt(tokens, size, overlap, windows, n, k - 1);
      ReachIsCarry(tokens, overlap, FirstNew(windows, k - 1), FirstNew(windows, k - 1));
      StartsAsIfWhole(tokens, overlap, windows[k - 1], FirstNew(windows, k - 1), windows[k].start);
      CarryUnique(tokens, overlap, Window(0, first), windows[k].start, LongestFit(tokens, overlap, first));
    }
  }

  lemma StartsAsIfWhole(tokens: seq<nat>, overlap: int, w: Window, first: nat, j: nat)
    requires w.start <= first <= w.end <= |tokens|
    requires IsCarry(tokens, overlap, Window(0, first), w.start) && IsCarry(tokens, overlap, w, j)
    ensures IsCarry(tokens, overlap, Window(0, w.end), j)
  {
    hide Sum;
    if j == w.start && j > 0 {
      SumMonotone(tokens, j - 1, first, w.end);
    }
  }

  /** Some split does not fit after the longest run before it that fits the overlap. */
  ghost predicate Overflows(tokens: seq<nat>, size: int, overlap: int) {
    exists i :: 0 <= i < |tokens| && OverflowsAt(tokens, size, overlap, i)
  }

  predicate OverflowsAt(tokens: seq<nat>, size: int, overlap: int, i: nat)
    requires i < |tokens|
  {
    Sum(tokens, LongestFit(tokens, overlap, i), i) + tokens[i] > size
  }

  ghost predicate IsOversize(tokens: seq<nat>, size: int, w: Window) {
    w.start <= w.end <= |tokens| && Sum(tokens, w.start, w.end) > size
  }

  ghost predicate SomeOversize(tokens: seq<nat>, size: int, windows: seq<Window>) {
    exists k :: 0 <= k < |windows| && IsOversize(tokens, size, windows[k])
  }

  /** An oversize window's first new split overflows. */
  lemma OversizeOverflows(tokens: seq<nat>, size: int, overlap: int, windows: seq<Window>, k: nat)
    requires Greedy(tokens, size, overlap, windows, |tokens|) && k < |windows| && IsOversize(tokens, size, windows[k])
    ensures FirstNew(windows, k) < |tokens| && OverflowsAt(tokens, size, overlap, FirstNew(windows, k))
  {
    hide Greedy, LongestFit, Sum;
    OversizeCondition(tokens, size, overlap, windows, |tokens|, k);
    StartIsLongestFit(tokens, size, overlap, windows, |tokens|, k);
  }

  /** The window in which an overflowing split is new is oversize. */
  lemma OverflowOversizes(tokens: seq<nat>, size: int, overlap: int, windows: seq<Window>, i: nat) returns (k: nat)
    requires Greedy(tokens, size, overlap, windows, |tokens|) && i < |tokens| && OverflowsAt(tokens, size, overlap, i)
    ensures k < |windows| && IsOversize(tokens, size, windows[k])
  {
    hide Greedy, LongestFit, Sum;
    k := NewExactlyOnce(tokens, size, overlap, windows, |tokens|, i);
    var w, first := windows[k], FirstNew(windows, k);
    WindowAt(tokens, size, overlap, windows, |tokens|, k);
    OversizeCondition(tokens, size, overlap, windows, |tokens|, k);
    StartIsLongestFit(tokens, size, overlap, windows, |tokens|, k);
    LongestFitMonotone(tokens, overlap, first, i);
    SumMonotone(tokens, w.start, LongestFit(tokens, overlap, i), i);
  }

  /** A chunk exceeds the chunk size exactly when some split does not fit after the longest run of
      splits before it that fits the overlap: a condition on the splits, before anything is merged. */
  lemma OversizeIff(tokens: seq<nat>, size: int, overlap: int, windows: seq<Window>)
    requires Greedy(tokens, size, overlap, windows, |tokens|)
    ensures SomeOversize(tokens, size, windows) <==> Overflows(tokens, size, overlap)
  {
    hide Greedy, OverflowsAt, IsOversize;
    if SomeOversize(tokens, size, windows) {
      var k :| 0 <= k < |windows| && IsOversize(tokens, size, windows[k]);
      OversizeOverflows(tokens, size, overlap, windows, k);
    }
    if Overflows(tokens, size, overlap) {
      var i :| 0 <= i < |tokens| && OverflowsAt(tokens, size, overlap, i);
      var k := OverflowOversizes(tokens, size, overlap, windows, i);
    }
  }

  /** If no split alone exceeds the chunk size, no window exceeds it by more than the overlap. */
  lemma WindowBound(tokens: seq<nat>, size: int, overlap: int, windows: seq<Window>, n: nat, k: nat)
    requires n <= |tokens| && Greedy(tokens, size, overlap, windows, n) && k < |windows|
    requires overlap >= 0 && forall i :: 0 <= i < |tokens| ==> tokens[i] <= size
    ensures windows[k].start <= windows[k].end <= |tokens|
    ensures Sum(tokens, windows[k].start, windows[k].end) <= size + overlap
  {
    hide Greedy, Fits;
    WindowAt(tokens, size, overlap, windows, n, k);
    OversizeCondition(tokens, size, overlap, windows, n, k);
    var w, first := windows[k], FirstNew(windows, k);
    assert Sum(tokens, w.start, first) <= overlap by {
      hide Sum;
      SumEmpty(tokens, first);
    }
    hide IsCarry;
    assert Sum(tokens, w.start, first + 1) == Sum(tokens, w.start, first) + tokens[first];
  }

  lemma SumEmpty(tokens: seq<nat>, i: nat)
    requires i <= |tokens|
    ensures Sum(tokens, i, i) == 0
  {
  }

  /** A chunk can exceed the chunk size although every split fits it. */
  lemma OversizeExample()
    ensures var tokens, windows := [1, 10], [Window(0, 1), Window(0, 2)];
            && Greedy(tokens, 10, 1, windows, 2)
            && (forall i :: 0 <= i < |tokens| ==> tokens[i] <= 10)
            && Sum(tokens, windows[1].start, windows[1].end) > 10
  {
  }

  // The windows are determined by the splits

  /** What remains of the windows without the last split. */
  function Shorter(windows: seq<Window>): seq<Window>
    requires windows != []
  {
    var k := |windows| - 1;
    if windows[k].end == 0 || FirstNew(windows, k) == windows[k].end - 1 then windows[..k]
    else windows[..k] + [Window(windows[k].start, windows[k].end - 1)]
  }

  lemma ShorterGreedy(tokens: seq<nat>, size: int, overlap: int, windows: seq<Window>, n: nat)
    requires 0 < n <= |tokens| && Greedy(tokens, size, overlap, windows, n)
    ensures windows != [] && Greedy(tokens, size, overlap, Shorter(windows), n - 1)
  {
    hide Sum, IsCarry;
    var k := |windows| - 1;
    var s := Shorter(windows);
    if FirstNew(windows, k) < n - 1 {
      FitsShorter(tokens, size, windows[k], FirstNew(windows, k));
      hide Fits;
      assert s[..k] == windows[..k];
      assert FirstNew(s, k) == FirstNew(windows, k);
    }
  }

  lemma FitsShorter(tokens: seq<nat>, size: int, w: Window, first: nat)
    requires w.start <= first < w.end - 1 && w.end <= |tokens| && Fits(tokens, size, w, first)
    ensures Fits(tokens, size, Window(w.start, w.end - 1), first)
  {
  }

  /** The splits determine the windows. */
  lemma {:induction false} WindowsUnique(tokens: seq<nat>, size: int, overlap: int, a: seq<Window>, b: seq<Window>,
                                         n: nat)
    requires n <= |tokens| && Greedy(tokens, size, overlap, a, n) && Greedy(tokens, size, overlap, b, n)
    ensures a == b
    decreases n
  {
    if n > 0 {
      ShorterGreedy(tokens, size, overlap, a, n);
      ShorterGreedy(tokens, size, overlap, b, n);
      WindowsUnique(tokens, size, overlap, Shorter(a), Shorter(b), n - 1);
      LastStep(tokens, size, overlap, a, b, n);
    }
  }

  lemma LastStep(tokens: seq<nat>, size: int, overlap: int, a: seq<Window>, b: seq<Window>, n: nat)
    requires 0 < n <= |tokens| && Greedy(tokens, size, overlap, a, n) && Greedy(tokens, size, overlap, b, n)
    requires Shorter(a) == Shorter(b)
    ensures a == b
  {
    hide Sum, Fits;
    var i, j := |a| - 1, |b| - 1;
    var s := Shorter(a);
    if FirstNew(a, i) == n - 1 && FirstNew(b, j) == n - 1 {
      assert a[..i] == b[..j];
      if i > 0 {
        assert a[i - 1] == a[..i][i - 1] == b[j - 1];
        CarryUnique(tokens, overlap, a[i - 1], a[i].start, b[j].start);
      }
      assert a == a[..i] + [a[i]] && b == b[..j] + [b[j]];
    } else if FirstNew(a, i) < n - 1 && FirstNew(b, j) < n - 1 {
      assert s[i] == s[|s| - 1] && i == j;
      assert a[..i] == s[..i] == b[..j];
      assert a == a[..i] + [a[i]] && b == b[..j] + [b[j]];
    } else if FirstNew(a, i) == n - 1 {
      NotBoth(tokens, size, overlap, a, b, n);
    } else {
      NotBoth(tokens, size, overlap, b, a, n);
    }
  }

  /** The last split either fits the window before it or does not. */
  lemma NotBoth(tokens: seq<nat>, size: int, overlap: int, a: seq<Window>, b: seq<Window>, n: nat)
    requires 0 < n <= |tokens| && Greedy(tokens, size, overlap, a, n) && Greedy(tokens, size, overlap, b, n)
    requires Shorter(a) == Shorter(b)
    requires FirstNew(a, |a| - 1) == n - 1
    ensures FirstNew(b, |b| - 1) == n - 1
  {
    LastSplitDecides(tokens, size, overlap, a, n);
    LastSplitDecides(tokens, size, overlap, b, n);
  }

  lemma LastSplitDecides(tokens: seq<nat>, size: int, overlap: int, a: seq<Window>, n: nat)
    requires 0 < n <= |tokens| && Greedy(tokens, size, overlap, a, n)
    ensures var s := Shorter(a);
            if s == [] then FirstNew(a, |a| - 1) == n - 1
            else
              var w := s[|s| - 1];
              && w.start <= w.end == n - 1
              && (FirstNew(a, |a| - 1) == n - 1 <==> Sum(tokens, w.start, n - 1) + tokens[n - 1] > size)
  {
  }

  // Extending the windows by one split

  lemma FitsTake(tokens: seq<nat>, size: int, start: nat, first: nat, n: nat)
    requires start <= first < n < |tokens| && Fits(tokens, size, Window(start, n), first)
    requires Sum(tokens, start, n) + tokens[n] <= size
    ensures Fits(tokens, size, Window(start, n + 1), first)
  {
    hide Sum;
  }

  lemma GreedyFirst(tokens: seq<nat>, size: int, overlap: int)
    requires |tokens| > 0
    ensures Greedy(tokens, size, overlap, [Window(0, 1)], 1)
  {
    assert [Window(0, 1)][..0] == [];
  }

  lemma GreedyTake(tokens: seq<nat>, size: int, overlap: int, closed: seq<Window>, w: Window, n: nat)
    requires n < |tokens| && Greedy(tokens, size, overlap, closed + [w], n)
    requires w.start <= w.end && Sum(tokens, w.start, n) + tokens[n] <= size
    ensures Greedy(tokens, size, overlap, closed + [Window(w.start, n + 1)], n + 1)
  {
    hide Fits, Sum, IsCarry;
    var k := |closed|;
    var before, after := closed + [w], closed + [Window(w.start, n + 1)];
    assert before[..k] == closed == after[..k];
    assert FirstNew(before, k) == FirstNew(after, k);
    FitsTake(tokens, size, w.start, FirstNew(before, k), n);
  }

  lemma GreedyFlush(tokens: seq<nat>, size: int, overlap: int, closed: seq<Window>, w: Window, n: nat, j: nat)
    requires n < |tokens| && Greedy(tokens, size, overlap, closed + [w], n)
    requires w.start <= w.end && Sum(tokens, w.start, n) + tokens[n] > size && IsCarry(tokens, overlap, w, j)
    ensures Greedy(tokens, size, overlap, closed + [w] + [Window(j, n + 1)], n + 1)
  {
  }
}
