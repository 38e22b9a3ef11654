/** Step generator for insertion sort: each new bar sinks left by adjacent swaps. */
module InsertionSort {
  import opened Bars

  /** Number of bars in s strictly shorter than x. */
  function Below(x: int, s: seq<Bar>): (c: nat)
  {
    if |s| == 0 then 0 else (if s[0].value < x then 1 else 0) + Below(x, s[1..])
  }

  /** Number of pairs p < q with s[p] strictly taller than s[q]. */
  function Inversions(s: seq<Bar>): (c: nat)
  {
    if |s| == 0 then 0 else Below(s[0].value, s[1..]) + Inversions(s[1..])
  }

  /** Exchanging two neighbours does not change how many bars are below x. */
  lemma {:induction false} BelowSwap(x: int, s: seq<Bar>, k: int)
    requires 0 <= k && k + 1 < |s|
    ensures Below(x, s[k + 1 := s[k]][k := s[k + 1]]) == Below(x, s)
  {
    var t := s[k + 1 := s[k]][k := s[k + 1]];
    if k == 0 {
      assert t[1..][1..] == s[1..][1..];
    } else {
      assert t[1..] == s[1..][k := s[k]][k - 1 := s[k + 1]];
      BelowSwap(x, s[1..], k - 1);
    }
  }

  /** Exchanging a strictly inverted pair of neighbours removes exactly one inversion. */
  lemma {:induction false} SwapRemovesInversion(s: seq<Bar>, k: int)
    requires 0 <= k && k + 1 < |s| && s[k].value > s[k + 1].value
    ensures Inversions(s[k + 1 := s[k]][k := s[k + 1]]) + 1 == Inversions(s)
  {
    var t := s[k + 1 := s[k]][k := s[k + 1]];
    if k == 0 {
      assert t[1..][1..] == s[1..][1..];
      assert t[1..] == [s[0]] + s[2..];
      assert s[1..] == [s[1]] + s[2..];
      assert Below(t[0].value, t[1..]) == 0 + Below(s[1].value, s[2..]);
    } else {
      assert t[1..] == s[1..][k := s[k]][k - 1 := s[k + 1]];
      SwapRemovesInversion(s[1..], k - 1);
      BelowSwap(s[0].value, s[1..], k - 1);
    }
  }

  /** A row of bars in height order has no inversions. */
  lemma {:induction false} SortedHasNoInversions(s: seq<Bar>)
    requires SortedPrefix(s, |s|)
    ensures Inversions(s) == 0
  {
    if |s| > 0 {
      NoneBelow(s[0].value, s[1..]);
      SortedHasNoInversions(s[1..]);
    }
  }

  lemma {:induction false} NoneBelow(x: int, s: seq<Bar>)
    requires forall k :: 0 <= k < |s| ==> x <= s[k].value
    ensures Below(x, s) == 0
  {
    if |s| > 0 {
      NoneBelow(x, s[1..]);
    }
  }

  /** Number of heights in v strictly greater than x: how many bars the bar of
      height x passes while it sinks into a sorted row holding v. */
  function Above(x: int, v: seq<int>): (c: nat)
    ensures c <= |v|
  {
    if |v| == 0 then 0 else Above(x, v[..|v| - 1]) + (if v[|v| - 1] > x then 1 else 0)
  }

  lemma {:induction false} AboveAppend(x: int, a: seq<int>, b: seq<int>)
    ensures Above(x, a + b) == Above(x, a) + Above(x, b)
    decreases |b|
  {
    if |b| > 0 {
      assert (a + b)[..|a + b| - 1] == a + b[..|b| - 1];
      AboveAppend(x, a, b[..|b| - 1]);
    } else {
      assert a + b == a;
    }
  }

  /** The count depends only on which heights there are, not on their order. */
  lemma {:induction false} AboveBag(x: int, v: seq<int>, w: seq<int>)
    requires multiset(v) == multiset(w)
    ensures Above(x, v) == Above(x, w)
    decreases |v|
  {
    if |v| == 0 {
      assert |w| == |multiset(w)| == 0;
    } else {
      var y := v[|v| - 1];
      assert v == v[..|v| - 1] + [y];
      assert y in multiset(w);
      var k :| 0 <= k < |w| && w[k] == y;
      assert w == w[..k] + [y] + w[k + 1..];
      calc {
        multiset(v[..|v| - 1]) + multiset{y};
        multiset(v);
        multiset(w);
        multiset(w[..k]) + multiset{y} + multiset(w[k + 1..]);
        multiset(w[..k] + w[k + 1..]) + multiset{y};
      }
      assert multiset(v[..|v| - 1]) == multiset(v[..|v| - 1]) + multiset{y} - multiset{y};
      assert multiset(w[..k] + w[k + 1..]) == multiset(w[..k] + w[k + 1..]) + multiset{y} - multiset{y};
      AboveBag(x, v[..|v| - 1], w[..k] + w[k + 1..]);
      AboveAppend(x, w[..k], w[k + 1..]);
      AboveAppend(x, w[..k] + [y], w[k + 1..]);
      AboveAppend(x, w[..k], [y]);
      assert Above(x, [y]) == (if y > x then 1 else 0) by {
        assert [y][..0] == [];
      }
    }
  }

  lemma {:induction false} NoneAbove(x: int, v: seq<int>)
    requires forall k :: 0 <= k < |v| ==> v[k] <= x
    ensures Above(x, v) == 0
    decreases |v|
  {
    if |v| > 0 {
      NoneAbove(x, v[..|v| - 1]);
    }
  }

  /** Rows that agree from m on and hold the same heights hold the same
      heights before m too. */
  lemma {:induction false} PrefixBag(a: seq<int>, b: seq<int>, m: int)
    requires 0 <= m <= |a| == |b| && multiset(a) == multiset(b) && a[m..] == b[m..]
    ensures multiset(a[..m]) == multiset(b[..m])
  {
    assert a == a[..m] + a[m..];
    assert b == b[..m] + b[m..];
    assert multiset(a[..m]) == multiset(a) - multiset(a[m..]);
    assert multiset(b[..m]) == multiset(b) - multiset(b[m..]);
  }

  /** Highlights of the step pushed before swapping j-1 and j while inserting
      position i: those two compared, the rest of 0..i-1 sorted, the others default. */
  function SwapColors(n: nat, i: int, j: int): (cs: seq<Color>)
    ensures |cs| == n
    ensures forall k :: 0 <= k < n ==> (cs[k] == Compare <==> k == j || k == j - 1)
    ensures forall k :: 0 <= k < n ==> (cs[k] == Sorted <==> k < i && k != j && k != j - 1)
    ensures forall k :: 0 <= k < n ==> cs[k] in {Compare, Sorted, Default}
  {
    seq(n, k => if k == j || k == j - 1 then Compare else if k < i then Sorted else Default)
  }

  /** The step pushed before swapping j-1 and j while inserting position i:
      it highlights them, they really are a strictly inverted pair, and the
      other bars of 0..i (those marked sorted among them) are in height order. */
  ghost predicate SwapAt(s: seq<Bar>, i: int, j: int)
  {
    && 1 <= j <= i < |s| && Colors(s) == SwapColors(|s|, i, j) && s[j - 1].value > s[j].value
    && forall p, q :: 0 <= p < q <= i && p != j && q != j ==> s[p].value <= s[q].value
  }

  /** The step pushed once position i is inserted: 0..i marked sorted and in height order. */
  ghost predicate PrefixAt(s: seq<Bar>, i: int)
  {
    1 <= i < |s| && Colors(s) == PrefixColors(|s|, i) && SortedPrefix(s, i + 1)
  }

  /** Where the block of position p starts: where the block of p-1 ended. */
  function BlockStart(ends: seq<nat>, p: int): (b: nat)
    requires 1 <= p <= |ends|
  {
    ends[p - 1]
  }

  /** `ends` cuts the steps into blocks, one per position 1..|ends|-1: block p
      runs from BlockStart(ends, p) up to ends[p], and is not empty. */
  ghost predicate Bounds(steps: seq<seq<Bar>>, ends: seq<nat>)
  {
    && 1 <= |ends| && ends[0] == 0 && ends[|ends| - 1] == |steps|
    && forall p {:trigger BlockStart(ends, p)} :: 1 <= p < |ends| ==> BlockStart(ends, p) < ends[p] <= |steps|
  }

  /** Each block ends with its position's prefix step. */
  ghost predicate PrefixSteps(steps: seq<seq<Bar>>, ends: seq<nat>)
  {
    forall p {:trigger BlockStart(ends, p)} :: 1 <= p < |ends| && 1 <= ends[p] <= |steps| ==>
      PrefixAt(steps[ends[p] - 1], p)
  }

  /** Before it, block p holds the swap steps for j = p, p-1, ... in order. */
  ghost predicate SwapSteps(steps: seq<seq<Bar>>, ends: seq<nat>)
  {
    forall p, k {:trigger BlockStart(ends, p), steps[k]} ::
      1 <= p < |ends| && BlockStart(ends, p) <= k < ends[p] - 1 && k < |steps| ==>
      SwapAt(steps[k], p, p - (k - BlockStart(ends, p)))
  }

  /** The steps of positions 1..|ends|-1, block by block: position p owns
      steps BlockStart(ends, p)..ends[p]-1, its swap steps for j = p, p-1, ...
      in order and then its prefix step. */
  ghost predicate Blocks(steps: seq<seq<Bar>>, ends: seq<nat>)
  {
    Bounds(steps, ends) && PrefixSteps(steps, ends) && SwapSteps(steps, ends)
  }

  /** The heights after the first t swaps while position i sinks: swap t
      exchanges i-t and i-t+1. */
  function SinkPrefix(v: seq<int>, i: int, t: nat): (w: seq<int>)
    requires t <= i < |v|
    ensures |w| == |v|
  {
    if t == 0 then v
    else
      var w := SinkPrefix(v, i, t - 1);
      w[i - t + 1 := w[i - t]][i - t := w[i - t + 1]]
  }

  /** The heights after inserting position i: it sinks past every strictly
      taller bar before it. */
  function Insert(v: seq<int>, i: int): (w: seq<int>)
    requires 0 <= i < |v|
    ensures |w| == |v|
  {
    SinkPrefix(v, i, Above(v[i], v[..i]))
  }

  /** The heights before position i is inserted: positions 1..i-1 inserted in turn. */
  function InsertBefore(v: seq<int>, i: nat): (w: seq<int>)
    requires i <= 1 || i <= |v|
    ensures |w| == |v|
  {
    if i <= 1 then v else Insert(InsertBefore(v, i - 1), i - 1)
  }

  /** The steps of positions 1..|ends|-1 show the array at the moment they
      are pushed: in block p the swap step for the t-th swap shows the
      heights before p is inserted after t swaps, and the prefix step the
      heights once p is inserted. */
  ghost predicate HeightsPushed(steps: seq<seq<Bar>>, ends: seq<nat>, v: seq<int>)
  {
    SwapHeights(steps, ends, v) && PrefixHeights(steps, ends, v)
  }

  ghost predicate SwapHeights(steps: seq<seq<Bar>>, ends: seq<nat>, v: seq<int>)
  {
    forall p, k {:trigger BlockStart(ends, p), steps[k]} ::
      1 <= p < |ends| && p < |v| && BlockStart(ends, p) <= k < ends[p] - 1 && k < |steps| && k - BlockStart(ends, p) <= p ==>
      Values(steps[k]) == SinkPrefix(InsertBefore(v, p), p, k - BlockStart(ends, p))
  }

  ghost predicate PrefixHeights(steps: seq<seq<Bar>>, ends: seq<nat>, v: seq<int>)
  {
    forall p {:trigger BlockStart(ends, p)} :: 1 <= p < |ends| && p < |v| && 1 <= ends[p] <= |steps| ==>
      Values(steps[ends[p] - 1]) == InsertBefore(v, p + 1)
  }

  /** Appending position i's block, its t-th swap step showing the heights
      after t swaps and its prefix step the inserted heights, extends
      HeightsPushed by one block. */
  lemma {:induction false} NextHeights(before: seq<seq<Bar>>, after: seq<seq<Bar>>, ends: seq<nat>, v: seq<int>, i: int)
    requires Bounds(before, ends) && HeightsPushed(before, ends, v) && |ends| == i && 1 <= i < |v|
    requires |after| > |before| && after[..|before|] == before && |after| - 1 - |before| <= i
    requires forall k :: |before| <= k < |after| - 1 ==> Values(after[k]) == SinkPrefix(InsertBefore(v, i), i, k - |before|)
    requires Values(after[|after| - 1]) == InsertBefore(v, i + 1)
    ensures HeightsPushed(after, ends + [|after|], v)
  {
    NextSwapHeights(before, after, ends, ends + [|after|], v, i);
    NextPrefixHeights(before, after, ends, ends + [|after|], v, i);
  }

  lemma {:induction false} NextSwapHeights(before: seq<seq<Bar>>, after: seq<seq<Bar>>, ends: seq<nat>, ends': seq<nat>, v: seq<int>, i: int)
    requires Bounds(before, ends) && SwapHeights(before, ends, v) && |ends| == i && 1 <= i < |v|
    requires ends' == ends + [|after|]
    requires |after| > |before| && after[..|before|] == before && |after| - 1 - |before| <= i
    requires forall k :: |before| <= k < |after| - 1 ==> Values(after[k]) == SinkPrefix(InsertBefore(v, i), i, k - |before|)
    ensures SwapHeights(after, ends', v)
  {
    forall p, k | 1 <= p < |ends'| && p < |v| && BlockStart(ends', p) <= k < ends'[p] - 1 && k < |after| && k - BlockStart(ends', p) <= p
      ensures Values(after[k]) == SinkPrefix(InsertBefore(v, p), p, k - BlockStart(ends', p))
    {
      if p < i {
        assert BlockStart(ends', p) == BlockStart(ends, p) < ends[p] <= |before|;
        assert after[k] == before[k];
      } else {
        assert BlockStart(ends', p) == ends[|ends| - 1] == |before|;
      }
    }
  }

  lemma {:induction false} NextPrefixHeights(before: seq<seq<Bar>>, after: seq<seq<Bar>>, ends: seq<nat>, ends': seq<nat>, v: seq<int>, i: int)
    requires Bounds(before, ends) && PrefixHeights(before, ends, v) && |ends| == i && 1 <= i < |v|
    requires ends' == ends + [|after|]
    requires |after| > |before| && after[..|before|] == before
    requires Values(after[|after| - 1]) == InsertBefore(v, i + 1)
    ensures PrefixHeights(after, ends', v)
  {
    forall p | 1 <= p < |ends'| && p < |v| && 1 <= ends'[p] <= |after|
      ensures Values(after[ends'[p] - 1]) == InsertBefore(v, p + 1)
    {
      if p < i {
        assert BlockStart(ends, p) < ends[p] <= |before|;
        assert after[ends[p] - 1] == before[ends[p] - 1];
      }
    }
  }

  /** While bar j sinks into 0..i: apart from position j the range 0..i is in
      order, and bar j is strictly shorter than every bar after it up to i. */
  ghost predicate Sinking(a: seq<Bar>, i: int, j: int)
  {
    && 0 <= j <= i < |a|
    && (forall p, q :: 0 <= p < q <= i && p != j && q != j ==> a[p].value <= a[q].value)
    && (forall q :: j < q <= i ==> a[j].value < a[q].value)
  }

  /** The swap steps pushed since steps0 while position i sinks: the t-th
      shows the swap of i-t-1 and i-t, on the heights after t swaps. */
  ghost predicate SwapsPushed(steps0: seq<seq<Bar>>, steps: seq<seq<Bar>>, v0: seq<int>, i: int)
  {
    && |steps0| <= |steps| <= |steps0| + i && i < |v0| && steps[..|steps0|] == steps0
    && forall k :: |steps0| <= k < |steps| ==>
         SwapAt(steps[k], i, i - (k - |steps0|)) && Values(steps[k]) == SinkPrefix(v0, i, k - |steps0|)
  }

  /** Pushing the step before swapping j-1 and j extends position i's swap
      steps by the one for j. */
  lemma {:induction false} PushSwap(steps0: seq<seq<Bar>>, steps: seq<seq<Bar>>, a: seq<Bar>, v0: seq<int>, i: int, j: int, bag: multiset<int>)
    requires multiset(Values(a)) == bag && Snapshots(steps, |a|, bag)
    requires Sinking(a, i, j) && 1 <= j && a[j - 1].value > a[j].value
    requires |steps| == |steps0| + (i - j) && SwapsPushed(steps0, steps, v0, i)
    requires |v0| == |a| && Values(a) == SinkPrefix(v0, i, i - j)
    ensures var after := steps + [Recolor(a, SwapColors(|a|, i, j))];
      Snapshots(after, |a|, bag) && SwapsPushed(steps0, after, v0, i)
  {
    var after := steps + [Recolor(a, SwapColors(|a|, i, j))];
    assert after[..|steps0|] == steps[..|steps0|];
    forall k | |steps0| <= k < |after|
      ensures SwapAt(after[k], i, i - (k - |steps0|)) && Values(after[k]) == SinkPrefix(v0, i, k - |steps0|)
    {
      if k < |steps| {
        assert after[k] == steps[k];
      }
    }
  }

  /** Pushing the prefix step after the swaps of position i closes its block. */
  lemma {:induction false} PushPrefix(steps0: seq<seq<Bar>>, steps: seq<seq<Bar>>, a: seq<Bar>, i: int, bag: multiset<int>)
    requires multiset(Values(a)) == bag && Snapshots(steps, |a|, bag)
    requires 1 <= i < |a| && SortedPrefix(a, i + 1)
    requires |steps| >= |steps0| && steps[..|steps0|] == steps0
    ensures var after := steps + [Recolor(a, PrefixColors(|a|, i))];
      && Snapshots(after, |a|, bag)
      && after[..|steps0|] == steps0
      && (forall k :: |steps0| <= k < |after| - 1 ==> after[k] == steps[k])
      && PrefixAt(after[|after| - 1], i)
  {
    var after := steps + [Recolor(a, PrefixColors(|a|, i))];
    assert after[..|steps0|] == steps[..|steps0|];
    assert SortedPrefix(after[|after| - 1], i + 1);
  }

  /** Appending position i's block after the blocks of positions 1..i-1. */
  lemma {:induction false} NextBlock(before: seq<seq<Bar>>, after: seq<seq<Bar>>, ends: seq<nat>, i: int)
    requires Blocks(before, ends) && |ends| == i
    requires |after| > |before| && after[..|before|] == before
    requires forall k :: |before| <= k < |after| - 1 ==> SwapAt(after[k], i, i - (k - |before|))
    requires PrefixAt(after[|after| - 1], i)
    ensures Blocks(after, ends + [|after|])
  {
    NextBounds(before, after, ends);
    NextPrefixes(before, after, ends, i);
    NextSwaps(before, after, ends, i);
  }

  lemma {:induction false} NextBounds(before: seq<seq<Bar>>, after: seq<seq<Bar>>, ends: seq<nat>)
    requires Bounds(before, ends) && |after| > |before|
    ensures Bounds(after, ends + [|after|])
  {
    var ends' := ends + [|after|];
    forall p | 1 <= p < |ends'|
      ensures BlockStart(ends', p) < ends'[p] <= |after|
    {
      if p < |ends| {
        assert BlockStart(ends', p) == BlockStart(ends, p);
      }
    }
  }

  lemma {:induction false} NextPrefixes(before: seq<seq<Bar>>, after: seq<seq<Bar>>, ends: seq<nat>, i: int)
    requires Bounds(before, ends) && PrefixSteps(before, ends) && |ends| == i
    requires |after| > |before| && after[..|before|] == before
    requires PrefixAt(after[|after| - 1], i)
    ensures PrefixSteps(after, ends + [|after|])
  {
    var ends' := ends + [|after|];
    forall p | 1 <= p < |ends'| && 1 <= ends'[p] <= |after|
      ensures PrefixAt(after[ends'[p] - 1], p)
    {
      if p < i {
        assert BlockStart(ends, p) < ends[p] <= |before|;
        assert after[ends[p] - 1] == before[ends[p] - 1];
      }
    }
  }

  lemma {:induction false} NextSwaps(before: seq<seq<Bar>>, after: seq<seq<Bar>>, ends: seq<nat>, i: int)
    requires Bounds(before, ends) && SwapSteps(before, ends) && |ends| == i
    requires |after| > |before| && after[..|before|] == before
    requires forall k :: |before| <= k < |after| - 1 ==> SwapAt(after[k], i, i - (k - |before|))
    ensures SwapSteps(after, ends + [|after|])
  {
    var ends' := ends + [|after|];
    forall p, k | 1 <= p < |ends'| && BlockStart(ends', p) <= k < ends'[p] - 1 && k < |after|
      ensures SwapAt(after[k], p, p - (k - BlockStart(ends', p)))
    {
      if p < i {
        assert BlockStart(ends', p) == BlockStart(ends, p) < ends[p] <= |before|;
        assert after[k] == before[k];
        assert SwapAt(before[k], p, p - (k - BlockStart(ends, p)));
      } else {
        assert ends'[i - 1] == ends[|ends| - 1] == |before|;
        assert SwapAt(after[k], i, i - (k - |before|));
      }
    }
  }

  /** Sinking the bar that started at a0[i]: it is now at j, it has passed
      i - j bars taller than itself, and the bars after i are still a0's. */
  ghost predicate SinkState(a: seq<Bar>, a0: seq<Bar>, i: int, j: int)
  {
    && Sinking(a, i, j) && |a| == |a0| && a[j] == a0[i]
    && Above(a[j].value, Values(a)[..j]) + (i - j) == Above(a0[i].value, Values(a0)[..i])
    && forall q :: i < q < |a| ==> a[q] == a0[q]
  }

  lemma {:induction false} SinkStep(a: seq<Bar>, a0: seq<Bar>, i: int, j: int)
    requires SinkState(a, a0, i, j) && j > 0 && a[j - 1].value > a[j].value
    ensures SinkState(a[j := a[j - 1]][j - 1 := a[j]], a0, i, j - 1)
  {
    var b := a[j := a[j - 1]][j - 1 := a[j]];
    SinkCount(Values(a), Values(b), j, a[j].value);
  }

  lemma {:induction false} SinkDone(a: seq<Bar>, i: int, j: int)
    requires Sinking(a, i, j) && (j == 0 || a[j - 1].value <= a[j].value)
    ensures SortedPrefix(a, i + 1)
  {
  }

  /** Each swap passes one strictly taller bar. */
  lemma {:induction false} SinkCount(v: seq<int>, w: seq<int>, j: int, x: int)
    requires 0 < j <= |v| && j - 1 <= |w| && v[j - 1] > x
    requires forall k :: 0 <= k < j - 1 ==> w[k] == v[k]
    ensures Above(x, w[..j - 1]) + 1 == Above(x, v[..j])
  {
    assert v[..j][..j - 1] == v[..j - 1] == w[..j - 1];
  }

  /** The array's swap of j-1 and j is the next step of SinkPrefix. */
  lemma {:induction false} SinkPrefixStep(a: seq<Bar>, v0: seq<int>, i: int, j: int)
    requires 0 < j <= i < |v0| == |a| && Values(a) == SinkPrefix(v0, i, i - j)
    ensures Values(a[j := a[j - 1]][j - 1 := a[j]]) == SinkPrefix(v0, i, i - j + 1)
  {
    assert Values(a[j := a[j - 1]][j - 1 := a[j]]) == Values(a)[j := a[j - 1].value][j - 1 := a[j].value];
  }

  /** Once the sinking stops, no bar left of it is taller. */
  lemma {:induction false} SinkStops(a: seq<Bar>, i: int, j: int)
    requires Sinking(a, i, j) && (j == 0 || a[j - 1].value <= a[j].value)
    ensures Above(a[j].value, Values(a)[..j]) == 0
  {
    NoneAbove(a[j].value, Values(a)[..j]);
  }

  /** The array half of one iteration of the `while` loop: exchange the
      sinking bar at j with its strictly taller left neighbour. */
  method SwapDown(arr: array<Bar>, i: int, j: int, ghost a0: seq<Bar>, ghost v0: seq<int>)
    requires 0 < j <= i < arr.Length && arr[j - 1].value > arr[j].value
    requires SinkState(arr[..], a0, i, j) && |v0| == arr.Length && Values(arr[..]) == SinkPrefix(v0, i, i - j)
    modifies arr
    ensures arr[..] == old(arr[..])[j := old(arr[j - 1])][j - 1 := old(arr[j])]
    ensures multiset(Values(arr[..])) == multiset(Values(old(arr[..])))
    ensures SinkState(arr[..], a0, i, j - 1) && Values(arr[..]) == SinkPrefix(v0, i, i - j + 1)
    ensures Inversions(arr[..]) + 1 == Inversions(old(arr[..]))
  {
    SinkStep(arr[..], a0, i, j);
    SinkPrefixStep(arr[..], v0, i, j);
    SwapRemovesInversion(arr[..], j - 1);
    Swap(arr, j, j - 1);
  }

  /** What holds each time the `while` guard of position i is evaluated: the bar
      that started at a0[i] is at j, every swap so far removed one inversion
      and pushed one step, and those steps are the swap steps of position i. */
  ghost predicate SinkLoop(a: seq<Bar>, a0: seq<Bar>, steps0: seq<seq<Bar>>, steps: seq<seq<Bar>>, i: int, j: int, bag: multiset<int>)
  {
    && SinkState(a, a0, i, j) && multiset(Values(a)) == bag
    && |steps| + Inversions(a) == |steps0| + Inversions(a0)
    && |steps| == |steps0| + (i - j) && SwapsPushed(steps0, steps, Values(a0), i)
    && Values(a) == SinkPrefix(Values(a0), i, i - j)
    && Snapshots(steps, |a|, bag)
  }

  lemma {:induction false} SinkBegins(a: seq<Bar>, steps0: seq<seq<Bar>>, i: int, bag: multiset<int>)
    requires 1 <= i < |a| && SortedPrefix(a, i) && multiset(Values(a)) == bag && Snapshots(steps0, |a|, bag)
    ensures SinkLoop(a, a, steps0, steps0, i, i, bag)
  {
    assert steps0[..|steps0|] == steps0;
  }

  /** When the `while` guard fails, 0..i is in order and the bar has passed
      every strictly taller bar before it. */
  lemma {:induction false} SinkEnds(a: seq<Bar>, a0: seq<Bar>, steps0: seq<seq<Bar>>, steps: seq<seq<Bar>>, i: int, j: int, bag: multiset<int>)
    requires SinkLoop(a, a0, steps0, steps, i, j, bag) && (j == 0 || a[j - 1].value <= a[j].value)
    ensures SortedPrefix(a, i + 1)
    ensures forall q :: i < q < |a| ==> a[q] == a0[q]
    ensures multiset(Values(a)) == bag
    ensures |steps| + Inversions(a) == |steps0| + Inversions(a0)
    ensures |steps| == |steps0| + Above(a0[i].value, Values(a0)[..i])
    ensures SwapsPushed(steps0, steps, Values(a0), i)
    ensures Values(a) == SinkPrefix(Values(a0), i, |steps| - |steps0|)
    ensures Snapshots(steps, |a|, bag)
  {
    SinkDone(a, i, j);
    SinkStops(a, i, j);
  }

  /** One iteration of the `while` loop: push the step highlighting j-1 and
      j, then exchange them. */
  method SwapAndPush(arr: array<Bar>, i: int, j: int, steps0: seq<seq<Bar>>, steps: seq<seq<Bar>>,
                     ghost a0: seq<Bar>, ghost bag: multiset<int>)
    returns (steps': seq<seq<Bar>>, j': int)
    requires 0 < j <= i < arr.Length && arr[j - 1].value > arr[j].value
    requires SinkLoop(arr[..], a0, steps0, steps, i, j, bag)
    modifies arr
    ensures j' == j - 1
    ensures steps' == steps + [Recolor(old(arr[..]), SwapColors(arr.Length, i, j))]
    ensures arr[..] == old(arr[..])[j := old(arr[j - 1])][j - 1 := old(arr[j])]
    ensures SinkLoop(arr[..], a0, steps0, steps', i, j', bag)
  {
    j' := j - 1;
    ghost var v0 := Values(a0);
    PushSwap(steps0, steps, arr[..], v0, i, j, bag);
    steps' := steps + [Recolor(arr[..], SwapColors(arr.Length, i, j))];
    SwapDown(arr, i, j, a0, v0);
  }

  /** The `while` loop for position i: swap the bar at j with its strictly
      taller left neighbour, pushing a step before each swap, until the
      neighbour is not taller or j reaches 0. */
  method SinkWhile(arr: array<Bar>, i: int, j0: int, steps0: seq<seq<Bar>>, steps1: seq<seq<Bar>>,
                   ghost a0: seq<Bar>, ghost bag: multiset<int>)
    returns (steps: seq<seq<Bar>>, j: int)
    requires i < arr.Length && SinkLoop(arr[..], a0, steps0, steps1, i, j0, bag)
    modifies arr
    ensures SinkLoop(arr[..], a0, steps0, steps, i, j, bag)
    ensures j == 0 || arr[j - 1].value <= arr[j].value
  {
    steps, j := steps1, j0;
    while j > 0 && arr[j - 1].value > arr[j].value
      invariant SinkLoop(arr[..], a0, steps0, steps, i, j, bag)
    {
      steps, j := SwapAndPush(arr, i, j, steps0, steps, a0, bag);
    }
  }

  /** Position i sinks into the sorted 0..i-1, one step pushed per swap, for
      j = i, i-1, ... in order. Every swap removes one inversion. */
  method Sink(arr: array<Bar>, i: int, steps0: seq<seq<Bar>>, ghost bag: multiset<int>) returns (steps: seq<seq<Bar>>)
    requires 1 <= i < arr.Length
    requires SortedPrefix(arr[..], i)
    requires multiset(Values(arr[..])) == bag
    requires Snapshots(steps0, arr.Length, bag)
    modifies arr
    ensures SortedPrefix(arr[..], i + 1)
    ensures forall q :: i < q < arr.Length ==> arr[q] == old(arr[q])
    ensures multiset(Values(arr[..])) == bag
    ensures |steps| + Inversions(arr[..]) == |steps0| + Inversions(old(arr[..]))
    ensures |steps| == |steps0| + Above(old(arr[i].value), Values(old(arr[..]))[..i])
    // the t-th step shows the swap of i-t-1 and i-t, on the heights after t swaps
    ensures SwapsPushed(steps0, steps, Values(old(arr[..])), i)
    ensures Values(arr[..]) == SinkPrefix(Values(old(arr[..])), i, |steps| - |steps0|)
    ensures Snapshots(steps, arr.Length, bag)
  {
    SinkBegins(arr[..], steps0, i, bag);
    var j;
    steps, j := SinkWhile(arr, i, i, steps0, steps0, arr[..], bag);
    SinkEnds(arr[..], old(arr[..]), steps0, steps, i, j, bag);
  }

  /** One iteration of the outer `for i` loop: sink the bar at i, then push
      the step marking 0..i sorted. */
  method InsertNext(arr: array<Bar>, i: int, steps0: seq<seq<Bar>>, ghost bag: multiset<int>) returns (steps: seq<seq<Bar>>)
    requires 1 <= i < arr.Length
    requires SortedPrefix(arr[..], i)
    requires multiset(Values(arr[..])) == bag
    requires Snapshots(steps0, arr.Length, bag)
    modifies arr
    ensures SortedPrefix(arr[..], i + 1)
    ensures multiset(Values(arr[..])) == bag
    ensures forall q :: i < q < arr.Length ==> arr[q] == old(arr[q])
    ensures |steps| + Inversions(arr[..]) == |steps0| + Inversions(old(arr[..])) + 1
    ensures |steps| == |steps0| + 1 + Above(old(arr[i].value), Values(old(arr[..]))[..i])
    ensures |steps| > |steps0| && steps[..|steps0|] == steps0
    ensures forall k :: |steps0| <= k < |steps| - 1 ==> SwapAt(steps[k], i, i - (k - |steps0|))
    ensures PrefixAt(steps[|steps| - 1], i)
    ensures forall k :: |steps0| <= k < |steps| - 1 ==> Values(steps[k]) == SinkPrefix(Values(old(arr[..])), i, k - |steps0|)
    ensures Values(steps[|steps| - 1]) == Values(arr[..]) == Insert(Values(old(arr[..])), i)
    ensures Snapshots(steps, arr.Length, bag)
  {
    var n := arr.Length;
    steps := Sink(arr, i, steps0, bag);
    PushPrefix(steps0, steps, arr[..], i, bag);
    steps := steps + [Recolor(arr[..], PrefixColors(n, i))];
  }

  /** Block p has one swap step per bar of input[..p] strictly taller than
      input[p], plus its prefix step. */
  ghost predicate Sizes(ends: seq<nat>, input: seq<Bar>)
  {
    forall p {:trigger BlockStart(ends, p)} :: 1 <= p < |ends| && p < |input| ==>
      ends[p] - BlockStart(ends, p) == 1 + Above(input[p].value, Values(input)[..p])
  }

  /** Position i's block, sized by the bars sorted so far, has the size the
      input gives it: those bars are input[..i] rearranged. */
  lemma {:induction false} NextSize(ends: seq<nat>, input: seq<Bar>, a: seq<Bar>, i: int, len: nat)
    requires Sizes(ends, input) && |ends| == i && 1 <= i < |input| == |a|
    requires multiset(Values(a)) == multiset(Values(input))
    requires forall q :: i <= q < |a| ==> a[q] == input[q]
    requires len == ends[i - 1] + 1 + Above(a[i].value, Values(a)[..i])
    ensures Sizes(ends + [len], input)
  {
    assert Values(a)[i..] == Values(input)[i..];
    PrefixBag(Values(a), Values(input), i);
    AboveBag(a[i].value, Values(a)[..i], Values(input)[..i]);
    var ends' := ends + [len];
    forall p | 1 <= p < |ends'| && p < |input|
      ensures ends'[p] - BlockStart(ends', p) == 1 + Above(input[p].value, Values(input)[..p])
    {
      if p < i {
        assert BlockStart(ends', p) == BlockStart(ends, p);
      }
    }
  }

  /** Appending the all-sorted step to the blocks of positions 1..n-1 gives
      the generator's result. */
  lemma {:induction false} Finish(steps: seq<seq<Bar>>, last: seq<Bar>, input: seq<Bar>, ends: seq<nat>)
    requires Blocks(steps, ends) && |ends| == (if |input| == 0 then 1 else |input|)
    requires Snapshots(steps, |input|, multiset(Values(input)))
    requires |last| == |input| && FinalStep(last, input)
    ensures Blocks((steps + [last])[..|steps + [last]| - 1], ends)
    ensures HeightsPushed(steps, ends, Values(input)) ==> HeightsPushed((steps + [last])[..|steps + [last]| - 1], ends, Values(input))
    ensures Snapshots(steps + [last], |input|, multiset(Values(input)))
    ensures FinalStep((steps + [last])[|steps + [last]| - 1], input)
  {
    assert (steps + [last])[..|steps + [last]| - 1] == steps;
  }

  /** What holds each time the outer loop tests i < n: positions 1..i-1 are
      inserted, a is the input a0 with 0..i-1 sorted and i.. untouched, and
      the steps are their blocks, sized and showing the heights as pushed. */
  ghost predicate Inserted(a: seq<Bar>, a0: seq<Bar>, steps: seq<seq<Bar>>, ends: seq<nat>, i: int, bag: multiset<int>)
  {
    && 1 <= i && (i <= |a| || i == 1) && |a0| == |a|
    && |steps| + Inversions(a) == Inversions(a0) + (i - 1)
    && multiset(Values(a)) == bag && multiset(Values(a0)) == bag
    && Blocks(steps, ends) && |ends| == i && Sizes(ends, a0)
    && HeightsPushed(steps, ends, Values(a0)) && Values(a) == InsertBefore(Values(a0), i)
    && (forall q :: i <= q < |a| ==> a[q] == a0[q])
    && Snapshots(steps, |a|, bag)
    && SortedPrefix(a, i)
  }

  /** Inserting position i, as InsertNext states it, moves Inserted from i to i+1. */
  lemma {:induction false} InsertedNext(a: seq<Bar>, a1: seq<Bar>, a0: seq<Bar>, before: seq<seq<Bar>>, after: seq<seq<Bar>>,
                                        ends: seq<nat>, i: int, bag: multiset<int>)
    requires Inserted(a, a0, before, ends, i, bag) && i < |a| == |a1|
    requires SortedPrefix(a1, i + 1) && multiset(Values(a1)) == bag
    requires forall q :: i < q < |a| ==> a1[q] == a[q]
    requires |after| + Inversions(a1) == |before| + Inversions(a) + 1
    requires |after| == |before| + 1 + Above(a[i].value, Values(a)[..i])
    requires |after| > |before| && after[..|before|] == before
    requires forall k :: |before| <= k < |after| - 1 ==> SwapAt(after[k], i, i - (k - |before|))
    requires PrefixAt(after[|after| - 1], i)
    requires forall k :: |before| <= k < |after| - 1 ==> Values(after[k]) == SinkPrefix(Values(a), i, k - |before|)
    requires Values(after[|after| - 1]) == Values(a1) == Insert(Values(a), i)
    requires Snapshots(after, |a|, bag)
    ensures Inserted(a1, a0, after, ends + [|after|], i + 1, bag)
  {
    NextBlock(before, after, ends, i);
    NextSize(ends, a0, a, i, |after|);
    NextHeights(before, after, ends, Values(a0), i);
  }

  /** Once every position is inserted the row is sorted and every inversion
      of the input was paid for by one swap step. */
  lemma {:induction false} InsertedAll(a: seq<Bar>, a0: seq<Bar>, steps: seq<seq<Bar>>, ends: seq<nat>, i: int, bag: multiset<int>)
    requires Inserted(a, a0, steps, ends, i, bag) && i >= |a|
    ensures |steps| == Inversions(a0) + (if |a| == 0 then 0 else |a| - 1)
    ensures |ends| == (if |a| == 0 then 1 else |a|)
    ensures Values(a) == InsertBefore(Values(a0), |a|)
    ensures SortedValues(Values(a))
  {
    assert SortedPrefix(a, |a|);
    SortedHasNoInversions(a);
    SortedBars(a);
  }

  /** The outer `for i` loop: positions 1..n-1, each inserted into the sorted
      prefix before it. `ends[i]` is where the block of position i ends. */
  method InsertAll(arr: array<Bar>, ghost bag: multiset<int>) returns (steps: seq<seq<Bar>>, ghost ends: seq<nat>)
    requires multiset(Values(arr[..])) == bag
    modifies arr
    ensures |steps| == Inversions(old(arr[..])) + (if arr.Length == 0 then 0 else arr.Length - 1)
    ensures |ends| == (if arr.Length == 0 then 1 else arr.Length)
    ensures Blocks(steps, ends) && Sizes(ends, old(arr[..]))
    ensures HeightsPushed(steps, ends, Values(old(arr[..])))
    ensures Values(arr[..]) == InsertBefore(Values(old(arr[..])), arr.Length)
    ensures Snapshots(steps, arr.Length, bag)
    ensures multiset(Values(arr[..])) == bag
    ensures SortedValues(Values(arr[..]))
  {
    var n := arr.Length;
    steps := [];
    ends := [0];
    var i := 1;
    while i < n
      invariant Inserted(arr[..], old(arr[..]), steps, ends, i, bag)
    {
      ghost var before := steps;
      ghost var a := arr[..];
      steps := InsertNext(arr, i, steps, bag);
      InsertedNext(a, arr[..], old(arr[..]), before, steps, ends, i, bag);
      ends := ends + [|steps|];
      i := i + 1;
    }
    InsertedAll(arr[..], old(arr[..]), steps, ends, i, bag);
  }

  /** `insertionSortSteps`: for each position i = 1..n-1, one step per swap
      (j = i, i-1, ... in order) and then the step marking 0..i sorted; finally
      the all-sorted step. `ends[i]` is where the block of position i ends; the
      swaps number exactly the inversions of the input. */
  method InsertionSortSteps(input: array<Bar>) returns (steps: seq<seq<Bar>>, ghost ends: seq<nat>)
    ensures |steps| == Inversions(input[..]) + (if input.Length == 0 then 0 else input.Length - 1) + 1
    ensures |ends| == (if input.Length == 0 then 1 else input.Length)
    ensures Blocks(steps[..|steps| - 1], ends) && Sizes(ends, input[..])
    // every step shows the working array at the moment it is pushed
    ensures HeightsPushed(steps[..|steps| - 1], ends, Values(input[..]))
    ensures Snapshots(steps, input.Length, multiset(Values(input[..])))
    ensures FinalStep(steps[|steps| - 1], input[..])
    ensures Values(steps[|steps| - 1]) == InsertBefore(Values(input[..]), input.Length)
  {
    var n := input.Length;
    var arr := CopyOf(input);
    ghost var bag := multiset(Values(arr[..]));
    steps, ends := InsertAll(arr, bag);
    var last := Recolor(arr[..], Uniform(n, Sorted));
    Finish(steps, last, input[..], ends);
    steps := steps + [last];
  }
}
