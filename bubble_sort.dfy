/** Step generator for bubble sort: adjacent-swap passes over a private copy. */
module BubbleSort {
  import opened Bars

  /** The colouring pushed before comparing j and j+1: exactly those two
      neighbours compared, every other bar default. */
  function AdjacentColors(n: nat, j: int): (cs: seq<Color>)
    ensures |cs| == n
    ensures forall k :: 0 <= k < n ==> (cs[k] == Compare <==> k == j || k == j + 1)
    ensures forall k :: 0 <= k < n ==> cs[k] in {Compare, Default}
  {
    CompareColors(n, j, j + 1)
  }

  /** Compare steps pushed by the first i passes: pass p has n-1-p of them. */
  function ComparesBefore(n: nat, i: nat): (c: nat)
    requires i <= n
  {
    if i == 0 then 0 else ComparesBefore(n, i - 1) + (n - i)
  }

  /** Where the compare step for (i, j) lands in the list of steps. */
  function Slot(n: nat, i: nat, j: nat): (k: nat)
    requires i <= n
  {
    ComparesBefore(n, i) + j
  }

  /** The number of passes the outer loop runs: max(n-1, 0). */
  function Passes(n: nat): (c: nat)
  {
    if n == 0 then 0 else n - 1
  }

  /** The heights after comparing j and j+1: exchanged when the left one is
      strictly taller, unchanged otherwise. */
  function Exchange(v: seq<int>, j: int): (w: seq<int>)
    requires 0 <= j < |v| - 1
    ensures |w| == |v|
  {
    if v[j] > v[j + 1] then v[j := v[j + 1]][j + 1 := v[j]] else v
  }

  /** The heights after the first j compares of a pass over v. */
  function PassPrefix(v: seq<int>, j: nat): (w: seq<int>)
    requires j < |v|
    ensures |w| == |v|
  {
    if j == 0 then v else Exchange(PassPrefix(v, j - 1), j - 1)
  }

  /** The heights before pass i: pass p makes |v|-1-p compares. */
  function BeforePass(v: seq<int>, i: nat): (w: seq<int>)
    requires i <= Passes(|v|)
    ensures |w| == |v|
  {
    if i == 0 then v else PassPrefix(BeforePass(v, i - 1), |v| - i)
  }

  /** The compare steps of passes 0..i-1 show the array at the moment they
      are pushed: the one for (p, j) holds the heights of v after passes
      0..p-1 and the first j compares of pass p. */
  ghost predicate HeightsPushed(steps: seq<seq<Bar>>, v: seq<int>, i: nat)
    requires i <= Passes(|v|)
  {
    forall p, j {:trigger Slot(|v|, p, j)} :: 0 <= p < i && 0 <= j < |v| - 1 - p && Slot(|v|, p, j) < |steps| ==>
      Values(steps[Slot(|v|, p, j)]) == PassPrefix(BeforePass(v, p), j)
  }

  /** Appending pass i's steps, the t-th showing the heights after t
      compares, extends HeightsPushed by one pass. */
  lemma {:induction false} NextPassHeights(v: seq<int>, i: nat, before: seq<seq<Bar>>, after: seq<seq<Bar>>)
    requires i < Passes(|v|) && |before| == ComparesBefore(|v|, i)
    requires HeightsPushed(before, v, i)
    requires |after| == |before| + (|v| - 1 - i) && after[..|before|] == before
    requires forall k :: |before| <= k < |after| ==> Values(after[k]) == PassPrefix(BeforePass(v, i), k - |before|)
    ensures HeightsPushed(after, v, i + 1)
  {
    var n := |v|;
    forall p, j | 0 <= p < i + 1 && 0 <= j < n - 1 - p && Slot(n, p, j) < |after|
      ensures Values(after[Slot(n, p, j)]) == PassPrefix(BeforePass(v, p), j)
    {
      var k := Slot(n, p, j);
      if p < i {
        ComparesMonotone(n, p + 1, i);
        assert after[k] == before[k];
        assert Values(before[Slot(n, p, j)]) == PassPrefix(BeforePass(v, p), j);
      } else {
        assert k - |before| == j;
        assert Values(after[k]) == PassPrefix(BeforePass(v, i), k - |before|);
      }
    }
  }

  /** Passes 0..i-1 pushed their compare steps in order: the one for (p, j)
      sits at Slot(n, p, j) and highlights j and j+1. */
  ghost predicate PassesPushed(steps: seq<seq<Bar>>, n: nat, i: nat)
    requires i <= n
  {
    && |steps| == ComparesBefore(n, i)
    && forall p, j {:trigger Slot(n, p, j)} :: 0 <= p < i && 0 <= j < n - 1 - p ==>
         Slot(n, p, j) < |steps| && Colors(steps[Slot(n, p, j)]) == AdjacentColors(n, j)
  }

  /** Earlier passes push their steps before later ones. */
  lemma {:induction false} ComparesMonotone(n: nat, p: nat, i: nat)
    requires p <= i <= n
    ensures ComparesBefore(n, p) <= ComparesBefore(n, i)
  {
    if p < i {
      ComparesMonotone(n, p, i - 1);
    }
  }

  /** Appending the n-1-i compare steps of pass i, for j = 0, 1, ... in order,
      after passes 0..i-1 gives passes 0..i. */
  lemma {:induction false} NextPass(n: nat, i: nat, before: seq<seq<Bar>>, after: seq<seq<Bar>>)
    requires i < n - 1
    requires PassesPushed(before, n, i)
    requires |after| == |before| + (n - 1 - i) && after[..|before|] == before
    requires forall k :: |before| <= k < |after| ==> Colors(after[k]) == AdjacentColors(n, k - |before|)
    ensures PassesPushed(after, n, i + 1)
  {
    forall p, j | 0 <= p < i + 1 && 0 <= j < n - 1 - p
      ensures Slot(n, p, j) < |after| && Colors(after[Slot(n, p, j)]) == AdjacentColors(n, j)
    {
      if p < i {
        ComparesMonotone(n, p + 1, i);
        assert after[Slot(n, p, j)] == before[Slot(n, p, j)];
      }
    }
  }

  /** Closed form of ComparesBefore. */
  lemma {:induction false} ComparesBeforeClosed(n: nat, i: nat)
    requires i <= n
    ensures 2 * ComparesBefore(n, i) == i * (2 * n - 1 - i)
  {
    if i > 0 {
      ComparesBeforeClosed(n, i - 1);
      assert i * (2 * n - 1 - i) == (i - 1) * (2 * n - 1 - (i - 1)) + 2 * (n - i);
    }
  }

  /** After the last pass, n(n-1)/2 compare steps were pushed (stated without
      the division). */
  lemma {:induction false} ComparesTotal(n: nat)
    ensures 2 * ComparesBefore(n, Passes(n)) == n * (n - 1)
  {
    ComparesBeforeClosed(n, Passes(n));
  }

  /** Positions from `from` on are in order and no earlier height exceeds them:
      the tail of the array is finished. */
  ghost predicate FinishedTail(a: seq<Bar>, from: int)
  {
    forall p, q :: 0 <= p < q < |a| && from <= q ==> a[p].value <= a[q].value
  }

  /** a[j] is a largest height of a[0..j]. */
  ghost predicate MaxAt(a: seq<Bar>, j: int)
  {
    0 <= j < |a| && forall p :: 0 <= p <= j ==> a[p].value <= a[j].value
  }

  /** `perm[k]` is the position of the original array that the bar now at k
      came from; bars of equal height are still in their original order. */
  ghost predicate StableArrangement(a: seq<Bar>, orig: seq<Bar>, perm: seq<int>)
  {
    && |a| == |orig| == |perm|
    && (forall k {:trigger perm[k]} :: 0 <= k < |a| ==> 0 <= perm[k] < |orig| && a[k] == orig[perm[k]])
    && (forall p, q {:trigger perm[p], perm[q]} :: 0 <= p < q < |a| ==> perm[p] != perm[q])
    && (forall p, q {:trigger perm[p], perm[q]} :: 0 <= p < q < |a| && a[p].value == a[q].value ==> perm[p] < perm[q])
  }

  /** Before any pass every bar is where it started. */
  lemma {:induction false} StartArrangement(a: seq<Bar>)
    ensures StableArrangement(a, a, seq(|a|, k => k))
  {
  }

  /** One compare-and-maybe-swap of neighbours j, j+1 carries the running
      maximum one place right and leaves the finished tail alone. */
  lemma {:induction false} CompareAndSwap(a: seq<Bar>, j: int, tail: int)
    requires 0 <= j && j + 1 < tail <= |a|
    requires FinishedTail(a, tail) && MaxAt(a, j)
    ensures var b := if a[j].value > a[j + 1].value then a[j := a[j + 1]][j + 1 := a[j]] else a;
      FinishedTail(b, tail) && MaxAt(b, j + 1)
  {
  }

  /** Swapping neighbours only when the left one is strictly taller keeps
      bars of equal height in their original order. */
  lemma {:induction false} SwapStable(a: seq<Bar>, j: int, orig: seq<Bar>, perm: seq<int>)
    requires 0 <= j && j + 1 < |a| && a[j].value > a[j + 1].value
    requires StableArrangement(a, orig, perm)
    ensures StableArrangement(a[j := a[j + 1]][j + 1 := a[j]], orig, perm[j := perm[j + 1]][j + 1 := perm[j]])
  {
  }

  /** What holds of the working array at step j of pass i: its heights are
      the input's, the last i positions are finished, a[j] is the running
      maximum, and `perm` traces every bar back to the original array. */
  ghost predicate PassState(a: seq<Bar>, i: int, j: int, bag: multiset<int>, orig: seq<Bar>, perm: seq<int>)
  {
    && multiset(Values(a)) == bag
    && FinishedTail(a, |a| - i) && MaxAt(a, j)
    && StableArrangement(a, orig, perm)
  }

  /** The body of the inner loop keeps PassState, moving j one place right:
      `b` and `perm'` are the array and the trace after the compare-and-swap. */
  lemma {:induction false} PassStep(a: seq<Bar>, i: int, j: int, bag: multiset<int>, orig: seq<Bar>, perm: seq<int>)
    returns (b: seq<Bar>, perm': seq<int>)
    requires 0 <= i && 0 <= j < |a| - 1 - i
    requires PassState(a, i, j, bag, orig, perm)
    ensures b == if a[j].value > a[j + 1].value then a[j := a[j + 1]][j + 1 := a[j]] else a
    ensures perm' == if a[j].value > a[j + 1].value then perm[j := perm[j + 1]][j + 1 := perm[j]] else perm
    ensures PassState(b, i, j + 1, bag, orig, perm')
  {
    CompareAndSwap(a, j, |a| - i);
    if a[j].value > a[j + 1].value {
      SwapStable(a, j, orig, perm);
      SwapKeepsBag(a, j, j + 1, 0, |a|);
      assert a[j := a[j + 1]][j + 1 := a[j]] == a[j := a[j + 1]][j + 1 := a[j]][0..|a|];
      assert a == a[0..|a|];
      b, perm' := a[j := a[j + 1]][j + 1 := a[j]], perm[j := perm[j + 1]][j + 1 := perm[j]];
    } else {
      b, perm' := a, perm;
    }
  }

  /** Pushing the snapshot taken before comparing j and j+1 extends the
      pass's compare steps by the one highlighting j and j+1. */
  lemma {:induction false} PushCompare(steps0: seq<seq<Bar>>, steps: seq<seq<Bar>>, a: seq<Bar>, j: nat, bag: multiset<int>)
    requires multiset(Values(a)) == bag && Snapshots(steps, |a|, bag)
    requires |steps| == |steps0| + j && steps[..|steps0|] == steps0
    requires forall k :: |steps0| <= k < |steps| ==> Colors(steps[k]) == AdjacentColors(|a|, k - |steps0|)
    ensures var after := steps + [Recolor(a, AdjacentColors(|a|, j))];
      && Snapshots(after, |a|, bag)
      && after[..|steps0|] == steps0
      && forall k :: |steps0| <= k < |after| ==> Colors(after[k]) == AdjacentColors(|a|, k - |steps0|)
  {
    var after := steps + [Recolor(a, AdjacentColors(|a|, j))];
    assert after[..|steps0|] == steps[..|steps0|];
  }

  /** Pushing the snapshot taken after j compares of the pass extends the
      steps whose heights are the pass's running state. */
  lemma {:induction false} PushHeights(steps0: seq<seq<Bar>>, steps: seq<seq<Bar>>, a: seq<Bar>, v0: seq<int>, j: nat, colors: seq<Color>)
    requires j < |v0| && |colors| == |a| && Values(a) == PassPrefix(v0, j)
    requires |steps| == |steps0| + j
    requires forall k :: |steps0| <= k < |steps| ==> Values(steps[k]) == PassPrefix(v0, k - |steps0|)
    ensures var after := steps + [Recolor(a, colors)];
      forall k :: |steps0| <= k < |after| ==> Values(after[k]) == PassPrefix(v0, k - |steps0|)
  {
  }

  /** The array's compare-and-swap is Exchange on its heights. */
  lemma {:induction false} ExchangeValues(a: seq<Bar>, j: int)
    requires 0 <= j < |a| - 1
    ensures Values(if a[j].value > a[j + 1].value then a[j := a[j + 1]][j + 1 := a[j]] else a) == Exchange(Values(a), j)
  {
  }

  /** When the running maximum reaches the tail, the tail grows by one. */
  lemma {:induction false} PassDone(a: seq<Bar>, tail: int)
    requires 0 < tail <= |a|
    requires FinishedTail(a, tail) && MaxAt(a, tail - 1)
    ensures FinishedTail(a, tail - 1)
  {
  }

  /** Once all passes are done the finished tail is the whole array. */
  lemma {:induction false} AllFinished(a: seq<Bar>)
    requires FinishedTail(a, |a| - Passes(|a|))
    ensures SortedValues(Values(a))
  {
  }

  /** The array half of one inner-loop iteration: swap j and j+1 when the
      left one is strictly taller. */
  method CompareStep(arr: array<Bar>, i: int, j: int, ghost bag: multiset<int>, ghost orig: seq<Bar>, ghost perm: seq<int>)
    returns (ghost perm': seq<int>)
    requires 0 <= i && 0 <= j < arr.Length - 1 - i
    requires PassState(arr[..], i, j, bag, orig, perm)
    modifies arr
    ensures PassState(arr[..], i, j + 1, bag, orig, perm')
    ensures arr[..] == if old(arr[j].value > arr[j + 1].value)
      then old(arr[..])[j := old(arr[j + 1])][j + 1 := old(arr[j])] else old(arr[..])
    ensures Values(arr[..]) == Exchange(Values(old(arr[..])), j)
  {
    ghost var next;
    ExchangeValues(arr[..], j);
    next, perm' := PassStep(arr[..], i, j, bag, orig, perm);
    if arr[j].value > arr[j + 1].value {
      Swap(arr, j, j + 1);
    }
    assert arr[..] == next;
  }

  /** The inner `for j` loop of pass i: a compare step for each j, then the
      neighbours are swapped when the left one is strictly taller. */
  method Pass(arr: array<Bar>, i: int, steps0: seq<seq<Bar>>, ghost bag: multiset<int>,
              ghost orig: seq<Bar>, ghost perm0: seq<int>)
    returns (steps: seq<seq<Bar>>, ghost perm: seq<int>)
    requires 0 <= i < arr.Length - 1
    requires multiset(Values(arr[..])) == bag
    requires FinishedTail(arr[..], arr.Length - i)
    requires StableArrangement(arr[..], orig, perm0)
    requires Snapshots(steps0, arr.Length, bag)
    modifies arr
    ensures multiset(Values(arr[..])) == bag
    ensures FinishedTail(arr[..], arr.Length - i - 1)
    ensures StableArrangement(arr[..], orig, perm)
    ensures Snapshots(steps, arr.Length, bag)
    ensures |steps| == |steps0| + (arr.Length - 1 - i) && steps[..|steps0|] == steps0
    ensures forall k :: |steps0| <= k < |steps| ==> Colors(steps[k]) == AdjacentColors(arr.Length, k - |steps0|)
    // the t-th compare step shows the heights after t compares of this pass
    ensures forall k :: |steps0| <= k < |steps| ==> Values(steps[k]) == PassPrefix(Values(old(arr[..])), k - |steps0|)
    ensures Values(arr[..]) == PassPrefix(Values(old(arr[..])), arr.Length - 1 - i)
  {
    var n := arr.Length;
    ghost var v0 := Values(arr[..]);
    steps := steps0;
    perm := perm0;
    for j := 0 to n - i - 1
      invariant |steps| == |steps0| + j && steps[..|steps0|] == steps0
      invariant forall k :: |steps0| <= k < |steps| ==> Colors(steps[k]) == AdjacentColors(n, k - |steps0|)
      invariant forall k :: |steps0| <= k < |steps| ==> Values(steps[k]) == PassPrefix(v0, k - |steps0|)
      invariant Values(arr[..]) == PassPrefix(v0, j)
      invariant Snapshots(steps, n, bag)
      invariant PassState(arr[..], i, j, bag, orig, perm)
    {
      PushHeights(steps0, steps, arr[..], v0, j, AdjacentColors(n, j));
      PushCompare(steps0, steps, arr[..], j, bag);
      steps := steps + [Recolor(arr[..], AdjacentColors(n, j))];
      perm := CompareStep(arr, i, j, bag, orig, perm);
    }
    PassDone(arr[..], n - i);
  }

  /** The outer `for i` loop: passes 0..n-2, each one finishing one more tail
      position. The array ends sorted, a stable rearrangement of what it held. */
  method AllPasses(arr: array<Bar>, ghost bag: multiset<int>) returns (steps: seq<seq<Bar>>, ghost perm: seq<int>)
    requires multiset(Values(arr[..])) == bag
    modifies arr
    ensures PassesPushed(steps, arr.Length, Passes(arr.Length))
    ensures HeightsPushed(steps, Values(old(arr[..])), Passes(arr.Length))
    ensures Values(arr[..]) == BeforePass(Values(old(arr[..])), Passes(arr.Length))
    ensures multiset(Values(arr[..])) == bag
    ensures Snapshots(steps, arr.Length, bag)
    ensures SortedValues(Values(arr[..]))
    ensures StableArrangement(arr[..], old(arr[..]), perm)
  {
    var n := arr.Length;
    ghost var orig := arr[..];
    ghost var v := Values(orig);
    steps := [];
    perm := seq(n, k => k);
    StartArrangement(arr[..]);
    var i := 0;
    while i < n - 1
      invariant 0 <= i <= Passes(n)
      invariant PassesPushed(steps, n, i)
      invariant HeightsPushed(steps, v, i) && Values(arr[..]) == BeforePass(v, i)
      invariant Snapshots(steps, n, bag)
      // the last i positions hold the i largest heights, in order
      invariant multiset(Values(arr[..])) == bag && FinishedTail(arr[..], n - i)
      invariant StableArrangement(arr[..], orig, perm)
    {
      ghost var before := steps;
      steps, perm := Pass(arr, i, steps, bag, orig, perm);
      NextPass(n, i, before, steps);
      NextPassHeights(v, i, before, steps);
      i := i + 1;
    }
    AllFinished(arr[..]);
  }

  /** Appending the all-sorted step to the compare steps gives the generator's result. */
  lemma {:induction false} Finish(steps: seq<seq<Bar>>, last: seq<Bar>, input: seq<Bar>)
    requires PassesPushed(steps, |input|, Passes(|input|))
    requires HeightsPushed(steps, Values(input), Passes(|input|))
    requires Snapshots(steps, |input|, multiset(Values(input)))
    requires |last| == |input| && FinalStep(last, input)
    requires Values(last) == BeforePass(Values(input), Passes(|input|))
    ensures 2 * (|steps + [last]| - 1) == |input| * (|input| - 1)
    ensures forall i, j {:trigger Slot(|input|, i, j)} :: 0 <= i && 0 <= j && i + j < |input| - 1 ==>
      Slot(|input|, i, j) < |steps + [last]| - 1 && Colors((steps + [last])[Slot(|input|, i, j)]) == AdjacentColors(|input|, j)
    ensures forall i, j {:trigger Slot(|input|, i, j)} :: 0 <= i && 0 <= j && i + j < |input| - 1 ==>
      Slot(|input|, i, j) < |steps + [last]| - 1 && Values((steps + [last])[Slot(|input|, i, j)]) == PassPrefix(BeforePass(Values(input), i), j)
    ensures Snapshots(steps + [last], |input|, multiset(Values(input)))
    ensures FinalStep((steps + [last])[|steps + [last]| - 1], input)
    ensures Values((steps + [last])[|steps + [last]| - 1]) == BeforePass(Values(input), Passes(|input|))
  {
    ComparesTotal(|input|);
    forall i, j | 0 <= i && 0 <= j && i + j < |input| - 1
      ensures Slot(|input|, i, j) < |steps + [last]| - 1 && Colors((steps + [last])[Slot(|input|, i, j)]) == AdjacentColors(|input|, j)
    {
      assert i < Passes(|input|);
    }
    forall i, j | 0 <= i && 0 <= j && i + j < |input| - 1
      ensures Slot(|input|, i, j) < |steps + [last]| - 1 && Values((steps + [last])[Slot(|input|, i, j)]) == PassPrefix(BeforePass(Values(input), i), j)
    {
      assert i < Passes(|input|);
    }
  }

  /** `bubbleSortSteps`: n(n-1)/2 compare steps, the one for (i, j) at
      Slot(n, i, j) highlighting j and j+1, then the all-sorted step. */
  method BubbleSortSteps(input: array<Bar>) returns (steps: seq<seq<Bar>>)
    ensures 2 * (|steps| - 1) == input.Length * (input.Length - 1)
    ensures forall i, j {:trigger Slot(input.Length, i, j)} :: 0 <= i && 0 <= j && i + j < input.Length - 1 ==>
      Slot(input.Length, i, j) < |steps| - 1 && Colors(steps[Slot(input.Length, i, j)]) == AdjacentColors(input.Length, j)
    // ... and shows the heights after passes 0..i-1 and the first j compares of pass i
    ensures forall i, j {:trigger Slot(input.Length, i, j)} :: 0 <= i && 0 <= j && i + j < input.Length - 1 ==>
      Slot(input.Length, i, j) < |steps| - 1 && Values(steps[Slot(input.Length, i, j)]) == PassPrefix(BeforePass(Values(input[..]), i), j)
    ensures Snapshots(steps, input.Length, multiset(Values(input[..])))
    ensures FinalStep(steps[|steps| - 1], input[..])
    ensures Values(steps[|steps| - 1]) == BeforePass(Values(input[..]), Passes(input.Length))
  {
    var n := input.Length;
    var arr := CopyOf(input);
    ghost var bag := multiset(Values(arr[..]));
    ghost var perm;
    steps, perm := AllPasses(arr, bag);
    var last := Recolor(arr[..], Uniform(n, Sorted));
    Finish(steps, last, input[..]);
    steps := steps + [last];
  }
}
