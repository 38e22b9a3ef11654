/** Step generator for selection sort: a minimum scan per position, at most one swap. */
module SelectionSort {
  import opened Bars

  /** The leftmost position of a smallest height among v[i..j): the index
      the inner loop holds in minIdx once it has looked at i..j-1. */
  function MinIndex(v: seq<int>, i: int, j: int): (m: int)
    requires 0 <= i < j <= |v|
    ensures i <= m < j
    ensures forall p :: i <= p < j ==> v[m] <= v[p]
    ensures forall p :: i <= p < m ==> v[m] < v[p]
    decreases j - i
  {
    if j == i + 1 then i
    else
      var m := MinIndex(v, i, j - 1);
      if v[j - 1] < v[m] then j - 1 else m
  }

  /** The heights after filling position i: the leftmost smallest of i..
      exchanged with the height at i when it is elsewhere. */
  function Place(v: seq<int>, i: int): (w: seq<int>)
    requires 0 <= i < |v|
    ensures |w| == |v|
  {
    var m := MinIndex(v, i, |v|);
    if m != i then v[i := v[m]][m := v[i]] else v
  }

  /** The heights before position i is filled: positions 0..i-1 placed in turn. */
  function SelectBefore(v: seq<int>, i: nat): (w: seq<int>)
    requires i <= |v|
    ensures |w| == |v|
  {
    if i == 0 then v else Place(SelectBefore(v, i - 1), i - 1)
  }

  /** A step of the scan for position i at index j: the candidate minimum of
      i..j-1 (read off the snapshot's own heights) and j highlighted. */
  ghost predicate ScanAt(s: seq<Bar>, i: int, j: int)
  {
    0 <= i < j < |s| && Colors(s) == CompareColors(|s|, MinIndex(Values(s), i, j), j)
  }

  /** The step pushed after position i is filled: 0..i marked sorted, and
      that prefix really is in its final place. */
  ghost predicate SettledAt(s: seq<Bar>, i: int)
  {
    0 <= i < |s| && Colors(s) == PrefixColors(|s|, i) && SettledPrefix(s, i + 1)
  }

  /** Moving a minimum of a[i..] to position i (when it is not already there)
      extends the settled prefix by one. */
  lemma {:induction false} PlaceMinimum(a: seq<Bar>, i: int, m: int)
    requires 0 <= i < |a| && SettledPrefix(a, i)
    requires m == MinIndex(Values(a), i, |a|)
    ensures SettledPrefix(if m != i then a[i := a[m]][m := a[i]] else a, i + 1)
  {
    var v := Values(a);
    assert forall p :: i <= p < |a| ==> a[m].value <= a[p].value by {
      forall p | i <= p < |a| ensures a[m].value <= a[p].value {
        assert v[m] <= v[p];
      }
    }
  }

  /** The inner `for j` loop for position i: a compare step per j, keeping in
      minIdx the leftmost smallest height seen so far. The array is only read. */
  method ScanForMin(arr: array<Bar>, i: int, steps0: seq<seq<Bar>>, ghost bag: multiset<int>)
    returns (minIdx: int, steps: seq<seq<Bar>>)
    requires 0 <= i < arr.Length
    requires multiset(Values(arr[..])) == bag
    requires Snapshots(steps0, arr.Length, bag)
    ensures minIdx == MinIndex(Values(arr[..]), i, arr.Length)
    ensures |steps| == |steps0| + arr.Length - 1 - i && steps[..|steps0|] == steps0
    ensures forall k :: |steps0| <= k < |steps| ==>
      Values(steps[k]) == Values(arr[..]) && ScanAt(steps[k], i, i + 1 + (k - |steps0|))
    ensures Snapshots(steps, arr.Length, bag)
  {
    var n := arr.Length;
    minIdx := i;
    steps := steps0;
    for j := i + 1 to n
      invariant minIdx == MinIndex(Values(arr[..]), i, j)
      invariant |steps| == |steps0| + j - 1 - i && steps[..|steps0|] == steps0
      invariant forall k :: |steps0| <= k < |steps| ==>
        Values(steps[k]) == Values(arr[..]) && ScanAt(steps[k], i, i + 1 + (k - |steps0|))
      invariant Snapshots(steps, n, bag)
    {
      PushScan(steps0, steps, arr[..], i, j, minIdx, bag);
      steps := steps + [Recolor(arr[..], CompareColors(n, minIdx, j))];
      if arr[j].value < arr[minIdx].value {
        minIdx := j;
      }
    }
  }

  /** Pushing the compare step for (minIdx, j) extends the scan's steps by
      the one for index j. */
  lemma {:induction false} PushScan(steps0: seq<seq<Bar>>, steps: seq<seq<Bar>>, a: seq<Bar>, i: int, j: int, minIdx: int, bag: multiset<int>)
    requires 0 <= i < j < |a| && minIdx == MinIndex(Values(a), i, j)
    requires multiset(Values(a)) == bag && Snapshots(steps, |a|, bag)
    requires |steps| == |steps0| + j - 1 - i && steps[..|steps0|] == steps0
    requires forall k :: |steps0| <= k < |steps| ==>
      Values(steps[k]) == Values(a) && ScanAt(steps[k], i, i + 1 + (k - |steps0|))
    ensures var after := steps + [Recolor(a, CompareColors(|a|, minIdx, j))];
      && Snapshots(after, |a|, bag)
      && after[..|steps0|] == steps0
      && forall k :: |steps0| <= k < |after| ==>
           Values(after[k]) == Values(a) && ScanAt(after[k], i, i + 1 + (k - |steps0|))
  {
    var after := steps + [Recolor(a, CompareColors(|a|, minIdx, j))];
    assert after[..|steps0|] == steps[..|steps0|];
  }

  /** Steps pushed for positions 0..i-1: position p pushes n-1-p compare steps
      and one settled-prefix step. */
  function StepsBefore(n: nat, i: nat): (c: nat)
    requires i <= n
  {
    if i == 0 then 0 else StepsBefore(n, i - 1) + (n - i + 1)
  }

  /** The closed form of StepsBefore. */
  lemma {:induction false} StepsBeforeClosed(n: nat, i: nat)
    requires i <= n
    ensures 2 * StepsBefore(n, i) == i * (2 * n + 1 - i)
  {
    if i > 0 {
      StepsBeforeClosed(n, i - 1);
      assert i * (2 * n + 1 - i) == (i - 1) * (2 * n + 1 - (i - 1)) + 2 * (n - i + 1);
    }
  }

  /** After all n positions, n(n-1)/2 compare steps and n settled steps were
      pushed: n(n+1)/2 in all. */
  lemma {:induction false} StepsTotal(n: nat)
    ensures 2 * StepsBefore(n, n) == n * (n + 1)
  {
    StepsBeforeClosed(n, n);
  }

  /** Where the compare step of the scan for position i at index j lands. */
  function ScanIndex(n: nat, i: nat, j: nat): (k: nat)
    requires i < j <= n
  {
    StepsBefore(n, i) + (j - i - 1)
  }

  /** Where the settled step for position i lands: last of position i's steps. */
  function SettledIndex(n: nat, i: nat): (k: nat)
    requires i < n
  {
    StepsBefore(n, i) + (n - 1 - i)
  }

  /** Earlier positions push their steps before later ones. */
  lemma {:induction false} StepsMonotone(n: nat, p: nat, i: nat)
    requires p <= i <= n
    ensures StepsBefore(n, p) <= StepsBefore(n, i)
  {
    if p < i {
      StepsMonotone(n, p, i - 1);
    }
  }

  /** Positions 0..i-1 pushed their steps in order: the scan step for (p, j) at
      ScanIndex(n, p, j), the settled step for p at SettledIndex(n, p). */
  ghost predicate PositionsPushed(steps: seq<seq<Bar>>, n: nat, i: nat)
    requires i <= n
  {
    && |steps| == StepsBefore(n, i)
    && (forall p, j {:trigger ScanIndex(n, p, j)} :: 0 <= p < j < n && p < i ==>
          ScanIndex(n, p, j) < |steps| && ScanAt(steps[ScanIndex(n, p, j)], p, j))
    && (forall p {:trigger SettledIndex(n, p)} :: 0 <= p < i ==>
          SettledIndex(n, p) < |steps| && SettledAt(steps[SettledIndex(n, p)], p))
  }

  /** Appending the n-1-i scan steps and the settled step of position i after
      positions 0..i-1 gives positions 0..i. */
  lemma {:induction false} NextPosition(n: nat, i: nat, before: seq<seq<Bar>>, after: seq<seq<Bar>>)
    requires i < n
    requires PositionsPushed(before, n, i)
    requires |after| == |before| + (n - i) && after[..|before|] == before
    requires forall k :: |before| <= k < |after| - 1 ==> ScanAt(after[k], i, i + 1 + (k - |before|))
    requires SettledAt(after[|after| - 1], i)
    ensures PositionsPushed(after, n, i + 1)
  {
    forall p, j | 0 <= p < j < n && p < i + 1
      ensures ScanIndex(n, p, j) < |after| && ScanAt(after[ScanIndex(n, p, j)], p, j)
    {
      if p < i {
        StepsMonotone(n, p + 1, i);
        assert after[ScanIndex(n, p, j)] == before[ScanIndex(n, p, j)];
      }
    }
    forall p | 0 <= p < i + 1
      ensures SettledIndex(n, p) < |after| && SettledAt(after[SettledIndex(n, p)], p)
    {
      if p < i {
        StepsMonotone(n, p + 1, i);
        assert after[SettledIndex(n, p)] == before[SettledIndex(n, p)];
      }
    }
  }

  /** One iteration of the outer `for i` loop: scan for the minimum of
      i..n-1, swap it into position i when it is elsewhere, and push the step
      marking 0..i sorted. */
  method PlaceNext(arr: array<Bar>, i: int, steps0: seq<seq<Bar>>, ghost bag: multiset<int>)
    returns (minIdx: int, steps: seq<seq<Bar>>)
    requires 0 <= i < arr.Length
    requires multiset(Values(arr[..])) == bag
    requires Snapshots(steps0, arr.Length, bag)
    requires SettledPrefix(arr[..], i)
    modifies arr
    ensures minIdx == MinIndex(Values(old(arr[..])), i, arr.Length)
    ensures arr[..] == if minIdx != i then old(arr[..])[i := old(arr[minIdx])][minIdx := old(arr[i])] else old(arr[..])
    ensures Values(arr[..]) == Place(Values(old(arr[..])), i)
    ensures multiset(Values(arr[..])) == bag
    ensures SettledPrefix(arr[..], i + 1)
    ensures |steps| == |steps0| + (arr.Length - i) && steps[..|steps0|] == steps0
    ensures forall k :: |steps0| <= k < |steps| - 1 ==>
      Values(steps[k]) == Values(old(arr[..])) && ScanAt(steps[k], i, i + 1 + (k - |steps0|))
    ensures Colors(steps[|steps| - 1]) == PrefixColors(arr.Length, i) && SettledAt(steps[|steps| - 1], i)
    ensures Values(steps[|steps| - 1]) == Values(arr[..])
    ensures Snapshots(steps, arr.Length, bag)
  {
    var n := arr.Length;
    minIdx, steps := ScanForMin(arr, i, steps0, bag);
    PlaceMinimum(arr[..], i, minIdx);
    if minIdx != i {
      Swap(arr, i, minIdx);
    }
    PushSettled(steps0, steps, arr[..], i, bag);
    steps := steps + [Recolor(arr[..], PrefixColors(n, i))];
  }

  /** The steps of positions 0..i-1 show the array at the moment they are
      pushed: the scan steps of p the heights before p is filled, the
      settled step of p the heights after. */
  ghost predicate HeightsPushed(steps: seq<seq<Bar>>, v: seq<int>, i: nat)
    requires i <= |v|
  {
    ScanHeights(steps, v, i) && SettledHeights(steps, v, i)
  }

  ghost predicate ScanHeights(steps: seq<seq<Bar>>, v: seq<int>, i: nat)
    requires i <= |v|
  {
    forall p, j {:trigger ScanIndex(|v|, p, j)} :: 0 <= p < j < |v| && p < i && ScanIndex(|v|, p, j) < |steps| ==>
      Values(steps[ScanIndex(|v|, p, j)]) == SelectBefore(v, p)
  }

  ghost predicate SettledHeights(steps: seq<seq<Bar>>, v: seq<int>, i: nat)
    requires i <= |v|
  {
    forall p {:trigger SettledIndex(|v|, p)} :: 0 <= p < i && SettledIndex(|v|, p) < |steps| ==>
      Values(steps[SettledIndex(|v|, p)]) == SelectBefore(v, p + 1)
  }

  /** Appending position i's steps, the scan steps showing the heights
      before it is filled and the settled step those after, extends
      HeightsPushed by one position. */
  lemma {:induction false} NextPositionHeights(v: seq<int>, i: nat, before: seq<seq<Bar>>, after: seq<seq<Bar>>)
    requires i < |v| && |before| == StepsBefore(|v|, i)
    requires HeightsPushed(before, v, i)
    requires |after| == |before| + (|v| - i) && after[..|before|] == before
    requires forall k :: |before| <= k < |after| - 1 ==> Values(after[k]) == SelectBefore(v, i)
    requires Values(after[|after| - 1]) == SelectBefore(v, i + 1)
    ensures HeightsPushed(after, v, i + 1)
  {
    NextScanHeights(v, i, before, after);
    NextSettledHeights(v, i, before, after);
  }

  lemma {:induction false} NextScanHeights(v: seq<int>, i: nat, before: seq<seq<Bar>>, after: seq<seq<Bar>>)
    requires i < |v| && |before| == StepsBefore(|v|, i)
    requires ScanHeights(before, v, i)
    requires |after| == |before| + (|v| - i) && after[..|before|] == before
    requires forall k :: |before| <= k < |after| - 1 ==> Values(after[k]) == SelectBefore(v, i)
    ensures ScanHeights(after, v, i + 1)
  {
    var n := |v|;
    forall p, j | 0 <= p < j < n && p < i + 1 && ScanIndex(n, p, j) < |after|
      ensures Values(after[ScanIndex(n, p, j)]) == SelectBefore(v, p)
    {
      if p < i {
        StepsMonotone(n, p + 1, i);
        assert ScanIndex(n, p, j) < StepsBefore(n, p + 1) <= |before|;
        assert after[ScanIndex(n, p, j)] == before[ScanIndex(n, p, j)];
      } else {
        assert |before| <= ScanIndex(n, p, j) < |after| - 1;
      }
    }
  }

  lemma {:induction false} NextSettledHeights(v: seq<int>, i: nat, before: seq<seq<Bar>>, after: seq<seq<Bar>>)
    requires i < |v| && |before| == StepsBefore(|v|, i)
    requires SettledHeights(before, v, i)
    requires |after| == |before| + (|v| - i) && after[..|before|] == before
    requires Values(after[|after| - 1]) == SelectBefore(v, i + 1)
    ensures SettledHeights(after, v, i + 1)
  {
    var n := |v|;
    forall p | 0 <= p < i + 1 && SettledIndex(n, p) < |after|
      ensures Values(after[SettledIndex(n, p)]) == SelectBefore(v, p + 1)
    {
      if p < i {
        StepsMonotone(n, p + 1, i);
        assert SettledIndex(n, p) < StepsBefore(n, p + 1) <= |before|;
        assert after[SettledIndex(n, p)] == before[SettledIndex(n, p)];
      } else {
        assert SettledIndex(n, p) == |after| - 1;
      }
    }
  }

  /** Pushing the settled step after the scan keeps the scan steps and adds
      one step marking 0..i. */
  lemma {:induction false} PushSettled(steps0: seq<seq<Bar>>, steps: seq<seq<Bar>>, a: seq<Bar>, i: int, bag: multiset<int>)
    requires 0 <= i < |a| && multiset(Values(a)) == bag && SettledPrefix(a, i + 1)
    requires Snapshots(steps, |a|, bag)
    requires |steps| >= |steps0| && steps[..|steps0|] == steps0
    ensures var after := steps + [Recolor(a, PrefixColors(|a|, i))];
      && Snapshots(after, |a|, bag)
      && after[..|steps0|] == steps0
      && SettledAt(after[|after| - 1], i)
  {
    var after := steps + [Recolor(a, PrefixColors(|a|, i))];
    assert after[..|steps0|] == steps[..|steps0|];
    assert SettledPrefix(after[|after| - 1], i + 1);
  }

  /** Appending the all-sorted step to the steps of all n positions gives the
      generator's result. */
  lemma {:induction false} Finish(steps: seq<seq<Bar>>, last: seq<Bar>, input: seq<Bar>)
    requires PositionsPushed(steps, |input|, |input|)
    requires Snapshots(steps, |input|, multiset(Values(input)))
    requires |last| == |input| && FinalStep(last, input)
    ensures 2 * (|steps + [last]| - 1) == |input| * (|input| + 1)
    ensures (steps + [last])[..|steps + [last]| - 1] == steps
    ensures Snapshots(steps + [last], |input|, multiset(Values(input)))
    ensures FinalStep((steps + [last])[|steps + [last]| - 1], input)
  {
    StepsTotal(|input|);
    assert (steps + [last])[..|steps|] == steps;
  }

  /** The outer `for i` loop: positions 0..n-1, each filled with the
      smallest height of what is left. The array ends sorted. */
  method PlaceAll(arr: array<Bar>, ghost bag: multiset<int>) returns (steps: seq<seq<Bar>>)
    requires multiset(Values(arr[..])) == bag
    modifies arr
    ensures PositionsPushed(steps, arr.Length, arr.Length)
    ensures HeightsPushed(steps, Values(old(arr[..])), arr.Length)
    ensures Values(arr[..]) == SelectBefore(Values(old(arr[..])), arr.Length)
    ensures multiset(Values(arr[..])) == bag
    ensures Snapshots(steps, arr.Length, bag)
    ensures SortedValues(Values(arr[..]))
  {
    var n := arr.Length;
    ghost var v := Values(arr[..]);
    steps := [];
    for i := 0 to n
      invariant PositionsPushed(steps, n, i)
      invariant HeightsPushed(steps, v, i) && Values(arr[..]) == SelectBefore(v, i)
      invariant multiset(Values(arr[..])) == bag
      invariant Snapshots(steps, n, bag)
      invariant SettledPrefix(arr[..], i)
    {
      ghost var before := steps;
      var minIdx;
      minIdx, steps := PlaceNext(arr, i, steps, bag);
      NextPosition(n, i, before, steps);
      NextPositionHeights(v, i, before, steps);
    }
    assert SortedPrefix(arr[..], n);
    SortedBars(arr[..]);
  }

  /** `selectionSortSteps`: for each position i, a compare step per scanned j
      highlighting the running minimum and j, then the step marking 0..i
      sorted; finally the all-sorted step, n(n+1)/2 + 1 steps in all. */
  method SelectionSortSteps(input: array<Bar>) returns (steps: seq<seq<Bar>>)
    ensures 2 * (|steps| - 1) == input.Length * (input.Length + 1)
    // before the last step: the scan step of (i, j) at ScanIndex(n, i, j) and the
    // settled step of i at SettledIndex(n, i), each showing the heights as pushed
    ensures PositionsPushed(steps[..|steps| - 1], input.Length, input.Length)
    ensures HeightsPushed(steps[..|steps| - 1], Values(input[..]), input.Length)
    ensures Snapshots(steps, input.Length, multiset(Values(input[..])))
    ensures FinalStep(steps[|steps| - 1], input[..])
    ensures Values(steps[|steps| - 1]) == SelectBefore(Values(input[..]), input.Length)
  {
    var n := input.Length;
    var arr := CopyOf(input);
    ghost var bag := multiset(Values(arr[..]));
    steps := PlaceAll(arr, bag);
    var last := Recolor(arr[..], Uniform(n, Sorted));
    Finish(steps, last, input[..]);
    steps := steps + [last];
  }
}
