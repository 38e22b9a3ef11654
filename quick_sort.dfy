/** Step generator for quick sort: Lomuto partition around the last bar of each range. */
module QuickSort {
  import opened Bars

  /** Highlights while partitioning: the scanned index j compared, the pivot
      position marked, the rest default. */
  function ScanColors(n: nat, j: int, pivot: int): (cs: seq<Color>)
    ensures |cs| == n
    ensures forall k :: 0 <= k < n ==> (cs[k] == Compare <==> k == j)
    ensures forall k :: 0 <= k < n ==> (cs[k] == Pivot <==> k == pivot && k != j)
    ensures forall k :: 0 <= k < n ==> cs[k] in {Compare, Pivot, Default}
  {
    seq(n, k => if k == j then Compare else if k == pivot then Pivot else Default)
  }

  /** Only index p is marked sorted. */
  function PivotColors(n: nat, p: int): (cs: seq<Color>)
    ensures |cs| == n
    ensures forall k :: 0 <= k < n ==> (cs[k] == Sorted <==> k == p)
    ensures forall k :: 0 <= k < n ==> cs[k] in {Sorted, Default}
  {
    seq(n, k => if k == p then Sorted else Default)
  }

  /** No bar before p is taller than bar p and none after it is shorter:
      bar p is where it ends up in the sorted row. */
  ghost predicate InPlace(a: seq<Bar>, p: int)
  {
    && 0 <= p < |a|
    && (forall q :: 0 <= q < p ==> a[q].value <= a[p].value)
    && (forall q :: p < q < |a| ==> a[p].value <= a[q].value)
  }

  /** A step pushed while scanning: a bar compared against a pivot to its right. */
  ghost predicate ShowsScan(s: seq<Bar>)
  {
    exists j, e :: 0 <= j < e < |s| && Colors(s) == ScanColors(|s|, j, e)
  }

  /** A step pushed after placing a pivot: exactly one bar marked sorted, and
      that bar really is in its final place. */
  ghost predicate ShowsPivot(s: seq<Bar>)
  {
    exists p :: 0 <= p < |s| && Colors(s) == PivotColors(|s|, p) && InPlace(s, p)
  }

  ghost predicate QuickSteps(steps: seq<seq<Bar>>, n: nat, bag: multiset<int>)
  {
    forall k :: 0 <= k < |steps| ==> Snapshot(steps[k], n, bag) && (ShowsScan(steps[k]) || ShowsPivot(steps[k]))
  }

  lemma {:induction false} PushScan(steps: seq<seq<Bar>>, a: seq<Bar>, j: int, e: int, bag: multiset<int>)
    requires QuickSteps(steps, |a|, bag)
    requires multiset(Values(a)) == bag && 0 <= j < e < |a|
    ensures QuickSteps(steps + [Recolor(a, ScanColors(|a|, j, e))], |a|, bag)
  {
    var snapshot := Recolor(a, ScanColors(|a|, j, e));
    assert Colors(snapshot) == ScanColors(|snapshot|, j, e);
    assert ShowsScan(snapshot);
  }

  lemma {:induction false} PushPivot(steps: seq<seq<Bar>>, a: seq<Bar>, p: int, bag: multiset<int>)
    requires QuickSteps(steps, |a|, bag)
    requires multiset(Values(a)) == bag && InPlace(a, p)
    ensures QuickSteps(steps + [Recolor(a, PivotColors(|a|, p))], |a|, bag)
  {
    var snapshot := Recolor(a, PivotColors(|a|, p));
    assert Colors(snapshot) == PivotColors(|snapshot|, p);
    assert InPlace(snapshot, p);
    assert ShowsPivot(snapshot);
  }

  /** Every bar before `start` is no taller, and every bar after `end` no
      shorter, than each bar of start..end: the range holds exactly the bars
      that belong there once sorted. */
  ghost predicate Bracketed(a: seq<Bar>, start: int, end: int)
  {
    && (forall p, q :: 0 <= p < start <= q <= end && q < |a| ==> a[p].value <= a[q].value)
    && (forall p, q :: 0 <= start <= q <= end < p < |a| ==> a[q].value <= a[p].value)
  }

  /** Bars start..p-1 are shorter than bar p, bars p+1..end no shorter. */
  ghost predicate PartitionedAt(a: seq<Bar>, start: int, p: int, end: int)
  {
    && 0 <= start <= p <= end < |a|
    && (forall k :: start <= k < p ==> a[k].value < a[p].value)
    && (forall k :: p < k <= end ==> a[p].value <= a[k].value)
  }

  /** Bars start..end are in height order. */
  ghost predicate SortedRange(a: seq<Bar>, start: int, end: int)
  {
    forall p, q :: start <= p < q <= end && 0 <= p && q < |a| ==> a[p].value <= a[q].value
  }

  /** Rearranging the bars inside a range keeps it bracketed. */
  lemma {:induction false} BracketKept(a: seq<Bar>, b: seq<Bar>, start: int, end: int)
    requires 0 <= start <= end < |a|
    requires SameOutside(a, b, start, end)
    requires multiset(Values(a)) == multiset(Values(b))
    requires Bracketed(a, start, end)
    ensures Bracketed(b, start, end)
  {
    RangeBag(a, b, start, end + 1);
    var va, vb := Values(a[start..end + 1]), Values(b[start..end + 1]);
    forall p | 0 <= p < start
      ensures forall q :: 0 <= q < |vb| ==> vb[q] >= a[p].value
    {
      BagKeepsBounds(va, vb, a[p].value);
    }
    forall p | end < p < |a|
      ensures forall q :: 0 <= q < |vb| ==> vb[q] < a[p].value + 1
    {
      BagKeepsBounds(va, vb, a[p].value + 1);
    }
    forall p, q | 0 <= p < start <= q <= end
      ensures b[p].value <= b[q].value
    {
      assert vb[q - start] == b[q].value;
    }
    forall p, q | start <= q <= end < p < |a|
      ensures b[q].value <= b[p].value
    {
      assert vb[q - start] == b[q].value;
    }
  }

  /** A pivot placed inside a bracketed range is in its final place. */
  lemma {:induction false} PivotSettled(a: seq<Bar>, start: int, p: int, end: int)
    requires Bracketed(a, start, end) && PartitionedAt(a, start, p, end)
    ensures InPlace(a, p)
  {
  }

  /** The part left of a placed pivot is bracketed. */
  lemma {:induction false} LeftBracketed(a: seq<Bar>, start: int, p: int, end: int)
    requires Bracketed(a, start, end) && PartitionedAt(a, start, p, end)
    ensures Bracketed(a, start, p - 1)
  {
  }

  /** Sorting the left part keeps it below the pivot and leaves the right part
      bracketed. */
  lemma {:induction false} AfterLeft(a: seq<Bar>, b: seq<Bar>, start: int, p: int, end: int)
    requires Bracketed(a, start, end) && PartitionedAt(a, start, p, end)
    requires SameOutside(a, b, start, p - 1)
    requires multiset(Values(a)) == multiset(Values(b))
    ensures PartitionedAt(b, start, p, end)
    ensures Bracketed(b, p + 1, end)
  {
    RangeBag(a, b, start, p);
    var va, vb := Values(a[start..p]), Values(b[start..p]);
    BagKeepsBounds(va, vb, a[p].value);
    forall k | start <= k < p
      ensures b[k].value < b[p].value
    {
      assert vb[k - start] == b[k].value;
    }
  }

  /** Sorting the right part as well makes the whole range sorted. */
  lemma {:induction false} AfterRight(a: seq<Bar>, b: seq<Bar>, start: int, p: int, end: int)
    requires PartitionedAt(a, start, p, end) && SortedRange(a, start, p - 1)
    requires SameOutside(a, b, p + 1, end)
    requires multiset(Values(a)) == multiset(Values(b))
    requires SortedRange(b, p + 1, end)
    ensures SortedRange(b, start, end)
  {
    RangeBag(a, b, p + 1, end + 1);
    var va, vb := Values(a[p + 1..end + 1]), Values(b[p + 1..end + 1]);
    BagKeepsBounds(va, vb, a[p].value);
    forall k | p < k <= end
      ensures b[p].value <= b[k].value
    {
      assert vb[k - p - 1] == b[k].value;
    }
  }

  /** Bars start..i-1 are shorter than the pivot at `end`, bars i..j-1 are not. */
  ghost predicate Scanned(a: seq<Bar>, start: int, i: int, j: int, end: int)
  {
    && 0 <= start <= i <= j <= end < |a|
    && (forall k :: start <= k < i ==> a[k].value < a[end].value)
    && (forall k :: i <= k < j ==> a[end].value <= a[k].value)
  }

  /** The heights and the boundary i after the first t scan steps of
      `partition(start, end)` over v: step t compares v[start + t - 1]
      against the pivot height v[end] and swaps it to the boundary when it
      is strictly shorter. */
  function ScanState(v: seq<int>, start: int, end: int, t: nat): (r: (seq<int>, int))
    requires 0 <= start && start + t <= end < |v|
    ensures |r.0| == |v| && start <= r.1 <= start + t
  {
    if t == 0 then (v, start)
    else
      var w, i := ScanState(v, start, end, t - 1).0, ScanState(v, start, end, t - 1).1;
      var j := start + t - 1;
      if w[j] < v[end] then (w[i := w[j]][j := w[i]], i + 1) else (w, i)
  }

  /** The heights after `partition(start, end)` over v: the scan, then the
      pivot swapped to the boundary. */
  function Lomuto(v: seq<int>, start: int, end: int): (w: seq<int>)
    requires 0 <= start <= end < |v|
    ensures |w| == |v|
  {
    var r := ScanState(v, start, end, end - start);
    r.0[r.1 := r.0[end]][end := r.0[r.1]]
  }

  /** The array's scan step at j is the next step of ScanState. */
  lemma {:induction false} ScanStateStep(a: seq<Bar>, v0: seq<int>, start: int, i: int, j: int, end: int)
    requires 0 <= start <= j < end < |v0| == |a| && v0[end] == a[end].value
    requires Values(a) == ScanState(v0, start, end, j - start).0 && i == ScanState(v0, start, end, j - start).1
    ensures var b := if a[j].value < a[end].value then a[i := a[j]][j := a[i]] else a;
      var i' := if a[j].value < a[end].value then i + 1 else i;
      Values(b) == ScanState(v0, start, end, j + 1 - start).0 && i' == ScanState(v0, start, end, j + 1 - start).1
  {
    assert ScanState(v0, start, end, j + 1 - start).0 == (if a[j].value < a[end].value then Values(a)[i := a[j].value][j := a[i].value] else Values(a));
    assert Values(a[i := a[j]][j := a[i]]) == Values(a)[i := a[j].value][j := a[i].value];
  }

  /** One scan step at j < end: a bar shorter than the pivot is swapped to the
      boundary i, which moves one right; the pivot and everything outside
      start..end-1 stay where they are. */
  lemma {:induction false} ScanStep(o: seq<Bar>, a: seq<Bar>, start: int, i: int, j: int, end: int)
    requires j < end && Scanned(a, start, i, j, end) && SameOutside(o, a, start, end - 1)
    ensures a[j].value < a[end].value ==>
      var b := a[i := a[j]][j := a[i]];
      Scanned(b, start, i + 1, j + 1, end) && b[end] == a[end] && SameOutside(o, b, start, end - 1)
    ensures a[end].value <= a[j].value ==> Scanned(a, start, i, j + 1, end)
  {
  }

  /** The compare steps pushed so far by the scan over v0: step t marks
      start + t as compared and shows the heights after t scan steps. */
  ghost predicate ScansPushed(steps0: seq<seq<Bar>>, steps: seq<seq<Bar>>, v0: seq<int>, start: int, j: int, end: int)
    requires 0 <= start <= j <= end < |v0|
  {
    && |steps| == |steps0| + (j - start)
    && steps[..|steps0|] == steps0
    && (forall k :: |steps0| <= k < |steps| ==> Colors(steps[k]) == ScanColors(|v0|, start + (k - |steps0|), end))
    && (forall k :: |steps0| <= k < |steps| ==> Values(steps[k]) == ScanState(v0, start, end, k - |steps0|).0)
  }

  lemma {:induction false} NextScanPushed(steps0: seq<seq<Bar>>, steps: seq<seq<Bar>>, a: seq<Bar>, v0: seq<int>, start: int, j: int, end: int)
    requires 0 <= start <= j < end < |v0| == |a|
    requires ScansPushed(steps0, steps, v0, start, j, end)
    requires Values(a) == ScanState(v0, start, end, j - start).0
    ensures ScansPushed(steps0, steps + [Recolor(a, ScanColors(|a|, j, end))], v0, start, j + 1, end)
  {
    var steps' := steps + [Recolor(a, ScanColors(|a|, j, end))];
    assert steps'[..|steps0|] == steps[..|steps0|];
    forall k | |steps0| <= k < |steps'|
      ensures Colors(steps'[k]) == ScanColors(|v0|, start + (k - |steps0|), end)
      ensures Values(steps'[k]) == ScanState(v0, start, end, k - |steps0|).0
    {
      if k == |steps| {
        assert Values(steps'[k]) == Values(a);
      } else {
        assert steps'[k] == steps[k];
      }
    }
  }

  /** The invariant of the scan loop, after the compare steps for
      start..j-1: i is the boundary, a the array, steps the steps. */
  ghost predicate ScanLoop(a: seq<Bar>, a0: seq<Bar>, pivot: Bar, steps0: seq<seq<Bar>>, steps: seq<seq<Bar>>, start: int, i: int, j: int, end: int, bag: multiset<int>)
  {
    && 0 <= start <= j <= end < |a| == |a0|
    && a[end] == pivot && a0[end] == pivot
    && Scanned(a, start, i, j, end)
    && SameOutside(a0, a, start, end - 1)
    && multiset(Values(a)) == bag
    && ScansPushed(steps0, steps, Values(a0), start, j, end)
    && Values(a) == ScanState(Values(a0), start, end, j - start).0
    && i == ScanState(Values(a0), start, end, j - start).1
    && QuickSteps(steps, |a|, bag)
  }

  /** One turn of the scan loop keeps its invariant. */
  lemma {:induction false} ScanNext(a: seq<Bar>, a0: seq<Bar>, pivot: Bar, steps0: seq<seq<Bar>>, steps: seq<seq<Bar>>, start: int, i: int, j: int, end: int, bag: multiset<int>)
    requires j < end && ScanLoop(a, a0, pivot, steps0, steps, start, i, j, end, bag)
    ensures var b := if a[j].value < pivot.value then a[i := a[j]][j := a[i]] else a;
      var i' := if a[j].value < pivot.value then i + 1 else i;
      ScanLoop(b, a0, pivot, steps0, steps + [Recolor(a, ScanColors(|a|, j, end))], start, i', j + 1, end, bag)
  {
    PushScan(steps, a, j, end, bag);
    ScanStep(a0, a, start, i, j, end);
    ScanStateStep(a, Values(a0), start, i, j, end);
    NextScanPushed(steps0, steps, a, Values(a0), start, j, end);
    if a[j].value < pivot.value {
      var b := a[i := a[j]][j := a[i]];
      SwapKeepsBag(a, i, j, 0, |a|);
      assert a[0..|a|] == a && b[0..|b|] == b;
    }
  }

  lemma {:induction false} ScanBegins(a: seq<Bar>, steps0: seq<seq<Bar>>, start: int, end: int, bag: multiset<int>)
    requires 0 <= start < end < |a|
    requires multiset(Values(a)) == bag && QuickSteps(steps0, |a|, bag)
    ensures ScanLoop(a, a, a[end], steps0, steps0, start, start, start, end, bag)
  {
    assert steps0[..|steps0|] == steps0;
  }

  lemma {:induction false} ScanEnds(a: seq<Bar>, a0: seq<Bar>, pivot: Bar, steps0: seq<seq<Bar>>, steps: seq<seq<Bar>>, start: int, i: int, end: int, bag: multiset<int>)
    requires ScanLoop(a, a0, pivot, steps0, steps, start, i, end, end, bag)
    ensures start <= i <= end && a[end] == a0[end]
    ensures forall k :: start <= k < i ==> a[k].value < a[end].value
    ensures forall k :: i <= k < end ==> a[end].value <= a[k].value
    ensures SameOutside(a0, a, start, end - 1) && multiset(Values(a)) == bag
    ensures ScansPushed(steps0, steps, Values(a0), start, end, end)
    ensures Values(a) == ScanState(Values(a0), start, end, end - start).0
    ensures i == ScanState(Values(a0), start, end, end - start).1
    ensures QuickSteps(steps, |a|, bag)
  {
  }

  /** One turn of the scan loop: push the compare step for j, then swap a
      shorter bar to the boundary. */
  method ScanAndPush(arr: array<Bar>, ghost a0: seq<Bar>, pivot: Bar, steps0: seq<seq<Bar>>, steps: seq<seq<Bar>>, start: int, i: int, j: int, end: int, ghost bag: multiset<int>)
    returns (i': int, steps': seq<seq<Bar>>)
    requires j < end && ScanLoop(arr[..], a0, pivot, steps0, steps, start, i, j, end, bag)
    modifies arr
    ensures steps' == steps + [Recolor(old(arr[..]), ScanColors(arr.Length, j, end))]
    ensures ScanLoop(arr[..], a0, pivot, steps0, steps', start, i', j + 1, end, bag)
  {
    ScanNext(arr[..], a0, pivot, steps0, steps, start, i, j, end, bag);
    steps' := steps + [Recolor(arr[..], ScanColors(arr.Length, j, end))];
    i' := i;
    if arr[j].value < pivot.value {
      Swap(arr, i, j);
      i' := i + 1;
    }
  }

  /** The `for j` loop of `partition(start, end)`: a compare step per j in
      start..end-1, and every bar strictly shorter than the pivot arr[end] is
      swapped to the front boundary i. The pivot itself is never moved. */
  method PartitionScan(arr: array<Bar>, start: int, end: int, steps0: seq<seq<Bar>>, ghost bag: multiset<int>)
    returns (i: int, steps: seq<seq<Bar>>)
    requires 0 <= start < end < arr.Length
    requires multiset(Values(arr[..])) == bag
    requires QuickSteps(steps0, arr.Length, bag)
    modifies arr
    ensures start <= i <= end
    ensures arr[end] == old(arr[end])
    ensures forall k :: start <= k < i ==> arr[k].value < arr[end].value
    ensures forall k :: i <= k < end ==> arr[end].value <= arr[k].value
    ensures SameOutside(old(arr[..]), arr[..], start, end - 1)
    ensures multiset(Values(arr[..])) == bag
    // the t-th compare step marks start + t and shows the heights after t scan steps
    ensures ScansPushed(steps0, steps, Values(old(arr[..])), start, end, end)
    ensures Values(arr[..]) == ScanState(Values(old(arr[..])), start, end, end - start).0
    ensures i == ScanState(Values(old(arr[..])), start, end, end - start).1
    ensures QuickSteps(steps, arr.Length, bag)
  {
    steps := steps0;
    var pivot := arr[end];
    i := start;
    ScanBegins(arr[..], steps0, start, end, bag);
    for j := start to end
      invariant ScanLoop(arr[..], old(arr[..]), pivot, steps0, steps, start, i, j, end, bag)
    {
      i, steps := ScanAndPush(arr, old(arr[..]), pivot, steps0, steps, start, i, j, end, bag);
    }
    ScanEnds(arr[..], old(arr[..]), pivot, steps0, steps, start, i, end, bag);
  }

  /** After the scan, swapping the pivot at `end` with the boundary bar at i
      partitions the range around i and moves nothing outside it. */
  lemma {:induction false} PlacePivot(a: seq<Bar>, start: int, i: int, end: int)
    requires 0 <= start <= i <= end < |a|
    requires forall k :: start <= k < i ==> a[k].value < a[end].value
    requires forall k :: i <= k < end ==> a[end].value <= a[k].value
    ensures PartitionedAt(a[i := a[end]][end := a[i]], start, i, end)
    ensures SameOutside(a, a[i := a[end]][end := a[i]], start, end)
  {
  }

  /** `partition(start, end)`: scan start..end-1 against the pivot arr[end],
      swap the pivot to the boundary p, then push a step marking it sorted.
      The range is rearranged around the pivot, nothing outside it moves, and
      exactly end - start compare steps and one pivot step are pushed. */
  method Partition(arr: array<Bar>, start: int, end: int, steps0: seq<seq<Bar>>, ghost bag: multiset<int>)
    returns (p: int, steps: seq<seq<Bar>>)
    requires 0 <= start < end < arr.Length
    requires multiset(Values(arr[..])) == bag
    requires Bracketed(arr[..], start, end)
    requires QuickSteps(steps0, arr.Length, bag)
    modifies arr
    ensures PartitionedAt(arr[..], start, p, end)
    ensures arr[p] == old(arr[end])
    ensures SameOutside(old(arr[..]), arr[..], start, end)
    ensures multiset(Values(arr[..])) == bag
    ensures |steps| == |steps0| + (end - start) + 1
    ensures steps[..|steps0|] == steps0
    ensures forall k :: |steps0| <= k < |steps0| + (end - start) ==> Colors(steps[k]) == ScanColors(arr.Length, start + (k - |steps0|), end)
    ensures Colors(steps[|steps| - 1]) == PivotColors(arr.Length, p)
    // the compare steps show the heights during the scan, the pivot step the
    // partitioned range
    ensures ScansPushed(steps0, steps[..|steps| - 1], Values(old(arr[..])), start, end, end)
    ensures p == ScanState(Values(old(arr[..])), start, end, end - start).1
    ensures Values(steps[|steps| - 1]) == Values(arr[..]) == Lomuto(Values(old(arr[..])), start, end)
    ensures QuickSteps(steps, arr.Length, bag)
  {
    var n := arr.Length;
    p, steps := PartitionScan(arr, start, end, steps0, bag);
    PlacePivot(arr[..], start, p, end);
    Swap(arr, p, end);
    BracketKept(old(arr[..]), arr[..], start, end);
    PivotSettled(arr[..], start, p, end);
    PushPivot(steps, arr[..], p, bag);
    ghost var scanned := steps;
    steps := steps + [Recolor(arr[..], PivotColors(n, p))];
    assert steps[..|steps| - 1] == scanned;
  }

  /** a and b differ at most inside start..end. */
  ghost predicate SameOutside(a: seq<Bar>, b: seq<Bar>, start: int, end: int)
  {
    |a| == |b| && forall k :: 0 <= k < |a| && (k < start || end < k) ==> a[k] == b[k]
  }

  /** Two changes confined to sub-ranges of start..end are confined to start..end. */
  lemma {:induction false} SameOutsideTrans(a: seq<Bar>, b: seq<Bar>, c: seq<Bar>, start: int, end: int, lo1: int, hi1: int, lo2: int, hi2: int)
    requires start <= lo1 && hi1 <= end && start <= lo2 && hi2 <= end
    requires SameOutside(a, b, lo1, hi1) && SameOutside(b, c, lo2, hi2)
    ensures SameOutside(a, c, start, end)
  {
  }

  /** `quickSort(start, end)` on the inclusive range start..end: nothing for
      fewer than two bars, otherwise partition and sort both sides. A range of
      m >= 1 bars pushes at least m - 1 steps. */
  method Sort(arr: array<Bar>, start: int, end: int, steps0: seq<seq<Bar>>, ghost bag: multiset<int>)
    returns (steps: seq<seq<Bar>>)
    requires 0 <= start <= end + 1 <= arr.Length
    requires multiset(Values(arr[..])) == bag
    requires Bracketed(arr[..], start, end)
    requires QuickSteps(steps0, arr.Length, bag)
    modifies arr
    decreases end + 1 - start, 1
    ensures SameOutside(old(arr[..]), arr[..], start, end)
    ensures multiset(Values(arr[..])) == bag
    ensures SortedRange(arr[..], start, end)
    ensures QuickSteps(steps, arr.Length, bag)
    ensures end <= start ==> steps == steps0 && arr[..] == old(arr[..])
    ensures |steps| >= |steps0| && steps[..|steps0|] == steps0
    ensures end - start <= |steps| - |steps0|
  {
    if start >= end {
      return steps0;
    }
    ghost var a0 := arr[..];
    var p;
    p, steps := Partition(arr, start, end, steps0, bag);
    ghost var a1 := arr[..];
    BracketKept(a0, a1, start, end);
    steps := SortSides(arr, start, p, end, steps, bag);
    SameOutsideTrans(a0, a1, arr[..], start, end, start, end, start, end);
  }

  /** The two recursive calls `quickSort(start, p - 1)` and `quickSort(p + 1, end)`
      after the range has been partitioned around p. */
  method SortSides(arr: array<Bar>, start: int, p: int, end: int, steps0: seq<seq<Bar>>, ghost bag: multiset<int>)
    returns (steps: seq<seq<Bar>>)
    requires multiset(Values(arr[..])) == bag
    requires Bracketed(arr[..], start, end) && PartitionedAt(arr[..], start, p, end)
    requires QuickSteps(steps0, arr.Length, bag)
    modifies arr
    decreases end + 1 - start, 0
    ensures SameOutside(old(arr[..]), arr[..], start, end)
    ensures multiset(Values(arr[..])) == bag
    ensures SortedRange(arr[..], start, end)
    ensures QuickSteps(steps, arr.Length, bag)
    ensures |steps| >= |steps0| && steps[..|steps0|] == steps0
    ensures end - start - 2 <= |steps| - |steps0|
  {
    ghost var a1 := arr[..];
    LeftBracketed(a1, start, p, end);
    steps := Sort(arr, start, p - 1, steps0, bag);
    ghost var a2 := arr[..];
    AfterLeft(a1, a2, start, p, end);
    steps := Sort(arr, p + 1, end, steps, bag);
    AfterRight(a2, arr[..], start, p, end);
    SameOutsideTrans(a1, a2, arr[..], start, end, start, p - 1, p + 1, end);
  }

  /** Appending the all-sorted step to well-formed steps gives the generator's result. */
  lemma {:induction false} Finish(steps: seq<seq<Bar>>, last: seq<Bar>, input: seq<Bar>)
    requires QuickSteps(steps, |input|, multiset(Values(input)))
    requires |last| == |input| && FinalStep(last, input)
    ensures forall k :: 0 <= k < |steps + [last]| ==> Snapshot((steps + [last])[k], |input|, multiset(Values(input)))
    ensures forall k :: 0 <= k < |steps + [last]| - 1 ==> ShowsScan((steps + [last])[k]) || ShowsPivot((steps + [last])[k])
    ensures FinalStep((steps + [last])[|steps + [last]| - 1], input)
  {
  }

  /** `quickSortSteps`: the partition steps of every range, then the all-sorted
      step. Fewer than two bars give that one step alone. */
  method QuickSortSteps(input: array<Bar>) returns (steps: seq<seq<Bar>>)
    ensures input.Length <= 1 ==> |steps| == 1
    ensures input.Length <= |steps|
    ensures forall k :: 0 <= k < |steps| ==> Snapshot(steps[k], input.Length, multiset(Values(input[..])))
    ensures forall k :: 0 <= k < |steps| - 1 ==> ShowsScan(steps[k]) || ShowsPivot(steps[k])
    ensures FinalStep(steps[|steps| - 1], input[..])
  {
    var n := input.Length;
    var arr := CopyOf(input);
    ghost var bag := multiset(Values(arr[..]));
    steps := Sort(arr, 0, n - 1, [], bag);
    assert SortedPrefix(arr[..], n);
    SortedBars(arr[..]);
    var last := Recolor(arr[..], Uniform(n, Sorted));
    Finish(steps, last, input[..]);
    steps := steps + [last];
  }
}
