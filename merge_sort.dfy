/** Step generator for merge sort: top-down halves, merged through two buffers
    written back into the working array. */
module MergeSort {
  import opened Bars

  /** The reference merge of two height sequences: the front heights are
      compared and the left one is taken on a tie. */
  function MergeValues(l: seq<int>, r: seq<int>): (m: seq<int>)
    decreases |l| + |r|
    ensures |m| == |l| + |r|
  {
    if |l| == 0 then r
    else if |r| == 0 then l
    else if l[0] <= r[0] then [l[0]] + MergeValues(l[1..], r)
    else [r[0]] + MergeValues(l, r[1..])
  }

  /** Which buffer each position of MergeValues(l, r) is taken from (true: left). */
  function FromLeft(l: seq<int>, r: seq<int>): (f: seq<bool>)
    decreases |l| + |r|
    ensures |f| == |l| + |r|
  {
    if |l| == 0 then seq(|r|, _ => false)
    else if |r| == 0 then seq(|l|, _ => true)
    else if l[0] <= r[0] then [true] + FromLeft(l[1..], r)
    else [false] + FromLeft(l, r[1..])
  }

  /** Number of two-buffer comparisons, that is, of compare steps, while merging l and r. */
  function Comparisons(l: seq<int>, r: seq<int>): (c: nat)
    decreases |l| + |r|
  {
    if |l| == 0 || |r| == 0 then 0
    else 1 + (if l[0] <= r[0] then Comparisons(l[1..], r) else Comparisons(l, r[1..]))
  }

  /** Merging rearranges the two buffers' heights: nothing is lost or duplicated. */
  lemma {:induction false} MergeBag(l: seq<int>, r: seq<int>)
    decreases |l| + |r|
    ensures multiset(MergeValues(l, r)) == multiset(l) + multiset(r)
  {
    if |l| > 0 && |r| > 0 {
      if l[0] <= r[0] {
        MergeBag(l[1..], r);
        ConsBag(l, MergeValues(l[1..], r), r);
      } else {
        MergeBag(l, r[1..]);
        ConsBag(r, MergeValues(l, r[1..]), l);
      }
    }
  }

  /** Putting the head of s in front of a rearrangement of the rest of s
      (together with u) gives a rearrangement of s together with u. */
  lemma {:induction false} ConsBag(s: seq<int>, t: seq<int>, u: seq<int>)
    requires |s| > 0 && multiset(t) == multiset(s[1..]) + multiset(u)
    ensures multiset([s[0]] + t) == multiset(s) + multiset(u)
  {
    assert s == [s[0]] + s[1..];
  }

  /** A lower bound on both buffers bounds the merge. */
  lemma {:induction false} MergeAbove(l: seq<int>, r: seq<int>, x: int)
    requires forall k :: 0 <= k < |l| ==> x <= l[k]
    requires forall k :: 0 <= k < |r| ==> x <= r[k]
    decreases |l| + |r|
    ensures forall k :: 0 <= k < |l| + |r| ==> x <= MergeValues(l, r)[k]
  {
    if |l| > 0 && |r| > 0 {
      if l[0] <= r[0] {
        MergeAbove(l[1..], r, x);
      } else {
        MergeAbove(l, r[1..], x);
      }
    }
  }

  /** Merging two sorted buffers gives a sorted sequence. */
  lemma {:induction false} MergeSorted(l: seq<int>, r: seq<int>)
    requires SortedValues(l) && SortedValues(r)
    decreases |l| + |r|
    ensures SortedValues(MergeValues(l, r))
  {
    if |l| > 0 && |r| > 0 {
      if l[0] <= r[0] {
        MergeSorted(l[1..], r);
        MergeAbove(l[1..], r, l[0]);
      } else {
        MergeSorted(l, r[1..]);
        MergeAbove(l, r[1..], r[0]);
      }
    }
  }

  /** A merge of l and r with both non-empty compares at least min(|l|, |r|)
      and at most |l| + |r| - 1 times. */
  lemma {:induction false} ComparisonsBounds(l: seq<int>, r: seq<int>)
    decreases |l| + |r|
    ensures |l| == 0 || |r| == 0 ==> Comparisons(l, r) == 0
    ensures |l| > 0 && |r| > 0 ==> Comparisons(l, r) <= |l| + |r| - 1
    ensures Comparisons(l, r) >= (if |l| <= |r| then |l| else |r|)
  {
    if |l| > 0 && |r| > 0 {
      if l[0] <= r[0] {
        ComparisonsBounds(l[1..], r);
      } else {
        ComparisonsBounds(l, r[1..]);
      }
    }
  }

  /** Every height taken from a sorted left buffer is at least its first height. */
  lemma {:induction false} LeftAtLeastHead(l: seq<int>, r: seq<int>, q: int)
    requires SortedValues(l) && |l| > 0
    requires 0 <= q < |l| + |r| && FromLeft(l, r)[q]
    decreases |l| + |r|
    ensures MergeValues(l, r)[q] >= l[0]
  {
    if |r| > 0 {
      if l[0] <= r[0] {
        if q > 0 && |l| > 1 {
          SortedTail(l);
          LeftAtLeastHead(l[1..], r, q - 1);
        }
      } else {
        LeftAtLeastHead(l, r[1..], q - 1);
      }
    }
  }

  lemma {:induction false} SortedTail(v: seq<int>)
    requires SortedValues(v) && |v| > 0
    ensures SortedValues(v[1..])
  {
  }

  /** Stability: when both buffers are sorted, a height taken from the right
      buffer never precedes an equal height taken from the left buffer. */
  lemma {:induction false} TiesGoLeft(l: seq<int>, r: seq<int>, p: int, q: int)
    requires SortedValues(l) && SortedValues(r)
    requires 0 <= p < q < |l| + |r|
    requires !FromLeft(l, r)[p] && FromLeft(l, r)[q]
    decreases |l| + |r|
    ensures MergeValues(l, r)[p] < MergeValues(l, r)[q]
  {
    if |l| > 0 && |r| > 0 {
      if l[0] <= r[0] {
        TakesLeft(l, r, p);
        TakesLeft(l, r, q);
        SortedTail(l);
        TiesGoLeft(l[1..], r, p - 1, q - 1);
      } else {
        TakesRight(l, r, p);
        TakesRight(l, r, q);
        SortedTail(r);
        if p == 0 {
          LeftAtLeastHead(l, r[1..], q - 1);
        } else {
          TiesGoLeft(l, r[1..], p - 1, q - 1);
        }
      }
    }
  }

  /** Position k > 0 of a merge that starts from the left buffer is position
      k - 1 of the merge of the rest. */
  lemma {:induction false} TakesLeft(l: seq<int>, r: seq<int>, k: int)
    requires |l| > 0 && |r| > 0 && l[0] <= r[0] && 0 <= k < |l| + |r|
    ensures FromLeft(l, r)[0] && MergeValues(l, r)[0] == l[0]
    ensures k > 0 ==> FromLeft(l, r)[k] == FromLeft(l[1..], r)[k - 1] && MergeValues(l, r)[k] == MergeValues(l[1..], r)[k - 1]
  {
  }

  /** Position k > 0 of a merge that starts from the right buffer is position
      k - 1 of the merge of the rest. */
  lemma {:induction false} TakesRight(l: seq<int>, r: seq<int>, k: int)
    requires |l| > 0 && |r| > 0 && l[0] > r[0] && 0 <= k < |l| + |r|
    ensures !FromLeft(l, r)[0] && MergeValues(l, r)[0] == r[0]
    ensures k > 0 ==> FromLeft(l, r)[k] == FromLeft(l, r[1..])[k - 1] && MergeValues(l, r)[k] == MergeValues(l, r[1..])[k - 1]
  {
  }

  /** Taking one height from the front of a buffer: when the rest of the
      merge from cursors l, r on is the tail of m, the height taken is m[l + r],
      the merge from the advanced cursors is the next tail of m, and one
      comparison fewer remains. */
  lemma {:induction false} Advance(lv: seq<int>, rv: seq<int>, m: seq<int>, l: int, r: int, l2: int, r2: int)
    requires 0 <= l < |lv| && 0 <= r < |rv| && l + r <= |m|
    requires MergeValues(lv[l..], rv[r..]) == m[l + r..]
    requires if lv[l] <= rv[r] then l2 == l + 1 && r2 == r else l2 == l && r2 == r + 1
    ensures m[l + r] == if lv[l] <= rv[r] then lv[l] else rv[r]
    ensures MergeValues(lv[l2..], rv[r2..]) == m[l2 + r2..]
    ensures Comparisons(lv[l..], rv[r..]) == 1 + Comparisons(lv[l2..], rv[r2..])
  {
    assert lv[l..][1..] == lv[l + 1..];
    assert rv[r..][1..] == rv[r + 1..];
    assert m[l + r..][1..] == m[l + r + 1..];
  }

  /** The heights of v once the first t heights of the merge m have been
      written back from position start on: what a compare step pushed after
      t iterations of the merge loop shows. */
  function Written(v: seq<int>, m: seq<int>, start: int, t: int): (w: seq<int>)
    requires 0 <= start && 0 <= t <= |m| && start + t <= |v|
    ensures |w| == |v|
    ensures forall k :: 0 <= k < |v| ==> w[k] == if start <= k < start + t then m[k - start] else v[k]
  {
    v[..start] + m[..t] + v[start + t..]
  }

  /** Writing the next merged height extends what has been written by one. */
  lemma {:induction false} WrittenNext(a: seq<Bar>, v0: seq<int>, m: seq<int>, start: int, i: int, x: Bar)
    requires 0 <= start <= i && i - start < |m| && i < |v0| == |a|
    requires Values(a) == Written(v0, m, start, i - start) && x.value == m[i - start]
    ensures Values(a[i := x]) == Written(v0, m, start, i + 1 - start)
  {
    assert Values(a[i := x]) == Values(a)[i := x.value];
  }

  /** Highlights of the first step of a merge: the left half and the right half. */
  function HalvesColors(n: nat, start: int, mid: int, end: int): (cs: seq<Color>)
    ensures |cs| == n
    ensures forall k :: 0 <= k < n ==> (cs[k] == Left <==> start <= k < mid)
    ensures forall k :: 0 <= k < n ==> (cs[k] == Right <==> mid <= k < end && !(start <= k < mid))
    ensures forall k :: 0 <= k < n ==> cs[k] in {Left, Right, Default}
  {
    seq(n, k => if start <= k < mid then Left else if mid <= k < end then Right else Default)
  }

  /** Highlights of a compare step: the halves of the first step, with the
      output index i marked compared on top. */
  function CursorColors(n: nat, i: int, start: int, mid: int, end: int): (cs: seq<Color>)
    ensures |cs| == n
    ensures 0 <= i < n ==> cs == HalvesColors(n, start, mid, end)[i := Compare]
    ensures forall k :: 0 <= k < n ==> (cs[k] == Compare <==> k == i)
  {
    seq(n, k => if k == i then Compare else if start <= k < mid then Left else if mid <= k < end then Right else Default)
  }

  /** Highlights of the step after a merge: the merged range. */
  function MergedColors(n: nat, start: int, end: int): (cs: seq<Color>)
    ensures |cs| == n
    ensures forall k :: 0 <= k < n ==> (cs[k] == Merged <==> start <= k < end)
    ensures forall k :: 0 <= k < n ==> cs[k] in {Merged, Default}
  {
    seq(n, k => if start <= k < end then Merged else Default)
  }

  /** Highlights of the closing step of a merge: default inside the range,
      the colour each bar carries in the array outside it. */
  function ResetColors(a: seq<Bar>, start: int, end: int): (cs: seq<Color>)
    ensures |cs| == |a|
    ensures forall k :: 0 <= k < |a| && start <= k < end ==> cs[k] == Default
    ensures forall k :: 0 <= k < |a| && !(start <= k < end) ==> cs[k] == Colors(a)[k]
  {
    seq(|a|, k requires 0 <= k < |a| => if start <= k < end then Default else a[k].color)
  }

  /** Bars lo..hi-1 are in height order. */
  ghost predicate SortedBetween(a: seq<Bar>, lo: int, hi: int)
  {
    forall p, q :: 0 <= lo <= p < q < hi <= |a| ==> a[p].value <= a[q].value
  }

  /** Every bar of the working array carries either the colour it had in the
      input or the merged colour written by a merge. */
  ghost predicate Tinted(a: seq<Bar>, tints: seq<Color>)
  {
    |a| == |tints| && forall k :: 0 <= k < |a| ==> a[k].color == Merged || a[k].color == tints[k]
  }

  /** a and b differ at most inside lo..hi-1. */
  ghost predicate Untouched(a: seq<Bar>, b: seq<Bar>, lo: int, hi: int)
  {
    |a| == |b| && forall k :: 0 <= k < |a| && (k < lo || hi <= k) ==> a[k] == b[k]
  }

  ghost predicate HalvesAt(s: seq<Bar>, start: int, mid: int, end: int)
  {
    && 0 <= start < mid < end <= |s|
    && Colors(s) == HalvesColors(|s|, start, mid, end)
    && SortedBetween(s, start, mid) && SortedBetween(s, mid, end)
  }

  /** The first step of a merge: the two halves highlighted, each already sorted. */
  ghost predicate ShowsHalves(s: seq<Bar>, bag: multiset<int>)
  {
    multiset(Values(s)) == bag && exists start, mid, end :: HalvesAt(s, start, mid, end)
  }

  /** A compare step: an output index inside the range highlighted, the two
      halves around it. The heights are those of a merge in progress. */
  ghost predicate ShowsCursor(s: seq<Bar>)
  {
    exists i, start, mid, end :: 0 <= start <= i < end <= |s| && start < mid < end && Colors(s) == CursorColors(|s|, i, start, mid, end)
  }

  ghost predicate MergedAt(s: seq<Bar>, start: int, end: int)
  {
    0 <= start < end <= |s| && Colors(s) == MergedColors(|s|, start, end) && SortedBetween(s, start, end)
  }

  /** The step after a merge: the merged range highlighted and in height order. */
  ghost predicate ShowsMerged(s: seq<Bar>, bag: multiset<int>)
  {
    multiset(Values(s)) == bag && exists start, end :: MergedAt(s, start, end)
  }

  ghost predicate ResetAt(s: seq<Bar>, start: int, end: int, tints: seq<Color>)
  {
    && 0 <= start < end <= |s| && |tints| == |s|
    && SortedBetween(s, start, end)
    && forall k :: 0 <= k < |s| ==> if start <= k < end then s[k].color == Default else s[k].color == Merged || s[k].color == tints[k]
  }

  /** The closing step of a merge: the sorted range back to default, every
      other bar with its input colour or the merged colour. */
  ghost predicate ShowsReset(s: seq<Bar>, bag: multiset<int>, tints: seq<Color>)
  {
    multiset(Values(s)) == bag && exists start, end :: ResetAt(s, start, end, tints)
  }

  /** Every step so far has length n and one of the four shapes of a merge. */
  ghost predicate MergeSteps(steps: seq<seq<Bar>>, n: nat, bag: multiset<int>, tints: seq<Color>)
  {
    forall k :: 0 <= k < |steps| ==>
      |steps[k]| == n && (ShowsHalves(steps[k], bag) || ShowsCursor(steps[k]) || ShowsMerged(steps[k], bag) || ShowsReset(steps[k], bag, tints))
  }

  lemma {:induction false} PushHalves(steps: seq<seq<Bar>>, a: seq<Bar>, start: int, mid: int, end: int, bag: multiset<int>, tints: seq<Color>)
    requires MergeSteps(steps, |a|, bag, tints)
    requires multiset(Values(a)) == bag && 0 <= start < mid < end <= |a|
    requires SortedBetween(a, start, mid) && SortedBetween(a, mid, end)
    ensures MergeSteps(steps + [Recolor(a, HalvesColors(|a|, start, mid, end))], |a|, bag, tints)
  {
    var snapshot := Recolor(a, HalvesColors(|a|, start, mid, end));
    assert HalvesAt(snapshot, start, mid, end);
  }

  /** The first t compare steps of a merge of the range start..end-1 into
      merged heights m, pushed after steps0 over heights v0: step t' marks
      output index start + t' compared and shows v0 with the first t' merged
      heights written back. */
  ghost predicate CursorsPushed(steps0: seq<seq<Bar>>, steps: seq<seq<Bar>>, v0: seq<int>, m: seq<int>, start: int, mid: int, end: int, t: int)
  {
    && 0 <= start && 0 <= t <= |m| && start + |m| <= |v0|
    && |steps| == |steps0| + t && steps[..|steps0|] == steps0
    && (forall k :: |steps0| <= k < |steps| ==> Colors(steps[k]) == CursorColors(|v0|, start + (k - |steps0|), start, mid, end))
    && (forall k :: |steps0| <= k < |steps| ==> Values(steps[k]) == Written(v0, m, start, k - |steps0|))
  }

  /** Pushing the compare step for output index i extends the merge's
      compare steps by the one for i. */
  lemma {:induction false} PushCursor(steps0: seq<seq<Bar>>, steps: seq<seq<Bar>>, a: seq<Bar>, v0: seq<int>, m: seq<int>, i: int, start: int, mid: int, end: int,
                   bag: multiset<int>, tints: seq<Color>)
    requires MergeSteps(steps, |a|, bag, tints)
    requires 0 <= start <= i < end <= |a| == |v0| && start < mid < end && |m| == end - start
    requires CursorsPushed(steps0, steps, v0, m, start, mid, end, i - start)
    requires Values(a) == Written(v0, m, start, i - start)
    ensures var after := steps + [Recolor(a, CursorColors(|a|, i, start, mid, end))];
      && MergeSteps(after, |a|, bag, tints)
      && CursorsPushed(steps0, after, v0, m, start, mid, end, i + 1 - start)
  {
    var after := steps + [Recolor(a, CursorColors(|a|, i, start, mid, end))];
    var snapshot := after[|after| - 1];
    assert Colors(snapshot) == CursorColors(|snapshot|, i, start, mid, end);
    assert ShowsCursor(snapshot);
    assert after[..|steps0|] == steps[..|steps0|];
    forall k | |steps0| <= k < |after|
      ensures Colors(after[k]) == CursorColors(|v0|, start + (k - |steps0|), start, mid, end)
      ensures Values(after[k]) == Written(v0, m, start, k - |steps0|)
    {
      if k < |steps| {
        assert after[k] == steps[k];
      }
    }
  }

  lemma {:induction false} PushMerged(steps: seq<seq<Bar>>, a: seq<Bar>, start: int, end: int, bag: multiset<int>, tints: seq<Color>)
    requires MergeSteps(steps, |a|, bag, tints)
    requires multiset(Values(a)) == bag && 0 <= start < end <= |a| && SortedBetween(a, start, end)
    ensures MergeSteps(steps + [Recolor(a, MergedColors(|a|, start, end))], |a|, bag, tints)
  {
    var snapshot := Recolor(a, MergedColors(|a|, start, end));
    assert MergedAt(snapshot, start, end);
  }

  lemma {:induction false} PushReset(steps: seq<seq<Bar>>, a: seq<Bar>, start: int, end: int, bag: multiset<int>, tints: seq<Color>)
    requires MergeSteps(steps, |a|, bag, tints)
    requires multiset(Values(a)) == bag && 0 <= start < end <= |a| && SortedBetween(a, start, end)
    requires Tinted(a, tints)
    ensures MergeSteps(steps + [Recolor(a, ResetColors(a, start, end))], |a|, bag, tints)
  {
    var snapshot := Recolor(a, ResetColors(a, start, end));
    assert ResetAt(snapshot, start, end, tints);
  }

  /** The `while (l < left.length && r < right.length)` loop: push a compare
      step for output index i, then write the smaller front height of the two
      buffers (the left one on a tie) into arr[i] with the merged colour.
      What is written is the front of the reference merge. */
  method MergeLoop(arr: array<Bar>, start: int, mid: int, end: int, left: seq<Bar>, right: seq<Bar>,
                   steps0: seq<seq<Bar>>, ghost bag: multiset<int>, ghost tints: seq<Color>)
    returns (i: int, l: int, r: int, steps: seq<seq<Bar>>)
    requires 0 <= start < mid < end <= arr.Length
    requires |left| == mid - start && |right| == end - mid
    requires Tinted(arr[..], tints)
    requires MergeSteps(steps0, arr.Length, bag, tints)
    modifies arr
    ensures 0 <= l <= |left| && 0 <= r <= |right| && i == start + l + r
    ensures l == |left| || r == |right|
    ensures forall k :: start <= k < i ==> arr[k] == Bar(MergeValues(Values(left), Values(right))[k - start], Merged)
    ensures MergeValues(Values(left)[l..], Values(right)[r..]) == MergeValues(Values(left), Values(right))[l + r..]
    ensures forall k :: 0 <= k < arr.Length && (k < start || i <= k) ==> arr[k] == old(arr[k])
    ensures Tinted(arr[..], tints)
    ensures |steps| + Comparisons(Values(left)[l..], Values(right)[r..]) == |steps0| + Comparisons(Values(left), Values(right))
    ensures CursorsPushed(steps0, steps, Values(old(arr[..])), MergeValues(Values(left), Values(right)), start, mid, end, i - start)
    ensures MergeSteps(steps, arr.Length, bag, tints)
  {
    var n := arr.Length;
    ghost var lv, rv := Values(left), Values(right);
    ghost var m := MergeValues(lv, rv);
    ghost var v0 := Values(arr[..]);
    steps := steps0;
    i, l, r := start, 0, 0;
    assert steps0[..|steps0|] == steps0;
    assert Values(arr[..]) == Written(v0, m, start, 0);
    while l < |left| && r < |right|
      invariant 0 <= l <= |left| && 0 <= r <= |right| && i == start + l + r
      invariant forall k :: start <= k < i ==> arr[k] == Bar(m[k - start], Merged)
      invariant MergeValues(lv[l..], rv[r..]) == m[l + r..]
      invariant forall k :: 0 <= k < n && (k < start || i <= k) ==> arr[k] == old(arr[k])
      invariant |steps| + Comparisons(lv[l..], rv[r..]) == |steps0| + Comparisons(lv, rv)
      invariant Values(arr[..]) == Written(v0, m, start, i - start)
      invariant CursorsPushed(steps0, steps, v0, m, start, mid, end, i - start)
      invariant MergeSteps(steps, n, bag, tints)
    {
      l, r, steps := CompareAndTake(arr, start, mid, end, left, right, i, l, r, m, v0, steps0, steps, bag, tints);
      i := i + 1;
    }
  }

  /** One iteration of the merge loop: push the compare step for output
      index i, then take the smaller front height into arr[i]. */
  method CompareAndTake(arr: array<Bar>, start: int, mid: int, end: int, left: seq<Bar>, right: seq<Bar>,
                        i: int, l: int, r: int, ghost m: seq<int>, ghost v0: seq<int>,
                        steps0: seq<seq<Bar>>, steps: seq<seq<Bar>>, ghost bag: multiset<int>, ghost tints: seq<Color>)
    returns (l': int, r': int, steps': seq<seq<Bar>>)
    requires 0 <= start < mid < end <= arr.Length == |v0|
    requires |left| == mid - start && |right| == end - mid && m == MergeValues(Values(left), Values(right))
    requires 0 <= l < |left| && 0 <= r < |right| && i == start + l + r
    requires MergeValues(Values(left)[l..], Values(right)[r..]) == m[l + r..]
    requires Tinted(arr[..], tints)
    requires Values(arr[..]) == Written(v0, m, start, i - start)
    requires CursorsPushed(steps0, steps, v0, m, start, mid, end, i - start)
    requires MergeSteps(steps, arr.Length, bag, tints)
    modifies arr
    ensures l' + r' == l + r + 1 && l <= l' <= |left| && r <= r' <= |right|
    ensures arr[..] == old(arr[..])[i := Bar(m[l + r], Merged)]
    ensures MergeValues(Values(left)[l'..], Values(right)[r'..]) == m[l' + r'..]
    ensures Comparisons(Values(left)[l..], Values(right)[r..]) == 1 + Comparisons(Values(left)[l'..], Values(right)[r'..])
    ensures Tinted(arr[..], tints)
    // the compare step shows the array before the write
    ensures steps' == steps + [Recolor(old(arr[..]), CursorColors(arr.Length, i, start, mid, end))]
    ensures Values(arr[..]) == Written(v0, m, start, i + 1 - start)
    ensures CursorsPushed(steps0, steps', v0, m, start, mid, end, i + 1 - start)
    ensures MergeSteps(steps', arr.Length, bag, tints)
  {
    PushCursor(steps0, steps, arr[..], v0, m, i, start, mid, end, bag, tints);
    steps' := steps + [Recolor(arr[..], CursorColors(arr.Length, i, start, mid, end))];
    ghost var a := arr[..];
    l', r' := TakeFront(arr, i, left, right, l, r, m, tints);
    WrittenNext(a, v0, m, start, i, Bar(m[l + r], Merged));
  }

  /** The body of the merge loop after its step: write the smaller front
      height of the two buffers (the left one on a tie) into arr[i] with the
      merged colour and advance that buffer's cursor. The height written is
      the next one of the reference merge m. */
  method TakeFront(arr: array<Bar>, i: int, left: seq<Bar>, right: seq<Bar>, l: int, r: int,
                   ghost m: seq<int>, ghost tints: seq<Color>)
    returns (l': int, r': int)
    requires 0 <= l < |left| && 0 <= r < |right| && 0 <= i < arr.Length && l + r <= |m|
    requires MergeValues(Values(left)[l..], Values(right)[r..]) == m[l + r..]
    requires Tinted(arr[..], tints)
    modifies arr
    ensures if left[l].value <= right[r].value then l' == l + 1 && r' == r else l' == l && r' == r + 1
    ensures arr[..] == old(arr[..])[i := Bar(m[l + r], Merged)]
    ensures MergeValues(Values(left)[l'..], Values(right)[r'..]) == m[l' + r'..]
    ensures Comparisons(Values(left)[l..], Values(right)[r..]) == 1 + Comparisons(Values(left)[l'..], Values(right)[r'..])
    ensures Tinted(arr[..], tints)
  {
    var fromLeft := left[l].value <= right[r].value;
    arr[i] := Bar(if fromLeft then left[l].value else right[r].value, Merged);
    l', r' := if fromLeft then l + 1 else l, if fromLeft then r else r + 1;
    Advance(Values(left), Values(right), m, l, r, l', r');
  }

  /** One of the two trailing loops: copy what is left of a buffer, from
      cursor c0 on, into arr from i0 on with the merged colour. */
  method Drain(arr: array<Bar>, i0: int, buf: seq<Bar>, c0: int, ghost tints: seq<Color>) returns (i: int, c: int)
    requires 0 <= c0 <= |buf| && 0 <= i0 && i0 + (|buf| - c0) <= arr.Length
    requires Tinted(arr[..], tints)
    modifies arr
    ensures c == |buf| && i == i0 + (|buf| - c0)
    ensures forall k :: i0 <= k < i ==> arr[k] == Bar(buf[c0 + (k - i0)].value, Merged)
    ensures forall k :: 0 <= k < arr.Length && (k < i0 || i <= k) ==> arr[k] == old(arr[k])
    ensures Tinted(arr[..], tints)
  {
    i, c := i0, c0;
    while c < |buf|
      invariant c0 <= c <= |buf| && i == i0 + (c - c0)
      invariant forall k :: i0 <= k < i ==> arr[k] == Bar(buf[c0 + (k - i0)].value, Merged)
      invariant forall k :: 0 <= k < arr.Length && (k < i0 || i <= k) ==> arr[k] == old(arr[k])
      invariant Tinted(arr[..], tints)
    {
      arr[i] := Bar(buf[c].value, Merged);
      i, c := i + 1, c + 1;
    }
  }

  /** The three loops of `merge` together: range start..end-1 ends up holding
      the reference merge of the two buffers, all with the merged colour. */
  method MergeBuffers(arr: array<Bar>, start: int, mid: int, end: int, left: seq<Bar>, right: seq<Bar>,
                      steps0: seq<seq<Bar>>, ghost bag: multiset<int>, ghost tints: seq<Color>)
    returns (steps: seq<seq<Bar>>)
    requires 0 <= start < mid < end <= arr.Length
    requires |left| == mid - start && |right| == end - mid
    requires Tinted(arr[..], tints)
    requires MergeSteps(steps0, arr.Length, bag, tints)
    modifies arr
    ensures forall k :: start <= k < end ==> arr[k] == Bar(MergeValues(Values(left), Values(right))[k - start], Merged)
    ensures Untouched(old(arr[..]), arr[..], start, end)
    ensures Tinted(arr[..], tints)
    ensures CursorsPushed(steps0, steps, Values(old(arr[..])), MergeValues(Values(left), Values(right)), start, mid, end, Comparisons(Values(left), Values(right)))
    ensures MergeSteps(steps, arr.Length, bag, tints)
  {
    ghost var lv, rv := Values(left), Values(right);
    ghost var m := MergeValues(lv, rv);
    var i, l, r;
    i, l, r, steps := MergeLoop(arr, start, mid, end, left, right, steps0, bag, tints);
    ComparisonsBounds(lv[l..], rv[r..]);
    // one buffer is used up, so the merge ends with what is left of the other
    if l == |left| {
      assert m[l + r..] == lv[l..] + rv[r..] by { assert lv[l..] == []; }
    } else {
      assert m[l + r..] == lv[l..] + rv[r..] by { assert rv[r..] == []; }
    }
    DrainBoth(arr, start, i, left, right, l, r, m, tints);
  }

  /** The two trailing loops of `merge`: once the merge loop has written the
      first i0 - start merged heights and one buffer is used up, copying the
      rest of the left buffer and then the rest of the right one completes
      the merge m in start..end-1. */
  method DrainBoth(arr: array<Bar>, start: int, i0: int, left: seq<Bar>, right: seq<Bar>, l0: int, r0: int,
                   ghost m: seq<int>, ghost tints: seq<Color>)
    requires 0 <= l0 <= |left| && 0 <= r0 <= |right| && 0 <= start && i0 == start + l0 + r0
    requires |m| == |left| + |right| && start + |m| <= arr.Length
    requires m[l0 + r0..] == Values(left)[l0..] + Values(right)[r0..]
    requires forall k :: start <= k < i0 ==> arr[k] == Bar(m[k - start], Merged)
    requires Tinted(arr[..], tints)
    modifies arr
    ensures forall k :: start <= k < start + |m| ==> arr[k] == Bar(m[k - start], Merged)
    ensures forall k :: 0 <= k < arr.Length && (k < i0 || start + |m| <= k) ==> arr[k] == old(arr[k])
    ensures Tinted(arr[..], tints)
  {
    ghost var lv, rv := Values(left), Values(right);
    var i, l := Drain(arr, i0, left, l0, tints);
    ghost var a2, i2 := arr[..], i;
    var r;
    i, r := Drain(arr, i, right, r0, tints);
    forall k | start <= k < start + |m|
      ensures arr[k] == Bar(m[k - start], Merged)
    {
      if k < i0 {
        assert arr[k] == a2[k];
      } else if k < i2 {
        assert arr[k] == a2[k] == Bar(lv[l0..][k - i0], Merged);
        assert m[k - start] == m[l0 + r0..][k - i0];
      } else {
        assert arr[k] == Bar(rv[r0..][k - i2], Merged);
        assert m[k - start] == m[l0 + r0..][k - i0];
      }
    }
  }

  /** After the write-back the whole array holds the same heights as before,
      and the range is sorted. */
  lemma {:induction false} MergedRange(a0: seq<Bar>, a1: seq<Bar>, start: int, mid: int, end: int)
    requires 0 <= start < mid < end <= |a0|
    requires SortedBetween(a0, start, mid) && SortedBetween(a0, mid, end)
    requires Untouched(a0, a1, start, end)
    requires forall k :: start <= k < end ==> a1[k].value == MergeValues(Values(a0[start..mid]), Values(a0[mid..end]))[k - start]
    ensures multiset(Values(a1)) == multiset(Values(a0))
    ensures SortedBetween(a1, start, end)
  {
    var lv, rv := Values(a0[start..mid]), Values(a0[mid..end]);
    var m := MergeValues(lv, rv);
    assert Values(a1[start..end]) == m;
    MergeBag(lv, rv);
    ValuesSplit(a0, start, mid, end);
    RangeBag(a0, a1, start, end);
    MergeSorted(lv, rv);
  }

  /** The steps one merge of start..mid-1 and mid..end-1 pushes after steps0,
      taking the array from a0 to a, in order: the halves over a0, one compare
      step per two-buffer comparison (each over a0 with the merged heights
      written back so far), the merged range over a, and the reset over a. */
  ghost predicate OneMerge(steps0: seq<seq<Bar>>, steps: seq<seq<Bar>>, a0: seq<Bar>, a: seq<Bar>, start: int, mid: int, end: int)
  {
    && 0 <= start < mid < end <= |a0| == |a|
    && |steps| >= |steps0| + 3
    && Values(steps[|steps0|]) == Values(a0) && HalvesAt(steps[|steps0|], start, mid, end)
    && CursorsPushed(steps0 + [steps[|steps0|]], steps[..|steps| - 2], Values(a0),
                     MergeValues(Values(a0[start..mid]), Values(a0[mid..end])), start, mid, end,
                     Comparisons(Values(a0[start..mid]), Values(a0[mid..end])))
    && Values(steps[|steps| - 2]) == Values(a) && MergedAt(steps[|steps| - 2], start, end)
    && Values(steps[|steps| - 1]) == Values(a) && Colors(steps[|steps| - 1]) == ResetColors(a, start, end)
  }

  /** `merge(start, mid, end)`: push the halves step, merge the buffers back
      into the array, then push the merged step and the reset step. */
  method Merge(arr: array<Bar>, start: int, mid: int, end: int, steps0: seq<seq<Bar>>, ghost bag: multiset<int>, ghost tints: seq<Color>)
    returns (steps: seq<seq<Bar>>)
    requires 0 <= start < mid < end <= arr.Length
    requires multiset(Values(arr[..])) == bag && Tinted(arr[..], tints)
    requires SortedBetween(arr[..], start, mid) && SortedBetween(arr[..], mid, end)
    requires MergeSteps(steps0, arr.Length, bag, tints)
    modifies arr
    ensures forall k :: start <= k < end ==> arr[k] == Bar(MergeValues(Values(old(arr[start..mid])), Values(old(arr[mid..end])))[k - start], Merged)
    ensures Untouched(old(arr[..]), arr[..], start, end)
    ensures multiset(Values(arr[..])) == bag && Tinted(arr[..], tints)
    ensures SortedBetween(arr[..], start, end)
    ensures |steps| >= |steps0| + 4 && steps[..|steps0|] == steps0
    ensures OneMerge(steps0, steps, old(arr[..]), arr[..], start, mid, end)
    ensures MergeSteps(steps, arr.Length, bag, tints)
  {
    var n := arr.Length;
    var left := arr[start..mid];
    var right := arr[mid..end];
    ghost var a0 := arr[..];
    PushHalves(steps0, arr[..], start, mid, end, bag, tints);
    var halves := Recolor(arr[..], HalvesColors(n, start, mid, end));
    steps := steps0 + [halves];
    ghost var s1 := steps;
    steps := MergeBuffers(arr, start, mid, end, left, right, steps, bag, tints);
    ghost var s2 := steps;
    assert a0[start..mid] == left && a0[mid..end] == right;
    ComparisonsBounds(Values(left), Values(right));
    MergedRange(a0, arr[..], start, mid, end);
    PushMerged(steps, arr[..], start, end, bag, tints);
    steps := steps + [Recolor(arr[..], MergedColors(n, start, end))];
    PushReset(steps, arr[..], start, end, bag, tints);
    steps := steps + [Recolor(arr[..], ResetColors(arr[..], start, end))];
    MergeLayout(steps0, halves, s2, steps);
  }

  /** The steps of one merge, pushed one after another, keep their places. */
  lemma {:induction false} MergeLayout(steps0: seq<seq<Bar>>, halves: seq<Bar>, s2: seq<seq<Bar>>, steps: seq<seq<Bar>>)
    requires |s2| >= |steps0| + 1 && s2[..|steps0| + 1] == steps0 + [halves]
    requires |steps| == |s2| + 2 && steps[..|s2|] == s2
    ensures steps[..|steps0|] == steps0 && steps[|steps0|] == halves
    ensures steps[..|steps| - 2] == s2
  {
    assert steps[..|steps0|] == s2[..|steps0| + 1][..|steps0|];
    assert steps[|steps0|] == s2[..|steps0| + 1][|steps0|];
  }

  /** `mergeSort(start, end)` on the half-open range start..end-1: nothing for
      fewer than two bars, otherwise sort both halves and merge them. A range
      of m >= 1 bars runs m - 1 merges of at least four steps each. */
  method Sort(arr: array<Bar>, start: int, end: int, steps0: seq<seq<Bar>>, ghost bag: multiset<int>, ghost tints: seq<Color>)
    returns (steps: seq<seq<Bar>>)
    requires 0 <= start <= end <= arr.Length
    requires multiset(Values(arr[..])) == bag && Tinted(arr[..], tints)
    requires MergeSteps(steps0, arr.Length, bag, tints)
    modifies arr
    decreases end - start
    ensures Untouched(old(arr[..]), arr[..], start, end)
    ensures multiset(Values(arr[..])) == bag && Tinted(arr[..], tints)
    ensures SortedBetween(arr[..], start, end)
    ensures MergeSteps(steps, arr.Length, bag, tints)
    ensures end - start >= 2 ==> forall k :: start <= k < end ==> arr[k].color == Merged
    ensures end - start <= 1 ==> steps == steps0 && arr[..] == old(arr[..])
    ensures |steps| >= |steps0| && steps[..|steps0|] == steps0
    ensures 4 * (end - start - 1) <= |steps| - |steps0|
  {
    if end - start <= 1 {
      return steps0;
    }
    var mid := (start + end) / 2;
    steps := Sort(arr, start, mid, steps0, bag, tints);
    ghost var s1 := steps;
    steps := Sort(arr, mid, end, steps, bag, tints);
    ghost var s2 := steps;
    steps := Merge(arr, start, mid, end, steps, bag, tints);
    assert steps[..|steps0|] == s2[..|s1|][..|steps0|] == s1[..|steps0|];
  }

  /** Appending the all-sorted step to well-formed steps gives the generator's result. */
  lemma {:induction false} Finish(steps: seq<seq<Bar>>, last: seq<Bar>, input: seq<Bar>)
    requires MergeSteps(steps, |input|, multiset(Values(input)), Colors(input))
    requires |last| == |input| && FinalStep(last, input)
    ensures forall k :: 0 <= k < |steps + [last]| ==> |(steps + [last])[k]| == |input|
    ensures forall k :: 0 <= k < |steps + [last]| - 1 ==>
      var s := (steps + [last])[k];
      ShowsHalves(s, multiset(Values(input))) || ShowsCursor(s) || ShowsMerged(s, multiset(Values(input))) || ShowsReset(s, multiset(Values(input)), Colors(input))
    ensures FinalStep((steps + [last])[|steps + [last]| - 1], input)
  {
  }

  /** `mergeSortSteps`: the steps of every merge, then the all-sorted step.
      Fewer than two bars give that one step alone. */
  method MergeSortSteps(input: array<Bar>) returns (steps: seq<seq<Bar>>)
    ensures input.Length <= 1 ==> |steps| == 1
    ensures input.Length >= 1 ==> |steps| >= 4 * (input.Length - 1) + 1
    ensures forall k :: 0 <= k < |steps| ==> |steps[k]| == input.Length
    ensures forall k :: 0 <= k < |steps| - 1 ==>
      var bag := multiset(Values(input[..]));
      ShowsHalves(steps[k], bag) || ShowsCursor(steps[k]) || ShowsMerged(steps[k], bag) || ShowsReset(steps[k], bag, Colors(input[..]))
    ensures FinalStep(steps[|steps| - 1], input[..])
  {
    var n := input.Length;
    var arr := CopyOf(input);
    ghost var bag := multiset(Values(arr[..]));
    ghost var tints := Colors(input[..]);
    steps := Sort(arr, 0, n, [], bag, tints);
    assert SortedPrefix(arr[..], n);
    SortedBars(arr[..]);
    var last := Recolor(arr[..], Uniform(n, Sorted));
    Finish(steps, last, input[..]);
    steps := steps + [last];
  }
}
