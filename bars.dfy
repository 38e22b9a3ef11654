/** Bars, colour tags and snapshots: the vocabulary shared by the five step generators. */
module Bars {

  /** The highlight tags a bar can carry. The page maps them to hex colours;
      only which tag lands on which index matters here. */
  datatype Color = Default | Compare | Sorted | Pivot | Left | Right | Merged

  /** One bar of the chart: its height and its highlight. */
  datatype Bar = Bar(value: int, color: Color)

  /** The heights of a row of bars, in order. */
  function Values(s: seq<Bar>): (v: seq<int>)
    ensures |v| == |s|
    ensures forall k {:trigger v[k]} :: 0 <= k < |s| ==> v[k] == s[k].value
  {
    seq(|s|, k requires 0 <= k < |s| => s[k].value)
  }

  /** The highlights of a row of bars, in order. */
  function Colors(s: seq<Bar>): (c: seq<Color>)
    ensures |c| == |s|
    ensures forall k :: 0 <= k < |s| ==> c[k] == s[k].color
  {
    seq(|s|, k requires 0 <= k < |s| => s[k].color)
  }

  /** A snapshot of the working array: every bar keeps its height and takes
      the colour given for its index (the generators' `arr.map((bar, idx) => ...)`). */
  function Recolor(s: seq<Bar>, colors: seq<Color>): (r: seq<Bar>)
    requires |colors| == |s|
    ensures Values(r) == Values(s)
    ensures Colors(r) == colors
  {
    var r := seq(|s|, k requires 0 <= k < |s| => Bar(s[k].value, colors[k]));
    assert Values(r) == Values(s);
    r
  }

  /** Every index gets the same colour (the final `{ ...bar, color: COLOR_SORTED }`). */
  function Uniform(n: nat, c: Color): (cs: seq<Color>)
    ensures |cs| == n && forall k :: 0 <= k < n ==> cs[k] == c
  {
    seq(n, _ => c)
  }

  /** Exactly the indices a and b are highlighted as compared, every other
      index is default. */
  function CompareColors(n: nat, a: int, b: int): (cs: seq<Color>)
    ensures |cs| == n
    ensures forall k :: 0 <= k < n ==> (cs[k] == Compare <==> k == a || k == b)
    ensures forall k :: 0 <= k < n ==> cs[k] in {Compare, Default}
  {
    seq(n, k => if k == a || k == b then Compare else Default)
  }

  /** Indices 0..i are marked sorted, the rest default. */
  function PrefixColors(n: nat, i: int): (cs: seq<Color>)
    ensures |cs| == n
    ensures forall k :: 0 <= k < n ==> (cs[k] == Sorted <==> k <= i)
    ensures forall k :: 0 <= k < n ==> cs[k] in {Sorted, Default}
  {
    seq(n, k => if k <= i then Sorted else Default)
  }

  /** Heights read in order never decrease. */
  ghost predicate SortedValues(v: seq<int>)
  {
    forall p, q :: 0 <= p < q < |v| ==> v[p] <= v[q]
  }

  /** The first `len` bars are in height order and none is taller than a
      later bar: that prefix is already in its final place. */
  ghost predicate SettledPrefix(a: seq<Bar>, len: int)
  {
    forall p, q :: 0 <= p < q < |a| && p < len ==> a[p].value <= a[q].value
  }

  /** The first `len` bars are in height order. */
  ghost predicate SortedPrefix(a: seq<Bar>, len: int)
  {
    forall p, q :: 0 <= p < q < len && q < |a| ==> a[p].value <= a[q].value
  }

  /** A row whose bars are in height order reads as sorted heights. */
  lemma {:induction false} SortedBars(a: seq<Bar>)
    requires SortedPrefix(a, |a|)
    ensures SortedValues(Values(a))
  {
  }

  /** A step of the right length whose heights are a rearrangement of `bag`. */
  ghost predicate Snapshot(s: seq<Bar>, n: nat, bag: multiset<int>)
  {
    |s| == n && multiset(Values(s)) == bag
  }

  /** Every step so far is a snapshot of a rearrangement of `bag`. */
  ghost predicate Snapshots(steps: seq<seq<Bar>>, n: nat, bag: multiset<int>)
  {
    forall k :: 0 <= k < |steps| ==> Snapshot(steps[k], n, bag)
  }

  /** The last step of every generator: every bar marked sorted, heights
      non-decreasing and a rearrangement of the input heights. */
  ghost predicate FinalStep(s: seq<Bar>, input: seq<Bar>)
  {
    && Colors(s) == Uniform(|input|, Sorted)
    && SortedValues(Values(s))
    && multiset(Values(s)) == multiset(Values(input))
  }

  /** The private working copy every generator sorts (`[...array]` or
      `array.map(bar => ({ ...bar }))`). */
  method CopyOf(a: array<Bar>) returns (b: array<Bar>)
    ensures fresh(b)
    ensures b.Length == a.Length && b[..] == a[..]
  {
    b := new Bar[a.Length](k requires 0 <= k < a.Length reads a => a[k]);
  }

  /** The destructuring swap `[arr[i], arr[j]] = [arr[j], arr[i]]`. */
  method Swap(a: array<Bar>, i: int, j: int)
    requires 0 <= i < a.Length && 0 <= j < a.Length
    modifies a
    ensures a[..] == old(a[..])[i := old(a[j])][j := old(a[i])]
    ensures multiset(Values(a[..])) == multiset(Values(old(a[..])))
  {
    a[i], a[j] := a[j], a[i];
    SwapKeepsBag(old(a[..]), i, j, 0, a.Length);
    assert a[..] == a[..][0..a.Length];
    assert old(a[..]) == old(a[..])[0..a.Length];
  }

  /** Swapping two positions inside [lo, hi) keeps the heights of that range
      a rearrangement of what they were. */
  lemma {:induction false} SwapKeepsBag(s: seq<Bar>, i: int, j: int, lo: int, hi: int)
    requires 0 <= lo <= i < hi <= |s| && lo <= j < hi
    ensures multiset(Values(s[i := s[j]][j := s[i]][lo..hi])) == multiset(Values(s[lo..hi]))
  {
    var v := Values(s[lo..hi]);
    var w := v[i - lo := v[j - lo]][j - lo := v[i - lo]];
    assert Values(s[i := s[j]][j := s[i]][lo..hi]) == w;
  }

  /** The heights of a range split at any point are the heights of the two parts. */
  lemma {:induction false} ValuesSplit(s: seq<Bar>, a: int, b: int, c: int)
    requires 0 <= a <= b <= c <= |s|
    ensures Values(s[a..c]) == Values(s[a..b]) + Values(s[b..c])
    ensures multiset(Values(s[a..c])) == multiset(Values(s[a..b])) + multiset(Values(s[b..c]))
  {
    assert Values(s[a..c]) == Values(s[a..b]) + Values(s[b..c]);
  }

  /** Two rows that agree outside [lo, hi) hold the same heights overall
      exactly when they hold the same heights inside [lo, hi). */
  lemma {:induction false} RangeBag(a: seq<Bar>, b: seq<Bar>, lo: int, hi: int)
    requires |a| == |b| && 0 <= lo <= hi <= |a|
    requires forall k :: 0 <= k < lo || hi <= k < |a| ==> a[k] == b[k]
    ensures multiset(Values(a[lo..hi])) == multiset(Values(b[lo..hi])) <==> multiset(Values(a)) == multiset(Values(b))
  {
    var va, vb := Values(a), Values(b);
    assert Values(a[lo..hi]) == va[lo..hi];
    assert Values(b[lo..hi]) == vb[lo..hi];
    assert va[..lo] == vb[..lo];
    assert va[hi..] == vb[hi..];
    BagFrame(va, vb, lo, hi);
  }

  lemma {:induction false} BagFrame(va: seq<int>, vb: seq<int>, lo: int, hi: int)
    requires |va| == |vb| && 0 <= lo <= hi <= |va|
    requires va[..lo] == vb[..lo] && va[hi..] == vb[hi..]
    ensures multiset(va[lo..hi]) == multiset(vb[lo..hi]) <==> multiset(va) == multiset(vb)
  {
    assert va == va[..lo] + va[lo..hi] + va[hi..];
    assert vb == vb[..lo] + vb[lo..hi] + vb[hi..];
    var rest := multiset(va[..lo]) + multiset(va[hi..]);
    assert multiset(va) == rest + multiset(va[lo..hi]);
    assert multiset(vb) == rest + multiset(vb[lo..hi]);
    if multiset(va) == multiset(vb) {
      forall e
        ensures multiset(va[lo..hi])[e] == multiset(vb[lo..hi])[e]
      {
        assert multiset(va)[e] == multiset(vb)[e];
      }
    }
  }

  /** A rearrangement keeps every upper or lower bound on the heights. */
  lemma {:induction false} BagKeepsBounds(old_: seq<int>, new_: seq<int>, x: int)
    requires multiset(old_) == multiset(new_)
    ensures (forall k :: 0 <= k < |old_| ==> old_[k] < x) ==> (forall k :: 0 <= k < |new_| ==> new_[k] < x)
    ensures (forall k :: 0 <= k < |old_| ==> old_[k] >= x) ==> (forall k :: 0 <= k < |new_| ==> new_[k] >= x)
  {
    forall k | 0 <= k < |new_|
      ensures exists m :: 0 <= m < |old_| && old_[m] == new_[k]
    {
      assert new_[k] in multiset(new_);
      assert new_[k] in multiset(old_);
    }
  }
}
