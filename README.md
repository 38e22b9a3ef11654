# Sorting visualizer step generators, in Dafny

The sorting visualizer animates five comparison sorts over an array of bars.
Each bar has a height (`value`) and a highlight colour. Its engine is five
generators in `src/algorithms/`:
`bubbleSortSteps`, `selectionSortSteps`, `insertionSortSteps`,
`quickSortSteps` and `mergeSortSteps`.

Each generator does the same four things:
- copies the input bars into a working array;
- sorts that copy in place with the textbook algorithm;
- before or after each comparison or write, pushes a recoloured snapshot of the whole array onto a list of steps;
- ends with one snapshot in which every bar is marked sorted.

This project models those generators imperatively:
- the working copy is an `array<Bar>`;
- the step list is a `seq<seq<Bar>>` that every loop and recursive call threads through;
- each `for`/`while` loop of the source is a `while`/`for` loop with invariants.

An inner loop, or the pair of recursive calls after a partition, is a method of its own (`Pass`, `ScanForMin`, `SinkWhile`, `PartitionScan`, `SortSides`, `MergeLoop`, `Drain`); the body of a loop that both pushes a step and changes the array is one too (`CompareStep`, `SwapAndPush`, `ScanAndPush`, `CompareAndTake`). The outer routine calls it in the same place as the source. The closures `quickSort`/`partition` and `mergeSort`/`merge` become methods. They take the shared working array, the step list so far, and ghost bookkeeping: the multiset of input heights, and for merge sort the input colours.

Shared vocabulary (`bars.dfy`, module `Bars`):
- `Bar(value: int, color: Color)` models the `Bar` interface.
- The colour strings become the tags `Default | Compare | Sorted | Pivot | Left | Right | Merged`.
- `Recolor` models the `arr.map((bar, idx) => ({ ...bar, color: ... }))` snapshot: every bar keeps its height and takes the colour given for its index.
- `Swap` models the destructuring swap.

The generators' input is an `array<Bar>` without a `modifies` clause, so the verifier proves that the caller's array is left alone.

What is proved, per generator:
- The step count:
  - bubble: exactly n(n-1)/2 + 1;
  - selection: exactly n(n+1)/2 + 1;
  - insertion: the number of inversions of the input, plus max(n-1, 0), plus 1;
  - quick: at least n, and exactly 1 for n ≤ 1;
  - merge: at least 4(n-1) + 1, and exactly 1 for n ≤ 1.
- Every step has length n.
- What each step shows: the heights the working array holds at the moment it is pushed. Reference functions compute those heights from the input:
  - bubble: `PassPrefix` (the first j compares of a pass) and `BeforePass` (the first i passes);
  - selection: `Place` (fill one position) and `SelectBefore` (the first i positions);
  - insertion: `SinkPrefix` (the first t swaps of a sinking bar), `Insert` and `InsertBefore`;
  - quick: inside one partition, `ScanState` (the first t scan steps) and `Lomuto` (the whole partition);
  - merge: inside one merge, `Written` (the array before the merge with the first t heights of the reference merge written back).
- Where each step sits and what it shows:
  - bubble: the compare step of pass i for index j sits at `Slot(n, i, j)` and highlights exactly j and j+1;
  - selection: the scan step of position i for index j sits at `ScanIndex(n, i, j)` and highlights j and the leftmost smallest height of i..j-1 (`MinIndex`); the step settling position i sits at `SettledIndex(n, i)`;
  - insertion: a ghost list `ends` cuts the steps into one block per position i, and block i holds the swap steps for j = i, i-1, ... in order and then the step marking 0..i sorted; block i holds one swap step per bar of the input's 0..i-1 strictly taller than the input's bar i (`Above`), plus the prefix step;
  - quick and merge: every step has one of the generator's shapes, and the order is pinned inside one partition (`Partition`) and one merge (`Merge`).
- For the "sorted" markings, the marked bars really are in order or in their final place (insertion's swap steps: 0..i apart from the sinking bar is in order).
- Every step is a rearrangement of the input heights, except merge sort's mid-merge compare steps (see below).
- The last step is all `Sorted`, non-decreasing, and a rearrangement of the input heights.

Bubble sort is also proved stable: a ghost trace `perm` maps every position to the input position its bar came from, and bars of equal height keep their input order.

Merge sort is also specified against a reference merge `MergeValues`. The lemmas about it prove:
- permutation;
- sortedness;
- the number of comparisons and its bounds;
- stability: a height from the right buffer never precedes an equal height from the left buffer.

Three behaviours of the code worth knowing:
- `merge` pushes two steps after the write-back, one with the range tinted merged and one resetting the range to default.
- Compare steps are pushed only while both buffers are non-empty, not while the rest of a buffer is copied.
- A compare step shows the array halfway through the write-back. Its heights can repeat one bar and lose another. For example, merging `[2, 5]` with `[1, 6]` shows `[1, 5, 1, 6]` at the second comparison. So for merge sort, "every step is a rearrangement of the input" holds for the halves, merged and reset steps, and not for compare steps.

## Model

| member | source | states |
|---|---|---|
| `Bars.Recolor` | src/algorithms/bubbleSort.ts:15-18 | a snapshot keeps every bar's height, in order, and takes exactly the colour given for its index |
| `Bars.CopyOf` | src/algorithms/selectionSort.ts:10 | the working copy is a fresh array of the same length holding the input's bars |
| `Bars.Swap` | src/algorithms/bubbleSort.ts:22 | the two positions are exchanged, nothing else changes, and the multiset of heights is kept |
| `Bars.RangeBag` | src/algorithms/quickSort.ts:20-33 | for two rows that agree outside a range, the range is a rearrangement exactly when the whole row is |
| `Bars.Uniform` | src/algorithms/bubbleSort.ts:28 | the final colouring gives every one of the n bars the same colour |
| `Bars.CompareColors` | src/algorithms/selectionSort.ts:16 | exactly the two given indices are compared, every other bar default |
| `Bars.PrefixColors` | src/algorithms/selectionSort.ts:27 | exactly the indices up to i are sorted, every other bar default |
| `BubbleSort.AdjacentColors` | src/algorithms/bubbleSort.ts:17 | exactly j and j+1 are compared, every other bar default |
| `BubbleSort.BubbleSortSteps` | src/algorithms/bubbleSort.ts:3-30 | 2(steps - 1) = n(n-1); for every pass i and index j < n-1-i, the step at Slot(n, i, j) = ComparesBefore(n, i) + j highlights exactly j and j+1 and shows the heights after passes 0..i-1 and the first j compares of pass i (`PassPrefix` of `BeforePass`); every step is a length-n rearrangement of the input heights; the last is all sorted, non-decreasing, a rearrangement of the input, and shows the heights after every pass |
| `BubbleSort.AllPasses` | src/algorithms/bubbleSort.ts:12-25 | after the outer loop the copy holds the heights of `BeforePass` after every pass, sorted, and a stable rearrangement of the input (a trace maps each bar to its input position, equal heights keep their input order); the compare step of every pass p and index j sits at Slot(n, p, j) and shows the heights of the array when it was pushed |
| `BubbleSort.Pass` | src/algorithms/bubbleSort.ts:13-24 | pass i appends n-1-i steps after the unchanged earlier ones, the t-th highlighting t and t+1 and showing the heights after t compares of the pass (`PassPrefix`); the array ends at the heights after all n-1-i compares; it keeps the heights and the stable trace, and grows the finished tail (largest heights, in order) by one position |
| `BubbleSort.CompareStep` | src/algorithms/bubbleSort.ts:21-23 | the new array is the old one with j and j+1 exchanged exactly when the left bar is strictly taller, and unchanged otherwise, so its heights are `Exchange` of the old heights; the pass state moves from j to j+1: heights kept, finished tail kept, the running maximum at j+1, the trace still stable |
| `BubbleSort.ExchangeValues` | src/algorithms/bubbleSort.ts:21-23 | the array's compare-and-swap of j and j+1 acts on the heights as `Exchange`: exchanged exactly when the left height is strictly larger |
| `BubbleSort.PassStep` | src/algorithms/bubbleSort.ts:21-23 | the array after the step is the old one with j and j+1 exchanged exactly when the left height is strictly larger, the trace follows the same exchange, and the pass state moves to j+1 |
| `BubbleSort.SwapStable` | src/algorithms/bubbleSort.ts:21-22 | exchanging neighbours only when the left one is strictly taller keeps every pair of equal heights in input order |
| `BubbleSort.CompareAndSwap` | src/algorithms/bubbleSort.ts:21-23 | one compare-and-swap carries the running maximum one place right and leaves the finished tail alone |
| `BubbleSort.NextPass` | src/algorithms/bubbleSort.ts:12-19 | appending pass i's compare steps in index order after those of passes 0..i-1 puts every step of passes 0..i at its slot |
| `BubbleSort.NextPassHeights` | src/algorithms/bubbleSort.ts:12-19 | appending pass i's steps, the t-th showing the heights after t compares, after passes 0..i-1 makes the step at every slot of passes 0..i show the heights before its compare |
| `BubbleSort.ComparesMonotone` | src/algorithms/bubbleSort.ts:12-13 | earlier passes push their steps before later ones |
| `BubbleSort.ComparesBeforeClosed` | src/algorithms/bubbleSort.ts:12-13 | passes 0..i-1 push i(2n-1-i)/2 compare steps |
| `BubbleSort.ComparesTotal` | src/algorithms/bubbleSort.ts:12-13 | all passes push n(n-1)/2 compare steps |
| `SelectionSort.MinIndex` | src/algorithms/selectionSort.ts:12-20 | the index held in minIdx after scanning i..j-1: a smallest height there, and the leftmost one |
| `SelectionSort.SelectionSortSteps` | src/algorithms/selectionSort.ts:3-32 | 2(steps - 1) = n(n+1); the steps before the last are laid out as `PositionsPushed` says: for i < j < n the step at ScanIndex(n, i, j) highlights exactly j and the leftmost smallest height of i..j-1, and for every i the step at SettledIndex(n, i) marks 0..i sorted and that prefix really is settled; and as `HeightsPushed` says: the scan steps of i show the heights before i is filled (`SelectBefore`), the settled step of i those after; every step is a length-n rearrangement of the input heights; the last is all sorted, non-decreasing, a rearrangement of the input |
| `SelectionSort.ScanForMin` | src/algorithms/selectionSort.ts:12-21 | minIdx is MinIndex of i..n-1; n-1-i steps are appended to the unchanged earlier steps, the one for j showing the array's heights with MinIndex of i..j-1 and j compared; the array is only read |
| `SelectionSort.PlaceNext` | src/algorithms/selectionSort.ts:11-28 | returns minIdx = MinIndex of i..n-1; the array is the old one with i and minIdx exchanged when they differ and unchanged otherwise, so its heights are `Place` of the old heights; the settled prefix grows to 0..i; n-i steps are appended: the scan steps in order, each showing the old heights, then the step marking 0..i sorted, showing the new heights |
| `SelectionSort.PlaceAll` | src/algorithms/selectionSort.ts:11-29 | the outer loop sorts the copy, keeps the heights, ends at `SelectBefore` of every position, and lays out the steps of every position at their indices (`PositionsPushed`), each showing the heights of the array when it was pushed (`HeightsPushed`) |
| `SelectionSort.PlaceMinimum` | src/algorithms/selectionSort.ts:22-24 | swapping the minimum of i..n-1 into position i when it is elsewhere extends the settled prefix |
| `SelectionSort.NextPosition` | src/algorithms/selectionSort.ts:11-28 | appending position i's scan steps and settled step after those of positions 0..i-1 puts every step of positions 0..i at its index |
| `SelectionSort.NextPositionHeights` | src/algorithms/selectionSort.ts:11-28 | appending position i's scan steps over the heights before i is filled and its settled step over those after extends `HeightsPushed` to positions 0..i |
| `SelectionSort.StepsMonotone` | src/algorithms/selectionSort.ts:11-29 | earlier positions push their steps before later ones |
| `SelectionSort.StepsBeforeClosed` | src/algorithms/selectionSort.ts:11-29 | positions 0..i-1 push i(2n+1-i)/2 steps |
| `SelectionSort.StepsTotal` | src/algorithms/selectionSort.ts:11-29 | all positions push n(n+1)/2 steps |
| `InsertionSort.SwapColors` | src/algorithms/insertionSort.ts:16 | exactly j-1 and j are compared, the rest of 0..i-1 sorted, every other bar default |
| `InsertionSort.InsertionSortSteps` | src/algorithms/insertionSort.ts:3-28 | steps = inversions of the input + max(n-1, 0) + 1; the steps before the last are cut by `ends` into one block per position i = 1..n-1, holding the swap steps for j = i, i-1, ... in order (each a strictly inverted pair j-1, j, with the rest of 0..i in order) and then the step marking 0..i sorted with 0..i in order; block i holds exactly one swap step per bar of input[0..i-1] strictly taller than input[i] (`Sizes`); in block i the t-th swap step shows the heights before i is inserted after t swaps (`SinkPrefix` of `InsertBefore`) and the prefix step the heights once i is inserted (`HeightsPushed`); every step is a length-n rearrangement of the input heights; the last is all sorted, non-decreasing, a rearrangement of the input |
| `InsertionSort.InsertAll` | src/algorithms/insertionSort.ts:11-25 | the outer loop sorts the copy, keeps the heights, ends at `InsertBefore` of every position, and pushes one block per position and as many steps as inversions plus max(n-1, 0); block i is one step longer than the number of bars of the input's 0..i-1 strictly taller than the input's bar i; every step shows the heights of the array when it was pushed |
| `InsertionSort.InsertNext` | src/algorithms/insertionSort.ts:11-24 | one outer iteration sorts 0..i, leaves i+1.. untouched, ends at `Insert` of the old heights, and appends to the unchanged earlier steps the swap steps for j = i, i-1, ... in order, one per bar of 0..i-1 strictly taller than bar i, the t-th showing the heights after t swaps, then the step marking 0..i sorted, showing the new heights |
| `InsertionSort.Sink` | src/algorithms/insertionSort.ts:12-20 | the while loop leaves 0..i in order, leaves i+1.. untouched, keeps the heights, pushes exactly as many steps as inversions it removes and as bars of 0..i-1 strictly taller than bar i, and its t-th step shows the swap of i-t-1 and i-t on the heights after t swaps (`SinkPrefix`), which is also where the array ends |
| `InsertionSort.SinkWhile` | src/algorithms/insertionSort.ts:13-20 | the while loop keeps the sink state (`SinkLoop`) and stops exactly when j = 0 or the bar left of j is not strictly taller |
| `InsertionSort.SwapAndPush` | src/algorithms/insertionSort.ts:14-19 | one iteration pushes exactly the array before the swap, recoloured with j-1 and j compared and the rest of 0..i-1 sorted, then exchanges j-1 and j and moves j one place left, keeping the sink state |
| `InsertionSort.SinkStep` | src/algorithms/insertionSort.ts:13-19 | one swap moves the sinking bar from j to j-1 past one strictly taller bar, keeps 0..i apart from it in order, and leaves i+1.. alone |
| `InsertionSort.SinkStops` | src/algorithms/insertionSort.ts:13 | when the while guard fails no bar left of the sinking bar is taller |
| `InsertionSort.SinkPrefixStep` | src/algorithms/insertionSort.ts:18 | the array's swap of j-1 and j is the next step of `SinkPrefix` |
| `InsertionSort.AboveBag` | src/algorithms/insertionSort.ts:11-20 | the number of bars taller than a height depends only on the multiset of heights, so the sorted prefix and the input prefix give the same count |
| `InsertionSort.NextSize` | src/algorithms/insertionSort.ts:11-24 | position i's block, sized on the sorted prefix, has the size the input gives it |
| `InsertionSort.NextBlock` | src/algorithms/insertionSort.ts:11-24 | appending position i's block after the blocks of positions 1..i-1 gives the blocks of positions 1..i |
| `InsertionSort.NextHeights` | src/algorithms/insertionSort.ts:11-24 | appending position i's block, its t-th swap step over the heights after t swaps and its prefix step over the inserted heights, extends `HeightsPushed` by one block |
| `InsertionSort.SwapRemovesInversion` | src/algorithms/insertionSort.ts:18 | swapping a strictly inverted neighbour pair removes exactly one inversion |
| `InsertionSort.BelowSwap` | src/algorithms/insertionSort.ts:18 | swapping neighbours does not change how many bars are below a height |
| `InsertionSort.SortedHasNoInversions` | src/algorithms/insertionSort.ts:11-26 | a row in height order has no inversions, so every inversion of the input costs exactly one swap step |
| `QuickSort.ScanColors` | src/algorithms/quickSort.ts:26 | exactly j is compared, the pivot position (when it is not j) is marked pivot, every other bar default |
| `QuickSort.PivotColors` | src/algorithms/quickSort.ts:37 | exactly p is marked sorted, every other bar default |
| `QuickSort.QuickSortSteps` | src/algorithms/quickSort.ts:3-46 | n <= 1 gives exactly one step; there are at least n steps; every step is a length-n rearrangement of the input heights; every step but the last highlights a scanned index and a pivot to its right, or marks one bar sorted that really is in its final place; the last is all sorted, non-decreasing, a rearrangement of the input |
| `QuickSort.Sort` | src/algorithms/quickSort.ts:13-18 | quickSort(start, end) sorts start..end, keeps the heights, changes nothing outside the range, keeps the steps pushed before the call as a prefix, pushes nothing and leaves the array unchanged for fewer than two bars, and pushes at least end-start steps otherwise |
| `QuickSort.SortSides` | src/algorithms/quickSort.ts:16-17 | the two recursive calls around a placed pivot sort the whole range, change nothing outside it, and keep the earlier steps as a prefix |
| `QuickSort.Partition` | src/algorithms/quickSort.ts:20-40 | the pivot ends at p with shorter bars before it and no shorter bars after it; nothing outside start..end moves; end-start scan steps (colours j compared, end pivot, for j = start..end-1 in order), the t-th showing the heights after t scan steps (`ScanState`), then one step marking only p sorted and showing the partitioned heights, which are `Lomuto` of the old heights; p is the scan's final boundary |
| `QuickSort.PartitionScan` | src/algorithms/quickSort.ts:21-32 | the scan never moves the pivot at end; afterwards start..i-1 are shorter than the pivot and i..end-1 are not; exactly end-start compare steps, in index order, the t-th showing the heights after t scan steps; the array and i end where `ScanState` puts them |
| `QuickSort.ScanAndPush` | src/algorithms/quickSort.ts:24-31 | one iteration pushes exactly the array before the swap, recoloured with j compared and end as pivot, then swaps i and j when bar j is strictly shorter than the pivot, keeping the scan invariant |
| `QuickSort.ScanStateStep` | src/algorithms/quickSort.ts:28-31 | the array's conditional swap and boundary move are the next step of `ScanState` |
| `QuickSort.ScanStep` | src/algorithms/quickSort.ts:28-31 | one scan step keeps the boundary invariant, the pivot and everything outside start..end-1 |
| `QuickSort.PlacePivot` | src/algorithms/quickSort.ts:33 | the final swap partitions the range around i |
| `QuickSort.BracketKept` | src/algorithms/quickSort.ts:20-33 | rearranging a range that holds exactly the bars that belong there keeps that property |
| `QuickSort.PivotSettled` | src/algorithms/quickSort.ts:33-38 | the bar marked sorted after a partition is in its final place in the whole array |
| `QuickSort.AfterLeft` | src/algorithms/quickSort.ts:16 | sorting the left side keeps it below the pivot and the right side in place |
| `QuickSort.AfterRight` | src/algorithms/quickSort.ts:17 | sorting the right side as well makes the whole range sorted |
| `MergeSort.HalvesColors` | src/algorithms/mergeSort.ts:32 | exactly start..mid-1 are left, the rest of mid..end-1 right, every other bar default |
| `MergeSort.CursorColors` | src/algorithms/mergeSort.ts:39-42 | the halves colouring with exactly the output index i marked compared on top |
| `MergeSort.MergedColors` | src/algorithms/mergeSort.ts:65 | exactly start..end-1 are merged, every other bar default |
| `MergeSort.ResetColors` | src/algorithms/mergeSort.ts:70 | start..end-1 back to default, every other bar keeps the colour it carries in the array |
| `MergeSort.MergeSortSteps` | src/algorithms/mergeSort.ts:3-78 | n <= 1 gives exactly one step; there are at least 4(n-1) + 1 steps; every step has length n; every step but the last is a halves step, a compare step, a merged step or a reset step, as stated by ShowsHalves, ShowsCursor, ShowsMerged and ShowsReset; the last is all sorted, non-decreasing, a rearrangement of the input |
| `MergeSort.Sort` | src/algorithms/mergeSort.ts:16-22 | mergeSort(start, end) sorts the half-open range, keeps the heights, leaves every bar of a range of two or more bars coloured merged, changes nothing outside the range, keeps the earlier steps as a prefix, pushes nothing and leaves the array unchanged for fewer than two bars, and pushes at least 4(end-start-1) steps otherwise |
| `MergeSort.Merge` | src/algorithms/mergeSort.ts:24-72 | the range ends up holding the reference merge of its two halves, all coloured merged, and sorted; nothing outside moves; the 3 + Comparisons (at least 4) appended steps are, in order (`OneMerge`): the halves step over the old array (both halves sorted), the compare step for each output index start, start+1, ..., each showing the old heights with the merged heights written back so far (`Written`), the merged step (range sorted) and the reset step, both over the final array |
| `MergeSort.MergeBuffers` | src/algorithms/mergeSort.ts:25-61 | the two-buffer loop and then both trailing loops (one of them copies nothing) write the reference merge of the two buffers over the whole range, change nothing outside it, and append one compare step per comparison, the t-th for output index start+t and showing the old heights with the first t merged heights written back |
| `MergeSort.MergeLoop` | src/algorithms/mergeSort.ts:34-53 | the two-buffer loop writes the front of the reference merge, taking the left bar on a tie, stops when one buffer is exhausted, and appends one step per output index written, the t-th for start+t and showing the old heights with the first t merged heights written back |
| `MergeSort.CompareAndTake` | src/algorithms/mergeSort.ts:36-52 | one iteration pushes exactly the array before the write, recoloured with output index i compared over the tinted halves, then writes the next height of the reference merge into arr[i], changing nothing else |
| `MergeSort.TakeFront` | src/algorithms/mergeSort.ts:45-52 | the left cursor advances exactly when its front height is at most the right one; arr[i] becomes the next height of the reference merge, coloured merged |
| `MergeSort.Drain` | src/algorithms/mergeSort.ts:54-61 | a trailing loop copies the rest of a buffer, in order and coloured merged, and moves the cursor i to i0 plus the number of bars copied |
| `MergeSort.Advance` | src/algorithms/mergeSort.ts:45-52 | taking the smaller front height (the left one on a tie) produces the next height of the reference merge and uses up one comparison |
| `MergeSort.WrittenNext` | src/algorithms/mergeSort.ts:45-52 | writing the next merged height at the cursor extends the written-back heights (`Written`) by one |
| `MergeSort.MergeBag` | src/algorithms/mergeSort.ts:34-61 | the reference merge is a rearrangement of the two buffers |
| `MergeSort.MergeSorted` | src/algorithms/mergeSort.ts:34-61 | merging two sorted buffers gives a sorted sequence |
| `MergeSort.TiesGoLeft` | src/algorithms/mergeSort.ts:45-50 | stability: with sorted buffers, a height taken from the right buffer is strictly smaller than any height taken from the left buffer after it |
| `MergeSort.ComparisonsBounds` | src/algorithms/mergeSort.ts:34-53 | the compare steps of one merge number between min(left, right) and left + right - 1, and none when a buffer is empty |
| `MergeSort.MergedRange` | src/algorithms/mergeSort.ts:24-66 | after the write-back the whole array holds the same heights as before and the merged range is sorted |

## Left out

- The React component (`src/components/SortingVisualizer.tsx`) is not part of this model. That covers playback timer, pause and step controls, rendering, random array generation and the `startSorting` dispatch. Random input becomes the generators' parameter.
- The hex colour strings (including `COLOR_PIVOT`, `COLOR_LEFT`, `COLOR_RIGHT`, `COLOR_MERGED`) are abstract tags. Only which tag lands on which index is modelled.
- JavaScript `number` is modelled as `int`. Heights are integers compared with `<`, `<=`, `>`, so no floating-point behaviour matters.
- Object identity and spread copies are not modelled. A bar is an immutable value and a snapshot a `seq<Bar>`, so snapshots never alias.
- Stability is stated on the reference merge of heights (`TiesGoLeft`), not on bar identity. Merge writes every bar with the merged colour, so two bars of equal height are indistinguishable afterwards.
- QuickSort.Sort: the steps pushed by the two recursive calls are stated by shape only (`QuickSteps`: length n, a rearrangement of the input heights, a scan or a pivot colouring). Their heights at push time and the order of the partitions are not stated, because they depend on every pivot chosen below. Each partition's own steps are pinned, heights included, by `Partition`.
- QuickSort.SortSides: as for `QuickSort.Sort`, the steps of the two recursive calls are stated by shape only, not by their heights at push time or their order.
- QuickSort.QuickSortSteps: as for `QuickSort.Sort`, the steps before the last are stated by shape only, not by their heights at push time.
- QuickSort.QuickSortSteps: the step count is bounded below only (at least n, exactly 1 for n ≤ 1). The quadratic worst-case upper bound is not stated.
- QuickSort.QuickSortSteps: the top-level contract gives the shape of every step, not the order in which partitions happen. The order inside one partition is pinned by `Partition` and `PartitionScan`.
- MergeSort.Sort: the steps pushed by the two recursive calls and the final merge are stated by shape only (`MergeSteps`: a halves, compare, merged or reset step). Their heights at push time and the order of the merges are not stated. Each merge's own steps are pinned, heights included, by `Merge`.
- MergeSort.MergeSortSteps: as for `MergeSort.Sort`, the steps before the last are stated by shape only, not by their heights at push time.
- MergeSort.MergeSortSteps: the step count is bounded below only (at least 4(n-1) + 1). The exact count is the sum of Comparisons over all merges, pinned per merge by `Merge`. The n log n upper bound is not stated.
- MergeSort.MergeSortSteps: the top-level contract gives the shape of every step, not the order of the merges across the recursion. The order inside one merge is pinned by `Merge`.
- MergeSort.MergeSortSteps: compare steps are stated by length and colours only. Their heights are a merge in progress, not a rearrangement of the input.
