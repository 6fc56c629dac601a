/** Merging and sorting one index range of a larger array, with the programs'
    own inclusive bounds: `low..high` holds `high - low + 1` cells, and a `high`
    of `low - 1` is an empty range. */
module MergeRanges {
  import opened StableSorting

  /** What `merge` needs: both halves may be empty, and all indices exist. */
  predicate MergeBounds(length: nat, low: int, half: int, high: int) {
    0 <= low && low - 1 <= half <= high < length
  }

  predicate SortBounds(length: nat, low: int, high: int) {
    0 <= low <= high + 1 <= length
  }

  /** `mem` with `piece` written over the cells from `from` up to `to`. */
  function Splice(mem: seq<Cell>, from: nat, to: nat, piece: seq<Cell>): (r: seq<Cell>)
    requires from <= to <= |mem| && |piece| == to - from
    ensures |r| == |mem|
  {
    seq(|mem|, k requires 0 <= k < |mem| => if from <= k < to then piece[k - from] else mem[k])
  }

  lemma SpliceParts(mem: seq<Cell>, from: nat, to: nat, piece: seq<Cell>)
    requires from <= to <= |mem| && |piece| == to - from
    ensures Splice(mem, from, to, piece)[..from] == mem[..from]
    ensures Splice(mem, from, to, piece)[from..to] == piece
    ensures Splice(mem, from, to, piece)[to..] == mem[to..]
  {
    var r := Splice(mem, from, to, piece);
    assert r[..from] == mem[..from];
    assert r[to..] == mem[to..];
    forall k | 0 <= k < to - from
      ensures r[from..to][k] == piece[k]
    {
      assert r[from + k] == piece[k];
    }
  }

  lemma SpliceElsewhere(mem: seq<Cell>, from: nat, to: nat, piece: seq<Cell>, p: nat, q: nat)
    requires from <= to <= |mem| && |piece| == to - from
    requires p <= q <= from || to <= p <= q <= |mem|
    ensures Splice(mem, from, to, piece)[p..q] == mem[p..q]
  {
  }

  function MergedRange(mem: seq<Cell>, low: int, half: int, high: int): (r: seq<Cell>)
    requires MergeBounds(|mem|, low, half, high)
    ensures |r| == |mem|
  {
    Splice(mem, low, high + 1, Merged(mem[low..half + 1], mem[half + 1..high + 1]))
  }

  /** The comparisons of such a merge. */
  function RangeTests(mem: seq<Cell>, low: int, half: int, high: int): nat
    requires MergeBounds(|mem|, low, half, high)
  {
    MergeTests(mem[low..half + 1], mem[half + 1..high + 1])
  }

  function SortedRange(mem: seq<Cell>, low: int, high: int): (r: seq<Cell>)
    requires SortBounds(|mem|, low, high)
    ensures |r| == |mem|
  {
    Splice(mem, low, high + 1, MergeSorted(mem[low..high + 1]))
  }

  /** The comparisons of such a sort. */
  function SortedRangeTests(mem: seq<Cell>, low: int, high: int): nat
    requires SortBounds(|mem|, low, high)
  {
    SortTests(mem[low..high + 1])
  }

  lemma SortedRangeTestsBound(mem: seq<Cell>, low: int, high: int)
    requires SortBounds(|mem|, low, high)
    ensures SortedRangeTests(mem, low, high) <= (high + 1 - low) * CeilLog2(high + 1 - low)
  {
    SortTestsWithinNLogN(mem[low..high + 1]);
  }

  /** C division of an `int` by two, which drops the fraction towards zero. */
  function HalfTruncated(x: int): int {
    if x >= 0 then x / 2 else -(-x / 2)
  }

  /** `low + (high - low) / 2`. */
  function Midpoint(low: int, high: int): int {
    low + HalfTruncated(high - low)
  }

  /** The midpoint of `merge_threads.c` never leaves its range, so it cannot
      overflow; on the empty range `low..low-1` it is `low`, and is not used. */
  lemma MidpointInRange(low: int, high: int)
    requires low <= high + 1
    ensures low <= Midpoint(low, high)
    ensures low <= high ==> Midpoint(low, high) <= high
    ensures low < high ==> Midpoint(low, high) < high
    ensures low < high ==> IsHalf(high + 1 - low, Midpoint(low, high) + 1 - low)
  {
  }

  /** `m` is half of `n`, rounded up; the other half is `n - m`. */
  predicate IsHalf(n: int, m: int) {
    0 <= 2 * m - n <= 1
  }

  const INT_MAX := 0x7fff_ffff

  /** `(l + r) / 2` of `merge.c`, in which the signed sum can overflow. */
  datatype MidpointResult = Overflow | At(index: int)

  function MidpointOfSum(l: int, r: int): MidpointResult
    requires 0 <= l <= r <= INT_MAX
  {
    if l + r > INT_MAX then Overflow else At((l + r) / 2)
  }

  /** The two programs split at the same place exactly when the sum fits in an
      `int`. The comment in `merge.c` says that its form avoids overflow; it is
      the other program's form that does. */
  lemma MidpointsAgree(l: int, r: int)
    requires 0 <= l <= r <= INT_MAX
    ensures MidpointOfSum(l, r) == At(Midpoint(l, r)) <==> r <= INT_MAX - l
    ensures MidpointOfSum(l, r) == Overflow <==> r > INT_MAX - l
  {
  }

  /** An input on which `merge.c` overflows and `merge_threads.c` does not. */
  lemma MidpointOfSumCanOverflow()
    ensures MidpointOfSum(0x4000_0000, 0x4000_0001) == Overflow
    ensures Midpoint(0x4000_0000, 0x4000_0001) == 0x4000_0000
  {
  }

  /** No split of the whole recursion of `mergeSort` on `l..r` overflows. */
  predicate AllSplitsFit(l: int, r: int)
    requires 0 <= l && r <= INT_MAX
    decreases r - l
  {
    l < r ==>
      && l + r <= INT_MAX
      && AllSplitsFit(l, (l + r) / 2)
      && AllSplitsFit((l + r) / 2 + 1, r)
  }

  /** The bound is exact: the last split of the right ends is between neighbours or
      next but one, and is the first to overflow. */
  lemma {:induction false} SplitsFitExactlyWhen(l: int, r: int)
    requires 0 <= l < r <= INT_MAX
    ensures AllSplitsFit(l, r) <==> r <= INT_MAX / 2 + 1
    decreases r - l
  {
    var m := (l + r) / 2;
    if r <= INT_MAX / 2 + 1 {
      if l < m {
        SplitsFitExactlyWhen(l, m);
      }
      if m + 1 < r {
        SplitsFitExactlyWhen(m + 1, r);
      }
    } else if m + 1 < r {
      SplitsFitExactlyWhen(m + 1, r);
    }
  }

  lemma SortedRangeTrivial(mem: seq<Cell>, low: int, high: int)
    requires SortBounds(|mem|, low, high) && low >= high
    ensures SortedRange(mem, low, high) == mem
  {
    assert mem[..low] + mem[low..high + 1] + mem[high + 1..] == mem;
  }

  /** The two recursive calls and the merge of `merge_sort`, as they act on the
      whole array. */
  lemma SortedRangeSplits(mem: seq<Cell>, low: int, half: int, high: int)
    requires SortBounds(|mem|, low, high) && low < high && half == Midpoint(low, high)
    ensures low <= half < high
    ensures SortedRange(mem, low, high)
      == MergedRange(SortedRange(SortedRange(mem, low, half), half + 1, high), low, half, high)
  {
    MidpointInRange(low, high);
    SortedHalves(mem, low, half, high);
    SortsThenMerge(mem, low, half, high);
  }

  lemma SliceSplits(mem: seq<Cell>, from: nat, mid: nat, to: nat)
    requires from <= mid <= to <= |mem|
    ensures mem[from..to] == mem[from..mid] + mem[mid..to]
  {
  }

  lemma SortedHalves(mem: seq<Cell>, low: int, half: int, high: int)
    requires MergeBounds(|mem|, low, half, high) && low <= half < high
    requires IsHalf(high + 1 - low, half + 1 - low)
    ensures MergeSorted(mem[low..high + 1])
      == Merged(MergeSorted(mem[low..half + 1]), MergeSorted(mem[half + 1..high + 1]))
  {
    SliceSplits(mem, low, half + 1, high + 1);
    MergeSortedSplits(mem[low..high + 1], mem[low..half + 1], mem[half + 1..high + 1]);
  }

  lemma SortTestsOfHalves(mem: seq<Cell>, low: int, half: int, high: int)
    requires MergeBounds(|mem|, low, half, high) && low <= half < high
    requires IsHalf(high + 1 - low, half + 1 - low)
    ensures SortTests(mem[low..high + 1])
      == SortTests(mem[low..half + 1]) + SortTests(mem[half + 1..high + 1])
         + MergeTests(MergeSorted(mem[low..half + 1]), MergeSorted(mem[half + 1..high + 1]))
  {
    SliceSplits(mem, low, half + 1, high + 1);
    SortTestsSplits(mem[low..high + 1], mem[low..half + 1], mem[half + 1..high + 1]);
  }

  /** What `merge_sort` finds in the right half once the left one is sorted, and in
      both halves once they are. */
  lemma HalvesInPlace(mem: seq<Cell>, low: int, half: int, high: int)
    requires MergeBounds(|mem|, low, half, high)
    ensures
      var mem1 := SortedRange(mem, low, half);
      var mem2 := SortedRange(mem1, half + 1, high);
      && mem1[half + 1..high + 1] == mem[half + 1..high + 1]
      && mem2[low..half + 1] == MergeSorted(mem[low..half + 1])
      && mem2[half + 1..high + 1] == MergeSorted(mem[half + 1..high + 1])
  {
    var left, right := MergeSorted(mem[low..half + 1]), MergeSorted(mem[half + 1..high + 1]);
    SpliceThrice(mem, low, half + 1, high + 1, left, right, Merged(left, right));
  }

  /** What the comparisons of `merge_sort` on a range add up to, each call counted on
      the array as it finds it. */
  lemma SortedRangeTestsSplit(mem: seq<Cell>, low: int, half: int, high: int)
    requires SortBounds(|mem|, low, high) && low < high && half == Midpoint(low, high)
    ensures low <= half < high
    ensures
      var mem1 := SortedRange(mem, low, half);
      SortedRangeTests(mem, low, high)
        == SortedRangeTests(mem, low, half) + SortedRangeTests(mem1, half + 1, high)
           + RangeTests(SortedRange(mem1, half + 1, high), low, half, high)
  {
    MidpointInRange(low, high);
    HalvesTests(mem, low, half, high);
  }

  lemma HalvesTests(mem: seq<Cell>, low: int, half: int, high: int)
    requires MergeBounds(|mem|, low, half, high) && low <= half < high
    requires IsHalf(high + 1 - low, half + 1 - low)
    ensures
      var mem1 := SortedRange(mem, low, half);
      SortedRangeTests(mem, low, high)
        == SortedRangeTests(mem, low, half) + SortedRangeTests(mem1, half + 1, high)
           + RangeTests(SortedRange(mem1, half + 1, high), low, half, high)
  {
    TestsInPlace(mem, low, half, high);
    SortTestsOfHalves(mem, low, half, high);
  }

  lemma TestsInPlace(mem: seq<Cell>, low: int, half: int, high: int)
    requires MergeBounds(|mem|, low, half, high)
    ensures
      var mem1 := SortedRange(mem, low, half);
      && SortedRangeTests(mem1, half + 1, high) == SortTests(mem[half + 1..high + 1])
      && RangeTests(SortedRange(mem1, half + 1, high), low, half, high)
         == MergeTests(MergeSorted(mem[low..half + 1]), MergeSorted(mem[half + 1..high + 1]))
  {
    HalvesInPlace(mem, low, half, high);
  }

  lemma SortsThenMerge(mem: seq<Cell>, low: int, half: int, high: int)
    requires MergeBounds(|mem|, low, half, high)
    ensures MergedRange(SortedRange(SortedRange(mem, low, half), half + 1, high), low, half, high)
      == Splice(mem, low, high + 1,
           Merged(MergeSorted(mem[low..half + 1]), MergeSorted(mem[half + 1..high + 1])))
  {
    var left, right := MergeSorted(mem[low..half + 1]), MergeSorted(mem[half + 1..high + 1]);
    var mem1 := Splice(mem, low, half + 1, left);
    var mem2 := Splice(mem1, half + 1, high + 1, right);
    SpliceThrice(mem, low, half + 1, high + 1, left, right, Merged(left, right));
    assert SortedRange(mem, low, half) == mem1;
    assert SortedRange(mem1, half + 1, high) == mem2;
  }

  /** Writing both halves of a range one after the other, then the whole range. */
  lemma SpliceThrice(mem: seq<Cell>, from: nat, mid: nat, to: nat, left: seq<Cell>, right: seq<Cell>, all: seq<Cell>)
    requires from <= mid <= to <= |mem|
    requires |left| == mid - from && |right| == to - mid && |all| == to - from
    ensures
      var mem1 := Splice(mem, from, mid, left);
      var mem2 := Splice(mem1, mid, to, right);
      && mem1[mid..to] == mem[mid..to]
      && mem2[from..mid] == left
      && mem2[mid..to] == right
      && Splice(mem2, from, to, all) == Splice(mem, from, to, all)
  {
    var mem1 := Splice(mem, from, mid, left);
    SpliceParts(mem, from, mid, left);
    SpliceElsewhere(mem, from, mid, left, mid, to);
    SpliceElsewhere(mem, from, mid, left, to, |mem|);
    SpliceParts(mem1, mid, to, right);
    SpliceElsewhere(mem1, mid, to, right, from, mid);
    SpliceElsewhere(mem1, mid, to, right, 0, from);
  }

  // ---------- the blocks handed to the threads ----------

  /** Where blocks start, and at the end the array's length: block `i` holds the
      indices from `cuts[i]` up to but not including `cuts[i + 1]`. */
  ghost predicate ValidCuts(cuts: seq<int>, length: nat) {
    && |cuts| >= 2 && cuts[0] == 0 && cuts[|cuts| - 1] == length
    && forall i, j :: 0 <= i <= j < |cuts| ==> cuts[i] <= cuts[j]
  }

  /** The cut points of `main`: every block has `length / threads` cells, except
      that the last one takes what remains. */
  function Cuts(length: nat, threads: nat): seq<int>
    requires threads > 0
  {
    seq(threads + 1, i requires 0 <= i <= threads => if i == threads then length else i * (length / threads))
  }

  lemma CutsValid(length: nat, threads: nat)
    requires threads > 0
    ensures ValidCuts(Cuts(length, threads), length)
  {
    var len := length / threads;
    var cuts := Cuts(length, threads);
    assert threads * len <= length;
    assert cuts[0] == 0 * len == 0;
    forall i, j | 0 <= i <= j < |cuts|
      ensures cuts[i] <= cuts[j]
    {
      MulOrder(i, j, len);
      MulOrder(i, threads, len);
    }
  }

  /** How the array is shared out: equal parts, and the last part with the remainder. */
  lemma CutsShareOut(length: nat, threads: nat, i: nat)
    requires i < threads
    ensures |Cuts(length, threads)| == threads + 1
    ensures Cuts(length, threads)[0] == 0 && Cuts(length, threads)[threads] == length
    ensures Cuts(length, threads)[i + 1] - Cuts(length, threads)[i]
      == length / threads + if i == threads - 1 then length % threads else 0
  {
    var len := length / threads;
    assert (i + 1) * len == i * len + len;
    assert length == threads * len + length % threads;
  }

  lemma MulOrder(i: nat, j: nat, len: nat)
    requires i <= j
    ensures i * len <= j * len
  {
    assert j * len == i * len + (j - i) * len;
  }

  predicate InBlock(cuts: seq<int>, i: nat, k: nat)
    requires i + 1 < |cuts|
  {
    cuts[i] <= k < cuts[i + 1]
  }

  /** Every index of the array is in exactly one block, also when there are more
      threads than cells and all blocks but the last are empty. */
  lemma BlocksPartition(length: nat, threads: nat, k: nat) returns (i: nat)
    requires k < length && 0 < threads
    ensures i < threads && InBlock(Cuts(length, threads), i, k)
    ensures forall j :: 0 <= j < threads && InBlock(Cuts(length, threads), j, k) ==> j == i
  {
    var cuts := Cuts(length, threads);
    CutsValid(length, threads);
    i := 0;
    while k >= cuts[i + 1]
      invariant i < threads && cuts[i] <= k
      decreases threads - i
    {
      i := i + 1;
    }
  }

  // ---------- folding sorted blocks together ----------

  function Block(s: seq<Cell>, cuts: seq<int>, i: nat): seq<Cell>
    requires i + 1 < |cuts| && 0 <= cuts[i] <= cuts[i + 1] <= |s|
  {
    s[cuts[i]..cuts[i + 1]]
  }

  /** `mem` is `input` with every block stably sorted on its own. */
  ghost predicate BlockwiseSorted(input: seq<Cell>, mem: seq<Cell>, cuts: seq<int>)
    requires ValidCuts(cuts, |input|)
  {
    && |mem| == |input|
    && forall i :: 0 <= i < |cuts| - 1 ==> IsStableSort(Block(input, cuts, i), Block(mem, cuts, i))
  }

  /** The array after `main` has merged blocks `1..n-1` into block 0. */
  ghost function Folded(mem: seq<Cell>, cuts: seq<int>, n: nat): (r: seq<Cell>)
    requires ValidCuts(cuts, |mem|) && 1 <= n < |cuts|
    ensures |r| == |mem|
  {
    if n == 1 then mem
    else MergedRange(Folded(mem, cuts, n - 1), 0, cuts[n - 1] - 1, cuts[n] - 1)
  }

  /** After each merge of the fold the array up to that block's end is a stable
      sort of the same part of the input, and the rest is untouched. */
  lemma {:induction false} FoldSortsPrefix(input: seq<Cell>, mem: seq<Cell>, cuts: seq<int>, n: nat)
    requires ValidCuts(cuts, |input|) && 1 <= n < |cuts| && BlockwiseSorted(input, mem, cuts)
    ensures IsStableSort(input[..cuts[n]], Folded(mem, cuts, n)[..cuts[n]])
    ensures Folded(mem, cuts, n)[cuts[n]..] == mem[cuts[n]..]
    decreases n
  {
    assert IsStableSort(Block(input, cuts, n - 1), Block(mem, cuts, n - 1));
    if n == 1 {
      FirstBlock(input, cuts);
      FirstBlock(mem, cuts);
    } else {
      FoldSortsPrefix(input, mem, cuts, n - 1);
      FoldStep(input, mem, Folded(mem, cuts, n - 1), cuts[n - 1], cuts[n] - 1);
    }
  }

  lemma FirstBlock(s: seq<Cell>, cuts: seq<int>)
    requires ValidCuts(cuts, |s|)
    ensures Block(s, cuts, 0) == s[..cuts[1]]
  {
  }

  lemma FoldStep(input: seq<Cell>, mem: seq<Cell>, before: seq<Cell>, start: nat, high: int)
    requires |before| == |mem| == |input| && start <= high + 1 <= |mem|
    requires IsStableSort(input[..start], before[..start]) && before[start..] == mem[start..]
    requires IsStableSort(input[start..high + 1], mem[start..high + 1])
    ensures
      var after := MergedRange(before, 0, start - 1, high);
      && IsStableSort(input[..high + 1], after[..high + 1])
      && after[high + 1..] == mem[high + 1..]
  {
    var end := high + 1;
    assert before[start..end] == before[start..][..end - start] == mem[start..end];
    MergeOfStableSorts(input[..start], input[start..end], before[..start], before[start..end]);
    assert input[..end] == input[..start] + input[start..end];
    SpliceParts(before, 0, end, Merged(before[..start], before[start..end]));
    assert before[end..] == before[start..][end - start..] == mem[end..];
  }

  /** However the blocks came to be sorted, the fold leaves the array equal to
      what one recursive merge sort of the whole input would give. */
  lemma FoldOfSortedBlocks(input: seq<Cell>, mem: seq<Cell>, cuts: seq<int>)
    requires ValidCuts(cuts, |input|) && BlockwiseSorted(input, mem, cuts)
    ensures IsStableSort(input, Folded(mem, cuts, |cuts| - 1))
    ensures Folded(mem, cuts, |cuts| - 1) == MergeSorted(input)
  {
    var n := |cuts| - 1;
    var result := Folded(mem, cuts, n);
    FoldSortsPrefix(input, mem, cuts, n);
    assert input[..cuts[n]] == input && result[..cuts[n]] == result;
    MergeSortedIsStableSort(input);
    StableSortIsUnique(input, result, MergeSorted(input));
  }
}
