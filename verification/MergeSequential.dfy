/** `merge.c`: the same merge, driven by a recursion that halves with
    `(l + r) / 2`. */
module MergeSequential {
  import opened StableSorting
  import opened MergeRanges
  import MergeThreads

  /** `mergeSort`, up to the index from which on some split overflows, as
      `SplitsFitExactlyWhen` shows; the program's argument of at most 20000 characters
      keeps far below it. `merge` makes the copies, comparisons and writes of the other
      program's. */
  method MergeSort(arr: array<Cell>, l: int, r: int)
    requires SortBounds(arr.Length, l, r) && (l < r ==> r <= INT_MAX / 2 + 1)
    modifies arr
    ensures arr[..] == SortedRange(old(arr[..]), l, r)
    decreases r - l, 1
  {
    if l < r {
      assert l + r <= INT_MAX;
      var m := (l + r) / 2;
      MidpointsAgree(l, r);
      SortedRangeSplits(arr[..], l, m, r);
      SortHalves(arr, l, m, r);
    } else {
      SortedRangeTrivial(arr[..], l, r);
    }
  }

  method SortHalves(arr: array<Cell>, l: int, m: int, r: int)
    requires SortBounds(arr.Length, l, r) && l <= m < r <= INT_MAX / 2 + 1
    modifies arr
    ensures arr[..] == MergedRange(SortedRange(SortedRange(old(arr[..]), l, m), m + 1, r), l, m, r)
    decreases r - l, 0
  {
    MergeSort(arr, l, m);
    MergeSort(arr, m + 1, r);
    ghost var tests, writes := MergeThreads.Merge(arr, l, m, r);
  }

  /** The call of `main`: it leaves the array as the threaded program does with
      any number of threads. */
  method SortNumbers(numbers: array<Cell>)
    requires numbers.Length <= INT_MAX / 2 + 2
    modifies numbers
    ensures IsStableSort(old(numbers[..]), numbers[..])
    ensures numbers[..] == MergeSorted(old(numbers[..]))
  {
    ghost var input := numbers[..];
    MergeSortedIsStableSort(input);
    assert SortedRange(input, 0, numbers.Length - 1) == MergeSorted(input) by {
      assert input[0..numbers.Length] == input;
    }
    MergeSort(numbers, 0, numbers.Length - 1);
  }
}
