/** `merge_threads.c` with its threads run one after another: the in-place merge
    and merge sort on the shared array, the loop that hands out index ranges,
    and the fold that `main` makes after the joins. */
module MergeThreads {
  import opened StableSorting
  import opened MergeRanges

  /** The array once the first `n` cells of `piece` are written from `low` on. */
  ghost function Written(mem: seq<Cell>, low: nat, piece: seq<Cell>, n: nat): (r: seq<Cell>)
    requires n <= |piece| && low + |piece| <= |mem|
    ensures |r| == |mem|
  {
    seq(|mem|, k requires 0 <= k < |mem| => if low <= k < low + n then piece[k - low] else mem[k])
  }

  /** One write of the comparing loop: `i` and `j` cells have been taken, the
      smaller head goes to `next`, and on a tie the left one does. */
  ghost predicate TakesSmaller(l: seq<Cell>, r: seq<Cell>, i: int, j: int, next: Cell, i': int) {
    && 0 <= i < |l| && 0 <= j < |r|
    && if l[i].value <= r[j].value then next == l[i] && i' == i + 1 else next == r[j] && i' == i
  }

  /** `path[n]` is how many of the first `n` cells of the merge `all` come from
      the left run, up to where one of the runs is used up. */
  ghost predicate FollowsPath(l: seq<Cell>, r: seq<Cell>, all: seq<Cell>, path: seq<int>) {
    && 1 <= |path| <= |l| + |r| + 1 == |all| + 1 && path[0] == 0
    && (forall n :: 0 <= n < |path| - 1 ==> TakesSmaller(l, r, path[n], n - path[n], all[n], path[n + 1]))
    && TailFollows(l, r, all, |path| - 1, path[|path| - 1])
  }

  /** How many of the first `n` cells of a merge come from the left run. */
  function LeftTaken(l: seq<Cell>, r: seq<Cell>, n: nat): nat {
    if n == 0 || l == [] || r == [] then 0
    else if l[0].value <= r[0].value then 1 + LeftTaken(l[1..], r, n - 1)
    else LeftTaken(l, r[1..], n - 1)
  }

  lemma {:induction false} MergeStep(l: seq<Cell>, r: seq<Cell>, n: nat)
    requires n < MergeTests(l, r)
    ensures n < |l| + |r|
    ensures TakesSmaller(l, r, LeftTaken(l, r, n), n - LeftTaken(l, r, n), Merged(l, r)[n], LeftTaken(l, r, n + 1))
    decreases n
  {
    if n > 0 {
      if l[0].value <= r[0].value {
        var i := LeftTaken(l[1..], r, n - 1);
        MergeStep(l[1..], r, n - 1);
        StepAfterLeft(l, r, i, n - 1 - i, Merged(l[1..], r)[n - 1], LeftTaken(l[1..], r, n));
      } else {
        var i := LeftTaken(l, r[1..], n - 1);
        MergeStep(l, r[1..], n - 1);
        StepAfterRight(l, r, i, n - 1 - i, Merged(l, r[1..])[n - 1], LeftTaken(l, r[1..], n));
      }
    }
  }

  lemma StepAfterLeft(l: seq<Cell>, r: seq<Cell>, i: int, j: int, next: Cell, i': int)
    requires l != [] && TakesSmaller(l[1..], r, i, j, next, i')
    ensures TakesSmaller(l, r, i + 1, j, next, i' + 1)
  {
  }

  lemma StepAfterRight(l: seq<Cell>, r: seq<Cell>, i: int, j: int, next: Cell, i': int)
    requires r != [] && TakesSmaller(l, r[1..], i, j, next, i')
    ensures TakesSmaller(l, r, i, j + 1, next, i')
  {
  }

  /** One run is used up after `n` cells of `all`, `i` of them from the left run,
      and the rest of the other run follows. */
  ghost predicate TailFollows(l: seq<Cell>, r: seq<Cell>, all: seq<Cell>, n: int, i: int) {
    && 0 <= i <= |l| && 0 <= n - i <= |r| && n <= |all| && (i == |l| || n - i == |r|)
    && all[n..] == l[i..] + r[n - i..]
  }

  lemma TailAfterRight(l: seq<Cell>, r: seq<Cell>, tail: seq<Cell>, n: int, i: int)
    requires r != [] && TailFollows(l, r[1..], tail, n, i)
    ensures TailFollows(l, r, [r[0]] + tail, n + 1, i)
  {
    assert r[1..][n - i..] == r[n - i + 1..] && ([r[0]] + tail)[n + 1..] == tail[n..];
  }

  lemma TailStepLeft(l: seq<Cell>, r: seq<Cell>, m: nat)
    requires l != [] && r != [] && l[0].value <= r[0].value && m == MergeTests(l[1..], r)
    requires TailFollows(l[1..], r, Merged(l[1..], r), m, LeftTaken(l[1..], r, m))
    ensures TailFollows(l, r, Merged(l, r), m + 1, LeftTaken(l, r, m + 1))
  {
  }

  lemma TailStepRight(l: seq<Cell>, r: seq<Cell>, m: nat)
    requires l != [] && r != [] && l[0].value > r[0].value && m == MergeTests(l, r[1..])
    requires TailFollows(l, r[1..], Merged(l, r[1..]), m, LeftTaken(l, r[1..], m))
    ensures TailFollows(l, r, Merged(l, r), m + 1, LeftTaken(l, r, m + 1))
  {
    TailAfterRight(l, r, Merged(l, r[1..]), m, LeftTaken(l, r[1..], m));
  }

  lemma {:induction false} MergeTail(l: seq<Cell>, r: seq<Cell>)
    ensures TailFollows(l, r, Merged(l, r), MergeTests(l, r), LeftTaken(l, r, MergeTests(l, r)))
    decreases |l| + |r|
  {
    if l != [] && r != [] {
      if l[0].value <= r[0].value {
        MergeTail(l[1..], r);
        TailStepLeft(l, r, MergeTests(l[1..], r));
      } else {
        MergeTail(l, r[1..]);
        TailStepRight(l, r, MergeTests(l, r[1..]));
      }
    }
  }

  lemma MergedFollowsPath(l: seq<Cell>, r: seq<Cell>) returns (path: seq<int>)
    ensures FollowsPath(l, r, Merged(l, r), path) && |path| == MergeTests(l, r) + 1
  {
    MergeTail(l, r);
    forall n: nat | n < MergeTests(l, r)
      ensures TakesSmaller(l, r, LeftTaken(l, r, n), n - LeftTaken(l, r, n), Merged(l, r)[n], LeftTaken(l, r, n + 1))
    {
      MergeStep(l, r, n);
    }
    path := PathFrom(l, r, Merged(l, r), MergeTests(l, r), n => LeftTaken(l, r, n));
  }

  lemma PathFrom(l: seq<Cell>, r: seq<Cell>, all: seq<Cell>, tests: nat, taken: nat -> nat) returns (path: seq<int>)
    requires tests <= |l| + |r| == |all| && taken(0) == 0
    requires forall n: nat :: n < tests ==> TakesSmaller(l, r, taken(n), n - taken(n), all[n], taken(n + 1))
    requires TailFollows(l, r, all, tests, taken(tests))
    ensures FollowsPath(l, r, all, path) && |path| == tests + 1
  {
    path := seq(tests + 1, n requires n >= 0 => taken(n));
  }

  /** The arrays that the comparing loop of a merge passes through, write by write. */
  ghost predicate Stages(stages: seq<seq<Cell>>, low: int, all: seq<Cell>, tests: nat) {
    && 0 <= low && tests <= |all| && |stages| == tests + 1
    && (forall n :: 0 <= n <= tests ==> |stages[n]| >= low + |all|)
    && (forall n {:trigger all[n]} :: 0 <= n < tests ==> stages[n + 1] == stages[n][low + n := all[n]])
  }

  lemma StagesOfMerge(mem: seq<Cell>, low: int, all: seq<Cell>, tests: nat) returns (stages: seq<seq<Cell>>)
    requires 0 <= low && low + |all| <= |mem| && tests <= |all|
    ensures Stages(stages, low, all, tests)
    ensures stages[0] == mem && stages[tests] == Written(mem, low, all, tests)
  {
    stages := seq(tests + 1, n requires 0 <= n <= tests => Written(mem, low, all, n));
    forall n | 0 <= n < tests
      ensures stages[n + 1] == stages[n][low + n := all[n]]
    {
    }
  }

  /** Writing the unused tail of each run after the comparing loop completes the merge. */
  lemma TailsComplete(mem: seq<Cell>, low: int, all: seq<Cell>, n: nat, p: seq<Cell>, q: seq<Cell>,
                      s: seq<Cell>, t: seq<Cell>, u: seq<Cell>)
    requires 0 <= low && low + |all| <= |mem| && n <= |all| && all[n..] == p + q
    requires s == Written(mem, low, all, n)
    requires |p| + |q| == |all| - n && t == Splice(s, low + n, low + n + |p|, p)
    requires u == Splice(t, low + n + |p|, low + n + |p| + |q|, q)
    ensures u == Splice(mem, low, low + |all|, all)
  {
    assert forall k :: n <= k < |all| ==> all[k] == all[n..][k - n];
  }

  /** The loop of `merge` that compares the heads of both temporaries. */
  method MergeHeads(a: array<Cell>, low: int, left: array<Cell>, right: array<Cell>,
                    ghost all: seq<Cell>, ghost path: seq<int>, ghost stages: seq<seq<Cell>>)
    returns (i: int, j: int, ghost writes: nat)
    requires left != a && right != a
    requires FollowsPath(left[..], right[..], all, path) && Stages(stages, low, all, |path| - 1)
    requires a[..] == stages[0]
    modifies a
    ensures i + j == |path| - 1 == writes && i == path[i + j]
    ensures a[..] == stages[i + j]
  {
    var indArray := low;
    i, j, writes := 0, 0, 0;
    while i < left.Length && j < right.Length
      invariant 0 <= i <= left.Length && 0 <= j <= right.Length && indArray == low + i + j
      invariant i + j == writes < |path| && i == path[i + j]
      invariant a[..] == stages[i + j]
    {
      writes := writes + 1;
      assert TakesSmaller(left[..], right[..], i, j, all[i + j], path[i + j + 1]);
      if left[i].value <= right[j].value {
        a[indArray], indArray, i := left[i], indArray + 1, i + 1;
      } else {
        a[indArray], indArray, j := right[j], indArray + 1, j + 1;
      }
    }
    assert i + j < |path| - 1 ==> TakesSmaller(left[..], right[..], i, j, all[i + j], path[i + j + 1]);
  }

  /** Either closing loop of `merge`: the rest of one temporary goes to the array. */
  method Drain(a: array<Cell>, k: int, temp: array<Cell>, first: int, ghost rest: seq<Cell>)
    returns (ghost writes: nat)
    requires temp != a && 0 <= first <= temp.Length && 0 <= k <= a.Length - (temp.Length - first)
    requires rest == temp[first..]
    modifies a
    ensures a[..] == Splice(old(a[..]), k, k + |rest|, rest)
    ensures writes == |rest|
  {
    var i, indArray := first, k;
    writes := 0;
    ghost var mem := a[..];
    while i < temp.Length
      invariant first <= i <= temp.Length && indArray == k + (i - first)
      invariant a[..] == Written(mem, k, rest, i - first)
      invariant writes == i - first
    {
      writes := writes + 1;
      a[indArray], indArray, i := temp[i], indArray + 1, i + 1;
    }
  }

  /** `merge`. `tests` counts the evaluations of `left[i] <= right[j]`, `writes` the
      stores to the array. */
  method Merge(a: array<Cell>, low: int, half: int, high: int) returns (ghost tests: nat, ghost writes: nat)
    requires MergeBounds(a.Length, low, half, high)
    modifies a
    ensures a[..] == MergedRange(old(a[..]), low, half, high)
    ensures tests == RangeTests(old(a[..]), low, half, high)
    ensures writes == high + 1 - low
  {
    ghost var mem := a[..];
    ghost var l, r := mem[low..half + 1], mem[half + 1..high + 1];
    ghost var path := MergedFollowsPath(l, r);
    assert |path| == RangeTests(mem, low, half, high) + 1;
    var left := Copy(a, low, half - low + 1);
    var right := Copy(a, half + 1, high - half);
    assert left[..] == l && right[..] == r;
    tests, writes := WriteBack(a, low, left, right, Merged(l, r), path);
  }

  /** The three writing loops of `merge`. */
  method WriteBack(a: array<Cell>, low: int, left: array<Cell>, right: array<Cell>,
                   ghost all: seq<Cell>, ghost path: seq<int>)
    returns (ghost tests: nat, ghost writes: nat)
    requires left != a && right != a && 0 <= low && low + left.Length + right.Length <= a.Length
    requires FollowsPath(left[..], right[..], all, path)
    modifies a
    ensures a[..] == Splice(old(a[..]), low, low + |all|, all)
    ensures tests == |path| - 1 && writes == |all|
  {
    ghost var mem := a[..];
    ghost var stages := StagesOfMerge(mem, low, all, |path| - 1);
    var i, j, heads := MergeHeads(a, low, left, right, all, path, stages);
    tests := i + j;
    ghost var p, q, s := left[i..], right[j..], a[..];
    ghost var lefts := Drain(a, low + i + j, left, i, p);
    ghost var t := a[..];
    ghost var rights := Drain(a, low + left.Length + j, right, j, q);
    writes := heads + lefts + rights;
    TailsComplete(mem, low, all, tests, p, q, s, t, a[..]);
  }

  /** A `calloc`ed temporary filled from `count` cells of `a`. */
  method Copy(a: array<Cell>, from: int, count: nat) returns (temp: array<Cell>)
    requires 0 <= from && from + count <= a.Length
    ensures fresh(temp) && temp[..] == a[..][from..from + count]
  {
    temp := new Cell[count];
    for i := 0 to count
      invariant forall k :: 0 <= k < i ==> temp[k] == a[from + k]
    {
      temp[i] := a[i + from];
    }
  }

  /** `merge_sort`. */
  method MergeSort(a: array<Cell>, low: int, high: int) returns (ghost tests: nat)
    requires SortBounds(a.Length, low, high)
    modifies a
    ensures a[..] == SortedRange(old(a[..]), low, high)
    ensures tests == SortedRangeTests(old(a[..]), low, high)
    decreases high - low, 1
  {
    var half := Midpoint(low, high);
    MidpointInRange(low, high);
    if low < high {
      SortedRangeSplits(a[..], low, half, high);
      SortedRangeTestsSplit(a[..], low, half, high);
      tests := SortHalves(a, low, half, high);
    } else {
      SortedRangeTrivial(a[..], low, high);
      tests := 0;
    }
  }

  /** The three calls that `merge_sort` and `thread_routine` make on a range of
      more than one cell. */
  method SortHalves(a: array<Cell>, low: int, half: int, high: int) returns (ghost tests: nat)
    requires SortBounds(a.Length, low, high) && low <= half < high
    modifies a
    ensures a[..] == MergedRange(SortedRange(SortedRange(old(a[..]), low, half), half + 1, high), low, half, high)
    ensures
      var mem1 := SortedRange(old(a[..]), low, half);
      tests == SortedRangeTests(old(a[..]), low, half) + SortedRangeTests(mem1, half + 1, high)
        + RangeTests(SortedRange(mem1, half + 1, high), low, half, high)
    decreases high - low, 0, 1
  {
    ghost var sorts := SortBoth(a, low, half, high);
    ghost var merges, writes := Merge(a, low, half, high);
    tests := sorts + merges;
  }

  method SortBoth(a: array<Cell>, low: int, half: int, high: int) returns (ghost tests: nat)
    requires SortBounds(a.Length, low, high) && low <= half < high
    modifies a
    ensures a[..] == SortedRange(SortedRange(old(a[..]), low, half), half + 1, high)
    ensures tests == SortedRangeTests(old(a[..]), low, half)
      + SortedRangeTests(SortedRange(old(a[..]), low, half), half + 1, high)
    decreases high - low, 0, 0
  {
    ghost var mem := a[..];
    ghost var left := MergeSort(a, low, half);
    assert a[..] == SortedRange(mem, low, half);
    ghost var right := MergeSort(a, half + 1, high);
    tests := left + right;
  }

  /** `thread_routine`: it sorts its own range with the statements of `merge_sort`. */
  method ThreadRoutine(a: array<Cell>, indLeft: int, indRight: int) returns (ghost tests: nat)
    requires SortBounds(a.Length, indLeft, indRight)
    modifies a
    ensures a[..] == SortedRange(old(a[..]), indLeft, indRight)
    ensures tests == SortedRangeTests(old(a[..]), indLeft, indRight)
    ensures tests <= (indRight + 1 - indLeft) * CeilLog2(indRight + 1 - indLeft)
  {
    SortedRangeTestsBound(a[..], indLeft, indRight);
    tests := MergeSort(a, indLeft, indRight);
  }

  // ---------- main ----------

  datatype ArgThread = ArgThread(coreId: int, indLeft: int, indRight: int)

  /** The entries of `arg_list` describe the blocks between the cut points. */
  ghost predicate Describes(args: seq<ArgThread>, cuts: seq<int>) {
    && |cuts| == |args| + 1
    && forall i :: 0 <= i < |args| ==> args[i] == ArgThread(i, cuts[i], cuts[i + 1] - 1)
  }

  lemma ArgumentBounds(args: seq<ArgThread>, cuts: seq<int>, length: nat, i: nat)
    requires ValidCuts(cuts, length) && Describes(args, cuts) && i < |args|
    ensures args[i].indLeft == cuts[i] && args[i].indRight == cuts[i + 1] - 1
    ensures 0 <= cuts[i] <= cuts[i + 1] <= length
  {
  }

  /** Each thread gets as many cells as `length` allows each to have, the last one the
      remainder besides, and each range begins where the one before it ends. */
  ghost predicate SharesOut(args: seq<ArgThread>, length: nat, threads: nat)
    requires threads > 0
  {
    && |args| == threads && args[0].indLeft == 0
    && (forall i :: 0 <= i < threads ==> args[i].coreId == i)
    && (forall i :: 0 <= i < threads - 1 ==> args[i].indRight - args[i].indLeft + 1 == length / threads)
    && (forall i, j :: 0 <= i < j < threads && j == i + 1 ==> args[j].indLeft == args[i].indRight + 1)
    && args[threads - 1].indRight - args[threads - 1].indLeft + 1 == length / threads + length % threads
  }

  lemma DescribedSharesOut(args: seq<ArgThread>, length: nat, threads: nat)
    requires threads > 0 && Describes(args, Cuts(length, threads))
    ensures SharesOut(args, length, threads)
  {
    DescribedPart(args, length, threads, 0);
    DescribedPart(args, length, threads, threads - 1);
    forall i | 0 <= i < threads
      ensures args[i].coreId == i
      ensures i < threads - 1 ==> args[i].indRight - args[i].indLeft + 1 == length / threads
    {
      DescribedPart(args, length, threads, i);
    }
    forall i, j | 0 <= i < j < threads && j == i + 1
      ensures args[j].indLeft == args[i].indRight + 1
    {
      DescribedPart(args, length, threads, i);
      DescribedPart(args, length, threads, j);
    }
  }

  lemma DescribedPart(args: seq<ArgThread>, length: nat, threads: nat, i: nat)
    requires i < threads && Describes(args, Cuts(length, threads))
    ensures |args| == threads && args[i].coreId == i
    ensures args[i].indLeft == i * (length / threads)
    ensures args[i].indRight - args[i].indLeft + 1
      == length / threads + if i == threads - 1 then length % threads else 0
    ensures i < threads - 1 ==> args[i].indRight + 1 == (i + 1) * (length / threads)
  {
    CutsShareOut(length, threads, i);
    assert args[i] == ArgThread(i, Cuts(length, threads)[i], Cuts(length, threads)[i + 1] - 1);
  }

  /** The loop of `main` that fills `arg_list`. */
  method FillArguments(length: nat, threads: nat) returns (args: array<ArgThread>)
    requires threads > 0
    ensures fresh(args) && Describes(args[..], Cuts(length, threads))
    ensures SharesOut(args[..], length, threads)
  {
    args := new ArgThread[threads](_ => ArgThread(0, 0, 0));
    var len := length / threads;
    var low := 0;
    for i := 0 to threads
      invariant low == i * len
      invariant forall k :: 0 <= k < i ==>
        args[k] == ArgThread(k, Cuts(length, threads)[k], Cuts(length, threads)[k + 1] - 1)
    {
      assert low + len == (i + 1) * len;
      args[i] := ArgThread(i, low, low + len - 1);
      if i == threads - 1 {
        args[i] := args[i].(indRight := length - 1);
      }
      low := low + len;
    }
    DescribedSharesOut(args[..], length, threads);
  }

  /** The first `n` blocks have been sorted, and the others not touched. */
  ghost predicate FirstBlocksSorted(input: seq<Cell>, now: seq<Cell>, cuts: seq<int>, n: int)
    requires ValidCuts(cuts, |input|)
  {
    && |now| == |input|
    && forall i :: 0 <= i < |cuts| - 1 ==>
         Block(now, cuts, i) == if i < n then MergeSorted(Block(input, cuts, i)) else Block(input, cuts, i)
  }

  /** Sorting block `n` leaves the blocks before and after it alone. */
  lemma SortNextBlock(input: seq<Cell>, now: seq<Cell>, cuts: seq<int>, n: nat)
    requires ValidCuts(cuts, |input|) && n + 1 < |cuts| && FirstBlocksSorted(input, now, cuts, n)
    ensures FirstBlocksSorted(input, SortedRange(now, cuts[n], cuts[n + 1] - 1), cuts, n + 1)
  {
    assert Block(now, cuts, n) == Block(input, cuts, n);
    var piece := MergeSorted(Block(input, cuts, n));
    forall i | 0 <= i < |cuts| - 1
      ensures Block(Splice(now, cuts[n], cuts[n + 1], piece), cuts, i)
        == if i == n then piece else Block(now, cuts, i)
    {
      SpliceOneBlock(now, cuts, n, i, piece);
    }
  }

  lemma SpliceOneBlock(mem: seq<Cell>, cuts: seq<int>, n: nat, i: nat, piece: seq<Cell>)
    requires ValidCuts(cuts, |mem|) && n + 1 < |cuts| && i + 1 < |cuts| && |piece| == cuts[n + 1] - cuts[n]
    ensures Block(Splice(mem, cuts[n], cuts[n + 1], piece), cuts, i)
      == if i == n then piece else Block(mem, cuts, i)
  {
    if i == n {
      SpliceParts(mem, cuts[n], cuts[n + 1], piece);
    } else {
      SpliceElsewhere(mem, cuts[n], cuts[n + 1], piece, cuts[i], cuts[i + 1]);
    }
  }

  lemma AllBlocksSorted(input: seq<Cell>, now: seq<Cell>, cuts: seq<int>)
    requires ValidCuts(cuts, |input|) && FirstBlocksSorted(input, now, cuts, |cuts| - 1)
    ensures BlockwiseSorted(input, now, cuts)
  {
    forall i | 0 <= i < |cuts| - 1
      ensures IsStableSort(Block(input, cuts, i), Block(now, cuts, i))
    {
      MergeSortedIsStableSort(Block(input, cuts, i));
    }
  }

  /** The first threads make the comparisons that their blocks of the input determine. */
  ghost predicate BlockTests(input: seq<Cell>, cuts: seq<int>, tests: seq<nat>)
    requires ValidCuts(cuts, |input|)
  {
    && |tests| < |cuts|
    && forall i {:trigger tests[i]} :: 0 <= i < |tests| ==> tests[i] == SortTests(Block(input, cuts, i))
  }

  lemma NextBlockTests(input: seq<Cell>, cuts: seq<int>, tests: seq<nat>, made: nat)
    requires ValidCuts(cuts, |input|) && BlockTests(input, cuts, tests) && |tests| + 1 < |cuts|
    requires made == SortTests(Block(input, cuts, |tests|))
    ensures BlockTests(input, cuts, tests + [made])
  {
  }

  /** One thread from its creation to its end. */
  method RunThread(a: array<Cell>, arg: ArgThread, ghost input: seq<Cell>, ghost cuts: seq<int>, ghost i: nat)
    returns (ghost tests: nat)
    requires ValidCuts(cuts, |input|) && i + 1 < |cuts| && FirstBlocksSorted(input, a[..], cuts, i)
    requires arg.indLeft == cuts[i] && arg.indRight == cuts[i + 1] - 1
    modifies a
    ensures FirstBlocksSorted(input, a[..], cuts, i + 1)
    ensures tests == SortTests(Block(input, cuts, i))
  {
    SortNextBlock(input, a[..], cuts, i);
    assert Block(a[..], cuts, i) == Block(input, cuts, i);
    tests := ThreadRoutine(a, arg.indLeft, arg.indRight);
  }

  /** Creating and joining the threads, here without overlap. Each makes the comparisons
      that its own block of the input determines. */
  method RunThreads(a: array<Cell>, args: array<ArgThread>, ghost cuts: seq<int>) returns (ghost tests: seq<nat>)
    requires ValidCuts(cuts, a.Length) && Describes(args[..], cuts)
    modifies a
    ensures FirstBlocksSorted(old(a[..]), a[..], cuts, args.Length)
    ensures |tests| == args.Length && BlockTests(old(a[..]), cuts, tests)
  {
    tests := [];
    for i := 0 to args.Length
      invariant FirstBlocksSorted(old(a[..]), a[..], cuts, i)
      invariant Describes(args[..], cuts)
      invariant |tests| == i && BlockTests(old(a[..]), cuts, tests)
    {
      ArgumentBounds(args[..], cuts, a.Length, i);
      ghost var made := RunThread(a, args[i], old(a[..]), cuts, i);
      NextBlockTests(old(a[..]), cuts, tests, made);
      tests := tests + [made];
    }
  }

  /** What `n` cells cost at most, in comparisons. */
  function Budget(n: nat): nat {
    n * CeilLog2(n)
  }

  lemma SortsWithinBudget(s: seq<Cell>, n: nat)
    requires |s| == n
    ensures SortTests(s) <= Budget(n)
  {
    SortTestsWithinNLogN(s);
  }

  /** All threads but the last have `part` cells, and the last has `last`. */
  ghost predicate HaveParts(cuts: seq<int>, part: nat, last: nat) {
    && |cuts| >= 2 && cuts[|cuts| - 1] - cuts[|cuts| - 2] == last
    && forall i, j :: 0 <= i < j < |cuts| - 1 && j == i + 1 ==> cuts[j] - cuts[i] == part
  }

  lemma CutsHaveParts(length: nat, threads: nat)
    requires threads > 0
    ensures HaveParts(Cuts(length, threads), length / threads, length / threads + length % threads)
  {
    var cuts := Cuts(length, threads);
    CutsShareOut(length, threads, threads - 1);
    forall i, j | 0 <= i < j < |cuts| - 1 && j == i + 1
      ensures cuts[j] - cuts[i] == length / threads
    {
      CutsShareOut(length, threads, i);
    }
  }

  /** So each thread's comparisons stay within what its part allows. */
  ghost predicate WithinBudgets(tests: seq<nat>, part: nat, last: nat) {
    && tests != [] && tests[|tests| - 1] <= Budget(last)
    && forall i :: 0 <= i < |tests| - 1 ==> tests[i] <= Budget(part)
  }

  lemma AllWithinBudgets(input: seq<Cell>, cuts: seq<int>, part: nat, last: nat, tests: seq<nat>)
    requires ValidCuts(cuts, |input|) && HaveParts(cuts, part, last)
    requires |tests| == |cuts| - 1 && BlockTests(input, cuts, tests)
    ensures WithinBudgets(tests, part, last)
  {
    forall i | 0 <= i < |tests|
      ensures tests[i] <= Budget(if i == |tests| - 1 then last else part)
    {
      assert tests[i] == SortTests(Block(input, cuts, i));
      SortsWithinBudget(Block(input, cuts, i), if i == |tests| - 1 then last else part);
    }
  }

  /** One store for each cell up to the end of the block that is merged in. */
  ghost function FoldWrites(cuts: seq<int>, n: nat): int
    requires n < |cuts|
  {
    if n <= 1 then 0 else FoldWrites(cuts, n - 1) + cuts[n]
  }

  /** The fold is the expensive part: it stores the length of the array up to once for
      each further thread, and at least once if there is more than one. */
  lemma {:induction false} FoldWritesBound(cuts: seq<int>, length: nat, n: nat)
    requires ValidCuts(cuts, length) && 1 <= n < |cuts|
    ensures 0 <= FoldWrites(cuts, n) <= (n - 1) * length
    ensures n == |cuts| - 1 && n > 1 ==> FoldWrites(cuts, n) >= length
  {
    if n > 1 {
      FoldWritesBound(cuts, length, n - 1);
      assert (n - 1) * length == (n - 2) * length + length;
    }
  }

  /** The last loop of `main`: blocks `1..` are merged into block 0 one by one. */
  method FoldBlocks(a: array<Cell>, args: array<ArgThread>, ghost cuts: seq<int>) returns (ghost writes: int)
    requires ValidCuts(cuts, a.Length) && Describes(args[..], cuts)
    modifies a
    ensures a[..] == Folded(old(a[..]), cuts, args.Length)
    ensures writes == FoldWrites(cuts, args.Length)
  {
    var argLeft := args[0];
    writes := 0;
    ArgumentBounds(args[..], cuts, a.Length, 0);
    for i := 1 to args.Length
      invariant a[..] == Folded(old(a[..]), cuts, i)
      invariant Describes(args[..], cuts)
      invariant writes == FoldWrites(cuts, i)
    {
      var argRight := args[i];
      ArgumentBounds(args[..], cuts, a.Length, i);
      ghost var tests, stores := Merge(a, argLeft.indLeft, argRight.indLeft - 1, argRight.indRight);
      writes := writes + stores;
    }
  }

  /** The array shared out, and each part sorted by its thread. */
  method SortBlocks(a: array<Cell>, threads: nat)
    returns (args: array<ArgThread>, ghost cuts: seq<int>, ghost tests: seq<nat>)
    requires threads > 0
    modifies a
    ensures fresh(args) && args.Length == threads && ValidCuts(cuts, a.Length) && Describes(args[..], cuts)
    ensures HaveParts(cuts, a.Length / threads, a.Length / threads + a.Length % threads)
    ensures BlockwiseSorted(old(a[..]), a[..], cuts)
    ensures |tests| == threads && BlockTests(old(a[..]), cuts, tests)
  {
    cuts := Cuts(a.Length, threads);
    CutsValid(a.Length, threads);
    CutsHaveParts(a.Length, threads);
    args := FillArguments(a.Length, threads);
    tests := RunThreads(a, args, cuts);
    AllBlocksSorted(old(a[..]), a[..], cuts);
  }

  /** The sorting part of `main`, for every array length, also 0, and every positive
      number of threads, also more threads than cells. What each thread may cost follows
      from the length and the number of threads alone. */
  method SortArray(a: array<Cell>, threads: nat) returns (ghost tests: seq<nat>, ghost foldWrites: int)
    requires threads > 0
    modifies a
    ensures IsStableSort(old(a[..]), a[..])
    ensures a[..] == MergeSorted(old(a[..]))
    ensures |tests| == threads
    ensures WithinBudgets(tests, a.Length / threads, a.Length / threads + a.Length % threads)
    ensures foldWrites <= (threads - 1) * a.Length
  {
    ghost var mem, part, rest := a[..], a.Length / threads, a.Length % threads;
    ghost var cuts;
    var args: array<ArgThread>;
    args, cuts, tests := SortBlocks(a, threads);
    AllWithinBudgets(mem, cuts, part, part + rest, tests);
    FoldOfSortedBlocks(mem, a[..], cuts);
    foldWrites := FoldBlocks(a, args, cuts);
    FoldWritesBound(cuts, a.Length, threads);
  }
}
