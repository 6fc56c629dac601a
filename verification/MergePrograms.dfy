/** The two merge programs from their input to the array that they print. */
module MergePrograms {
  import opened StableSorting
  import opened MergeRanges
  import opened TokenParsing
  import MergeInterleaving
  import MergeSequential
  import MergeThreads

  /** `main` of `merge_threads.c`: whatever the number of threads, the array printed
      last is the stable sort of the numbers on the first acceptable line. */
  method SortLines(lines: seq<string>, threads: nat, atoi: string -> int) returns (array': array<Cell>)
    requires threads > 0 && forall k :: 0 <= k < |lines| ==> IsLine(lines[k])
    ensures IsStableSort(Numbers(lines, atoi), array'[..])
    ensures array'[..] == MergeSorted(Numbers(lines, atoi))
    ensures forall n: nat, text, cells ::
      IsFirstLong(lines, n) && Says(lines[n], text) && ReadsAs(text, atoi, cells) ==> IsStableSort(cells, array'[..])
  {
    array' := ReadNumbers(lines, atoi);
    forall n: nat, text, cells | IsFirstLong(lines, n) && Says(lines[n], text) && ReadsAs(text, atoi, cells)
      ensures cells == Numbers(lines, atoi)
    {
      SkippedLinesDoNotMatter(lines, n, text, atoi);
      ReadsAsItsValues(text, atoi, cells);
    }
    ghost var tests, foldWrites := MergeThreads.SortArray(array', threads);
  }

  /** The same with the threads interleaved in whatever way: once all of them are done,
      the fold leaves the array that `SortLines` returns, provided that `input` is what
      `ReadNumbers` has made of the lines. */
  lemma EveryScheduleSortsLines(lines: seq<string>, threads: nat, atoi: string -> int, schedule: seq<nat>,
                                input: seq<Cell>, cuts: seq<int>, returned: seq<Cell>)
    requires threads > 0 && MergeInterleaving.IsSchedule(schedule, threads)
    requires input == Numbers(lines, atoi) && cuts == Cuts(|input|, threads) && IsStableSort(input, returned)
    ensures ValidCuts(cuts, |input|) && MergeInterleaving.Partitioned(MergeInterleaving.Start(input, cuts), cuts)
    ensures
      var end := MergeInterleaving.Run(MergeInterleaving.Start(input, cuts), cuts, schedule);
      MergeInterleaving.Finished(end) ==> Folded(end.mem, cuts, threads) == returned
  {
    MergeInterleaving.EveryScheduleSorts(input, threads, schedule);
    var end := MergeInterleaving.Run(MergeInterleaving.Start(input, cuts), cuts, schedule);
    if MergeInterleaving.Finished(end) {
      StableSortIsUnique(input, Folded(end.mem, cuts, threads), returned);
    }
  }

  /** `main` of `merge.c`. */
  method SortArgument(argument: array<char>, ghost s: string, atoi: string -> int) returns (numbers: array<Cell>)
    requires Holds(argument[..], s) && |s| < ARGUMENT_BUFFER
    modifies argument
    ensures IsStableSort(Values(s, atoi), numbers[..])
    ensures numbers[..] == MergeSorted(Values(s, atoi))
    ensures forall cells :: ReadsAs(s, atoi, cells) ==> IsStableSort(cells, numbers[..])
  {
    numbers := ReadArgument(argument, s, atoi);
    forall cells | ReadsAs(s, atoi, cells)
      ensures cells == Values(s, atoi)
    {
      ReadsAsItsValues(s, atoi, cells);
    }
    MergeSequential.SortNumbers(numbers);
  }

  /** The programs agree: lines given to one, and the text of the first long one given to
      the other, lead to the same numbers in the same order, marks included. */
  lemma SameInputSameOutput(lines: seq<string>, n: nat, text: string, atoi: string -> int,
                            threaded: seq<Cell>, sequential: seq<Cell>)
    requires forall k :: 0 <= k < |lines| ==> IsLine(lines[k])
    requires IsFirstLong(lines, n) && Says(lines[n], text)
    requires IsStableSort(Numbers(lines, atoi), threaded) && IsStableSort(Values(text, atoi), sequential)
    ensures threaded == sequential
  {
    SkippedLinesDoNotMatter(lines, n, text, atoi);
    StableSortIsUnique(Numbers(lines, atoi), threaded, sequential);
  }
}
