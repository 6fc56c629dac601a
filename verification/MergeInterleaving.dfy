/** `merge_threads.c` with its threads really interleaved. Every step of a thread
    is at most one read or one write of the shared array; call stacks, temporaries
    and indices belong to the threads. A schedule is any sequence of thread
    numbers. */
module MergeInterleaving {
  import opened StableSorting
  import opened MergeRanges
  import MergeThreads

  /** Where an activation of `merge_sort` stands: before its test, or after its
      first call, its second call or its merge. `thread_routine` is the bottom
      activation and has the same statements. */
  datatype Pc = Enter | AfterFirst | AfterSecond | AfterMerge

  datatype Frame = Frame(low: int, half: int, high: int, pc: Pc)

  /** An activation just called: `half` is computed before anything is tested. */
  function Called(low: int, high: int): Frame {
    Frame(low, Midpoint(low, high), high, Enter)
  }

  datatype Stack = Empty | Push(top: Frame, below: Stack)

  /** The merge that a thread is in, if any: copying to either temporary, or
      writing back with `i` and `j` cells already taken from them. */
  datatype Merging =
    | Idle
    | CopyLeft(low: int, half: int, high: int, left: seq<Cell>)
    | CopyRight(low: int, half: int, high: int, left: seq<Cell>, right: seq<Cell>)
    | Write(low: int, half: int, high: int, left: seq<Cell>, right: seq<Cell>, i: nat, j: nat)

  datatype Thread = Thread(stack: Stack, merging: Merging) {
    predicate Done() {
      stack.Empty? && merging.Idle?
    }
  }

  // ---------- one step ----------

  /** A thread keeps to the cells from `from` up to but not including `to`. */
  predicate FrameWithin(f: Frame, from: int, to: int) {
    && from <= f.low <= f.high + 1 <= to && f.half == Midpoint(f.low, f.high)
    && (f.low < f.high ==> f.low <= f.half < f.high)
    && (!f.pc.Enter? ==> f.low < f.high)
  }

  predicate StackWithin(s: Stack, from: int, to: int) {
    s.Push? ==> FrameWithin(s.top, from, to) && StackWithin(s.below, from, to)
  }

  predicate MergingWithin(m: Merging, from: int, to: int) {
    match m
    case Idle => true
    case CopyLeft(low, half, high, left) =>
      && from <= low <= half + 1 <= high + 1 <= to
      && |left| <= half + 1 - low
    case CopyRight(low, half, high, left, right) =>
      && from <= low <= half + 1 <= high + 1 <= to
      && |left| == half + 1 - low && |right| <= high - half
    case Write(low, half, high, left, right, i, j) =>
      && from <= low <= half + 1 <= high + 1 <= to
      && |left| == half + 1 - low && |right| == high - half && i <= |left| && j <= |right|
  }

  predicate Within(t: Thread, from: int, to: int) {
    StackWithin(t.stack, from, to) && MergingWithin(t.merging, from, to)
  }

  /** The next step inside `merge`. */
  function MergeStep(m: Merging, mem: seq<Cell>): (Merging, seq<Cell>)
    requires MergingWithin(m, 0, |mem|)
  {
    match m
    case Idle => (Idle, mem)
    case CopyLeft(low, half, high, left) =>
      if |left| < half - low + 1 then (CopyLeft(low, half, high, left + [mem[low + |left|]]), mem)
      else (CopyRight(low, half, high, left, []), mem)
    case CopyRight(low, half, high, left, right) =>
      if |right| < high - half then (CopyRight(low, half, high, left, right + [mem[half + 1 + |right|]]), mem)
      else (Write(low, half, high, left, right, 0, 0), mem)
    case Write(low, half, high, left, right, i, j) =>
      if i < |left| && (j == |right| || left[i].value <= right[j].value) then
        (Write(low, half, high, left, right, i + 1, j), mem[low + i + j := left[i]])
      else if j < |right| then
        (Write(low, half, high, left, right, i, j + 1), mem[low + i + j := right[j]])
      else
        (Idle, mem)
  }

  /** The next step of `merge_sort` outside `merge`; none touches the array. */
  function CallStep(s: Stack): Thread
    requires s.Push?
  {
    var f := s.top;
    match f.pc
    case Enter =>
      if f.low < f.high then Thread(Push(Called(f.low, f.half), Push(f.(pc := AfterFirst), s.below)), Idle)
      else Thread(s.below, Idle)
    case AfterFirst => Thread(Push(Called(f.half + 1, f.high), Push(f.(pc := AfterSecond), s.below)), Idle)
    case AfterSecond => Thread(Push(f.(pc := AfterMerge), s.below), CopyLeft(f.low, f.half, f.high, []))
    case AfterMerge => Thread(s.below, Idle)
  }

  function ThreadStep(t: Thread, mem: seq<Cell>): (Thread, seq<Cell>)
    requires Within(t, 0, |mem|)
  {
    if !t.merging.Idle? then
      var (m, mem') := MergeStep(t.merging, mem);
      (t.(merging := m), mem')
    else if t.stack.Push? then (CallStep(t.stack), mem)
    else (t, mem)
  }

  lemma {:induction false} WithinWider(s: Stack, from: int, to: int, from': int, to': int)
    requires StackWithin(s, from, to) && from' <= from && to <= to'
    ensures StackWithin(s, from', to')
  {
    if s.Push? {
      WithinWider(s.below, from, to, from', to');
    }
  }

  ghost predicate SameCells(mem: seq<Cell>, mem': seq<Cell>, from: int, to: int) {
    |mem| == |mem'| && forall k :: 0 <= k < |mem| && from <= k < to ==> mem[k] == mem'[k]
  }

  ghost predicate SameOutside(mem: seq<Cell>, mem': seq<Cell>, from: int, to: int) {
    |mem| == |mem'| && forall k :: 0 <= k < |mem| && !(from <= k < to) ==> mem[k] == mem'[k]
  }

  lemma MergeStepStaysWithin(m: Merging, mem: seq<Cell>, from: int, to: int)
    requires 0 <= from <= to <= |mem| && MergingWithin(m, from, to)
    ensures MergingWithin(m, 0, |mem|)
    ensures MergingWithin(MergeStep(m, mem).0, from, to) && SameOutside(mem, MergeStep(m, mem).1, from, to)
  {
  }

  lemma CallStepStaysWithin(s: Stack, from: int, to: int)
    requires s.Push? && StackWithin(s, from, to)
    ensures StackWithin(CallStep(s).stack, from, to) && MergingWithin(CallStep(s).merging, from, to)
  {
    var f := s.top;
    if f.pc.Enter? && f.low < f.high {
      CalledWithin(f, from, to);
      PushedWithin(Called(f.low, f.half), f.(pc := AfterFirst), s.below, from, to);
    } else if f.pc.AfterFirst? {
      CalledWithin(f, from, to);
      PushedWithin(Called(f.half + 1, f.high), f.(pc := AfterSecond), s.below, from, to);
    }
  }

  lemma PushedWithin(f: Frame, g: Frame, below: Stack, from: int, to: int)
    requires FrameWithin(f, from, to) && FrameWithin(g, from, to) && StackWithin(below, from, to)
    ensures StackWithin(Push(f, Push(g, below)), from, to)
  {
  }

  /** A step stays within the thread's range and writes nowhere else. */
  lemma StepStaysWithin(t: Thread, mem: seq<Cell>, from: int, to: int)
    requires 0 <= from <= to <= |mem| && Within(t, from, to)
    ensures Within(t, 0, |mem|)
    ensures Within(ThreadStep(t, mem).0, from, to) && SameOutside(mem, ThreadStep(t, mem).1, from, to)
  {
    WithinWider(t.stack, from, to, 0, |mem|);
    MergeStepStaysWithin(t.merging, mem, from, to);
    if t.merging.Idle? && t.stack.Push? {
      CallStepStaysWithin(t.stack, from, to);
    }
  }

  lemma CalledWithin(f: Frame, from: int, to: int)
    requires FrameWithin(f, from, to) && f.low < f.high
    ensures FrameWithin(Called(f.low, f.half), from, to) && FrameWithin(Called(f.half + 1, f.high), from, to)
  {
    MidpointInRange(f.low, f.half);
    MidpointInRange(f.half + 1, f.high);
  }

  /** A step depends on nothing outside the thread's range. */
  lemma StepIsLocal(t: Thread, mem: seq<Cell>, other: seq<Cell>, from: int, to: int)
    requires 0 <= from <= to <= |mem| && Within(t, from, to) && SameCells(mem, other, from, to)
    ensures Within(t, 0, |mem|) && Within(t, 0, |other|)
    ensures ThreadStep(t, mem).0 == ThreadStep(t, other).0
    ensures SameCells(ThreadStep(t, mem).1, ThreadStep(t, other).1, from, to)
  {
    WithinWider(t.stack, from, to, 0, |mem|);
  }

  // ---------- what a thread still has to do to the array ----------

  /** What a merge has left to do: merge `l` and `r` into the cells from `k` up to
      but not including `end`. */
  datatype Todo = Todo(k: int, end: int, l: seq<Cell>, r: seq<Cell>)

  predicate TodoFits(d: Todo, length: nat) {
    0 <= d.k <= d.end <= length && |d.l| + |d.r| == d.end - d.k
  }

  function Remaining(m: Merging, mem: seq<Cell>): (d: Todo)
    requires MergingWithin(m, 0, |mem|)
    ensures TodoFits(d, |mem|)
  {
    match m
    case Idle => Todo(0, 0, [], [])
    case CopyLeft(low, half, high, left) =>
      Todo(low, high + 1, left + mem[low + |left|..half + 1], mem[half + 1..high + 1])
    case CopyRight(low, half, high, left, right) =>
      Todo(low, high + 1, left, right + mem[half + 1 + |right|..high + 1])
    case Write(low, half, high, left, right, i, j) =>
      Todo(low + i + j, high + 1, left[i..], right[j..])
  }

  function Finish(d: Todo, mem: seq<Cell>): (r: seq<Cell>)
    requires TodoFits(d, |mem|)
    ensures |r| == |mem|
  {
    Splice(mem, d.k, d.end, Merged(d.l, d.r))
  }

  /** The array after the merge that `m` is in. */
  function AfterMerging(m: Merging, mem: seq<Cell>): (r: seq<Cell>)
    requires MergingWithin(m, 0, |mem|)
    ensures |r| == |mem|
  {
    if m.Idle? then mem else Finish(Remaining(m, mem), mem)
  }

  lemma NothingToFinish(d: Todo, mem: seq<Cell>)
    requires TodoFits(d, |mem|) && d.l == d.r == []
    ensures Finish(d, mem) == mem
  {
  }

  /** The array after the rest of one activation, run on `mem` without interruption. */
  function AfterFrame(f: Frame, mem: seq<Cell>): (r: seq<Cell>)
    requires FrameWithin(f, 0, |mem|)
    ensures |r| == |mem|
  {
    match f.pc
    case Enter => SortedRange(mem, f.low, f.high)
    case AfterFirst => MergedRange(SortedRange(mem, f.half + 1, f.high), f.low, f.half, f.high)
    case AfterSecond => MergedRange(mem, f.low, f.half, f.high)
    case AfterMerge => mem
  }

  function AfterStack(s: Stack, mem: seq<Cell>): (r: seq<Cell>)
    requires StackWithin(s, 0, |mem|)
    ensures |r| == |mem|
  {
    if s.Empty? then mem else AfterStack(s.below, AfterFrame(s.top, mem))
  }

  /** The array that `t` would leave if it ran to its end alone from now on. */
  function Future(t: Thread, mem: seq<Cell>): (r: seq<Cell>)
    requires Within(t, 0, |mem|)
    ensures |r| == |mem|
  {
    AfterStack(t.stack, AfterMerging(t.merging, mem))
  }

  /** Reading a cell only moves it from the array's part to the temporary's. */
  lemma CopyLeftKeepsRemaining(m: Merging, mem: seq<Cell>)
    requires MergingWithin(m, 0, |mem|) && m.CopyLeft?
    ensures MergeStep(m, mem).1 == mem && MergingWithin(MergeStep(m, mem).0, 0, |mem|)
    ensures Remaining(MergeStep(m, mem).0, mem) == Remaining(m, mem)
  {
    assert |m.left| < m.half - m.low + 1 ==>
      m.left + mem[m.low + |m.left|..m.half + 1] == MergeStep(m, mem).0.left + mem[m.low + |m.left| + 1..m.half + 1];
  }

  lemma CopyRightKeepsRemaining(m: Merging, mem: seq<Cell>)
    requires MergingWithin(m, 0, |mem|) && m.CopyRight?
    ensures MergeStep(m, mem).1 == mem && MergingWithin(MergeStep(m, mem).0, 0, |mem|)
    ensures Remaining(MergeStep(m, mem).0, mem) == Remaining(m, mem)
  {
  }

  /** What a write leaves to be done: the head of one run is gone. */
  function Advanced(d: Todo): (e: Todo)
    requires d.k < d.end && |d.l| + |d.r| == d.end - d.k
    ensures |e.l| + |e.r| == e.end - e.k
  {
    if d.l != [] && (d.r == [] || d.l[0].value <= d.r[0].value) then Todo(d.k + 1, d.end, d.l[1..], d.r)
    else Todo(d.k + 1, d.end, d.l, d.r[1..])
  }

  function NextCell(d: Todo): Cell
    requires d.l != [] || d.r != []
  {
    if d.l != [] && (d.r == [] || d.l[0].value <= d.r[0].value) then d.l[0] else d.r[0]
  }

  lemma WriteStepAdvances(m: Merging, mem: seq<Cell>)
    requires MergingWithin(m, 0, |mem|) && m.Write?
    ensures
      var (m', mem') := MergeStep(m, mem);
      var d := Remaining(m, mem);
      if d.k == d.end then m' == Idle && mem' == mem
      else
        && mem' == mem[d.k := NextCell(d)] && MergingWithin(m', 0, |mem|)
        && Remaining(m', mem') == Advanced(d)
  {
    var Write(low, half, high, left, right, i, j) := m;
    assert i < |left| ==> left[i..][1..] == left[i + 1..];
    assert j < |right| ==> right[j..][1..] == right[j + 1..];
  }

  lemma FinishAdvances(d: Todo, mem: seq<Cell>)
    requires TodoFits(d, |mem|) && d.k < d.end
    ensures Finish(Advanced(d), mem[d.k := NextCell(d)]) == Finish(d, mem)
  {
  }

  lemma MergeStepKeepsFuture(m: Merging, mem: seq<Cell>, m': Merging, mem': seq<Cell>)
    requires MergingWithin(m, 0, |mem|) && !m.Idle? && (m', mem') == MergeStep(m, mem)
    ensures |mem'| == |mem| && MergingWithin(m', 0, |mem|)
    ensures AfterMerging(m', mem') == AfterMerging(m, mem)
  {
    var d := Remaining(m, mem);
    if m.CopyLeft? {
      CopyLeftKeepsRemaining(m, mem);
    } else if m.CopyRight? {
      CopyRightKeepsRemaining(m, mem);
    } else {
      WriteStepAdvances(m, mem);
      if d.k < d.end {
        FinishAdvances(d, mem);
      } else {
        NothingToFinish(d, mem);
      }
    }
  }

  lemma EnterSplits(f: Frame, mem: seq<Cell>, mem1: seq<Cell>)
    requires FrameWithin(f, 0, |mem|) && f.pc.Enter? && f.low < f.high
    requires mem1 == SortedRange(mem, f.low, f.half)
    ensures AfterFrame(f.(pc := AfterFirst), mem1) == AfterFrame(f, mem)
  {
    SplitsInto(mem, f.low, f.half, f.high, mem1, SortedRange(mem1, f.half + 1, f.high));
  }

  lemma SplitsInto(mem: seq<Cell>, low: int, half: int, high: int, mem1: seq<Cell>, mem2: seq<Cell>)
    requires SortBounds(|mem|, low, high) && low <= half < high && half == Midpoint(low, high)
    requires mem1 == SortedRange(mem, low, half) && mem2 == SortedRange(mem1, half + 1, high)
    ensures MergedRange(mem2, low, half, high) == SortedRange(mem, low, high)
  {
    SortedRangeSplits(mem, low, half, high);
  }

  lemma RemainingAtStart(low: int, half: int, high: int, mem: seq<Cell>)
    requires 0 <= low <= half + 1 <= high + 1 <= |mem|
    ensures Remaining(CopyLeft(low, half, high, []), mem)
      == Todo(low, high + 1, mem[low..half + 1], mem[half + 1..high + 1])
  {
  }

  lemma MergeFromStart(low: int, half: int, high: int, mem: seq<Cell>)
    requires 0 <= low <= half + 1 <= high + 1 <= |mem|
    ensures AfterMerging(CopyLeft(low, half, high, []), mem) == MergedRange(mem, low, half, high)
  {
    RemainingAtStart(low, half, high, mem);
  }

  lemma OneFrame(f: Frame, below: Stack, mem: seq<Cell>)
    requires FrameWithin(f, 0, |mem|) && StackWithin(below, 0, |mem|)
    ensures AfterStack(Push(f, below), mem) == AfterStack(below, AfterFrame(f, mem))
  {
  }

  lemma TwoFrames(f: Frame, g: Frame, below: Stack, mem: seq<Cell>)
    requires FrameWithin(f, 0, |mem|) && FrameWithin(g, 0, |mem|) && StackWithin(below, 0, |mem|)
    ensures AfterStack(Push(f, Push(g, below)), mem) == AfterStack(below, AfterFrame(g, AfterFrame(f, mem)))
  {
  }

  lemma EnterKeepsFuture(f: Frame, below: Stack, mem: seq<Cell>)
    requires FrameWithin(f, 0, |mem|) && f.pc.Enter? && f.low < f.high && StackWithin(below, 0, |mem|)
    requires FrameWithin(Called(f.low, f.half), 0, |mem|)
    ensures AfterStack(Push(Called(f.low, f.half), Push(f.(pc := AfterFirst), below)), mem)
      == AfterStack(Push(f, below), mem)
  {
    TwoFrames(Called(f.low, f.half), f.(pc := AfterFirst), below, mem);
    EnterSplits(f, mem, AfterFrame(Called(f.low, f.half), mem));
  }

  lemma SecondCallKeepsFuture(f: Frame, below: Stack, mem: seq<Cell>)
    requires FrameWithin(f, 0, |mem|) && f.pc.AfterFirst? && StackWithin(below, 0, |mem|)
    requires FrameWithin(Called(f.half + 1, f.high), 0, |mem|)
    ensures AfterStack(Push(Called(f.half + 1, f.high), Push(f.(pc := AfterSecond), below)), mem)
      == AfterStack(Push(f, below), mem)
  {
    TwoFrames(Called(f.half + 1, f.high), f.(pc := AfterSecond), below, mem);
  }

  lemma MergeCallKeepsFuture(f: Frame, below: Stack, mem: seq<Cell>)
    requires FrameWithin(f, 0, |mem|) && f.pc.AfterSecond? && StackWithin(below, 0, |mem|)
    ensures AfterStack(Push(f.(pc := AfterMerge), below), AfterMerging(CopyLeft(f.low, f.half, f.high, []), mem))
      == AfterStack(Push(f, below), mem)
  {
    MergeFromStart(f.low, f.half, f.high, mem);
    OneFrame(f, below, mem);
    OneFrame(f.(pc := AfterMerge), below, AfterFrame(f, mem));
  }

  lemma ReturnKeepsFuture(f: Frame, below: Stack, mem: seq<Cell>)
    requires FrameWithin(f, 0, |mem|) && f.pc.Enter? && f.low >= f.high && StackWithin(below, 0, |mem|)
    ensures AfterStack(below, mem) == AfterStack(Push(f, below), mem)
  {
    SortedRangeTrivial(mem, f.low, f.high);
    OneFrame(f, below, mem);
  }

  lemma FutureOfCalls(s: Stack, mem: seq<Cell>)
    requires StackWithin(s, 0, |mem|)
    ensures Future(Thread(s, Idle), mem) == AfterStack(s, mem)
  {
  }

  lemma CallStepKeepsFuture(s: Stack, mem: seq<Cell>)
    requires StackWithin(s, 0, |mem|) && s.Push? && Within(CallStep(s), 0, |mem|)
    ensures Future(CallStep(s), mem) == AfterStack(s, mem)
  {
    var f := s.top;
    match f.pc
    case Enter =>
      if f.low < f.high {
        FutureOfCalls(Push(Called(f.low, f.half), Push(f.(pc := AfterFirst), s.below)), mem);
        EnterKeepsFuture(f, s.below, mem);
      } else {
        FutureOfCalls(s.below, mem);
        ReturnKeepsFuture(f, s.below, mem);
      }
    case AfterFirst =>
      FutureOfCalls(Push(Called(f.half + 1, f.high), Push(f.(pc := AfterSecond), s.below)), mem);
      SecondCallKeepsFuture(f, s.below, mem);
    case AfterSecond => MergeCallKeepsFuture(f, s.below, mem);
    case AfterMerge =>
      FutureOfCalls(s.below, mem);
      OneFrame(f, s.below, mem);
  }

  /** No step of a thread changes what the thread will have done in the end. */
  lemma StepKeepsFuture(t: Thread, mem: seq<Cell>)
    requires Within(t, 0, |mem|)
    ensures |ThreadStep(t, mem).1| == |mem| && Within(ThreadStep(t, mem).0, 0, |mem|)
    ensures Future(ThreadStep(t, mem).0, ThreadStep(t, mem).1) == Future(t, mem)
  {
    StepStaysWithin(t, mem, 0, |mem|);
    if !t.merging.Idle? {
      var (m, mem') := MergeStep(t.merging, mem);
      MergeStepKeepsFuture(t.merging, mem, m, mem');
    } else if t.stack.Push? {
      CallStepKeepsFuture(t.stack, mem);
    }
  }

  /** What a thread will have done to its own range depends on that range only. */
  lemma FutureIsLocal(t: Thread, mem: seq<Cell>, other: seq<Cell>, from: int, to: int)
    requires 0 <= from <= to <= |mem| && Within(t, from, to) && SameCells(mem, other, from, to)
    ensures Within(t, 0, |mem|) && Within(t, 0, |other|)
    ensures SameCells(Future(t, mem), Future(t, other), from, to)
  {
    WithinWider(t.stack, from, to, 0, |mem|);
    AfterMergingIsLocal(t.merging, mem, other, from, to);
    AfterStackIsLocal(t.stack, AfterMerging(t.merging, mem), AfterMerging(t.merging, other), from, to);
  }

  lemma SameSlices(mem: seq<Cell>, other: seq<Cell>, from: int, to: int, p: int, q: int)
    requires SameCells(mem, other, from, to) && 0 <= from <= p <= q <= to <= |mem|
    ensures mem[p..q] == other[p..q]
  {
  }

  lemma AfterMergingIsLocal(m: Merging, mem: seq<Cell>, other: seq<Cell>, from: int, to: int)
    requires 0 <= from <= to <= |mem| && MergingWithin(m, from, to) && SameCells(mem, other, from, to)
    ensures MergingWithin(m, 0, |mem|) && MergingWithin(m, 0, |other|)
    ensures SameCells(AfterMerging(m, mem), AfterMerging(m, other), from, to)
  {
    if !m.Idle? {
      RemainingIsLocal(m, mem, other, from, to);
    }
  }

  lemma RemainingIsLocal(m: Merging, mem: seq<Cell>, other: seq<Cell>, from: int, to: int)
    requires 0 <= from <= to <= |mem| && MergingWithin(m, from, to) && SameCells(mem, other, from, to)
    ensures MergingWithin(m, 0, |mem|) && Remaining(m, mem) == Remaining(m, other)
  {
    match m
    case Idle =>
    case CopyLeft(low, half, high, left) =>
      SameSlices(mem, other, from, to, low + |left|, half + 1);
      SameSlices(mem, other, from, to, half + 1, high + 1);
    case CopyRight(low, half, high, left, right) =>
      SameSlices(mem, other, from, to, half + 1 + |right|, high + 1);
    case Write(_, _, _, _, _, _, _) =>
  }

  lemma SortedRangeIsLocal(mem: seq<Cell>, other: seq<Cell>, from: int, to: int, low: int, high: int)
    requires 0 <= from <= low <= high + 1 <= to <= |mem| && SameCells(mem, other, from, to)
    ensures SameCells(SortedRange(mem, low, high), SortedRange(other, low, high), from, to)
  {
    SameSlices(mem, other, from, to, low, high + 1);
  }

  lemma MergedRangeIsLocal(mem: seq<Cell>, other: seq<Cell>, from: int, to: int, low: int, half: int, high: int)
    requires 0 <= from <= low <= half + 1 <= high + 1 <= to <= |mem| && SameCells(mem, other, from, to)
    ensures SameCells(MergedRange(mem, low, half, high), MergedRange(other, low, half, high), from, to)
  {
    SameSlices(mem, other, from, to, low, half + 1);
    SameSlices(mem, other, from, to, half + 1, high + 1);
  }

  lemma SecondCallIsLocal(f: Frame, mem: seq<Cell>, other: seq<Cell>, from: int, to: int)
    requires 0 <= from <= to <= |mem| && FrameWithin(f, from, to) && SameCells(mem, other, from, to)
    requires f.pc.AfterFirst?
    ensures SameCells(AfterFrame(f, mem), AfterFrame(f, other), from, to)
  {
    SortedRangeIsLocal(mem, other, from, to, f.half + 1, f.high);
    MergedRangeIsLocal(SortedRange(mem, f.half + 1, f.high), SortedRange(other, f.half + 1, f.high),
      from, to, f.low, f.half, f.high);
  }

  lemma AfterFrameIsLocal(f: Frame, mem: seq<Cell>, other: seq<Cell>, from: int, to: int)
    requires 0 <= from <= to <= |mem| && FrameWithin(f, from, to) && SameCells(mem, other, from, to)
    ensures SameCells(AfterFrame(f, mem), AfterFrame(f, other), from, to)
  {
    match f.pc
    case Enter => SortedRangeIsLocal(mem, other, from, to, f.low, f.high);
    case AfterFirst => SecondCallIsLocal(f, mem, other, from, to);
    case AfterSecond => MergedRangeIsLocal(mem, other, from, to, f.low, f.half, f.high);
    case AfterMerge =>
  }

  lemma {:induction false} AfterStackIsLocal(s: Stack, mem: seq<Cell>, other: seq<Cell>, from: int, to: int)
    requires 0 <= from <= to <= |mem| && StackWithin(s, from, to) && SameCells(mem, other, from, to)
    requires StackWithin(s, 0, |mem|)
    ensures SameCells(AfterStack(s, mem), AfterStack(s, other), from, to)
    decreases s
  {
    if s.Push? {
      AfterFrameIsLocal(s.top, mem, other, from, to);
      AfterStackIsLocal(s.below, AfterFrame(s.top, mem), AfterFrame(s.top, other), from, to);
    }
  }

  // ---------- the threads together ----------

  datatype System = System(threads: seq<Thread>, mem: seq<Cell>)

  /** Thread `i` keeps to block `i`. */
  ghost predicate Partitioned(sys: System, cuts: seq<int>) {
    && ValidCuts(cuts, |sys.mem|) && |sys.threads| == |cuts| - 1
    && forall i {:trigger sys.threads[i]} :: 0 <= i < |sys.threads| ==> Within(sys.threads[i], cuts[i], cuts[i + 1])
  }

  ghost predicate Finished(sys: System) {
    forall i :: 0 <= i < |sys.threads| ==> sys.threads[i].Done()
  }

  /** A thread just created, at the first statement of `thread_routine`. */
  function Created(indLeft: int, indRight: int): Thread {
    Thread(Push(Called(indLeft, indRight), Empty), Idle)
  }

  lemma CreatedWithin(from: int, to: int)
    requires 0 <= from <= to
    ensures Within(Created(from, to - 1), from, to)
  {
    MidpointInRange(from, to - 1);
  }

  function Start(input: seq<Cell>, cuts: seq<int>): System
    requires |cuts| > 0
  {
    System(seq(|cuts| - 1, i requires 0 <= i < |cuts| - 1 => Created(cuts[i], cuts[i + 1] - 1)), input)
  }

  lemma StartIsPartitioned(input: seq<Cell>, cuts: seq<int>)
    requires ValidCuts(cuts, |input|)
    ensures Partitioned(Start(input, cuts), cuts)
  {
    forall i | 0 <= i < |cuts| - 1
      ensures Within(Start(input, cuts).threads[i], cuts[i], cuts[i + 1])
    {
      CreatedWithin(cuts[i], cuts[i + 1]);
    }
  }

  lemma StartThread(input: seq<Cell>, cuts: seq<int>, i: nat)
    requires i + 1 < |cuts|
    ensures Start(input, cuts).threads[i] == Created(cuts[i], cuts[i + 1] - 1)
  {
  }

  /** Thread `i` takes its next step; the others stand still. */
  ghost function SystemStep(sys: System, cuts: seq<int>, i: nat): (next: System)
    requires Partitioned(sys, cuts) && i < |sys.threads|
    ensures Partitioned(next, cuts) && |next.mem| == |sys.mem|
  {
    StepStaysWithin(sys.threads[i], sys.mem, cuts[i], cuts[i + 1]);
    var (t, mem) := ThreadStep(sys.threads[i], sys.mem);
    System(sys.threads[i := t], mem)
  }

  ghost predicate IsSchedule(schedule: seq<nat>, threads: nat) {
    forall k :: 0 <= k < |schedule| ==> schedule[k] < threads
  }

  /** The system after the steps of `schedule`, in that order. */
  ghost function Run(sys: System, cuts: seq<int>, schedule: seq<nat>): (end: System)
    requires Partitioned(sys, cuts) && IsSchedule(schedule, |sys.threads|)
    ensures Partitioned(end, cuts) && |end.mem| == |sys.mem|
    decreases |schedule|
  {
    if schedule == [] then sys
    else Run(SystemStep(sys, cuts, schedule[0]), cuts, schedule[1..])
  }

  ghost predicate ThreadHeadsFor(t: Thread, mem: seq<Cell>, goal: seq<Cell>, from: int, to: int) {
    |goal| == |mem| && Within(t, 0, |mem|) && SameCells(Future(t, mem), goal, from, to)
  }

  /** Left alone, each thread would bring its block to where `goal` has it. */
  ghost predicate HeadsFor(sys: System, cuts: seq<int>, goal: seq<Cell>)
    requires Partitioned(sys, cuts)
  {
    forall i {:trigger sys.threads[i]} :: 0 <= i < |sys.threads| ==>
      ThreadHeadsFor(sys.threads[i], sys.mem, goal, cuts[i], cuts[i + 1])
  }

  /** No step of any thread changes where any thread heads for: a thread's own
      steps keep its future, and the others only write outside its block. */
  lemma StepHeadsFor(sys: System, cuts: seq<int>, k: nat, goal: seq<Cell>)
    requires Partitioned(sys, cuts) && k < |sys.threads| && HeadsFor(sys, cuts, goal)
    ensures HeadsFor(SystemStep(sys, cuts, k), cuts, goal)
  {
    var next := SystemStep(sys, cuts, k);
    StepStaysWithin(sys.threads[k], sys.mem, cuts[k], cuts[k + 1]);
    forall i | 0 <= i < |sys.threads|
      ensures ThreadHeadsFor(next.threads[i], next.mem, goal, cuts[i], cuts[i + 1])
    {
      assert ThreadHeadsFor(sys.threads[i], sys.mem, goal, cuts[i], cuts[i + 1]);
      if i == k {
        StepKeepsFuture(sys.threads[k], sys.mem);
      } else {
        FutureIsLocal(sys.threads[i], sys.mem, next.mem, cuts[i], cuts[i + 1]);
      }
    }
  }

  lemma {:induction false} RunHeadsFor(sys: System, cuts: seq<int>, schedule: seq<nat>, goal: seq<Cell>)
    requires Partitioned(sys, cuts) && IsSchedule(schedule, |sys.threads|) && HeadsFor(sys, cuts, goal)
    ensures HeadsFor(Run(sys, cuts, schedule), cuts, goal)
    decreases |schedule|
  {
    if schedule != [] {
      StepHeadsFor(sys, cuts, schedule[0], goal);
      RunHeadsFor(SystemStep(sys, cuts, schedule[0]), cuts, schedule[1..], goal);
    }
  }

  /** Where the threads head for at their creation: every block sorted. */
  lemma StartHeadsFor(input: seq<Cell>, cuts: seq<int>, goal: seq<Cell>)
    requires ValidCuts(cuts, |input|) && Partitioned(Start(input, cuts), cuts)
    requires MergeThreads.FirstBlocksSorted(input, goal, cuts, |cuts| - 1)
    ensures HeadsFor(Start(input, cuts), cuts, goal)
  {
    forall i | 0 <= i < |cuts| - 1
      ensures ThreadHeadsFor(Created(cuts[i], cuts[i + 1] - 1), input, goal, cuts[i], cuts[i + 1])
    {
      CreatedHeadsFor(input, cuts, i, goal, Created(cuts[i], cuts[i + 1] - 1));
    }
  }

  lemma CreatedHeadsFor(input: seq<Cell>, cuts: seq<int>, i: nat, goal: seq<Cell>, t: Thread)
    requires ValidCuts(cuts, |input|) && i + 1 < |cuts| && |goal| == |input|
    requires Block(goal, cuts, i) == MergeSorted(Block(input, cuts, i))
    requires t == Created(cuts[i], cuts[i + 1] - 1)
    ensures ThreadHeadsFor(t, input, goal, cuts[i], cuts[i + 1])
  {
    MidpointInRange(cuts[i], cuts[i + 1] - 1);
    CreatedFuture(t, input);
    BlockOverwritten(input, cuts, i, goal);
  }

  lemma CreatedFuture(t: Thread, mem: seq<Cell>)
    requires t.merging.Idle? && t.stack.Push? && t.stack.top.pc.Enter? && t.stack.below.Empty?
    requires FrameWithin(t.stack.top, 0, |mem|)
    ensures Within(t, 0, |mem|) && Future(t, mem) == SortedRange(mem, t.stack.top.low, t.stack.top.high)
  {
    OneFrame(t.stack.top, Empty, mem);
  }

  lemma BlockOverwritten(input: seq<Cell>, cuts: seq<int>, i: nat, goal: seq<Cell>)
    requires ValidCuts(cuts, |input|) && i + 1 < |cuts| && |goal| == |input|
    ensures SameCells(Splice(input, cuts[i], cuts[i + 1], Block(goal, cuts, i)), goal, cuts[i], cuts[i + 1])
  {
  }

  // ---------- every schedule ----------

  lemma FinishedReachedGoal(sys: System, cuts: seq<int>, goal: seq<Cell>)
    requires Partitioned(sys, cuts) && HeadsFor(sys, cuts, goal) && Finished(sys) && |goal| == |sys.mem|
    ensures sys.mem == goal
  {
    forall k | 0 <= k < |goal|
      ensures sys.mem[k] == goal[k]
    {
      var i := BlockOf(cuts, |goal|, k);
      assert ThreadHeadsFor(sys.threads[i], sys.mem, goal, cuts[i], cuts[i + 1]);
      assert sys.threads[i].Done() && Future(sys.threads[i], sys.mem) == sys.mem;
    }
  }

  lemma BlockOf(cuts: seq<int>, length: nat, k: nat) returns (i: nat)
    requires ValidCuts(cuts, length) && k < length
    ensures i + 1 < |cuts| && InBlock(cuts, i, k)
  {
    i := 0;
    while k >= cuts[i + 1]
      invariant i + 1 < |cuts| && cuts[i] <= k
      decreases |cuts| - i
    {
      i := i + 1;
    }
  }

  lemma {:induction false} SortedBlocksExists(input: seq<Cell>, cuts: seq<int>, n: nat)
    requires ValidCuts(cuts, |input|) && n < |cuts|
    ensures exists goal :: MergeThreads.FirstBlocksSorted(input, goal, cuts, n)
    decreases n
  {
    if n == 0 {
      assert MergeThreads.FirstBlocksSorted(input, input, cuts, 0);
    } else {
      SortedBlocksExists(input, cuts, n - 1);
      var now :| MergeThreads.FirstBlocksSorted(input, now, cuts, n - 1);
      MergeThreads.SortNextBlock(input, now, cuts, n - 1);
    }
  }

  /** However the threads' reads and writes interleave, once all have finished
      the array is as they leave it when run one after another. */
  lemma EveryScheduleSortsBlocks(input: seq<Cell>, cuts: seq<int>, schedule: seq<nat>, goal: seq<Cell>)
    requires ValidCuts(cuts, |input|) && IsSchedule(schedule, |cuts| - 1)
    requires MergeThreads.FirstBlocksSorted(input, goal, cuts, |cuts| - 1)
    ensures Partitioned(Start(input, cuts), cuts)
    ensures Finished(Run(Start(input, cuts), cuts, schedule)) ==> Run(Start(input, cuts), cuts, schedule).mem == goal
  {
    StartIsPartitioned(input, cuts);
    StartHeadsFor(input, cuts, goal);
    RunHeadsFor(Start(input, cuts), cuts, schedule, goal);
    if Finished(Run(Start(input, cuts), cuts, schedule)) {
      FinishedReachedGoal(Run(Start(input, cuts), cuts, schedule), cuts, goal);
    }
  }

  /** The whole program: for every input, number of threads and interleaving, the
      fold after the joins leaves the one stable sort of the input, which is also
      what the sequential program computes. */
  lemma EveryScheduleSorts(input: seq<Cell>, threads: nat, schedule: seq<nat>)
    requires threads > 0 && IsSchedule(schedule, threads)
    ensures
      var cuts := Cuts(|input|, threads);
      && ValidCuts(cuts, |input|) && Partitioned(Start(input, cuts), cuts)
      && var end := Run(Start(input, cuts), cuts, schedule);
         Finished(end) ==>
           && IsStableSort(input, Folded(end.mem, cuts, threads))
           && Folded(end.mem, cuts, threads) == MergeSorted(input)
  {
    var cuts := Cuts(|input|, threads);
    CutsValid(|input|, threads);
    SortedBlocksExists(input, cuts, threads);
    var goal :| MergeThreads.FirstBlocksSorted(input, goal, cuts, threads);
    EveryScheduleSortsBlocks(input, cuts, schedule, goal);
    MergeThreads.AllBlocksSorted(input, goal, cuts);
    FoldOfSortedBlocks(input, goal, cuts);
  }

  // ---------- a thread among others behaves as it would alone ----------

  function Solo(t: Thread, mem: seq<Cell>, n: nat): (Thread, seq<Cell>)
    requires Within(t, 0, |mem|)
    decreases n
  {
    if n == 0 then (t, mem)
    else
      StepStaysWithin(t, mem, 0, |mem|);
      var (t', mem') := ThreadStep(t, mem);
      Solo(t', mem', n - 1)
  }

  lemma {:induction false} SoloIsLocal(t: Thread, mem: seq<Cell>, other: seq<Cell>, from: int, to: int, n: nat)
    requires 0 <= from <= to <= |mem| && Within(t, from, to) && SameCells(mem, other, from, to)
    ensures Within(t, 0, |mem|) && Within(t, 0, |other|)
    ensures Solo(t, mem, n).0 == Solo(t, other, n).0
    ensures SameCells(Solo(t, mem, n).1, Solo(t, other, n).1, from, to)
    decreases n
  {
    StepIsLocal(t, mem, other, from, to);
    if n > 0 {
      StepStaysWithin(t, mem, from, to);
      StepStaysWithin(t, other, from, to);
      SoloIsLocal(ThreadStep(t, mem).0, ThreadStep(t, mem).1, ThreadStep(t, other).1, from, to, n - 1);
    }
  }

  function Turns(schedule: seq<nat>, i: nat): nat {
    if schedule == [] then 0
    else (if schedule[0] == i then 1 else 0) + Turns(schedule[1..], i)
  }

  ghost predicate SameSolo(t: Thread, mem: seq<Cell>, other: seq<Cell>, n: nat, from: int, to: int)
    requires Within(t, 0, |mem|) && Within(t, 0, |other|)
  {
    Solo(t, mem, n).0 == Solo(t, other, n).0 && SameCells(Solo(t, mem, n).1, Solo(t, other, n).1, from, to)
  }

  /** A step of another thread changes nothing for thread `i`. */
  lemma OthersLeaveSolo(sys: System, cuts: seq<int>, k: nat, i: nat, n: nat)
    requires Partitioned(sys, cuts) && k < |sys.threads| && i < |sys.threads| && k != i
    ensures Within(sys.threads[i], 0, |sys.mem|)
    ensures SystemStep(sys, cuts, k).threads[i] == sys.threads[i]
    ensures SameSolo(sys.threads[i], sys.mem, SystemStep(sys, cuts, k).mem, n, cuts[i], cuts[i + 1])
  {
    StepStaysWithin(sys.threads[i], sys.mem, cuts[i], cuts[i + 1]);
    StepStaysWithin(sys.threads[k], sys.mem, cuts[k], cuts[k + 1]);
    SoloIsLocal(sys.threads[i], sys.mem, SystemStep(sys, cuts, k).mem, cuts[i], cuts[i + 1], n);
  }

  lemma OwnStepIsSolo(sys: System, cuts: seq<int>, i: nat, n: nat)
    requires Partitioned(sys, cuts) && i < |sys.threads|
    ensures Within(sys.threads[i], 0, |sys.mem|)
    ensures
      var next := SystemStep(sys, cuts, i);
      && Within(next.threads[i], 0, |next.mem|)
      && Solo(sys.threads[i], sys.mem, n + 1) == Solo(next.threads[i], next.mem, n)
  {
    StepStaysWithin(sys.threads[i], sys.mem, cuts[i], cuts[i + 1]);
    WithinArray(SystemStep(sys, cuts, i), cuts, i);
  }

  lemma WithinArray(sys: System, cuts: seq<int>, i: nat)
    requires Partitioned(sys, cuts) && i < |sys.threads|
    ensures Within(sys.threads[i], 0, |sys.mem|)
  {
    StepStaysWithin(sys.threads[i], sys.mem, cuts[i], cuts[i + 1]);
  }

  /** Under every schedule, also while others are still running, a thread's local
      state and its block are those of a run of that thread alone. */
  lemma {:induction false} RunSimulatesSolo(sys: System, cuts: seq<int>, schedule: seq<nat>, i: nat)
    requires Partitioned(sys, cuts) && IsSchedule(schedule, |sys.threads|) && i < |sys.threads|
    ensures Within(sys.threads[i], 0, |sys.mem|)
    ensures
      var end := Run(sys, cuts, schedule);
      var (t, mem) := Solo(sys.threads[i], sys.mem, Turns(schedule, i));
      end.threads[i] == t && SameCells(end.mem, mem, cuts[i], cuts[i + 1])
    decreases |schedule|
  {
    WithinArray(sys, cuts, i);
    if schedule != [] {
      var k, rest := schedule[0], schedule[1..];
      RunSimulatesSolo(SystemStep(sys, cuts, k), cuts, rest, i);
      if k == i {
        OwnStepIsSolo(sys, cuts, i, Turns(rest, i));
      } else {
        OthersLeaveSolo(sys, cuts, k, i, Turns(rest, i));
      }
    }
  }

  /** Only how many steps each thread has taken matters, not in which order. */
  lemma OrderDoesNotMatter(sys: System, cuts: seq<int>, schedule: seq<nat>, other: seq<nat>)
    requires Partitioned(sys, cuts)
    requires IsSchedule(schedule, |sys.threads|) && IsSchedule(other, |sys.threads|)
    requires forall i :: 0 <= i < |sys.threads| ==> Turns(schedule, i) == Turns(other, i)
    ensures Run(sys, cuts, schedule) == Run(sys, cuts, other)
  {
    var a, b := Run(sys, cuts, schedule), Run(sys, cuts, other);
    forall i | 0 <= i < |sys.threads|
      ensures a.threads[i] == b.threads[i] && SameCells(a.mem, b.mem, cuts[i], cuts[i + 1])
    {
      RunSimulatesSolo(sys, cuts, schedule, i);
      RunSimulatesSolo(sys, cuts, other, i);
    }
    forall k | 0 <= k < |a.mem|
      ensures a.mem[k] == b.mem[k]
    {
      var i := BlockOf(cuts, |a.mem|, k);
      assert SameCells(a.mem, b.mem, cuts[i], cuts[i + 1]);
    }
  }

  // ---------- how long a thread takes ----------

  function MergeSteps(m: Merging): int {
    match m
    case Idle => 0
    case CopyLeft(low, half, high, left) => 2 * (high + 1 - low) - |left| + 3
    case CopyRight(low, half, high, left, right) => (high - half - |right|) + (high + 1 - low) + 2
    case Write(low, half, high, left, right, i, j) => (|left| - i) + (|right| - j) + 1
  }

  /** The steps of a whole `merge_sort` of `n` cells: one to test and split, one
      before each later call, `2 * n + 3` inside the merge, and one to return. */
  function SortSteps(n: int): int {
    if n <= 1 then 1 else SortSteps(n - n / 2) + SortSteps(n / 2) + 2 * n + 7
  }

  /** The property of `SortSteps` that matters, for both roundings of the half. */
  ghost predicate CountsSortSteps(steps: int -> int) {
    && (forall n :: steps(n) >= 1 && (n <= 1 ==> steps(n) == 1))
    && (forall n, m {:trigger IsHalf(n, m)} :: n > 1 && IsHalf(n, m) ==>
          steps(n) == steps(m) + steps(n - m) + 2 * n + 7)
  }

  lemma {:induction false} SortStepsPositive(n: int)
    ensures SortSteps(n) >= 1
  {
    if n > 1 {
      SortStepsPositive(n - n / 2);
      SortStepsPositive(n / 2);
    }
  }

  lemma SortStepsCounts()
    ensures CountsSortSteps(SortSteps)
  {
    forall n
      ensures SortSteps(n) >= 1
    {
      SortStepsPositive(n);
    }
    forall n, m | n > 1 && IsHalf(n, m)
      ensures SortSteps(n) == SortSteps(m) + SortSteps(n - m) + 2 * n + 7
    {
      HalfIs(n, m);
      SortStepsSplit(n, m, n - m);
    }
  }

  lemma SortStepsSplit(n: int, m: int, k: int)
    requires n > 1 && k == n / 2 && m == n - k
    ensures SortSteps(n) == SortSteps(m) + SortSteps(k) + 2 * n + 7
  {
  }

  lemma HalfIs(n: int, m: int)
    requires IsHalf(n, m)
    ensures n / 2 == n - m
  {
  }

  function FrameSteps(f: Frame, steps: int -> int): int {
    var merge := 2 * (f.high + 1 - f.low) + 3;
    match f.pc
    case Enter => steps(f.high + 1 - f.low)
    case AfterFirst => steps(f.high - f.half) + merge + 3
    case AfterSecond => merge + 2
    case AfterMerge => 1
  }

  function StackSteps(s: Stack, steps: int -> int): int {
    if s.Empty? then 0 else FrameSteps(s.top, steps) + StackSteps(s.below, steps)
  }

  function StepsLeft(t: Thread, steps: int -> int): int {
    MergeSteps(t.merging) + StackSteps(t.stack, steps)
  }

  lemma {:induction false} StackStepsPositive(s: Stack, from: int, to: int, steps: int -> int)
    requires StackWithin(s, from, to) && CountsSortSteps(steps)
    ensures StackSteps(s, steps) >= 0 && (StackSteps(s, steps) == 0 <==> s.Empty?)
  {
    if s.Push? {
      StackStepsPositive(s.below, from, to, steps);
    }
  }

  lemma MergeStepCountsDown(m: Merging, mem: seq<Cell>)
    requires MergingWithin(m, 0, |mem|)
    ensures MergeSteps(m) >= 0 && (MergeSteps(m) == 0 <==> m.Idle?)
    ensures !m.Idle? ==> MergeSteps(MergeStep(m, mem).0) == MergeSteps(m) - 1
  {
  }

  lemma TwoFrameSteps(f: Frame, g: Frame, below: Stack, steps: int -> int)
    ensures StackSteps(Push(f, Push(g, below)), steps)
      == FrameSteps(f, steps) + FrameSteps(g, steps) + StackSteps(below, steps)
  {
  }

  lemma EnterSteps(f: Frame, from: int, to: int, steps: int -> int)
    requires FrameWithin(f, from, to) && f.pc.Enter? && f.low < f.high && CountsSortSteps(steps)
    ensures FrameSteps(Called(f.low, f.half), steps) + FrameSteps(f.(pc := AfterFirst), steps)
      == FrameSteps(f, steps) - 1
  {
    MidpointInRange(f.low, f.high);
    var n, m := f.high + 1 - f.low, f.half + 1 - f.low;
    assert IsHalf(n, m);
  }

  lemma CallStepCountsDown(s: Stack, from: int, to: int, steps: int -> int)
    requires StackWithin(s, from, to) && s.Push? && CountsSortSteps(steps)
    ensures StepsLeft(CallStep(s), steps) == StackSteps(s, steps) - 1
  {
    var f, below := s.top, s.below;
    match f.pc
    case Enter =>
      if f.low < f.high {
        TwoFrameSteps(Called(f.low, f.half), f.(pc := AfterFirst), below, steps);
        EnterSteps(f, from, to, steps);
      } else {
        assert FrameSteps(f, steps) == 1;
      }
    case AfterFirst =>
      TwoFrameSteps(Called(f.half + 1, f.high), f.(pc := AfterSecond), below, steps);
      assert f.high + 1 - (f.half + 1) == f.high - f.half;
    case AfterSecond =>
    case AfterMerge =>
  }

  /** Every step of a thread that is not done brings it one step nearer its end. */
  lemma StepCountsDown(t: Thread, mem: seq<Cell>, steps: int -> int)
    requires Within(t, 0, |mem|) && CountsSortSteps(steps)
    ensures StepsLeft(t, steps) >= 0 && (t.Done() <==> StepsLeft(t, steps) == 0)
    ensures StepsLeft(ThreadStep(t, mem).0, steps) == if t.Done() then 0 else StepsLeft(t, steps) - 1
  {
    StackStepsPositive(t.stack, 0, |mem|, steps);
    MergeStepCountsDown(t.merging, mem);
    if t.merging.Idle? && t.stack.Push? {
      CallStepCountsDown(t.stack, 0, |mem|, steps);
    }
  }

  lemma {:induction false} RunCountsDown(sys: System, cuts: seq<int>, schedule: seq<nat>, i: nat, steps: int -> int)
    requires Partitioned(sys, cuts) && IsSchedule(schedule, |sys.threads|) && i < |sys.threads|
    requires CountsSortSteps(steps)
    ensures Run(sys, cuts, schedule).threads[i].Done() <==> Turns(schedule, i) >= StepsLeft(sys.threads[i], steps)
    decreases |schedule|
  {
    StepStaysWithin(sys.threads[i], sys.mem, cuts[i], cuts[i + 1]);
    StepCountsDown(sys.threads[i], sys.mem, steps);
    if schedule != [] {
      RunCountsDown(SystemStep(sys, cuts, schedule[0]), cuts, schedule[1..], i, steps);
    }
  }

  lemma CreatedSteps(from: int, to: int, steps: int -> int)
    ensures StepsLeft(Created(from, to - 1), steps) == steps(to - from)
  {
    assert (to - 1) + 1 - from == to - from;
    assert StackSteps(Empty, steps) == 0;
  }

  lemma CreatedDoneExactlyWhen(sys: System, cuts: seq<int>, schedule: seq<nat>, i: nat, steps: int -> int)
    requires Partitioned(sys, cuts) && IsSchedule(schedule, |sys.threads|) && i < |sys.threads|
    requires sys.threads[i] == Created(cuts[i], cuts[i + 1] - 1) && CountsSortSteps(steps)
    ensures Run(sys, cuts, schedule).threads[i].Done() <==> Turns(schedule, i) >= steps(cuts[i + 1] - cuts[i])
  {
    var left := StepsLeft(sys.threads[i], steps);
    assert left == steps(cuts[i + 1] - cuts[i]) by {
      CreatedSteps(cuts[i], cuts[i + 1], steps);
    }
    RunCountsDown(sys, cuts, schedule, i, steps);
  }

  lemma StartFinishes(input: seq<Cell>, cuts: seq<int>, schedule: seq<nat>, steps: int -> int)
    requires ValidCuts(cuts, |input|) && Partitioned(Start(input, cuts), cuts) && IsSchedule(schedule, |cuts| - 1)
    requires CountsSortSteps(steps)
    ensures Finished(Run(Start(input, cuts), cuts, schedule)) <==>
      forall i :: 0 <= i < |cuts| - 1 ==> Turns(schedule, i) >= steps(cuts[i + 1] - cuts[i])
  {
    var end := Run(Start(input, cuts), cuts, schedule);
    forall i | 0 <= i < |cuts| - 1
      ensures end.threads[i].Done() <==> Turns(schedule, i) >= steps(cuts[i + 1] - cuts[i])
    {
      StartThread(input, cuts, i);
      CreatedDoneExactlyWhen(Start(input, cuts), cuts, schedule, i, steps);
    }
  }

  /** The program gets to its fold exactly when every thread has had as many turns as
      the size of its block calls for; no thread ever waits for another. `steps` is
      `SortSteps`. */
  lemma FinishedExactlyWhen(input: seq<Cell>, threads: nat, cuts: seq<int>, schedule: seq<nat>, steps: int -> int)
    requires threads > 0 && cuts == Cuts(|input|, threads) && IsSchedule(schedule, threads)
    requires forall n :: steps(n) == SortSteps(n)
    ensures ValidCuts(cuts, |input|) && Partitioned(Start(input, cuts), cuts)
    ensures Finished(Run(Start(input, cuts), cuts, schedule)) <==>
      forall i :: 0 <= i < threads ==> Turns(schedule, i) >= steps(cuts[i + 1] - cuts[i])
  {
    CutsOfThreads(|input|, threads, cuts);
    StartIsPartitioned(input, cuts);
    OnlySortStepsCount(steps);
    StartFinishes(input, cuts, schedule, steps);
  }

  lemma CutsOfThreads(length: nat, threads: nat, cuts: seq<int>)
    requires threads > 0 && cuts == Cuts(length, threads)
    ensures ValidCuts(cuts, length) && |cuts| == threads + 1
  {
    CutsValid(length, threads);
  }

  lemma OnlySortStepsCount(steps: int -> int)
    requires forall n :: steps(n) == SortSteps(n)
    ensures CountsSortSteps(steps)
  {
    SortStepsCounts();
    forall n, m | n > 1 && IsHalf(n, m)
      ensures steps(n) == steps(m) + steps(n - m) + 2 * n + 7
    {
      assert steps(n) == SortSteps(n) && steps(m) == SortSteps(m) && steps(n - m) == SortSteps(n - m);
    }
  }
}
