/** `read_writer.c` for any number of readers and writers: every semaphore
    operation and every load and store of `noReaders` is a step of its own. */
module ReadersWriters {
  import opened Counting

  datatype ReaderPc =
    | RWaitTurn            // sem_wait(&turn)
    | RPostTurn            // sem_post(&turn)
    | RWaitIn              // sem_wait(&mutex), entering
    | RLoadIn              // ++noReaders
    | RStoreIn(seen: int)
    | RTestIn              // noReaders == 1
    | RWaitEmpty           // sem_wait(&empty)
    | RPostIn              // sem_post(&mutex)
    | RReading             // the read itself
    | RWaitOut             // sem_wait(&mutex), leaving
    | RLoadOut             // --noReaders
    | RStoreOut(seen: int)
    | RTestOut             // noReaders == 0
    | RPostEmpty           // sem_post(&empty)
    | RPostOut             // sem_post(&mutex)

  datatype WriterPc =
    | WWaitTurn            // sem_wait(&turn)
    | WWaitEmpty           // sem_wait(&empty)
    | WWriting             // the write itself
    | WPostTurn            // sem_post(&turn)
    | WPostEmpty           // sem_post(&empty)

  /** The program's global variables. */
  datatype Shared = Shared(turn: nat, mutex: nat, empty: nat, noReaders: int)

  datatype State = State(shared: Shared, readers: seq<ReaderPc>, writers: seq<WriterPc>)

  datatype Thread = Reader(i: nat) | Writer(j: nat)

  /** The state in which `main` starts the threads, any number of each kind. */
  ghost predicate IsStart(s: State) {
    && s.shared == Shared(1, 1, 1, 0)
    && (forall i :: 0 <= i < |s.readers| ==> s.readers[i] == RWaitTurn)
    && (forall j :: 0 <= j < |s.writers| ==> s.writers[j] == WWaitTurn)
  }

  /** Only a `sem_wait` on a semaphore at zero keeps a thread from going on. */
  predicate ReaderReady(pc: ReaderPc, g: Shared) {
    match pc
    case RWaitTurn => g.turn > 0
    case RWaitIn => g.mutex > 0
    case RWaitOut => g.mutex > 0
    case RWaitEmpty => g.empty > 0
    case _ => true
  }

  function ReaderNext(pc: ReaderPc, g: Shared): (ReaderPc, Shared)
    requires ReaderReady(pc, g)
  {
    match pc
    case RWaitTurn => (RPostTurn, g.(turn := g.turn - 1))
    case RPostTurn => (RWaitIn, g.(turn := g.turn + 1))
    case RWaitIn => (RLoadIn, g.(mutex := g.mutex - 1))
    case RLoadIn => (RStoreIn(g.noReaders), g)
    case RStoreIn(seen) => (RTestIn, g.(noReaders := seen + 1))
    case RTestIn => (if g.noReaders == 1 then RWaitEmpty else RPostIn, g)
    case RWaitEmpty => (RPostIn, g.(empty := g.empty - 1))
    case RPostIn => (RReading, g.(mutex := g.mutex + 1))
    case RReading => (RWaitOut, g)
    case RWaitOut => (RLoadOut, g.(mutex := g.mutex - 1))
    case RLoadOut => (RStoreOut(g.noReaders), g)
    case RStoreOut(seen) => (RTestOut, g.(noReaders := seen - 1))
    case RTestOut => (if g.noReaders == 0 then RPostEmpty else RPostOut, g)
    case RPostEmpty => (RPostOut, g.(empty := g.empty + 1))
    case RPostOut => (RWaitTurn, g.(mutex := g.mutex + 1))
  }

  predicate WriterReady(pc: WriterPc, g: Shared) {
    match pc
    case WWaitTurn => g.turn > 0
    case WWaitEmpty => g.empty > 0
    case _ => true
  }

  function WriterNext(pc: WriterPc, g: Shared): (WriterPc, Shared)
    requires WriterReady(pc, g)
  {
    match pc
    case WWaitTurn => (WWaitEmpty, g.(turn := g.turn - 1))
    case WWaitEmpty => (WWriting, g.(empty := g.empty - 1))
    case WWriting => (WPostTurn, g)
    case WPostTurn => (WPostEmpty, g.(turn := g.turn + 1))
    case WPostEmpty => (WWaitTurn, g.(empty := g.empty + 1))
  }

  predicate Exists(s: State, t: Thread) {
    match t
    case Reader(i) => i < |s.readers|
    case Writer(j) => j < |s.writers|
  }

  predicate Enabled(s: State, t: Thread)
    requires Exists(s, t)
  {
    match t
    case Reader(i) => ReaderReady(s.readers[i], s.shared)
    case Writer(j) => WriterReady(s.writers[j], s.shared)
  }

  function ReaderStep(s: State, i: nat): State
    requires Exists(s, Reader(i)) && Enabled(s, Reader(i))
  {
    var (pc, g) := ReaderNext(s.readers[i], s.shared);
    State(g, s.readers[i := pc], s.writers)
  }

  function WriterStep(s: State, j: nat): State
    requires Exists(s, Writer(j)) && Enabled(s, Writer(j))
  {
    var (pc, g) := WriterNext(s.writers[j], s.shared);
    State(g, s.readers, s.writers[j := pc])
  }

  /** One turn of thread `t`; a blocked thread stays where it is. */
  function Step(s: State, t: Thread): (s': State)
    requires Exists(s, t)
    ensures |s'.readers| == |s.readers| && |s'.writers| == |s.writers|
  {
    if !Enabled(s, t) then s
    else match t
      case Reader(i) => ReaderStep(s, i)
      case Writer(j) => WriterStep(s, j)
  }

  ghost predicate IsSchedule(s: State, schedule: seq<Thread>) {
    forall k :: 0 <= k < |schedule| ==> Exists(s, schedule[k])
  }

  function Run(s: State, schedule: seq<Thread>): State
    requires IsSchedule(s, schedule)
    decreases |schedule|
  {
    if schedule == [] then s else Run(Step(s, schedule[0]), schedule[1..])
  }

  // ---------- who holds what ----------

  function ReaderHoldsTurn(pc: ReaderPc): int { if pc.RPostTurn? then 1 else 0 }
  function WriterHoldsTurn(pc: WriterPc): int { if pc.WWaitEmpty? || pc.WWriting? || pc.WPostTurn? then 1 else 0 }
  function WriterHoldsEmpty(pc: WriterPc): int { if pc.WWriting? || pc.WPostTurn? || pc.WPostEmpty? then 1 else 0 }

  // The places inside the mutex, one by one where they matter for `empty`.
  function AtTestIn(pc: ReaderPc): int { if pc.RTestIn? then 1 else 0 }
  function AtWaitEmpty(pc: ReaderPc): int { if pc.RWaitEmpty? then 1 else 0 }
  function AtTestOut(pc: ReaderPc): int { if pc.RTestOut? then 1 else 0 }
  function AtPostEmpty(pc: ReaderPc): int { if pc.RPostEmpty? then 1 else 0 }
  function ElsewhereInMutex(pc: ReaderPc): int {
    if pc.RLoadIn? || pc.RStoreIn? || pc.RPostIn? || pc.RLoadOut? || pc.RStoreOut? || pc.RPostOut? then 1 else 0
  }

  /** The readers that `noReaders` counts. */
  function Counted(pc: ReaderPc): int {
    if pc.RTestIn? || pc.RWaitEmpty? || pc.RPostIn? || pc.RReading? || pc.RWaitOut? || pc.RLoadOut? || pc.RStoreOut?
    then 1 else 0
  }

  /** How many readers are at the places that the ledger tells apart. */
  datatype Tally = Tally(turn: int, testIn: int, waitEmpty: int, testOut: int, postEmpty: int,
                         elsewhere: int, counted: int)

  function TallyOf(readers: seq<ReaderPc>): Tally {
    Tally(Sum(readers, ReaderHoldsTurn), Sum(readers, AtTestIn), Sum(readers, AtWaitEmpty),
      Sum(readers, AtTestOut), Sum(readers, AtPostEmpty), Sum(readers, ElsewhereInMutex), Sum(readers, Counted))
  }

  /** The tally after one reader has gone from `pc` to `pc'`. */
  function Moved(t: Tally, pc: ReaderPc, pc': ReaderPc): Tally {
    Tally(t.turn - ReaderHoldsTurn(pc) + ReaderHoldsTurn(pc'), t.testIn - AtTestIn(pc) + AtTestIn(pc'),
      t.waitEmpty - AtWaitEmpty(pc) + AtWaitEmpty(pc'), t.testOut - AtTestOut(pc) + AtTestOut(pc'),
      t.postEmpty - AtPostEmpty(pc) + AtPostEmpty(pc'),
      t.elsewhere - ElsewhereInMutex(pc) + ElsewhereInMutex(pc'), t.counted - Counted(pc) + Counted(pc'))
  }

  /** The tally includes a reader at `pc`. */
  predicate Includes(t: Tally, pc: ReaderPc) {
    && t.turn >= ReaderHoldsTurn(pc) && t.testIn >= AtTestIn(pc) && t.waitEmpty >= AtWaitEmpty(pc)
    && t.testOut >= AtTestOut(pc) && t.postEmpty >= AtPostEmpty(pc)
    && t.elsewhere >= ElsewhereInMutex(pc) && t.counted >= Counted(pc)
  }

  /** Who holds which semaphore, and what `noReaders` counts. The readers hold `empty`
      as a group: from when the first one has taken it inside the mutex until the last
      one posts it. */
  predicate Balanced(g: Shared, t: Tally, writersTurn: int, writersEmpty: int) {
    && g.turn + t.turn + writersTurn == 1
    && g.mutex + t.testIn + t.waitEmpty + t.testOut + t.postEmpty + t.elsewhere == 1
    && g.noReaders == t.counted
    && (g.noReaders == 0 ==> g.empty + writersEmpty + t.testOut + t.postEmpty == 1)
    && (g.noReaders == 1 ==> g.empty + writersEmpty == t.testIn + t.waitEmpty)
    && (g.noReaders >= 2 ==> g.empty + writersEmpty == 0)
    && (t.waitEmpty >= 1 ==> g.noReaders == 1)
    && (t.postEmpty >= 1 ==> g.noReaders == 0)
  }

  ghost predicate Inv(s: State) {
    && Balanced(s.shared, TallyOf(s.readers), Sum(s.writers, WriterHoldsTurn), Sum(s.writers, WriterHoldsEmpty))
    && forall i :: 0 <= i < |s.readers| ==> SeesCurrent(s.readers, i, s.shared.noReaders)
  }

  /** What a thread has loaded is still what `noReaders` holds. */
  predicate SeenIsCurrent(pc: ReaderPc, noReaders: int) {
    (pc.RStoreIn? || pc.RStoreOut?) ==> pc.seen == noReaders
  }

  predicate SeesCurrent(readers: seq<ReaderPc>, i: nat, noReaders: int)
    requires i < |readers|
  {
    SeenIsCurrent(readers[i], noReaders)
  }

  lemma TallyIncludes(readers: seq<ReaderPc>, i: nat)
    requires i < |readers|
    ensures Includes(TallyOf(readers), readers[i])
  {
    SumAtLeast(readers, i, ReaderHoldsTurn);
    SumAtLeast(readers, i, AtTestIn);
    SumAtLeast(readers, i, AtWaitEmpty);
    SumAtLeast(readers, i, AtTestOut);
    SumAtLeast(readers, i, AtPostEmpty);
    SumAtLeast(readers, i, ElsewhereInMutex);
    SumAtLeast(readers, i, Counted);
  }

  /** Every count is non-negative, in the form of including a reader that holds nothing. */
  lemma TallyNonNegative(readers: seq<ReaderPc>)
    ensures Includes(TallyOf(readers), RWaitTurn)
  {
    SumNonNegative(readers, ReaderHoldsTurn);
    SumNonNegative(readers, AtTestIn);
    SumNonNegative(readers, AtWaitEmpty);
    SumNonNegative(readers, AtTestOut);
    SumNonNegative(readers, AtPostEmpty);
    SumNonNegative(readers, ElsewhereInMutex);
    SumNonNegative(readers, Counted);
  }

  lemma TallyMoves(readers: seq<ReaderPc>, i: nat, pc: ReaderPc)
    requires i < |readers|
    ensures TallyOf(readers[i := pc]) == Moved(TallyOf(readers), readers[i], pc)
  {
    SumUpdate(readers, i, pc, ReaderHoldsTurn);
    SumUpdate(readers, i, pc, AtTestIn);
    SumUpdate(readers, i, pc, AtWaitEmpty);
    SumUpdate(readers, i, pc, AtTestOut);
    SumUpdate(readers, i, pc, AtPostEmpty);
    SumUpdate(readers, i, pc, ElsewhereInMutex);
    SumUpdate(readers, i, pc, Counted);
  }

  lemma TallyAtStart(readers: seq<ReaderPc>)
    requires forall i :: 0 <= i < |readers| ==> readers[i] == RWaitTurn
    ensures
      var t := TallyOf(readers);
      t.turn == t.testIn == t.waitEmpty == t.testOut == t.postEmpty == t.elsewhere == t.counted == 0
  {
    SumZero(readers, ReaderHoldsTurn);
    SumZero(readers, AtTestIn);
    SumZero(readers, AtWaitEmpty);
    SumZero(readers, AtTestOut);
    SumZero(readers, AtPostEmpty);
    SumZero(readers, ElsewhereInMutex);
    SumZero(readers, Counted);
  }

  lemma WritersAtStart(writers: seq<WriterPc>)
    requires forall j :: 0 <= j < |writers| ==> writers[j] == WWaitTurn
    ensures Sum(writers, WriterHoldsTurn) == 0 && Sum(writers, WriterHoldsEmpty) == 0
  {
    SumZero(writers, WriterHoldsTurn);
    SumZero(writers, WriterHoldsEmpty);
  }

  lemma StartInv(s: State)
    requires IsStart(s)
    ensures Inv(s)
  {
    TallyAtStart(s.readers);
    WritersAtStart(s.writers);
    forall i | 0 <= i < |s.readers|
      ensures SeesCurrent(s.readers, i, s.shared.noReaders)
    {
      assert s.readers[i] == RWaitTurn;
    }
  }

  /** A reader that has loaded `noReaders` is inside the mutex, so no other reader
      has loaded it too. */
  lemma OthersHaveNotLoaded(s: State, i: nat, k: nat)
    requires Inv(s) && i < |s.readers| && k < |s.readers| && i != k
    requires s.readers[i].RStoreIn? || s.readers[i].RStoreOut?
    ensures !s.readers[k].RStoreIn? && !s.readers[k].RStoreOut?
  {
    TallyNonNegative(s.readers);
    SumAtLeastTwo(s.readers, if i < k then i else k, if i < k then k else i, ElsewhereInMutex);
  }

  lemma ReaderNextBalanced(pc: ReaderPc, g: Shared, t: Tally, writersTurn: int, writersEmpty: int)
    requires Balanced(g, t, writersTurn, writersEmpty) && ReaderReady(pc, g) && SeenIsCurrent(pc, g.noReaders)
    requires Includes(t, pc) && Includes(t, RWaitTurn) && writersTurn >= 0 && writersEmpty >= 0
    ensures
      var (pc', g') := ReaderNext(pc, g);
      Balanced(g', Moved(t, pc, pc'), writersTurn, writersEmpty)
  {
  }

  lemma ReaderStepKeepsInv(s: State, i: nat)
    requires Inv(s) && Exists(s, Reader(i)) && Enabled(s, Reader(i))
    ensures Inv(ReaderStep(s, i))
  {
    TallyNonNegative(s.readers);
    SumNonNegative(s.writers, WriterHoldsTurn);
    SumNonNegative(s.writers, WriterHoldsEmpty);
    TallyIncludes(s.readers, i);
    TallyMoves(s.readers, i, ReaderStep(s, i).readers[i]);
    assert SeesCurrent(s.readers, i, s.shared.noReaders);
    ReaderNextBalanced(s.readers[i], s.shared, TallyOf(s.readers),
      Sum(s.writers, WriterHoldsTurn), Sum(s.writers, WriterHoldsEmpty));
    forall k | 0 <= k < |s.readers|
      ensures SeesCurrent(ReaderStep(s, i).readers, k, ReaderStep(s, i).shared.noReaders)
    {
      assert SeesCurrent(s.readers, k, s.shared.noReaders);
      if k != i && (s.readers[i].RStoreIn? || s.readers[i].RStoreOut?) {
        OthersHaveNotLoaded(s, i, k);
      }
    }
  }

  lemma WriterNextBalanced(pc: WriterPc, g: Shared, t: Tally, writersTurn: int, writersEmpty: int)
    requires Balanced(g, t, writersTurn, writersEmpty) && WriterReady(pc, g)
    ensures
      var (pc', g') := WriterNext(pc, g);
      && g'.noReaders == g.noReaders
      && Balanced(g', t, writersTurn - WriterHoldsTurn(pc) + WriterHoldsTurn(pc'),
           writersEmpty - WriterHoldsEmpty(pc) + WriterHoldsEmpty(pc'))
  {
  }

  lemma WriterStepKeepsInv(s: State, j: nat)
    requires Inv(s) && Exists(s, Writer(j)) && Enabled(s, Writer(j))
    ensures Inv(WriterStep(s, j))
  {
    var s' := WriterStep(s, j);
    WriterNextBalanced(s.writers[j], s.shared, TallyOf(s.readers),
      Sum(s.writers, WriterHoldsTurn), Sum(s.writers, WriterHoldsEmpty));
    SumUpdate(s.writers, j, s'.writers[j], WriterHoldsTurn);
    SumUpdate(s.writers, j, s'.writers[j], WriterHoldsEmpty);
    forall i | 0 <= i < |s.readers|
      ensures SeesCurrent(s'.readers, i, s'.shared.noReaders)
    {
      assert SeesCurrent(s.readers, i, s.shared.noReaders);
    }
  }

  lemma StepKeepsInv(s: State, t: Thread)
    requires Inv(s) && Exists(s, t)
    ensures Inv(Step(s, t))
  {
    if Enabled(s, t) {
      match t
      case Reader(i) => ReaderStepKeepsInv(s, i);
      case Writer(j) => WriterStepKeepsInv(s, j);
    }
  }

  lemma {:induction false} RunKeepsInv(s: State, schedule: seq<Thread>)
    requires Inv(s) && IsSchedule(s, schedule)
    ensures Inv(Run(s, schedule))
    decreases |schedule|
  {
    if schedule != [] {
      StepKeepsInv(s, schedule[0]);
      RunKeepsInv(Step(s, schedule[0]), schedule[1..]);
    }
  }

  // ---------- exclusion ----------

  /** A writer writes alone: no reader reads, and no other writer writes. */
  ghost predicate WritesAlone(s: State) {
    forall j :: 0 <= j < |s.writers| && s.writers[j].WWriting? ==>
      && (forall i :: 0 <= i < |s.readers| ==> !s.readers[i].RReading?)
      && (forall k :: 0 <= k < |s.writers| && k != j ==> !s.writers[k].WWriting?)
  }

  /** A reader that reads is counted, and the group then holds `empty`. */
  lemma ReadingHoldsEmpty(s: State, i: nat)
    requires Inv(s) && i < |s.readers| && s.readers[i].RReading?
    ensures s.shared.empty == 0 && Sum(s.writers, WriterHoldsEmpty) == 0
  {
    TallyNonNegative(s.readers);
    SumNonNegative(s.writers, WriterHoldsEmpty);
    var t := TallyOf(s.readers);
    if t.testIn + t.waitEmpty >= 1 {
      // then a second reader is counted besides the one that reads
      SumAtLeast(s.readers, i, Counted);
      ReadingAndEntering(s.readers, i);
    } else {
      SumAtLeast(s.readers, i, Counted);
    }
  }

  lemma ReadingAndEntering(readers: seq<ReaderPc>, i: nat)
    requires i < |readers| && readers[i].RReading?
    requires Sum(readers, AtTestIn) >= 1 || Sum(readers, AtWaitEmpty) >= 1
    ensures Sum(readers, Counted) >= 2
  {
    var k: nat;
    if Sum(readers, AtTestIn) >= 1 {
      k := SumWitness(readers, AtTestIn);
    } else {
      k := SumWitness(readers, AtWaitEmpty);
    }
    SumAtLeastTwo(readers, if i < k then i else k, if i < k then k else i, Counted);
  }

  lemma InvWritesAlone(s: State)
    requires Inv(s)
    ensures WritesAlone(s)
  {
    TallyNonNegative(s.readers);
    forall j | 0 <= j < |s.writers| && s.writers[j].WWriting?
      ensures forall i :: 0 <= i < |s.readers| ==> !s.readers[i].RReading?
      ensures forall k :: 0 <= k < |s.writers| && k != j ==> !s.writers[k].WWriting?
    {
      SumAtLeast(s.writers, j, WriterHoldsEmpty);
      forall i | 0 <= i < |s.readers|
        ensures !s.readers[i].RReading?
      {
        if s.readers[i].RReading? {
          ReadingHoldsEmpty(s, i);
        }
      }
      forall k | 0 <= k < |s.writers| && k != j
        ensures !s.writers[k].WWriting?
      {
        if s.writers[k].WWriting? {
          SumAtLeastTwo(s.writers, if j < k then j else k, if j < k then k else j, WriterHoldsTurn);
        }
      }
    }
  }

  /** For any number of readers and writers and every schedule, writers write alone. */
  lemma Exclusion(s: State, schedule: seq<Thread>)
    requires IsStart(s) && IsSchedule(s, schedule)
    ensures WritesAlone(Run(s, schedule))
  {
    StartInv(s);
    RunKeepsInv(s, schedule);
    InvWritesAlone(Run(s, schedule));
  }

  // ---------- no deadlock ----------

  ghost predicate CanStep(s: State) {
    exists t :: Exists(s, t) && Enabled(s, t)
  }

  /** Whoever holds `empty` through a writer can go on. */
  lemma EmptyWriterCanStep(s: State)
    requires Sum(s.writers, WriterHoldsEmpty) > 0
    ensures CanStep(s)
  {
    var j := SumWitness(s.writers, WriterHoldsEmpty);
    assert Enabled(s, Writer(j));
  }

  /** A reader inside the mutex can go on, except the first one while it waits for
      `empty`; then a writer holds `empty`, and that one can. */
  lemma MutexHolderCanStep(s: State)
    requires Inv(s) && s.shared.mutex == 0
    ensures CanStep(s)
  {
    TallyNonNegative(s.readers);
    var i: nat;
    if Sum(s.readers, AtTestIn) > 0 {
      i := SumWitness(s.readers, AtTestIn);
    } else if Sum(s.readers, AtTestOut) > 0 {
      i := SumWitness(s.readers, AtTestOut);
    } else if Sum(s.readers, AtPostEmpty) > 0 {
      i := SumWitness(s.readers, AtPostEmpty);
    } else if Sum(s.readers, ElsewhereInMutex) > 0 {
      i := SumWitness(s.readers, ElsewhereInMutex);
    } else {
      i := SumWitness(s.readers, AtWaitEmpty);
      if s.shared.empty == 0 {
        EmptyWriterCanStep(s);
      }
    }
    assert Enabled(s, Reader(i)) || CanStep(s);
  }

  /** With the mutex free, a reader is stuck only before `turn`. */
  lemma FreeMutexReaders(s: State, i: nat)
    requires s.shared.mutex > 0 && Inv(s) && i < |s.readers| && !s.readers[i].RWaitTurn?
    ensures Enabled(s, Reader(i))
  {
    TallyNonNegative(s.readers);
    TallyIncludes(s.readers, i);
  }

  /** The owner of `turn`, if a writer, is stuck only while the readers or
      another writer hold `empty`; in either case someone can go on. */
  lemma TurnHolderCanStep(s: State)
    requires Inv(s) && s.shared.turn == 0 && s.shared.mutex > 0
    ensures CanStep(s)
  {
    TallyNonNegative(s.readers);
    SumNonNegative(s.writers, WriterHoldsEmpty);
    if Sum(s.readers, ReaderHoldsTurn) > 0 {
      var i := SumWitness(s.readers, ReaderHoldsTurn);
      assert Enabled(s, Reader(i));
    } else if Sum(s.writers, WriterHoldsEmpty) > 0 {
      EmptyWriterCanStep(s);
    } else if s.shared.empty > 0 {
      var j := SumWitness(s.writers, WriterHoldsTurn);
      assert Enabled(s, Writer(j));
    } else {
      var i := SumWitness(s.readers, Counted);
      FreeMutexReaders(s, i);
    }
  }

  lemma InvCanStep(s: State)
    requires Inv(s) && |s.readers| + |s.writers| > 0
    ensures CanStep(s)
  {
    if s.shared.mutex == 0 {
      MutexHolderCanStep(s);
    } else if s.shared.turn == 0 {
      TurnHolderCanStep(s);
    } else if |s.readers| > 0 {
      if !s.readers[0].RWaitTurn? {
        FreeMutexReaders(s, 0);
      }
      assert Enabled(s, Reader(0));
    } else {
      SumAtLeast(s.writers, 0, WriterHoldsTurn);
      SumNonNegative(s.writers, WriterHoldsTurn);
      TallyNonNegative(s.readers);
      assert Enabled(s, Writer(0));
    }
  }

  /** Some thread can always take a step, whatever the schedule has been so far. */
  lemma DeadlockFreedom(s: State, schedule: seq<Thread>)
    requires IsStart(s) && |s.readers| + |s.writers| > 0 && IsSchedule(s, schedule)
    ensures CanStep(Run(s, schedule))
  {
    StartInv(s);
    RunKeepsInv(s, schedule);
    RunKeepsThreads(s, schedule);
    InvCanStep(Run(s, schedule));
  }

  lemma {:induction false} RunKeepsThreads(s: State, schedule: seq<Thread>)
    requires IsSchedule(s, schedule)
    ensures |Run(s, schedule).readers| == |s.readers| && |Run(s, schedule).writers| == |s.writers|
    decreases |schedule|
  {
    if schedule != [] {
      RunKeepsThreads(Step(s, schedule[0]), schedule[1..]);
    }
  }

  // ---------- how long a writer waits once it owns the turn ----------

  ghost predicate OwnsTurn(s: State, w: nat) {
    w < |s.writers| && s.writers[w].WWaitEmpty?
  }

  /** At most how many steps a reader still takes before it is back at `turn`. */
  function ReaderRank(pc: ReaderPc): int {
    match pc
    case RWaitTurn => 0
    case RPostOut => 1
    case RPostEmpty => 2
    case RTestOut => 3
    case RStoreOut(_) => 4
    case RLoadOut => 5
    case RWaitOut => 6
    case RReading => 7
    case RPostIn => 8
    case RWaitEmpty => 9
    case RTestIn => 10
    case RStoreIn(_) => 11
    case RLoadIn => 12
    case RWaitIn => 13
    case RPostTurn => 14
  }

  /** The same for a writer that has posted the turn; the others are at `turn`. */
  function WriterRank(pc: WriterPc): int {
    if pc.WPostEmpty? then 1 else 0
  }

  function Rank(s: State): int {
    Sum(s.readers, ReaderRank) + Sum(s.writers, WriterRank)
  }

  /** Readers that have passed the turn and not finished their read. */
  function YetToRead(pc: ReaderPc): int {
    if pc.RWaitIn? || pc.RLoadIn? || pc.RStoreIn? || pc.RTestIn? || pc.RWaitEmpty? || pc.RPostIn? || pc.RReading?
    then 1 else 0
  }

  function ReadsAhead(s: State): int {
    Sum(s.readers, YetToRead)
  }

  predicate FinishesRead(s: State, t: Thread)
    requires Exists(s, t)
  {
    t.Reader? && s.readers[t.i].RReading?
  }

  /** While a writer owns the turn, nobody else is at a place that needs it. */
  lemma NobodyElseHasTurn(s: State, w: nat, t: Thread)
    requires Inv(s) && OwnsTurn(s, w) && Exists(s, t) && t != Writer(w)
    ensures s.shared.turn == 0
    ensures t.Reader? ==> !s.readers[t.i].RPostTurn?
    ensures t.Writer? ==> s.writers[t.j].WWaitTurn? || s.writers[t.j].WPostEmpty?
  {
    TallyNonNegative(s.readers);
    SumAtLeast(s.writers, w, WriterHoldsTurn);
    match t
    case Reader(i) => TallyIncludes(s.readers, i);
    case Writer(j) => SumAtLeastTwo(s.writers, if w < j then w else j, if w < j then j else w, WriterHoldsTurn);
  }

  lemma ReaderCountsDown(s: State, i: nat)
    requires i < |s.readers| && Enabled(s, Reader(i)) && !s.readers[i].RWaitTurn? && !s.readers[i].RPostTurn?
    ensures Rank(ReaderStep(s, i)) < Rank(s)
    ensures ReadsAhead(ReaderStep(s, i)) == ReadsAhead(s) - (if FinishesRead(s, Reader(i)) then 1 else 0)
  {
    var pc := ReaderNext(s.readers[i], s.shared).0;
    SumUpdate(s.readers, i, pc, ReaderRank);
    SumUpdate(s.readers, i, pc, YetToRead);
  }

  lemma WriterCountsDown(s: State, j: nat)
    requires j < |s.writers| && s.writers[j].WPostEmpty?
    ensures Rank(WriterStep(s, j)) < Rank(s) && ReadsAhead(WriterStep(s, j)) == ReadsAhead(s)
  {
    SumUpdate(s.writers, j, WWaitTurn, WriterRank);
  }

  /** Every step of another thread brings the writer nearer, and a read that
      finishes is one of those that were ahead when the writer got the turn. */
  lemma OthersCountDown(s: State, w: nat, t: Thread)
    requires Inv(s) && OwnsTurn(s, w) && Exists(s, t) && t != Writer(w) && Enabled(s, t)
    ensures OwnsTurn(Step(s, t), w) && Rank(Step(s, t)) < Rank(s)
    ensures ReadsAhead(Step(s, t)) == ReadsAhead(s) - (if FinishesRead(s, t) then 1 else 0)
  {
    NobodyElseHasTurn(s, w, t);
    match t
    case Reader(i) => ReaderCountsDown(s, i);
    case Writer(j) => WriterCountsDown(s, j);
  }

  lemma RankBounds(s: State, w: nat)
    requires Inv(s) && OwnsTurn(s, w)
    ensures 0 <= Rank(s) <= 14 * |s.readers| + |s.writers| && 0 <= ReadsAhead(s) <= |s.readers|
  {
    SumNonNegative(s.readers, ReaderRank);
    SumNonNegative(s.writers, WriterRank);
    SumNonNegative(s.readers, YetToRead);
    SumAtMost(s.readers, ReaderRank, 14);
    SumAtMost(s.writers, WriterRank, 1);
    SumAtMost(s.readers, YetToRead, 1);
  }

  /** A run in which every turn is a step of some thread other than writer `w`. */
  ghost predicate StepsOfOthers(s: State, schedule: seq<Thread>, w: nat)
    decreases |schedule|
  {
    schedule == [] ||
    (&& Exists(s, schedule[0]) && Enabled(s, schedule[0]) && schedule[0] != Writer(w)
     && StepsOfOthers(Step(s, schedule[0]), schedule[1..], w))
  }

  function FinishedReads(s: State, schedule: seq<Thread>): nat
    requires IsSchedule(s, schedule)
    decreases |schedule|
  {
    if schedule == [] then 0
    else
      (if FinishesRead(s, schedule[0]) then 1 else 0) + FinishedReads(Step(s, schedule[0]), schedule[1..])
  }

  lemma {:induction false} OvertakingRun(s: State, schedule: seq<Thread>, w: nat)
    requires Inv(s) && OwnsTurn(s, w) && StepsOfOthers(s, schedule, w) && IsSchedule(s, schedule)
    ensures Inv(Run(s, schedule)) && OwnsTurn(Run(s, schedule), w)
    ensures |schedule| + Rank(Run(s, schedule)) <= Rank(s)
    ensures FinishedReads(s, schedule) + ReadsAhead(Run(s, schedule)) == ReadsAhead(s)
    decreases |schedule|
  {
    if schedule != [] {
      StepKeepsInv(s, schedule[0]);
      OthersCountDown(s, w, schedule[0]);
      OvertakingRun(Step(s, schedule[0]), schedule[1..], w);
    }
  }

  /** Bounded overtaking: from when a writer owns the turn until it takes `empty`,
      at most as many reads finish as there are readers, and the other threads
      together take boundedly many steps. */
  lemma BoundedOvertaking(s: State, schedule: seq<Thread>, w: nat)
    requires Inv(s) && OwnsTurn(s, w) && StepsOfOthers(s, schedule, w) && IsSchedule(s, schedule)
    ensures OwnsTurn(Run(s, schedule), w)
    ensures FinishedReads(s, schedule) <= |s.readers|
    ensures |schedule| <= 14 * |s.readers| + |s.writers|
  {
    OvertakingRun(s, schedule, w);
    RankBounds(s, w);
    RankBounds(Run(s, schedule), w);
  }

  /** When no other thread can move any more, the writer can take `empty`. So a
      writer that owns the turn gets to write if every thread that stays able to
      step is stepped in the end. */
  lemma WriterIsNext(s: State, w: nat)
    requires Inv(s) && OwnsTurn(s, w)
    requires forall t :: Exists(s, t) && t != Writer(w) ==> !Enabled(s, t)
    ensures Enabled(s, Writer(w))
  {
    InvCanStep(s);
  }

  /** During `schedule` writer `w`, which owns the turn, takes `empty`. */
  predicate Enters(s: State, schedule: seq<Thread>, w: nat)
    requires IsSchedule(s, schedule)
    decreases |schedule|
  {
    schedule != [] &&
    ((schedule[0] == Writer(w) && Enabled(s, schedule[0])) || Enters(Step(s, schedule[0]), schedule[1..], w))
  }

  /** Until the writer enters, a run either lowers the rank or changes nothing at
      all, because none of the threads in it could move. */
  lemma {:induction false} WaitingRun(s: State, schedule: seq<Thread>, w: nat)
    requires Inv(s) && OwnsTurn(s, w) && IsSchedule(s, schedule) && !Enters(s, schedule, w)
    ensures Inv(Run(s, schedule)) && OwnsTurn(Run(s, schedule), w) && Rank(Run(s, schedule)) <= Rank(s)
    ensures Rank(Run(s, schedule)) == Rank(s) ==>
      Run(s, schedule) == s && forall k :: 0 <= k < |schedule| ==> !Enabled(s, schedule[k])
    decreases |schedule|
  {
    if schedule != [] {
      var t, rest := schedule[0], schedule[1..];
      StepKeepsInv(s, t);
      if Enabled(s, t) {
        OthersCountDown(s, w, t);
      }
      WaitingRun(Step(s, t), rest, w);
      assert forall k :: 1 <= k < |schedule| ==> schedule[k] == rest[k - 1];
    }
  }

  /** A stretch of the schedule in which every thread has at least one turn. */
  ghost predicate FullRound(s: State, schedule: seq<Thread>) {
    IsSchedule(s, schedule) && forall t :: Exists(s, t) ==> t in schedule
  }

  lemma FullRoundLowersRank(s: State, schedule: seq<Thread>, w: nat)
    requires Inv(s) && OwnsTurn(s, w) && FullRound(s, schedule) && !Enters(s, schedule, w)
    ensures Inv(Run(s, schedule)) && OwnsTurn(Run(s, schedule), w) && Rank(Run(s, schedule)) < Rank(s)
  {
    WaitingRun(s, schedule, w);
    InvCanStep(s);
  }

  ghost predicate AllSchedules(s: State, rounds: seq<seq<Thread>>) {
    forall k :: 0 <= k < |rounds| ==> IsSchedule(s, rounds[k])
  }

  lemma SchedulesRemain(s: State, rounds: seq<seq<Thread>>)
    requires rounds != [] && AllSchedules(s, rounds)
    ensures AllSchedules(Run(s, rounds[0]), rounds[1..])
  {
    RunKeepsThreads(s, rounds[0]);
    forall k | 0 <= k < |rounds[1..]|
      ensures IsSchedule(Run(s, rounds[0]), rounds[1..][k])
    {
      assert IsSchedule(s, rounds[k + 1]);
    }
  }

  ghost function RunRounds(s: State, rounds: seq<seq<Thread>>): State
    requires AllSchedules(s, rounds)
    decreases |rounds|
  {
    if rounds == [] then s
    else
      SchedulesRemain(s, rounds);
      RunRounds(Run(s, rounds[0]), rounds[1..])
  }

  ghost predicate EntersInRound(s: State, rounds: seq<seq<Thread>>, w: nat, k: nat) {
    && k < |rounds| && AllSchedules(s, rounds[..k])
    && var before := RunRounds(s, rounds[..k]);
       OwnsTurn(before, w) && IsSchedule(before, rounds[k]) && Enters(before, rounds[k], w)
  }

  lemma EntersOneRoundLater(s: State, rounds: seq<seq<Thread>>, w: nat, k: nat)
    requires rounds != [] && AllSchedules(s, rounds)
    requires EntersInRound(Run(s, rounds[0]), rounds[1..], w, k)
    ensures EntersInRound(s, rounds, w, k + 1)
  {
    assert rounds[..k + 1][0] == rounds[0] && rounds[..k + 1][1..] == rounds[1..][..k];
  }

  /** Freedom from starvation under a fair scheduler: a writer that owns the turn
      takes `empty` before it has seen as many full rounds as the rank bound says. */
  lemma {:induction false} WriterEnters(s: State, rounds: seq<seq<Thread>>, w: nat) returns (k: nat)
    requires Inv(s) && OwnsTurn(s, w) && |rounds| > Rank(s)
    requires forall r :: 0 <= r < |rounds| ==> FullRound(s, rounds[r])
    ensures EntersInRound(s, rounds, w, k)
    decreases |rounds|
  {
    RankBounds(s, w);
    if Enters(s, rounds[0], w) {
      k := 0;
    } else {
      FullRoundLowersRank(s, rounds[0], w);
      FullRoundsRemain(s, rounds);
      k := WriterEnters(Run(s, rounds[0]), rounds[1..], w);
      EntersOneRoundLater(s, rounds, w, k);
      k := k + 1;
    }
  }

  lemma FullRoundsRemain(s: State, rounds: seq<seq<Thread>>)
    requires rounds != [] && IsSchedule(s, rounds[0])
    requires forall r :: 0 <= r < |rounds| ==> FullRound(s, rounds[r])
    ensures forall r :: 0 <= r < |rounds[1..]| ==> FullRound(Run(s, rounds[0]), rounds[1..][r])
  {
    RunKeepsThreads(s, rounds[0]);
    forall r | 0 <= r < |rounds[1..]|
      ensures FullRound(Run(s, rounds[0]), rounds[1..][r])
    {
      assert FullRound(s, rounds[r + 1]);
    }
  }

  // ---------- what each thread does, and in which order ----------

  /** What a turn can do, seen on the variables, or on the thread where nothing of it
      is to be seen on the variables. */
  datatype Act =
    | TakesTurn | GivesTurn | TakesMutex | GivesMutex | TakesEmpty | GivesEmpty
    | CountsIn | CountsOut | Counts   // ++noReaders, --noReaders, either of them
    | Reads | Writes

  predicate Does(s: State, t: Thread, act: Act)
    requires Exists(s, t)
  {
    var g, g' := s.shared, Step(s, t).shared;
    match act
    case TakesTurn => g'.turn == g.turn - 1
    case GivesTurn => g'.turn == g.turn + 1
    case TakesMutex => g'.mutex == g.mutex - 1
    case GivesMutex => g'.mutex == g.mutex + 1
    case TakesEmpty => g'.empty == g.empty - 1
    case GivesEmpty => g'.empty == g.empty + 1
    case CountsIn => g'.noReaders == g.noReaders + 1
    case CountsOut => g'.noReaders == g.noReaders - 1
    case Counts => g'.noReaders != g.noReaders
    case Reads => t.Reader? && s.readers[t.i].RReading?
    case Writes => t.Writer? && s.writers[t.j].WWriting?
  }

  function One(b: bool): nat { if b then 1 else 0 }

  /** The turns of `who` in the schedule that do `act`. */
  function Times(s: State, schedule: seq<Thread>, who: Thread, act: Act): nat
    requires IsSchedule(s, schedule)
    decreases |schedule|
  {
    if schedule == [] then 0
    else
      One(schedule[0] == who && Does(s, who, act)) + Times(Step(s, schedule[0]), schedule[1..], who, act)
  }

  // Where a reader is between two acts that change `noReaders`, the mutex or the turn.
  predicate BeforeCountIn(pc: ReaderPc) { pc.RWaitIn? || pc.RLoadIn? || pc.RStoreIn? }
  predicate BeforeRead(pc: ReaderPc) { pc.RTestIn? || pc.RWaitEmpty? || pc.RPostIn? || pc.RReading? }
  predicate BeforeCountOut(pc: ReaderPc) { pc.RWaitOut? || pc.RLoadOut? || pc.RStoreOut? }
  predicate MutexBeforeCount(pc: ReaderPc) { pc.RLoadIn? || pc.RStoreIn? || pc.RLoadOut? || pc.RStoreOut? }
  predicate MutexAfterCount(pc: ReaderPc) {
    pc.RTestIn? || pc.RWaitEmpty? || pc.RPostIn? || pc.RTestOut? || pc.RPostEmpty? || pc.RPostOut?
  }

  /** `who` is between `first` and `second`, its next act of these two kinds. */
  predicate Between(s: State, who: Thread, first: Act, second: Act)
    requires Exists(s, who)
  {
    match who
    case Writer(j) =>
      (match (first, second)
       case (TakesTurn, TakesEmpty) => s.writers[j].WWaitEmpty?
       case (TakesEmpty, Writes) => s.writers[j].WWriting?
       case (Writes, GivesTurn) => s.writers[j].WPostTurn?
       case (GivesTurn, GivesEmpty) => s.writers[j].WPostEmpty?
       case _ => false)
    case Reader(i) =>
      (match (first, second)
       case (TakesTurn, GivesTurn) => s.readers[i].RPostTurn?
       case (GivesTurn, CountsIn) => BeforeCountIn(s.readers[i])
       case (CountsIn, Reads) => BeforeRead(s.readers[i])
       case (Reads, CountsOut) => BeforeCountOut(s.readers[i])
       case (TakesMutex, Counts) => MutexBeforeCount(s.readers[i])
       case (Counts, GivesMutex) => MutexAfterCount(s.readers[i])
       case _ => false)
  }

  /** Which act follows which. */
  predicate Follows(who: Thread, first: Act, second: Act) {
    match first
    case TakesTurn => if who.Writer? then second.TakesEmpty? else second.GivesTurn?
    case GivesTurn => if who.Writer? then second.GivesEmpty? else second.CountsIn?
    case TakesEmpty => who.Writer? && second.Writes?
    case Writes => who.Writer? && second.GivesTurn?
    case CountsIn => who.Reader? && second.Reads?
    case Reads => who.Reader? && second.CountsOut?
    case TakesMutex => who.Reader? && second.Counts?
    case Counts => who.Reader? && second.GivesMutex?
    case _ => false
  }

  lemma WriterFollows(s: State, j: nat, first: Act, second: Act)
    requires Exists(s, Writer(j)) && Follows(Writer(j), first, second)
    ensures One(Does(s, Writer(j), first)) + One(Between(s, Writer(j), first, second))
      == One(Does(s, Writer(j), second)) + One(Between(Step(s, Writer(j)), Writer(j), first, second))
  {
  }

  lemma ReaderFollows(s: State, i: nat, first: Act, second: Act)
    requires Exists(s, Reader(i)) && Follows(Reader(i), first, second)
    requires SeesCurrent(s.readers, i, s.shared.noReaders)
    ensures One(Does(s, Reader(i), first)) + One(Between(s, Reader(i), first, second))
      == One(Does(s, Reader(i), second)) + One(Between(Step(s, Reader(i)), Reader(i), first, second))
  {
  }

  lemma OthersStay(s: State, t: Thread, who: Thread, first: Act, second: Act)
    requires Exists(s, t) && Exists(s, who) && t != who
    ensures Between(Step(s, t), who, first, second) == Between(s, who, first, second)
  {
  }

  lemma TurnFollows(s: State, t: Thread, who: Thread, first: Act, second: Act)
    requires Inv(s) && Exists(s, t) && Exists(s, who) && Follows(who, first, second)
    ensures One(t == who && Does(s, who, first)) + One(Between(s, who, first, second))
      == One(t == who && Does(s, who, second)) + One(Between(Step(s, t), who, first, second))
  {
    if t != who {
      OthersStay(s, t, who, first, second);
    } else if who.Writer? {
      WriterFollows(s, who.j, first, second);
    } else {
      ReaderFollows(s, who.i, first, second);
    }
  }

  /** The two acts alternate in every run; in particular no update of `noReaders` is lost. */
  lemma {:induction false} ActsAlternate(s: State, schedule: seq<Thread>, who: Thread, first: Act, second: Act)
    requires Inv(s) && IsSchedule(s, schedule) && Exists(s, who) && Follows(who, first, second)
    ensures Exists(Run(s, schedule), who)
    ensures Times(s, schedule, who, first) + One(Between(s, who, first, second))
      == Times(s, schedule, who, second) + One(Between(Run(s, schedule), who, first, second))
    decreases |schedule|
  {
    if schedule != [] {
      StepKeepsInv(s, schedule[0]);
      TurnFollows(s, schedule[0], who, first, second);
      ActsAlternate(Step(s, schedule[0]), schedule[1..], who, first, second);
    }
  }

  /** From the start, where everyone is at `turn`. */
  lemma FromStart(s: State, schedule: seq<Thread>, who: Thread, first: Act, second: Act)
    requires IsStart(s) && IsSchedule(s, schedule) && Exists(s, who) && Follows(who, first, second)
    ensures Exists(Run(s, schedule), who)
    ensures Times(s, schedule, who, first)
      == Times(s, schedule, who, second) + One(Between(Run(s, schedule), who, first, second))
  {
    StartInv(s);
    ActsAlternate(s, schedule, who, first, second);
    NobodyBetween(s, who, first, second);
  }

  lemma NobodyBetween(s: State, who: Thread, first: Act, second: Act)
    requires IsStart(s) && Exists(s, who)
    ensures !Between(s, who, first, second)
  {
  }

  /** In every run, each time a writer has taken `turn` and `empty` it writes, once, before
      it gives first `turn` and then `empty` back. */
  lemma EveryTurnIsAWrite(s: State, schedule: seq<Thread>, j: nat)
    requires IsStart(s) && IsSchedule(s, schedule) && j < |s.writers|
    ensures Exists(Run(s, schedule), Writer(j))
    ensures
      var w, writes := Run(s, schedule).writers[j], Times(s, schedule, Writer(j), Writes);
      && Times(s, schedule, Writer(j), TakesTurn) == writes + One(w.WWaitEmpty? || w.WWriting?)
      && Times(s, schedule, Writer(j), TakesEmpty) == writes + One(w.WWriting?)
      && Times(s, schedule, Writer(j), GivesTurn) == writes - One(w.WPostTurn?)
      && Times(s, schedule, Writer(j), GivesEmpty) == writes - One(w.WPostTurn? || w.WPostEmpty?)
  {
    FromStart(s, schedule, Writer(j), TakesTurn, TakesEmpty);
    FromStart(s, schedule, Writer(j), TakesEmpty, Writes);
    FromStart(s, schedule, Writer(j), Writes, GivesTurn);
    FromStart(s, schedule, Writer(j), GivesTurn, GivesEmpty);
  }

  /** In every run, each time a reader has passed `turn` it counts itself, reads, once, and
      takes itself off the count. */
  lemma EveryPassIsARead(s: State, schedule: seq<Thread>, i: nat)
    requires IsStart(s) && IsSchedule(s, schedule) && i < |s.readers|
    ensures Exists(Run(s, schedule), Reader(i))
    ensures
      var r, done := Run(s, schedule).readers[i], Times(s, schedule, Reader(i), Reads);
      && Times(s, schedule, Reader(i), GivesTurn) == done + One(BeforeCountIn(r) || BeforeRead(r))
      && Times(s, schedule, Reader(i), CountsIn) == done + One(BeforeRead(r))
      && Times(s, schedule, Reader(i), CountsOut) == done - One(BeforeCountOut(r))
  {
    FromStart(s, schedule, Reader(i), GivesTurn, CountsIn);
    FromStart(s, schedule, Reader(i), CountsIn, Reads);
    FromStart(s, schedule, Reader(i), Reads, CountsOut);
  }

  /** And it does each of these updates of the count in a section of its own. */
  lemma EveryCountInASection(s: State, schedule: seq<Thread>, i: nat)
    requires IsStart(s) && IsSchedule(s, schedule) && i < |s.readers|
    ensures Exists(Run(s, schedule), Reader(i))
    ensures
      var r, counts := Run(s, schedule).readers[i], Times(s, schedule, Reader(i), Counts);
      && Times(s, schedule, Reader(i), TakesTurn) == Times(s, schedule, Reader(i), GivesTurn) + One(r.RPostTurn?)
      && Times(s, schedule, Reader(i), TakesMutex) == counts + One(MutexBeforeCount(r))
      && Times(s, schedule, Reader(i), GivesMutex) == counts - One(MutexAfterCount(r))
  {
    FromStart(s, schedule, Reader(i), TakesTurn, GivesTurn);
    FromStart(s, schedule, Reader(i), TakesMutex, Counts);
    FromStart(s, schedule, Reader(i), Counts, GivesMutex);
  }

  lemma WritesAndReads(s: State, schedule: seq<Thread>)
    requires IsStart(s) && IsSchedule(s, schedule)
    ensures |Run(s, schedule).writers| == |s.writers| && |Run(s, schedule).readers| == |s.readers|
    ensures forall j :: 0 <= j < |s.writers| ==>
      Times(s, schedule, Writer(j), TakesEmpty)
        == Times(s, schedule, Writer(j), Writes) + One(Run(s, schedule).writers[j].WWriting?)
    ensures forall i :: 0 <= i < |s.readers| ==>
      Times(s, schedule, Reader(i), CountsIn)
        == Times(s, schedule, Reader(i), Reads) + One(BeforeRead(Run(s, schedule).readers[i]))
  {
    RunKeepsThreads(s, schedule);
    forall j | 0 <= j < |s.writers|
      ensures Times(s, schedule, Writer(j), TakesEmpty)
        == Times(s, schedule, Writer(j), Writes) + One(Run(s, schedule).writers[j].WWriting?)
    {
      EveryTurnIsAWrite(s, schedule, j);
    }
    forall i | 0 <= i < |s.readers|
      ensures Times(s, schedule, Reader(i), CountsIn)
        == Times(s, schedule, Reader(i), Reads) + One(BeforeRead(Run(s, schedule).readers[i]))
    {
      EveryPassIsARead(s, schedule, i);
    }
  }

  // ---------- the program as it runs: globals updated statement by statement ----------

  /** The globals of `read_writer.c` and, for each thread, where it stands. */
  class Program {
    var turn: nat
    var mutex: nat
    var empty: nat
    var noReaders: int
    var readers: seq<ReaderPc>
    var writers: seq<WriterPc>

    ghost function Abstract(): State
      reads this
    {
      State(Shared(turn, mutex, empty, noReaders), readers, writers)
    }

    /** `main` up to the last `pthread_create`. */
    constructor (readerThreads: nat, writerThreads: nat)
      ensures IsStart(Abstract()) && |readers| == readerThreads && |writers| == writerThreads
    {
      turn, mutex, empty, noReaders := 1, 1, 1, 0;
      readers := seq(readerThreads, _ => RWaitTurn);
      writers := seq(writerThreads, _ => WWaitTurn);
    }

    /** The next statement of `reader` in thread `i`; a `sem_wait` at zero blocks. */
    method RunReader(i: nat)
      requires i < |readers|
      modifies this
      ensures Abstract() == Step(old(Abstract()), Reader(i))
    {
      var next := readers[i];
      match readers[i] {
        case RWaitTurn => if turn > 0 { turn, next := turn - 1, RPostTurn; }
        case RPostTurn => turn, next := turn + 1, RWaitIn;
        case RWaitIn => if mutex > 0 { mutex, next := mutex - 1, RLoadIn; }
        case RLoadIn => next := RStoreIn(noReaders);
        case RStoreIn(seen) => noReaders, next := seen + 1, RTestIn;
        case RTestIn => if noReaders == 1 { next := RWaitEmpty; } else { next := RPostIn; }
        case RWaitEmpty => if empty > 0 { empty, next := empty - 1, RPostIn; }
        case RPostIn => mutex, next := mutex + 1, RReading;
        case RReading => next := RWaitOut;
        case RWaitOut => if mutex > 0 { mutex, next := mutex - 1, RLoadOut; }
        case RLoadOut => next := RStoreOut(noReaders);
        case RStoreOut(seen) => noReaders, next := seen - 1, RTestOut;
        case RTestOut => if noReaders == 0 { next := RPostEmpty; } else { next := RPostOut; }
        case RPostEmpty => empty, next := empty + 1, RPostOut;
        case RPostOut => mutex, next := mutex + 1, RWaitTurn;
      }
      readers := readers[i := next];
    }

    /** The next statement of `writer` in thread `j`. */
    method RunWriter(j: nat)
      requires j < |writers|
      modifies this
      ensures Abstract() == Step(old(Abstract()), Writer(j))
    {
      var next := writers[j];
      match writers[j] {
        case WWaitTurn => if turn > 0 { turn, next := turn - 1, WWaitEmpty; }
        case WWaitEmpty => if empty > 0 { empty, next := empty - 1, WWriting; }
        case WWriting => next := WPostTurn;
        case WPostTurn => turn, next := turn + 1, WPostEmpty;
        case WPostEmpty => empty, next := empty + 1, WWaitTurn;
      }
      writers := writers[j := next];
    }

    /** Any schedule from the start: in the program's own variables, a writer writes
        alone; and each thread writes or reads each time it has gained admission. */
    method Execute(schedule: seq<Thread>)
      requires IsStart(Abstract()) && IsSchedule(Abstract(), schedule)
      modifies this
      ensures Abstract() == Run(old(Abstract()), schedule) && Inv(Abstract())
      ensures forall j :: 0 <= j < |writers| && writers[j].WWriting? ==>
        && (forall i :: 0 <= i < |readers| ==> !readers[i].RReading?)
        && (forall k :: 0 <= k < |writers| && k != j ==> !writers[k].WWriting?)
      ensures |writers| == old(|writers|) && |readers| == old(|readers|)
      ensures forall j :: 0 <= j < |writers| ==>
        Times(old(Abstract()), schedule, Writer(j), TakesEmpty)
          == Times(old(Abstract()), schedule, Writer(j), Writes) + One(writers[j].WWriting?)
      ensures forall i :: 0 <= i < |readers| ==>
        Times(old(Abstract()), schedule, Reader(i), CountsIn)
          == Times(old(Abstract()), schedule, Reader(i), Reads) + One(BeforeRead(readers[i]))
    {
      WritesAndReads(Abstract(), schedule);
      StartInv(Abstract());
      for n := 0 to |schedule|
        invariant IsSchedule(Abstract(), schedule[n..]) && Inv(Abstract())
        invariant Run(Abstract(), schedule[n..]) == Run(old(Abstract()), schedule)
      {
        StepKeepsInv(Abstract(), schedule[n]);
        match schedule[n] {
          case Reader(i) => RunReader(i);
          case Writer(j) => RunWriter(j);
        }
      }
      InvWritesAlone(Abstract());
    }
  }

}
