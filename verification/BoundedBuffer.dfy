/** `buffer.c` for any number of producers and consumers and any capacity. The
    program stores nothing: what it keeps in step are credits and events. */
module BoundedBuffer {
  import opened Counting

  datatype ProducerPc =
    | PWaitEmpty   // sem_wait(&empty)
    | PWaitMutex   // sem_wait(&mutex)
    | PProduce     // the event itself
    | PPostFilled  // sem_post(&filled)
    | PPostMutex   // sem_post(&mutex)

  datatype ConsumerPc =
    | CWaitFilled  // sem_wait(&filled)
    | CWaitMutex   // sem_wait(&mutex)
    | CConsume     // the event itself
    | CPostEmpty   // sem_post(&empty)
    | CPostMutex   // sem_post(&mutex)

  /** The three semaphores, and how often either event has happened so far. */
  datatype Shared = Shared(mutex: nat, filled: nat, empty: nat, produced: nat, consumed: nat)

  datatype State = State(shared: Shared, producers: seq<ProducerPc>, consumers: seq<ConsumerPc>)

  datatype Thread = Producer(i: nat) | Consumer(j: nat)

  /** The state in which `main` starts the threads. */
  ghost predicate IsStart(s: State, capacity: nat) {
    && s.shared == Shared(1, 0, capacity, 0, 0)
    && (forall i :: 0 <= i < |s.producers| ==> s.producers[i] == PWaitEmpty)
    && (forall j :: 0 <= j < |s.consumers| ==> s.consumers[j] == CWaitFilled)
  }

  predicate ProducerReady(pc: ProducerPc, g: Shared) {
    (pc.PWaitEmpty? ==> g.empty > 0) && (pc.PWaitMutex? ==> g.mutex > 0)
  }

  function ProducerNext(pc: ProducerPc, g: Shared): (ProducerPc, Shared)
    requires ProducerReady(pc, g)
  {
    match pc
    case PWaitEmpty => (PWaitMutex, g.(empty := g.empty - 1))
    case PWaitMutex => (PProduce, g.(mutex := g.mutex - 1))
    case PProduce => (PPostFilled, g.(produced := g.produced + 1))
    case PPostFilled => (PPostMutex, g.(filled := g.filled + 1))
    case PPostMutex => (PWaitEmpty, g.(mutex := g.mutex + 1))
  }

  predicate ConsumerReady(pc: ConsumerPc, g: Shared) {
    (pc.CWaitFilled? ==> g.filled > 0) && (pc.CWaitMutex? ==> g.mutex > 0)
  }

  function ConsumerNext(pc: ConsumerPc, g: Shared): (ConsumerPc, Shared)
    requires ConsumerReady(pc, g)
  {
    match pc
    case CWaitFilled => (CWaitMutex, g.(filled := g.filled - 1))
    case CWaitMutex => (CConsume, g.(mutex := g.mutex - 1))
    case CConsume => (CPostEmpty, g.(consumed := g.consumed + 1))
    case CPostEmpty => (CPostMutex, g.(empty := g.empty + 1))
    case CPostMutex => (CWaitFilled, g.(mutex := g.mutex + 1))
  }

  predicate Exists(s: State, t: Thread) {
    match t
    case Producer(i) => i < |s.producers|
    case Consumer(j) => j < |s.consumers|
  }

  predicate Enabled(s: State, t: Thread)
    requires Exists(s, t)
  {
    match t
    case Producer(i) => ProducerReady(s.producers[i], s.shared)
    case Consumer(j) => ConsumerReady(s.consumers[j], s.shared)
  }

  function ProducerStep(s: State, i: nat): State
    requires Exists(s, Producer(i)) && Enabled(s, Producer(i))
  {
    var (pc, g) := ProducerNext(s.producers[i], s.shared);
    State(g, s.producers[i := pc], s.consumers)
  }

  function ConsumerStep(s: State, j: nat): State
    requires Exists(s, Consumer(j)) && Enabled(s, Consumer(j))
  {
    var (pc, g) := ConsumerNext(s.consumers[j], s.shared);
    State(g, s.producers, s.consumers[j := pc])
  }

  /** One turn of thread `t`; a blocked thread stays where it is. */
  function Step(s: State, t: Thread): (s': State)
    requires Exists(s, t)
    ensures |s'.producers| == |s.producers| && |s'.consumers| == |s.consumers|
  {
    if !Enabled(s, t) then s
    else match t
      case Producer(i) => ProducerStep(s, i)
      case Consumer(j) => ConsumerStep(s, j)
  }

  ghost predicate IsSchedule(s: State, schedule: seq<Thread>) {
    forall k :: 0 <= k < |schedule| ==> Exists(s, schedule[k])
  }

  function Run(s: State, schedule: seq<Thread>): State
    requires IsSchedule(s, schedule)
    decreases |schedule|
  {
    if schedule == [] then s else Run(Step(s, schedule[0]), schedule[1..])
  }

  // ---------- credits ----------

  function ProducerInMutex(pc: ProducerPc): int { if pc.PProduce? || pc.PPostFilled? || pc.PPostMutex? then 1 else 0 }
  function ConsumerInMutex(pc: ConsumerPc): int { if pc.CConsume? || pc.CPostEmpty? || pc.CPostMutex? then 1 else 0 }

  /** A producer that has taken a credit from `empty` and not yet given one to `filled`. */
  function ProducerInFlight(pc: ProducerPc): int { if pc.PWaitMutex? || pc.PProduce? || pc.PPostFilled? then 1 else 0 }
  /** A consumer that has taken a credit from `filled` and not yet given one to `empty`. */
  function ConsumerInFlight(pc: ConsumerPc): int { if pc.CWaitMutex? || pc.CConsume? || pc.CPostEmpty? then 1 else 0 }

  /** Has produced, but not yet posted `filled`. */
  function HasProduced(pc: ProducerPc): int { if pc.PPostFilled? then 1 else 0 }
  /** Has taken a credit from `filled`, but not yet consumed. */
  function YetToConsume(pc: ConsumerPc): int { if pc.CWaitMutex? || pc.CConsume? then 1 else 0 }

  datatype Tally = Tally(inMutex: int, inFlight: int, halfway: int)

  function ProducerTally(producers: seq<ProducerPc>): Tally {
    Tally(Sum(producers, ProducerInMutex), Sum(producers, ProducerInFlight), Sum(producers, HasProduced))
  }

  function ConsumerTally(consumers: seq<ConsumerPc>): Tally {
    Tally(Sum(consumers, ConsumerInMutex), Sum(consumers, ConsumerInFlight), Sum(consumers, YetToConsume))
  }

  /** Every credit is in a semaphore or with a thread on its way, the events lag
      behind the credits by the threads that are halfway, and one thread at most
      holds the mutex. */
  predicate Balanced(g: Shared, p: Tally, c: Tally, capacity: nat) {
    && g.mutex + p.inMutex + c.inMutex == 1
    && g.empty + g.filled + p.inFlight + c.inFlight == capacity
    && g.produced - g.consumed == g.filled + p.halfway + c.halfway
  }

  ghost predicate Inv(s: State, capacity: nat) {
    Balanced(s.shared, ProducerTally(s.producers), ConsumerTally(s.consumers), capacity)
  }

  /** Counts are never negative, and fewer are halfway than in flight. */
  predicate Plausible(t: Tally) {
    0 <= t.inMutex && 0 <= t.halfway <= t.inFlight
  }

  lemma {:induction false} SumBelow<T>(s: seq<T>, low: T -> int, high: T -> int)
    requires forall k :: 0 <= k < |s| ==> low(s[k]) <= high(s[k])
    ensures Sum(s, low) <= Sum(s, high)
  {
    if s != [] {
      assert forall k :: 0 <= k < |s[1..]| ==> s[1..][k] == s[k + 1];
      SumBelow(s[1..], low, high);
    }
  }

  lemma TalliesPlausible(s: State)
    ensures Plausible(ProducerTally(s.producers)) && Plausible(ConsumerTally(s.consumers))
  {
    SumNonNegative(s.producers, ProducerInMutex);
    SumNonNegative(s.producers, HasProduced);
    SumBelow(s.producers, HasProduced, ProducerInFlight);
    SumNonNegative(s.consumers, ConsumerInMutex);
    SumNonNegative(s.consumers, YetToConsume);
    SumBelow(s.consumers, YetToConsume, ConsumerInFlight);
  }

  lemma StartInv(s: State, capacity: nat)
    requires IsStart(s, capacity)
    ensures Inv(s, capacity)
  {
    SumZero(s.producers, ProducerInMutex);
    SumZero(s.producers, ProducerInFlight);
    SumZero(s.producers, HasProduced);
    SumZero(s.consumers, ConsumerInMutex);
    SumZero(s.consumers, ConsumerInFlight);
    SumZero(s.consumers, YetToConsume);
  }

  lemma ProducerStepKeepsInv(s: State, i: nat, capacity: nat)
    requires Inv(s, capacity) && Exists(s, Producer(i)) && Enabled(s, Producer(i))
    ensures Inv(ProducerStep(s, i), capacity)
  {
    var pc := ProducerStep(s, i).producers[i];
    SumUpdate(s.producers, i, pc, ProducerInMutex);
    SumUpdate(s.producers, i, pc, ProducerInFlight);
    SumUpdate(s.producers, i, pc, HasProduced);
  }

  lemma ConsumerStepKeepsInv(s: State, j: nat, capacity: nat)
    requires Inv(s, capacity) && Exists(s, Consumer(j)) && Enabled(s, Consumer(j))
    ensures Inv(ConsumerStep(s, j), capacity)
  {
    var pc := ConsumerStep(s, j).consumers[j];
    SumUpdate(s.consumers, j, pc, ConsumerInMutex);
    SumUpdate(s.consumers, j, pc, ConsumerInFlight);
    SumUpdate(s.consumers, j, pc, YetToConsume);
  }

  lemma StepKeepsInv(s: State, t: Thread, capacity: nat)
    requires Inv(s, capacity) && Exists(s, t)
    ensures Inv(Step(s, t), capacity)
  {
    if Enabled(s, t) {
      match t
      case Producer(i) => ProducerStepKeepsInv(s, i, capacity);
      case Consumer(j) => ConsumerStepKeepsInv(s, j, capacity);
    }
  }

  lemma {:induction false} RunKeepsInv(s: State, schedule: seq<Thread>, capacity: nat)
    requires Inv(s, capacity) && IsSchedule(s, schedule)
    ensures Inv(Run(s, schedule), capacity)
    ensures |Run(s, schedule).producers| == |s.producers| && |Run(s, schedule).consumers| == |s.consumers|
    decreases |schedule|
  {
    if schedule != [] {
      StepKeepsInv(s, schedule[0], capacity);
      RunKeepsInv(Step(s, schedule[0]), schedule[1..], capacity);
    }
  }

  /** At every instant of every run the credits add up to the capacity, nothing is
      consumed that was not produced, and never more than the capacity is waiting. */
  lemma Conservation(s: State, schedule: seq<Thread>, capacity: nat)
    requires IsStart(s, capacity) && IsSchedule(s, schedule)
    ensures
      var now := Run(s, schedule);
      && now.shared.empty + now.shared.filled
         + Sum(now.producers, ProducerInFlight) + Sum(now.consumers, ConsumerInFlight) == capacity
      && 0 <= now.shared.produced - now.shared.consumed <= capacity
  {
    StartInv(s, capacity);
    RunKeepsInv(s, schedule, capacity);
    TalliesPlausible(Run(s, schedule));
  }

  // ---------- exclusion ----------

  predicate InCriticalSection(s: State, t: Thread)
    requires Exists(s, t)
  {
    match t
    case Producer(i) => ProducerInMutex(s.producers[i]) == 1
    case Consumer(j) => ConsumerInMutex(s.consumers[j]) == 1
  }

  lemma InvExcludes(s: State, t: Thread, u: Thread, capacity: nat)
    requires Inv(s, capacity) && Exists(s, t) && Exists(s, u)
    requires InCriticalSection(s, t) && InCriticalSection(s, u)
    ensures t == u
  {
    TalliesPlausible(s);
    match (t, u)
    case (Producer(i), Producer(k)) =>
      if i != k { SumAtLeastTwo(s.producers, if i < k then i else k, if i < k then k else i, ProducerInMutex); }
    case (Consumer(j), Consumer(k)) =>
      if j != k { SumAtLeastTwo(s.consumers, if j < k then j else k, if j < k then k else j, ConsumerInMutex); }
    case (Producer(i), Consumer(j)) =>
      SumAtLeast(s.producers, i, ProducerInMutex);
      SumAtLeast(s.consumers, j, ConsumerInMutex);
    case (Consumer(j), Producer(i)) =>
      SumAtLeast(s.producers, i, ProducerInMutex);
      SumAtLeast(s.consumers, j, ConsumerInMutex);
  }

  /** In every run, at most one thread at a time is between taking the mutex and
      posting it, be it a producer or a consumer. */
  lemma Exclusion(s: State, schedule: seq<Thread>, t: Thread, u: Thread, capacity: nat)
    requires IsStart(s, capacity) && IsSchedule(s, schedule)
    requires Exists(Run(s, schedule), t) && Exists(Run(s, schedule), u)
    requires InCriticalSection(Run(s, schedule), t) && InCriticalSection(Run(s, schedule), u)
    ensures t == u
  {
    StartInv(s, capacity);
    RunKeepsInv(s, schedule, capacity);
    InvExcludes(Run(s, schedule), t, u, capacity);
  }

  // ---------- no deadlock ----------

  ghost predicate CanStep(s: State) {
    exists t :: Exists(s, t) && Enabled(s, t)
  }

  /** Whoever is in the critical section is never stuck there. */
  lemma MutexHolderCanStep(s: State, capacity: nat)
    requires Inv(s, capacity) && s.shared.mutex == 0
    ensures CanStep(s)
  {
    if Sum(s.producers, ProducerInMutex) > 0 {
      var i := SumWitness(s.producers, ProducerInMutex);
      assert Enabled(s, Producer(i));
    } else {
      var j := SumWitness(s.consumers, ConsumerInMutex);
      assert Enabled(s, Consumer(j));
    }
  }

  /** With the mutex free, a thread in flight can go on; with nothing in flight,
      the capacity is in the semaphores and one of the outer waits can pass. */
  lemma FreeMutexCanStep(s: State, capacity: nat)
    requires Inv(s, capacity) && s.shared.mutex > 0
    requires |s.producers| > 0 && |s.consumers| > 0 && capacity > 0
    ensures CanStep(s)
  {
    if Sum(s.producers, ProducerInFlight) > 0 {
      var i := SumWitness(s.producers, ProducerInFlight);
      assert Enabled(s, Producer(i));
    } else if Sum(s.consumers, ConsumerInFlight) > 0 {
      var j := SumWitness(s.consumers, ConsumerInFlight);
      assert Enabled(s, Consumer(j));
    } else if s.shared.empty > 0 {
      assert Enabled(s, Producer(0));
    } else {
      assert Enabled(s, Consumer(0));
    }
  }

  lemma InvCanStep(s: State, capacity: nat)
    requires Inv(s, capacity) && |s.producers| > 0 && |s.consumers| > 0 && capacity > 0
    ensures CanStep(s)
  {
    if s.shared.mutex == 0 {
      MutexHolderCanStep(s, capacity);
    } else {
      FreeMutexCanStep(s, capacity);
    }
  }

  // ---------- progress ----------

  /** Steps a thread takes up to and including its next event. */
  function ProducerRank(pc: ProducerPc): int {
    match pc
    case PProduce => 1
    case PWaitMutex => 2
    case PWaitEmpty => 3
    case PPostMutex => 4
    case PPostFilled => 5
  }

  function ConsumerRank(pc: ConsumerPc): int {
    match pc
    case CConsume => 1
    case CWaitMutex => 2
    case CWaitFilled => 3
    case CPostMutex => 4
    case CPostEmpty => 5
  }

  function Rank(s: State): int {
    Sum(s.producers, ProducerRank) + Sum(s.consumers, ConsumerRank)
  }

  function Events(s: State): int {
    s.shared.produced + s.shared.consumed
  }

  lemma StepCountsDown(s: State, t: Thread)
    requires Exists(s, t) && Enabled(s, t)
    ensures 5 * Events(Step(s, t)) - Rank(Step(s, t)) == 5 * Events(s) - Rank(s) + 1
  {
    var s' := Step(s, t);
    match t
    case Producer(i) => SumUpdate(s.producers, i, s'.producers[i], ProducerRank);
    case Consumer(j) => SumUpdate(s.consumers, j, s'.consumers[j], ConsumerRank);
  }

  lemma RankBounds(s: State)
    ensures 0 <= Rank(s) <= 5 * (|s.producers| + |s.consumers|)
  {
    SumNonNegative(s.producers, ProducerRank);
    SumNonNegative(s.consumers, ConsumerRank);
    SumAtMost(s.producers, ProducerRank, 5);
    SumAtMost(s.consumers, ConsumerRank, 5);
  }

  /** The turns of a schedule in which the thread could move. */
  function StepsTaken(s: State, schedule: seq<Thread>): nat
    requires IsSchedule(s, schedule)
    decreases |schedule|
  {
    if schedule == [] then 0
    else (if Enabled(s, schedule[0]) then 1 else 0) + StepsTaken(Step(s, schedule[0]), schedule[1..])
  }

  lemma {:induction false} RunCountsDown(s: State, schedule: seq<Thread>)
    requires IsSchedule(s, schedule)
    ensures 5 * Events(Run(s, schedule)) - Rank(Run(s, schedule)) ==
      5 * Events(s) - Rank(s) + StepsTaken(s, schedule)
    ensures |Run(s, schedule).producers| == |s.producers| && |Run(s, schedule).consumers| == |s.consumers|
    decreases |schedule|
  {
    if schedule != [] {
      if Enabled(s, schedule[0]) {
        StepCountsDown(s, schedule[0]);
      }
      RunCountsDown(Step(s, schedule[0]), schedule[1..]);
    }
  }

  /** Not only does some thread always move: the moves are never idle circling, for
      after `steps` of them at least a fifth, less a constant, have been events. And
      as production and consumption stay within the capacity of each other, both
      go on without bound. */
  lemma Throughput(s: State, schedule: seq<Thread>, capacity: nat)
    requires IsStart(s, capacity) && IsSchedule(s, schedule)
    ensures
      var now, threads := Run(s, schedule), |s.producers| + |s.consumers|;
      && 5 * Events(now) >= StepsTaken(s, schedule) - 5 * threads
      && 10 * now.shared.consumed >= StepsTaken(s, schedule) - 5 * threads - 5 * capacity
  {
    Conservation(s, schedule, capacity);
    RunCountsDown(s, schedule);
    RankBounds(s);
    RankBounds(Run(s, schedule));
  }

  // ---------- exactly when the program can never stop ----------

  ghost predicate NeverStops(s: State) {
    forall schedule :: IsSchedule(s, schedule) ==> CanStep(Run(s, schedule))
  }

  lemma RunsOn(s: State, schedule: seq<Thread>, capacity: nat)
    requires IsStart(s, capacity) && IsSchedule(s, schedule)
    requires |s.producers| > 0 && |s.consumers| > 0 && capacity > 0
    ensures CanStep(Run(s, schedule))
  {
    StartInv(s, capacity);
    RunKeepsInv(s, schedule, capacity);
    InvCanStep(Run(s, schedule), capacity);
  }

  /** Without consumers every run comes to a stop, once the buffer is full. */
  lemma {:induction false} FillsUp(s: State, capacity: nat) returns (schedule: seq<Thread>)
    requires Inv(s, capacity) && |s.consumers| == 0 && s.shared.consumed == 0
    ensures IsSchedule(s, schedule) && !CanStep(Run(s, schedule))
    decreases 5 * (capacity - Events(s)) + Rank(s)
  {
    schedule := [];
    if CanStep(s) {
      var t :| Exists(s, t) && Enabled(s, t);
      StepKeepsInv(s, t, capacity);
      StepCountsDown(s, t);
      TalliesPlausible(s);
      RankBounds(s);
      var rest := FillsUp(Step(s, t), capacity);
      schedule := [t] + rest;
      assert schedule[1..] == rest;
    }
  }

  /** Deadlock freedom, with its exact condition: whatever the schedule, some thread
      can go on, if and only if there is a producer, a consumer and room for one. */
  lemma DeadlockFreedom(s: State, capacity: nat)
    requires IsStart(s, capacity)
    ensures NeverStops(s) <==> |s.producers| > 0 && |s.consumers| > 0 && capacity > 0
  {
    StartInv(s, capacity);
    if |s.producers| > 0 && |s.consumers| > 0 && capacity > 0 {
      forall schedule | IsSchedule(s, schedule)
        ensures CanStep(Run(s, schedule))
      {
        RunsOn(s, schedule, capacity);
      }
    } else if |s.consumers| == 0 {
      var schedule := FillsUp(s, capacity);
      assert IsSchedule(s, schedule) && !CanStep(Run(s, schedule));
    } else {
      assert IsSchedule(s, []) && Run(s, []) == s;
    }
  }

  // ---------- the program as it runs: semaphores updated call by call ----------

  /** The semaphores of `buffer.c` and, for each thread, where it stands. The two
      counts are bookkeeping: the program only prints that an event happens. */
  class Program {
    var mutex: nat
    var filled: nat
    var empty: nat
    ghost var produced: nat
    ghost var consumed: nat
    var producers: seq<ProducerPc>
    var consumers: seq<ConsumerPc>

    ghost function Abstract(): State
      reads this
    {
      State(Shared(mutex, filled, empty, produced, consumed), producers, consumers)
    }

    /** `main` up to the last `pthread_create`. */
    constructor (capacity: nat, producerThreads: nat, consumerThreads: nat)
      ensures IsStart(Abstract(), capacity) && |producers| == producerThreads && |consumers| == consumerThreads
    {
      mutex, filled, empty := 1, 0, capacity;
      produced, consumed := 0, 0;
      producers := seq(producerThreads, _ => PWaitEmpty);
      consumers := seq(consumerThreads, _ => CWaitFilled);
    }

    /** The next statement of `producer` in thread `i`; a `sem_wait` at zero blocks. */
    method RunProducer(i: nat)
      requires i < |producers|
      modifies this
      ensures Abstract() == Step(old(Abstract()), Producer(i))
    {
      var next := producers[i];
      match producers[i] {
        case PWaitEmpty => if empty > 0 { empty, next := empty - 1, PWaitMutex; }
        case PWaitMutex => if mutex > 0 { mutex, next := mutex - 1, PProduce; }
        case PProduce =>
          produced := produced + 1;
          next := PPostFilled;
        case PPostFilled => filled, next := filled + 1, PPostMutex;
        case PPostMutex => mutex, next := mutex + 1, PWaitEmpty;
      }
      producers := producers[i := next];
    }

    /** The next statement of `consumer` in thread `j`. */
    method RunConsumer(j: nat)
      requires j < |consumers|
      modifies this
      ensures Abstract() == Step(old(Abstract()), Consumer(j))
    {
      var next := consumers[j];
      match consumers[j] {
        case CWaitFilled => if filled > 0 { filled, next := filled - 1, CWaitMutex; }
        case CWaitMutex => if mutex > 0 { mutex, next := mutex - 1, CConsume; }
        case CConsume =>
          consumed := consumed + 1;
          next := CPostEmpty;
        case CPostEmpty => empty, next := empty + 1, CPostMutex;
        case CPostMutex => mutex, next := mutex + 1, CWaitFilled;
      }
      consumers := consumers[j := next];
    }

    /** Any schedule from the start: in the program's own variables, the buffer never
        holds more than it can, nor less than nothing. */
    method Execute(schedule: seq<Thread>, ghost capacity: nat)
      requires IsStart(Abstract(), capacity) && IsSchedule(Abstract(), schedule)
      modifies this
      ensures Abstract() == Run(old(Abstract()), schedule) && Inv(Abstract(), capacity)
      ensures empty + filled <= capacity && mutex <= 1
      ensures 0 <= produced - consumed <= capacity
    {
      StartInv(Abstract(), capacity);
      for n := 0 to |schedule|
        invariant IsSchedule(Abstract(), schedule[n..]) && Inv(Abstract(), capacity)
        invariant Run(Abstract(), schedule[n..]) == Run(old(Abstract()), schedule)
      {
        StepKeepsInv(Abstract(), schedule[n], capacity);
        match schedule[n] {
          case Producer(i) => RunProducer(i);
          case Consumer(j) => RunConsumer(j);
        }
      }
      TalliesPlausible(Abstract());
    }
  }

}
