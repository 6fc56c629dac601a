/** The round barrier of `sistema.c` for any number of reporters: every reporter
    counts itself in `msg_read` and waits on its own semaphore, `main` polls the
    counter and releases all of them. Each semaphore operation and each load and
    store of the counter is a step of its own.

    The rounds are those with `is_on` set and `landscape` clear, and without the
    alarms that cancel a reporter or make one wait without having sent. What a
    reporter does between two messages is assumed to terminate; in the controller it
    takes locks of its own, and in an order that does not exclude a deadlock there. */
module RoundBarrier {
  import opened Counting

  datatype ReporterPc =
    | Work                  // whatever the thread does between two messages; it ends
    | WaitSock              // sem_wait(&sem_sock)
    | Send                  // the attempts to send, of which there are finitely many
    | WaitRead              // sem_wait(&sem_read)
    | LoadCount             // ++msg_read
    | StoreCount(seen: int)
    | PostRead              // sem_post(&sem_read)
    | PostSock              // sem_post(&sem_sock)
    | WaitMsg               // sem_wait(&sem_msg[i])

  /** Where a reporter stands, how often it has counted itself, and how often it
      has got past its own semaphore. */
  datatype Reporter = Reporter(pc: ReporterPc, reported: nat, passed: nat)

  datatype MainPc =
    | MWait                 // sem_wait(&sem_read)
    | MTest                 // msg_read == NUM_SCK_THREAD
    | MReset                // msg_read = 0
    | MPost(next: nat)      // the loop of sem_post(&sem_msg[i])
    | MPostRead             // sem_post(&sem_read)

  datatype Shared = Shared(read: nat, sock: nat, msgRead: int)

  /** `releases` counts the resets of the counter so far. */
  datatype State = State(shared: Shared, msg: seq<nat>, reporters: seq<Reporter>, main: MainPc, releases: nat)

  datatype Thread = Main | Reporting(i: nat)

  /** The state in which `main` enters its loop. */
  ghost predicate IsStart(s: State) {
    && s.shared == Shared(1, 1, 0) && s.main == MWait && s.releases == 0
    && |s.msg| == |s.reporters|
    && (forall i :: 0 <= i < |s.msg| ==> s.msg[i] == 0)
    && (forall i :: 0 <= i < |s.reporters| ==> s.reporters[i] == Reporter(Work, 0, 0))
  }

  /** `own` is the reporter's private semaphore. */
  predicate ReporterReady(pc: ReporterPc, g: Shared, own: nat) {
    match pc
    case WaitSock => g.sock > 0
    case WaitRead => g.read > 0
    case WaitMsg => own > 0
    case _ => true
  }

  function ReporterNext(r: Reporter, g: Shared, own: nat): (Reporter, Shared, nat)
    requires ReporterReady(r.pc, g, own)
  {
    match r.pc
    case Work => (r.(pc := WaitSock), g, own)
    case WaitSock => (r.(pc := Send), g.(sock := g.sock - 1), own)
    case Send => (r.(pc := WaitRead), g, own)
    case WaitRead => (r.(pc := LoadCount), g.(read := g.read - 1), own)
    case LoadCount => (r.(pc := StoreCount(g.msgRead)), g, own)
    case StoreCount(seen) => (r.(pc := PostRead, reported := r.reported + 1), g.(msgRead := seen + 1), own)
    case PostRead => (r.(pc := PostSock), g.(read := g.read + 1), own)
    case PostSock => (r.(pc := WaitMsg), g.(sock := g.sock + 1), own)
    case WaitMsg => (r.(pc := Work, passed := r.passed + 1), g, own - 1)
  }

  predicate MainReady(s: State) {
    s.main.MWait? ==> s.shared.read > 0
  }

  function MainStep(s: State): State
    requires MainReady(s)
  {
    var g := s.shared;
    match s.main
    case MWait => s.(shared := g.(read := g.read - 1), main := MTest)
    case MTest => s.(main := if g.msgRead == |s.reporters| then MReset else MPostRead)
    case MReset => s.(shared := g.(msgRead := 0), main := MPost(0), releases := s.releases + 1)
    case MPost(i) =>
      if i < |s.msg| then s.(msg := s.msg[i := s.msg[i] + 1], main := MPost(i + 1)) else s.(main := MPostRead)
    case MPostRead => s.(shared := g.(read := g.read + 1), main := MWait)
  }

  predicate Exists(s: State, t: Thread) {
    |s.msg| == |s.reporters| && (t.Reporting? ==> t.i < |s.reporters|)
  }

  predicate Enabled(s: State, t: Thread)
    requires Exists(s, t)
  {
    match t
    case Main => MainReady(s)
    case Reporting(i) => ReporterReady(s.reporters[i].pc, s.shared, s.msg[i])
  }

  function ReporterStep(s: State, i: nat): State
    requires Exists(s, Reporting(i)) && Enabled(s, Reporting(i))
  {
    var (r, g, own) := ReporterNext(s.reporters[i], s.shared, s.msg[i]);
    State(g, s.msg[i := own], s.reporters[i := r], s.main, s.releases)
  }

  /** One turn of thread `t`; a blocked thread stays where it is. */
  function Step(s: State, t: Thread): (s': State)
    requires Exists(s, t)
    ensures |s'.reporters| == |s.reporters| && |s'.msg| == |s.msg|
  {
    if !Enabled(s, t) then s
    else match t
      case Main => MainStep(s)
      case Reporting(i) => ReporterStep(s, i)
  }

  ghost predicate IsSchedule(s: State, schedule: seq<Thread>) {
    |s.msg| == |s.reporters| && forall k :: 0 <= k < |schedule| ==> Exists(s, schedule[k])
  }

  function Run(s: State, schedule: seq<Thread>): State
    requires IsSchedule(s, schedule)
    decreases |schedule|
  {
    if schedule == [] then s else Run(Step(s, schedule[0]), schedule[1..])
  }

  // ---------- the invariant ----------

  function HoldsRead(r: Reporter): int {
    if r.pc.LoadCount? || r.pc.StoreCount? || r.pc.PostRead? then 1 else 0
  }

  function HoldsSock(r: Reporter): int {
    if r.pc.Work? || r.pc.WaitSock? || r.pc.WaitMsg? then 0 else 1
  }

  function MainHoldsRead(m: MainPc): int {
    if m.MWait? then 0 else 1
  }

  /** Whether a reporter has counted itself since release `releases`. */
  function Counted(releases: nat): Reporter -> int {
    (r: Reporter) => if r.reported > releases then 1 else 0
  }

  datatype Tally = Tally(inRead: int, inSock: int, counted: int)

  function TallyOf(reporters: seq<Reporter>, releases: nat): Tally {
    Tally(Sum(reporters, HoldsRead), Sum(reporters, HoldsSock), Sum(reporters, Counted(releases)))
  }

  /** The tally after one reporter has gone from `r` to `r'`. */
  function Moved(t: Tally, r: Reporter, r': Reporter, releases: nat): Tally {
    Tally(t.inRead - HoldsRead(r) + HoldsRead(r'), t.inSock - HoldsSock(r) + HoldsSock(r'),
      t.counted - Counted(releases)(r) + Counted(releases)(r'))
  }

  predicate Balanced(g: Shared, t: Tally, mainHolds: int) {
    && g.read + t.inRead + mainHolds == 1
    && g.sock + t.inSock == 1
    && g.msgRead == t.counted
  }

  /** How often `main` has posted semaphore `i`, half-way through its loop included. */
  function Posts(m: MainPc, i: nat, releases: nat): int {
    if m.MPost? && i >= m.next then releases - 1 else releases
  }

  predicate HasReported(pc: ReporterPc) {
    pc.PostRead? || pc.PostSock? || pc.WaitMsg?
  }

  /** Reporter and `main` are never more than a round apart, and the private
      semaphore holds exactly the posts that have not been waited for. */
  predicate InStep(r: Reporter, own: nat, posts: int, releases: nat, msgRead: int) {
    && releases <= r.reported <= releases + 1
    && r.passed == (if HasReported(r.pc) then r.reported - 1 else r.reported)
    && own == posts - r.passed
    && (r.pc.StoreCount? ==> r.pc.seen == msgRead)
  }

  predicate MainInStep(m: MainPc, msgRead: int, reporters: nat, releases: nat) {
    && (m.MReset? ==> msgRead == reporters)
    && (m.MPost? ==> msgRead == 0 && m.next <= reporters && releases >= 1)
  }

  ghost predicate AllInStep(s: State) {
    && |s.msg| == |s.reporters|
    && forall i :: 0 <= i < |s.reporters| ==>
         InStep(s.reporters[i], s.msg[i], Posts(s.main, i, s.releases), s.releases, s.shared.msgRead)
  }

  ghost predicate Inv(s: State) {
    && Balanced(s.shared, TallyOf(s.reporters, s.releases), MainHoldsRead(s.main))
    && MainInStep(s.main, s.shared.msgRead, |s.reporters|, s.releases)
    && AllInStep(s)
  }

  lemma TallyNonNegative(reporters: seq<Reporter>, releases: nat)
    ensures
      var t := TallyOf(reporters, releases);
      t.inRead >= 0 && t.inSock >= 0 && 0 <= t.counted <= |reporters|
  {
    SumNonNegative(reporters, HoldsRead);
    SumNonNegative(reporters, HoldsSock);
    SumNonNegative(reporters, Counted(releases));
    SumAtMost(reporters, Counted(releases), 1);
  }

  lemma TallyMoves(reporters: seq<Reporter>, i: nat, r: Reporter, releases: nat)
    requires i < |reporters|
    ensures TallyOf(reporters[i := r], releases) == Moved(TallyOf(reporters, releases), reporters[i], r, releases)
  {
    SumUpdate(reporters, i, r, HoldsRead);
    SumUpdate(reporters, i, r, HoldsSock);
    SumUpdate(reporters, i, r, Counted(releases));
  }

  lemma TallyAtStart(reporters: seq<Reporter>, releases: nat)
    requires releases == 0 && forall i :: 0 <= i < |reporters| ==> reporters[i] == Reporter(Work, 0, 0)
    ensures TallyOf(reporters, releases) == Tally(0, 0, 0)
  {
    SumZero(reporters, HoldsRead);
    SumZero(reporters, HoldsSock);
    SumZero(reporters, Counted(releases));
  }

  lemma StartInv(s: State)
    requires IsStart(s)
    ensures Inv(s)
  {
    StartBalanced(s);
    StartInStep(s);
  }

  lemma StartBalanced(s: State)
    requires IsStart(s)
    ensures Balanced(s.shared, TallyOf(s.reporters, s.releases), MainHoldsRead(s.main))
  {
    TallyAtStart(s.reporters, s.releases);
  }

  lemma StartInStep(s: State)
    requires IsStart(s)
    ensures AllInStep(s)
  {
    forall i | 0 <= i < |s.reporters|
      ensures InStep(s.reporters[i], s.msg[i], Posts(s.main, i, s.releases), s.releases, s.shared.msgRead)
    {
      assert s.reporters[i] == Reporter(Work, 0, 0) && s.msg[i] == 0;
    }
  }

  /** While one reporter is about to store the counter, no other has loaded it and
      `main` is outside its critical section. */
  lemma StoresAlone(s: State, i: nat, k: nat)
    requires Inv(s) && i < |s.reporters| && k < |s.reporters| && i != k && s.reporters[i].pc.StoreCount?
    ensures !s.reporters[k].pc.StoreCount?
  {
    SumAtLeastTwo(s.reporters, if i < k then i else k, if i < k then k else i, HoldsRead);
  }

  lemma MainIsOutside(s: State, i: nat)
    requires Inv(s) && i < |s.reporters| && s.reporters[i].pc.StoreCount?
    ensures s.main.MWait?
  {
    SumAtLeast(s.reporters, i, HoldsRead);
  }

  lemma OthersStayInStep(s: State, i: nat, s': State, k: nat)
    requires Inv(s) && Exists(s, Reporting(i)) && Enabled(s, Reporting(i)) && s' == ReporterStep(s, i)
    requires k < |s.reporters| && k != i
    ensures InStep(s'.reporters[k], s'.msg[k], Posts(s'.main, k, s'.releases), s'.releases, s'.shared.msgRead)
  {
    if s.reporters[i].pc.StoreCount? {
      StoresAlone(s, i, k);
    }
    assert s'.reporters[k] == s.reporters[k] && s'.msg[k] == s.msg[k];
  }

  lemma ReporterStepKeepsInv(s: State, i: nat)
    requires Inv(s) && Exists(s, Reporting(i)) && Enabled(s, Reporting(i))
    ensures Inv(ReporterStep(s, i))
  {
    var s' := ReporterStep(s, i);
    TallyMoves(s.reporters, i, s'.reporters[i], s.releases);
    if s.reporters[i].pc.StoreCount? {
      MainIsOutside(s, i);
    }
    forall k | 0 <= k < |s.reporters|
      ensures InStep(s'.reporters[k], s'.msg[k], Posts(s'.main, k, s'.releases), s'.releases, s'.shared.msgRead)
    {
      if k != i {
        OthersStayInStep(s, i, s', k);
      }
    }
  }

  /** If as many reporters are counted as there are, each of them is. */
  lemma {:induction false} EveryoneCounted(reporters: seq<Reporter>, releases: nat, i: nat)
    requires Sum(reporters, Counted(releases)) == |reporters| && i < |reporters|
    ensures reporters[i].reported > releases
  {
    TallyNonNegative(reporters[1..], releases);
    if i > 0 {
      EveryoneCounted(reporters[1..], releases, i - 1);
    }
  }

  lemma NobodyCounted(reporters: seq<Reporter>, releases: nat)
    requires forall i :: 0 <= i < |reporters| ==> reporters[i].reported == releases
    ensures Sum(reporters, Counted(releases)) == 0
  {
    SumZero(reporters, Counted(releases));
  }

  /** When `main` is about to reset the counter, everyone has reported. */
  lemma ResetFindsAll(s: State, i: nat)
    requires Inv(s) && s.main.MReset? && i < |s.reporters|
    ensures s.reporters[i].reported == s.releases + 1
  {
    EveryoneCounted(s.reporters, s.releases, i);
  }

  lemma ResetKeepsReporters(s: State)
    requires Inv(s) && s.main.MReset?
    ensures AllInStep(MainStep(s))
  {
    var s' := MainStep(s);
    forall i | 0 <= i < |s.reporters|
      ensures InStep(s'.reporters[i], s'.msg[i], Posts(s'.main, i, s'.releases), s'.releases, s'.shared.msgRead)
    {
      ResetFindsAll(s, i);
    }
  }

  lemma ResetTally(s: State)
    requires Inv(s) && s.main.MReset?
    ensures Sum(s.reporters, Counted(s.releases + 1)) == 0
  {
    forall i | 0 <= i < |s.reporters|
      ensures s.reporters[i].reported == s.releases + 1
    {
      ResetFindsAll(s, i);
    }
    NobodyCounted(s.reporters, s.releases + 1);
  }

  lemma ResetKeepsBalance(s: State)
    requires Inv(s) && s.main.MReset?
    ensures Balanced(MainStep(s).shared, TallyOf(s.reporters, s.releases + 1), MainHoldsRead(MPost(0)))
  {
    TallyOfNewRound(s);
    NewRoundBalanced(s.shared, TallyOf(s.reporters, s.releases), TallyOf(s.reporters, s.releases + 1));
  }

  lemma TallyOfNewRound(s: State)
    requires Inv(s) && s.main.MReset?
    ensures TallyOf(s.reporters, s.releases + 1) == TallyOf(s.reporters, s.releases).(counted := 0)
  {
    ResetTally(s);
  }

  lemma NewRoundBalanced(g: Shared, t: Tally, t': Tally)
    requires Balanced(g, t, MainHoldsRead(MReset)) && t' == t.(counted := 0)
    ensures Balanced(g.(msgRead := 0), t', MainHoldsRead(MPost(0)))
  {
  }

  /** The reset opens a new round. */
  lemma ResetKeepsInv(s: State)
    requires Inv(s) && s.main.MReset?
    ensures Inv(MainStep(s))
  {
    var s' := MainStep(s);
    assert s'.reporters == s.reporters && s'.releases == s.releases + 1 && s'.main == MPost(0);
    ResetKeepsBalance(s);
    ResetKeepsReporters(s);
    assert MainInStep(s'.main, s'.shared.msgRead, |s'.reporters|, s'.releases);
  }

  lemma PostKeepsInv(s: State)
    requires Inv(s) && s.main.MPost?
    ensures Inv(MainStep(s))
  {
    var s' := MainStep(s);
    forall i | 0 <= i < |s.reporters|
      ensures InStep(s'.reporters[i], s'.msg[i], Posts(s'.main, i, s'.releases), s'.releases, s'.shared.msgRead)
    {
      assert InStep(s.reporters[i], s.msg[i], Posts(s.main, i, s.releases), s.releases, s.shared.msgRead);
    }
  }

  lemma OtherMainStepKeepsInv(s: State)
    requires Inv(s) && MainReady(s) && !s.main.MReset? && !s.main.MPost?
    ensures Inv(MainStep(s))
  {
    var s' := MainStep(s);
    forall i | 0 <= i < |s.reporters|
      ensures InStep(s'.reporters[i], s'.msg[i], Posts(s'.main, i, s'.releases), s'.releases, s'.shared.msgRead)
    {
      assert InStep(s.reporters[i], s.msg[i], Posts(s.main, i, s.releases), s.releases, s.shared.msgRead);
    }
  }

  lemma StepKeepsInv(s: State, t: Thread)
    requires Inv(s) && Exists(s, t)
    ensures Inv(Step(s, t))
  {
    if Enabled(s, t) {
      match t
      case Reporting(i) => ReporterStepKeepsInv(s, i);
      case Main =>
        if s.main.MReset? {
          ResetKeepsInv(s);
        } else if s.main.MPost? {
          PostKeepsInv(s);
        } else {
          OtherMainStepKeepsInv(s);
        }
    }
  }

  lemma {:induction false} RunKeepsInv(s: State, schedule: seq<Thread>)
    requires Inv(s) && IsSchedule(s, schedule)
    ensures Inv(Run(s, schedule)) && |Run(s, schedule).reporters| == |s.reporters|
    decreases |schedule|
  {
    if schedule != [] {
      StepKeepsInv(s, schedule[0]);
      RunKeepsInv(Step(s, schedule[0]), schedule[1..]);
    }
  }

  // ---------- lockstep ----------

  /** In every state of every run, also while `main` is half-way through its posts:
      a reporter that has passed its semaphore `k` times sees that all have reported
      `k` times; no two reporters are further than one report apart; a private
      semaphore is 0 or 1; and the counter is what has been reported since the last
      release, so it cannot jump over the number that `main` compares it with. */
  lemma Lockstep(s: State, schedule: seq<Thread>, i: nat, j: nat)
    requires IsStart(s) && IsSchedule(s, schedule) && i < |s.reporters| && j < |s.reporters|
    ensures
      var now := Run(s, schedule);
      && |now.reporters| == |now.msg| == |s.reporters|
      && now.reporters[i].passed <= now.reporters[j].reported
      && now.reporters[i].reported <= now.reporters[j].reported + 1
      && now.msg[i] <= 1
      && now.shared.msgRead == Sum(now.reporters, Counted(now.releases)) <= |s.reporters|
  {
    StartInv(s);
    RunKeepsInv(s, schedule);
    var now := Run(s, schedule);
    TallyNonNegative(now.reporters, now.releases);
    assert InStep(now.reporters[i], now.msg[i], Posts(now.main, i, now.releases), now.releases, now.shared.msgRead);
    assert InStep(now.reporters[j], now.msg[j], Posts(now.main, j, now.releases), now.releases, now.shared.msgRead);
  }

  lemma InvOneSender(s: State, i: nat, j: nat)
    requires Inv(s) && i < |s.reporters| && j < |s.reporters|
    requires HoldsSock(s.reporters[i]) == 1 && HoldsSock(s.reporters[j]) == 1
    ensures i == j
  {
    if i != j {
      SumAtLeastTwo(s.reporters, if i < j then i else j, if i < j then j else i, HoldsSock);
    }
  }

  /** Sending and counting is done by one reporter at a time. */
  lemma OneSender(s: State, schedule: seq<Thread>, now: State, i: nat, j: nat)
    requires IsStart(s) && IsSchedule(s, schedule) && now == Run(s, schedule)
    requires i < |now.reporters| && j < |now.reporters|
    requires HoldsSock(now.reporters[i]) == 1 && HoldsSock(now.reporters[j]) == 1
    ensures i == j
  {
    StartInv(s);
    RunKeepsInv(s, schedule);
    InvOneSender(now, i, j);
  }

  // ---------- progress ----------

  /** Steps a reporter takes before it is at its own semaphore. */
  function Left(pc: ReporterPc): nat {
    match pc
    case Work => 8
    case WaitSock => 7
    case Send => 6
    case WaitRead => 5
    case LoadCount => 4
    case StoreCount(_) => 3
    case PostRead => 2
    case PostSock => 1
    case WaitMsg => 0
  }

  /** Steps a reporter can take before the next release: one whole round more if it
      has not yet got past its semaphore for the last one. */
  function ToGo(releases: nat): Reporter -> int {
    (r: Reporter) => Left(r.pc) + if r.passed < releases then 9 else 0
  }

  /** Steps of `main` until it resets the counter, without further idle polls. */
  function Distance(m: MainPc, complete: bool, reporters: nat): int {
    match m
    case MReset => 2
    case MTest => if complete then 3 else 6
    case MWait => 4
    case MPostRead => 5
    case MPost(next) => reporters - next + 6
  }

  function Measure(s: State): int {
    Sum(s.reporters, ToGo(s.releases))
    + Distance(s.main, s.shared.msgRead == |s.reporters|, |s.reporters|)
  }

  /** `main` goes to look at the counter before everyone has reported. */
  predicate IsIdlePoll(s: State, t: Thread) {
    t == Main && s.main.MWait? && s.shared.msgRead != |s.reporters|
  }

  predicate IsRelease(s: State, t: Thread) {
    t == Main && s.main.MReset?
  }

  lemma MeasureBounds(s: State)
    requires Inv(s)
    ensures 2 <= Measure(s) <= 18 * |s.reporters| + 6
  {
    SumNonNegative(s.reporters, ToGo(s.releases));
    SumAtMost(s.reporters, ToGo(s.releases), 17);
  }

  lemma ReporterCountsDown(s: State, i: nat)
    requires Inv(s) && Exists(s, Reporting(i)) && Enabled(s, Reporting(i))
    ensures Measure(ReporterStep(s, i)) == Measure(s) - 1
  {
    var s' := ReporterStep(s, i);
    assert InStep(s.reporters[i], s.msg[i], Posts(s.main, i, s.releases), s.releases, s.shared.msgRead);
    SumUpdate(s.reporters, i, s'.reporters[i], ToGo(s.releases));
    if s.reporters[i].pc.StoreCount? {
      MainIsOutside(s, i);
    }
  }

  /** Everyone goes one more round when the counter is reset. */
  lemma {:induction false} ReleaseAddsRound(reporters: seq<Reporter>, releases: nat)
    requires forall i :: 0 <= i < |reporters| ==> reporters[i].passed == releases
    ensures Sum(reporters, ToGo(releases + 1)) == Sum(reporters, ToGo(releases)) + 9 * |reporters|
  {
    if reporters != [] {
      assert forall i :: 0 <= i < |reporters[1..]| ==> reporters[1..][i] == reporters[i + 1];
      ReleaseAddsRound(reporters[1..], releases);
    }
  }

  lemma ReleaseCounts(s: State)
    requires Inv(s) && s.main.MReset?
    ensures Measure(MainStep(s)) == Measure(s) + 10 * |s.reporters| + 4
  {
    forall i | 0 <= i < |s.reporters|
      ensures s.reporters[i].passed == s.releases
    {
      ResetFindsAll(s, i);
      assert InStep(s.reporters[i], s.msg[i], Posts(s.main, i, s.releases), s.releases, s.shared.msgRead);
    }
    ReleaseAddsRound(s.reporters, s.releases);
  }

  function Taken(s: State, t: Thread): nat
    requires Exists(s, t)
  {
    if Enabled(s, t) then 1 else 0
  }

  function Idle(s: State, t: Thread): nat
    requires Exists(s, t)
  {
    if Enabled(s, t) && IsIdlePoll(s, t) then 1 else 0
  }

  function Released(s: State, t: Thread): nat
    requires Exists(s, t)
  {
    if Enabled(s, t) && IsRelease(s, t) then 1 else 0
  }

  /** What one turn of thread `t` comes to. */
  ghost predicate Accounted(s: State, t: Thread, s': State, perRound: int)
    requires Exists(s, t)
  {
    && Taken(s, t) + Measure(s') == Measure(s) + 3 * Idle(s, t) + (if Released(s, t) == 1 then perRound else 0)
    && s'.releases == s.releases + Released(s, t)
  }

  lemma ReporterTurn(s: State, i: nat, perRound: int)
    requires Inv(s) && Exists(s, Reporting(i))
    ensures Accounted(s, Reporting(i), Step(s, Reporting(i)), perRound)
  {
    if Enabled(s, Reporting(i)) {
      ReporterCountsDown(s, i);
    }
  }

  lemma ReleaseTurn(s: State, perRound: int)
    requires Inv(s) && s.main.MReset? && perRound == 10 * |s.reporters| + 5
    ensures Accounted(s, Main, Step(s, Main), perRound)
  {
    ReleaseCounts(s);
  }

  lemma OtherMainTurn(s: State, perRound: int)
    requires MainInStep(s.main, s.shared.msgRead, |s.reporters|, s.releases) && |s.msg| == |s.reporters|
    requires !s.main.MReset?
    ensures Accounted(s, Main, Step(s, Main), perRound)
  {
    assert MainReady(s) ==> Measure(MainStep(s)) == Measure(s) - 1 + (if IsIdlePoll(s, Main) then 3 else 0);
  }

  /** Every step but two kinds brings the next release nearer by exactly one: an idle
      poll costs two more, and a release is where the next round's work is added. */
  lemma StepCountsDown(s: State, t: Thread, perRound: int)
    requires Inv(s) && Exists(s, t) && perRound == 10 * |s.reporters| + 5
    ensures Accounted(s, t, Step(s, t), perRound)
  {
    match t
    case Reporting(i) => ReporterTurn(s, i, perRound);
    case Main => if s.main.MReset? { ReleaseTurn(s, perRound); } else { OtherMainTurn(s, perRound); }
  }

  function StepsTaken(s: State, schedule: seq<Thread>): nat
    requires IsSchedule(s, schedule)
    decreases |schedule|
  {
    if schedule == [] then 0 else Taken(s, schedule[0]) + StepsTaken(Step(s, schedule[0]), schedule[1..])
  }

  function IdlePolls(s: State, schedule: seq<Thread>): nat
    requires IsSchedule(s, schedule)
    decreases |schedule|
  {
    if schedule == [] then 0 else Idle(s, schedule[0]) + IdlePolls(Step(s, schedule[0]), schedule[1..])
  }

  /** The cost of every run, step for step: ten steps per reporter and five more for
      each release, three for each idle poll, and nothing else but the distance to
      the next release. */
  lemma {:induction false} RunLedger(s: State, schedule: seq<Thread>, perRound: nat)
    requires Inv(s) && IsSchedule(s, schedule) && perRound == 10 * |s.reporters| + 5
    ensures StepsTaken(s, schedule) + Measure(Run(s, schedule)) - perRound * Run(s, schedule).releases ==
      Measure(s) - perRound * s.releases + 3 * IdlePolls(s, schedule)
    decreases |schedule|
  {
    if schedule != [] {
      var t, s' := schedule[0], Step(s, schedule[0]);
      StepKeepsInv(s, t);
      StepCountsDown(s, t, perRound);
      RunLedger(s', schedule[1..], perRound);
      Distributes(perRound, s.releases, Released(s, t), s'.releases);
    }
  }

  lemma Distributes(factor: nat, before: nat, released: nat, after: nat)
    requires released <= 1 && after == before + released
    ensures factor * after == factor * before + (if released == 1 then factor else 0)
  {
  }

  predicate Near(a: int, b: int, within: int) {
    b - within <= a <= b + within
  }

  lemma AfterRunBounds(s: State, schedule: seq<Thread>)
    requires Inv(s) && IsSchedule(s, schedule)
    ensures 2 <= Measure(Run(s, schedule)) <= 18 * |s.reporters| + 6
  {
    RunKeepsInv(s, schedule);
    MeasureBounds(Run(s, schedule));
  }

  lemma StepsSinceStart(s: State, schedule: seq<Thread>, perRound: nat)
    requires Inv(s) && s.releases == 0 && IsSchedule(s, schedule) && perRound == 10 * |s.reporters| + 5
    ensures Near(StepsTaken(s, schedule) - 3 * IdlePolls(s, schedule),
      perRound * Run(s, schedule).releases, 2 * perRound)
  {
    MeasureBounds(s);
    AfterRunBounds(s, schedule);
    RunLedger(s, schedule, perRound);
  }

  /** Hence rounds take boundedly many steps: however a run goes, its steps apart
      from idle polling are fixed by its releases, up to two rounds' worth. */
  lemma StepsPerRelease(s: State, schedule: seq<Thread>, perRound: nat)
    requires IsStart(s) && IsSchedule(s, schedule) && perRound == 10 * |s.reporters| + 5
    ensures Near(StepsTaken(s, schedule) - 3 * IdlePolls(s, schedule),
      perRound * Run(s, schedule).releases, 2 * perRound)
  {
    StartInv(s);
    StepsSinceStart(s, schedule, perRound);
  }

  /** While not all are counted, one is still in the round. */
  lemma {:induction false} SomeoneUncounted(reporters: seq<Reporter>, releases: nat) returns (i: nat)
    requires Sum(reporters, Counted(releases)) != |reporters|
    ensures i < |reporters| && reporters[i].reported <= releases
  {
    if reporters[0].reported <= releases {
      i := 0;
    } else {
      i := SomeoneUncounted(reporters[1..], releases);
      i := i + 1;
    }
  }

  /** In every reachable state some thread can take a step that is not an idle poll. */
  lemma SomeoneAdvances(s: State) returns (t: Thread)
    requires Inv(s) && |s.reporters| > 0
    ensures Exists(s, t) && Enabled(s, t) && !IsIdlePoll(s, t)
  {
    if !s.main.MWait? {
      t := Main;
    } else if Sum(s.reporters, HoldsRead) > 0 {
      var i := SumWitness(s.reporters, HoldsRead);
      t := Reporting(i);
    } else if s.shared.msgRead == |s.reporters| {
      TallyNonNegative(s.reporters, s.releases);
      t := Main;
    } else {
      t := SomeReporterAdvances(s);
    }
  }

  lemma SomeReporterAdvances(s: State) returns (t: Thread)
    requires Inv(s) && s.main.MWait? && s.shared.msgRead != |s.reporters| && Sum(s.reporters, HoldsRead) <= 0
    ensures t.Reporting? && Exists(s, t) && Enabled(s, t)
  {
    TallyNonNegative(s.reporters, s.releases);
    if Sum(s.reporters, HoldsSock) > 0 {
      var i := SumWitness(s.reporters, HoldsSock);
      t := Reporting(i);
    } else {
      var i := SomeoneUncounted(s.reporters, s.releases);
      t := Reporting(i);
    }
  }

  /** As far as the barrier goes, and provided that the work between two messages ends,
      no reachable state is a dead end, nor a place to circle in for ever: from each one
      the round can be completed, in at most 18 turns per reporter and 6 more. */
  lemma {:induction false} RoundCompletes(s: State) returns (more: seq<Thread>)
    requires Inv(s) && |s.reporters| > 0
    ensures IsSchedule(s, more) && Run(s, more).releases == s.releases + 1
    ensures |more| <= Measure(s) <= 18 * |s.reporters| + 6
    decreases Measure(s)
  {
    MeasureBounds(s);
    if s.main.MReset? {
      more := [Main];
      assert Run(s, more) == Run(Step(s, Main), []);
    } else {
      var t := SomeoneAdvances(s);
      StepKeepsInv(s, t);
      StepCountsDown(s, t, 10 * |s.reporters| + 5);
      var rest := RoundCompletes(Step(s, t));
      more := [t] + rest;
      assert more[1..] == rest;
    }
  }

  /** The same, said of every run of the program. */
  lemma EveryRunCanComplete(s: State, schedule: seq<Thread>) returns (more: seq<Thread>)
    requires IsStart(s) && IsSchedule(s, schedule) && |s.reporters| > 0
    ensures
      var now := Run(s, schedule);
      && IsSchedule(now, more) && |more| <= 18 * |s.reporters| + 6
      && Run(now, more).releases == now.releases + 1
  {
    StartInv(s);
    RunKeepsInv(s, schedule);
    more := RoundCompletes(Run(s, schedule));
  }

  // ---------- the program as it runs: globals updated statement by statement ----------

  /** The globals of the barrier and, for each thread, where it stands. What the
      threads have reported and `main` has released is bookkeeping. */
  class Program {
    var read: nat
    var sock: nat
    var msgRead: int
    const msg: array<nat>
    var reporters: seq<Reporter>
    var main: MainPc
    ghost var releases: nat

    ghost function Abstract(): State
      reads this, msg
    {
      State(Shared(read, sock, msgRead), msg[..], reporters, main, releases)
    }

    constructor (threads: nat)
      ensures fresh(msg) && IsStart(Abstract()) && |reporters| == threads
    {
      read, sock, msgRead := 1, 1, 0;
      msg := new nat[threads](_ => 0);
      reporters := seq(threads, _ => Reporter(Work, 0, 0));
      main := MWait;
      releases := 0;
    }

    /** The next statement of `send_mesg`, or of the loop around it, in reporter `i`. */
    method RunReporter(i: nat)
      requires i < |reporters| == msg.Length
      modifies this, msg
      ensures Abstract() == Step(old(Abstract()), Reporting(i))
    {
      var r := reporters[i];
      match r.pc {
        case Work => r := r.(pc := WaitSock);
        case WaitSock => if sock > 0 { sock, r := sock - 1, r.(pc := Send); }
        case Send => r := r.(pc := WaitRead);
        case WaitRead => if read > 0 { read, r := read - 1, r.(pc := LoadCount); }
        case LoadCount => r := r.(pc := StoreCount(msgRead));
        case StoreCount(seen) => msgRead, r := seen + 1, r.(pc := PostRead, reported := r.reported + 1);
        case PostRead => read, r := read + 1, r.(pc := PostSock);
        case PostSock => sock, r := sock + 1, r.(pc := WaitMsg);
        case WaitMsg => if msg[i] > 0 { msg[i], r := msg[i] - 1, r.(pc := Work, passed := r.passed + 1); }
      }
      reporters := reporters[i := r];
    }

    /** The next statement of the loop of `main`. */
    method RunMain()
      requires |reporters| == msg.Length
      modifies this, msg
      ensures Abstract() == Step(old(Abstract()), Main)
    {
      match main {
        case MWait => if read > 0 { read, main := read - 1, MTest; }
        case MTest => if msgRead == msg.Length { main := MReset; } else { main := MPostRead; }
        case MReset =>
          msgRead, main := 0, MPost(0);
          releases := releases + 1;
        case MPost(i) =>
          if i < msg.Length {
            msg[i] := msg[i] + 1;
            main := MPost(i + 1);
          } else {
            main := MPostRead;
          }
        case MPostRead => read, main := read + 1, MWait;
      }
    }

    /** Any schedule, from the start or from any state with the invariant: in the
        program's own variables, everyone is in lockstep. */
    method Execute(schedule: seq<Thread>)
      requires Inv(Abstract()) && IsSchedule(Abstract(), schedule)
      modifies this, msg
      ensures Abstract() == Run(old(Abstract()), schedule) && Inv(Abstract())
      ensures |reporters| == msg.Length && msgRead <= msg.Length
      ensures forall i, j :: 0 <= i < msg.Length && 0 <= j < msg.Length ==>
        reporters[i].passed <= reporters[j].reported && reporters[i].reported <= reporters[j].reported + 1
      ensures forall i :: 0 <= i < msg.Length ==> msg[i] <= 1
    {
      for n := 0 to |schedule|
        invariant IsSchedule(Abstract(), schedule[n..]) && Inv(Abstract())
        invariant Run(Abstract(), schedule[n..]) == Run(old(Abstract()), schedule)
      {
        StepKeepsInv(Abstract(), schedule[n]);
        match schedule[n] {
          case Main => RunMain();
          case Reporting(i) => RunReporter(i);
        }
      }
      NotOvercounted(Abstract());
    }
  }

  lemma NotOvercounted(s: State)
    requires Inv(s)
    ensures s.shared.msgRead <= |s.reporters|
  {
    TallyNonNegative(s.reporters, s.releases);
  }
}
