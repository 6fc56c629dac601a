/** When the rounds of the barrier complete: under which schedules they do, what a
    stretch of polling changes, and why fairness alone is not enough. */
module RoundLiveness {
  import opened Counting
  import opened RoundBarrier

  // ---------- schedules that complete their rounds ----------

  /** `main` goes round its loop while not all are counted. */
  predicate Polling(s: State) {
    s.shared.msgRead != |s.reporters| && (s.main.MWait? || s.main.MTest? || s.main.MPostRead?)
  }

  /** A turn brings the round on, unless the thread is blocked or only polls. */
  predicate Advances(s: State, t: Thread)
    requires Exists(s, t)
  {
    Enabled(s, t) && !(t == Main && Polling(s))
  }

  /** What `main` has before it until the next reset; polling does not count. */
  function Stage(m: MainPc, complete: bool, reporters: nat): int {
    match m
    case MReset => 2
    case MTest => if complete then 3 else 6
    case MWait => if complete then 4 else 6
    case MPostRead => if complete then 5 else 6
    case MPost(next) => reporters - next + 7
  }

  function Potential(s: State): int {
    Sum(s.reporters, ToGo(s.releases)) + Stage(s.main, s.shared.msgRead == |s.reporters|, |s.reporters|)
  }

  lemma PotentialBounds(s: State)
    requires Inv(s)
    ensures 2 <= Potential(s) <= 18 * |s.reporters| + 7
  {
    SumNonNegative(s.reporters, ToGo(s.releases));
    SumAtMost(s.reporters, ToGo(s.releases), 17);
  }

  lemma ReporterLowersToGo(s: State, i: nat)
    requires Inv(s) && Exists(s, Reporting(i)) && Enabled(s, Reporting(i))
    ensures Sum(ReporterStep(s, i).reporters, ToGo(s.releases)) == Sum(s.reporters, ToGo(s.releases)) - 1
  {
    assert InStep(s.reporters[i], s.msg[i], Posts(s.main, i, s.releases), s.releases, s.shared.msgRead);
    SumUpdate(s.reporters, i, ReporterStep(s, i).reporters[i], ToGo(s.releases));
  }

  lemma ReporterAdvances(s: State, i: nat)
    requires Inv(s) && Exists(s, Reporting(i)) && Enabled(s, Reporting(i))
    ensures Potential(ReporterStep(s, i)) < Potential(s)
  {
    ReporterLowersToGo(s, i);
    if s.reporters[i].pc.StoreCount? {
      MainIsOutside(s, i);
      ReporterStepKeepsInv(s, i);
      NotOvercounted(ReporterStep(s, i));
      assert InStep(s.reporters[i], s.msg[i], Posts(s.main, i, s.releases), s.releases, s.shared.msgRead);
    }
  }

  /** A state as it is, or will be, when `main` gets back to its wait. */
  function Resting(s: State): State {
    if Polling(s) then s.(main := MWait, shared := s.shared.(read := s.shared.read + if s.main.MWait? then 0 else 1))
    else s
  }

  /** A turn that is no release lowers the potential if it advances, and keeps it
      otherwise. */
  ghost predicate AdvancesOrRests(s: State, t: Thread, s': State)
    requires Exists(s, t)
  {
    && s'.releases == s.releases
    && (Advances(s, t) ==> Potential(s') < Potential(s))
    && (!Advances(s, t) ==> Potential(s') == Potential(s))
  }

  lemma ReporterTurnAdvances(s: State, i: nat)
    requires Inv(s) && Exists(s, Reporting(i))
    ensures AdvancesOrRests(s, Reporting(i), Step(s, Reporting(i)))
  {
    if Enabled(s, Reporting(i)) {
      ReporterAdvances(s, i);
    }
  }

  lemma MainTurnAdvances(s: State)
    requires MainInStep(s.main, s.shared.msgRead, |s.reporters|, s.releases) && |s.msg| == |s.reporters|
    requires !s.main.MReset?
    ensures AdvancesOrRests(s, Main, Step(s, Main))
  {
    assert MainReady(s) && Polling(s) ==> Potential(MainStep(s)) == Potential(s);
    assert MainReady(s) && !Polling(s) ==> Potential(MainStep(s)) < Potential(s);
  }

  lemma TurnAdvances(s: State, t: Thread)
    requires Inv(s) && Exists(s, t) && !(Enabled(s, t) && IsRelease(s, t))
    ensures AdvancesOrRests(s, t, Step(s, t))
  {
    match t
    case Reporting(i) => ReporterTurnAdvances(s, i);
    case Main => MainTurnAdvances(s);
  }

  /** No turn of the schedule advances. */
  predicate Still(s: State, schedule: seq<Thread>)
    requires IsSchedule(s, schedule)
    decreases |schedule|
  {
    schedule == [] || (!Advances(s, schedule[0]) && Still(Step(s, schedule[0]), schedule[1..]))
  }

  lemma {:induction false} ReleasesGrow(s: State, schedule: seq<Thread>)
    requires IsSchedule(s, schedule)
    ensures Run(s, schedule).releases >= s.releases
    decreases |schedule|
  {
    if schedule != [] {
      ReleasesGrow(Step(s, schedule[0]), schedule[1..]);
    }
  }

  /** A run without a release never raises the potential, and keeps it only if no turn
      advances. */
  lemma {:induction false} RunLowersPotential(s: State, schedule: seq<Thread>)
    requires Inv(s) && IsSchedule(s, schedule) && Run(s, schedule).releases == s.releases
    ensures Potential(Run(s, schedule)) <= Potential(s)
    ensures Potential(Run(s, schedule)) == Potential(s) ==> Still(s, schedule)
    decreases |schedule|
  {
    if schedule != [] {
      var t, rest := schedule[0], schedule[1..];
      ReleasesGrow(Step(s, t), rest);
      TurnAdvances(s, t);
      StepKeepsInv(s, t);
      RunLowersPotential(Step(s, t), rest);
    }
  }

  lemma {:induction false} StillRests(s: State, schedule: seq<Thread>)
    requires Inv(s) && IsSchedule(s, schedule) && Still(s, schedule)
    ensures Resting(Run(s, schedule)) == Resting(s) && (Polling(Run(s, schedule)) <==> Polling(s))
    decreases |schedule|
  {
    if schedule != [] {
      StillRests(Step(s, schedule[0]), schedule[1..]);
    }
  }

  /** Reporter `i` has a turn while `main` stands at its wait, outside its section. */
  predicate Attended(s: State, schedule: seq<Thread>, i: nat)
    requires IsSchedule(s, schedule)
    decreases |schedule|
  {
    schedule != [] &&
    ((schedule[0] == Reporting(i) && s.main.MWait?) || Attended(Step(s, schedule[0]), schedule[1..], i))
  }

  /** A stretch of a schedule that gives every thread its chance: `main` a turn, and
      each reporter one while `main` is outside its section. */
  ghost predicate Attentive(s: State, stretch: seq<Thread>) {
    && IsSchedule(s, stretch) && Main in stretch
    && forall i: nat :: i < |s.reporters| ==> Attended(s, stretch, i)
  }

  /** In a stretch in which nothing advances, the reporters' turns outside the section
      of `main` all fall into the same state. */
  lemma {:induction false} StillAttended(s: State, schedule: seq<Thread>, i: nat)
    requires Inv(s) && IsSchedule(s, schedule) && Still(s, schedule) && Attended(s, schedule, i)
    requires i < |s.reporters|
    ensures Inv(Resting(s)) && Resting(s).main.MWait? && !Enabled(Resting(s), Reporting(i))
    decreases |schedule|
  {
    if schedule[0] == Reporting(i) && s.main.MWait? {
      assert Resting(s) == s;
    } else {
      StillAttended(Step(s, schedule[0]), schedule[1..], i);
    }
  }

  lemma {:induction false} StillMain(s: State, schedule: seq<Thread>)
    requires Inv(s) && IsSchedule(s, schedule) && Still(s, schedule) && Main in schedule && !Polling(s)
    ensures !MainReady(s)
    decreases |schedule|
  {
    if schedule[0] != Main {
      StillMain(s, schedule[1..]);
    }
  }

  /** Outside the section of `main` some reporter can step, unless all are counted and
      nobody has `sem_read`. */
  lemma SomeReporterReady(s: State) returns (i: nat)
    requires Inv(s) && s.main.MWait? && |s.reporters| > 0
    requires s.shared.msgRead != |s.reporters| || s.shared.read == 0
    ensures i < |s.reporters| && Enabled(s, Reporting(i))
  {
    if Sum(s.reporters, HoldsRead) > 0 {
      i := SumWitness(s.reporters, HoldsRead);
    } else {
      TallyNonNegative(s.reporters, s.releases);
      var t := SomeReporterAdvances(s);
      i := t.i;
    }
  }

  lemma AttentiveNotStill(s: State, stretch: seq<Thread>)
    requires Inv(s) && |s.reporters| > 0 && Attentive(s, stretch)
    ensures !Still(s, stretch)
  {
    if Still(s, stretch) {
      StillAttended(s, stretch, 0);
      if s.shared.msgRead == |s.reporters| {
        StillMain(s, stretch);
      }
      var i := SomeReporterReady(Resting(s));
      StillAttended(s, stretch, i);
    }
  }

  /** Every attentive stretch releases the round or gets nearer to it. */
  lemma AttentiveAdvances(s: State, stretch: seq<Thread>)
    requires Inv(s) && |s.reporters| > 0 && Attentive(s, stretch)
    ensures Run(s, stretch).releases > s.releases || Potential(Run(s, stretch)) < Potential(s)
  {
    ReleasesGrow(s, stretch);
    if Run(s, stretch).releases == s.releases {
      RunLowersPotential(s, stretch);
      AttentiveNotStill(s, stretch);
    }
  }

  /** The schedule cut into stretches, each attentive where it falls. */
  ghost predicate AllAttentive(s: State, stretches: seq<seq<Thread>>)
    decreases |stretches|
  {
    stretches == [] || (Attentive(s, stretches[0]) && AllAttentive(Run(s, stretches[0]), stretches[1..]))
  }

  ghost function RunAll(s: State, stretches: seq<seq<Thread>>): State
    requires AllAttentive(s, stretches)
    decreases |stretches|
  {
    if stretches == [] then s else RunAll(Run(s, stretches[0]), stretches[1..])
  }

  /** Releases and distance to the next one, weighed against the number of stretches. */
  predicate Gained(perRound: nat, before: nat, now: nat, potential: int, left: int, stretches: int) {
    perRound * now - left >= perRound * before - potential + stretches
  }

  lemma OneStretch(s: State, stretch: seq<Thread>, perRound: nat)
    requires Inv(s) && |s.reporters| > 0 && Attentive(s, stretch) && perRound == 18 * |s.reporters| + 8
    ensures Gained(perRound, s.releases, Run(s, stretch).releases, Potential(s), Potential(Run(s, stretch)), 1)
  {
    var now := Run(s, stretch);
    RunKeepsInv(s, stretch);
    ReleasesGrow(s, stretch);
    AttentiveAdvances(s, stretch);
    PotentialBounds(s);
    PotentialBounds(now);
    MoreReleases(perRound, s.releases, now.releases);
  }

  lemma {:induction false} MulAtLeast(a: nat, b: nat)
    requires b >= 1
    ensures a * b >= a
  {
    if b > 1 {
      MulAtLeast(a, b - 1);
    }
  }

  lemma MoreReleases(perRound: nat, before: nat, now: nat)
    requires now >= before
    ensures perRound * now == perRound * before + perRound * (now - before)
    ensures now > before ==> perRound * (now - before) >= perRound
    ensures now == before ==> perRound * (now - before) == 0
  {
    if now > before {
      MulAtLeast(perRound, now - before);
    }
  }

  lemma {:induction false} StretchesAddUp(s: State, stretches: seq<seq<Thread>>, perRound: nat)
    requires Inv(s) && |s.reporters| > 0 && AllAttentive(s, stretches) && perRound == 18 * |s.reporters| + 8
    ensures Gained(perRound, s.releases, RunAll(s, stretches).releases,
      Potential(s), Potential(RunAll(s, stretches)), |stretches|)
    decreases |stretches|
  {
    if stretches != [] {
      RunKeepsInv(s, stretches[0]);
      OneStretch(s, stretches[0], perRound);
      StretchesAddUp(Run(s, stretches[0]), stretches[1..], perRound);
    }
  }

  /** Liveness, provided that the work between two messages ends: under every schedule
      that goes on in attentive stretches the rounds go on too, one for at most each
      `18 * N + 8` stretches, from every reachable state. */
  lemma RoundsComplete(s: State, stretches: seq<seq<Thread>>, perRound: nat)
    requires Inv(s) && |s.reporters| > 0 && AllAttentive(s, stretches) && perRound == 18 * |s.reporters| + 8
    ensures perRound * (RunAll(s, stretches).releases - s.releases) > |stretches| - perRound
    ensures |stretches| >= perRound ==> RunAll(s, stretches).releases > s.releases
  {
    StretchesAddUp(s, stretches, perRound);
    StretchBounds(s, stretches);
    Conclude(perRound, s.releases, RunAll(s, stretches).releases, Potential(s), Potential(RunAll(s, stretches)),
      |stretches|);
  }

  lemma Conclude(perRound: nat, before: nat, now: nat, potential: int, left: int, stretches: int)
    requires now >= before && 2 <= potential < perRound && 2 <= left
    requires Gained(perRound, before, now, potential, left, stretches)
    ensures perRound * (now - before) > stretches - perRound
    ensures stretches >= perRound ==> now > before
  {
    MoreReleases(perRound, before, now);
  }

  lemma {:induction false} AllKeepInv(s: State, stretches: seq<seq<Thread>>)
    requires Inv(s) && AllAttentive(s, stretches)
    ensures Inv(RunAll(s, stretches)) && RunAll(s, stretches).releases >= s.releases
    decreases |stretches|
  {
    if stretches != [] {
      RunKeepsInv(s, stretches[0]);
      ReleasesGrow(s, stretches[0]);
      AllKeepInv(Run(s, stretches[0]), stretches[1..]);
    }
  }

  lemma StretchBounds(s: State, stretches: seq<seq<Thread>>)
    requires Inv(s) && AllAttentive(s, stretches)
    ensures 2 <= Potential(s) <= 18 * |s.reporters| + 7
    ensures 2 <= Potential(RunAll(s, stretches)) && RunAll(s, stretches).releases >= s.releases
  {
    AllKeepInv(s, stretches);
    PotentialBounds(s);
    PotentialBounds(RunAll(s, stretches));
  }

  // ---------- polls that change nothing ----------

  /** None of the reporters' turns in the schedule is enabled where it falls. */
  predicate Asleep(s: State, schedule: seq<Thread>)
    requires IsSchedule(s, schedule)
    decreases |schedule|
  {
    schedule == [] ||
    ((schedule[0].Reporting? ==> !Enabled(s, schedule[0])) && Asleep(Step(s, schedule[0]), schedule[1..]))
  }

  lemma {:induction false} AsleepIsStill(s: State, schedule: seq<Thread>)
    requires Inv(s) && IsSchedule(s, schedule) && Polling(s)
    ensures Asleep(s, schedule) <==> Still(s, schedule)
    decreases |schedule|
  {
    if schedule != [] && !Advances(s, schedule[0]) {
      AsleepIsStill(Step(s, schedule[0]), schedule[1..]);
    }
  }

  /** A stretch of polling, from the wait of `main` back to it and however long, changes
      nothing if and only if none of the reporters' turns in it is enabled where it
      falls. */
  lemma PollChangesNothing(s: State, schedule: seq<Thread>)
    requires Inv(s) && IsSchedule(s, schedule) && s.main.MWait? && s.shared.msgRead != |s.reporters|
    requires Run(s, schedule).main.MWait?
    ensures Run(s, schedule) == s <==> Asleep(s, schedule)
  {
    AsleepIsStill(s, schedule);
    if Still(s, schedule) {
      StillRests(s, schedule);
    } else if Run(s, schedule) == s {
      RunLowersPotential(s, schedule);
    }
  }

  // ---------- what fairness alone does not give ----------

  lemma {:induction false} RunBoth(s: State, first: seq<Thread>, second: seq<Thread>)
    requires IsSchedule(s, first) && IsSchedule(s, second) && IsSchedule(s, first + second)
    ensures IsSchedule(Run(s, first), second) && Run(s, first + second) == Run(Run(s, first), second)
    decreases |first|
  {
    if first == [] {
      assert first + second == second;
    } else {
      assert (first + second)[1..] == first[1..] + second;
      RunBoth(Step(s, first[0]), first[1..], second);
    }
  }

  lemma {:induction false} BlockedRun(s: State, schedule: seq<Thread>)
    requires IsSchedule(s, schedule)
    requires forall k :: 0 <= k < |schedule| ==> !Enabled(s, schedule[k])
    ensures Run(s, schedule) == s
    decreases |schedule|
  {
    if schedule != [] {
      assert forall k :: 0 <= k < |schedule[1..]| ==> schedule[1..][k] == schedule[k + 1];
      BlockedRun(s, schedule[1..]);
    }
  }

  /** When `main` holds `sem_read` at the moment the reporters get their turns, and so
      they cannot move, a poll leaves the state as it was. */
  lemma SleepersPoll(s: State, asleep: seq<Thread>)
    requires |s.msg| == |s.reporters| && s.main.MWait? && s.shared.read > 0 && s.shared.msgRead != |s.reporters|
    requires IsSchedule(s, asleep) && forall k :: 0 <= k < |asleep| ==> !Enabled(Step(s, Main), asleep[k])
    ensures IsSchedule(s, [Main] + asleep + [Main, Main]) && Run(s, [Main] + asleep + [Main, Main]) == s
  {
    var polling := Step(s, Main);
    var whole := [Main] + asleep + [Main, Main];
    assert whole[0] == Main && whole[1..] == asleep + [Main, Main];
    RunBoth(polling, asleep, [Main, Main]);
    BlockedRun(polling, asleep);
  }

  function Repeat(block: seq<Thread>, times: nat): (schedule: seq<Thread>)
    ensures forall k :: 0 <= k < |schedule| ==> schedule[k] in block
  {
    if times == 0 then [] else block + Repeat(block, times - 1)
  }

  lemma {:induction false} RepeatChangesNothing(s: State, block: seq<Thread>, times: nat)
    requires IsSchedule(s, block) && Run(s, block) == s
    ensures IsSchedule(s, Repeat(block, times)) && Run(s, Repeat(block, times)) == s
  {
    if times > 0 {
      RepeatChangesNothing(s, block, times - 1);
      RunBoth(s, block, Repeat(block, times - 1));
    }
  }

  /** A turn for each reporter from `from` on. */
  function Everyone(from: nat, reporters: nat): seq<Thread>
    decreases reporters - from
  {
    if from >= reporters then [] else [Reporting(from)] + Everyone(from + 1, reporters)
  }

  lemma {:induction false} EveryoneIn(from: nat, reporters: nat, i: nat)
    requires from <= i < reporters
    ensures Reporting(i) in Everyone(from, reporters)
    decreases reporters - from
  {
    if i > from {
      EveryoneIn(from + 1, reporters, i);
    }
  }

  lemma {:induction false} EveryoneIs(from: nat, reporters: nat, t: Thread)
    requires t in Everyone(from, reporters)
    ensures t.Reporting? && t.i < reporters
    decreases reporters - from
  {
    if t != Reporting(from) {
      EveryoneIs(from + 1, reporters, t);
    }
  }

  /** Reporter 0 is sending; those before `from` have had one more turn each, which has
      brought it to `sem_read` and the others to `sem_sock`. */
  ghost predicate Arriving(s: State, from: nat) {
    && s.shared == Shared(1, 0, 0) && s.main.MWait? && s.releases == 0 && |s.msg| == |s.reporters|
    && forall i :: 0 <= i < |s.reporters| ==>
         s.reporters[i].pc == if i == 0 then (if i < from then WaitRead else Send)
                              else (if i < from then WaitSock else Work)
  }

  lemma {:induction false} AllArrive(s: State, from: nat)
    requires Arriving(s, from) && from <= |s.reporters|
    ensures IsSchedule(s, Everyone(from, |s.reporters|))
    ensures Arriving(Run(s, Everyone(from, |s.reporters|)), |s.reporters|)
    ensures |Run(s, Everyone(from, |s.reporters|)).reporters| == |s.reporters|
    decreases |s.reporters| - from
  {
    IsScheduleOfAll(s, from);
    if from < |s.reporters| {
      AllArrive(Step(s, Reporting(from)), from + 1);
      assert Everyone(from, |s.reporters|)[1..] == Everyone(from + 1, |s.reporters|);
    }
  }

  lemma IsScheduleOfAll(s: State, from: nat)
    requires |s.msg| == |s.reporters|
    ensures IsSchedule(s, Everyone(from, |s.reporters|))
  {
    forall k | 0 <= k < |Everyone(from, |s.reporters|)|
      ensures Exists(s, Everyone(from, |s.reporters|)[k])
    {
      EveryoneIs(from, |s.reporters|, Everyone(from, |s.reporters|)[k]);
    }
  }

  /** With `sem_sock` held by the one that waits for `sem_read`, nobody can move while
      `main` polls. */
  lemma ArrivedAsleep(s: State)
    requires Arriving(s, |s.reporters|)
    ensures forall k :: 0 <= k < |Everyone(0, |s.reporters|)| ==>
      Exists(s, Everyone(0, |s.reporters|)[k]) && !Enabled(Step(s, Main), Everyone(0, |s.reporters|)[k])
  {
    forall k | 0 <= k < |Everyone(0, |s.reporters|)|
      ensures Exists(s, Everyone(0, |s.reporters|)[k]) && !Enabled(Step(s, Main), Everyone(0, |s.reporters|)[k])
    {
      EveryoneIs(0, |s.reporters|, Everyone(0, |s.reporters|)[k]);
    }
  }

  lemma TwoTurnsOf(s: State, t: Thread)
    requires Exists(s, t)
    ensures IsSchedule(s, [t, t]) && Run(s, [t, t]) == Step(Step(s, t), t)
  {
    var s' := Step(s, t);
    assert [t, t][1..] == [t];
    assert Run(s', [t]) == Run(Step(s', t), []);
  }

  lemma FirstSends(s: State)
    requires IsStart(s) && |s.reporters| > 0
    ensures Arriving(Step(Step(s, Reporting(0)), Reporting(0)), 0)
  {
  }

  /** So a scheduler that merely gives every thread its turns again and again need not
      complete a round, for any number of reporters: with one of them about to count
      itself and the others behind it, `main` can poll any number of times while each
      reporter gets a turn in each poll. */
  lemma FairTurnsCanStarve(s: State, times: nat, arrive: seq<Thread>, poll: seq<Thread>)
    requires IsStart(s) && |s.reporters| > 0
    requires arrive == [Reporting(0), Reporting(0)] + Everyone(0, |s.reporters|)
    requires poll == [Main] + Everyone(0, |s.reporters|) + [Main, Main]
    ensures forall t :: Exists(s, t) ==> t in poll
    ensures IsSchedule(s, arrive) && IsSchedule(Run(s, arrive), Repeat(poll, times))
    ensures Run(Run(s, arrive), Repeat(poll, times)) == Run(s, arrive) && Run(s, arrive).releases == 0
  {
    var n := |s.reporters|;
    forall t | Exists(s, t)
      ensures t in poll
    {
      if t.Reporting? {
        EveryoneIn(0, n, t.i);
      }
    }
    var now := Arrives(s, arrive);
    ArrivedAsleep(now);
    SleepersPoll(now, Everyone(0, n));
    RepeatChangesNothing(now, poll, times);
  }

  lemma Arrives(s: State, arrive: seq<Thread>) returns (now: State)
    requires IsStart(s) && |s.reporters| > 0
    requires arrive == [Reporting(0), Reporting(0)] + Everyone(0, |s.reporters|)
    ensures IsSchedule(s, arrive) && now == Run(s, arrive)
    ensures Arriving(now, |s.reporters|) && |now.reporters| == |s.reporters|
  {
    TwoTurnsOf(s, Reporting(0));
    FirstSends(s);
    var s' := Step(Step(s, Reporting(0)), Reporting(0));
    IsScheduleOfAll(s, 0);
    AllArrive(s', 0);
    RunBoth(s, [Reporting(0), Reporting(0)], Everyone(0, |s.reporters|));
    now := Run(s, arrive);
  }

  // ---------- how to attend to everyone ----------

  lemma {:induction false} EveryoneAttended(s: State, from: nat, i: nat)
    requires |s.msg| == |s.reporters| && s.main.MWait? && from <= i < |s.reporters|
    requires IsSchedule(s, Everyone(from, |s.reporters|) + [Main])
    ensures Attended(s, Everyone(from, |s.reporters|) + [Main], i)
    decreases i - from
  {
    var all := Everyone(from, |s.reporters|) + [Main];
    if i > from {
      assert all[1..] == Everyone(from + 1, |s.reporters|) + [Main];
      EveryoneAttended(Step(s, Reporting(from)), from + 1, i);
    }
  }

  /** Turns of `main` until it is back at its wait. */
  function BackAtWait(m: MainPc, reporters: nat): int {
    match m
    case MWait => 0
    case MPostRead => 1
    case MPost(next) => reporters - next + 2
    case MReset => reporters + 3
    case MTest => reporters + 4
  }

  lemma {:induction false} EveryoneCounts(from: nat, reporters: nat)
    requires from <= reporters
    ensures |Everyone(from, reporters)| == reporters - from
    decreases reporters - from
  {
    if from < reporters {
      EveryoneCounts(from + 1, reporters);
    }
  }

  lemma EveryoneAttentive(s: State) returns (stretch: seq<Thread>)
    requires |s.msg| == |s.reporters| && s.main.MWait?
    ensures Attentive(s, stretch) && |stretch| == |s.reporters| + 1
  {
    stretch := Everyone(0, |s.reporters|) + [Main];
    IsScheduleOfAll(s, 0);
    EveryoneCounts(0, |s.reporters|);
    forall i: nat | i < |s.reporters|
      ensures Attended(s, stretch, i)
    {
      EveryoneAttended(s, 0, i);
    }
  }

  /** What `AttentiveStretch` needs to know of a reachable state. */
  predicate PostsInRange(s: State) {
    |s.msg| == |s.reporters| && (s.main.MPost? ==> s.main.next <= |s.reporters|)
  }

  /** Attentive stretches exist from everywhere, for example the one that first takes
      `main` back to its wait, and then gives each reporter a turn and `main` one. */
  lemma {:induction false} AttentiveStretch(s: State) returns (stretch: seq<Thread>)
    requires PostsInRange(s)
    ensures Attentive(s, stretch) && |stretch| <= |s.reporters| + 1 + BackAtWait(s.main, |s.reporters|)
    decreases BackAtWait(s.main, |s.reporters|)
  {
    if s.main.MWait? {
      stretch := EveryoneAttentive(s);
    } else {
      var rest := AttentiveStretch(MainStep(s));
      stretch := [Main] + rest;
    }
  }
}
