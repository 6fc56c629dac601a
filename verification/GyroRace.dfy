/** Exactly when no run upsets the account of a gyroscope, and the run that does upset
    it: two live correction threads race with each other. */
module GyroRace {
  import opened Counting
  import opened FlightControl
  import opened FlightLedger
  import opened GyroLedger

  // ---------- exactly when the balance cannot be upset ----------

  /** Nobody creates correction threads, and nobody else moves the gyroscopes. */
  ghost predicate Untouched(s: State, t: Turn) {
    match t
    case Elsewhere(w) => w.gyros == s.world.gyros
    case Create(_) => false
    case Climb => !s.climber.pc.CRearm?
    case _ => true
  }

  ghost predicate UntouchedRun(s: State, schedule: seq<Turn>)
    decreases |schedule|
  {
    schedule != [] ==> Untouched(s, schedule[0]) && UntouchedRun(Step(s, schedule[0]), schedule[1..])
  }

  lemma {:induction false} UntouchedIsOrderly(s: State, schedule: seq<Turn>)
    requires UntouchedRun(s, schedule)
    ensures OrderlyRun(s, schedule)
    decreases |schedule|
  {
    if schedule != [] {
      UntouchedIsOrderly(Step(s, schedule[0]), schedule[1..]);
    }
  }

  /** The account of gyroscope `cell`, which stood at `initial` when nothing was taken. */
  ghost predicate Balances(s: State, cell: nat, initial: int)
    requires cell < |s.world.gyros|
  {
    Sum(s.correctors, TicksAt(cell)) - Sum(s.correctors, PendingAt(cell)) + Abs(s.world.gyros[cell]) == Abs(initial)
  }

  /** No run without creations upsets the account of any gyroscope. */
  ghost predicate AlwaysBalances(s: State) {
    forall schedule, cell: nat ::
      UntouchedRun(s, schedule) && cell < |s.world.gyros| && cell < |Run(s, schedule).world.gyros| ==>
        Balances(Run(s, schedule), cell, s.world.gyros[cell])
  }

  lemma OneEachBalances(s: State)
    requires IsStart(s) && OneEach(s)
    ensures AlwaysBalances(s)
  {
    forall schedule, cell: nat |
      UntouchedRun(s, schedule) && cell < |s.world.gyros| && cell < |Run(s, schedule).world.gyros|
      ensures Balances(Run(s, schedule), cell, s.world.gyros[cell])
    {
      UntouchedIsOrderly(s, schedule);
      GyroLedger.GyroLedger(s, schedule, cell);
    }
  }

  // ---------- a run that upsets it: one thread works down, another races with it ----------

  /** `turns` turns in a row for correction thread `k`. */
  function TurnsOf(k: nat, turns: nat): (schedule: seq<Turn>)
    ensures |schedule| == turns
  {
    if turns == 0 then [] else [Correct(k)] + TurnsOf(k, turns - 1)
  }

  lemma NextTurn(s: State, k: nat, turns: nat)
    requires turns > 0
    ensures Run(s, TurnsOf(k, turns)) == Run(Step(s, Correct(k)), TurnsOf(k, turns - 1))
  {
    assert TurnsOf(k, turns)[0] == Correct(k) && TurnsOf(k, turns)[1..] == TurnsOf(k, turns - 1);
  }

  lemma FourTurns(s: State, k: nat)
    ensures Run(s, TurnsOf(k, 4)) == Step(Step(Step(Step(s, Correct(k)), Correct(k)), Correct(k)), Correct(k))
  {
    var s1 := Step(s, Correct(k));
    var s2 := Step(s1, Correct(k));
    NextTurn(s, k, 4);
    NextTurn(s1, k, 3);
    NextTurn(s2, k, 2);
    NextTurn(Step(s2, Correct(k)), k, 1);
  }

  lemma ThreeTurns(s: State, k: nat)
    ensures Run(s, TurnsOf(k, 3)) == Step(Step(Step(s, Correct(k)), Correct(k)), Correct(k))
  {
    var s1 := Step(s, Correct(k));
    NextTurn(s, k, 3);
    NextTurn(s1, k, 2);
    NextTurn(Step(s1, Correct(k)), k, 1);
  }

  lemma TwoTurns(s: State, k: nat)
    ensures Run(s, TurnsOf(k, 2)) == Step(Step(s, Correct(k)), Correct(k))
  {
    NextTurn(s, k, 2);
    NextTurn(Step(s, Correct(k)), k, 1);
  }

  /** A schedule in which only correction threads have turns. */
  ghost predicate OnlyCorrections(schedule: seq<Turn>) {
    forall n :: 0 <= n < |schedule| ==> schedule[n].Correct?
  }

  lemma {:induction false} CorrectionsLeaveUntouched(s: State, schedule: seq<Turn>)
    requires OnlyCorrections(schedule)
    ensures UntouchedRun(s, schedule)
    decreases |schedule|
  {
    if schedule != [] {
      assert forall n :: 0 <= n < |schedule[1..]| ==> schedule[1..][n] == schedule[n + 1];
      CorrectionsLeaveUntouched(Step(s, schedule[0]), schedule[1..]);
    }
  }

  lemma {:induction false} TurnsAreCorrections(k: nat, turns: nat)
    ensures OnlyCorrections(TurnsOf(k, turns))
  {
    if turns > 0 {
      TurnsAreCorrections(k, turns - 1);
    }
  }

  /** `s` is `base` except that correction thread `k` has become `r`, the gyroscope of
      that thread stands at `gyro`, and something else that does not matter here. */
  ghost predicate Since(base: State, s: State, k: nat, r: Corrector, gas: nat, gyro: int) {
    && k < |base.correctors| && r.cell == base.correctors[k].cell < |base.world.gyros| == |base.world.on|
    && s.correctors == base.correctors[k := r] && s.fuel.gas == gas
    && |s.world.on| == |base.world.on| && s.world.gyros == base.world.gyros[r.cell := gyro]
  }

  /** A thread that finds its gyroscope deflected gets to `sem_gas`. */
  lemma Looks(base: State, s: State, k: nat, r: Corrector, gyro: int)
    requires Since(base, s, k, r, 1, gyro) && r.pc.GWaitOwn? && r.own > 0 && gyro != 0
    ensures Since(base, Run(s, TurnsOf(k, 3)), k, r.(pc := GWaitGas, own := r.own - 1), 1, gyro)
  {
    ThreeTurns(s, k);
  }

  /** Then it takes a unit of fuel, whatever the gyroscope has become meanwhile. */
  lemma Takes(base: State, s: State, k: nat, r: Corrector, gyro: int)
    requires Since(base, s, k, r, 1, gyro) && r.pc.GWaitGas?
    ensures Since(base, Run(s, TurnsOf(k, 4)), k, r.(pc := GSign, ticks := r.ticks + 1), 1, gyro)
  {
    FourTurns(s, k);
  }

  /** Where a correction moves a gyroscope: away from zero, if it is level by now. */
  function Corrected(gyro: int): int {
    if gyro > 0 then gyro - 1 else gyro + 1
  }

  lemma Moves(base: State, s: State, k: nat, r: Corrector, gyro: int)
    requires Since(base, s, k, r, 1, gyro) && r.pc.GSign?
    ensures Since(base, Run(s, TurnsOf(k, 3)), k, r.(pc := GPostOwn), 1, Corrected(gyro))
  {
    ThreeTurns(s, k);
  }

  /** And goes to look again. */
  lemma Returns(base: State, s: State, k: nat, r: Corrector, gyro: int)
    requires Since(base, s, k, r, 1, gyro) && r.pc.GPostOwn?
    ensures Since(base, Run(s, TurnsOf(k, 2)), k, r.(pc := GWaitOwn, own := r.own + 1), 1, gyro)
  {
    TwoTurns(s, k);
  }

  /** From `sem_gas` to the post of its own semaphore. */
  lemma TakesAndMoves(base: State, s: State, k: nat, r: Corrector, gyro: int) returns (turns: seq<Turn>)
    requires Since(base, s, k, r, 1, gyro) && r.pc.GWaitGas?
    ensures OnlyCorrections(turns)
    ensures Since(base, Run(s, turns), k, r.(pc := GPostOwn, ticks := r.ticks + 1), 1, Corrected(gyro))
  {
    turns := TurnsOf(k, 4) + TurnsOf(k, 3);
    TurnsAreCorrections(k, 4);
    TurnsAreCorrections(k, 3);
    RunBoth(s, TurnsOf(k, 4), TurnsOf(k, 3));
    Takes(base, s, k, r, gyro);
    Moves(base, Run(s, TurnsOf(k, 4)), k, r.(pc := GSign, ticks := r.ticks + 1), gyro);
  }

  /** From its own semaphore to the post of it, with one correction on the way. */
  lemma CorrectsOnce(base: State, s: State, k: nat, r: Corrector, gyro: int) returns (turns: seq<Turn>)
    requires Since(base, s, k, r, 1, gyro) && r.pc.GWaitOwn? && r.own > 0 && gyro != 0
    ensures OnlyCorrections(turns)
    ensures Since(base, Run(s, turns), k, r.(pc := GPostOwn, own := r.own - 1, ticks := r.ticks + 1), 1,
      Corrected(gyro))
  {
    TurnsAreCorrections(k, 3);
    Looks(base, s, k, r, gyro);
    var rest := TakesAndMoves(base, Run(s, TurnsOf(k, 3)), k, r.(pc := GWaitGas, own := r.own - 1), gyro);
    turns := TurnsOf(k, 3) + rest;
    RunBoth(s, TurnsOf(k, 3), rest);
  }

  /** The same, and back to its own semaphore. */
  lemma CorrectsAndReturns(base: State, s: State, k: nat, r: Corrector, gyro: int) returns (turns: seq<Turn>)
    requires Since(base, s, k, r, 1, gyro) && r.pc.GWaitOwn? && r.own > 0 && gyro != 0
    ensures OnlyCorrections(turns)
    ensures Since(base, Run(s, turns), k, r.(ticks := r.ticks + 1), 1, Corrected(gyro))
  {
    var once := CorrectsOnce(base, s, k, r, gyro);
    TurnsAreCorrections(k, 2);
    Returns(base, Run(s, once), k, r.(pc := GPostOwn, own := r.own - 1, ticks := r.ticks + 1), Corrected(gyro));
    turns := once + TurnsOf(k, 2);
    RunBoth(s, once, TurnsOf(k, 2));
  }

  /** Alone, a thread works a deflection down to one. */
  lemma {:induction false} WorksDown(base: State, s: State, k: nat, r: Corrector, gyro: int) returns (turns: seq<Turn>)
    requires Since(base, s, k, r, 1, gyro) && r.pc.GWaitOwn? && r.own > 0 && gyro != 0
    ensures OnlyCorrections(turns)
    ensures Since(base, Run(s, turns), k, r.(ticks := r.ticks + Abs(gyro) - 1), 1, Side(gyro))
    decreases Abs(gyro)
  {
    turns := [];
    if Abs(gyro) > 1 {
      var once := CorrectsAndReturns(base, s, k, r, gyro);
      var rest := WorksDown(base, Run(s, once), k, r.(ticks := r.ticks + 1), Corrected(gyro));
      turns := once + rest;
      RunBoth(s, once, rest);
    }
  }

  lemma Wakes(base: State, s: State, k: nat, r: Corrector, gyro: int)
    requires Since(base, s, k, r, 1, gyro) && r.pc.GPause?
    ensures Since(base, Run(s, TurnsOf(k, 1)), k, r.(pc := GWaitOwn), 1, gyro)
  {
  }

  /** The first thread wakes and works its gyroscope down to one. */
  lemma FirstWorks(s: State, j: nat, r: Corrector, gyro: int) returns (turns: seq<Turn>)
    requires Since(s, s, j, r, 1, gyro) && r.pc.GPause? && r.own > 0 && gyro != 0
    ensures OnlyCorrections(turns)
    ensures Since(s, Run(s, turns), j, r.(pc := GWaitOwn, ticks := r.ticks + Abs(gyro) - 1), 1, Side(gyro))
  {
    Wakes(s, s, j, r, gyro);
    TurnsAreCorrections(j, 1);
    var rest := WorksDown(s, Run(s, TurnsOf(j, 1)), j, r.(pc := GWaitOwn), gyro);
    turns := TurnsOf(j, 1) + rest;
    RunBoth(s, TurnsOf(j, 1), rest);
  }

  /** The second wakes and sees that it is still deflected. */
  lemma SecondLooks(s: State, k: nat, r: Corrector, gyro: int) returns (turns: seq<Turn>)
    requires Since(s, s, k, r, 1, gyro) && r.pc.GPause? && r.own > 0 && gyro != 0
    ensures OnlyCorrections(turns)
    ensures Since(s, Run(s, turns), k, r.(pc := GWaitGas, own := r.own - 1), 1, gyro)
  {
    Wakes(s, s, k, r, gyro);
    TurnsAreCorrections(k, 1);
    TurnsAreCorrections(k, 3);
    Looks(s, Run(s, TurnsOf(k, 1)), k, r.(pc := GWaitOwn), gyro);
    turns := TurnsOf(k, 1) + TurnsOf(k, 3);
    RunBoth(s, TurnsOf(k, 1), TurnsOf(k, 3));
  }

  /** Two threads at their pauses, both for gyroscope `cell`, which is deflected. */
  ghost predicate TwoAlive(s: State, j: nat, k: nat, cell: nat) {
    && j < |s.correctors| && k < |s.correctors| && j != k
    && s.fuel.gas == 1 && cell < |s.world.gyros| == |s.world.on| && s.world.gyros[cell] != 0
    && s.correctors[j].pc.GPause? && s.correctors[j].cell == cell && s.correctors[j].own > 0
    && s.correctors[k].pc.GPause? && s.correctors[k].cell == cell && s.correctors[k].own > 0
  }

  /** What the two have come to after the race, and what of the gyroscope. */
  ghost predicate Raced(s: State, now: State, j: nat, k: nat, cell: nat)
    requires TwoAlive(s, j, k, cell)
  {
    var first, second := s.correctors[j], s.correctors[k];
    && now.correctors == s.correctors[j := first.(pc := GPostOwn, own := first.own - 1,
                                                  ticks := first.ticks + Abs(s.world.gyros[cell]))]
                                     [k := second.(pc := GPostOwn, own := second.own - 1, ticks := second.ticks + 1)]
    && now.world.gyros == s.world.gyros[cell := 1]
  }

  function Side(gyro: int): int {
    if gyro > 0 then 1 else -1
  }

  /** Half-way through: both have seen the gyroscope off by one. */
  ghost predicate Poised(s: State, now: State, j: nat, k: nat, cell: nat)
    requires TwoAlive(s, j, k, cell)
  {
    var first, second := s.correctors[j], s.correctors[k];
    && now.correctors == s.correctors[j := first.(pc := GWaitOwn, ticks := first.ticks + Abs(s.world.gyros[cell]) - 1)]
                                     [k := second.(pc := GWaitGas, own := second.own - 1)]
    && now.fuel.gas == 1 && |now.world.on| == |s.world.on|
    && now.world.gyros == s.world.gyros[cell := Side(s.world.gyros[cell])]
  }

  /** The first works the deflection down to one, and the second sees it. */
  lemma FirstHalf(s: State, j: nat, k: nat, cell: nat) returns (turns: seq<Turn>)
    requires TwoAlive(s, j, k, cell)
    ensures OnlyCorrections(turns) && Poised(s, Run(s, turns), j, k, cell)
  {
    var gyro := s.world.gyros[cell];
    var works := FirstWorks(s, j, s.correctors[j], gyro);
    var s1 := Run(s, works);
    var looks := SecondLooks(s1, k, s.correctors[k], Side(gyro));
    turns := works + looks;
    RunBoth(s, works, looks);
  }

  /** The first takes it away, and the second, which now finds it not positive, adds one. */
  lemma SecondHalf(s: State, j: nat, k: nat, one: int) returns (turns: seq<Turn>)
    requires j < |s.correctors| && k < |s.correctors| && j != k && s.correctors[j].cell == s.correctors[k].cell
    requires Since(s, s, j, s.correctors[j], 1, one) && one == Side(one)
    requires s.correctors[j].pc.GWaitOwn? && s.correctors[j].own > 0 && s.correctors[k].pc.GWaitGas?
    ensures OnlyCorrections(turns)
    ensures
      var first, second := s.correctors[j], s.correctors[k];
      && Run(s, turns).correctors
         == s.correctors[j := first.(pc := GPostOwn, own := first.own - 1, ticks := first.ticks + 1)]
                        [k := second.(pc := GPostOwn, ticks := second.ticks + 1)]
      && Run(s, turns).world.gyros == s.world.gyros[first.cell := 1]
  {
    var takes := CorrectsOnce(s, s, j, s.correctors[j], one);
    var s1 := Run(s, takes);
    var adds := TakesAndMoves(s1, s1, k, s.correctors[k], 0);
    turns := takes + adds;
    RunBoth(s, takes, adds);
  }

  lemma Race(s: State, j: nat, k: nat, cell: nat) returns (turns: seq<Turn>)
    requires TwoAlive(s, j, k, cell)
    ensures OnlyCorrections(turns) && Raced(s, Run(s, turns), j, k, cell)
  {
    var before := FirstHalf(s, j, k, cell);
    var s1 := Run(s, before);
    var after := SecondHalf(s1, j, k, Side(s.world.gyros[cell]));
    turns := before + after;
    RunBoth(s, before, after);
  }

  /** After the race two units more are accounted for than there were. */
  lemma RaceUpsets(s: State, now: State, j: nat, k: nat, cell: nat)
    requires TwoAlive(s, j, k, cell) && Raced(s, now, j, k, cell) && Balances(s, cell, s.world.gyros[cell])
    ensures
      Sum(now.correctors, TicksAt(cell)) - Sum(now.correctors, PendingAt(cell)) + Abs(now.world.gyros[cell])
        == Abs(s.world.gyros[cell]) + 2
  {
    var first, second := s.correctors[j], s.correctors[k];
    var first' := first.(pc := GPostOwn, own := first.own - 1, ticks := first.ticks + Abs(s.world.gyros[cell]));
    var second' := second.(pc := GPostOwn, own := second.own - 1, ticks := second.ticks + 1);
    var half := s.correctors[j := first'];
    SumUpdate(s.correctors, j, first', TicksAt(cell));
    SumUpdate(half, k, second', TicksAt(cell));
    SumUpdate(s.correctors, j, first', PendingAt(cell));
    SumUpdate(half, k, second', PendingAt(cell));
  }

  lemma StartBalances(s: State, cell: nat)
    requires IsStart(s) && cell < |s.world.gyros|
    ensures Balances(s, cell, s.world.gyros[cell])
  {
    SumZero(s.correctors, TicksAt(cell));
    SumZero(s.correctors, PendingAt(cell));
  }

  /** More than one live thread: here are two of them. */
  lemma {:induction false} TwoOf(rs: seq<Corrector>, cell: nat) returns (j: nat, k: nat)
    requires Sum(rs, LiveAt(cell)) > 1
    ensures j < k < |rs| && rs[j].cell == cell && rs[k].cell == cell
  {
    if LiveAt(cell)(rs[0]) > 0 {
      j := 0;
      k := SumWitness(rs[1..], LiveAt(cell));
      k := k + 1;
    } else {
      j, k := TwoOf(rs[1..], cell);
      j, k := j + 1, k + 1;
    }
  }

  /** Each thread's copy of its semaphore was made when the semaphore was free. */
  ghost predicate FreeCopies(s: State) {
    forall k :: 0 <= k < |s.correctors| ==> s.correctors[k].own > 0
  }

  /** With two live threads for a deflected gyroscope there is a run that spends two
      units more than it corrects. */
  lemma TwoThreadsUpset(s: State, cell: nat) returns (schedule: seq<Turn>)
    requires IsStart(s) && WellFormed(s) && FreeCopies(s)
    requires cell < |s.world.gyros| && s.world.gyros[cell] != 0 && Sum(s.correctors, LiveAt(cell)) > 1
    ensures UntouchedRun(s, schedule) && |Run(s, schedule).world.gyros| == |s.world.gyros|
    ensures
      var now := Run(s, schedule);
      Sum(now.correctors, TicksAt(cell)) - Sum(now.correctors, PendingAt(cell)) + Abs(now.world.gyros[cell])
        == Abs(s.world.gyros[cell]) + 2
  {
    var j, k := TwoOf(s.correctors, cell);
    schedule := Race(s, j, k, cell);
    CorrectionsLeaveUntouched(s, schedule);
    StartBalances(s, cell);
    RaceUpsets(s, Run(s, schedule), j, k, cell);
  }

  /** The exact condition: every run without creations and simulator writes keeps every
      gyroscope's account if and only if each gyroscope that is deflected at the start
      has at most one live correction thread. */
  lemma BalanceExactlyWhen(s: State)
    requires IsStart(s) && WellFormed(s) && FreeCopies(s)
    ensures AlwaysBalances(s) <==> OneEach(s)
  {
    if OneEach(s) {
      OneEachBalances(s);
    } else {
      var cell: nat :| cell < |s.world.gyros| && s.world.gyros[cell] != 0 && Sum(s.correctors, LiveAt(cell)) > 1;
      var schedule := TwoThreadsUpset(s, cell);
      assert !Balances(Run(s, schedule), cell, s.world.gyros[cell]);
    }
  }

  /** So restarting the correction thread of one gyroscope, in a state in which every
      deflected one has at most one, keeps the accounts safe if and only if that
      gyroscope is level or has no live thread: the restart does not wait for the
      cancellation to take effect, and has to. */
  lemma RestartExactlyWhen(s: State, cell: nat)
    requires IsStart(s) && OneEach(s) && FreeCopies(s) && cell < |s.world.gyros| && s.world.gs[cell] > 0
    ensures AlwaysBalances(Step(s, Create(cell))) <==> MayCreate(s, cell)
  {
    var s' := Step(s, Create(cell));
    RestartCounts(s, cell);
    BalanceExactlyWhen(s');
  }

  lemma RestartCounts(s: State, cell: nat)
    requires IsStart(s) && OneEach(s) && FreeCopies(s) && cell < |s.world.gyros| && s.world.gs[cell] > 0
    ensures
      var s' := Step(s, Create(cell));
      IsStart(s') && WellFormed(s') && FreeCopies(s') && (OneEach(s') <==> MayCreate(s, cell))
  {
    var r, s' := NewCorrector(cell, s.world), Step(s, Create(cell));
    assert s'.correctors == s.correctors + [r];
    forall c: nat | c < |s.world.gyros|
      ensures Sum(s'.correctors, LiveAt(c)) == Sum(s.correctors, LiveAt(c)) + (if c == cell then 1 else 0)
    {
      SumAppend(s.correctors, r, LiveAt(c));
    }
    SumNonNegative(s.correctors, LiveAt(cell));
  }

  /** The state that `main` builds: one thread for each gyroscope. */
  ghost predicate JustBuilt(s: State) {
    && IsStart(s) && |s.world.gyros| == |s.world.on| == |s.world.gs| == |s.correctors|
    && forall i :: 0 <= i < |s.correctors| ==> s.correctors[i] == Corrector(i, GPause, 1, 0) && s.world.gs[i] == 1
  }

  lemma BuiltIsSafe(s: State)
    requires JustBuilt(s)
    ensures OneEach(s) && FreeCopies(s) && AlwaysBalances(s)
  {
    forall cell: nat | cell < |s.world.gyros| && s.world.gyros[cell] != 0
      ensures Sum(s.correctors, LiveAt(cell)) <= 1
    {
      if Sum(s.correctors, LiveAt(cell)) > 1 {
        var j, k := TwoOf(s.correctors, cell);
      }
    }
    OneEachBalances(s);
  }

  /** Alarm 103 before anything else: the accounts are safe as built, and no longer so
      once the thread of a deflected gyroscope is replaced while its cancellation is
      pending. */
  lemma PendingCancellationUpsets(s: State, cell: nat)
    requires JustBuilt(s) && cell < |s.world.gyros|
    ensures AlwaysBalances(s)
    ensures AlwaysBalances(Step(s, Create(cell))) <==> s.world.gyros[cell] == 0
  {
    BuiltIsSafe(s);
    RestartExactlyWhen(s, cell);
    SumAtLeast(s.correctors, cell, LiveAt(cell));
  }
}
