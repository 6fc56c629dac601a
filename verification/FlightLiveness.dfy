/** Nobody waits for ever for the engine, the climb, the fuel test, the corrections or those
    who only look: as long as the rest of the controller has given their semaphores back, each
    of them can be brought to its next statement. A look at the altitude is taken to end by
    itself; one of the controller's takes more semaphores before it does. */
module FlightLiveness {
  import opened Counting
  import opened FlightControl
  import opened FlightLedger
  import opened FlightCycles

  // ---------- what is so as long as nobody interferes ----------

  ghost predicate CellsExist(s: State) {
    forall k :: 0 <= k < |s.correctors| ==> s.correctors[k].cell < |s.world.gs|
  }

  /** Every semaphore is free or with just one of the threads. */
  ghost predicate Sound(s: State, altitude: int, fuel: int) {
    && AltitudeInv(s, altitude) && FuelInv(s, fuel) && InLoops(s) && CellsExist(s) && ActionUnits(s) == 1
    && forall cell: nat :: cell < |s.world.gs| ==> GsUnits(s, cell) == 1
  }

  /** Nobody has a turn but the threads that keep the accounts. */
  ghost predicate Quiet(schedule: seq<Turn>) {
    forall n :: 0 <= n < |schedule| ==> IsOwnTurn(schedule[n])
  }

  predicate IsOwnTurn(t: Turn) {
    t.Engine? || t.Climb? || t.Watch? || t.Read? || t.Correct?
  }

  lemma StepKeepsCells(s: State, t: Turn)
    requires InLoops(s) && CellsExist(s)
    ensures CellsExist(Step(s, t))
  {
  }

  lemma StepKeepsSound(s: State, t: Turn, altitude: int, fuel: int)
    requires Sound(s, altitude, fuel) && !t.Elsewhere?
    ensures Sound(Step(s, t), altitude, fuel)
  {
    StepKeepsAltitude(s, t, altitude);
    StepKeepsFuel(s, t, fuel);
    StepStaysInLoops(s, t);
    StepKeepsCells(s, t);
    ActionTurn(s, t);
    forall cell: nat | cell < |s.world.gs|
      ensures GsUnits(Step(s, t), cell) == 1
    {
      GsTurn(s, t, cell);
    }
  }

  lemma {:induction false} RunKeepsCells(s: State, schedule: seq<Turn>)
    requires InLoops(s) && CellsExist(s)
    ensures CellsExist(Run(s, schedule))
    decreases |schedule|
  {
    if schedule != [] {
      StepStaysInLoops(s, schedule[0]);
      StepKeepsCells(s, schedule[0]);
      RunKeepsCells(Step(s, schedule[0]), schedule[1..]);
    }
  }

  /** The start of a program whose semaphores are all free. */
  ghost predicate AllFree(s: State) {
    IsStart(s) && InLoops(s) && CellsExist(s) && s.world.action == 1
    && forall cell :: 0 <= cell < |s.world.gs| ==> s.world.gs[cell] == 1
  }

  /** The rest of the controller has given back what it has taken. */
  ghost predicate GivenBack(s: State, schedule: seq<Turn>) {
    && Drift(s, schedule, ACTION) == 0
    && forall cell: nat :: cell < |s.world.gs| ==> Drift(s, schedule, GsOf(cell)) == 0
  }

  lemma RunIsSound(s: State, schedule: seq<Turn>)
    requires AllFree(s) && GivenBack(s, schedule)
    ensures Sound(Run(s, schedule), s.height.distance, s.fuel.gasoline)
  {
    StartAltitude(s);
    StartFuel(s);
    RunKeepsAltitude(s, schedule, s.height.distance);
    RunKeepsFuel(s, schedule, s.fuel.gasoline);
    RunStaysInLoops(s, schedule);
    RunKeepsCells(s, schedule);
    ActionLedger(s, schedule);
    forall cell: nat | cell < |s.world.gs|
      ensures GsUnits(Run(s, schedule), cell) == 1
    {
      GsLedger(s, schedule, cell);
    }
  }

  // ---------- those who wait are not moved meanwhile ----------

  ghost predicate WaitersStay(s: State, s': State) {
    && (s.climber.pc.CWaitDist? || s.climber.pc.CWaitAction? ==> s'.climber == s.climber)
    && (s.watcher.XWaitGas? ==> s'.watcher == s.watcher)
    && |s'.readers| == |s.readers| && |s'.correctors| == |s.correctors|
    && (forall i :: 0 <= i < |s.readers| && s.readers[i].DWaitDist? ==> s'.readers[i] == s.readers[i])
    && (forall k :: 0 <= k < |s.correctors| && s.correctors[k].pc.GWaitGas? ==> s'.correctors[k] == s.correctors[k])
  }

  lemma WaitersStayOn(s: State, s': State, s'': State)
    requires WaitersStay(s, s') && WaitersStay(s', s'')
    ensures WaitersStay(s, s'')
  {
  }

  /** `t` is the next statement of a thread that holds a semaphore, or of the engine. */
  predicate HolderMoves(s: State, t: Turn) {
    match t
    case Engine => true
    case Climb => ClimberHoldsDist(s.climber.pc) == 1 || ClimberHoldsAction(s.climber.pc) == 1
    case Watch => WatcherHoldsGas(s.watcher) == 1
    case Read(i) => i < |s.readers| && ReaderHoldsDist(s.readers[i]) == 1
    case Correct(k) => k < |s.correctors| && CorrectorHoldsGas(s.correctors[k]) == 1
    case _ => false
  }

  lemma HolderLeavesWaiters(s: State, t: Turn)
    requires HolderMoves(s, t)
    ensures WaitersStay(s, Step(s, t))
  {
    assert s.correctors + [] == s.correctors;
  }

  /** How `more` leads on from `s`. */
  ghost predicate LeadsOn(s: State, more: seq<Turn>, altitude: int, fuel: int) {
    Quiet(more) && Sound(Run(s, more), altitude, fuel) && WaitersStay(s, Run(s, more))
  }

  /** First one statement of a holder, then `rest`. */
  lemma HolderLeadsOn(s: State, t: Turn, rest: seq<Turn>, altitude: int, fuel: int)
    requires HolderMoves(s, t) && LeadsOn(Step(s, t), rest, altitude, fuel)
    ensures LeadsOn(s, [t] + rest, altitude, fuel) && Run(s, [t] + rest) == Run(Step(s, t), rest)
  {
    HolderLeavesWaiters(s, t);
    WaitersStayOn(s, Step(s, t), Run(Step(s, t), rest));
    assert ([t] + rest)[1..] == rest;
  }

  lemma BothLeadOn(s: State, first: seq<Turn>, second: seq<Turn>, altitude: int, fuel: int)
    requires LeadsOn(s, first, altitude, fuel) && LeadsOn(Run(s, first), second, altitude, fuel)
    ensures LeadsOn(s, first + second, altitude, fuel)
    ensures Run(s, first + second) == Run(Run(s, first), second)
  {
    RunBoth(s, first, second);
    WaitersStayOn(s, Run(s, first), Run(Run(s, first), second));
  }

  // ---------- each semaphore can be brought to be free ----------

  function EngineGasLeft(pc: EnginePc): int {
    match pc
    case EChoose => 4
    case ELoadGas(_) => 3
    case EStoreGas(_, _) => 2
    case EPostGas => 1
    case _ => 0
  }

  function WatcherGasLeft(pc: WatcherPc): int { if pc.XTest? then 2 else if pc.XPostGas? then 1 else 0 }

  function CorrectorGasLeft(r: Corrector): int {
    match r.pc
    case GLoadGas => 3
    case GStoreGas(_) => 2
    case GPostGas => 1
    case _ => 0
  }

  /** Statements until those who hold `sem_gas` have posted it. */
  function GasLeft(s: State): int {
    EngineGasLeft(s.engine) + WatcherGasLeft(s.watcher) + Sum(s.correctors, CorrectorGasLeft)
  }

  /** Whoever holds `sem_gas` can move, and gets nearer to its post. */
  lemma GasHolder(s: State, altitude: int, fuel: int) returns (t: Turn)
    requires Sound(s, altitude, fuel) && s.fuel.gas == 0
    ensures HolderMoves(s, t) && (t.Engine? || t.Watch? || t.Correct?) && GasLeft(Step(s, t)) < GasLeft(s)
    ensures EngineHoldsGas(s.engine) == 0 ==> Step(s, t).engine == s.engine
    ensures Step(s, t).height == s.height && Step(s, t).world == s.world && Step(s, t).climber == s.climber
    ensures Step(s, t).readers == s.readers
  {
    if EngineHoldsGas(s.engine) == 1 {
      t := Engine;
    } else if WatcherHoldsGas(s.watcher) == 1 {
      t := Watch;
    } else {
      var k := SumWitness(s.correctors, CorrectorHoldsGas);
      t := Correct(k);
      SumUpdate(s.correctors, k, CorrectorNext(s.correctors[k], s.fuel, s.world), CorrectorGasLeft);
    }
  }

  lemma {:induction false} FreeGas(s: State, altitude: int, fuel: int) returns (more: seq<Turn>)
    requires Sound(s, altitude, fuel)
    ensures LeadsOn(s, more, altitude, fuel) && Run(s, more).fuel.gas > 0
    ensures EngineHoldsGas(s.engine) == 0 ==> Run(s, more).engine == s.engine
    ensures Run(s, more).height == s.height && Run(s, more).world == s.world
    decreases GasLeft(s)
  {
    SumNonNegative(s.correctors, CorrectorGasLeft);
    if s.fuel.gas > 0 {
      more := [];
    } else {
      var t := GasHolder(s, altitude, fuel);
      StepKeepsSound(s, t, altitude, fuel);
      var rest := FreeGas(Step(s, t), altitude, fuel);
      more := [t] + rest;
      HolderLeadsOn(s, t, rest, altitude, fuel);
    }
  }

  function ClimberDistLeft(pc: ClimberPc): int {
    match pc
    case CTest => 5
    case CLoad => 4
    case CStore(_) => 3
    case CBump => 2
    case CPostTick => 1
    case CReset => 2
    case CPostDone => 1
    case _ => 0
  }

  function ReaderDistLeft(pc: ReaderPc): int { if pc.DLook? then 2 else if pc.DPostDist? then 1 else 0 }

  /** The same for `sem_dist`, while the engine does not hold it. */
  function DistLeft(s: State): int {
    ClimberDistLeft(s.climber.pc) + Sum(s.readers, ReaderDistLeft)
  }

  lemma DistHolder(s: State, altitude: int, fuel: int) returns (t: Turn)
    requires Sound(s, altitude, fuel) && s.height.dist == 0 && EngineHoldsDist(s.engine) == 0
    ensures HolderMoves(s, t) && (t.Climb? || t.Read?) && DistLeft(Step(s, t)) < DistLeft(s)
    ensures Step(s, t).engine == s.engine
  {
    if ClimberHoldsDist(s.climber.pc) == 1 {
      t := Climb;
    } else {
      var i := SumWitness(s.readers, ReaderHoldsDist);
      t := Read(i);
      SumUpdate(s.readers, i, ReaderNext(s.readers[i]), ReaderDistLeft);
    }
  }

  lemma {:induction false} FreeDist(s: State, altitude: int, fuel: int) returns (more: seq<Turn>)
    requires Sound(s, altitude, fuel) && EngineHoldsDist(s.engine) == 0
    ensures LeadsOn(s, more, altitude, fuel) && Run(s, more).height.dist > 0 && Run(s, more).engine == s.engine
    decreases DistLeft(s)
  {
    SumNonNegative(s.readers, ReaderDistLeft);
    if s.height.dist > 0 {
      more := [];
    } else {
      var t := DistHolder(s, altitude, fuel);
      StepKeepsSound(s, t, altitude, fuel);
      var rest := FreeDist(Step(s, t), altitude, fuel);
      more := [t] + rest;
      HolderLeadsOn(s, t, rest, altitude, fuel);
    }
  }

  /** And `sem_action`, while the engine waits for it. */
  lemma {:induction false} FreeAction(s: State, altitude: int, fuel: int) returns (more: seq<Turn>)
    requires Sound(s, altitude, fuel) && s.engine.EWaitAction?
    ensures LeadsOn(s, more, altitude, fuel) && Run(s, more).world.action > 0 && Run(s, more).engine == s.engine
    decreases if s.climber.pc.CSetAction? then 2 else if s.climber.pc.CPostAction? then 1 else 0
  {
    if s.world.action > 0 {
      more := [];
    } else {
      StepKeepsSound(s, Climb, altitude, fuel);
      var rest := FreeAction(Step(s, Climb), altitude, fuel);
      more := [Climb] + rest;
      HolderLeadsOn(s, Climb, rest, altitude, fuel);
    }
  }

  // ---------- the engine ----------

  /** The engine never waits for `sem_gs`, and for the others not for ever. */
  lemma EngineCanMove(s: State, altitude: int, fuel: int) returns (more: seq<Turn>)
    requires Sound(s, altitude, fuel)
    ensures LeadsOn(s, more, altitude, fuel) && Run(s, more).engine == s.engine && Ready(Run(s, more), Engine)
  {
    match s.engine
    case EWaitDist => more := FreeDist(s, altitude, fuel);
    case EWaitAction => more := FreeAction(s, altitude, fuel);
    case EWaitGas => more := FreeGas(s, altitude, fuel);
    case EWaitGs(i) =>
      more := [];
      if i < |s.world.gs| {
        assert GsUnits(s, i) == 1;
      }
    case _ => more := [];
  }

  /** Statements of the engine until it is out of all its sections. */
  function UntilReport(pc: EnginePc, n: nat): int {
    var place := EnginePlace(pc, n);
    if place <= 2 * n + 10 then 2 * n + 10 - place else 4 * n + 26 - place
  }

  lemma EngineNearer(s: State)
    requires InLoops(s) && Ready(s, Engine) && !s.engine.EReport?
    ensures 0 <= UntilReport(Step(s, Engine).engine, |s.world.gs|) < UntilReport(s.engine, |s.world.gs|)
  {
    GuardAlwaysHolds(s.world.current);
  }

  /** So the engine can always be brought to finish its pass. */
  lemma {:induction false} EngineCanFinish(s: State, altitude: int, fuel: int) returns (more: seq<Turn>)
    requires Sound(s, altitude, fuel)
    ensures LeadsOn(s, more, altitude, fuel) && Run(s, more).engine.EReport?
    decreases UntilReport(s.engine, |s.world.gs|)
  {
    if s.engine.EReport? {
      more := [];
    } else {
      var first := EngineCanMove(s, altitude, fuel);
      var s1 := Run(s, first);
      var n := |s.world.gs|;
      SameShapeLater(s, first);
      EngineNearer(s1);
      StepKeepsSound(s1, Engine, altitude, fuel);
      StepStaysInLoops(s1, Engine);
      var rest := EngineCanFinish(Step(s1, Engine), altitude, fuel);
      HolderLeadsOn(s1, Engine, rest, altitude, fuel);
      BothLeadOn(s, first, [Engine] + rest, altitude, fuel);
      more := first + ([Engine] + rest);
    }
  }

  lemma SameShapeLater(s: State, more: seq<Turn>)
    requires InLoops(s)
    ensures |Run(s, more).world.gs| == |s.world.gs|
  {
    RunStaysInLoops(s, more);
  }

  // ---------- everyone ----------

  /** `sem_dist` can be brought to be free, also if the engine holds it. */
  lemma FreeDistOfEngine(s: State, altitude: int, fuel: int) returns (more: seq<Turn>)
    requires Sound(s, altitude, fuel)
    ensures LeadsOn(s, more, altitude, fuel) && Run(s, more).height.dist > 0
  {
    var first := EngineCanFinish(s, altitude, fuel);
    var second := FreeDist(Run(s, first), altitude, fuel);
    BothLeadOn(s, first, second, altitude, fuel);
    more := first + second;
  }

  /** A thread that there is, is not cancelled, and does not wait for an own copy of its
      semaphore that is zero: that copy nobody else can post. */
  predicate Lives(s: State, who: Turn) {
    match who
    case Engine => true
    case Climb => true
    case Watch => true
    case Read(i) => i < |s.readers|
    case Correct(k) =>
      && k < |s.correctors| && !s.correctors[k].pc.GCancelled?
      && (s.correctors[k].pc.GWaitOwn? ==> s.correctors[k].own > 0)
    case _ => false
  }

  lemma SoundCanMove(s: State, who: Turn, altitude: int, fuel: int) returns (more: seq<Turn>)
    requires Sound(s, altitude, fuel) && Lives(s, who)
    ensures LeadsOn(s, more, altitude, fuel) && Ready(Run(s, more), who)
  {
    if Ready(s, who) {
      more := [];
    } else {
      match who
      case Engine => more := EngineCanMove(s, altitude, fuel);
      case Watch => more := FreeGas(s, altitude, fuel);
      case Correct(k) => more := FreeGas(s, altitude, fuel);
      case Read(i) => more := FreeDistOfEngine(s, altitude, fuel);
      case Climb =>
        if s.climber.pc.CWaitDist? {
          more := FreeDistOfEngine(s, altitude, fuel);
        } else {
          more := EngineCanFinish(s, altitude, fuel);
        }
    }
  }

  /** No trap: from every state that a run reaches, if the rest of the controller has given
      back what it has taken of the semaphores, every thread that lives can be brought to
      its next statement by turns of these threads alone. */
  lemma EveryoneCanMove(s: State, schedule: seq<Turn>, who: Turn) returns (more: seq<Turn>)
    requires AllFree(s) && GivenBack(s, schedule) && Lives(Run(s, schedule), who)
    ensures Quiet(more) && Ready(Run(Run(s, schedule), more), who)
  {
    RunIsSound(s, schedule);
    more := SoundCanMove(Run(s, schedule), who, s.height.distance, s.fuel.gasoline);
  }
}
