/** The accounts of altitude and fuel that the controller keeps over every run. */
module FlightLedger {
  import opened Counting
  import opened FlightControl

  // ---------- altitude ----------

  function EngineHoldsDist(pc: EnginePc): int { if pc.EWaitDist? || pc.EReport? then 0 else 1 }
  function ClimberHoldsDist(pc: ClimberPc): int {
    if pc.CTest? || pc.CLoad? || pc.CStore? || pc.CBump? || pc.CPostTick? || pc.CReset? || pc.CPostDone? then 1 else 0
  }
  function ReaderHoldsDist(pc: ReaderPc): int { if pc.DLook? || pc.DPostDist? then 1 else 0 }

  /** From the publication of the altitude until the engine leaves its section. */
  predicate Published(pc: EnginePc) {
    !(pc.EWaitDist? || pc.EReport? || pc.EWaitAction? || pc.EGuard? || pc.ELoadDist? || pc.EStoreDist? || pc.EPublish?)
  }

  predicate AltitudeOk(h: Height, e: EnginePc, c: Climber, readers: int, initial: int) {
    && h.dist + EngineHoldsDist(e) + ClimberHoldsDist(c.pc) + readers == 1
    && h.distance == initial - h.engineTicks + RATE_GO_UP * h.climbTicks
    && h.climbTicks == CLIMB_TICKS * h.climbs + c.time + (if c.pc.CBump? then 1 else 0)
    && c.time <= CLIMB_TICKS
    && (c.pc.CLoad? || c.pc.CStore? || c.pc.CBump? ==> c.time < CLIMB_TICKS)
    && (c.pc.CReset? ==> c.time == CLIMB_TICKS)
    && (e.EStoreDist? ==> e.seen == h.distance)
    && (c.pc.CStore? ==> c.pc.seen == h.distance)
    && (Published(e) ==> h.block == h.distance)
  }

  ghost predicate AltitudeInv(s: State, initial: int) {
    AltitudeOk(s.height, s.engine, s.climber, Sum(s.readers, ReaderHoldsDist), initial)
  }

  /** The engine's guard excludes nothing: no action is two events at once. */
  lemma GuardAlwaysHolds(current: int)
    ensures EngineGuard(current)
  {
  }

  lemma ReaderKeepsAltitude(s: State, i: nat, initial: int)
    requires AltitudeInv(s, initial) && Ready(s, Read(i))
    ensures AltitudeInv(Step(s, Read(i)), initial)
  {
    SumUpdate(s.readers, i, ReaderNext(s.readers[i]), ReaderHoldsDist);
  }

  lemma StepKeepsAltitude(s: State, t: Turn, initial: int)
    requires AltitudeInv(s, initial)
    ensures AltitudeInv(Step(s, t), initial)
  {
    if Ready(s, t) {
      SumNonNegative(s.readers, ReaderHoldsDist);
      match t
      case Read(i) => ReaderKeepsAltitude(s, i, initial);
      case _ =>
    }
  }

  lemma {:induction false} RunKeepsAltitude(s: State, schedule: seq<Turn>, initial: int)
    requires AltitudeInv(s, initial)
    ensures AltitudeInv(Run(s, schedule), initial)
    decreases |schedule|
  {
    if schedule != [] {
      StepKeepsAltitude(s, schedule[0], initial);
      RunKeepsAltitude(Step(s, schedule[0]), schedule[1..], initial);
    }
  }

  lemma StartAltitude(s: State)
    requires IsStart(s)
    ensures AltitudeInv(s, s.height.distance)
  {
    SumZero(s.readers, ReaderHoldsDist);
  }

  /** No update of the altitude is ever lost: at every instant of every run it is the
      initial one less one for each engine tick, plus 6 for each climb tick; every
      completed climb has added exactly 30; and what the engine publishes is current
      until it leaves its section. */
  lemma AltitudeLedger(s: State, schedule: seq<Turn>)
    requires IsStart(s)
    ensures
      var h, c := Run(s, schedule).height, Run(s, schedule).climber;
      && h.distance == s.height.distance - h.engineTicks + 6 * h.climbTicks
      && (!c.pc.CBump? ==> h.distance == s.height.distance - h.engineTicks + 30 * h.climbs + 6 * c.time)
      && c.time <= 5
      && (Published(Run(s, schedule).engine) ==> h.block == h.distance)
  {
    StartAltitude(s);
    RunKeepsAltitude(s, schedule, s.height.distance);
  }

  // ---------- fuel ----------

  function EngineHoldsGas(pc: EnginePc): int {
    if pc.EChoose? || pc.ELoadGas? || pc.EStoreGas? || pc.EPostGas? then 1 else 0
  }
  function WatcherHoldsGas(pc: WatcherPc): int { if pc.XTest? || pc.XPostGas? then 1 else 0 }
  function CorrectorHoldsGas(r: Corrector): int {
    if r.pc.GLoadGas? || r.pc.GStoreGas? || r.pc.GPostGas? then 1 else 0
  }
  function Ticks(r: Corrector): int { r.ticks }

  predicate FuelOk(f: Fuel, e: EnginePc, x: WatcherPc, holding: int, corrections: int, initial: int) {
    && f.gas + EngineHoldsGas(e) + WatcherHoldsGas(x) + holding == 1
    && f.gasoline == initial - corrections - 5 * f.accelerated - f.normal - (f.slowed - f.dry)
    && f.dry <= f.slowed
    && (f.gasoline > 0 ==> f.dry == 0)
    && (e.EStoreGas? ==> e.level == f.gasoline)
    && (x.XPostGas? ==> (x.abort <==> f.gasoline < 10))
  }

  predicate SeesFuel(r: Corrector, gasoline: int) {
    r.pc.GStoreGas? ==> r.pc.level == gasoline
  }

  ghost predicate FuelInv(s: State, initial: int) {
    && FuelOk(s.fuel, s.engine, s.watcher, Sum(s.correctors, CorrectorHoldsGas), Sum(s.correctors, Ticks), initial)
    && forall k :: 0 <= k < |s.correctors| ==> SeesFuel(s.correctors[k], s.fuel.gasoline)
  }

  /** Half a unit, subtracted from an `int`, is a whole unit while there is fuel and
      nothing at all after that. */
  lemma SlowTick(level: int)
    ensures Burnt(Slowing, level) == if level > 0 then level - 1 else level
  {
  }

  /** Who is about to store the fuel level has `sem_gas`, so nobody else has. */
  lemma StoresFuelAlone(s: State, k: nat, initial: int)
    requires FuelInv(s, initial) && k < |s.correctors|
    requires s.correctors[k].pc.GStoreGas?
    ensures !s.engine.EStoreGas?
    ensures forall j :: 0 <= j < |s.correctors| && j != k ==> !s.correctors[j].pc.GStoreGas?
  {
    SumAtLeast(s.correctors, k, CorrectorHoldsGas);
    forall j | 0 <= j < |s.correctors| && j != k
      ensures !s.correctors[j].pc.GStoreGas?
    {
      if s.correctors[j].pc.GStoreGas? {
        SumAtLeastTwo(s.correctors, if j < k then j else k, if j < k then k else j, CorrectorHoldsGas);
      }
    }
  }

  lemma EngineStepKeepsFuel(s: State, initial: int)
    requires FuelInv(s, initial) && Ready(s, Engine)
    ensures FuelInv(Step(s, Engine), initial) && Step(s, Engine).fuel.gasoline <= s.fuel.gasoline
  {
    SumNonNegative(s.correctors, CorrectorHoldsGas);
    forall k | 0 <= k < |s.correctors|
      ensures SeesFuel(s.correctors[k], EngineFuel(s.engine, s.fuel).gasoline)
    {
      if s.correctors[k].pc.GStoreGas? {
        StoresFuelAlone(s, k, initial);
      }
    }
  }

  lemma CorrectorStepKeepsFuel(s: State, k: nat, initial: int)
    requires FuelInv(s, initial) && Ready(s, Correct(k))
    ensures FuelInv(Step(s, Correct(k)), initial) && Step(s, Correct(k)).fuel.gasoline <= s.fuel.gasoline
  {
    var r, s' := s.correctors[k], Step(s, Correct(k));
    SumAtLeast(s.correctors, k, CorrectorHoldsGas);
    SumUpdate(s.correctors, k, s'.correctors[k], CorrectorHoldsGas);
    SumUpdate(s.correctors, k, s'.correctors[k], Ticks);
    forall j | 0 <= j < |s'.correctors|
      ensures SeesFuel(s'.correctors[j], s'.fuel.gasoline)
    {
      if j != k && r.pc.GStoreGas? {
        StoresFuelAlone(s, k, initial);
      }
      assert j != k ==> SeesFuel(s.correctors[j], s.fuel.gasoline);
    }
  }

  lemma CancelKeepsFuel(s: State, k: nat, initial: int)
    requires FuelInv(s, initial) && Ready(s, Cancel(k))
    ensures FuelInv(Step(s, Cancel(k)), initial)
  {
    SumUpdate(s.correctors, k, s.correctors[k].(pc := GCancelled), CorrectorHoldsGas);
    SumUpdate(s.correctors, k, s.correctors[k].(pc := GCancelled), Ticks);
  }

  /** A new correction thread holds nothing and has taken nothing. */
  lemma CreateKeepsFuel(s: State, s': State, cell: nat, initial: int)
    requires FuelInv(s, initial) && s'.correctors == s.correctors + [NewCorrector(cell, s.world)]
    requires s'.fuel == s.fuel && s'.engine == s.engine && s'.watcher == s.watcher
    ensures FuelInv(s', initial)
  {
    SumAppend(s.correctors, NewCorrector(cell, s.world), CorrectorHoldsGas);
    SumAppend(s.correctors, NewCorrector(cell, s.world), Ticks);
  }

  lemma StepKeepsFuel(s: State, t: Turn, initial: int)
    requires FuelInv(s, initial)
    ensures FuelInv(Step(s, t), initial) && Step(s, t).fuel.gasoline <= s.fuel.gasoline
  {
    if Ready(s, t) {
      match t
      case Engine => EngineStepKeepsFuel(s, initial);
      case Correct(k) => CorrectorStepKeepsFuel(s, k, initial);
      case Cancel(k) => CancelKeepsFuel(s, k, initial);
      case Create(cell) => CreateKeepsFuel(s, Step(s, t), cell, initial);
      case Climb => ClimbKeepsFuel(s, initial);
      case _ =>
    }
  }

  lemma ClimbKeepsFuel(s: State, initial: int)
    requires FuelInv(s, initial) && Ready(s, Climb)
    ensures FuelInv(Step(s, Climb), initial) && Step(s, Climb).fuel == s.fuel
  {
    if ClimberCreates(s.climber.pc, s.world) != [] {
      CreateKeepsFuel(s, Step(s, Climb), s.climber.pc.i, initial);
    } else {
      assert s.correctors + [] == s.correctors;
    }
  }

  lemma {:induction false} RunKeepsFuel(s: State, schedule: seq<Turn>, initial: int)
    requires FuelInv(s, initial)
    ensures FuelInv(Run(s, schedule), initial) && Run(s, schedule).fuel.gasoline <= s.fuel.gasoline
    decreases |schedule|
  {
    if schedule != [] {
      StepKeepsFuel(s, schedule[0], initial);
      RunKeepsFuel(Step(s, schedule[0]), schedule[1..], initial);
    }
  }

  lemma StartFuel(s: State)
    requires IsStart(s)
    ensures FuelInv(s, s.fuel.gasoline)
  {
    SumZero(s.correctors, CorrectorHoldsGas);
    SumZero(s.correctors, Ticks);
  }

  /** Fuel is spent on the engine's ticks and on corrections and on nothing else, and
      no unit is spent twice or lost, whatever the schedule. While there is fuel left,
      a slow tick has cost as much as a normal one. */
  lemma FuelLedger(s: State, schedule: seq<Turn>)
    requires IsStart(s)
    ensures
      var f, corrections := Run(s, schedule).fuel, Sum(Run(s, schedule).correctors, Ticks);
      && s.fuel.gasoline - f.gasoline == corrections + 5 * f.accelerated + f.normal + (f.slowed - f.dry)
      && (f.gasoline > 0 ==> s.fuel.gasoline - f.gasoline == corrections + 5 * f.accelerated + f.normal + f.slowed)
  {
    StartFuel(s);
    RunKeepsFuel(s, schedule, s.fuel.gasoline);
  }

  // ---------- the fuel test ----------

  /** What the watcher has found is so, from its test until it posts `sem_gas`: it is on
      its way to the abort if and only if the fuel is below ten. */
  lemma AbortsExactlyWhen(s: State, schedule: seq<Turn>)
    requires IsStart(s)
    ensures
      var now := Run(s, schedule);
      now.watcher.XPostGas? ==> (now.watcher.abort <==> now.fuel.gasoline < 10)
  {
    StartFuel(s);
    RunKeepsFuel(s, schedule, s.fuel.gasoline);
  }

  lemma {:induction false} RunBoth(s: State, first: seq<Turn>, second: seq<Turn>)
    ensures Run(s, first + second) == Run(Run(s, first), second)
    decreases |first|
  {
    if first == [] {
      assert first + second == second;
    } else {
      assert (first + second)[1..] == first[1..] + second;
      RunBoth(Step(s, first[0]), first[1..], second);
    }
  }

  /** The abort latches: once the fuel is below ten, at whatever point of a run, every
      later test ends in an abort. */
  lemma AbortLatches(s: State, schedule: seq<Turn>, later: seq<Turn>)
    requires IsStart(s) && Run(s, schedule).fuel.gasoline < 10
    ensures Run(Run(s, schedule), later).watcher.XPostGas? ==> Run(Run(s, schedule), later).watcher.abort
  {
    StartFuel(s);
    RunKeepsFuel(s, schedule, s.fuel.gasoline);
    RunKeepsFuel(Run(s, schedule), later, s.fuel.gasoline);
  }

  /** And before that none does: a run that ends with ten units or more has not come to
      an abort at any point. */
  lemma NoAbortWithFuel(s: State, schedule: seq<Turn>, n: nat)
    requires IsStart(s) && n <= |schedule| && Run(s, schedule).fuel.gasoline >= 10
    ensures Run(s, schedule[..n]).watcher != XPostGas(true)
  {
    AbortsExactlyWhen(s, schedule[..n]);
    FuelFalls(s, schedule[..n], schedule[n..]);
    assert schedule[..n] + schedule[n..] == schedule;
  }

  lemma FuelFalls(s: State, first: seq<Turn>, second: seq<Turn>)
    requires IsStart(s)
    ensures Run(s, first + second).fuel.gasoline <= Run(s, first).fuel.gasoline
  {
    StartFuel(s);
    RunKeepsFuel(s, first, s.fuel.gasoline);
    RunKeepsFuel(Run(s, first), second, s.fuel.gasoline);
    RunBoth(s, first, second);
  }

  // ---------- what a tick costs, by the action and the flags ----------

  /** From the choice of the power to the post of `sem_gas` nobody else stores the fuel. */
  lemma OthersLeaveFuel(s: State, t: Turn, initial: int)
    requires FuelInv(s, initial) && EngineHoldsGas(s.engine) == 1 && t != Engine
    ensures Step(s, t).fuel.gasoline == s.fuel.gasoline && Step(s, t).engine == s.engine
  {
    SumNonNegative(s.correctors, CorrectorHoldsGas);
    if t.Correct? && t.k < |s.correctors| {
      SumAtLeast(s.correctors, t.k, CorrectorHoldsGas);
    }
  }

  /** The engine has chosen a power that costs `cost` units of the `level` there is, and
      has `left` statements before it until it posts `sem_gas`. */
  ghost predicate Spending(s: State, level: int, cost: int, left: int) {
    match s.engine
    case ELoadGas(mode) => left == 2 && s.fuel.gasoline == level && Burnt(mode, level) == level - cost
    case EStoreGas(mode, seen) =>
      left == 1 && s.fuel.gasoline == seen == level && Burnt(mode, level) == level - cost
    case EPostGas => left == 0 && s.fuel.gasoline == level - cost
    case _ => false
  }

  lemma {:induction false} SpendsItsCost(s: State, schedule: seq<Turn>, initial: int, level: int, cost: int, left: nat)
    requires FuelInv(s, initial) && Spending(s, level, cost, left) && multiset(schedule)[Engine] == left
    ensures Spending(Run(s, schedule), level, cost, 0)
    decreases |schedule|
  {
    if schedule != [] {
      var t := schedule[0];
      assert schedule == [t] + schedule[1..];
      StepKeepsFuel(s, t, initial);
      if t == Engine {
        SpendsItsCost(Step(s, t), schedule[1..], initial, level, cost, left - 1);
      } else {
        OthersLeaveFuel(s, t, initial);
        SpendsItsCost(Step(s, t), schedule[1..], initial, level, cost, left);
      }
    }
  }

  /** The engine's choice, wherever in a run it is made and whatever happens before the
      engine posts `sem_gas` two statements later: 5 units for the actions 3 and 4;
      otherwise, with the flag of a gyroscope on, one unit if there is any; otherwise one. */
  lemma TickCosts(s: State, schedule: seq<Turn>, initial: int)
    requires FuelInv(s, initial) && s.engine.EChoose? && multiset(schedule)[Engine] == 2
    ensures
      var w, before, now := s.world, s.fuel.gasoline, Run(Step(s, Engine), schedule);
      && now.engine == EPostGas
      && (w.current == 3 || w.current == 4 ==> now.fuel.gasoline == before - 5)
      && (w.current != 3 && w.current != 4 && (exists i :: 0 <= i < |w.on| && w.on[i]) ==>
            now.fuel.gasoline == if before > 0 then before - 1 else before)
      && (w.current != 3 && w.current != 4 && (forall i :: 0 <= i < |w.on| ==> !w.on[i]) ==>
            now.fuel.gasoline == before - 1)
  {
    var level := s.fuel.gasoline;
    SlowTick(level);
    StepKeepsFuel(s, Engine, initial);
    SpendsItsCost(Step(s, Engine), schedule, initial, level, level - Burnt(ModeOf(s.world), level), 2);
  }

  /** The same four cases, to be counted. */
  datatype Power = Full | Braking | Dry | Idle

  predicate ChosenAt(power: Power, w: World, level: int) {
    var full, flagged := w.current == 3 || w.current == 4, exists i :: 0 <= i < |w.on| && w.on[i];
    match power
    case Full => full
    case Braking => !full && flagged && level > 0
    case Dry => !full && flagged && level <= 0
    case Idle => !full && !flagged
  }

  function One(b: bool): nat { if b then 1 else 0 }

  /** How often the engine has come to its choice with the action, the flags and the fuel
      as `power` says. */
  function Choices(s: State, schedule: seq<Turn>, power: Power): nat
    decreases |schedule|
  {
    if schedule == [] then 0
    else
      One(schedule[0] == Engine && s.engine.EChoose? && ChosenAt(power, s.world, s.fuel.gasoline))
      + Choices(Step(s, schedule[0]), schedule[1..], power)
  }

  /** What the engine has chosen to spend, but not yet spent. */
  function Owed(s: State): int {
    match s.engine
    case ELoadGas(mode) => s.fuel.gasoline - Burnt(mode, s.fuel.gasoline)
    case EStoreGas(mode, level) => level - Burnt(mode, level)
    case _ => 0
  }

  /** The fuel there would be without corrections, and with what is owed already paid. */
  function Budget(s: State): int {
    s.fuel.gasoline + Sum(s.correctors, Ticks) - Owed(s)
  }

  lemma OthersKeepBudget(s: State, t: Turn, initial: int)
    requires FuelInv(s, initial) && t != Engine
    ensures Budget(Step(s, t)) == Budget(s)
  {
    StepKeepsFuel(s, t, initial);
    if EngineHoldsGas(s.engine) == 1 {
      OthersLeaveFuel(s, t, initial);
    }
  }

  lemma ChoiceSpendsBudget(s: State, initial: int)
    requires FuelInv(s, initial)
    ensures
      var chosen := (power: Power) => One(s.engine.EChoose? && ChosenAt(power, s.world, s.fuel.gasoline));
      Budget(Step(s, Engine)) == Budget(s) - 5 * chosen(Full) - chosen(Braking) - chosen(Idle)
  {
    SlowTick(s.fuel.gasoline);
  }

  lemma {:induction false} ChoicesSpendBudget(s: State, schedule: seq<Turn>, initial: int)
    requires FuelInv(s, initial)
    ensures Budget(Run(s, schedule)) == Budget(s)
      - 5 * Choices(s, schedule, Full) - Choices(s, schedule, Braking) - Choices(s, schedule, Idle)
    decreases |schedule|
  {
    if schedule != [] {
      StepKeepsFuel(s, schedule[0], initial);
      if schedule[0] == Engine {
        ChoiceSpendsBudget(s, initial);
      } else {
        OthersKeepBudget(s, schedule[0], initial);
      }
      ChoicesSpendBudget(Step(s, schedule[0]), schedule[1..], initial);
    }
  }

  /** The ledger by what was going on: at every instant at which the engine is not between
      its choice and its store, the fuel spent is a unit for each correction, five for
      each choice under action 3 or 4, and one for each other, but for those with a flag on
      and the tank empty. */
  lemma FuelByAction(s: State, schedule: seq<Turn>)
    requires IsStart(s)
    ensures
      var now := Run(s, schedule);
      !now.engine.ELoadGas? && !now.engine.EStoreGas? ==>
        s.fuel.gasoline - now.fuel.gasoline == Sum(now.correctors, Ticks)
          + 5 * Choices(s, schedule, Full) + Choices(s, schedule, Braking) + Choices(s, schedule, Idle)
  {
    StartFuel(s);
    SumZero(s.correctors, Ticks);
    ChoicesSpendBudget(s, schedule, s.fuel.gasoline);
  }

  // ---------- each pass of the engine descends and burns ----------

  /** From the store of the altitude to the store of the fuel level. */
  function MidTick(pc: EnginePc): int {
    if pc.EPublish? || pc.EWaitGs? || pc.EWaitGas? || pc.EChoose? || pc.ELoadGas? || pc.EStoreGas? then 1 else 0
  }

  ghost predicate TicksMatch(s: State) {
    s.height.engineTicks == s.fuel.accelerated + s.fuel.normal + s.fuel.slowed + MidTick(s.engine)
  }

  /** Whatever the current action, each pass of the engine takes one off the altitude
      and burns fuel once: the two never drift apart by more than the tick in hand. */
  lemma {:induction false} EveryTickDescendsAndBurns(s: State, schedule: seq<Turn>)
    requires TicksMatch(s)
    ensures TicksMatch(Run(s, schedule))
    decreases |schedule|
  {
    if schedule != [] {
      EveryTickDescendsAndBurns(Step(s, schedule[0]), schedule[1..]);
    }
  }
}
