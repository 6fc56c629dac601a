/** What the threads of the controller do one statement after the other, and what that does
    to the globals that everyone writes: each thread goes round its whole loop, each
    semaphore of the panel is accounted for, and so are the action, the flags and the
    correction threads. */
module FlightCycles {
  import opened Counting
  import opened FlightControl
  import opened FlightLedger

  // ---------- each thread goes round its loop ----------

  /** The turns of `who` in the schedule in which it could move. */
  function Taken(s: State, schedule: seq<Turn>, who: Turn): nat
    decreases |schedule|
  {
    if schedule == [] then 0
    else One(schedule[0] == who && Ready(s, who)) + Taken(Step(s, schedule[0]), schedule[1..], who)
  }

  /** The loops over the gyroscopes stay within them, and the climb counts its ticks from
      zero. Of a start this asks no more than that everything is there for each gyroscope. */
  ghost predicate InLoops(s: State) {
    && |s.world.gs| == |s.world.on| == |s.world.gyros|
    && (s.engine.EWaitGs? || s.engine.EPostGs? ==> s.engine.i <= |s.world.gs|)
    && (s.climber.pc.CRearm? ==> s.climber.pc.i <= |s.world.gs|)
    && (Announcing(s.climber.pc) || s.climber.pc.CPostAction? || s.climber.pc.CPause? ==> s.climber.time == 0)
  }

  /** The climb has finished its ticks but not yet written the action. */
  predicate Announcing(pc: ClimberPc) {
    pc.CPostDone? || pc.CRearm? || pc.CWaitAction? || pc.CSetAction?
  }

  lemma StepStaysInLoops(s: State, t: Turn)
    requires InLoops(s)
    ensures InLoops(Step(s, t)) && |Step(s, t).world.gs| == |s.world.gs|
  {
  }

  lemma {:induction false} RunStaysInLoops(s: State, schedule: seq<Turn>)
    requires InLoops(s)
    ensures InLoops(Run(s, schedule)) && |Run(s, schedule).world.gs| == |s.world.gs|
    decreases |schedule|
  {
    if schedule != [] {
      StepStaysInLoops(s, schedule[0]);
      RunStaysInLoops(Step(s, schedule[0]), schedule[1..]);
    }
  }

  /** How many statements ago the engine stored the altitude, with `n` gyroscopes. */
  function EnginePlace(pc: EnginePc, n: nat): int {
    match pc
    case EPublish => 0
    case EWaitGs(i) => 1 + i
    case EWaitGas => n + 2
    case EChoose => n + 3
    case ELoadGas(_) => n + 4
    case EStoreGas(_, _) => n + 5
    case EPostGas => n + 6
    case EPostGs(i) => n + 7 + i
    case EPostAction => 2 * n + 8
    case EPostDist => 2 * n + 9
    case EReport => 2 * n + 10
    case EWaitDist => 2 * n + 11
    case EWaitAction => 2 * n + 12
    case EGuard => 2 * n + 13
    case ELoadDist => 2 * n + 14
    case EStoreDist(_) => 2 * n + 15
  }

  /** How many statements ago the climb began, the five ticks before included. */
  function ClimberPlace(c: Climber, n: nat): int {
    match c.pc
    case CSleep => 7 * c.time
    case CWaitDist => 7 * c.time + 1
    case CTest => 7 * c.time + 2
    case CLoad => 7 * c.time + 3
    case CStore(_) => 7 * c.time + 4
    case CBump => 7 * c.time + 5
    case CPostTick => 7 * c.time - 1
    case CReset => 38
    case CPostDone => -6 - n
    case CRearm(i) => i - 5 - n
    case CWaitAction => -4
    case CSetAction => -3
    case CPostAction => -2
    case CPause => -1
  }

  /** The same for the fuel test and for those who only look. */
  function WatcherPlace(pc: WatcherPc): int {
    match pc
    case XPostGas(_) => 0
    case XReport => 1
    case XWaitGas => 2
    case XTest => 3
  }

  function ReaderPlace(pc: ReaderPc): int {
    match pc
    case DPostDist => 0
    case DReport => 1
    case DWaitDist => 2
    case DLook => 3
  }

  function Tests(s: State, schedule: seq<Turn>): nat
    decreases |schedule|
  {
    if schedule == [] then 0
    else One(schedule[0] == Watch && s.watcher.XTest?) + Tests(Step(s, schedule[0]), schedule[1..])
  }

  function Looks(s: State, schedule: seq<Turn>, i: nat): nat
    decreases |schedule|
  {
    if schedule == [] then 0
    else
      One(schedule[0] == Read(i) && i < |s.readers| && s.readers[i].DLook?)
      + Looks(Step(s, schedule[0]), schedule[1..], i)
  }

  lemma Distributes(period: nat, before: nat, now: nat)
    requires before <= now <= before + 1
    ensures period * now == period * before + (if now == before then 0 else period)
  {
  }

  lemma EngineTurn(s: State, t: Turn, n: nat)
    requires InLoops(s) && n == |s.world.gs|
    ensures
      var s' := Step(s, t);
      && s.height.engineTicks <= s'.height.engineTicks <= s.height.engineTicks + 1
      && One(t == Engine && Ready(s, t)) + EnginePlace(s.engine, n)
         == EnginePlace(s'.engine, n) + if s'.height.engineTicks == s.height.engineTicks then 0 else 2 * n + 16
  {
    GuardAlwaysHolds(s.world.current);
  }

  lemma {:induction false} EngineRound(s: State, schedule: seq<Turn>, n: nat)
    requires InLoops(s) && n == |s.world.gs|
    ensures
      var s' := Run(s, schedule);
      Taken(s, schedule, Engine) + EnginePlace(s.engine, n) + (2 * n + 16) * s.height.engineTicks
        == EnginePlace(s'.engine, n) + (2 * n + 16) * s'.height.engineTicks
    decreases |schedule|
  {
    if schedule != [] {
      var s' := Step(s, schedule[0]);
      StepStaysInLoops(s, schedule[0]);
      EngineTurn(s, schedule[0], n);
      EngineRound(s', schedule[1..], n);
      Distributes(2 * n + 16, s.height.engineTicks, s'.height.engineTicks);
    }
  }

  /** Where the engine is follows from how often it has moved: every pass has the same
      sixteen statements and two for each gyroscope, with one descent among them. */
  lemma EngineGoesRound(s: State, schedule: seq<Turn>, n: nat)
    requires IsStart(s) && InLoops(s) && n == |s.world.gs|
    ensures
      var now := Run(s, schedule);
      Taken(s, schedule, Engine) + 2 * n + 10 == EnginePlace(now.engine, n) + (2 * n + 16) * now.height.engineTicks
  {
    EngineRound(s, schedule, n);
  }

  lemma ClimberTurn(s: State, t: Turn, n: nat, initial: int)
    requires InLoops(s) && AltitudeInv(s, initial) && n == |s.world.gs|
    ensures
      var s' := Step(s, t);
      && s.height.climbs <= s'.height.climbs <= s.height.climbs + 1
      && One(t == Climb && Ready(s, t)) + ClimberPlace(s.climber, n)
         == ClimberPlace(s'.climber, n) + if s'.height.climbs == s.height.climbs then 0 else n + 45
  {
  }

  lemma {:induction false} ClimberRound(s: State, schedule: seq<Turn>, n: nat, initial: int)
    requires InLoops(s) && AltitudeInv(s, initial) && n == |s.world.gs|
    ensures
      var s' := Run(s, schedule);
      Taken(s, schedule, Climb) + ClimberPlace(s.climber, n) + (n + 45) * s.height.climbs
        == ClimberPlace(s'.climber, n) + (n + 45) * s'.height.climbs
    decreases |schedule|
  {
    if schedule != [] {
      var s' := Step(s, schedule[0]);
      StepStaysInLoops(s, schedule[0]);
      StepKeepsAltitude(s, schedule[0], initial);
      ClimberTurn(s, schedule[0], n, initial);
      ClimberRound(s', schedule[1..], n, initial);
      Distributes(n + 45, s.height.climbs, s'.height.climbs);
    }
  }

  /** The climb likewise: five ticks, a new thread for each gyroscope, and the action. */
  lemma ClimberGoesRound(s: State, schedule: seq<Turn>, n: nat)
    requires IsStart(s) && InLoops(s) && n == |s.world.gs|
    ensures
      var now := Run(s, schedule);
      Taken(s, schedule, Climb) - 1 == ClimberPlace(now.climber, n) + (n + 45) * now.height.climbs
  {
    StartAltitude(s);
    ClimberRound(s, schedule, n, s.height.distance);
  }

  /** Every fourth statement of the watcher is a test of the fuel. */
  lemma {:induction false} WatcherGoesRound(s: State, schedule: seq<Turn>)
    ensures Taken(s, schedule, Watch) + WatcherPlace(s.watcher)
      == WatcherPlace(Run(s, schedule).watcher) + 4 * Tests(s, schedule)
    decreases |schedule|
  {
    if schedule != [] {
      WatcherGoesRound(Step(s, schedule[0]), schedule[1..]);
    }
  }

  lemma {:induction false} ReaderGoesRound(s: State, schedule: seq<Turn>, i: nat)
    requires i < |s.readers|
    ensures |Run(s, schedule).readers| == |s.readers|
    ensures Taken(s, schedule, Read(i)) + ReaderPlace(s.readers[i])
      == ReaderPlace(Run(s, schedule).readers[i]) + 4 * Looks(s, schedule, i)
    decreases |schedule|
  {
    if schedule != [] {
      ReaderGoesRound(Step(s, schedule[0]), schedule[1..], i);
    }
  }

  /** How many statements ago the thread took its own semaphore; after the store of the
      fuel, or the clearing of the flag, how many it still has until it is back there. */
  function CorrectorPlace(pc: CorrectorPc): int {
    match pc
    case GWaitOwn => 0
    case GTest => 1
    case GFlagOn => 2
    case GWaitGas => 3
    case GLoadGas => 4
    case GStoreGas(_) => 5
    case GPostGas => -6
    case GSign => -5
    case GLoadGyro(_) => -4
    case GStoreGyro(_, _) => -3
    case GPostOwn => -2
    case GSleep => -1
    case GFlagOff => 2
    case GPostIdle => -2
    case GPause => -1
    case GCancelled => 0
  }

  /** How often thread `k` has found its gyroscope level. */
  function FoundLevel(s: State, schedule: seq<Turn>, k: nat): nat
    decreases |schedule|
  {
    if schedule == [] then 0
    else
      One(schedule[0] == Correct(k) && Ready(s, Correct(k)) && s.correctors[k].pc.GFlagOff?)
      + FoundLevel(Step(s, schedule[0]), schedule[1..], k)
  }

  lemma ThreadsRemain(s: State, t: Turn, k: nat)
    requires k < |s.correctors|
    ensures k < |Step(s, t).correctors| && Step(s, t).correctors[k].cell == s.correctors[k].cell
    ensures s.correctors[k].pc.GCancelled? ==> Step(s, t).correctors[k].pc.GCancelled?
    ensures t != Correct(k) && t != Cancel(k) ==> Step(s, t).correctors[k] == s.correctors[k]
  {
  }

  lemma {:induction false} RunKeepsThread(s: State, schedule: seq<Turn>, k: nat)
    requires k < |s.correctors|
    ensures k < |Run(s, schedule).correctors| && Run(s, schedule).correctors[k].cell == s.correctors[k].cell
    ensures s.correctors[k].pc.GCancelled? ==> Run(s, schedule).correctors[k].pc.GCancelled?
    decreases |schedule|
  {
    if schedule != [] {
      ThreadsRemain(s, schedule[0], k);
      RunKeepsThread(Step(s, schedule[0]), schedule[1..], k);
    }
  }

  lemma CorrectorTurn(s: State, t: Turn, k: nat)
    requires k < |s.correctors| && k < |Step(s, t).correctors| && !Step(s, t).correctors[k].pc.GCancelled?
    ensures
      var r, r', moved := s.correctors[k], Step(s, t).correctors[k], t == Correct(k) && Ready(s, t);
      One(moved) + CorrectorPlace(r.pc) + 12 * r.ticks
        == CorrectorPlace(r'.pc) + 12 * r'.ticks + 5 * One(moved && r.pc.GFlagOff?)
  {
  }

  /** As long as it is not cancelled, a correction thread makes twelve statements for each
      correction and five for each time it finds its gyroscope level. */
  lemma {:induction false} CorrectorGoesRound(s: State, schedule: seq<Turn>, k: nat)
    requires k < |s.correctors|
    requires k < |Run(s, schedule).correctors| && !Run(s, schedule).correctors[k].pc.GCancelled?
    ensures
      var r, r' := s.correctors[k], Run(s, schedule).correctors[k];
      Taken(s, schedule, Correct(k)) + CorrectorPlace(r.pc) + 12 * r.ticks
        == CorrectorPlace(r'.pc) + 12 * r'.ticks + 5 * FoundLevel(s, schedule, k)
    decreases |schedule|
  {
    if schedule != [] {
      var s' := Step(s, schedule[0]);
      ThreadsRemain(s, schedule[0], k);
      RunKeepsThread(s', schedule[1..], k);
      CorrectorTurn(s, schedule[0], k);
      CorrectorGoesRound(s', schedule[1..], k);
    }
  }

  /** The thread has taken its own semaphore and not posted it. */
  predicate HoldsOwn(pc: CorrectorPc) {
    !(pc.GPause? || pc.GWaitOwn? || pc.GSleep? || pc.GCancelled?)
  }

  /** And it never loses its copy of the semaphore, nor posts it twice. */
  lemma {:induction false} OwnLedger(s: State, schedule: seq<Turn>, k: nat)
    requires k < |s.correctors|
    requires k < |Run(s, schedule).correctors| && !Run(s, schedule).correctors[k].pc.GCancelled?
    ensures
      var r, r' := s.correctors[k], Run(s, schedule).correctors[k];
      r'.own + One(HoldsOwn(r'.pc)) == r.own + One(HoldsOwn(r.pc))
    decreases |schedule|
  {
    if schedule != [] {
      var s' := Step(s, schedule[0]);
      ThreadsRemain(s, schedule[0], k);
      RunKeepsThread(s', schedule[1..], k);
      OwnLedger(s', schedule[1..], k);
    }
  }

  // ---------- the semaphores of the panel ----------

  /** What the rest of the controller and the simulator add to a value of the panel. */
  function Drift(s: State, schedule: seq<Turn>, value: World -> int): int
    decreases |schedule|
  {
    if schedule == [] then 0
    else
      (if schedule[0].Elsewhere? && Ready(s, schedule[0]) then value(schedule[0].world) - value(s.world) else 0)
      + Drift(Step(s, schedule[0]), schedule[1..], value)
  }

  const ACTION: World -> int := (w: World) => w.action

  function GsOf(cell: nat): World -> int {
    (w: World) => if cell < |w.gs| then w.gs[cell] else 0
  }

  function EngineHoldsAction(pc: EnginePc): int {
    if pc.EWaitDist? || pc.EWaitAction? || pc.EPostDist? || pc.EReport? then 0 else 1
  }

  function ClimberHoldsAction(pc: ClimberPc): int {
    if pc.CSetAction? || pc.CPostAction? then 1 else 0
  }

  /** The engine has taken `sem_gs[cell]` and not posted it. */
  function EngineHoldsGs(pc: EnginePc, cell: nat): int {
    match pc
    case EWaitGs(i) => if cell < i then 1 else 0
    case EPostGs(i) => if i <= cell then 1 else 0
    case _ => if pc.EWaitGas? || pc.EChoose? || pc.ELoadGas? || pc.EStoreGas? || pc.EPostGas? then 1 else 0
  }

  function ActionUnits(s: State): int {
    s.world.action + EngineHoldsAction(s.engine) + ClimberHoldsAction(s.climber.pc)
  }

  lemma ActionTurn(s: State, t: Turn)
    ensures ActionUnits(Step(s, t)) == ActionUnits(s)
      + if t.Elsewhere? && Ready(s, t) then ACTION(t.world) - ACTION(s.world) else 0
  {
    GuardAlwaysHolds(s.world.current);
  }

  /** `sem_action` is where the rest of the program has put it, or with the engine or the
      climb: neither ever loses it or posts it twice. */
  lemma {:induction false} ActionLedger(s: State, schedule: seq<Turn>)
    ensures ActionUnits(Run(s, schedule)) == ActionUnits(s) + Drift(s, schedule, ACTION)
    decreases |schedule|
  {
    if schedule != [] {
      ActionTurn(s, schedule[0]);
      ActionLedger(Step(s, schedule[0]), schedule[1..]);
    }
  }

  function GsUnits(s: State, cell: nat): int {
    GsOf(cell)(s.world) + EngineHoldsGs(s.engine, cell)
  }

  lemma GsTurn(s: State, t: Turn, cell: nat)
    requires InLoops(s) && cell < |s.world.gs|
    ensures GsUnits(Step(s, t), cell) == GsUnits(s, cell)
      + if t.Elsewhere? && Ready(s, t) then GsOf(cell)(t.world) - GsOf(cell)(s.world) else 0
  {
    GuardAlwaysHolds(s.world.current);
  }

  /** And each `sem_gs` likewise. */
  lemma {:induction false} GsLedger(s: State, schedule: seq<Turn>, cell: nat)
    requires InLoops(s) && cell < |s.world.gs|
    ensures cell < |Run(s, schedule).world.gs|
    ensures GsUnits(Run(s, schedule), cell) == GsUnits(s, cell) + Drift(s, schedule, GsOf(cell))
    decreases |schedule|
  {
    if schedule != [] {
      StepStaysInLoops(s, schedule[0]);
      GsTurn(s, schedule[0], cell);
      GsLedger(Step(s, schedule[0]), schedule[1..], cell);
    }
  }

  // ---------- the action ----------

  /** Nobody else writes `CURRENT_ACTION`. */
  ghost predicate LeavesAction(s: State, schedule: seq<Turn>)
    decreases |schedule|
  {
    schedule != [] ==>
      && (schedule[0].Elsewhere? && Ready(s, schedule[0]) ==> schedule[0].world.current == s.world.current)
      && LeavesAction(Step(s, schedule[0]), schedule[1..])
  }

  /** How many climbs have got as far as writing the action. */
  function Announced(s: State): int {
    s.height.climbs - One(Announcing(s.climber.pc))
  }

  lemma {:induction false} AnnouncedGrows(s: State, schedule: seq<Turn>)
    ensures Announced(Run(s, schedule)) >= Announced(s)
    decreases |schedule|
  {
    if schedule != [] {
      AnnouncedGrows(Step(s, schedule[0]), schedule[1..]);
    }
  }

  /** A climb that ends leaves the action at 1, and nothing else here changes it. */
  lemma {:induction false} ClimbEndsInLanding(s: State, schedule: seq<Turn>)
    requires LeavesAction(s, schedule)
    ensures Run(s, schedule).world.current
      == if Announced(Run(s, schedule)) > Announced(s) then 1 else s.world.current
    decreases |schedule|
  {
    if schedule != [] {
      AnnouncedGrows(Step(s, schedule[0]), schedule[1..]);
      ClimbEndsInLanding(Step(s, schedule[0]), schedule[1..]);
    }
  }

  /** Between its guard and its post of `sem_action` the engine sees one action, unless the
      rest of the program changes it without the semaphore: the climb does not. */
  lemma ActionStaysInSection(s: State, schedule: seq<Turn>)
    requires IsStart(s) && s.world.action == 1 && Drift(s, schedule, ACTION) == 0
    ensures EngineHoldsAction(Run(s, schedule).engine) == 1 ==> !Run(s, schedule).climber.pc.CSetAction?
  {
    ActionLedger(s, schedule);
  }

  // ---------- correction threads: how many, and which of them can work ----------

  function OfCell(cell: nat): Corrector -> int {
    (r: Corrector) => if r.cell == cell then 1 else 0
  }

  /** How often the climb has created a thread for `cell`. */
  function Rearmed(s: State, cell: nat): int {
    s.height.climbs - One(s.climber.pc.CPostDone? || (s.climber.pc.CRearm? && s.climber.pc.i <= cell))
  }

  lemma CreationTurn(s: State, t: Turn, cell: nat)
    requires InLoops(s) && cell < |s.world.gs|
    ensures Sum(Step(s, t).correctors, OfCell(cell)) - Rearmed(Step(s, t), cell)
      == Sum(s.correctors, OfCell(cell)) - Rearmed(s, cell) + One(t == Create(cell) && Ready(s, t))
  {
    match t
    case Correct(k) =>
      if Ready(s, t) {
        SumUpdate(s.correctors, k, CorrectorNext(s.correctors[k], s.fuel, s.world), OfCell(cell));
      }
    case Cancel(k) =>
      if Ready(s, t) {
        SumUpdate(s.correctors, k, s.correctors[k].(pc := GCancelled), OfCell(cell));
      }
    case Create(c) => SumAppend(s.correctors, NewCorrector(c, s.world), OfCell(cell));
    case Climb => ClimbCreation(s, cell);
    case _ =>
  }

  lemma ClimbCreation(s: State, cell: nat)
    requires InLoops(s) && cell < |s.world.gs|
    ensures Sum(Step(s, Climb).correctors, OfCell(cell)) - Rearmed(Step(s, Climb), cell)
      == Sum(s.correctors, OfCell(cell)) - Rearmed(s, cell)
  {
    assert s.correctors + [] == s.correctors;
    if s.climber.pc.CRearm? {
      SumAppend(s.correctors, NewCorrector(s.climber.pc.i, s.world), OfCell(cell));
    }
  }

  /** Every climb creates exactly one thread for each gyroscope, and apart from the
      controller's own restarts nothing else does. */
  lemma {:induction false} ClimbCreatesOneEach(s: State, schedule: seq<Turn>, cell: nat)
    requires InLoops(s) && cell < |s.world.gs|
    ensures
      var now := Run(s, schedule);
      Sum(now.correctors, OfCell(cell)) - Sum(s.correctors, OfCell(cell))
        == Rearmed(now, cell) - Rearmed(s, cell) + Taken(s, schedule, Create(cell))
    decreases |schedule|
  {
    if schedule != [] {
      StepStaysInLoops(s, schedule[0]);
      CreationTurn(s, schedule[0], cell);
      ClimbCreatesOneEach(Step(s, schedule[0]), schedule[1..], cell);
    }
  }

  /** The turn `t` creates a thread for `cell`. */
  predicate Creates(s: State, t: Turn, cell: nat) {
    && cell < |s.world.gs|
    && (t == Create(cell) || (t == Climb && s.climber.pc == CRearm(cell)))
  }

  /** Thread `k` has not got past the first wait for its own copy of the semaphore. */
  ghost predicate Stuck(s: State, k: nat) {
    && k < |s.correctors| && s.correctors[k].own == 0 && s.correctors[k].ticks == 0
    && (s.correctors[k].pc.GPause? || s.correctors[k].pc.GWaitOwn? || s.correctors[k].pc.GCancelled?)
  }

  lemma {:induction false} StuckForEver(s: State, schedule: seq<Turn>, k: nat)
    requires Stuck(s, k)
    ensures Stuck(Run(s, schedule), k)
    decreases |schedule|
  {
    if schedule != [] {
      ThreadsRemain(s, schedule[0], k);
      StuckForEver(Step(s, schedule[0]), schedule[1..], k);
    }
  }

  /** Some continuation brings thread `k` past the wait for its own semaphore. */
  ghost predicate CanWork(s: State, k: nat) {
    exists later :: k < |Run(s, later).correctors| && Run(s, later).correctors[k].pc.GTest?
  }

  lemma FreshCanWork(s: State, k: nat)
    requires InLoops(s) && k < |s.correctors| && s.correctors[k].cell < |s.world.gs|
    requires s.correctors[k].pc.GPause? && s.correctors[k].own > 0
    ensures CanWork(s, k)
  {
    var s' := Step(s, Correct(k));
    var later := [Correct(k), Correct(k)];
    assert later[1..] == [Correct(k)];
    assert Run(s', [Correct(k)]) == Run(Step(s', Correct(k)), []);
    assert Run(s, later) == Run(s', later[1..]) == Step(s', Correct(k));
    assert Run(s, later).correctors[k].pc.GTest?;
  }

  lemma NewThread(s: State, t: Turn, cell: nat)
    requires InLoops(s) && Creates(s, t, cell)
    ensures |Step(s, t).correctors| == |s.correctors| + 1 && InLoops(Step(s, t))
    ensures Step(s, t).correctors[|s.correctors|] == Corrector(cell, GPause, s.world.gs[cell], 0)
    ensures !Step(s, t).world.on[cell]
  {
  }

  /** A new correction thread works on a copy of `sem_gs[cell]`, made when it is created.
      So it can work if and only if the engine does not hold that semaphore just then;
      if it does, the copy is zero, and nobody will ever post it. */
  lemma NewThreadCanWorkExactlyWhen(s: State, schedule: seq<Turn>, t: Turn, cell: nat)
    requires IsStart(s) && InLoops(s) && cell < |s.world.gs| && s.world.gs[cell] == 1
    requires Drift(s, schedule, GsOf(cell)) == 0 && Creates(Run(s, schedule), t, cell)
    ensures
      var now := Run(s, schedule);
      CanWork(Step(now, t), |now.correctors|) <==> EngineHoldsGs(now.engine, cell) == 0
  {
    var now := Run(s, schedule);
    var k := |now.correctors|;
    RunStaysInLoops(s, schedule);
    GsLedger(s, schedule, cell);
    NewThread(now, t, cell);
    if EngineHoldsGs(now.engine, cell) == 0 {
      FreshCanWork(Step(now, t), k);
    } else {
      forall later
        ensures k < |Run(Step(now, t), later).correctors| ==> !Run(Step(now, t), later).correctors[k].pc.GTest?
      {
        StuckForEver(Step(now, t), later, k);
      }
    }
  }

  // ---------- flags ----------

  predicate SameFlag(on: seq<bool>, on': seq<bool>, cell: nat) {
    cell < |on| == |on'| ==> on'[cell] == on[cell]
  }

  /** Of the turns in the schedule only those of thread `k` change the flag of `cell`. */
  ghost predicate OnlyFlagOf(s: State, schedule: seq<Turn>, k: nat, cell: nat)
    decreases |schedule|
  {
    schedule != [] ==>
      && (schedule[0] != Correct(k) ==> SameFlag(s.world.on, Step(s, schedule[0]).world.on, cell))
      && OnlyFlagOf(Step(s, schedule[0]), schedule[1..], k, cell)
  }

  /** The flag is on from before a correction until after it, and off while the thread
      pauses with its gyroscope level. */
  predicate FlagFits(pc: CorrectorPc, on: bool) {
    && (Correcting(pc) ==> on)
    && (pc.GPostIdle? || pc.GPause? ==> !on)
  }

  predicate Correcting(pc: CorrectorPc) {
    pc.GWaitGas? || pc.GLoadGas? || pc.GStoreGas? || pc.GPostGas? || pc.GSign? || pc.GLoadGyro? || pc.GStoreGyro?
    || pc.GPostOwn? || pc.GSleep?
  }

  lemma {:induction false} FlagFollowsThread(s: State, schedule: seq<Turn>, k: nat)
    requires InLoops(s) && k < |s.correctors| && s.correctors[k].cell < |s.world.on|
    requires OnlyFlagOf(s, schedule, k, s.correctors[k].cell)
    requires FlagFits(s.correctors[k].pc, s.world.on[s.correctors[k].cell])
    ensures
      var now := Run(s, schedule);
      && k < |now.correctors| && now.correctors[k].cell < |now.world.on|
      && FlagFits(now.correctors[k].pc, now.world.on[now.correctors[k].cell])
    decreases |schedule|
  {
    if schedule != [] {
      StepStaysInLoops(s, schedule[0]);
      ThreadsRemain(s, schedule[0], k);
      FlagFollowsThread(Step(s, schedule[0]), schedule[1..], k);
    }
  }

  // ---------- cancellations ----------

  /** Statements of the thread until it is at a call where a cancellation takes effect. */
  function UntilCancellable(pc: CorrectorPc): nat {
    match pc
    case GTest => 3
    case GFlagOn => 1
    case GLoadGas => 7
    case GStoreGas(_) => 6
    case GPostGas => 5
    case GSign => 4
    case GLoadGyro(_) => 3
    case GStoreGyro(_, _) => 2
    case GPostOwn => 1
    case GFlagOff => 2
    case GPostIdle => 1
    case _ => 0
  }

  lemma NearerToCancellable(s: State, t: Turn, k: nat)
    requires InLoops(s) && k < |s.correctors| && s.correctors[k].cell < |s.world.gs| && k < |Step(s, t).correctors|
    requires UntilCancellable(s.correctors[k].pc) > 0
    ensures UntilCancellable(Step(s, t).correctors[k].pc) <= UntilCancellable(s.correctors[k].pc) - One(t == Correct(k))
  {
  }

  /** A pending cancellation does not have to wait long: within seven statements of the
      thread, whatever the others do meanwhile, there is a point at which it takes effect. */
  lemma CancelledWithinSeven(s: State, schedule: seq<Turn>, k: nat) returns (n: nat)
    requires InLoops(s) && k < |s.correctors| && s.correctors[k].cell < |s.world.gs|
    requires multiset(schedule)[Correct(k)] >= 7
    ensures n <= |schedule| && k < |Run(s, schedule[..n]).correctors|
    ensures Step(Run(s, schedule[..n]), Cancel(k)).correctors[k].pc.GCancelled?
  {
    n := CancelledInTime(s, schedule, k);
  }

  lemma {:induction false} CancelledInTime(s: State, schedule: seq<Turn>, k: nat) returns (n: nat)
    requires InLoops(s) && k < |s.correctors| && s.correctors[k].cell < |s.world.gs|
    requires multiset(schedule)[Correct(k)] >= UntilCancellable(s.correctors[k].pc)
    ensures n <= |schedule| && k < |Run(s, schedule[..n]).correctors|
    ensures Step(Run(s, schedule[..n]), Cancel(k)).correctors[k].pc.GCancelled?
    decreases |schedule|
  {
    if UntilCancellable(s.correctors[k].pc) == 0 {
      n := 0;
    } else {
      var t := schedule[0];
      assert schedule == [t] + schedule[1..];
      StepStaysInLoops(s, t);
      ThreadsRemain(s, t, k);
      NearerToCancellable(s, t, k);
      n := CancelledInTime(Step(s, t), schedule[1..], k);
      assert schedule[..n + 1][0] == t && schedule[..n + 1][1..] == schedule[1..][..n];
      n := n + 1;
    }
  }
}
