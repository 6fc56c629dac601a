/** The rocket controller `sistema.c`, as far as it keeps account of altitude, fuel and
    gyroscopes. All threads that write them are here statement by statement, a load
    and a store as two steps; what the rest of the controller and the simulator do to
    the other globals, in whatever order, is `Elsewhere`. */
module FlightControl {
  const EVENT_1 := 1
  const EVENT_3 := 3
  const EVENT_4 := 4
  const RATE_GO_UP := 6
  const CLIMB_TICKS := 5
  const RESERVE := 10

  // ---------- state ----------

  /** `sem_dist` and what it guards, and how often it has been written. */
  datatype Height = Height(dist: nat, distance: int, block: int, engineTicks: nat, climbTicks: nat, climbs: nat)

  /** `sem_gas` and what it guards, and how the engine has written it; `dry` counts
      those of the slow ticks that found no fuel. */
  datatype Fuel = Fuel(gas: nat, gasoline: int, accelerated: nat, normal: nat, slowed: nat, dry: nat)

  /** The globals that other parts of the controller, or the simulator, write too. */
  datatype World = World(action: nat, gs: seq<nat>, current: int, on: seq<bool>, gyros: seq<int>)

  datatype Mode = Accelerating | Slowing | Normal

  datatype EnginePc =
    | EWaitDist | EWaitAction
    | EGuard                            // CURRENT_ACTION != EVENT_3 || CURRENT_ACTION != EVENT_4
    | ELoadDist | EStoreDist(seen: int) // distance -= 1
    | EPublish                          // *dit_block = distance
    | EWaitGs(i: nat) | EWaitGas
    | EChoose                           // which `potencia`
    | ELoadGas(mode: Mode) | EStoreGas(mode: Mode, level: int)
    | EPostGas | EPostGs(i: nat) | EPostAction | EPostDist
    | EReport                           // the message, its round of the barrier, and the sleep

  datatype ClimberPc =
    | CPause | CSleep | CWaitDist
    | CTest                             // time < 5
    | CLoad | CStore(seen: int)         // distance += RATE_GO_UP
    | CBump                             // ++time
    | CPostTick
    | CReset                            // time = 0
    | CPostDone
    | CRearm(i: nat)                    // create_signals_gyros(0)
    | CWaitAction | CSetAction | CPostAction

  datatype Climber = Climber(pc: ClimberPc, time: nat)

  /** `signal_explote_rocket`. */
  datatype WatcherPc = XWaitGas | XTest | XPostGas(abort: bool) | XReport

  /** A thread that looks at `distance` without writing it. */
  datatype ReaderPc = DWaitDist | DLook | DPostDist | DReport

  datatype CorrectorPc =
    | GPause | GWaitOwn
    | GTest                             // *dir_gyros
    | GFlagOn | GWaitGas
    | GLoadGas | GStoreGas(level: int)  // gasoline -= 1
    | GPostGas
    | GSign                             // *dir_gyros > 0
    | GLoadGyro(down: bool) | GStoreGyro(down: bool, seen: int)
    | GPostOwn | GSleep
    | GFlagOff | GPostIdle
    | GCancelled

  /** A correction thread of gyroscope `cell`: its private copy of the semaphore, and
      how many units of fuel it has taken. */
  datatype Corrector = Corrector(cell: nat, pc: CorrectorPc, own: nat, ticks: nat)

  datatype State = State(height: Height, fuel: Fuel, world: World, engine: EnginePc, climber: Climber,
                         watcher: WatcherPc, readers: seq<ReaderPc>, correctors: seq<Corrector>)

  /** Who has the next turn. `Cancel` is a pending cancellation that takes effect,
      `Create` a restart of one gyroscope's correction thread by the controller. */
  datatype Turn =
    | Engine | Climb | Watch | Read(i: nat) | Correct(k: nat)
    | Cancel(k: nat) | Create(cell: nat) | Elsewhere(world: World)

  // ---------- the engine ----------

  predicate EngineReady(pc: EnginePc, h: Height, f: Fuel, w: World) {
    match pc
    case EWaitDist => h.dist > 0
    case EWaitAction => w.action > 0
    case EWaitGs(i) => i < |w.gs| ==> w.gs[i] > 0
    case EWaitGas => f.gas > 0
    case _ => true
  }

  predicate EngineGuard(current: int) {
    current != EVENT_3 || current != EVENT_4
  }

  const GYRO_WAITS: EnginePc := EWaitGs(0)

  function AfterGuard(current: int): EnginePc {
    if EngineGuard(current) then ELoadDist else GYRO_WAITS
  }

  function ModeOf(w: World): Mode {
    if w.current == EVENT_3 || w.current == EVENT_4 then Accelerating
    else if true in w.on then Slowing
    else Normal
  }

  /** A conversion from floating point to `int` drops the fraction. */
  function Truncate(x: real): int {
    if x >= 0.0 then x.Floor else -(-x).Floor
  }

  /** The fuel after a tick in each mode; `gasoline -= 0.5` goes through a `double`. */
  function Burnt(mode: Mode, level: int): int {
    match mode
    case Accelerating => level - 5
    case Slowing => Truncate(level as real - 0.5)
    case Normal => level - 1
  }

  function EngineNext(pc: EnginePc, h: Height, f: Fuel, w: World): EnginePc {
    match pc
    case EWaitDist => EWaitAction
    case EWaitAction => EGuard
    case EGuard => AfterGuard(w.current)
    case ELoadDist => EStoreDist(h.distance)
    case EStoreDist(_) => EPublish
    case EPublish => EWaitGs(0)
    case EWaitGs(i) => if i < |w.gs| then EWaitGs(i + 1) else EWaitGas
    case EWaitGas => EChoose
    case EChoose => ELoadGas(ModeOf(w))
    case ELoadGas(mode) => EStoreGas(mode, f.gasoline)
    case EStoreGas(_, _) => EPostGas
    case EPostGas => EPostGs(0)
    case EPostGs(i) => if i < |w.gs| then EPostGs(i + 1) else EPostAction
    case EPostAction => EPostDist
    case EPostDist => EReport
    case EReport => EWaitDist
  }

  function EngineHeight(pc: EnginePc, h: Height): Height
    requires pc.EWaitDist? ==> h.dist > 0
  {
    match pc
    case EWaitDist => h.(dist := h.dist - 1)
    case EStoreDist(seen) => h.(distance := seen - 1, engineTicks := h.engineTicks + 1)
    case EPublish => h.(block := h.distance)
    case EPostDist => h.(dist := h.dist + 1)
    case _ => h
  }

  function EngineFuel(pc: EnginePc, f: Fuel): Fuel
    requires pc.EWaitGas? ==> f.gas > 0
  {
    match pc
    case EWaitGas => f.(gas := f.gas - 1)
    case EStoreGas(Accelerating, level) =>
      f.(gasoline := Burnt(Accelerating, level), accelerated := f.accelerated + 1)
    case EStoreGas(Normal, level) => f.(gasoline := Burnt(Normal, level), normal := f.normal + 1)
    case EStoreGas(Slowing, level) =>
      f.(gasoline := Burnt(Slowing, level), slowed := f.slowed + 1, dry := f.dry + if level <= 0 then 1 else 0)
    case EPostGas => f.(gas := f.gas + 1)
    case _ => f
  }

  function EngineWorld(pc: EnginePc, w: World): World
    requires pc.EWaitAction? ==> w.action > 0
    requires pc.EWaitGs? && pc.i < |w.gs| ==> w.gs[pc.i] > 0
  {
    match pc
    case EWaitAction => w.(action := w.action - 1)
    case EWaitGs(i) => if i < |w.gs| then w.(gs := w.gs[i := w.gs[i] - 1]) else w
    case EPostGs(i) => if i < |w.gs| then w.(gs := w.gs[i := w.gs[i] + 1]) else w
    case EPostAction => w.(action := w.action + 1)
    case _ => w
  }

  // ---------- the climb ----------

  predicate ClimberReady(c: Climber, h: Height, w: World) {
    match c.pc
    case CWaitDist => h.dist > 0
    case CWaitAction => w.action > 0
    case _ => true
  }

  function ClimberNext(c: Climber, h: Height, w: World): Climber {
    match c.pc
    case CPause => c.(pc := CSleep)
    case CSleep => c.(pc := CWaitDist)
    case CWaitDist => c.(pc := CTest)
    case CTest => c.(pc := if c.time < CLIMB_TICKS then CLoad else CReset)
    case CLoad => c.(pc := CStore(h.distance))
    case CStore(_) => c.(pc := CBump)
    case CBump => Climber(CPostTick, c.time + 1)
    case CPostTick => c.(pc := CSleep)
    case CReset => Climber(CPostDone, 0)
    case CPostDone => c.(pc := CRearm(0))
    case CRearm(i) => c.(pc := if i < |w.gs| then CRearm(i + 1) else CWaitAction)
    case CWaitAction => c.(pc := CSetAction)
    case CSetAction => c.(pc := CPostAction)
    case CPostAction => c.(pc := CPause)
  }

  function ClimberHeight(pc: ClimberPc, h: Height): Height
    requires pc.CWaitDist? ==> h.dist > 0
  {
    match pc
    case CWaitDist => h.(dist := h.dist - 1)
    case CStore(seen) => h.(distance := seen + RATE_GO_UP, climbTicks := h.climbTicks + 1)
    case CPostTick => h.(dist := h.dist + 1)
    case CReset => h.(climbs := h.climbs + 1)
    case CPostDone => h.(dist := h.dist + 1)
    case _ => h
  }

  function ClimberWorld(pc: ClimberPc, w: World): World
    requires pc.CWaitAction? ==> w.action > 0
  {
    match pc
    case CRearm(i) => if i < |w.on| then w.(on := w.on[i := false]) else w
    case CWaitAction => w.(action := w.action - 1)
    case CSetAction => w.(current := EVENT_1)
    case CPostAction => w.(action := w.action + 1)
    case _ => w
  }

  /** A fresh correction thread: its semaphore is a copy of `sem_gs` as it is now. */
  function NewCorrector(cell: nat, w: World): Corrector {
    Corrector(cell, GPause, if cell < |w.gs| then w.gs[cell] else 0, 0)
  }

  function ClimberCreates(pc: ClimberPc, w: World): seq<Corrector> {
    if pc.CRearm? && pc.i < |w.gs| then [NewCorrector(pc.i, w)] else []
  }

  // ---------- corrections ----------

  predicate CorrectorReady(r: Corrector, f: Fuel, w: World) {
    && r.cell < |w.gyros| == |w.on|
    && match r.pc
       case GWaitOwn => r.own > 0
       case GWaitGas => f.gas > 0
       case GCancelled => false
       case _ => true
  }

  function CorrectorNext(r: Corrector, f: Fuel, w: World): Corrector
    requires CorrectorReady(r, f, w)
  {
    match r.pc
    case GPause => r.(pc := GWaitOwn)
    case GWaitOwn => r.(pc := GTest, own := r.own - 1)
    case GTest => r.(pc := if w.gyros[r.cell] != 0 then GFlagOn else GFlagOff)
    case GFlagOn => r.(pc := GWaitGas)
    case GWaitGas => r.(pc := GLoadGas)
    case GLoadGas => r.(pc := GStoreGas(f.gasoline))
    case GStoreGas(_) => r.(pc := GPostGas, ticks := r.ticks + 1)
    case GPostGas => r.(pc := GSign)
    case GSign => r.(pc := GLoadGyro(w.gyros[r.cell] > 0))
    case GLoadGyro(down) => r.(pc := GStoreGyro(down, w.gyros[r.cell]))
    case GStoreGyro(_, _) => r.(pc := GPostOwn)
    case GPostOwn => r.(pc := GSleep, own := r.own + 1)
    case GSleep => r.(pc := GWaitOwn)
    case GFlagOff => r.(pc := GPostIdle)
    case GPostIdle => r.(pc := GPause, own := r.own + 1)
  }

  function CorrectorFuel(pc: CorrectorPc, f: Fuel): Fuel
    requires pc.GWaitGas? ==> f.gas > 0
  {
    match pc
    case GWaitGas => f.(gas := f.gas - 1)
    case GStoreGas(level) => f.(gasoline := level - 1)
    case GPostGas => f.(gas := f.gas + 1)
    case _ => f
  }

  function CorrectorWorld(r: Corrector, w: World): World
    requires r.cell < |w.gyros| == |w.on|
  {
    match r.pc
    case GFlagOn => w.(on := w.on[r.cell := true])
    case GFlagOff => w.(on := w.on[r.cell := false])
    case GStoreGyro(down, seen) => w.(gyros := w.gyros[r.cell := if down then seen - 1 else seen + 1])
    case _ => w
  }

  /** The calls at which a pending cancellation takes effect. */
  predicate Cancellable(pc: CorrectorPc) {
    pc.GPause? || pc.GWaitOwn? || pc.GWaitGas? || pc.GSleep?
  }

  // ---------- those who only look ----------

  function WatcherNext(pc: WatcherPc, f: Fuel): WatcherPc {
    match pc
    case XWaitGas => XTest
    case XTest => XPostGas(f.gasoline < RESERVE)
    case XPostGas(_) => XReport
    case XReport => XWaitGas
  }

  function WatcherFuel(pc: WatcherPc, f: Fuel): Fuel
    requires pc.XWaitGas? ==> f.gas > 0
  {
    match pc
    case XWaitGas => f.(gas := f.gas - 1)
    case XPostGas(_) => f.(gas := f.gas + 1)
    case _ => f
  }

  function ReaderNext(pc: ReaderPc): ReaderPc {
    match pc
    case DWaitDist => DLook
    case DLook => DPostDist
    case DPostDist => DReport
    case DReport => DWaitDist
  }

  function ReaderHeight(pc: ReaderPc, h: Height): Height
    requires pc.DWaitDist? ==> h.dist > 0
  {
    match pc
    case DWaitDist => h.(dist := h.dist - 1)
    case DPostDist => h.(dist := h.dist + 1)
    case _ => h
  }

  // ---------- runs ----------

  /** The number of gyroscopes never changes. */
  predicate SameShape(v: World, w: World) {
    |v.gs| == |w.gs| && |v.on| == |w.on| && |v.gyros| == |w.gyros|
  }

  predicate Ready(s: State, t: Turn) {
    match t
    case Engine => EngineReady(s.engine, s.height, s.fuel, s.world)
    case Climb => ClimberReady(s.climber, s.height, s.world)
    case Watch => s.watcher.XWaitGas? ==> s.fuel.gas > 0
    case Read(i) => i < |s.readers| && (s.readers[i].DWaitDist? ==> s.height.dist > 0)
    case Correct(k) => k < |s.correctors| && CorrectorReady(s.correctors[k], s.fuel, s.world)
    case Cancel(k) => k < |s.correctors| && Cancellable(s.correctors[k].pc)
    case Create(cell) => cell < |s.world.gs| == |s.world.on|
    case Elsewhere(w) => SameShape(w, s.world)
  }

  /** One turn; a thread that is blocked, or not there, changes nothing. */
  function Step(s: State, t: Turn): State {
    if !Ready(s, t) then s
    else match t
      case Engine =>
        s.(engine := EngineNext(s.engine, s.height, s.fuel, s.world), height := EngineHeight(s.engine, s.height),
           fuel := EngineFuel(s.engine, s.fuel), world := EngineWorld(s.engine, s.world))
      case Climb =>
        s.(climber := ClimberNext(s.climber, s.height, s.world), height := ClimberHeight(s.climber.pc, s.height),
           world := ClimberWorld(s.climber.pc, s.world),
           correctors := s.correctors + ClimberCreates(s.climber.pc, s.world))
      case Watch => s.(watcher := WatcherNext(s.watcher, s.fuel), fuel := WatcherFuel(s.watcher, s.fuel))
      case Read(i) =>
        s.(readers := s.readers[i := ReaderNext(s.readers[i])], height := ReaderHeight(s.readers[i], s.height))
      case Correct(k) =>
        var r := s.correctors[k];
        s.(correctors := s.correctors[k := CorrectorNext(r, s.fuel, s.world)],
           fuel := CorrectorFuel(r.pc, s.fuel), world := CorrectorWorld(r, s.world))
      case Cancel(k) => s.(correctors := s.correctors[k := s.correctors[k].(pc := GCancelled)])
      case Create(cell) =>
        s.(correctors := s.correctors + [NewCorrector(cell, s.world)],
           world := s.world.(on := s.world.on[cell := false]))
      case Elsewhere(w) => s.(world := w)
  }

  function Run(s: State, schedule: seq<Turn>): State
    decreases |schedule|
  {
    if schedule == [] then s else Run(Step(s, schedule[0]), schedule[1..])
  }

  /** The state in which `main` starts the threads, with any values read from shared
      memory, any number of readers, and any correction threads, all at their pause. */
  ghost predicate IsStart(s: State) {
    && s.height == Height(1, s.height.distance, s.height.distance, 0, 0, 0)
    && s.fuel == Fuel(1, s.fuel.gasoline, 0, 0, 0, 0)
    && s.engine == EReport && s.climber == Climber(CPause, 0) && s.watcher == XReport
    && (forall i :: 0 <= i < |s.readers| ==> s.readers[i] == DReport)
    && (forall k :: 0 <= k < |s.correctors| ==> s.correctors[k].pc == GPause && s.correctors[k].ticks == 0)
  }
}
