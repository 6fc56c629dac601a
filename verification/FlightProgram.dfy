/** The rocket controller as it runs: the globals of `sistema.c`, next to the semaphore
    that guards them, updated statement by statement. */
module FlightProgram {
  import opened Counting
  import opened FlightControl
  import opened FlightLedger
  import opened FlightCycles

  /** What `sem_dist` guards; the counts are what the theorems count. */
  class Altitude {
    var dist: nat       // sem_dist
    var distance: int
    var block: int      // *dit_block
    ghost var engineTicks: nat
    ghost var climbTicks: nat
    ghost var climbs: nat

    ghost function Value(): Height
      reads this
    {
      Height(dist, distance, block, engineTicks, climbTicks, climbs)
    }

    constructor (altitude: int)
      ensures Value() == Height(1, altitude, altitude, 0, 0, 0)
    {
      dist, distance, block := 1, altitude, altitude;
      engineTicks, climbTicks, climbs := 0, 0, 0;
    }

    /** The statements of `pricipal_engine_thread` about the altitude. */
    method RunEngine(pc: EnginePc, ghost f: Fuel, ghost w: World) returns (next: EnginePc)
      requires pc.EWaitDist? || pc.ELoadDist? || pc.EStoreDist? || pc.EPublish? || pc.EPostDist?
      modifies this
      ensures EngineReady(pc, old(Value()), f, w) ==>
        next == EngineNext(pc, old(Value()), f, w) && Value() == EngineHeight(pc, old(Value()))
      ensures !EngineReady(pc, old(Value()), f, w) ==> next == pc && Value() == old(Value())
    {
      next := pc;
      match pc {
        case EWaitDist => if dist > 0 { dist, next := dist - 1, EWaitAction; }
        case ELoadDist => next := EStoreDist(distance);
        case EStoreDist(seen) =>
          distance, next := seen - 1, EPublish;
          engineTicks := engineTicks + 1;
        case EPublish => block, next := distance, EWaitGs(0);
        case EPostDist => dist, next := dist + 1, EReport;
      }
    }

    /** The statements of `go_up_30m` up to the post of `sem_dist`. */
    method RunClimber(c: Climber, ghost w: World) returns (next: Climber)
      requires !(c.pc.CRearm? || c.pc.CWaitAction? || c.pc.CSetAction? || c.pc.CPostAction?)
      modifies this
      ensures ClimberReady(c, old(Value()), w) ==>
        next == ClimberNext(c, old(Value()), w) && Value() == ClimberHeight(c.pc, old(Value()))
      ensures !ClimberReady(c, old(Value()), w) ==> next == c && Value() == old(Value())
    {
      next := c;
      match c.pc {
        case CPause => next := c.(pc := CSleep);
        case CSleep => next := c.(pc := CWaitDist);
        case CWaitDist => if dist > 0 { dist, next := dist - 1, c.(pc := CTest); }
        case CTest => next := c.(pc := if c.time < 5 then CLoad else CReset);
        case CLoad => next := c.(pc := CStore(distance));
        case CStore(seen) =>
          distance, next := seen + RATE_GO_UP, c.(pc := CBump);
          climbTicks := climbTicks + 1;
        case CBump => next := Climber(CPostTick, c.time + 1);
        case CPostTick => dist, next := dist + 1, c.(pc := CSleep);
        case CReset =>
          next := Climber(CPostDone, 0);
          climbs := climbs + 1;
        case CPostDone => dist, next := dist + 1, c.(pc := CRearm(0));
      }
    }

    /** A thread that only looks. */
    method RunReader(pc: ReaderPc) returns (next: ReaderPc)
      modifies this
      ensures pc.DWaitDist? && old(dist) == 0 ==> next == pc && Value() == old(Value())
      ensures !(pc.DWaitDist? && old(dist) == 0) ==>
        next == ReaderNext(pc) && Value() == ReaderHeight(pc, old(Value()))
    {
      next := pc;
      match pc {
        case DWaitDist => if dist > 0 { dist, next := dist - 1, DLook; }
        case DLook => next := DPostDist;
        case DPostDist => dist, next := dist + 1, DReport;
        case DReport => next := DWaitDist;
      }
    }
  }

  /** What `sem_gas` guards. */
  class Tank {
    var gas: nat        // sem_gas
    var gasoline: int
    ghost var accelerated: nat
    ghost var normal: nat
    ghost var slowed: nat
    ghost var dry: nat

    ghost function Value(): Fuel
      reads this
    {
      Fuel(gas, gasoline, accelerated, normal, slowed, dry)
    }

    constructor (fuel: int)
      ensures Value() == Fuel(1, fuel, 0, 0, 0, 0)
    {
      gas, gasoline := 1, fuel;
      accelerated, normal, slowed, dry := 0, 0, 0, 0;
    }

    /** The three assignments of the engine to `gasoline`. */
    method Burn(mode: Mode, level: int)
      modifies this
      ensures Value() == EngineFuel(EStoreGas(mode, level), old(Value()))
    {
      match mode {
        case Accelerating =>
          gasoline := level - 5;
          accelerated := accelerated + 1;
        case Slowing =>
          gasoline := Truncate(level as real - 0.5);
          slowed := slowed + 1;
          dry := dry + if level <= 0 then 1 else 0;
        case Normal =>
          gasoline := level - 1;
          normal := normal + 1;
      }
    }

    /** The statements of `pricipal_engine_thread` about the fuel. */
    method RunEngine(pc: EnginePc, ghost h: Height, ghost w: World) returns (next: EnginePc)
      requires pc.EWaitGas? || pc.ELoadGas? || pc.EStoreGas? || pc.EPostGas?
      modifies this
      ensures EngineReady(pc, h, old(Value()), w) ==>
        next == EngineNext(pc, h, old(Value()), w) && Value() == EngineFuel(pc, old(Value()))
      ensures !EngineReady(pc, h, old(Value()), w) ==> next == pc && Value() == old(Value())
    {
      next := pc;
      match pc {
        case EWaitGas => if gas > 0 { gas, next := gas - 1, EChoose; }
        case ELoadGas(mode) => next := EStoreGas(mode, gasoline);
        case EStoreGas(mode, level) =>
          Burn(mode, level);
          next := EPostGas;
        case EPostGas => gas, next := gas + 1, EPostGs(0);
      }
    }

    /** The section of `gyroscope_thread` under `sem_gas`. */
    method RunCorrector(r: Corrector, ghost w: World) returns (next: Corrector)
      requires r.cell < |w.gyros| == |w.on|
      requires r.pc.GWaitGas? || r.pc.GLoadGas? || r.pc.GStoreGas? || r.pc.GPostGas?
      modifies this
      ensures CorrectorReady(r, old(Value()), w) ==>
        next == CorrectorNext(r, old(Value()), w) && Value() == CorrectorFuel(r.pc, old(Value()))
      ensures !CorrectorReady(r, old(Value()), w) ==> next == r && Value() == old(Value())
    {
      next := r;
      match r.pc {
        case GWaitGas => if gas > 0 { gas, next := gas - 1, r.(pc := GLoadGas); }
        case GLoadGas => next := r.(pc := GStoreGas(gasoline));
        case GStoreGas(level) => gasoline, next := level - 1, r.(pc := GPostGas, ticks := r.ticks + 1);
        case GPostGas => gas, next := gas + 1, r.(pc := GSign);
      }
    }

    /** The fuel test of `signal_explote_rocket`. */
    method RunWatcher(pc: WatcherPc) returns (next: WatcherPc)
      modifies this
      ensures pc.XWaitGas? && old(gas) == 0 ==> next == pc && Value() == old(Value())
      ensures !(pc.XWaitGas? && old(gas) == 0) ==>
        next == WatcherNext(pc, old(Value())) && Value() == WatcherFuel(pc, old(Value()))
    {
      next := pc;
      match pc {
        case XWaitGas => if gas > 0 { gas, next := gas - 1, XTest; }
        case XTest => next := XPostGas(gasoline < 10);
        case XPostGas(_) => gas, next := gas + 1, XReport;
        case XReport => next := XWaitGas;
      }
    }
  }

  /** The globals that everyone writes. */
  class Panel {
    var action: nat     // sem_action
    var current: int    // CURRENT_ACTION
    var gs: seq<nat>    // sem_gs
    var on: seq<bool>   // state_gyros
    var gyros: seq<int> // *gyros1, *gyros2

    ghost function Value(): World
      reads this
    {
      World(action, gs, current, on, gyros)
    }

    constructor (deflections: seq<int>)
      ensures action == 1 && current == EVENT_1 && gyros == deflections
      ensures |gs| == |on| == |deflections| && forall i :: 0 <= i < |gs| ==> gs[i] == 1
    {
      action, current := 1, EVENT_1;
      gs, on, gyros := seq(|deflections|, _ => 1), seq(|deflections|, _ => false), deflections;
    }

    /** The guard, the choice of the power, `sem_action`, and the loops over `sem_gs`. */
    method RunEngine(pc: EnginePc, ghost h: Height, ghost f: Fuel) returns (next: EnginePc)
      requires pc.EWaitAction? || pc.EGuard? || pc.EWaitGs? || pc.EChoose? || pc.EPostGs? || pc.EPostAction?
      modifies this
      ensures EngineReady(pc, h, f, old(Value())) ==>
        next == EngineNext(pc, h, f, old(Value())) && Value() == EngineWorld(pc, old(Value()))
      ensures !EngineReady(pc, h, f, old(Value())) ==> next == pc && Value() == old(Value())
    {
      next := pc;
      match pc {
        case EWaitAction => if action > 0 { action, next := action - 1, EGuard; }
        case EGuard => next := if current != EVENT_3 || current != EVENT_4 then ELoadDist else GYRO_WAITS;
        case EWaitGs(i) =>
          if i >= |gs| {
            next := EWaitGas;
          } else if gs[i] > 0 {
            gs, next := gs[i := gs[i] - 1], EWaitGs(i + 1);
          }
        case EChoose =>
          if current == EVENT_3 || current == EVENT_4 {
            next := ELoadGas(Accelerating);
          } else if true in on {
            next := ELoadGas(Slowing);
          } else {
            next := ELoadGas(Normal);
          }
        case EPostGs(i) =>
          if i >= |gs| {
            next := EPostAction;
          } else {
            gs, next := gs[i := gs[i] + 1], EPostGs(i + 1);
          }
        case EPostAction => action, next := action + 1, EPostDist;
      }
    }

    /** `change_action(EVENT_1)`. */
    method RunClimber(c: Climber, ghost h: Height) returns (next: Climber)
      requires c.pc.CWaitAction? || c.pc.CSetAction? || c.pc.CPostAction?
      modifies this
      ensures ClimberReady(c, h, old(Value())) ==>
        next == ClimberNext(c, h, old(Value())) && Value() == ClimberWorld(c.pc, old(Value()))
      ensures !ClimberReady(c, h, old(Value())) ==> next == c && Value() == old(Value())
    {
      next := c;
      match c.pc {
        case CWaitAction => if action > 0 { action, next := action - 1, c.(pc := CSetAction); }
        case CSetAction => current, next := EVENT_1, c.(pc := CPostAction);
        case CPostAction => action, next := action + 1, c.(pc := CPause);
      }
    }

    /** The statements of `gyroscope_thread` about the gyroscope and its flag. */
    method RunCorrector(r: Corrector, ghost f: Fuel) returns (next: Corrector)
      requires r.cell < |gyros| == |on|
      requires r.pc.GTest? || r.pc.GFlagOn? || r.pc.GFlagOff? || r.pc.GSign? || r.pc.GLoadGyro? || r.pc.GStoreGyro?
      modifies this
      ensures next == CorrectorNext(r, f, old(Value())) && Value() == CorrectorWorld(r, old(Value()))
    {
      match r.pc {
        case GTest => next := r.(pc := if gyros[r.cell] != 0 then GFlagOn else GFlagOff);
        case GFlagOn => on, next := on[r.cell := true], r.(pc := GWaitGas);
        case GFlagOff => on, next := on[r.cell := false], r.(pc := GPostIdle);
        case GSign => next := r.(pc := GLoadGyro(gyros[r.cell] > 0));
        case GLoadGyro(down) => next := r.(pc := GStoreGyro(down, gyros[r.cell]));
        case GStoreGyro(down, seen) =>
          if down {
            gyros := gyros[r.cell := seen - 1];
          } else {
            gyros := gyros[r.cell := seen + 1];
          }
          next := r.(pc := GPostOwn);
      }
    }

    /** `state_gyros[i] = 0` in `create_signals_gyros`. */
    method ClearFlag(i: nat)
      modifies this
      ensures Value() == ClimberWorld(CRearm(i), old(Value()))
    {
      if i < |on| {
        on := on[i := false];
      }
    }

    /** Whatever the rest of the controller and the simulator write. */
    method Interfere(w: World)
      modifies this
      ensures Value() == w
    {
      action, gs, current, on, gyros := w.action, w.gs, w.current, w.on, w.gyros;
    }
  }

  class Program {
    const altitude: Altitude
    const tank: Tank
    const panel: Panel
    var engine: EnginePc
    var climber: Climber
    var watcher: WatcherPc
    var readers: seq<ReaderPc>
    var correctors: seq<Corrector>

    ghost function Abstract(): State
      reads this, altitude, tank, panel
    {
      State(altitude.Value(), tank.Value(), panel.Value(), engine, climber, watcher, readers, correctors)
    }

    /** What `init_shared_memory` has read, and the threads that `main` has started. */
    constructor (distance: int, fuel: int, deflections: seq<int>, readerThreads: nat)
      ensures fresh(altitude) && fresh(tank) && fresh(panel)
      ensures IsStart(Abstract())
      ensures altitude.distance == distance && tank.gasoline == fuel && panel.gyros == deflections
      ensures |panel.gs| == |panel.on| == |correctors| == |deflections| && |readers| == readerThreads
      ensures forall i :: 0 <= i < |deflections| ==>
        panel.gs[i] == 1 && correctors[i] == Corrector(i, GPause, 1, 0)
    {
      altitude := new Altitude(distance);
      tank := new Tank(fuel);
      panel := new Panel(deflections);
      correctors := seq(|deflections|, i requires i >= 0 => Corrector(i, GPause, 1, 0));
      engine, climber, watcher := EReport, Climber(CPause, 0), XReport;
      readers := seq(readerThreads, _ => DReport);
    }

    /** The next statement of `pricipal_engine_thread`. */
    method RunEngine()
      modifies this, altitude, tank, panel
      ensures Abstract() == Step(old(Abstract()), Engine)
    {
      ghost var h, f, w := altitude.Value(), tank.Value(), panel.Value();
      if engine.EReport? {
        engine := EWaitDist;
      } else if engine.EWaitDist? || engine.ELoadDist? || engine.EStoreDist? || engine.EPublish? || engine.EPostDist? {
        engine := altitude.RunEngine(engine, f, w);
      } else if engine.EWaitGas? || engine.ELoadGas? || engine.EStoreGas? || engine.EPostGas? {
        engine := tank.RunEngine(engine, h, w);
      } else {
        engine := panel.RunEngine(engine, h, f);
      }
    }

    /** The next statement of `go_up_30m`. */
    method RunClimber()
      modifies this, altitude, panel
      ensures Abstract() == Step(old(Abstract()), Climb)
    {
      assert correctors + [] == correctors;
      if climber.pc.CRearm? {
        Rearm(climber.pc.i);
      } else if climber.pc.CWaitAction? || climber.pc.CSetAction? || climber.pc.CPostAction? {
        climber := panel.RunClimber(climber, altitude.Value());
      } else {
        climber := altitude.RunClimber(climber, panel.Value());
      }
    }

    /** The loop of `create_signals_gyros(0)`. */
    method Rearm(i: nat)
      requires climber.pc == CRearm(i)
      modifies this, panel
      ensures Abstract() == Step(old(Abstract()), Climb)
    {
      assert correctors + [] == correctors;
      if i < |panel.gs| {
        correctors := correctors + [Corrector(i, GPause, panel.gs[i], 0)];
        climber := climber.(pc := CRearm(i + 1));
      } else {
        climber := climber.(pc := CWaitAction);
      }
      panel.ClearFlag(i);
    }

    /** The next statement of `gyroscope_thread` in correction thread `k`. */
    method RunCorrector(k: nat)
      requires k < |correctors| && correctors[k].cell < |panel.gyros| == |panel.on|
      modifies this, tank, panel
      ensures Abstract() == Step(old(Abstract()), Correct(k))
    {
      var r := correctors[k];
      if r.pc.GWaitGas? || r.pc.GLoadGas? || r.pc.GStoreGas? || r.pc.GPostGas? {
        r := tank.RunCorrector(r, panel.Value());
      } else if r.pc.GPause? || r.pc.GWaitOwn? || r.pc.GPostOwn? || r.pc.GSleep? || r.pc.GPostIdle?
                || r.pc.GCancelled? {
        r := WaitAndSleep(r);
      } else {
        r := panel.RunCorrector(r, tank.Value());
      }
      correctors := correctors[k := r];
    }

    /** Its copy of the semaphore, and the sleep and the pauses. */
    method WaitAndSleep(r: Corrector) returns (next: Corrector)
      requires r.pc.GPause? || r.pc.GWaitOwn? || r.pc.GPostOwn? || r.pc.GSleep? || r.pc.GPostIdle? || r.pc.GCancelled?
      requires r.cell < |panel.gyros| == |panel.on|
      ensures next ==
        if CorrectorReady(r, tank.Value(), panel.Value()) then CorrectorNext(r, tank.Value(), panel.Value()) else r
    {
      next := r;
      match r.pc {
        case GPause => next := r.(pc := GWaitOwn);
        case GWaitOwn => if r.own > 0 { next := r.(pc := GTest, own := r.own - 1); }
        case GPostOwn => next := r.(pc := GSleep, own := r.own + 1);
        case GSleep => next := r.(pc := GWaitOwn);
        case GPostIdle => next := r.(pc := GPause, own := r.own + 1);
        case GCancelled =>
      }
    }

    method RunWatcher()
      modifies this, tank
      ensures Abstract() == Step(old(Abstract()), Watch)
    {
      watcher := tank.RunWatcher(watcher);
    }

    method RunReader(i: nat)
      requires i < |readers|
      modifies this, altitude
      ensures Abstract() == Step(old(Abstract()), Read(i))
    {
      var next := altitude.RunReader(readers[i]);
      readers := readers[i := next];
    }

    /** A pending cancellation takes effect at the calls where it can. */
    method CancelCorrector(k: nat)
      requires k < |correctors|
      modifies this
      ensures Abstract() == Step(old(Abstract()), Cancel(k))
    {
      if Cancellable(correctors[k].pc) {
        correctors := correctors[k := correctors[k].(pc := GCancelled)];
      }
    }

    /** A round of the loop of `create_signals_gyros(0)`, called by the controller. */
    method CreateCorrector(cell: nat)
      requires cell < |panel.gs| == |panel.on|
      modifies this, panel
      ensures Abstract() == Step(old(Abstract()), Create(cell))
    {
      correctors := correctors + [Corrector(cell, GPause, panel.gs[cell], 0)];
      panel.ClearFlag(cell);
    }

    /** A turn of whichever thread; if there is no such thread, nothing happens. */
    method Take(t: Turn)
      modifies this, altitude, tank, panel
      ensures Abstract() == Step(old(Abstract()), t)
    {
      match t {
        case Engine => RunEngine();
        case Climb => RunClimber();
        case Watch => RunWatcher();
        case Read(i) =>
          if i < |readers| {
            RunReader(i);
          }
        case Correct(k) =>
          if k < |correctors| && correctors[k].cell < |panel.gyros| && |panel.gyros| == |panel.on| {
            RunCorrector(k);
          }
        case Cancel(k) =>
          if k < |correctors| {
            CancelCorrector(k);
          }
        case Create(cell) =>
          if cell < |panel.gs| && |panel.gs| == |panel.on| {
            CreateCorrector(cell);
          }
        case Elsewhere(w) =>
          if |w.gs| == |panel.gs| && |w.on| == |panel.on| && |w.gyros| == |panel.gyros| {
            panel.Interfere(w);
          }
      }
    }

    /** Any schedule from the start: in the program's own variables the accounts of
        altitude and fuel are right, the latter also by the actions at which the engine
        has chosen its power; the fuel has not risen; the fuel test goes to its abort if
        and only if less than ten units are left; and `sem_action` is where it should be. */
    method Execute(schedule: seq<Turn>)
      requires IsStart(Abstract())
      modifies this, altitude, tank, panel
      ensures Abstract() == Run(old(Abstract()), schedule)
      ensures altitude.distance == old(altitude.distance) - altitude.engineTicks + 6 * altitude.climbTicks
      ensures old(tank.gasoline) - tank.gasoline ==
        Sum(correctors, Ticks) + 5 * tank.accelerated + tank.normal + (tank.slowed - tank.dry)
      ensures tank.gasoline <= old(tank.gasoline)
      ensures !engine.ELoadGas? && !engine.EStoreGas? ==>
        old(tank.gasoline) - tank.gasoline == Sum(correctors, Ticks) + 5 * Choices(old(Abstract()), schedule, Full)
          + Choices(old(Abstract()), schedule, Braking) + Choices(old(Abstract()), schedule, Idle)
      ensures watcher.XPostGas? ==> (watcher.abort <==> tank.gasoline < 10)
      ensures panel.action + EngineHoldsAction(engine) + ClimberHoldsAction(climber.pc)
        == old(panel.action) + Drift(old(Abstract()), schedule, ACTION)
    {
      FuelByAction(Abstract(), schedule);
      ActionLedger(Abstract(), schedule);
      ghost var initial, fuel := altitude.distance, tank.gasoline;
      StartAltitude(Abstract());
      StartFuel(Abstract());
      for n := 0 to |schedule|
        invariant Run(Abstract(), schedule[n..]) == Run(old(Abstract()), schedule)
        invariant AltitudeInv(Abstract(), initial) && FuelInv(Abstract(), fuel)
        invariant tank.gasoline <= old(tank.gasoline)
      {
        StepKeepsAltitude(Abstract(), schedule[n], initial);
        StepKeepsFuel(Abstract(), schedule[n], fuel);
        Take(schedule[n]);
      }
    }
  }

}
