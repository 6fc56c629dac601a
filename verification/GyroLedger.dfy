/** The account of the gyroscopes: what corrections take from the fuel they take off
    the deflection. */
module GyroLedger {
  import opened Counting
  import opened FlightControl
  import opened FlightLedger

  // ---------- gyroscopes ----------

  function Abs(x: int): nat { if x < 0 then -x else x }

  /** A correction whose fuel is taken and whose gyroscope is not yet moved. */
  function Pending(r: Corrector): int {
    if r.pc.GPostGas? || r.pc.GSign? || r.pc.GLoadGyro? || r.pc.GStoreGyro? then 1 else 0
  }

  function PendingAt(cell: nat): Corrector -> int {
    (r: Corrector) => if r.cell == cell then Pending(r) else 0
  }

  function TicksAt(cell: nat): Corrector -> int {
    (r: Corrector) => if r.cell == cell then r.ticks else 0
  }

  function LiveAt(cell: nat): Corrector -> int {
    (r: Corrector) => if r.cell == cell && !r.pc.GCancelled? then 1 else 0
  }

  /** No overshoot: a gyroscope is between zero and where it was. */
  predicate Between(x: int, initial: int) {
    if initial >= 0 then 0 <= x <= initial else initial <= x <= 0
  }

  predicate CellOk(gyro: int, initial: int, ticks: int, pending: int, live: int) {
    && ticks - pending + Abs(gyro) == Abs(initial)
    && Between(gyro, initial)
    && (gyro != 0 ==> live <= 1)
  }

  /** What a correction thread has seen of its gyroscope is still so. */
  predicate SeesGyro(r: Corrector, gyro: int) {
    && (r.pc.GFlagOn? || r.pc.GWaitGas? || r.pc.GLoadGas? || r.pc.GStoreGas? || Pending(r) == 1 ==> gyro != 0)
    && (r.pc.GLoadGyro? ==> r.pc.down == (gyro > 0))
    && (r.pc.GStoreGyro? ==> r.pc.down == (gyro > 0) && r.pc.seen == gyro)
  }

  ghost predicate CellInv(s: State, initial: seq<int>, cell: nat)
    requires cell < |s.world.gyros| == |initial|
  {
    CellOk(s.world.gyros[cell], initial[cell], Sum(s.correctors, TicksAt(cell)), Sum(s.correctors, PendingAt(cell)),
      Sum(s.correctors, LiveAt(cell)))
  }

  ghost predicate GyroInv(s: State, initial: seq<int>) {
    && |s.world.gyros| == |s.world.on| == |s.world.gs| == |initial|
    && (forall cell :: 0 <= cell < |initial| ==> CellInv(s, initial, cell))
    && (forall k :: 0 <= k < |s.correctors| ==>
          s.correctors[k].cell < |initial| && SeesGyro(s.correctors[k], s.world.gyros[s.correctors[k].cell]))
  }

  /** A new thread for gyroscope `cell` does no harm: the one before it is gone, or
      there is nothing to correct. */
  ghost predicate MayCreate(s: State, cell: nat) {
    cell < |s.world.gyros| ==> s.world.gyros[cell] == 0 || Sum(s.correctors, LiveAt(cell)) == 0
  }

  /** Nobody else moves the gyroscopes, and the correction thread of a deflected one is
      replaced only when its cancellation has taken effect. */
  ghost predicate Orderly(s: State, t: Turn) {
    match t
    case Elsewhere(w) => w.gyros == s.world.gyros
    case Create(cell) => MayCreate(s, cell)
    case Climb => s.climber.pc.CRearm? ==> MayCreate(s, s.climber.pc.i)
    case _ => true
  }

  ghost predicate OrderlyRun(s: State, schedule: seq<Turn>)
    decreases |schedule|
  {
    schedule != [] ==> Orderly(s, schedule[0]) && OrderlyRun(Step(s, schedule[0]), schedule[1..])
  }

  /** One step of a correction thread, seen on the account of its own gyroscope. */
  lemma CorrectorKeepsCell(r: Corrector, f: Fuel, w: World, initial: int, ticks: int, pending: int, live: int)
    requires CorrectorReady(r, f, w) && SeesGyro(r, w.gyros[r.cell])
    requires CellOk(w.gyros[r.cell], initial, ticks, pending, live)
    ensures
      var r', gyro' := CorrectorNext(r, f, w), CorrectorWorld(r, w).gyros[r.cell];
      && CellOk(gyro', initial, ticks - r.ticks + r'.ticks, pending - Pending(r) + Pending(r'), live)
      && SeesGyro(r', gyro')
  {
  }

  lemma OtherCellsStay(s: State, k: nat, initial: seq<int>, cell: nat)
    requires GyroInv(s, initial) && Ready(s, Correct(k)) && cell < |initial| && cell != s.correctors[k].cell
    ensures |Step(s, Correct(k)).world.gyros| == |initial| && CellInv(Step(s, Correct(k)), initial, cell)
  {
    var r' := CorrectorNext(s.correctors[k], s.fuel, s.world);
    SumUpdate(s.correctors, k, r', TicksAt(cell));
    SumUpdate(s.correctors, k, r', PendingAt(cell));
    SumUpdate(s.correctors, k, r', LiveAt(cell));
    assert CellInv(s, initial, cell);
  }

  lemma OwnCellStays(s: State, k: nat, initial: seq<int>, cell: nat)
    requires GyroInv(s, initial) && Ready(s, Correct(k)) && cell < |initial| && cell == s.correctors[k].cell
    ensures |Step(s, Correct(k)).world.gyros| == |initial| && CellInv(Step(s, Correct(k)), initial, cell)
  {
    var r := s.correctors[k];
    var r' := CorrectorNext(r, s.fuel, s.world);
    SumUpdate(s.correctors, k, r', TicksAt(cell));
    SumUpdate(s.correctors, k, r', PendingAt(cell));
    SumUpdate(s.correctors, k, r', LiveAt(cell));
    assert CellInv(s, initial, cell);
    CorrectorKeepsCell(r, s.fuel, s.world, initial[cell], Sum(s.correctors, TicksAt(cell)),
      Sum(s.correctors, PendingAt(cell)), Sum(s.correctors, LiveAt(cell)));
  }

  /** The other threads of the same gyroscope are all cancelled, if it is deflected. */
  lemma OnlyLiveOne(s: State, k: nat, j: nat, initial: seq<int>)
    requires GyroInv(s, initial) && k < |s.correctors| && j < |s.correctors| && j != k
    requires s.correctors[j].cell == s.correctors[k].cell && !s.correctors[k].pc.GCancelled?
    requires s.world.gyros[s.correctors[k].cell] != 0
    ensures s.correctors[j].pc.GCancelled?
  {
    var cell := s.correctors[k].cell;
    assert CellInv(s, initial, cell);
    if !s.correctors[j].pc.GCancelled? {
      SumAtLeastTwo(s.correctors, if j < k then j else k, if j < k then k else j, LiveAt(cell));
    }
  }

  lemma OthersSeeTheSame(s: State, k: nat, j: nat, initial: seq<int>)
    requires GyroInv(s, initial) && Ready(s, Correct(k)) && j < |s.correctors| && j != k
    ensures SeesGyro(s.correctors[j], CorrectorWorld(s.correctors[k], s.world).gyros[s.correctors[j].cell])
  {
    assert SeesGyro(s.correctors[j], s.world.gyros[s.correctors[j].cell]);
    assert SeesGyro(s.correctors[k], s.world.gyros[s.correctors[k].cell]);
    if s.correctors[j].cell == s.correctors[k].cell && s.world.gyros[s.correctors[k].cell] != 0 {
      OnlyLiveOne(s, k, j, initial);
    }
  }

  lemma CorrectKeepsGyros(s: State, k: nat, initial: seq<int>)
    requires GyroInv(s, initial) && Ready(s, Correct(k))
    ensures GyroInv(Step(s, Correct(k)), initial)
  {
    var s' := Step(s, Correct(k));
    forall cell | 0 <= cell < |initial|
      ensures CellInv(s', initial, cell)
    {
      if cell == s.correctors[k].cell {
        OwnCellStays(s, k, initial, cell);
      } else {
        OtherCellsStay(s, k, initial, cell);
      }
    }
    forall j | 0 <= j < |s'.correctors|
      ensures s'.correctors[j].cell < |initial| && SeesGyro(s'.correctors[j], s'.world.gyros[s'.correctors[j].cell])
    {
      if j != k {
        OthersSeeTheSame(s, k, j, initial);
      }
    }
  }

  /** A cancellation takes effect only where no correction is half done. */
  lemma CancelKeepsGyros(s: State, k: nat, initial: seq<int>)
    requires GyroInv(s, initial) && Ready(s, Cancel(k))
    ensures GyroInv(Step(s, Cancel(k)), initial)
  {
    var s', r' := Step(s, Cancel(k)), s.correctors[k].(pc := GCancelled);
    forall cell | 0 <= cell < |initial|
      ensures CellInv(s', initial, cell)
    {
      SumUpdate(s.correctors, k, r', TicksAt(cell));
      SumUpdate(s.correctors, k, r', PendingAt(cell));
      SumUpdate(s.correctors, k, r', LiveAt(cell));
      assert CellInv(s, initial, cell);
    }
  }

  lemma CreateKeepsGyros(s: State, s': State, cell: nat, initial: seq<int>)
    requires GyroInv(s, initial) && cell < |initial| && MayCreate(s, cell)
    requires s'.correctors == s.correctors + [NewCorrector(cell, s.world)]
    requires s'.world.gyros == s.world.gyros && |s'.world.on| == |s'.world.gs| == |initial|
    ensures GyroInv(s', initial)
  {
    var r := NewCorrector(cell, s.world);
    forall c | 0 <= c < |initial|
      ensures CellInv(s', initial, c)
    {
      SumAppend(s.correctors, r, TicksAt(c));
      SumAppend(s.correctors, r, PendingAt(c));
      SumAppend(s.correctors, r, LiveAt(c));
      assert CellInv(s, initial, c);
    }
  }

  lemma SameGyros(s: State, s': State, initial: seq<int>)
    requires GyroInv(s, initial) && s'.correctors == s.correctors && s'.world.gyros == s.world.gyros
    requires |s'.world.on| == |s'.world.gs| == |initial|
    ensures GyroInv(s', initial)
  {
    forall cell | 0 <= cell < |initial|
      ensures CellInv(s', initial, cell)
    {
      assert CellInv(s, initial, cell);
    }
  }

  lemma StepKeepsGyros(s: State, t: Turn, initial: seq<int>)
    requires GyroInv(s, initial) && Orderly(s, t)
    ensures GyroInv(Step(s, t), initial)
  {
    if Ready(s, t) {
      match t
      case Correct(k) => CorrectKeepsGyros(s, k, initial);
      case Cancel(k) => CancelKeepsGyros(s, k, initial);
      case Create(cell) => CreateKeepsGyros(s, Step(s, t), cell, initial);
      case Climb => ClimbKeepsGyros(s, initial);
      case _ => SameGyros(s, Step(s, t), initial);
    }
  }

  lemma ClimbKeepsGyros(s: State, initial: seq<int>)
    requires GyroInv(s, initial) && Ready(s, Climb) && Orderly(s, Climb)
    ensures GyroInv(Step(s, Climb), initial)
  {
    if ClimberCreates(s.climber.pc, s.world) != [] {
      CreateKeepsGyros(s, Step(s, Climb), s.climber.pc.i, initial);
    } else {
      assert s.correctors + [] == s.correctors;
      SameGyros(s, Step(s, Climb), initial);
    }
  }

  lemma {:induction false} RunKeepsGyros(s: State, schedule: seq<Turn>, initial: seq<int>)
    requires GyroInv(s, initial) && OrderlyRun(s, schedule)
    ensures GyroInv(Run(s, schedule), initial)
    decreases |schedule|
  {
    if schedule != [] {
      StepKeepsGyros(s, schedule[0], initial);
      RunKeepsGyros(Step(s, schedule[0]), schedule[1..], initial);
    }
  }

  /** As many semaphores and flags as gyroscopes, and a gyroscope for each thread. */
  ghost predicate WellFormed(s: State) {
    && |s.world.gyros| == |s.world.on| == |s.world.gs|
    && (forall k :: 0 <= k < |s.correctors| ==> s.correctors[k].cell < |s.world.gyros|)
  }

  /** At most one live correction thread for each gyroscope that is deflected. */
  ghost predicate OneEach(s: State) {
    && WellFormed(s)
    && (forall cell: nat :: cell < |s.world.gyros| && s.world.gyros[cell] != 0 ==> Sum(s.correctors, LiveAt(cell)) <= 1)
  }

  lemma StartGyros(s: State)
    requires IsStart(s) && OneEach(s)
    ensures GyroInv(s, s.world.gyros)
  {
    forall cell | 0 <= cell < |s.world.gyros|
      ensures CellInv(s, s.world.gyros, cell)
    {
      SumZero(s.correctors, TicksAt(cell));
      SumZero(s.correctors, PendingAt(cell));
    }
  }

  /** Corrections conserve: whatever the interleaving, and also when threads are
      cancelled, the units of fuel taken for a gyroscope, less the one of a correction
      in hand, and what is left of its deflection add up to the initial deflection.
      So its sign never flips, and it is level exactly when it has taken its initial
      deflection in fuel. */
  lemma GyroLedger(s: State, schedule: seq<Turn>, cell: nat)
    requires IsStart(s) && OneEach(s) && OrderlyRun(s, schedule) && cell < |s.world.gyros|
    ensures
      var now := Run(s, schedule);
      var taken, inHand := Sum(now.correctors, TicksAt(cell)), Sum(now.correctors, PendingAt(cell));
      && |now.world.gyros| == |s.world.gyros|
      && taken - inHand + Abs(now.world.gyros[cell]) == Abs(s.world.gyros[cell])
      && Between(now.world.gyros[cell], s.world.gyros[cell])
      && (now.world.gyros[cell] == 0 <==> taken - inHand == Abs(s.world.gyros[cell]))
  {
    StartGyros(s);
    RunKeepsGyros(s, schedule, s.world.gyros);
    assert CellInv(Run(s, schedule), s.world.gyros, cell);
  }

  function Deflection(x: int): int { Abs(x) }

  /** Fuel taken for corrections, less those in hand, plus all that is left to correct. */
  ghost function Total(s: State): int {
    Sum(s.correctors, Ticks) - Sum(s.correctors, Pending) + Sum(s.world.gyros, Deflection)
  }

  lemma CorrectKeepsTotal(s: State, k: nat, initial: seq<int>)
    requires GyroInv(s, initial) && Ready(s, Correct(k))
    ensures Total(Step(s, Correct(k))) == Total(s)
  {
    var r := s.correctors[k];
    var r' := CorrectorNext(r, s.fuel, s.world);
    assert SeesGyro(r, s.world.gyros[r.cell]);
    SumUpdate(s.correctors, k, r', Ticks);
    SumUpdate(s.correctors, k, r', Pending);
    if r.pc.GStoreGyro? {
      SumUpdate(s.world.gyros, r.cell, if r.pc.down then r.pc.seen - 1 else r.pc.seen + 1, Deflection);
    }
  }

  lemma CancelKeepsTotal(s: State, k: nat)
    requires Ready(s, Cancel(k))
    ensures Total(Step(s, Cancel(k))) == Total(s)
  {
    SumUpdate(s.correctors, k, s.correctors[k].(pc := GCancelled), Ticks);
    SumUpdate(s.correctors, k, s.correctors[k].(pc := GCancelled), Pending);
  }

  lemma CreateKeepsTotal(s: State, s': State, cell: nat)
    requires s'.correctors == s.correctors + [NewCorrector(cell, s.world)] && s'.world.gyros == s.world.gyros
    ensures Total(s') == Total(s)
  {
    SumAppend(s.correctors, NewCorrector(cell, s.world), Ticks);
    SumAppend(s.correctors, NewCorrector(cell, s.world), Pending);
  }

  lemma ClimbKeepsTotal(s: State)
    requires Ready(s, Climb)
    ensures Total(Step(s, Climb)) == Total(s)
  {
    if ClimberCreates(s.climber.pc, s.world) != [] {
      CreateKeepsTotal(s, Step(s, Climb), s.climber.pc.i);
    } else {
      assert s.correctors + [] == s.correctors;
    }
  }

  lemma StepKeepsTotal(s: State, t: Turn, initial: seq<int>)
    requires GyroInv(s, initial) && Orderly(s, t)
    ensures Total(Step(s, t)) == Total(s)
  {
    if Ready(s, t) {
      match t
      case Correct(k) => CorrectKeepsTotal(s, k, initial);
      case Cancel(k) => CancelKeepsTotal(s, k);
      case Create(cell) => CreateKeepsTotal(s, Step(s, t), cell);
      case Climb => ClimbKeepsTotal(s);
      case _ =>
    }
  }

  lemma {:induction false} RunKeepsTotal(s: State, schedule: seq<Turn>, initial: seq<int>)
    requires GyroInv(s, initial) && OrderlyRun(s, schedule)
    ensures Total(Run(s, schedule)) == Total(s)
    decreases |schedule|
  {
    if schedule != [] {
      StepKeepsGyros(s, schedule[0], initial);
      StepKeepsTotal(s, schedule[0], initial);
      RunKeepsTotal(Step(s, schedule[0]), schedule[1..], initial);
    }
  }

  lemma StartTotal(s: State)
    requires IsStart(s)
    ensures Total(s) == Sum(s.world.gyros, Deflection)
  {
    SumZero(s.correctors, Ticks);
    SumZero(s.correctors, Pending);
  }

  /** The two ledgers together: whenever no correction is in hand, all the fuel spent
      is what the engine has burnt and what the gyroscopes have been moved. */
  lemma FuelAccountsForGyros(s: State, schedule: seq<Turn>)
    requires IsStart(s) && OneEach(s) && OrderlyRun(s, schedule)
    requires Sum(Run(s, schedule).correctors, Pending) == 0
    ensures
      var now := Run(s, schedule);
      s.fuel.gasoline - now.fuel.gasoline ==
        Sum(s.world.gyros, Deflection) - Sum(now.world.gyros, Deflection)
        + 5 * now.fuel.accelerated + now.fuel.normal + (now.fuel.slowed - now.fuel.dry)
  {
    StartGyros(s);
    StartTotal(s);
    RunKeepsTotal(s, schedule, s.world.gyros);
    FuelLedger(s, schedule);
  }
}
