/// `Brain` (HPCBrain.cpp): the policy of one character. A human character's policy is
/// the contestant's `Answer`, which the model takes as a function parameter; a CPU
/// character's policy is modelled in full, including its fixed random-draw pattern
/// and its "save acceleration" counter.
module Brains {
  import opened Params
  import opened Geometry
  import opened Actions
  import opened CharaParams
  import opened CharaRules
  import opened Randoms

  /// The most consecutive turns a CPU waits to save acceleration.
  const CpuSaveAccelTurnMax := 2

  /// The outcome of one CPU decision: the action, the new save counter and the state
  /// of the game generator afterwards.
  datatype CpuResult = CpuResult(action: Action, saveTurn: int, seed: Seed)

  /// The slur angle of a CPU acceleration: a magnitude in `[17, 20]` degrees times a
  /// sign, each one draw. C++ does not fix which operand of the product is evaluated
  /// first; the model draws the magnitude first. Returns the angle and the state
  /// after both draws.
  function SlurDeg(s: Seed): (r: (int, Seed))
    ensures 17 <= r.0 <= 20 || -20 <= r.0 <= -17
    ensures r.1 == Step(Step(s))
  {
    var (deg, s1) := MinMaxDraw(s, 17, 20);
    var (sign, s2) := TermDraw(s1, 2);
    (deg * (if sign == 0 then -1 else 1), s2)
  }

  /// `getCpuNextAction`. Three draws always happen first (the slur magnitude, its
  /// sign, and the 40% "save" roll). A character with no budget waits. A saving
  /// character below the save limit waits and counts the turn. Otherwise the counter
  /// restarts and the character accelerates towards its target lotus, turned by the
  /// slur angle, unless it already stands on the lotus centre.
  function CpuDecide(player: CharaState, lotuses: seq<Circle>, saveTurn: int, s: Seed, k: Kinematics): (r: CpuResult)
    requires 0 <= player.targetLotusNo < |lotuses|
    ensures r.seed == Step(Step(Step(s)))
    ensures IsDecided(r.action)
    ensures 0 <= saveTurn <= CpuSaveAccelTurnMax ==> 0 <= r.saveTurn <= CpuSaveAccelTurnMax
    ensures player.accelCount == 0 ==> r.action == WaitAction() && r.saveTurn == saveTurn
    ensures player.accelCount != 0 ==> r.saveTurn == 0 || (r.saveTurn == saveTurn + 1 && saveTurn < CpuSaveAccelTurnMax)
    ensures 0 <= saveTurn && r.saveTurn == saveTurn + 1 ==> r.action == WaitAction()
    ensures r.saveTurn == 0 && player.accelCount != 0 && lotuses[player.targetLotusNo].pos == player.pos ==>
      r.action == WaitAction()
    ensures r.action.kind == Accel ==>
      player.accelCount != 0 && r.saveTurn == 0 && lotuses[player.targetLotusNo].pos != player.pos
  {
    var (slurDeg, s2) := SlurDeg(s);
    var (roll, s3) := TermDraw(s2, 100);
    var isSaveAccel := roll < 40;
    if player.accelCount == 0 then
      CpuResult(WaitAction(), saveTurn, s3)
    else if isSaveAccel && saveTurn < CpuSaveAccelTurnMax then
      CpuResult(WaitAction(), saveTurn + 1, s3)
    else
      var toTarget := Sub(lotuses[player.targetLotusNo].pos, player.pos);
      SubIsZeroIff(lotuses[player.targetLotusNo].pos, player.pos);
      if IsZero(toTarget) then CpuResult(WaitAction(), 0, s3)
      else CpuResult(AccelAction(Add(player.pos, k.rotateDeg(toTarget, slurDeg as real))), 0, s3)
  }

  /// With budget left, a CPU never waits more than `CpuSaveAccelTurnMax` turns in a
  /// row to save: a counter at the limit forces the non-saving path.
  lemma SaveLimitForcesAction(player: CharaState, lotuses: seq<Circle>, s: Seed, k: Kinematics)
    requires 0 <= player.targetLotusNo < |lotuses| && player.accelCount != 0
    ensures CpuDecide(player, lotuses, CpuSaveAccelTurnMax, s, k).saveTurn == 0
  {
  }

  class Brain {
    var param: CharaParam
    var cpuSaveAccelTurn: int

    ghost predicate Valid()
      reads this
    {
      0 <= cpuSaveAccelTurn <= CpuSaveAccelTurnMax
    }

    /// The default constructor: counter 0, then `reset`.
    constructor ()
      ensures Valid() && param == NoParam && cpuSaveAccelTurn == 0
    {
      param := NoParam;
      cpuSaveAccelTurn := 0;
    }

    /// `reset`: forget the parameter; the save counter is left as it is.
    method Reset()
      modifies this
      ensures param == NoParam && cpuSaveAccelTurn == old(cpuSaveAccelTurn)
    {
      param := NoParam;
    }

    /// `setup`: take the character's parameter.
    method Setup(p: CharaParam)
      modifies this
      ensures param == p && cpuSaveAccelTurn == old(cpuSaveAccelTurn)
    {
      param := p;
    }

    /// `initCpu`: restart the save counter.
    method InitCpu()
      modifies this
      ensures Valid() && cpuSaveAccelTurn == 0 && param == old(param)
    {
      cpuSaveAccelTurn := 0;
    }

    /// `init`: a CPU restarts its counter; a human's preparation is the contestant's
    /// `Answer::Init`, outside the model. A brain without a kind is a fault.
    method Init()
      requires param.kind != NoType
      modifies this
      ensures param == old(param)
      ensures param.kind == Cpu ==> cpuSaveAccelTurn == 0
      ensures param.kind == Human ==> cpuSaveAccelTurn == old(cpuSaveAccelTurn)
    {
      match param.kind {
        case Human =>
        case Cpu => InitCpu();
      }
    }

    /// `getCpuNextAction` on the game generator.
    method GetCpuNextAction(view: StageView, rng: Random, k: Kinematics) returns (a: Action)
      requires 0 <= view.player.targetLotusNo < |view.lotuses|
      modifies this, rng
      ensures param == old(param)
      ensures CpuResult(a, cpuSaveAccelTurn, rng.State()) ==
        CpuDecide(view.player, view.lotuses, old(cpuSaveAccelTurn), old(rng.State()), k)
    {
      var player := view.player;
      var deg := rng.RandMinMax(17, 20);
      var sign := rng.RandTerm(2);
      var slurDeg := deg * (if sign == 0 then -1 else 1);
      var roll := rng.RandTerm(100);
      var isSaveAccel := roll < 40;
      if player.accelCount == 0 {
        return WaitAction();
      }
      if isSaveAccel {
        if cpuSaveAccelTurn < CpuSaveAccelTurnMax {
          cpuSaveAccelTurn := cpuSaveAccelTurn + 1;
          return WaitAction();
        }
      }
      cpuSaveAccelTurn := 0;
      var toTarget := Sub(view.lotuses[player.targetLotusNo].pos, player.pos);
      if IsZero(toTarget) {
        return WaitAction();
      }
      a := AccelAction(Add(player.pos, k.rotateDeg(toTarget, slurDeg as real)));
    }

    /// `getNextAction`: a human asks the contestant's policy `answer`, which draws
    /// nothing; a CPU runs `getCpuNextAction`. A brain without a kind is a fault.
    method GetNextAction(view: StageView, rng: Random, k: Kinematics, answer: StageView -> Action)
      returns (a: Action)
      requires param.kind != NoType
      requires 0 <= view.player.targetLotusNo < |view.lotuses|
      modifies this, rng
      ensures param == old(param)
      ensures param.kind == Human ==>
        a == answer(view) && cpuSaveAccelTurn == old(cpuSaveAccelTurn) && rng.State() == old(rng.State())
      ensures param.kind == Cpu ==>
        CpuResult(a, cpuSaveAccelTurn, rng.State()) ==
        CpuDecide(view.player, view.lotuses, old(cpuSaveAccelTurn), old(rng.State()), k)
    {
      match param.kind {
        case Human => a := answer(view);
        case Cpu => a := GetCpuNextAction(view, rng, k);
      }
    }
  }
}
