/// `Chara` (HPCChara.cpp): one racing character, updated in place. Every method is
/// proved to change the fields exactly as the matching function of `CharaRules` says.
module Charas {
  import opened Params
  import opened Geometry
  import opened Actions
  import opened CharaParams
  import opened CharaRules
  import opened Randoms
  import opened Brains
  import IntMath

  class Chara {
    const brain: Brain
    var pos: Vec2
    var prevPos: Vec2
    var decided: Action
    var vel: Vec2
    var accelCount: int
    var accelWaitTurn: int
    var accelWaitTurnMax: int
    var targetLotusNo: int
    var roundCount: int
    var rank: int
    var passedTurn: int

    /// The character's fields as a value.
    function State(): CharaState
      reads this
    {
      CharaState(pos, prevPos, decided, vel, accelCount, accelWaitTurn, accelWaitTurnMax,
                 targetLotusNo, roundCount, rank, passedTurn)
    }

    ghost predicate Valid()
      reads this, brain
    {
      CharaRules.Valid(State()) && brain.Valid()
    }

    /// The default constructor: zeroed fields, then `reset`.
    constructor ()
      ensures Valid() && State() == Initial && fresh(brain)
      ensures brain.param == NoParam && brain.cpuSaveAccelTurn == 0
    {
      brain := new Brain();
      decided := NoneDecided;
      pos, prevPos, vel := Zero, Zero, Zero;
      accelCount := CharaInitAccelCount;
      accelWaitTurn, accelWaitTurnMax := CharaAddAccelWaitTurn, CharaAddAccelWaitTurn;
      targetLotusNo, roundCount, rank, passedTurn := 0, 0, 0, 0;
    }

    /// `isGoal`: the rule `CharaRules.IsGoal` read on the fields.
    predicate IsGoal()
      reads this
      ensures IsGoal() <==> CharaRules.IsGoal(State())
    {
      roundCount == StageRoundCount
    }

    /// `passedLotusCount` on a stage with `lotusCount` lotuses.
    function PassedLotusCount(lotusCount: int): (r: int)
      reads this
      ensures r == CharaRules.PassedLotusCount(State(), lotusCount)
    {
      roundCount * lotusCount + targetLotusNo
    }

    /// `reset`: the fields of `CharaRules.Reset`, and the brain's parameter forgotten.
    method Reset()
      requires Valid()
      modifies this, brain
      ensures Valid() && State() == CharaRules.Reset(old(State()))
      ensures brain.param == NoParam && brain.cpuSaveAccelTurn == old(brain.cpuSaveAccelTurn)
    {
      pos, prevPos := Zero, Zero;
      brain.Reset();
      vel := Zero;
      accelCount := CharaInitAccelCount;
      accelWaitTurn := CharaAddAccelWaitTurn;
      accelWaitTurnMax := CharaAddAccelWaitTurn;
      targetLotusNo, roundCount, rank, passedTurn := 0, 0, 0, 0;
    }

    /// `setup`: place the character, hand its parameter to the brain and derive the
    /// recharge period from its strength.
    method Setup(p: Vec2, param: CharaParam)
      modifies this, brain
      ensures State() == CharaRules.Setup(old(State()), p, param.strength)
      ensures brain.param == param && brain.cpuSaveAccelTurn == old(brain.cpuSaveAccelTurn)
    {
      pos, prevPos := p, p;
      brain.Setup(param);
      accelWaitTurnMax := WaitTurnMax(param.strength);
    }

    /// `init`: prepare the brain for a stage.
    method Init()
      requires brain.param.kind != NoType
      modifies brain
      ensures brain.param == old(brain.param)
      ensures brain.param.kind == Cpu ==> brain.cpuSaveAccelTurn == 0
      ensures brain.param.kind == Human ==> brain.cpuSaveAccelTurn == old(brain.cpuSaveAccelTurn)
    {
      brain.Init();
    }

    /// `decideAction`: snapshot the region, then ask the brain, which sees this
    /// character as it is after the snapshot.
    method DecideAction(enemies: seq<CharaState>, lotuses: seq<Circle>, field: Field,
                        rng: Random, k: Kinematics, answer: StageView -> Action)
      requires Valid() && brain.param.kind != NoType
      requires 0 <= targetLotusNo < |lotuses|
      modifies this, brain, rng
      ensures Valid()
      ensures var snap := old(State()).(prevPos := old(pos));
        var view := StageView(Visible(snap), enemies, lotuses, field);
        State() == snap.(decided := decided) &&
        brain.param == old(brain.param) &&
        (brain.param.kind == Human ==>
          decided == answer(view) && brain.cpuSaveAccelTurn == old(brain.cpuSaveAccelTurn) &&
          rng.State() == old(rng.State())) &&
        (brain.param.kind == Cpu ==>
          CpuResult(decided, brain.cpuSaveAccelTurn, rng.State()) ==
          CpuDecide(Visible(snap), lotuses, old(brain.cpuSaveAccelTurn), old(rng.State()), k))
    {
      prevPos := pos;
      decided := brain.GetNextAction(StageView(Visible(State()), enemies, lotuses, field), rng, k, answer);
    }

    /// `accelIfPossible`.
    method AccelIfPossible(target: Vec2, k: Kinematics)
      modifies this
      ensures State() == CharaRules.AccelIfPossible(old(State()), target, k)
    {
      if accelCount <= 0 {
        return;
      }
      var toTarget := Sub(target, pos);
      if IsZero(toTarget) {
        return;
      }
      accelCount := accelCount - 1;
      vel := k.accelVel(toTarget);
    }

    /// `execAction`: a decided action is carried out and then reset.
    method ExecAction(k: Kinematics)
      requires IsDecided(decided)
      modifies this
      ensures State() == CharaRules.ExecAction(old(State()), k)
    {
      match decided.kind {
        case Wait =>
        case Accel => AccelIfPossible(decided.value, k);
      }
      decided := NoneDecided;
    }

    /// `move`.
    method Move(k: Kinematics, field: Field)
      modifies this
      ensures State() == CharaRules.Move(old(State()), k, field)
    {
      var (p, v) := k.move(pos, vel, field.flowVel);
      pos, vel := p, v;
    }

    /// `separation`.
    method Separation(ofs: Vec2)
      modifies this
      ensures State() == Separate(old(State()), ofs)
    {
      pos := Add(pos, ofs);
    }

    /// `setVel`.
    method SetVel(v: Vec2)
      modifies this
      ensures State() == old(State()).(vel := v)
    {
      vel := v;
    }

    /// `setRank`.
    method SetRank(r: int)
      modifies this
      ensures State() == old(State()).(rank := r)
    {
      rank := r;
    }

    /// `correctInside`.
    method CorrectInside(k: Kinematics, field: Field)
      modifies this
      ensures State() == CharaRules.CorrectInside(old(State()), k, field)
    {
      var (outside, p) := k.correctInside(Circle(pos, k.charaRadius), field.rect);
      if outside {
        pos := p;
        vel := Zero;
      }
    }

    /// `updateTurn`; a goal character no longer counts turns.
    method UpdateTurn()
      requires !IsGoal()
      modifies this
      ensures State() == CharaRules.UpdateTurn(old(State()))
    {
      passedTurn := passedTurn + 1;
      accelWaitTurn := accelWaitTurn - 1;
      if accelWaitTurn <= 0 {
        accelCount := IntMath.Min(accelCount + 1, CharaAccelCountMax);
        accelWaitTurn := accelWaitTurnMax;
      }
    }

    /// `incTargetLotusNo` on a stage with `lotusCount` lotuses.
    method IncTargetLotusNo(lotusCount: int)
      modifies this
      ensures State() == IncTarget(old(State()), lotusCount)
    {
      targetLotusNo := targetLotusNo + 1;
      if lotusCount == targetLotusNo {
        targetLotusNo := 0;
        roundCount := roundCount + 1;
      }
    }
  }
}
