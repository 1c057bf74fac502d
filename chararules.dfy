/// The per-character rules of `Chara` (HPCChara.cpp) as pure functions on a snapshot
/// of a character's fields. The class `Chara` (module Charas) is proved to update its
/// fields exactly as these functions say; the properties of the rules are proved
/// here, once.
module CharaRules {
  import opened Params
  import opened Geometry
  import opened Actions
  import IntMath

  /// Every field of a `Chara` except its brain and its stage accessor. `pos` and
  /// `prevPos` are the centres of `mRegion` and `mPrevRegion`, whose radius is always
  /// `Parameter::CharaRadius()`.
  datatype CharaState = CharaState(
    pos: Vec2,
    prevPos: Vec2,
    decided: Action,
    vel: Vec2,
    accelCount: int,
    accelWaitTurn: int,
    accelWaitTurnMax: int,
    targetLotusNo: int,
    roundCount: int,
    rank: int,
    passedTurn: int)

  /// What a character's policy reads through its `StageAccessor`: the player itself,
  /// the other characters in index order, the lotuses in use and the field.
  datatype StageView = StageView(
    player: CharaState,
    enemies: seq<CharaState>,
    lotuses: seq<Circle>,
    field: Field)

  /// The state a policy is handed: everything but the action decided this turn. The
  /// source's accessors hide `accelWaitTurnMax` too; a policy here may read it, so
  /// what is proved for every policy covers those that do not.
  function Visible(c: CharaState): CharaState {
    c.(decided := NoneDecided)
  }

  /// The bounds every character keeps: a budget within `[0, CharaAccelCountMax]`, a
  /// lap count within `[0, StageRoundCount]`, a target of 0 once goal, and
  /// non-negative counters.
  predicate Valid(c: CharaState) {
    0 <= c.accelCount <= CharaAccelCountMax &&
    0 <= c.targetLotusNo && 0 <= c.roundCount <= StageRoundCount &&
    (c.roundCount == StageRoundCount ==> c.targetLotusNo == 0) &&
    0 <= c.passedTurn
  }

  /// `Valid`, and the target is a lotus of a stage with `n` lotuses.
  predicate InStage(c: CharaState, n: int) {
    Valid(c) && c.targetLotusNo < n
  }

  /// `isGoal`: all laps done.
  predicate IsGoal(c: CharaState) {
    c.roundCount == StageRoundCount
  }

  /// `passedLotusCount` on a stage with `n` lotuses.
  function PassedLotusCount(c: CharaState, n: int): int {
    c.roundCount * n + c.targetLotusNo
  }

  /// The default constructor: all zero, no action decided, then `reset`.
  const Initial := Reset(CharaState(Zero, Zero, NoneDecided, Zero, 0, 0, 0, 0, 0, 0, 0))

  /// `reset`: back to the start of a race. The decided action is not touched.
  function Reset(c: CharaState): CharaState {
    c.(pos := Zero, prevPos := Zero, vel := Zero,
       accelCount := CharaInitAccelCount,
       accelWaitTurn := CharaAddAccelWaitTurn,
       accelWaitTurnMax := CharaAddAccelWaitTurn,
       targetLotusNo := 0, roundCount := 0, rank := 0, passedTurn := 0)
  }

  /// A reset character is valid, not goal, has passed nothing and holds the full
  /// initial budget, with the standard recharge period still to run.
  lemma ResetStartsRace(c: CharaState, n: int)
    ensures Valid(Reset(c)) && !IsGoal(Reset(c))
    ensures 0 < n ==> InStage(Reset(c), n)
    ensures PassedLotusCount(Reset(c), n) == 0 && Reset(c).passedTurn == 0
    ensures Reset(c).accelCount == CharaAccelCountMax
    ensures Reset(c).accelWaitTurn == Reset(c).accelWaitTurnMax == CharaAddAccelWaitTurn
    ensures Reset(c).decided == c.decided
  {
  }

  /// C++ `static_cast<int>` of a non-integral value: truncation toward zero.
  function Trunc(v: real): (r: int)
    ensures 0.0 <= v ==> r as real <= v < r as real + 1.0
    ensures v < 0.0 ==> r as real - 1.0 < v <= r as real
  {
    if 0.0 <= v then v.Floor else -((-v).Floor)
  }

  /// The recharge period of a character of the given strength:
  /// `CharaAddAccelWaitTurn - int(strength / 100 * 2 + 0.5)`, computed over reals.
  function WaitTurnMax(strength: int): int {
    CharaAddAccelWaitTurn - Trunc(strength as real / 100.0 * 2.0 + 0.5)
  }

  /// Strengths from 0 to 100 give a recharge period from 10 down to 8 turns, and a
  /// stronger character never recharges more slowly.
  lemma WaitTurnMaxRange(s: int, t: int)
    requires 0 <= s <= t <= 100
    ensures 8 <= WaitTurnMax(t) <= WaitTurnMax(s) <= CharaAddAccelWaitTurn
  {
  }

  /// `setup`: place the character and derive its recharge period from its strength.
  function Setup(c: CharaState, pos: Vec2, strength: int): (r: CharaState)
    ensures Valid(c) ==> Valid(r)
    ensures r.pos == r.prevPos == pos
    ensures 0 <= strength <= 100 ==> 8 <= r.accelWaitTurnMax <= CharaAddAccelWaitTurn
  {
    var r := c.(pos := pos, prevPos := pos, accelWaitTurnMax := WaitTurnMax(strength));
    if 0 <= strength <= 100 then WaitTurnMaxRange(strength, strength); r else r
  }

  /// `updateTurn`: one more turn passed; the recharge countdown ticks and, when it
  /// runs out, the budget grows by one up to its maximum and the countdown restarts.
  function UpdateTurn(c: CharaState): (r: CharaState)
    requires !IsGoal(c)
    ensures r.passedTurn == c.passedTurn + 1
    ensures r == c.(passedTurn := r.passedTurn, accelCount := r.accelCount, accelWaitTurn := r.accelWaitTurn)
    ensures c.accelWaitTurn - 1 <= 0 ==>
      r.accelCount == IntMath.Min(c.accelCount + 1, CharaAccelCountMax) && r.accelWaitTurn == c.accelWaitTurnMax
    ensures 0 < c.accelWaitTurn - 1 ==>
      r.accelCount == c.accelCount && r.accelWaitTurn == c.accelWaitTurn - 1
    ensures Valid(c) ==> Valid(r) && !IsGoal(r)
  {
    var wait := c.accelWaitTurn - 1;
    if wait <= 0 then
      c.(passedTurn := c.passedTurn + 1,
         accelCount := IntMath.Min(c.accelCount + 1, CharaAccelCountMax),
         accelWaitTurn := c.accelWaitTurnMax)
    else
      c.(passedTurn := c.passedTurn + 1, accelWaitTurn := wait)
  }

  /// `k` turns of `updateTurn` on a character that is not goal.
  function Turns(c: CharaState, k: nat): (r: CharaState)
    requires !IsGoal(c)
    ensures !IsGoal(r)
    decreases k
  {
    if k == 0 then c else Turns(UpdateTurn(c), k - 1)
  }

  /// The recharge rhythm: from a countdown of `w >= 1`, the budget stays put for
  /// `w - 1` turns and grows by exactly one (capped at the maximum) on turn `w`,
  /// when the countdown restarts from the period.
  lemma {:induction false} RechargePeriod(c: CharaState, w: nat)
    requires !IsGoal(c) && 1 <= w && c.accelWaitTurn == w
    ensures forall j :: 0 <= j < w ==> Turns(c, j).accelCount == c.accelCount
    ensures Turns(c, w).accelCount == IntMath.Min(c.accelCount + 1, CharaAccelCountMax)
    ensures Turns(c, w).accelWaitTurn == c.accelWaitTurnMax
    ensures Turns(c, w).passedTurn == c.passedTurn + w
    ensures Turns(c, w).accelWaitTurnMax == c.accelWaitTurnMax
    decreases w
  {
    if w == 1 {
      assert Turns(c, 1) == Turns(UpdateTurn(c), 0);
    } else {
      var c' := UpdateTurn(c);
      RechargePeriod(c', w - 1);
      forall j | 0 <= j < w
        ensures Turns(c, j).accelCount == c.accelCount
      {
        if j > 0 {
          assert Turns(c, j) == Turns(c', j - 1);
        }
      }
      assert Turns(c, w) == Turns(c', w - 1);
    }
  }

  /// `incTargetLotusNo` on a stage with `n` lotuses: aim at the next lotus, wrapping
  /// to lotus 0 and completing a lap after the last one.
  function IncTarget(c: CharaState, n: int): (r: CharaState)
    ensures r == c.(targetLotusNo := r.targetLotusNo, roundCount := r.roundCount)
    ensures 0 <= c.targetLotusNo < n ==>
      0 <= r.targetLotusNo < n &&
      PassedLotusCount(r, n) == PassedLotusCount(c, n) + 1 &&
      (r.targetLotusNo == 0 <==> c.targetLotusNo + 1 == n) &&
      (r.roundCount == c.roundCount + 1 <==> c.targetLotusNo + 1 == n) &&
      (r.roundCount == c.roundCount || r.roundCount == c.roundCount + 1)
  {
    var target := c.targetLotusNo + 1;
    if n == target then c.(targetLotusNo := 0, roundCount := c.roundCount + 1)
    else c.(targetLotusNo := target)
  }

  /// `accelIfPossible`: with budget left and a target other than the current
  /// position, spend one unit of budget and replace the velocity by the acceleration
  /// towards the target; otherwise change nothing.
  function AccelIfPossible(c: CharaState, target: Vec2, k: Kinematics): (r: CharaState)
    ensures c.accelCount <= 0 || target == c.pos ==> r == c
    ensures 0 < c.accelCount && target != c.pos ==>
      r == c.(accelCount := c.accelCount - 1, vel := k.accelVel(Sub(target, c.pos)))
    ensures Valid(c) ==> Valid(r)
  {
    SubIsZeroIff(target, c.pos);
    if c.accelCount <= 0 then c
    else
      var toTarget := Sub(target, c.pos);
      if IsZero(toTarget) then c
      else c.(accelCount := c.accelCount - 1, vel := k.accelVel(toTarget))
  }

  /// `execAction`: a wait does nothing, an acceleration goes through
  /// `AccelIfPossible`; either way the decided action is reset afterwards.
  function ExecAction(c: CharaState, k: Kinematics): (r: CharaState)
    requires IsDecided(c.decided)
    ensures r.decided == NoneDecided
    ensures c.decided.kind == Wait ==> r == c.(decided := NoneDecided)
    ensures c.decided.kind == Accel ==>
      r == AccelIfPossible(c, c.decided.value, k).(decided := NoneDecided)
    ensures Valid(c) ==> Valid(r)
  {
    var c' := if c.decided.kind == Wait then c else AccelIfPossible(c, c.decided.value, k);
    c'.(decided := NoneDecided)
  }

  /// `Chara::move`: the kinematics moves the region and decelerates the velocity.
  function Move(c: CharaState, k: Kinematics, f: Field): (r: CharaState)
    ensures Valid(c) ==> Valid(r)
  {
    var (pos, vel) := k.move(c.pos, c.vel, f.flowVel);
    c.(pos := pos, vel := vel)
  }

  /// `separation`: move the region by an offset.
  function Separate(c: CharaState, ofs: Vec2): CharaState {
    c.(pos := Add(c.pos, ofs))
  }

  /// `correctInside`: a character that leaves the field is put back inside and
  /// stopped; one inside is untouched.
  function CorrectInside(c: CharaState, k: Kinematics, f: Field): (r: CharaState)
    ensures r == c || (r == c.(pos := r.pos, vel := Zero))
    ensures !k.correctInside(Circle(c.pos, k.charaRadius), f.rect).0 ==> r == c
    ensures Valid(c) ==> Valid(r)
  {
    var (outside, pos) := k.correctInside(Circle(c.pos, k.charaRadius), f.rect);
    if outside then c.(pos := pos, vel := Zero) else c
  }

  /// Does the swept region of this turn (from `prevPos` to `pos`) touch the target lotus?
  predicate HitsTarget(c: CharaState, lotuses: seq<Circle>, k: Kinematics)
    requires 0 <= c.targetLotusNo < |lotuses|
  {
    k.isHitSwept(lotuses[c.targetLotusNo], Circle(c.prevPos, k.charaRadius), c.pos)
  }

  /// The lotus-passing loop of `procEnd`: while the character is not goal and its
  /// swept region touches its target lotus, advance the target.
  function PassLotuses(c: CharaState, lotuses: seq<Circle>, k: Kinematics): (r: CharaState)
    requires InStage(c, |lotuses|)
    ensures InStage(r, |lotuses|)
    ensures r == c.(targetLotusNo := r.targetLotusNo, roundCount := r.roundCount)
    ensures PassedLotusCount(c, |lotuses|) <= PassedLotusCount(r, |lotuses|)
    ensures c.roundCount <= r.roundCount
    ensures IsGoal(c) ==> r == c
    ensures !IsGoal(c) && !HitsTarget(c, lotuses, k) ==> r == c
    ensures !IsGoal(r) ==> !HitsTarget(r, lotuses, k)
    decreases StageRoundCount - c.roundCount, |lotuses| - c.targetLotusNo
  {
    if IsGoal(c) then c
    else if HitsTarget(c, lotuses, k) then PassLotuses(IncTarget(c, |lotuses|), lotuses, k)
    else c
  }

  /// `procEnd` for one character that is not goal: the turn bookkeeping, then the
  /// lotuses passed.
  function EndTurn(c: CharaState, lotuses: seq<Circle>, k: Kinematics): (r: CharaState)
    requires InStage(c, |lotuses|) && !IsGoal(c)
    ensures InStage(r, |lotuses|)
    ensures r.passedTurn == c.passedTurn + 1
    ensures PassedLotusCount(c, |lotuses|) <= PassedLotusCount(r, |lotuses|)
  {
    PassLotuses(UpdateTurn(c), lotuses, k)
  }

  /// Each lotus passed is one more passed lotus: `passedLotusCount` counts exactly the
  /// `incTargetLotusNo` calls of a stage.
  lemma {:induction false} IncTargetCounts(c: CharaState, n: int, j: nat)
    requires 0 <= c.targetLotusNo < n
    ensures 0 <= IncTargets(c, n, j).targetLotusNo < n
    ensures PassedLotusCount(IncTargets(c, n, j), n) == PassedLotusCount(c, n) + j
    decreases j
  {
    if j > 0 {
      IncTargetCounts(IncTarget(c, n), n, j - 1);
    }
  }

  /// `j` calls of `incTargetLotusNo`.
  function IncTargets(c: CharaState, n: int, j: nat): CharaState
    decreases j
  {
    if j == 0 then c else IncTargets(IncTarget(c, n), n, j - 1)
  }

  /// A character becomes goal by passing exactly `StageRoundCount` laps: from the
  /// start, the goal is reached precisely when `StageRoundCount * n` lotuses have been
  /// passed.
  lemma GoalAfterAllLaps(c: CharaState, n: int)
    requires InStage(c, n)
    ensures IsGoal(c) <==> PassedLotusCount(c, n) == StageRoundCount * n
  {
    if !IsGoal(c) {
      assert c.roundCount <= StageRoundCount - 1;
      assert PassedLotusCount(c, n) < c.roundCount * n + n;
      assert c.roundCount * n + n <= StageRoundCount * n;
    }
  }

  /// On one stage, a larger `passedLotusCount` means further along the course: more
  /// laps, or as many laps and a later target. This is what `IsHighOrder` compares
  /// between two characters that are not goal.
  lemma PassedLotusOrder(c: CharaState, d: CharaState, n: int)
    requires InStage(c, n) && InStage(d, n)
    ensures PassedLotusCount(c, n) < PassedLotusCount(d, n) <==>
            c.roundCount < d.roundCount || (c.roundCount == d.roundCount && c.targetLotusNo < d.targetLotusNo)
  {
    if c.roundCount < d.roundCount {
      LapsApart(c, d, n);
    } else if d.roundCount < c.roundCount {
      LapsApart(d, c, n);
    }
  }

  /// A character a lap behind another has passed fewer lotuses.
  lemma LapsApart(c: CharaState, d: CharaState, n: int)
    requires InStage(c, n) && InStage(d, n) && c.roundCount < d.roundCount
    ensures PassedLotusCount(c, n) < PassedLotusCount(d, n)
  {
    assert PassedLotusCount(c, n) < (c.roundCount + 1) * n;
    assert (c.roundCount + 1) * n <= d.roundCount * n by {
      assert (d.roundCount - c.roundCount - 1) * n >= 0;
    }
  }
}
