/// `Stage` (HPCStage.cpp): the characters, lotuses and field of one stage, the result
/// of its last turn and the turn counter, with the turn loop and its state machine.
module Stages {
  import opened Params
  import opened Geometry
  import opened Actions
  import opened CharaParams
  import opened CharaRules
  import opened Randoms
  import opened Brains
  import opened Ranking
  import opened TurnPasses
  import opened CharaCollections
  import opened Lotuses
  import opened TurnResults

  /// `isAllHumanGoal` on values: there is a human among the first `n` characters and
  /// every human among them is goal.
  predicate AllHumansGoal(s: seq<CharaState>, kinds: seq<CharaType>, n: int)
    requires 0 <= n <= |s| && n <= |kinds|
  {
    (exists i :: 0 <= i < n && kinds[i] == Human) &&
    (forall i :: 0 <= i < n && kinds[i] == Human ==> IsGoal(s[i]))
  }

  /// The checks at the end of `runTurn`, in their fixed order: all humans goal, then
  /// one character left racing, then the turn limit; the turn counter only advances
  /// past the first two. Returns the new state and turn counter.
  function Outcome(allHumansGoal: bool, goals: int, n: int, turnIndex: int): (StageState, int) {
    if allHumansGoal then (Complete, turnIndex)
    else if goals == n - 1 then (Failed, turnIndex)
    else if turnIndex + 1 >= GameTurnPerStage then (TurnLimit, turnIndex + 1)
    else (Playing, turnIndex + 1)
  }

  /// Exactly one of the characters in use is not goal.
  predicate OneLeft(s: seq<CharaState>) {
    exists i :: 0 <= i < |s| && !IsGoal(s[i]) && forall j :: 0 <= j < |s| && j != i ==> IsGoal(s[j])
  }

  /// What the outcome of a turn means: the stage is complete exactly when every human
  /// is goal; failed exactly when not, and exactly one character is left racing; at
  /// the turn limit exactly when neither, and the counter reaches `GameTurnPerStage`;
  /// still playing otherwise. The counter advances by one exactly when the stage is
  /// neither complete nor failed, and a stage that keeps playing stays under the limit.
  lemma OutcomeMeaning(s: seq<CharaState>, kinds: seq<CharaType>, n: int, turnIndex: int)
    requires 0 <= n <= |s| && n <= |kinds|
    ensures var (state, next) := Outcome(AllHumansGoal(s, kinds, n), GoalsIn(s[..n]), n, turnIndex);
      (state == Complete <==> AllHumansGoal(s, kinds, n)) &&
      (state == Failed <==> !AllHumansGoal(s, kinds, n) && OneLeft(s[..n])) &&
      (state == TurnLimit <==>
        !AllHumansGoal(s, kinds, n) && !OneLeft(s[..n]) && turnIndex + 1 >= GameTurnPerStage) &&
      (state == Playing <==>
        !AllHumansGoal(s, kinds, n) && !OneLeft(s[..n]) && turnIndex + 1 < GameTurnPerStage) &&
      next == (if state == Complete || state == Failed then turnIndex else turnIndex + 1) &&
      (state == Playing ==> next < GameTurnPerStage)
  {
    GoalsInCounts(s[..n]);
  }

  /// One entry of `TurnResult` as `updateTurnResult` fills it.
  function ResultOf(c: CharaState, lotusCount: int): (r: CharaResult)
    ensures r.pos == c.pos && r.accelCount == c.accelCount
    ensures r.passedLotusCount == PassedLotusCount(c, lotusCount)
  {
    CharaResult(c.pos, c.accelCount, c.roundCount * lotusCount + c.targetLotusNo)
  }

  class Stage {
    const charas: CharaCollection
    const lotuses: LotusCollection
    var field: Field
    const turnResult: TurnResult
    var turnIndex: int

    ghost predicate Valid()
      reads this, charas, charas.types, charas.charas, charas.brains, lotuses, turnResult
    {
      charas.Valid() && lotuses.Valid() && turnResult.Valid()
    }

    /// What a turn needs of the stage: at least one lotus, a type for every character
    /// in use, and every target a lotus in use.
    ghost predicate Ready()
      reads this, charas, charas.types, charas.charas, charas.brains, lotuses, turnResult
    {
      Valid() && 0 < lotuses.count && charas.Ready(lotuses.count)
    }

    /// The stage and its turn result are none of its characters or brains.
    lemma Apart()
      ensures var cs: seq<object> := charas.charas; var bs: seq<object> := charas.brains;
        this !in cs && turnResult !in cs && this !in bs && turnResult !in bs
    {
    }

    /// The default constructor (`baseRadius` is `Parameter::LotusBaseRadius()`).
    constructor (baseRadius: real)
      ensures Valid() && charas.count == 0 && lotuses.count == 0 && field == EmptyField
      ensures turnResult.state == NoState && turnIndex == 0
      ensures fresh(charas) && fresh(charas.types) && fresh(lotuses) && fresh(lotuses.lotuses)
      ensures fresh(turnResult) && fresh(turnResult.charas)
      ensures forall i :: 0 <= i < CharaCountMax ==>
        fresh(charas.charas[i]) && fresh(charas.brains[i]) && turnResult.charas[i] == ZeroResult
    {
      charas := new CharaCollection();
      lotuses := new LotusCollection(baseRadius);
      field := EmptyField;
      turnResult := new TurnResult();
      turnIndex := 0;
    }

    /// `reset`: every part of the stage cleared and the turn counter back to 0.
    method Reset()
      requires Valid()
      modifies this, charas, charas.types, charas.charas, charas.brains
      modifies lotuses, lotuses.lotuses, turnResult, turnResult.charas
      ensures Valid() && charas.count == 0 && lotuses.count == 0 && field == EmptyField
      ensures turnResult.state == NoState && turnIndex == 0
      ensures forall i :: 0 <= i < CharaCountMax ==>
        charas.States()[i] == CharaRules.Reset(old(charas.States()[i])) && charas.types[i] == NoType &&
        turnResult.charas[i] == ZeroResult
    {
      charas.Reset();
      lotuses.Reset();
      field := EmptyField;
      turnResult.Reset();
      turnIndex := 0;
    }

    /// `start`: the stage starts playing from turn 0, every character in use is
    /// prepared (a CPU's counter restarts from 0) and the initial state is recorded.
    method Start()
      requires Ready()
      modifies this`turnIndex, turnResult, turnResult.charas, charas.brains
      ensures Ready() && turnResult.state == Playing && turnIndex == 0
      ensures charas.States() == old(charas.States()) && field == old(field)
      ensures forall i :: 0 <= i < CharaCountMax ==> charas.brains[i].param == old(charas.brains[i].param)
      ensures forall i :: 0 <= i < CharaCountMax ==>
        charas.Saves()[i] == if i < charas.count && charas.types[i] == Cpu then 0 else old(charas.Saves())[i]
      ensures forall i :: 0 <= i < CharaCountMax ==>
        turnResult.charas[i] ==
          if i < charas.count then ResultOf(charas.States()[i], lotuses.count) else old(turnResult.charas[i])
    {
      turnResult.state := Playing;
      turnIndex := 0;
      charas.InitAll();
      UpdateTurnResult();
    }

    /// `updateTurnResult`: the entry of every character in use is refreshed from the
    /// character; the other entries are left alone.
    method UpdateTurnResult()
      requires Ready()
      modifies turnResult.charas
      ensures Ready() && charas.States() == old(charas.States()) && charas.Saves() == old(charas.Saves())
      ensures forall i :: 0 <= i < CharaCountMax ==>
        turnResult.charas[i] ==
          if i < charas.count then ResultOf(charas.States()[i], lotuses.count) else old(turnResult.charas[i])
    {
      var index := 0;
      while index < charas.count
        invariant 0 <= index <= charas.count && Ready()
        invariant charas.States() == old(charas.States()) && charas.Saves() == old(charas.Saves())
        invariant forall i :: 0 <= i < CharaCountMax ==>
          turnResult.charas[i] ==
            if i < index then ResultOf(charas.States()[i], lotuses.count) else old(turnResult.charas[i])
      {
        var chara := charas.At(index);
        turnResult.charas[index] :=
          CharaResult(chara.pos, chara.accelCount, chara.PassedLotusCount(lotuses.count));
        index := index + 1;
      }
    }

    /// `runTurn` on a playing stage: the four passes of the characters in order, the
    /// result recorded, then the outcome checks of `Outcome`. The ghost results name
    /// the states after deciding, after acting and after the collision check.
    method RunTurn(rng: Random, k: Kinematics, answer: StageView -> Action)
      returns (ghost decided: Decisions, ghost moved: seq<CharaState>, ghost collided: seq<CharaState>)
      requires Ready() && turnResult.state == Playing
      requires forall view :: IsDecided(answer(view))
      modifies this`turnIndex, turnResult, turnResult.charas, charas.charas, charas.brains, rng
      ensures Ready()
      ensures TurnDone(Decisions(old(charas.States()), old(charas.Saves()), 0), old(rng.State()),
                       charas.types[..], charas.count, old(lotuses.Contents()), field, k, answer,
                       decided, moved, collided, charas.States(), charas.Saves(), rng.State())
      ensures forall i :: 0 <= i < CharaCountMax ==>
        turnResult.charas[i] == if i < charas.count then ResultOf(charas.States()[i], lotuses.count) else ZeroResult
      ensures (turnResult.state, turnIndex) ==
        Outcome(AllHumansGoal(charas.States(), charas.types[..], charas.count),
                GoalsIn(charas.States()[..charas.count]), charas.count, old(turnIndex))
    {
      var lotusSeq := lotuses.lotuses[..lotuses.count];
      ghost var d0 := Decisions(charas.States(), charas.Saves(), 0);
      ghost var seed0 := rng.State();
      turnResult.Reset();
      decided, moved, collided := Play(rng, k, answer, lotusSeq, d0, seed0);
      UpdateTurnResult();
      Conclude();
    }

    /// The passes of `runTurn`, over the lotuses `lotusSeq` in use, from the decisions
    /// `d0` and the random state `seed0` the characters and `rng` start with.
    method Play(rng: Random, k: Kinematics, answer: StageView -> Action, lotusSeq: seq<Circle>,
                ghost d0: Decisions, ghost seed0: Seed)
      returns (ghost decided: Decisions, ghost moved: seq<CharaState>, ghost collided: seq<CharaState>)
      requires Ready() && lotusSeq == lotuses.Contents()
      requires d0 == Decisions(charas.States(), charas.Saves(), 0) && seed0 == rng.State()
      requires forall view :: IsDecided(answer(view))
      modifies charas.charas, charas.brains, rng
      ensures Ready()
      ensures TurnDone(d0, seed0, charas.types[..], charas.count, lotusSeq, field, k, answer,
                       decided, moved, collided, charas.States(), charas.Saves(), rng.State())
    {
      decided, moved, collided := charas.ProcTurn(rng, k, answer, lotusSeq, field);
    }

    /// The end of `runTurn`: the state set to playing, then overwritten by the
    /// outcome checks, which also advance the turn counter.
    method Conclude()
      requires Ready()
      modifies this`turnIndex, turnResult`state
      ensures Ready() && charas.States() == old(charas.States()) && charas.Saves() == old(charas.Saves())
      ensures (turnResult.state, turnIndex) ==
        Outcome(AllHumansGoal(charas.States(), charas.types[..], charas.count),
                GoalsIn(charas.States()[..charas.count]), charas.count, old(turnIndex))
    {
      var state, next := CheckOutcome();
      ghost var charas0 := charas.States();
      Apart();
      turnResult.state := Playing;
      turnResult.state, turnIndex := state, next;
      assert charas.Valid() && charas.States() == charas0;
    }

    /// The outcome checks at the end of `runTurn`, in their order, as the new state
    /// and turn counter: the counter only advances past the first two checks.
    method CheckOutcome() returns (state: StageState, next: int)
      requires Valid()
      ensures (state, next) ==
        Outcome(AllHumansGoal(charas.States(), charas.types[..], charas.count),
                GoalsIn(charas.States()[..charas.count]), charas.count, turnIndex)
    {
      var allHumansGoal := charas.IsAllHumanGoal();
      assert allHumansGoal == AllHumansGoal(charas.States(), charas.types[..], charas.count);
      if allHumansGoal {
        return Complete, turnIndex;
      }
      var goals := charas.GoalCount();
      if goals == charas.count - 1 {
        return Failed, turnIndex;
      }
      next := turnIndex + 1;
      state := if next >= GameTurnPerStage then TurnLimit else Playing;
    }
  }
}
