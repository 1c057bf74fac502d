/// `Game` (HPCGame.cpp): the stages played one after the other on one stage object,
/// with the two random generators and the record of every stage.
module Games {
  import opened Params
  import opened Actions
  import opened Geometry
  import opened CharaRules
  import opened Randoms
  import opened TurnResults
  import opened RecordStages
  import opened Records
  import opened TurnPasses
  import opened Stages
  import opened LevelDesigners
  import opened IntVectors
  import opened Wrappers

  /// The record of a stage after it starts: its character count written, then the
  /// first turn result, which is the playing state `start` leaves.
  function StartRecord(r: StageRecord, charaCount: int): (s: StageRecord)
    ensures s.charaCount == charaCount && s.currentTurn == r.currentTurn + 1
    ensures s.ranks == r.ranks && s.passedLotusCount == r.passedLotusCount && s.isFailed == r.isFailed
  {
    WriteTurnOf(r.(charaCount := charaCount), Playing)
  }

  /// No object of the record is an object of `stage`.
  lemma RecordApart(stage: Stage, record: Record)
    requires record.Wired()
    ensures var cs: seq<object> := stage.charas.charas; var bs: seq<object> := stage.charas.brains;
      var parts: set<object> := {stage, stage.charas, stage.charas.types, stage.lotuses, stage.lotuses.lotuses,
                                 stage.turnResult, stage.turnResult.charas};
      record !in cs && record !in bs && record !in parts &&
      forall i :: 0 <= i < GameStageCount ==>
        record.stages[i] !in cs && record.stages[i] !in bs && record.stages[i] !in parts &&
        record.stages[i].ranks !in cs && record.stages[i].ranks !in bs && record.stages[i].ranks !in parts
  {
  }

  /// `LevelDesigner::Setup` on stage `number` with `rng`, then `start`: the stage
  /// starts playing from turn 0 with the stage's counts of characters and lotuses.
  method Begin(number: int, stage: Stage, rng: Random, f: LevelFloats)
    requires 0 <= number < GameStageCount && FloatsOk(f) && stage.Valid()
    modifies stage, stage.charas, stage.charas.types, stage.charas.charas, stage.charas.brains
    modifies stage.lotuses, stage.lotuses.lotuses, stage.turnResult, stage.turnResult.charas, rng
    ensures stage.Ready() && stage.turnResult.state == Playing && stage.turnIndex == 0
    ensures stage.charas.count == BattleCharaCount(number) && stage.lotuses.count == RandomLotusCount(number)
  {
    ghost var seed0, reset, gridDraws, sizes, placed, ring, positions := LevelDesigners.Setup(number, stage, rng, f);
    stage.Start();
  }

  /// `Stage::runTurn` on a playing `stage` with `rng`: the stage stays ready and keeps
  /// its characters in use; the characters and the generator go through the four
  /// passes as `TurnDone` says, with the intermediate states `decided`, `moved` and
  /// `collided`; and the turn ends in the state and turn count `Outcome` gives.
  method Turn(stage: Stage, rng: Random, k: Kinematics, answer: StageView -> Action)
    returns (ghost decided: Decisions, ghost moved: seq<CharaState>, ghost collided: seq<CharaState>)
    requires stage.Ready() && stage.turnResult.state == Playing
    requires forall view :: IsDecided(answer(view))
    modifies stage`turnIndex, stage.turnResult, stage.turnResult.charas, stage.charas.charas, stage.charas.brains, rng
    ensures stage.Ready() && stage.charas.count == old(stage.charas.count)
    ensures TurnDone(Decisions(old(stage.charas.States()), old(stage.charas.Saves()), 0), old(rng.State()),
                     stage.charas.types[..], stage.charas.count, old(stage.lotuses.Contents()), stage.field, k, answer,
                     decided, moved, collided, stage.charas.States(), stage.charas.Saves(), rng.State())
    ensures (stage.turnResult.state, stage.turnIndex) ==
      Outcome(AllHumansGoal(stage.charas.States(), stage.charas.types[..], stage.charas.count),
              GoalsIn(stage.charas.States()[..stage.charas.count]), stage.charas.count, old(stage.turnIndex))
  {
    decided, moved, collided := stage.RunTurn(rng, k, answer);
  }

  /// `Record::writeTurn` with the last turn result of `stage`, which it leaves alone.
  method WriteTurn(record: Record, stage: Stage)
    requires record.Valid() && stage.Ready()
    modifies record.stages[record.currentStageIndex]
    ensures record.Valid() && record.States() ==
      old(record.States())[record.currentStageIndex :=
        WriteTurnOf(old(record.States())[record.currentStageIndex], stage.turnResult.state)]
    ensures stage.Ready() && stage.charas.States() == old(stage.charas.States())
    ensures stage.charas.Saves() == old(stage.charas.Saves())
    ensures stage.charas.types[..] == old(stage.charas.types[..])
    ensures stage.turnResult.state == old(stage.turnResult.state) && stage.turnIndex == old(stage.turnIndex)
  {
    RecordApart(stage, record);
    record.WriteTurn(stage.turnResult);
  }

  /// One turn of `stage` with `rng`, as `Turn` says, then its result written to the
  /// current stage's record, which gains that turn.
  method PlayTurn(stage: Stage, record: Record, rng: Random, k: Kinematics, answer: StageView -> Action)
    returns (ghost decided: Decisions, ghost moved: seq<CharaState>, ghost collided: seq<CharaState>)
    requires stage.Ready() && stage.turnResult.state == Playing && record.Valid()
    requires forall view :: IsDecided(answer(view))
    modifies stage`turnIndex, stage.turnResult, stage.turnResult.charas, stage.charas.charas, stage.charas.brains
    modifies rng, record.stages[record.currentStageIndex]
    ensures stage.Ready() && stage.charas.count == old(stage.charas.count) && record.Valid()
    ensures TurnDone(Decisions(old(stage.charas.States()), old(stage.charas.Saves()), 0), old(rng.State()),
                     stage.charas.types[..], stage.charas.count, old(stage.lotuses.Contents()), stage.field, k, answer,
                     decided, moved, collided, stage.charas.States(), stage.charas.Saves(), rng.State())
    ensures (stage.turnResult.state, stage.turnIndex) ==
      Outcome(AllHumansGoal(stage.charas.States(), stage.charas.types[..], stage.charas.count),
              GoalsIn(stage.charas.States()[..stage.charas.count]), stage.charas.count, old(stage.turnIndex))
    ensures record.States() ==
      old(record.States())[record.currentStageIndex :=
        WriteTurnOf(old(record.States())[record.currentStageIndex], stage.turnResult.state)]
  {
    ghost var records0 := record.States();
    RecordApart(stage, record);
    decided, moved, collided := Turn(stage, rng, k, answer);
    assert record.Valid() && record.States() == records0;
    ghost var states1, saves1, seed1 := stage.charas.States(), stage.charas.Saves(), rng.State();
    WriteTurn(record, stage);
    assert stage.charas.States() == states1 && stage.charas.Saves() == saves1 && rng.State() == seed1;
  }

  /// Stage `number` laid out on `stage` with `rng` by `Begin` and started, then its
  /// start and first turn written to its record, which becomes the current one.
  method StartOn(number: int, stage: Stage, record: Record, rng: Random, f: LevelFloats)
    requires 0 <= number < GameStageCount && FloatsOk(f) && stage.Valid() && record.Valid()
    modifies stage, stage.charas, stage.charas.types, stage.charas.charas, stage.charas.brains
    modifies stage.lotuses, stage.lotuses.lotuses, stage.turnResult, stage.turnResult.charas, rng
    modifies record, record.stages[number]
    ensures stage.Ready() && stage.turnResult.state == Playing && stage.turnIndex == 0
    ensures stage.charas.count == BattleCharaCount(number) && stage.lotuses.count == RandomLotusCount(number)
    ensures 0 < stage.charas.count && record.Valid() && record.currentStageIndex == number
    ensures record.States() == old(record.States())[number := StartRecord(old(record.States())[number], stage.charas.count)]
  {
    BeginBeside(number, stage, record, rng, f);
    WriteStart(number, stage, record);
    BattleCharaCountMeaning(number, number);
  }

  /// `Begin`, with the records of `record` left alone.
  method BeginBeside(number: int, stage: Stage, record: Record, rng: Random, f: LevelFloats)
    requires 0 <= number < GameStageCount && FloatsOk(f) && stage.Valid() && record.Valid()
    modifies stage, stage.charas, stage.charas.types, stage.charas.charas, stage.charas.brains
    modifies stage.lotuses, stage.lotuses.lotuses, stage.turnResult, stage.turnResult.charas, rng
    ensures stage.Ready() && stage.turnResult.state == Playing && stage.turnIndex == 0
    ensures stage.charas.count == BattleCharaCount(number) && stage.lotuses.count == RandomLotusCount(number)
    ensures record.Valid() && record.States() == old(record.States())
  {
    RecordApart(stage, record);
    Begin(number, stage, rng, f);
  }

  /// The start of stage `number` and its first turn written to its record, which
  /// becomes the current one; the stage is left alone.
  method WriteStart(number: int, stage: Stage, record: Record)
    requires 0 <= number < GameStageCount && stage.Ready() && stage.turnResult.state == Playing && record.Valid()
    modifies record, record.stages[number]
    ensures record.Valid() && record.currentStageIndex == number
    ensures record.States() == old(record.States())[number := StartRecord(old(record.States())[number], stage.charas.count)]
  {
    RecordApart(stage, record);
    record.WriteStartStage(number, stage);
    WriteTurn(record, stage);
  }

  class Game {
    const randSet: RandomSet
    const stage: Stage
    var currentStageIndex: int
    const record: Record

    ghost predicate Valid()
      reads this, randSet, stage, stage.charas, stage.charas.types, stage.charas.charas, stage.charas.brains
      reads stage.lotuses, stage.turnResult, record, record.stages
    {
      randSet.Wired() && stage.Valid() && record.Valid() && 0 <= currentStageIndex <= GameStageCount
    }

    /// The game is none of the objects its stage and record consist of.
    lemma Apart()
      requires record.Wired()
      ensures var cs: seq<object> := stage.charas.charas; var bs: seq<object> := stage.charas.brains;
        var rs: seq<object> := record.stages;
        this !in cs && this !in bs && this !in rs
    {
    }

    /// `isValidStage`: the stage index names one of the `GameStageCount` stages.
    predicate IsValidStage()
      reads this
    {
      0 <= currentStageIndex < GameStageCount
    }

    /// A stage is under way: the current stage is ready to run a turn, and the
    /// record writes to it and knows how many characters race in it.
    ghost predicate Started()
      reads this, randSet, stage, stage.charas, stage.charas.types, stage.charas.charas, stage.charas.brains
      reads stage.lotuses, stage.turnResult, record, record.stages, record.Ranks()
    {
      randSet.Wired() && IsValidStage() && stage.Ready() && 0 < stage.charas.count && record.Valid() &&
      record.currentStageIndex == currentStageIndex &&
      record.States()[currentStageIndex].charaCount == stage.charas.count
    }

    /// The constructor: a new stage and record, stage 0 current.
    constructor (aRandSet: RandomSet, baseRadius: real)
      requires aRandSet.Wired()
      ensures Valid() && randSet == aRandSet && currentStageIndex == 0
      ensures stage.charas.count == 0 && stage.lotuses.count == 0 && stage.turnResult.state == NoState
      ensures forall i :: 0 <= i < GameStageCount ==> record.States()[i] == StageRecord(0, [0, 0, 0, 0], 0, 0, false)
    {
      var r := new Record();
      ghost var records0 := r.States();
      var s := new Stage(baseRadius);
      assert r.Valid() && r.States() == records0;
      randSet, stage, currentStageIndex, record := aRandSet, s, 0, r;
      new;
      assert record.States() == records0;
    }

    /// `state`: where the current stage stands.
    function State(): StageState
      reads this, stage, stage.turnResult
      requires IsValidStage()
    {
      stage.turnResult.state
    }

    /// `startStage`: the current stage is laid out by `LevelDesigners.Setup` with
    /// the system generator and starts playing; its record gets its character
    /// count and the first turn result.
    method StartStage(f: LevelFloats)
      requires Valid() && IsValidStage() && FloatsOk(f)
      modifies stage, stage.charas, stage.charas.types, stage.charas.charas, stage.charas.brains
      modifies stage.lotuses, stage.lotuses.lotuses, stage.turnResult, stage.turnResult.charas
      modifies randSet.system, record, record.stages[currentStageIndex]
      ensures Started() && currentStageIndex == old(currentStageIndex)
      ensures stage.turnResult.state == Playing && stage.turnIndex == 0
      ensures stage.charas.count == BattleCharaCount(currentStageIndex)
      ensures stage.lotuses.count == RandomLotusCount(currentStageIndex)
      ensures record.States() ==
        old(record.States())[currentStageIndex := StartRecord(old(record.States())[currentStageIndex], stage.charas.count)]
    {
      Apart();
      StartOn(currentStageIndex, stage, record, randSet.system, f);
    }

    /// `runTurn`: one turn of the current stage with the game generator, as `Turn`
    /// says, its result written to the stage's record.
    method RunTurn(k: Kinematics, answer: StageView -> Action)
      returns (ghost decided: Decisions, ghost moved: seq<CharaState>, ghost collided: seq<CharaState>)
      requires Started() && stage.turnResult.state == Playing
      requires forall view :: IsDecided(answer(view))
      modifies stage`turnIndex, stage.turnResult, stage.turnResult.charas, stage.charas.charas, stage.charas.brains
      modifies randSet.game, record.stages[currentStageIndex]
      ensures Started() && currentStageIndex == old(currentStageIndex)
      ensures TurnDone(Decisions(old(stage.charas.States()), old(stage.charas.Saves()), 0), old(randSet.game.State()),
                       stage.charas.types[..], stage.charas.count, old(stage.lotuses.Contents()), stage.field, k, answer,
                       decided, moved, collided, stage.charas.States(), stage.charas.Saves(), randSet.game.State())
      ensures (stage.turnResult.state, stage.turnIndex) ==
        Outcome(AllHumansGoal(stage.charas.States(), stage.charas.types[..], stage.charas.count),
                GoalsIn(stage.charas.States()[..stage.charas.count]), stage.charas.count, old(stage.turnIndex))
      ensures record.States() ==
        old(record.States())[currentStageIndex := WriteTurnOf(old(record.States())[currentStageIndex], stage.turnResult.state)]
    {
      Apart();
      RecordApart(stage, record);
      decided, moved, collided := PlayTurn(stage, record, randSet.game, k, answer);
    }

    /// `onStageDone`: the end of the current stage is written to its record and the
    /// next stage becomes current, one past the last after the last stage.
    method OnStageDone()
      requires Started()
      modifies this`currentStageIndex, record.stages[currentStageIndex], record.stages[currentStageIndex].ranks
      ensures Valid() && currentStageIndex == old(currentStageIndex) + 1
      ensures record.States() ==
        old(record.States())[old(currentStageIndex) :=
          EndWith(old(record.States())[old(currentStageIndex)], RanksIn(stage.charas.States()),
                  PassedLotusCount(stage.charas.States()[0], stage.lotuses.count))]
    {
      record.WriteEndStage(stage);
      currentStageIndex := currentStageIndex + 1;
    }
  }
}
