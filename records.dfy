/// `Record` (HPCRecord.cpp): the records of every stage of a game, the stage being
/// recorded, and the game's score.
module Records {
  import opened Params
  import opened TurnResults
  import opened Stages
  import opened RecordStages
  import opened CharaRules

  /// The sum of the scores of `rs`, in order.
  function SumScores(rs: seq<StageRecord>): real
    requires forall i :: 0 <= i < |rs| ==> Scorable(rs[i])
  {
    if rs == [] then 0.0 else SumScores(rs[..|rs| - 1]) + ScoreOf(rs[|rs| - 1])
  }

  /// `static_cast<int>` of a `double`: truncation toward zero.
  function TruncReal(x: real): (r: int)
    ensures 0.0 <= x ==> 0 <= r && r as real <= x < r as real + 1.0
    ensures x < 0.0 ==> r <= 0 && r as real - 1.0 < x <= r as real
  {
    if x >= 0.0 then x.Floor else -((-x).Floor)
  }

  /// The total of scores is never negative.
  lemma {:induction false} SumScoresNonNegative(rs: seq<StageRecord>)
    requires forall i :: 0 <= i < |rs| ==> Scorable(rs[i])
    ensures 0.0 <= SumScores(rs)
  {
    if rs != [] {
      SumScoresNonNegative(rs[..|rs| - 1]);
      ScoreNonNegative(rs[|rs| - 1]);
    }
  }

  /// A better score on one stage never lowers the total.
  lemma {:induction false} SumScoresMonotone(rs: seq<StageRecord>, i: int, better: StageRecord)
    requires forall j :: 0 <= j < |rs| ==> Scorable(rs[j])
    requires 0 <= i < |rs| && Scorable(better) && ScoreOf(rs[i]) <= ScoreOf(better)
    ensures SumScores(rs) <= SumScores(rs[i := better])
  {
    var n := |rs|;
    var ts := rs[i := better];
    if i == n - 1 {
      assert ts[..n - 1] == rs[..n - 1];
    } else {
      assert ts[..n - 1] == rs[..n - 1][i := better];
      SumScoresMonotone(rs[..n - 1], i, better);
    }
  }

  /// Over the reals, the total does not depend on the order in which the scores are
  /// added: it is the first score plus the total of the rest.
  lemma {:induction false} SumScoresFront(rs: seq<StageRecord>)
    requires forall i :: 0 <= i < |rs| ==> Scorable(rs[i])
    requires rs != []
    ensures SumScores(rs) == ScoreOf(rs[0]) + SumScores(rs[1..])
    decreases |rs|
  {
    if |rs| > 1 {
      SumScoresFront(rs[..|rs| - 1]);
      assert rs[..|rs| - 1][1..] == rs[1..][..|rs[1..]| - 1];
    } else {
      assert rs[..0] == [] && rs[1..] == [];
    }
  }

  class Record {
    const stages: seq<RecordStage>
    var currentStageIndex: int

    /// `GameStageCount` distinct stage records with distinct rank arrays.
    ghost predicate Wired() {
      |stages| == GameStageCount &&
      forall i, j :: 0 <= i < j < |stages| ==> stages[i] != stages[j] && stages[i].ranks != stages[j].ranks
    }

    ghost predicate Valid()
      reads this, stages
    {
      Wired() && 0 <= currentStageIndex < GameStageCount &&
      forall i :: 0 <= i < GameStageCount ==> stages[i].Valid()
    }

    ghost function Ranks(): set<array<int>>
      reads stages
    {
      set i | 0 <= i < |stages| :: stages[i].ranks
    }

    /// The recorded values of every stage.
    ghost function States(): (r: seq<StageRecord>)
      reads stages, Ranks()
      ensures |r| == |stages|
    {
      seq(|stages|, i requires 0 <= i < |stages| reads stages, Ranks() => stages[i].State())
    }

    /// The default constructor: nothing recorded for any stage, stage 0 current.
    constructor ()
      ensures Valid() && currentStageIndex == 0
      ensures forall i :: 0 <= i < GameStageCount ==> States()[i] == StageRecord(0, [0, 0, 0, 0], 0, 0, false)
    {
      var s := NewStages();
      stages := s;
      currentStageIndex := 0;
    }

    /// `GameStageCount` new stage records.
    static method NewStages() returns (s: seq<RecordStage>)
      ensures |s| == GameStageCount
      ensures forall i, j :: 0 <= i < j < |s| ==> s[i] != s[j] && s[i].ranks != s[j].ranks
      ensures forall i :: 0 <= i < |s| ==>
        fresh(s[i]) && fresh(s[i].ranks) && s[i].Valid() && s[i].State() == StageRecord(0, [0, 0, 0, 0], 0, 0, false)
    {
      s := [];
      while |s| < GameStageCount
        invariant |s| <= GameStageCount
        invariant forall i, j :: 0 <= i < j < |s| ==> s[i] != s[j] && s[i].ranks != s[j].ranks
        invariant forall i :: 0 <= i < |s| ==>
          fresh(s[i]) && fresh(s[i].ranks) && s[i].Valid() && s[i].State() == StageRecord(0, [0, 0, 0, 0], 0, 0, false)
      {
        var r := new RecordStage();
        s := s + [r];
      }
    }

    /// `writeStartStage`: stage `index` becomes the current one and records its start;
    /// no other stage's record changes.
    method WriteStartStage(index: int, stage: Stage)
      requires Valid() && 0 <= index < GameStageCount && stage.Valid()
      modifies this, stages[index]
      ensures Valid() && currentStageIndex == index
      ensures States() == old(States())[index := old(States())[index].(charaCount := stage.charas.count)]
    {
      currentStageIndex := index;
      stages[index].WriteStart(stage);
    }

    /// `writeTurn`: the turn of `result` is written to the current stage's record
    /// only.
    method WriteTurn(result: TurnResult)
      requires Valid()
      modifies stages[currentStageIndex]
      ensures Valid()
      ensures States() == old(States())[currentStageIndex := WriteTurnOf(old(States())[currentStageIndex], result.state)]
    {
      stages[currentStageIndex].WriteTurn(result);
    }

    /// `writeEndStage`: the end of `stage` is written to the current stage's record
    /// only.
    method WriteEndStage(stage: Stage)
      requires Valid() && stage.Valid() && 0 < stage.charas.count
      requires stages[currentStageIndex].charaCount <= stage.charas.count
      modifies stages[currentStageIndex], stages[currentStageIndex].ranks
      ensures Valid()
      ensures States() == old(States())[currentStageIndex :=
        EndWith(old(States())[currentStageIndex], RanksIn(stage.charas.States()),
                PassedLotusCount(stage.charas.States()[0], stage.lotuses.count))]
    {
      stages[currentStageIndex].WriteEnd(stage);
    }

    /// `score`: the total of the scores of all `GameStageCount` stages, truncated to
    /// an integer, which is never negative.
    method Score() returns (r: int)
      requires Valid() && forall i :: 0 <= i < |States()| ==> Scorable(States()[i])
      ensures forall i :: 0 <= i < |States()| ==> Scorable(States()[i])
      ensures r == TruncReal(SumScores(States())) && 0 <= r
    {
      var total := 0.0;
      var index := 0;
      while index < GameStageCount
        invariant 0 <= index <= GameStageCount
        invariant total == SumScores(States()[..index])
      {
        assert States()[..index + 1][..index] == States()[..index];
        assert stages[index].State() == States()[index];
        total := total + stages[index].Score();
        index := index + 1;
      }
      assert States()[..GameStageCount] == States();
      SumScoresNonNegative(States());
      r := TruncReal(total);
    }
  }
}
