/// `RecordStage` (HPCRecordStage.cpp): what is kept of one played stage, and the
/// stage's score. The turn-by-turn log, field, lotuses and start positions kept only
/// in debug builds are not part of this model.
module RecordStages {
  import opened Params
  import opened IntVectors
  import opened CharaRules
  import opened TurnResults
  import opened Stages

  /// The recorded values of a stage.
  datatype StageRecord = StageRecord(currentTurn: int, ranks: seq<int>, passedLotusCount: int,
                                     charaCount: int, isFailed: bool)

  /// `Value` of `score`: the constant factor of every stage score.
  const ScoreValue := 250
  /// `RankRateTable` of `score`: the factor for the player's rank, best rank first.
  const RankRateTable: seq<real> := [6.0, 4.0, 2.0, 1.0]

  /// The index into `RankRateTable`: with fewer characters than `CharaCountMax`, the
  /// player's rank is moved toward the smaller factors.
  function RateIndex(rank: int, charaCount: int): int {
    rank + (CharaCountMax - charaCount)
  }

  /// What `score` needs: a rank for every character slot and, for a cleared stage, a
  /// turn count that is not negative and a player's rank inside the table.
  predicate Scorable(r: StageRecord) {
    |r.ranks| == CharaCountMax &&
    (!r.isFailed ==> 0 <= r.currentTurn && 0 <= RateIndex(r.ranks[0], r.charaCount) < CharaCountMax)
  }

  /// The turn count `score` divides by: the whole allowance for a failed stage.
  function ScoreTurn(r: StageRecord): int {
    if r.isFailed then GameTurnPerStage else r.currentTurn + 1
  }

  /// The passed-lotus score of `score`: the square of the passed-lotus count divided
  /// by `StageRoundCount`, with the truncating integer division of C++.
  function LotusScore(passedLotusCount: int): int {
    TruncDiv(passedLotusCount, StageRoundCount) * TruncDiv(passedLotusCount, StageRoundCount)
  }

  /// `score`, over the reals: the square of the passed-lotus score divided by the
  /// turn count and scaled by `ScoreValue`, then, on a cleared stage only, by the
  /// factor of the player's rank.
  function ScoreOf(r: StageRecord): real
    requires Scorable(r)
  {
    var ls := LotusScore(r.passedLotusCount);
    var total := (ls * ls) as real / ScoreTurn(r) as real * ScoreValue as real;
    if !r.isFailed then total * RankRateTable[RateIndex(r.ranks[0], r.charaCount)] else total
  }

  lemma SquareMonotone(a: int, b: int)
    requires 0 <= a <= b
    ensures 0 <= a * a <= b * b
  {
    assert a * a <= a * b;
    assert a * b <= b * b;
  }

  lemma SquareNonNegative(a: int)
    ensures 0 <= a * a
  {
    if a >= 0 {
      SquareMonotone(0, a);
    } else {
      SquareMonotone(0, -a);
      assert a * a == (-a) * (-a);
    }
  }

  /// Dividing by a larger positive number gives less.
  lemma DivAntitone(x: real, a: real, b: real)
    requires 0.0 <= x && 0.0 < a <= b
    ensures 0.0 <= x / b <= x / a
  {
    assert x / a - x / b == x * (b - a) / (a * b);
    assert 0.0 < a * b;
    assert 0.0 <= x * (b - a);
  }

  /// The part of the score before the rank factor, over the squared passed-lotus
  /// score `x`, is never negative and shrinks as the turn count grows.
  lemma BaseScoreAntitone(x: int, t1: int, t2: int)
    requires 0 <= x && 0 < t1 <= t2
    ensures 0.0 <= x as real / t2 as real * ScoreValue as real <= x as real / t1 as real * ScoreValue as real
  {
    DivAntitone(x as real, t1 as real, t2 as real);
  }

  /// The part of the score before the rank factor grows with the squared
  /// passed-lotus score `x`, for a fixed turn count.
  lemma BaseScoreMonotone(x1: int, x2: int, t: int)
    requires 0 <= x1 <= x2 && 0 < t
    ensures x1 as real / t as real * ScoreValue as real <= x2 as real / t as real * ScoreValue as real
  {
    assert x2 as real / t as real - x1 as real / t as real == (x2 - x1) as real / t as real;
  }

  /// Scaling by a factor that is not negative keeps the order.
  lemma ScaleMonotone(a: real, b: real, f: real)
    requires a <= b && 0.0 <= f
    ensures a * f <= b * f
  {
    assert b * f - a * f == (b - a) * f;
  }

  /// The passed-lotus score never decreases as more lotuses are passed.
  lemma {:induction false} LotusScoreMonotone(p1: int, p2: int)
    requires 0 <= p1 <= p2
    ensures 0 <= LotusScore(p1) <= LotusScore(p2)
  {
    var q1, q2 := TruncDiv(p1, StageRoundCount), TruncDiv(p2, StageRoundCount);
    assert q1 == p1 / StageRoundCount && q2 == p2 / StageRoundCount;
    assert q1 <= q2;
    SquareMonotone(q1, q2);
  }

  /// Scores are never negative.
  lemma {:induction false} ScoreNonNegative(r: StageRecord)
    requires Scorable(r)
    ensures 0.0 <= ScoreOf(r)
  {
    var ls := LotusScore(r.passedLotusCount);
    SquareNonNegative(ls);
    BaseScoreAntitone(ls * ls, ScoreTurn(r), ScoreTurn(r));
  }

  /// With everything else equal, passing more lotuses never lowers the score.
  lemma {:induction false} MoreLotusesScoreHigher(r: StageRecord, p1: int, p2: int)
    requires Scorable(r) && 0 <= p1 <= p2
    ensures ScoreOf(r.(passedLotusCount := p1)) <= ScoreOf(r.(passedLotusCount := p2))
  {
    var l1, l2 := LotusScore(p1), LotusScore(p2);
    LotusScoreMonotone(p1, p2);
    SquareMonotone(l1, l2);
    BaseScoreMonotone(l1 * l1, l2 * l2, ScoreTurn(r));
    if !r.isFailed {
      ScaleMonotone((l1 * l1) as real / ScoreTurn(r) as real * ScoreValue as real,
                    (l2 * l2) as real / ScoreTurn(r) as real * ScoreValue as real,
                    RankRateTable[RateIndex(r.ranks[0], r.charaCount)]);
    }
  }

  /// On a cleared stage, with everything else equal, finishing in fewer turns never
  /// lowers the score.
  lemma {:induction false} FewerTurnsScoreHigher(r: StageRecord, t1: int, t2: int)
    requires Scorable(r) && !r.isFailed && 0 <= t1 <= t2
    ensures ScoreOf(r.(currentTurn := t2)) <= ScoreOf(r.(currentTurn := t1))
  {
    var ls := LotusScore(r.passedLotusCount);
    SquareNonNegative(ls);
    BaseScoreAntitone(ls * ls, t1 + 1, t2 + 1);
  }

  /// Clearing a stage within the turn allowance never scores less than failing it
  /// with the same number of lotuses passed.
  lemma {:induction false} ClearingBeatsFailing(r: StageRecord)
    requires Scorable(r.(isFailed := false)) && r.currentTurn + 1 <= GameTurnPerStage
    ensures ScoreOf(r.(isFailed := true)) <= ScoreOf(r.(isFailed := false))
  {
    var ls := LotusScore(r.passedLotusCount);
    SquareNonNegative(ls);
    BaseScoreAntitone(ls * ls, r.currentTurn + 1, GameTurnPerStage);
    var rate := RankRateTable[RateIndex(r.ranks[0], r.charaCount)];
    assert 1.0 <= rate;
  }

  /// On a cleared stage the better the player's rank the higher the score, and
  /// strictly so once a round has been completed.
  lemma {:induction false} BetterRankScoresHigher(r: StageRecord, rank1: int, rank2: int)
    requires |r.ranks| == CharaCountMax && !r.isFailed && rank1 < rank2
    requires Scorable(r.(ranks := r.ranks[0 := rank1])) && Scorable(r.(ranks := r.ranks[0 := rank2]))
    ensures ScoreOf(r.(ranks := r.ranks[0 := rank2])) <= ScoreOf(r.(ranks := r.ranks[0 := rank1]))
    ensures LotusScore(r.passedLotusCount) != 0 ==>
      ScoreOf(r.(ranks := r.ranks[0 := rank2])) < ScoreOf(r.(ranks := r.ranks[0 := rank1]))
  {
    var ls := LotusScore(r.passedLotusCount);
    SquareNonNegative(ls);
    if ls != 0 {
      SquareMonotone(1, if ls >= 0 then ls else -ls);
      assert ls * ls == (if ls >= 0 then ls else -ls) * (if ls >= 0 then ls else -ls);
    }
    var total := (ls * ls) as real / (r.currentTurn + 1) as real * 250.0;
    assert 0.0 <= total && (ls != 0 ==> 0.0 < total);
    var i1, i2 := RateIndex(rank1, r.charaCount), RateIndex(rank2, r.charaCount);
    assert 0 <= i1 < i2 < CharaCountMax;
    assert RankRateTable[i2] < RankRateTable[i1];
  }

  /// One turn written: the turn counter advances, and the stage is failed from the
  /// first turn whose state is failed or out of turns on.
  function WriteTurnOf(r: StageRecord, state: StageState): StageRecord {
    r.(currentTurn := r.currentTurn + 1,
       isFailed := r.isFailed || state == Failed || state == TurnLimit)
  }

  /// The turns of `states` written in order.
  function WriteTurns(r: StageRecord, states: seq<StageState>): StageRecord
    decreases |states|
  {
    if states == [] then r else WriteTurns(WriteTurnOf(r, states[0]), states[1..])
  }

  /// After writing any turns, the counter has advanced by their number, the ranks,
  /// lotus count and character count are untouched, and the stage is failed exactly
  /// when it was before or one of the turns failed or ran out of turns: failure is
  /// never cleared.
  lemma {:induction false} WriteTurnsMeaning(r: StageRecord, states: seq<StageState>)
    ensures WriteTurns(r, states).currentTurn == r.currentTurn + |states|
    ensures WriteTurns(r, states).(currentTurn := r.currentTurn, isFailed := r.isFailed) == r
    ensures WriteTurns(r, states).isFailed <==>
      r.isFailed || exists i :: 0 <= i < |states| && (states[i] == Failed || states[i] == TurnLimit)
    decreases |states|
  {
    if states != [] {
      WriteTurnsMeaning(WriteTurnOf(r, states[0]), states[1..]);
      var f := WriteTurns(r, states).isFailed;
      if f && !r.isFailed && states[0] != Failed && states[0] != TurnLimit {
        var i :| 0 <= i < |states[1..]| && (states[1..][i] == Failed || states[1..][i] == TurnLimit);
        assert states[i + 1] == states[1..][i];
      }
      if !f {
        forall i | 0 <= i < |states|
          ensures states[i] != Failed && states[i] != TurnLimit
        {
          if i > 0 {
            assert states[i] == states[1..][i - 1];
          }
        }
      }
    }
  }

  /// The rank of every character of `s`.
  function RanksIn(s: seq<CharaState>): (r: seq<int>)
    ensures |r| == |s| && forall i :: 0 <= i < |s| ==> r[i] == s[i].rank
  {
    seq(|s|, i requires 0 <= i < |s| => s[i].rank)
  }

  /// The end of a stage recorded: the first `charaCount` ranks taken from `ranks`,
  /// the rest kept, and the player's passed lotuses.
  function EndWith(r: StageRecord, ranks: seq<int>, passed: int): StageRecord
    requires |r.ranks| <= |ranks|
  {
    r.(ranks := seq(|r.ranks|, i requires 0 <= i < |r.ranks| => if i < r.charaCount then ranks[i] else r.ranks[i]),
       passedLotusCount := passed)
  }

  class RecordStage {
    var currentTurn: int
    const ranks: array<int>
    var passedLotusCount: int
    var charaCount: int
    var isFailed: bool

    ghost predicate Valid()
      reads this
    {
      ranks.Length == CharaCountMax && 0 <= currentTurn && 0 <= charaCount <= CharaCountMax
    }

    /// The recorded values.
    function State(): StageRecord
      reads this, ranks
    {
      StageRecord(currentTurn, ranks[..], passedLotusCount, charaCount, isFailed)
    }

    /// The default constructor: nothing recorded.
    constructor ()
      ensures Valid() && fresh(ranks)
      ensures State() == StageRecord(0, [0, 0, 0, 0], 0, 0, false)
    {
      currentTurn := 0;
      ranks := new int[CharaCountMax](_ => 0);
      passedLotusCount := 0;
      charaCount := 0;
      isFailed := false;
      new;
      assert ranks[..] == [0, 0, 0, 0];
    }

    /// `writeStart`: the number of characters of `stage` is recorded.
    method WriteStart(stage: Stage)
      requires Valid() && stage.Valid()
      modifies this
      ensures Valid() && State() == old(State()).(charaCount := stage.charas.count)
    {
      charaCount := stage.charas.count;
    }

    /// `writeTurn`: the turn of `result` is written as `WriteTurnOf` says.
    method WriteTurn(result: TurnResult)
      requires Valid()
      modifies this
      ensures Valid() && State() == WriteTurnOf(old(State()), result.state)
    {
      currentTurn := currentTurn + 1;
      if result.state == Failed || result.state == TurnLimit {
        isFailed := true;
      }
    }

    /// `writeEnd`: the ranks of the first `charaCount` characters of `stage` and the
    /// lotuses passed by the player, character 0, are recorded.
    method WriteEnd(stage: Stage)
      requires Valid() && stage.Valid() && 0 < stage.charas.count && charaCount <= stage.charas.count
      modifies ranks, this
      ensures Valid()
      ensures State() == EndWith(old(State()), RanksIn(stage.charas.States()),
                                 PassedLotusCount(stage.charas.States()[0], stage.lotuses.count))
    {
      var index := 0;
      while index < charaCount
        invariant 0 <= index <= charaCount && Valid()
        invariant currentTurn == old(currentTurn) && charaCount == old(charaCount) && isFailed == old(isFailed)
        invariant forall i :: 0 <= i < CharaCountMax ==>
          ranks[i] == if i < index then stage.charas.States()[i].rank else old(ranks[i])
      {
        ranks[index] := stage.charas.At(index).rank;
        index := index + 1;
      }
      var player := stage.charas.At(0);
      passedLotusCount := player.PassedLotusCount(stage.lotuses.count);
      assert ranks[..] == EndWith(old(State()), RanksIn(stage.charas.States()), passedLotusCount).ranks;
    }

    /// `score`: the stage's score, never negative.
    function Score(): (r: real)
      reads this, ranks
      requires Scorable(State())
      ensures 0.0 <= r
    {
      ScoreNonNegative(State());
      ScoreOf(State())
    }
  }
}
