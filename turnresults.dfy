/// `TurnResult` (HPCTurnResult.cpp): the per-character summary of the last turn and
/// the stage state it left.
module TurnResults {
  import opened Geometry
  import opened Params

  /// `StageState`; `NoState` is the source's `StageState_TERM`, the reset value.
  datatype StageState = Playing | Complete | Failed | TurnLimit | NoState

  /// `TurnResult::Chara`: one character's entry.
  datatype CharaResult = CharaResult(pos: Vec2, accelCount: int, passedLotusCount: int)

  /// The value `reset` leaves in every entry.
  const ZeroResult := CharaResult(Zero, 0, 0)

  class TurnResult {
    const charas: array<CharaResult>
    var state: StageState

    ghost predicate Valid()
      reads this
    {
      charas.Length == CharaCountMax
    }

    /// The default constructor: `reset`.
    constructor ()
      ensures Valid() && fresh(charas) && state == NoState
      ensures forall i :: 0 <= i < CharaCountMax ==> charas[i] == ZeroResult
    {
      charas := new CharaResult[CharaCountMax](_ => ZeroResult);
      state := NoState;
    }

    /// `reset`: every one of the `CharaCountMax` entries zeroed, state back to `NoState`.
    method Reset()
      requires Valid()
      modifies this, charas
      ensures Valid() && state == NoState
      ensures forall i :: 0 <= i < CharaCountMax ==> charas[i] == ZeroResult
    {
      var i := 0;
      while i < CharaCountMax
        invariant 0 <= i <= CharaCountMax
        invariant forall j :: 0 <= j < i ==> charas[j] == ZeroResult
      {
        charas[i] := ZeroResult;
        i := i + 1;
      }
      state := NoState;
    }

    /// `set`: every entry and the state copied from `src` (which may be this one).
    method Set(src: TurnResult)
      requires Valid() && src.Valid()
      modifies this, charas
      ensures Valid()
      ensures charas[..] == old(src.charas[..])
      ensures state == old(src.state)
    {
      var i := 0;
      while i < CharaCountMax
        invariant 0 <= i <= CharaCountMax
        invariant forall j :: 0 <= j < i ==> charas[j] == old(src.charas[j])
        invariant forall j :: i <= j < CharaCountMax ==> src.charas[j] == old(src.charas[j])
        invariant src.state == old(src.state)
      {
        charas[i] := src.charas[i];
        i := i + 1;
      }
      state := src.state;
    }
  }
}
