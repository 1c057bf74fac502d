/// `CharaParam` (HPCCharaParam.cpp): the kind of a character and, for a CPU, its
/// strength. A value type, so a datatype.
module CharaParams {
  /// `CharaType`; `NoType` is the source's `CharaType_TERM`, the reset value.
  datatype CharaType = Human | Cpu | NoType

  datatype CharaParam = CharaParam(kind: CharaType, strength: int)

  /// The default constructor and `CharaParam::reset`.
  const NoParam := CharaParam(NoType, 0)

  /// `CharaParam::CreateHuman()`: a human, whose strength is 0.
  function CreateHuman(): (p: CharaParam)
    ensures p.kind == Human && p.strength == 0 && p != NoParam
  {
    CharaParam(Human, 0)
  }

  /// `CharaParam::CreateCpu(strength)`: a CPU keeping the strength it was given.
  function CreateCpu(strength: int): (p: CharaParam)
    ensures p.kind == Cpu && p.strength == strength && p != NoParam
  {
    CharaParam(Cpu, strength)
  }
}
