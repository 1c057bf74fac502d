/// `LotusCollection` (HPCLotusCollection.cpp): a fixed array of `LotusCountMax`
/// lotus regions of which the first `count` are in use. `Lotus::reset()` only moves
/// a lotus back to the origin and keeps its radius.
module Lotuses {
  import opened Geometry
  import opened Params

  class LotusCollection {
    const lotuses: array<Circle>
    var count: int

    ghost predicate Valid()
      reads this
    {
      lotuses.Length == LotusCountMax && 0 <= count <= LotusCountMax
    }

    /// The lotuses in use.
    ghost function Contents(): seq<Circle>
      reads this, lotuses
      requires Valid()
    {
      lotuses[..count]
    }

    /// The default constructor: no lotus in use, every slot a base-radius lotus at
    /// the origin (`baseRadius` is `Parameter::LotusBaseRadius()`).
    constructor (baseRadius: real)
      ensures Valid() && fresh(lotuses) && Contents() == []
      ensures forall i :: 0 <= i < LotusCountMax ==> lotuses[i] == Circle(Zero, baseRadius)
    {
      lotuses := new Circle[LotusCountMax](_ => Circle(Zero, baseRadius));
      count := 0;
    }

    /// `reset`: no lotus in use; every slot back at the origin with its radius kept.
    method Reset()
      requires Valid()
      modifies this, lotuses
      ensures Valid() && count == 0
      ensures forall i :: 0 <= i < LotusCountMax ==>
        lotuses[i] == Circle(Zero, old(lotuses[i].radius))
    {
      var i := 0;
      while i < LotusCountMax
        invariant 0 <= i <= LotusCountMax
        invariant forall j :: 0 <= j < i ==> lotuses[j] == Circle(Zero, old(lotuses[j].radius))
        invariant forall j :: i <= j < LotusCountMax ==> lotuses[j] == old(lotuses[j])
      {
        lotuses[i] := Circle(Zero, lotuses[i].radius);
        i := i + 1;
      }
      count := 0;
    }

    /// `set`: reset, then copy the lotuses in use of `src`.
    method Set(src: LotusCollection)
      requires Valid() && src.Valid() && src != this && src.lotuses != lotuses
      modifies this, lotuses
      ensures Valid() && Contents() == old(src.Contents())
      ensures forall i :: src.count <= i < LotusCountMax ==>
        lotuses[i] == Circle(Zero, old(lotuses[i].radius))
    {
      Reset();
      var i := 0;
      while i < src.count
        invariant 0 <= i <= src.count
        invariant forall j :: 0 <= j < i ==> lotuses[j] == src.lotuses[j]
        invariant forall j :: i <= j < LotusCountMax ==> lotuses[j] == Circle(Zero, old(lotuses[j].radius))
      {
        lotuses[i] := src.lotuses[i];
        i := i + 1;
      }
      count := src.count;
    }

    /// `setupAddLotus`: append one lotus. The source does not check the capacity;
    /// the model asks for a free slot.
    method SetupAddLotus(pos: Vec2, radius: real)
      requires Valid() && count < LotusCountMax
      modifies this, lotuses
      ensures Valid() && Contents() == old(Contents()) + [Circle(pos, radius)]
      ensures forall i :: count <= i < LotusCountMax ==> lotuses[i] == old(lotuses[i])
    {
      lotuses[count] := Circle(pos, radius);
      count := count + 1;
      assert Contents() == old(Contents()) + [Circle(pos, radius)];
    }

    /// `operator[]`: only lotuses in use may be read.
    function At(index: int): Circle
      reads this, lotuses
      requires Valid() && 0 <= index < count
    {
      lotuses[index]
    }
  }
}
