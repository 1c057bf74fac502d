/// `LevelDesigner` (HPCLevelDesigner.cpp): builds stage `number` of the game: the
/// grid size, the lotuses placed on a `LevelGrid`, the start positions shuffled
/// around the first lotus, and the characters, the player first.
module LevelDesigners {
  import opened Params
  import opened IntVectors
  import opened Geometry
  import opened CharaParams
  import opened CharaRules
  import opened Randoms
  import opened Wrappers
  import opened LevelGrids
  import opened Swaps
  import opened Lotuses
  import opened CharaCollections
  import opened Stages
  import opened TurnResults
  import IntMath

  /// `GetStageGridSize`: 10 by 9 cells at stage 0, growing by one cell every two
  /// stages, first upwards, then sideways, then both ways, and 21 by 21 from stage 30.
  function StageGridSize(number: int): IntVec2
    requires 0 <= number < GameStageCount
  {
    var digit := number % 10;
    if number <= 9 then IntVec2(10, 9 + digit / 2)
    else if number <= 19 then IntVec2(10 + digit / 2, 15)
    else if number <= 29 then IntVec2(15 + digit / 2, 15 + digit / 2)
    else IntVec2(21, 21)
  }

  /// Every stage's grid is between 10 by 9 and 21 by 21 cells, so it fits a
  /// `LevelGrid`, and from stage 30 on it is 21 by 21.
  lemma StageGridSizeBounds(number: int)
    requires 0 <= number < GameStageCount
    ensures var size := StageGridSize(number);
      10 <= size.x <= 21 && 9 <= size.y <= 21 && size.x <= CellSizeMax && size.y <= CellSizeMax
    ensures 30 <= number ==> StageGridSize(number) == IntVec2(21, 21)
  {
  }

  /// A later stage never has a narrower or lower grid.
  lemma StageGridGrows(n: int, m: int)
    requires 0 <= n <= m < GameStageCount
    ensures StageGridSize(n).x <= StageGridSize(m).x && StageGridSize(n).y <= StageGridSize(m).y
  {
    // Within one band of ten stages the grid follows the last digit.
    if n <= 9 {
      assert n % 10 == n;
    } else if n <= 19 {
      assert n % 10 == n - 10;
    } else if n <= 29 {
      assert n % 10 == n - 20;
    }
    if m <= 9 {
      assert m % 10 == m;
    } else if m <= 19 {
      assert m % 10 == m - 10;
    } else if m <= 29 {
      assert m % 10 == m - 20;
    }
  }

  /// `GetEdgeInhibitMargin`: no lotus is placed on the outermost ring of cells.
  const EdgeInhibitMargin := 1

  /// `BattleCharaCount`: `CharaCountMin` characters up to stage 14, one more from
  /// stage 15 and `CharaCountMax` from stage 30. The source computes it in `float`
  /// as `min + (int)((max - min) * Min(number / 30.0f, 1.0f))`; on stages 0 .. 99
  /// the product stays at least 0.06 away from the integers it is truncated
  /// between, except at 1.0 and 2.0 which are exact, so the integer form below
  /// gives the same counts.
  function BattleCharaCount(number: int): int
    requires 0 <= number < GameStageCount
  {
    CharaCountMin + (if number < 30 then (CharaCountMax - CharaCountMin) * number / 30 else CharaCountMax - CharaCountMin)
  }

  /// Every stage races between `CharaCountMin` and `CharaCountMax` characters, a later
  /// stage never fewer, and the counts change at stages 15 and 30.
  lemma BattleCharaCountMeaning(n: int, m: int)
    requires 0 <= n <= m < GameStageCount
    ensures CharaCountMin <= BattleCharaCount(n) <= CharaCountMax
    ensures BattleCharaCount(n) <= BattleCharaCount(m)
    ensures BattleCharaCount(n) == (if n < 15 then 2 else if n < 30 then 3 else 4)
  {
  }

  /// `GetRandomLotusCount`: three lotuses at stage 0, one more every six stages up
  /// to stage 47, then 11 at stage 48 and one more every five stages, never more
  /// than `LotusCountMax`.
  function RandomLotusCount(number: int): int
    requires 0 <= number < GameStageCount
  {
    if number < 48 then IntMath.Min(number / 6 + 3, LotusCountMax)
    else IntMath.Min((number - 48) / 5 + 11, LotusCountMax)
  }

  /// Every stage has between 3 and `LotusCountMax` lotuses, and a later stage never
  /// has fewer.
  lemma RandomLotusCountMeaning(n: int, m: int)
    requires 0 <= n <= m < GameStageCount
    ensures 3 <= RandomLotusCount(n) <= LotusCountMax
    ensures RandomLotusCount(n) <= RandomLotusCount(m)
  {
  }

  /// `GetLotusSizeMax`: the largest lotus size factor.
  const LotusSizeMax := 4

  /// The table `GetRandomLotusSize` draws from at stage `number`: each entry as
  /// often as its share of the draws.
  function LotusSizeTable(number: int): seq<int>
    requires 0 <= number < GameStageCount
  {
    if number <= 4 then [2]
    else if number <= 9 then [2, 3]
    else if number <= 24 then [2, 2, 3, 3, 4]
    else if number <= 49 then [1, 2, 2, 3, 3, 3, 4, 4]
    else [1, 2, 3, 3, 4]
  }

  /// `GetRandomLotusSize` on a seed: one `randTerm` over the stage's table.
  function LotusSizeDraw(seed: Seed, number: int): (int, Seed)
    requires 0 <= number < GameStageCount
  {
    var table := LotusSizeTable(number);
    var (index, next) := TermDraw(seed, |table|);
    (table[index], next)
  }

  /// A lotus size is an entry of the stage's table between 1 and `LotusSizeMax`,
  /// drawn with exactly one step of the generator; stages 0 .. 4 only have size 2
  /// and stages 5 .. 9 only sizes 2 and 3.
  lemma LotusSizeDrawMeaning(seed: Seed, number: int)
    requires 0 <= number < GameStageCount
    ensures var (size, next) := LotusSizeDraw(seed, number);
      size in LotusSizeTable(number) && 1 <= size <= LotusSizeMax && next == Step(seed) &&
      (number <= 4 ==> size == 2) && (5 <= number <= 9 ==> size == 2 || size == 3)
  {
    var table := LotusSizeTable(number);
    var (index, next) := TermDraw(seed, |table|);
    assert table[index] in table;
  }

  /// `GetRandomLotusSize`.
  method GetRandomLotusSize(number: int, rng: Random) returns (size: int)
    requires 0 <= number < GameStageCount
    modifies rng
    ensures (size, rng.State()) == LotusSizeDraw(old(rng.State()), number)
  {
    var table := LotusSizeTable(number);
    var index := rng.RandTerm(|table|);
    size := table[index];
  }

  /// The float computations of level design, which this model takes as given.
  datatype LevelFloats = LevelFloats(
    /// `Field::setup(GridToRect(IntVec2(), size), GetFieldFlowVel(number))` for the
    /// grid `size` of stage `number`.
    field: (int, IntVec2) -> Field,
    /// `Ceil(LotusBaseRadius() * 2 * size / FieldGridSize()) + 1`: the width in cells
    /// of the square a lotus of size factor `size` occupies.
    occupyGridSize: int -> int,
    /// `GridCenterToVec2(gridPos, n, n)`: the centre of the `n` by `n` square of
    /// cells at `gridPos`.
    gridCenter: (IntVec2, int) -> Vec2,
    /// `Parameter::LotusBaseRadius()`.
    lotusBaseRadius: real,
    /// `GetCpuStrength(number)`.
    cpuStrength: int -> int,
    /// The bounds `randMinMax` draws the start distance from at stage `number`,
    /// computed from the field rectangle and `FieldGridSize()`.
    baseRange: int -> (int, int),
    /// The `CharaCountMax` start positions at distance `len` around the first lotus
    /// at `pos` on stage `number`, before shuffling (`baseVec` rotated step by step).
    ring: (Vec2, int, int) -> seq<Vec2>)

  /// What the source asserts of those computations: a lotus occupies at least one
  /// cell, the distance range is not empty, and the ring has a position per character.
  ghost predicate FloatsOk(f: LevelFloats) {
    (forall size :: 1 <= size <= LotusSizeMax ==> 1 <= f.occupyGridSize(size)) &&
    (forall number :: 0 <= number < GameStageCount ==> f.baseRange(number).0 <= f.baseRange(number).1) &&
    (forall pos, number, len :: |f.ring(pos, number, len)| == CharaCountMax)
  }

  /// The place `setRandomOccupied` gave, or cell (0, 0) when no place fitted: with
  /// its assertion compiled out, `findAvailableRandCell` gives index 0, whose cell
  /// is at (0, 0).
  function PlaceOr(placed: Option<IntVec2>): IntVec2 {
    if placed.Some? then placed.value else Origin
  }

  /// The lotus of size factor `size` at the centre of the square of cells `found`
  /// (or of the square at cell (0, 0) when none was found).
  function LotusAt(f: LevelFloats, found: Option<IntVec2>, size: int): Circle {
    Circle(f.gridCenter(PlaceOr(found), f.occupyGridSize(size)), f.lotusBaseRadius * size as real)
  }

  /// The squares of the lotuses placed so far: each lies inside the grid and off its
  /// margin, and no two of them share a cell.
  ghost predicate ApartInGrid(size: IntVec2, placed: seq<Option<IntVec2>>, widths: seq<int>)
    requires |placed| == |widths|
  {
    (forall i, q :: 0 <= i < |placed| && placed[i].Some? && InRect(q, placed[i].value, widths[i], widths[i]) ==>
      InGrid(size, q) && !InMargin(size, EdgeInhibitMargin, q)) &&
    (forall i, j, q ::
      0 <= i < j < |placed| && placed[i].Some? && placed[j].Some? && InRect(q, placed[i].value, widths[i], widths[i])
      ==> !InRect(q, placed[j].value, widths[j], widths[j]))
  }

  /// The lotuses of a stage: lotus `i` has size factor `sizes[i]`, the `i`-th draw
  /// of `LotusSizeDraw` from `seed`, and sits at the centre of the square of cells
  /// `placed[i]` (cell (0, 0) when none fitted).
  ghost predicate LotusesLaid(lotuses: seq<Circle>, number: int, seed: Seed, f: LevelFloats,
                              sizes: seq<int>, placed: seq<Option<IntVec2>>)
    requires 0 <= number < GameStageCount
  {
    |sizes| == |lotuses| == |placed| &&
    forall i :: 0 <= i < |lotuses| ==>
      sizes[i] == LotusSizeDraw(Steps(seed, i), number).0 &&
      lotuses[i] == LotusAt(f, placed[i], sizes[i])
  }

  /// Laying the next lotus, with the next draw from where the earlier ones left the
  /// generator, extends the lotuses laid so far.
  lemma {:induction false} LaidStep(lotuses: seq<Circle>, number: int, seed: Seed, f: LevelFloats,
                                    sizes: seq<int>, placed: seq<Option<IntVec2>>, size: int, found: Option<IntVec2>)
    requires 0 <= number < GameStageCount && LotusesLaid(lotuses, number, seed, f, sizes, placed)
    requires size == LotusSizeDraw(Steps(seed, |lotuses|), number).0
    ensures LotusesLaid(lotuses + [LotusAt(f, found, size)],
                        number, seed, f, sizes + [size], placed + [found])
  {
    var lotuses' := lotuses + [LotusAt(f, found, size)];
    var sizes', placed' := sizes + [size], placed + [found];
    forall i | 0 <= i < |lotuses'|
      ensures sizes'[i] == LotusSizeDraw(Steps(seed, i), number).0
      ensures lotuses'[i] == LotusAt(f, placed'[i], sizes'[i])
    {
      if i < |lotuses| {
        assert lotuses'[i] == lotuses[i] && sizes'[i] == sizes[i] && placed'[i] == placed[i];
      }
    }
  }

  /// The widths in cells of the squares the lotuses of sizes `sizes` occupy.
  function Widths(f: LevelFloats, sizes: seq<int>): (r: seq<int>)
    ensures |r| == |sizes| && forall i :: 0 <= i < |sizes| ==> r[i] == f.occupyGridSize(sizes[i])
  {
    seq(|sizes|, i requires 0 <= i < |sizes| => f.occupyGridSize(sizes[i]))
  }

  /// One more lotus adds its square's width at the end.
  lemma WidthsSnoc(f: LevelFloats, sizes: seq<int>, size: int)
    ensures Widths(f, sizes + [size]) == Widths(f, sizes) + [f.occupyGridSize(size)]
  {
  }

  /// The cells `occupied` cover the margin of the grid and the square of every lotus
  /// placed so far.
  ghost predicate Covered(size: IntVec2, placed: seq<Option<IntVec2>>, widths: seq<int>, occupied: set<IntVec2>)
    requires |placed| == |widths|
  {
    (forall q :: InGrid(size, q) && InMargin(size, EdgeInhibitMargin, q) ==> q in occupied) &&
    (forall i, q :: 0 <= i < |placed| && placed[i].Some? && InRect(q, placed[i].value, widths[i], widths[i]) ==> q in occupied)
  }

  /// Placing one more lotus on free cells, or on none, keeps the placed squares
  /// apart, inside the grid and covered by the occupied cells.
  lemma {:induction false} PlaceKeepsApart(size: IntVec2, placed: seq<Option<IntVec2>>, widths: seq<int>,
                                           before: set<IntVec2>, after: set<IntVec2>, found: Option<IntVec2>, w: int)
    requires |placed| == |widths| && ApartInGrid(size, placed, widths) && Covered(size, placed, widths, before)
    requires found.None? ==> after == before
    requires found.Some? ==> forall q :: InRect(q, found.value, w, w) ==> InGrid(size, q) && q !in before
    requires found.Some? ==> forall q :: q in after <==> q in before || InRect(q, found.value, w, w)
    ensures ApartInGrid(size, placed + [found], widths + [w]) && Covered(size, placed + [found], widths + [w], after)
  {
    var placed', widths' := placed + [found], widths + [w];
    forall i, q | 0 <= i < |placed'| && placed'[i].Some? && InRect(q, placed'[i].value, widths'[i], widths'[i])
      ensures InGrid(size, q) && !InMargin(size, EdgeInhibitMargin, q) && q in after
    {
      if i < |placed| {
        assert placed'[i] == placed[i] && widths'[i] == widths[i];
      } else {
        assert q !in before;
      }
    }
    forall i, j, q | 0 <= i < j < |placed'| && placed'[i].Some? && placed'[j].Some? &&
                     InRect(q, placed'[i].value, widths'[i], widths'[i])
      ensures !InRect(q, placed'[j].value, widths'[j], widths'[j])
    {
      assert placed'[i] == placed[i] && widths'[i] == widths[i];
      if j == |placed| {
        assert q in before;
      } else {
        assert placed'[j] == placed[j] && widths'[j] == widths[j];
      }
    }
  }

  /// One turn of the lotus loop of `Setup`: a size drawn, a free square of the grid
  /// taken for it, and the lotus added at the centre of that square (of the square
  /// at cell (0, 0) when none was free, with the grid left as it was).
  method PlaceLotus(number: int, lotuses: LotusCollection, grid: LevelGrid, rng: Random, f: LevelFloats)
    returns (ghost size: int, ghost found: Option<IntVec2>)
    requires 0 <= number < GameStageCount && FloatsOk(f)
    requires lotuses.Valid() && lotuses.count < LotusCountMax && grid.Valid()
    modifies lotuses, lotuses.lotuses, grid.cells, rng
    ensures lotuses.Valid() && grid.Valid()
    ensures (size, rng.State()) == LotusSizeDraw(old(rng.State()), number)
    ensures lotuses.Contents() == old(lotuses.Contents()) +
      [LotusAt(f, found, size)]
    ensures var w := f.occupyGridSize(size);
      (found.None? ==> grid.Occupied() == old(grid.Occupied())) &&
      (found.Some? ==> forall q :: InRect(q, found.value, w, w) ==> InGrid(grid.size, q) && q !in old(grid.Occupied())) &&
      (found.Some? ==> forall q :: q in grid.Occupied() <==> q in old(grid.Occupied()) || InRect(q, found.value, w, w))
  {
    LotusSizeDrawMeaning(rng.State(), number);
    var s := GetRandomLotusSize(number, rng);
    var occupy := f.occupyGridSize(s);
    var r, at := grid.SetRandomOccupied(occupy, occupy);
    var lotus := LotusAt(f, r, s);
    lotuses.SetupAddLotus(lotus.pos, lotus.radius);
    size, found := s, r;
  }

  /// The lotus loop of `Setup`: `RandomLotusCount(number)` lotuses, each drawn a
  /// size and given a free square of the grid, with one draw of `rng` per lotus.
  method PlaceLotuses(number: int, lotuses: LotusCollection, grid: LevelGrid, rng: Random, f: LevelFloats)
    returns (ghost sizes: seq<int>, ghost placed: seq<Option<IntVec2>>)
    requires 0 <= number < GameStageCount && FloatsOk(f)
    requires lotuses.Valid() && lotuses.count == 0 && grid.Valid()
    requires forall q :: InGrid(grid.size, q) && InMargin(grid.size, EdgeInhibitMargin, q) ==> q in grid.Occupied()
    modifies lotuses, lotuses.lotuses, grid.cells, rng
    ensures lotuses.Valid() && lotuses.count == RandomLotusCount(number) && grid.Valid()
    ensures rng.State() == Steps(old(rng.State()), RandomLotusCount(number))
    ensures LotusesLaid(lotuses.Contents(), number, old(rng.State()), f, sizes, placed)
    ensures ApartInGrid(grid.size, placed, Widths(f, sizes))
  {
    ghost var seed0 := rng.State();
    var lotusCount := RandomLotusCount(number);
    RandomLotusCountMeaning(number, number);
    sizes, placed := [], [];
    var index := 0;
    while index < lotusCount
      invariant 0 <= index <= lotusCount && lotuses.Valid() && lotuses.count == index && grid.Valid()
      invariant rng.State() == Steps(seed0, index)
      invariant LotusesLaid(lotuses.Contents(), number, seed0, f, sizes, placed)
      invariant ApartInGrid(grid.size, placed, Widths(f, sizes))
      invariant Covered(grid.size, placed, Widths(f, sizes), grid.Occupied())
    {
      sizes, placed := PlaceNext(number, lotuses, grid, rng, f, seed0, sizes, placed);
      index := index + 1;
    }
  }

  /// One turn of the loop of `PlaceLotuses`: the next lotus placed keeps the lotuses
  /// laid as `LotusesLaid` says, their squares apart and covered by the occupied
  /// cells.
  method PlaceNext(number: int, lotuses: LotusCollection, grid: LevelGrid, rng: Random, f: LevelFloats,
                   ghost seed0: Seed, ghost sizes: seq<int>, ghost placed: seq<Option<IntVec2>>)
    returns (ghost sizes': seq<int>, ghost placed': seq<Option<IntVec2>>)
    requires 0 <= number < GameStageCount && FloatsOk(f)
    requires lotuses.Valid() && lotuses.count < LotusCountMax && grid.Valid()
    requires rng.State() == Steps(seed0, lotuses.count)
    requires LotusesLaid(lotuses.Contents(), number, seed0, f, sizes, placed)
    requires ApartInGrid(grid.size, placed, Widths(f, sizes))
    requires Covered(grid.size, placed, Widths(f, sizes), grid.Occupied())
    modifies lotuses, lotuses.lotuses, grid.cells, rng
    ensures lotuses.Valid() && lotuses.count == old(lotuses.count) + 1 && grid.Valid()
    ensures rng.State() == Steps(seed0, lotuses.count)
    ensures LotusesLaid(lotuses.Contents(), number, seed0, f, sizes', placed')
    ensures ApartInGrid(grid.size, placed', Widths(f, sizes'))
    ensures Covered(grid.size, placed', Widths(f, sizes'), grid.Occupied())
  {
    ghost var before := grid.Occupied();
    ghost var laid := lotuses.Contents();
    ghost var size, found := PlaceLotus(number, lotuses, grid, rng, f);
    sizes', placed' := sizes + [size], placed + [found];
    PlaceStep(number, seed0, f, grid.size, laid, sizes, placed, before, grid.Occupied(), size, found);
  }

  /// What one turn of the loop of `PlaceLotuses` keeps, from what `PlaceLotus`
  /// states about the lotus it adds and the cells it occupies.
  lemma PlaceStep(number: int, seed0: Seed, f: LevelFloats, gs: IntVec2, laid: seq<Circle>,
                  sizes: seq<int>, placed: seq<Option<IntVec2>>, before: set<IntVec2>, after: set<IntVec2>,
                  size: int, found: Option<IntVec2>)
    requires 0 <= number < GameStageCount && LotusesLaid(laid, number, seed0, f, sizes, placed)
    requires size == LotusSizeDraw(Steps(seed0, |laid|), number).0
    requires ApartInGrid(gs, placed, Widths(f, sizes)) && Covered(gs, placed, Widths(f, sizes), before)
    requires var w := f.occupyGridSize(size);
      (found.None? ==> after == before) &&
      (found.Some? ==> forall q :: InRect(q, found.value, w, w) ==> InGrid(gs, q) && q !in before) &&
      (found.Some? ==> forall q :: q in after <==> q in before || InRect(q, found.value, w, w))
    ensures LotusesLaid(laid + [LotusAt(f, found, size)], number, seed0, f, sizes + [size], placed + [found])
    ensures ApartInGrid(gs, placed + [found], Widths(f, sizes + [size]))
    ensures Covered(gs, placed + [found], Widths(f, sizes + [size]), after)
  {
    PlaceKeepsApart(gs, placed, Widths(f, sizes), before, after, found, f.occupyGridSize(size));
    WidthsSnoc(f, sizes, size);
    LaidStep(laid, number, seed0, f, sizes, placed, size, found);
  }

  /// The start positions of `Setup`: a distance drawn from the stage's range, the
  /// ring of positions at that distance around the first lotus, and the ring
  /// shuffled in place by `CharaCountMax` more draws.
  method StartPositions(number: int, target: Vec2, rng: Random, f: LevelFloats)
    returns (positions: seq<Vec2>, ghost ring: seq<Vec2>)
    requires 0 <= number < GameStageCount && FloatsOk(f)
    modifies rng
    ensures var (len, seed1) := MinMaxDraw(old(rng.State()), f.baseRange(number).0, f.baseRange(number).1);
      ring == f.ring(target, number, len) &&
      (positions, rng.State()) == Shuffle(ring, 0, CharaCountMax, seed1)
  {
    var (lo, hi) := f.baseRange(number);
    var len := rng.RandMinMax(lo, hi);
    var start := f.ring(target, number, len);
    ring := start;
    var posArray := new Vec2[CharaCountMax](i requires 0 <= i < CharaCountMax => start[i]);
    assert posArray[..] == ring;
    ghost var seed1 := rng.State();
    var index := 0;
    while index < CharaCountMax
      invariant 0 <= index <= CharaCountMax
      invariant Shuffle(posArray[..], index, CharaCountMax, rng.State()) == Shuffle(ring, 0, CharaCountMax, seed1)
    {
      ghost var before := posArray[..];
      var randIndex := rng.RandMinTerm(index, CharaCountMax);
      posArray[index], posArray[randIndex] := posArray[randIndex], posArray[index];
      assert posArray[..] == Swap(before, index, randIndex);
      index := index + 1;
    }
    positions := posArray[..];
  }

  /// The parameter of character `index`: the player first, CPUs of the stage's
  /// strength after it.
  function ParamOf(index: int, cpuStrength: int): (p: CharaParam)
    ensures (index == 0 ==> p.kind == Human) && (index != 0 ==> p.kind == Cpu)
  {
    if index == 0 then CreateHuman() else CreateCpu(cpuStrength)
  }

  /// The character loop of `Setup`: `count` characters added at the first `count`
  /// positions, with the parameters of `ParamOf`.
  method AddCharas(charas: CharaCollection, positions: seq<Vec2>, count: int, cpuStrength: int, lotusCount: int)
    requires charas.Valid() && charas.count == 0 && 0 <= count <= CharaCountMax && count <= |positions|
    requires 0 < lotusCount && forall i :: 0 <= i < CharaCountMax ==> charas.States()[i].targetLotusNo == 0
    modifies charas, charas.types, charas.charas, charas.brains
    ensures charas.Ready(lotusCount) && charas.count == count
    ensures forall i :: 0 <= i < count ==>
      charas.States()[i] == CharaRules.Setup(old(charas.States()[i]), positions[i], ParamOf(i, cpuStrength).strength) &&
      charas.brains[i].param == ParamOf(i, cpuStrength) && charas.types[i] == ParamOf(i, cpuStrength).kind
    ensures forall i :: count <= i < CharaCountMax ==>
      charas.States()[i] == old(charas.States()[i]) && charas.types[i] == old(charas.types[i])
  {
    ghost var states0, types0 := charas.States(), charas.types[..];
    var index := 0;
    while index < count
      invariant 0 <= index <= count && charas.Valid() && charas.count == index
      invariant forall i :: 0 <= i < index ==>
        charas.States()[i] == CharaRules.Setup(states0[i], positions[i], ParamOf(i, cpuStrength).strength) &&
        charas.brains[i].param == ParamOf(i, cpuStrength) && charas.types[i] == ParamOf(i, cpuStrength).kind
      invariant forall i :: index <= i < CharaCountMax ==>
        charas.States()[i] == states0[i] && charas.types[i] == types0[i]
    {
      charas.SetupAddChara(positions[index], ParamOf(index, cpuStrength));
      index := index + 1;
    }
  }

  /// The grid of stage `number`, with its margin occupied and its random order
  /// shuffled by `surface - 1` draws of `rng`.
  method NewGrid(number: int, rng: Random) returns (grid: LevelGrid, ghost draws: nat)
    requires 0 <= number < GameStageCount
    modifies rng
    ensures fresh(grid.cells) && fresh(grid.randArray) && grid.Valid() && grid.size == StageGridSize(number)
    ensures forall q :: InGrid(grid.size, q) && InMargin(grid.size, EdgeInhibitMargin, q) ==> q in grid.Occupied()
    ensures draws == grid.size.x * grid.size.y - 1 && rng.State() == Steps(old(rng.State()), draws)
  {
    ghost var seed0 := rng.State();
    var gridSize := StageGridSize(number);
    StageGridSizeBounds(number);
    grid := new LevelGrid(gridSize, EdgeInhibitMargin, rng);
    SurfaceBounds(gridSize);
    draws := grid.surface - 1;
    ShuffleDraws(Numbers(grid.surface), 0, draws, seed0);
  }

  /// The lotuses of `Setup`: laid on a new grid of the stage, which takes
  /// `surface - 1` draws to shuffle, then one draw per lotus.
  method LayLotuses(number: int, lotuses: LotusCollection, rng: Random, f: LevelFloats)
    returns (ghost gridDraws: nat, ghost sizes: seq<int>, ghost placed: seq<Option<IntVec2>>)
    requires 0 <= number < GameStageCount && FloatsOk(f) && lotuses.Valid()
    modifies lotuses, lotuses.lotuses, rng
    ensures gridDraws == StageGridSize(number).x * StageGridSize(number).y - 1
    ensures LotusesBuilt(number, lotuses, f, Steps(old(rng.State()), gridDraws), sizes, placed)
    ensures rng.State() == Steps(Steps(old(rng.State()), gridDraws), RandomLotusCount(number))
  {
    var grid;
    grid, gridDraws := NewGrid(number, rng);
    lotuses.Reset();
    sizes, placed := PlaceLotuses(number, lotuses, grid, rng, f);
  }

  /// The second half of `Setup`: the start positions shuffled around the first
  /// lotus, at `target`, and `BattleCharaCount(number)` characters added at them.
  method StartCharas(number: int, charas: CharaCollection, target: Vec2, lotusCount: int, rng: Random, f: LevelFloats,
                     ghost before: seq<CharaState>)
    returns (ghost ring: seq<Vec2>, ghost positions: seq<Vec2>)
    requires 0 <= number < GameStageCount && FloatsOk(f) && charas.Valid() && charas.count == 0 && 0 < lotusCount
    requires charas.States() == before && forall i :: 0 <= i < CharaCountMax ==> before[i].targetLotusNo == 0
    modifies charas, charas.types, charas.charas, charas.brains, rng
    ensures CharasBuilt(number, charas, f, target, lotusCount, old(rng.State()), rng.State(), before, ring, positions)
  {
    ghost var seed0 := rng.State();
    var posArray;
    posArray, ring := StartPositions(number, target, rng, f);
    positions := posArray;
    ShufflePermutes(ring, 0, CharaCountMax, Step(seed0));
    ShuffleDraws(ring, 0, CharaCountMax, Step(seed0));
    StepsAdd(seed0, 1, CharaCountMax);
    var charaCount := BattleCharaCount(number);
    BattleCharaCountMeaning(number, number);
    AddCharas(charas, posArray, charaCount, f.cpuStrength(number), lotusCount);
  }

  /// Every character state of `s` reset.
  function ResetAll(s: seq<CharaState>): (r: seq<CharaState>)
    ensures |r| == |s| && forall i :: 0 <= i < |s| ==> r[i] == CharaRules.Reset(s[i])
  {
    seq(|s|, i requires 0 <= i < |s| => CharaRules.Reset(s[i]))
  }

  /// The lotuses of stage `number` as `Setup` lays them, drawing from `seed1` on:
  /// `RandomLotusCount(number)` of them, laid as `LotusesLaid` says, on squares that
  /// stay apart, inside the grid and off its margin.
  ghost predicate LotusesBuilt(number: int, lotuses: LotusCollection, f: LevelFloats, seed1: Seed,
                               sizes: seq<int>, placed: seq<Option<IntVec2>>)
    reads lotuses, lotuses.lotuses
    requires 0 <= number < GameStageCount
  {
    lotuses.Valid() && lotuses.count == RandomLotusCount(number) &&
    LotusesLaid(lotuses.Contents(), number, seed1, f, sizes, placed) &&
    ApartInGrid(StageGridSize(number), placed, Widths(f, sizes))
  }

  /// The characters of stage `number` as `Setup` starts them around `target`, drawing
  /// from `seed2` on and leaving the generator at `seedEnd`, when they were `before`:
  /// the start distance is the next draw and `ring` the start positions at that
  /// distance around `target`, which `positions` shuffles with the next
  /// `CharaCountMax` draws; `BattleCharaCount(number)` characters race, ready to aim
  /// at the `lotusCount` lotuses, the player first, each set up at its position.
  ghost predicate CharasBuilt(number: int, charas: CharaCollection, f: LevelFloats, target: Vec2, lotusCount: int,
                              seed2: Seed, seedEnd: Seed, before: seq<CharaState>,
                              ring: seq<Vec2>, positions: seq<Vec2>)
    reads charas, charas.types, charas.charas, charas.brains
    requires 0 <= number < GameStageCount && |before| == CharaCountMax
  {
    charas.Ready(lotusCount) && charas.count == BattleCharaCount(number) &&
    f.baseRange(number).0 <= f.baseRange(number).1 &&
    var (len, seed3) := MinMaxDraw(seed2, f.baseRange(number).0, f.baseRange(number).1);
    ring == f.ring(target, number, len) &&
    |ring| == CharaCountMax && (positions, seedEnd) == Shuffle(ring, 0, CharaCountMax, seed3) &&
    seedEnd == Steps(seed2, 1 + CharaCountMax) &&
    |positions| == CharaCountMax && multiset(positions) == multiset(ring) &&
    forall i :: 0 <= i < charas.count ==>
      charas.States()[i] == CharaRules.Setup(before[i], positions[i], ParamOf(i, f.cpuStrength(number)).strength) &&
      charas.brains[i].param == ParamOf(i, f.cpuStrength(number)) && charas.types[i] == ParamOf(i, f.cpuStrength(number)).kind
  }

  /// What `Setup` leaves in `stage` for stage `number`, drawing from `seed0` on and
  /// leaving the generator at `seedEnd`, when its characters started as `before`:
  /// the stage is ready to run on the stage's field; the grid shuffle takes
  /// `gridDraws`, one less than its cells; then the lotuses are laid as
  /// `LotusesBuilt` says and the characters started around the first lotus as
  /// `CharasBuilt` says.
  ghost predicate Built(number: int, stage: Stage, f: LevelFloats, seed0: Seed, seedEnd: Seed,
                        before: seq<CharaState>, gridDraws: nat, sizes: seq<int>,
                        placed: seq<Option<IntVec2>>, ring: seq<Vec2>, positions: seq<Vec2>)
    reads stage, stage.charas, stage.charas.types, stage.charas.charas, stage.charas.brains
    reads stage.lotuses, stage.lotuses.lotuses, stage.turnResult
    requires 0 <= number < GameStageCount && |before| == CharaCountMax
  {
    stage.Ready() && stage.field == f.field(number, StageGridSize(number)) &&
    gridDraws == StageGridSize(number).x * StageGridSize(number).y - 1 &&
    var seed1 := Steps(seed0, gridDraws);
    LotusesBuilt(number, stage.lotuses, f, seed1, sizes, placed) &&
    CharasBuilt(number, stage.charas, f, stage.lotuses.Contents()[0].pos, stage.lotuses.count,
                Steps(seed1, RandomLotusCount(number)), seedEnd, before, ring, positions)
  }

  /// Everything `Setup` does after resetting the stage: the field set, the lotuses
  /// laid and the characters started.
  method Fill(number: int, stage: Stage, rng: Random, f: LevelFloats, ghost before: seq<CharaState>)
    returns (ghost gridDraws: nat, ghost sizes: seq<int>, ghost placed: seq<Option<IntVec2>>,
             ghost ring: seq<Vec2>, ghost positions: seq<Vec2>)
    requires 0 <= number < GameStageCount && FloatsOk(f) && stage.Valid() && stage.charas.count == 0
    requires stage.charas.States() == before && forall i :: 0 <= i < CharaCountMax ==> before[i].targetLotusNo == 0
    modifies stage`field, stage.charas, stage.charas.types, stage.charas.charas, stage.charas.brains
    modifies stage.lotuses, stage.lotuses.lotuses, rng
    ensures Built(number, stage, f, old(rng.State()), rng.State(), before, gridDraws, sizes, placed, ring, positions)
  {
    gridDraws, sizes, placed := FillLotuses(number, stage, rng, f);
    var target := stage.lotuses.lotuses[0].pos;
    StageApart(stage);
    ring, positions := StartCharas(number, stage.charas, target, stage.lotuses.count, rng, f, before);
  }

  /// The first half of `Fill`: the field of stage `number` set and its lotuses laid.
  method FillLotuses(number: int, stage: Stage, rng: Random, f: LevelFloats)
    returns (ghost gridDraws: nat, ghost sizes: seq<int>, ghost placed: seq<Option<IntVec2>>)
    requires 0 <= number < GameStageCount && FloatsOk(f) && stage.Valid()
    modifies stage`field, stage.lotuses, stage.lotuses.lotuses, rng
    ensures stage.Valid() && stage.charas.count == old(stage.charas.count) && stage.charas.States() == old(stage.charas.States())
    ensures stage.field == f.field(number, StageGridSize(number))
    ensures gridDraws == StageGridSize(number).x * StageGridSize(number).y - 1
    ensures LotusesBuilt(number, stage.lotuses, f, Steps(old(rng.State()), gridDraws), sizes, placed)
    ensures 0 < stage.lotuses.count
    ensures rng.State() == Steps(Steps(old(rng.State()), gridDraws), RandomLotusCount(number))
  {
    stage.field := f.field(number, StageGridSize(number));
    gridDraws, sizes, placed := LayLotuses(number, stage.lotuses, rng, f);
    RandomLotusCountMeaning(number, number);
  }

  /// No character or brain of a stage is its stage, its lotuses or its turn result:
  /// what `StartCharas` changes leaves the rest of the stage alone.
  lemma StageApart(stage: Stage)
    ensures var cs: seq<object> := stage.charas.charas; var bs: seq<object> := stage.charas.brains;
      stage !in cs && stage.lotuses !in cs && stage.lotuses.lotuses !in cs &&
      stage.turnResult !in cs && stage.turnResult.charas !in cs &&
      stage !in bs && stage.lotuses !in bs && stage.lotuses.lotuses !in bs &&
      stage.turnResult !in bs && stage.turnResult.charas !in bs
  {
  }

  /// A random generator is none of the characters or brains of a collection.
  lemma RandomApart(charas: CharaCollection, rng: Random)
    ensures var cs: seq<object> := charas.charas; var bs: seq<object> := charas.brains;
      rng !in cs && rng !in bs
  {
  }

  /// `LevelDesigner::Setup`: stage `number` built on `stage` with draws of `rng`, as
  /// `Built` says, from characters that are all reset.
  method Setup(number: int, stage: Stage, rng: Random, f: LevelFloats)
    returns (ghost seed0: Seed, ghost reset: seq<CharaState>, ghost gridDraws: nat, ghost sizes: seq<int>,
             ghost placed: seq<Option<IntVec2>>, ghost ring: seq<Vec2>, ghost positions: seq<Vec2>)
    requires 0 <= number < GameStageCount && FloatsOk(f) && stage.Valid()
    modifies stage, stage.charas, stage.charas.types, stage.charas.charas, stage.charas.brains
    modifies stage.lotuses, stage.lotuses.lotuses, stage.turnResult, stage.turnResult.charas, rng
    ensures seed0 == old(rng.State()) && reset == ResetAll(old(stage.charas.States()))
    ensures Built(number, stage, f, seed0, rng.State(), reset, gridDraws, sizes, placed, ring, positions)
  {
    ghost var states0 := stage.charas.States();
    seed0 := rng.State();
    RandomApart(stage.charas, rng);
    stage.Reset();
    assert rng.State() == seed0;
    reset := stage.charas.States();
    assert reset == ResetAll(states0);
    gridDraws, sizes, placed, ring, positions := Fill(number, stage, rng, f, reset);
  }
}
