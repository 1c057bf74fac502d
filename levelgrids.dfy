/// `LevelGrid` (HPCLevelGrid.cpp): the grid of cells on which a stage's lotuses and
/// start are placed. Cells are numbered row by row from the bottom left; a shuffled
/// order of the cell numbers decides which free place is taken next.
module LevelGrids {
  import opened IntVectors
  import opened Randoms
  import opened Wrappers
  import opened Swaps

  /// `CellSizeMax`: the largest width and height of a grid.
  const CellSizeMax := 26
  const CellCountMax := CellSizeMax * CellSizeMax

  /// `Cell`: its number, its position and whether it is occupied.
  datatype Cell = Cell(index: int, pos: IntVec2, isOccupied: bool)

  /// `axisToIndex` for a grid `width` cells wide.
  function AxisToIndex(width: int, x: int, y: int): int {
    width * y + x
  }

  /// `indexToAxis` for a grid `width` cells wide, with the truncating `%` and `/` of C++.
  function IndexToAxis(width: int, index: int): IntVec2
    requires width != 0
  {
    IntVec2(index - width * TruncDiv(index, width), TruncDiv(index, width))
  }

  predicate InGrid(size: IntVec2, p: IntVec2) {
    0 <= p.x < size.x && 0 <= p.y < size.y
  }

  /// `p` lies in the `w` by `h` rectangle whose bottom left cell is `corner`.
  predicate InRect(p: IntVec2, corner: IntVec2, w: int, h: int) {
    corner.x <= p.x < corner.x + w && corner.y <= p.y < corner.y + h
  }

  /// `p` lies within `margin` cells of an edge of the grid.
  predicate InMargin(size: IntVec2, margin: int, p: IntVec2) {
    !(margin <= p.x < size.x - margin && margin <= p.y < size.y - margin)
  }

  /// Multiplying by a positive `w` keeps the sign, and a nonzero factor gives at
  /// least `w` in magnitude.
  lemma MulBounds(w: int, d: int)
    requires 0 < w
    ensures d >= 1 ==> w * d >= w
    ensures d <= -1 ==> w * d <= -w
    ensures d == 0 ==> w * d == 0
  {
    if d >= 1 {
      MulAtLeast(w, d);
    } else if d <= -1 {
      MulAtLeast(w, -d);
      assert w * d == -(w * -d);
    }
  }

  /// Quotient and remainder are the only ones with `0 <= r < w`.
  lemma {:induction false} DivModUnique(i: int, w: int, q: int, r: int)
    requires 0 < w && i == w * q + r && 0 <= r < w
    ensures i / w == q && i % w == r
  {
    var q', r' := i / w, i % w;
    assert w * (q - q') == r' - r by {
      assert w * (q - q') == w * q - w * q';
    }
    MulBounds(w, q - q');
  }

  /// Every position of the grid has a number below `width * height`, and that number
  /// leads back to the position.
  lemma {:induction false} AxisToIndexRoundTrip(size: IntVec2, p: IntVec2)
    requires InGrid(size, p)
    ensures 0 <= AxisToIndex(size.x, p.x, p.y) < size.x * size.y
    ensures IndexToAxis(size.x, AxisToIndex(size.x, p.x, p.y)) == p
  {
    var w := size.x;
    var i := w * p.y + p.x;
    MulBounds(w, p.y);
    MulBounds(w, size.y - p.y);
    assert w * size.y - w * p.y == w * (size.y - p.y);
    DivModUnique(i, w, p.y, p.x);
    assert TruncDiv(i, w) == p.y;
  }

  /// Every number below `width * height` is the number of a position of the grid.
  lemma {:induction false} IndexToAxisRoundTrip(size: IntVec2, i: int)
    requires 0 < size.x && 0 <= i < size.x * size.y
    ensures InGrid(size, IndexToAxis(size.x, i))
    ensures AxisToIndex(size.x, IndexToAxis(size.x, i).x, IndexToAxis(size.x, i).y) == i
  {
    var w := size.x;
    var q := i / w;
    var r := i % w;
    assert i == w * q + r && 0 <= r < w;
    assert TruncDiv(i, w) == q;
    assert IndexToAxis(w, i) == IntVec2(r, q);
    MulBounds(w, q);
    MulBounds(w, size.y - q);
    assert w * size.y - w * q == w * (size.y - q);
  }

  /// A grid is at least one cell and at most `CellCountMax` cells large.
  lemma SurfaceBounds(size: IntVec2)
    requires 1 <= size.x <= CellSizeMax && 1 <= size.y <= CellSizeMax
    ensures 1 <= size.x * size.y <= CellCountMax
  {
    assert size.x * size.y <= CellSizeMax * size.y;
    assert CellSizeMax * size.y <= CellSizeMax * CellSizeMax;
  }

  /// The numbers `0 .. n-1` in order.
  function Numbers(n: nat): (r: seq<int>)
    ensures |r| == n && forall i :: 0 <= i < n ==> r[i] == i
  {
    seq(n, i => i)
  }

  /// A rearrangement of `0 .. n-1` holds only numbers below `n`.
  lemma PermutedNumbers(s: seq<int>, n: nat)
    requires multiset(s) == multiset(Numbers(n))
    ensures forall p :: 0 <= p < |s| ==> 0 <= s[p] < n
  {
    forall p | 0 <= p < |s|
      ensures 0 <= s[p] < n
    {
      assert s[p] in multiset(Numbers(n));
    }
  }

  /// The swaps of `ShuffleArray` from position `index` on while `index < upto`: the
  /// entry at `index` changes place with the entry at a position drawn from
  /// `index .. |s|-1`. Gives the shuffled sequence and the random state after the draws.
  function Shuffle<T>(s: seq<T>, index: nat, upto: int, seed: Seed): (seq<T>, Seed)
    requires upto <= |s|
    decreases upto - index
  {
    if index >= upto then (s, seed)
    else
      var (j, next) := MinTermDraw(seed, index, |s|);
      Shuffle(Swap(s, index, j), index + 1, upto, next)
  }

  /// Shuffling rearranges the entries and nothing else.
  lemma {:induction false} ShufflePermutes<T>(s: seq<T>, index: nat, upto: int, seed: Seed)
    requires upto <= |s|
    ensures |Shuffle(s, index, upto, seed).0| == |s|
    ensures multiset(Shuffle(s, index, upto, seed).0) == multiset(s)
    decreases upto - index
  {
    if index < upto {
      var (j, next) := MinTermDraw(seed, index, |s|);
      SwapPermutes(s, index, j);
      ShufflePermutes(Swap(s, index, j), index + 1, upto, next);
    }
  }

  /// Shuffling takes one draw per swap.
  lemma {:induction false} ShuffleDraws<T>(s: seq<T>, index: nat, upto: int, seed: Seed)
    requires upto <= |s|
    ensures Shuffle(s, index, upto, seed).1 == Steps(seed, if index < upto then upto - index else 0)
    decreases upto - index
  {
    if index < upto {
      var (j, next) := MinTermDraw(seed, index, |s|);
      ShuffleDraws(Swap(s, index, j), index + 1, upto, next);
      StepsAdd(seed, 1, upto - index - 1);
    }
  }

  /// `ShuffleArray`: the first `count` entries of `a` shuffled as `Shuffle` says, with
  /// `count - 1` draws; the rest of `a` is left alone.
  method ShuffleArray<T>(a: array<T>, count: int, rng: Random)
    requires 0 <= count <= a.Length
    modifies a, rng
    ensures (a[..count], rng.State()) == Shuffle(old(a[..count]), 0, count - 1, old(rng.State()))
    ensures a[count..] == old(a[count..])
  {
    var index := 0;
    while index < count - 1
      invariant 0 <= index && (0 < count ==> index <= count - 1)
      invariant Shuffle(a[..count], index, count - 1, rng.State()) ==
                Shuffle(old(a[..count]), 0, count - 1, old(rng.State()))
      invariant a[count..] == old(a[count..])
    {
      ghost var before := a[..count];
      var randIndex := rng.RandMinTerm(index, count);
      a[index], a[randIndex] := a[randIndex], a[index];
      assert a[..count] == Swap(before, index, randIndex);
      index := index + 1;
    }
  }

  class LevelGrid {
    const size: IntVec2
    const surface: int
    const rng: Random
    const cells: array<Cell>
    /// `mRandArray`, as the numbers of the cells it points to.
    const randArray: array<int>

    /// Every cell in use carries its own number and the position that number gives,
    /// and the random order lists the number of every cell in use once.
    ghost predicate Valid()
      reads this, cells, randArray
    {
      1 <= size.x <= CellSizeMax && 1 <= size.y <= CellSizeMax &&
      surface == size.x * size.y && surface <= CellCountMax &&
      cells.Length == CellCountMax && randArray.Length == CellCountMax &&
      (forall i :: 0 <= i < surface ==> cells[i].index == i && cells[i].pos == IndexToAxis(size.x, i)) &&
      (forall p :: 0 <= p < surface ==> 0 <= randArray[p] < surface) &&
      multiset(randArray[..surface]) == multiset(Numbers(surface))
    }

    /// The positions of the occupied cells in use.
    ghost function Occupied(): set<IntVec2>
      reads this, cells, randArray
      requires Valid()
    {
      set i | 0 <= i < surface && cells[i].isOccupied :: cells[i].pos
    }

    /// A position of the grid that is not occupied.
    ghost predicate Free(p: IntVec2)
      reads this, cells, randArray
      requires Valid()
    {
      InGrid(size, p) && p !in Occupied()
    }

    /// Every position of the `w` by `h` rectangle at `corner` is free.
    ghost predicate RectFree(corner: IntVec2, w: int, h: int)
      reads this, cells, randArray
      requires Valid()
    {
      forall q :: InRect(q, corner, w, h) ==> Free(q)
    }

    /// What `findAvailableRandCell` accepts: a free cell at the bottom left of a free
    /// `w` by `h` rectangle.
    ghost predicate Fits(c: int, w: int, h: int)
      reads this, cells, randArray
      requires Valid() && 0 <= c < surface
    {
      !cells[c].isOccupied && RectFree(cells[c].pos, w, h)
    }

    /// The cell at place `at` of the random order is the first there that fits.
    ghost predicate FirstFit(at: int, w: int, h: int)
      reads this, cells, randArray
      requires Valid()
    {
      0 <= at < surface && Fits(randArray[at], w, h) &&
      forall p :: 0 <= p < at ==> !Fits(randArray[p], w, h)
    }

    /// The cell numbered by a position of the grid sits at that position, and the
    /// position is occupied exactly when that cell is.
    lemma CellOf(p: IntVec2)
      requires Valid() && InGrid(size, p)
      ensures 0 <= AxisToIndex(size.x, p.x, p.y) < surface
      ensures cells[AxisToIndex(size.x, p.x, p.y)].pos == p
      ensures p in Occupied() <==> cells[AxisToIndex(size.x, p.x, p.y)].isOccupied
    {
      AxisToIndexRoundTrip(size, p);
      if p in Occupied() {
        var i :| 0 <= i < surface && cells[i].isOccupied && cells[i].pos == p;
        IndexToAxisRoundTrip(size, i);
      }
    }

    lemma NoneOccupied()
      requires Valid() && forall i :: 0 <= i < surface ==> !cells[i].isOccupied
      ensures Occupied() == {}
    {
    }

    /// The constructor: every cell in use numbered and placed, the random order
    /// shuffled with `surface - 1` draws of `rng`, and exactly the cells within
    /// `margin` of an edge occupied.
    constructor (size: IntVec2, margin: int, rng: Random)
      requires 1 <= size.x <= CellSizeMax && 1 <= size.y <= CellSizeMax
      modifies rng
      ensures Valid() && this.size == size && this.rng == rng && fresh(cells) && fresh(randArray)
      ensures (randArray[..surface], rng.State()) ==
              Shuffle(Numbers(surface), 0, surface - 1, old(rng.State()))
      ensures forall q :: q in Occupied() <==> InGrid(size, q) && InMargin(size, margin, q)
    {
      this.size := size;
      SurfaceBounds(size);
      surface := size.x * size.y;
      this.rng := rng;
      var c, order := NewCells(size);
      cells, randArray := c, order;
      new;
      ShuffleArray(randArray, surface, rng);
      ShufflePermutes(Numbers(surface), 0, surface - 1, old(rng.State()));
      PermutedNumbers(randArray[..surface], surface);
      NoneOccupied();
      MarkMargin(margin);
    }

    /// The numbering loop of the constructor: every cell in use gets its number and
    /// position, and the random order starts as `0 .. surface-1`.
    static method NewCells(size: IntVec2) returns (cells: array<Cell>, randArray: array<int>)
      requires 1 <= size.x && 0 <= size.x * size.y <= CellCountMax
      ensures fresh(cells) && fresh(randArray)
      ensures cells.Length == CellCountMax && randArray.Length == CellCountMax
      ensures forall i :: 0 <= i < size.x * size.y ==> cells[i] == Cell(i, IndexToAxis(size.x, i), false)
      ensures randArray[..size.x * size.y] == Numbers(size.x * size.y)
    {
      var surface := size.x * size.y;
      cells := new Cell[CellCountMax](_ => Cell(0, Origin, false));
      randArray := new int[CellCountMax](_ => 0);
      var index := 0;
      while index < surface
        invariant 0 <= index <= surface
        invariant forall i :: 0 <= i < index ==> cells[i] == Cell(i, IndexToAxis(size.x, i), false)
        invariant forall i :: 0 <= i < index ==> randArray[i] == i
      {
        cells[index] := Cell(index, IndexToAxis(size.x, index), false);
        randArray[index] := index;
        index := index + 1;
      }
    }

    /// The margin loop of the constructor: on a grid with nothing occupied, occupy
    /// exactly the cells within `margin` of an edge.
    method MarkMargin(margin: int)
      requires Valid() && Occupied() == {}
      modifies cells
      ensures Valid() && forall q :: q in Occupied() <==> InGrid(size, q) && InMargin(size, margin, q)
    {
      var ix := 0;
      while ix < size.x
        invariant 0 <= ix <= size.x && Valid()
        invariant forall q :: q in Occupied() <==> InGrid(size, q) && InMargin(size, margin, q) && q.x < ix
      {
        var iy := 0;
        while iy < size.y
          invariant 0 <= iy <= size.y && Valid()
          invariant forall q :: q in Occupied() <==>
            InGrid(size, q) && InMargin(size, margin, q) && (q.x < ix || (q.x == ix && q.y < iy))
        {
          if !(margin <= ix && ix < size.x - margin && margin <= iy && iy < size.y - margin) {
            SetOccupied(ix, iy);
          }
          iy := iy + 1;
        }
        ix := ix + 1;
      }
    }

    /// Occupies the cell numbered `index`, the assignment `setOccupied` and
    /// `setRandomOccupied` make.
    method Occupy(index: int)
      requires Valid() && 0 <= index < surface
      modifies cells
      ensures Valid() && Occupied() == old(Occupied()) + {cells[index].pos}
      ensures cells[index].pos == old(cells[index].pos)
    {
      ghost var before := cells[..];
      ghost var o := Occupied();
      cells[index] := cells[index].(isOccupied := true);
      forall e | e in Occupied()
        ensures e in o + {cells[index].pos}
      {
        var i :| 0 <= i < surface && cells[i].isOccupied && cells[i].pos == e;
        if i != index {
          assert before[i] == cells[i];
        }
      }
      forall e | e in o
        ensures e in Occupied()
      {
        var i :| 0 <= i < surface && before[i].isOccupied && before[i].pos == e;
        assert cells[i].isOccupied && cells[i].pos == e;
      }
      assert cells[index].pos in Occupied();
    }

    /// `setOccupied(x, y)`: the position, which must lie in the grid, is occupied and
    /// nothing else changes.
    method SetOccupied(x: int, y: int)
      requires Valid() && InGrid(size, IntVec2(x, y))
      modifies cells
      ensures Valid() && Occupied() == old(Occupied()) + {IntVec2(x, y)}
    {
      var index := AxisToIndex(size.x, x, y);
      CellOf(IntVec2(x, y));
      Occupy(index);
    }

    /// `setOccupied(x, y, width, height)`: the rectangle, which must lie in the grid,
    /// is occupied and nothing else changes.
    method SetOccupiedRect(x: int, y: int, w: int, h: int)
      requires Valid() && 0 <= w && 0 <= h
      requires forall q :: InRect(q, IntVec2(x, y), w, h) ==> InGrid(size, q)
      modifies cells
      ensures Valid()
      ensures forall q :: q in Occupied() <==> q in old(Occupied()) || InRect(q, IntVec2(x, y), w, h)
    {
      var ix := x;
      while ix < x + w
        invariant x <= ix <= x + w && Valid()
        invariant forall q :: q in Occupied() <==> q in old(Occupied()) || InRect(q, IntVec2(x, y), ix - x, h)
      {
        var iy := y;
        while iy < y + h
          invariant y <= iy <= y + h && Valid()
          invariant forall q :: q in Occupied() <==>
            q in old(Occupied()) || InRect(q, IntVec2(x, y), ix - x, h) || (q.x == ix && y <= q.y < iy)
        {
          assert InRect(IntVec2(ix, iy), IntVec2(x, y), w, h);
          SetOccupied(ix, iy);
          iy := iy + 1;
        }
        ix := ix + 1;
      }
    }

    /// `isAvailable(x, y)`: the position lies in the grid and is not occupied.
    function IsAvailable(x: int, y: int): (r: bool)
      reads this, cells, randArray
      requires Valid()
      ensures r == Free(IntVec2(x, y))
    {
      if x < 0 || x >= size.x || y < 0 || y >= size.y then false
      else
        CellOf(IntVec2(x, y));
        !cells[AxisToIndex(size.x, x, y)].isOccupied
    }

    /// `isAvailable(x, y, width, height)`: every position of the rectangle, whose
    /// corner must lie in the grid, lies in the grid and is not occupied.
    method IsAvailableRect(x: int, y: int, w: int, h: int) returns (r: bool)
      requires Valid() && InGrid(size, IntVec2(x, y)) && 0 <= w && 0 <= h
      ensures r <==> RectFree(IntVec2(x, y), w, h)
    {
      var ix := x;
      while ix < x + w
        invariant x <= ix <= x + w
        invariant forall q :: InRect(q, IntVec2(x, y), ix - x, h) ==> Free(q)
      {
        var iy := y;
        while iy < y + h
          invariant y <= iy <= y + h
          invariant forall q :: InRect(q, IntVec2(x, y), ix - x, h) ==> Free(q)
          invariant forall q: IntVec2 :: q.x == ix && y <= q.y < iy ==> Free(q)
        {
          if !IsAvailable(ix, iy) {
            assert InRect(IntVec2(ix, iy), IntVec2(x, y), w, h);
            return false;
          }
          iy := iy + 1;
        }
        ix := ix + 1;
      }
      return true;
    }

    /// `findAvailableRandCell(width, height)`: the number of the first cell in the
    /// random order that fits a `w` by `h` rectangle, at place `at`; `None` where the
    /// source reaches its should-not-reach-here assertion.
    method FindAvailableRandCell(w: int, h: int) returns (r: Option<int>, ghost at: int)
      requires Valid() && 0 <= w && 0 <= h
      ensures r.Some? ==> FirstFit(at, w, h) && r.value == randArray[at]
      ensures r.None? <==> forall p :: 0 <= p < surface ==> !Fits(randArray[p], w, h)
    {
      var index := 0;
      while index < surface
        invariant 0 <= index <= surface
        invariant forall p :: 0 <= p < index ==> !Fits(randArray[p], w, h)
      {
        var c := randArray[index];
        if !cells[c].isOccupied {
          IndexToAxisRoundTrip(size, c);
          var pos := cells[c].pos;
          var free := IsAvailableRect(pos.x, pos.y, w, h);
          if free {
            return Some(cells[c].index), index;
          }
        }
        index := index + 1;
      }
      return None, 0;
    }

    /// `setRandomOccupied(width, height)`: the `w` by `h` rectangle at the first fitting
    /// cell of the random order, all free before, becomes occupied and nothing else
    /// changes; the result is its bottom left position. `None`, with nothing changed,
    /// where no cell fits.
    method SetRandomOccupied(w: int, h: int) returns (r: Option<IntVec2>, ghost at: int)
      requires Valid() && 0 <= w && 0 <= h
      modifies cells
      ensures Valid()
      ensures r.None? ==> Occupied() == old(Occupied())
      ensures r.None? ==> forall p :: 0 <= p < surface ==> old(!Fits(randArray[p], w, h))
      ensures r.Some? ==> old(FirstFit(at, w, h)) && r.value == cells[randArray[at]].pos
      ensures r.Some? ==> forall q :: InRect(q, r.value, w, h) ==> InGrid(size, q) && q !in old(Occupied())
      ensures r.Some? ==> forall q :: q in Occupied() <==> q in old(Occupied()) || InRect(q, r.value, w, h)
    {
      var found;
      found, at := FindAvailableRandCell(w, h);
      if found.None? {
        return None, at;
      }
      var pos := cells[found.value].pos;
      SetOccupiedRect(pos.x, pos.y, w, h);
      r := Some(pos);
    }

    /// `setRandomOccupied()`: the first free cell of the random order becomes occupied
    /// and nothing else changes; the result is its position. `None`, with nothing
    /// changed, where every cell is occupied.
    method SetRandomOccupiedCell() returns (r: Option<IntVec2>, ghost at: int)
      requires Valid()
      modifies cells
      ensures Valid()
      ensures r.None? ==> Occupied() == old(Occupied())
      ensures r.None? ==> forall p :: 0 <= p < surface ==> old(!Fits(randArray[p], 1, 1))
      ensures r.Some? ==> old(FirstFit(at, 1, 1)) && r.value == cells[randArray[at]].pos
      ensures r.Some? ==> InGrid(size, r.value) && r.value !in old(Occupied())
      ensures r.Some? ==> Occupied() == old(Occupied()) + {r.value}
    {
      var found;
      found, at := FindAvailableRandCell(1, 1);
      if found.None? {
        return None, at;
      }
      var index := found.value;
      assert InRect(cells[index].pos, cells[index].pos, 1, 1);
      Occupy(index);
      r := Some(cells[index].pos);
    }
  }
}
