/// The deterministic xorshift generator (HPCRandom.cpp) and the pair of generators
/// a game owns (HPCRandomSet.cpp, HPCRandomSeed.cpp). `uint` is 32 bits wide, so the
/// seeds are `bv32`; `int` results are 31-bit values after the `0x7FFFFFFF` mask.
module Randoms {
  /// The two seed words of one generator.
  datatype Seed = Seed(x: bv32, y: bv32)

  /// One `randCoreU32` step: the old Y word moves into X and the new Y word is the
  /// xorshift of both.
  function Step(s: Seed): (r: Seed)
    ensures r.x == s.y
  {
    var t := s.x ^ (s.x << 11);
    Seed(s.y, (s.y ^ (s.y >> 19)) ^ (t ^ (t >> 8)))
  }

  /// The state after `k` draws.
  function Steps(s: Seed, k: nat): Seed
    decreases k
  {
    if k == 0 then s else Step(Steps(s, k - 1))
  }

  /// Three steps, written out.
  lemma StepsThree(s: Seed)
    ensures Steps(s, 3) == Step(Step(Step(s)))
  {
    assert Steps(s, 1) == Step(s);
  }

  /// `j` steps after `m` steps are `m + j` steps.
  lemma {:induction false} StepsAdd(s: Seed, m: nat, j: nat)
    ensures Steps(Steps(s, m), j) == Steps(s, m + j)
    decreases j
  {
    if j > 0 {
      StepsAdd(s, m, j - 1);
    }
  }

  /// `randTerm` on the word just drawn: the low 31 bits modulo the term.
  function Term(u: bv32, n: int): (r: int)
    requires 0 < n
    ensures 0 <= r < n
  {
    ((u & 0x7FFF_FFFF) as int) % n
  }

  /// Pure counterparts of the three public draws: the value and the next state.
  function TermDraw(s: Seed, n: int): (r: (int, Seed))
    requires 0 < n
    ensures 0 <= r.0 < n && r.1 == Step(s)
  {
    (Term(Step(s).y, n), Step(s))
  }

  function MinTermDraw(s: Seed, lo: int, t: int): (r: (int, Seed))
    requires lo <= t - 1
    ensures lo <= r.0 < t && r.1 == Step(s)
  {
    var (v, s') := TermDraw(s, t - lo);
    (lo + v, s')
  }

  function MinMaxDraw(s: Seed, lo: int, hi: int): (r: (int, Seed))
    requires lo <= hi
    ensures lo <= r.0 <= hi && r.1 == Step(s)
  {
    var (v, s') := TermDraw(s, 1 + hi - lo);
    (lo + v, s')
  }

  /// `Random`: one generator whose two seed words every draw advances once.
  class Random {
    var seedX: bv32
    var seedY: bv32

    ghost function State(): Seed
      reads this
    {
      Seed(seedX, seedY)
    }

    constructor (x: bv32, y: bv32)
      ensures State() == Seed(x, y)
    {
      seedX := x;
      seedY := y;
    }

    /// `randCoreU32`: advance the state once and return the new Y word.
    method RandCoreU32() returns (u: bv32)
      modifies this
      ensures State() == Step(old(State()))
      ensures u == seedY
    {
      var next := Step(Seed(seedX, seedY));
      seedX, seedY := next.x, next.y;
      u := seedY;
    }

    /// `randTerm`: a value in `[0, n)`. The source only asserts `n >= 0`; `n == 0`
    /// would divide by zero, so the model asks for `n > 0`.
    method RandTerm(n: int) returns (r: int)
      requires 0 < n
      modifies this
      ensures (r, State()) == TermDraw(old(State()), n)
      ensures 0 <= r < n
    {
      var u := RandCoreU32();
      r := ((u & 0x7FFF_FFFF) as int) % n;
    }

    /// `randMinTerm`: a value in `[lo, t)`.
    method RandMinTerm(lo: int, t: int) returns (r: int)
      requires lo <= t - 1
      modifies this
      ensures (r, State()) == MinTermDraw(old(State()), lo, t)
      ensures lo <= r < t
    {
      var v := RandTerm(t - lo);
      r := lo + v;
    }

    /// `randMinMax`: a value in `[lo, hi]`.
    method RandMinMax(lo: int, hi: int) returns (r: int)
      requires lo <= hi
      modifies this
      ensures (r, State()) == MinMaxDraw(old(State()), lo, hi)
      ensures lo <= r <= hi
    {
      var v := RandTerm(1 + hi - lo);
      r := lo + v;
    }
  }

  /// `RandomSeed`: four seed words, and their default values.
  datatype RandomSeed = RandomSeed(x: bv32, y: bv32, z: bv32, w: bv32)

  const DefaultSeed := RandomSeed(2942096179, 2745714780, 3684690907, 3549078838)

  /// `RandomSet`: the generator used by the system (level generation) and the one
  /// used in play, seeded from disjoint halves of a `RandomSeed`.
  class RandomSet {
    const system: Random
    const game: Random

    /// `system()` and `game()` hand out two different objects, so a draw on one
    /// never moves the other.
    ghost predicate Wired() {
      system != game
    }

    constructor (seed: RandomSeed)
      ensures Wired() && fresh(system) && fresh(game)
      ensures system.State() == Seed(seed.x, seed.y)
      ensures game.State() == Seed(seed.z, seed.w)
    {
      system := new Random(seed.x, seed.y);
      game := new Random(seed.z, seed.w);
    }
  }
}
