/// The pairwise collision bookkeeping of `CharaCollection::procCheckColl`
/// (HPCCharaCollection.cpp): which pairs collide, in what order their responses are
/// collected into each character's `CalcVelSet`, and what a character does with the
/// collected set. Pure functions over the characters' states at the start of the
/// check, which the check does not change until every pair has been visited.
module Collisions {
  import opened Params
  import opened Geometry
  import opened CharaRules

  /// `CalcVelSet`: the velocities collected for one character and the sum of its
  /// separation offsets; `count` is the length of `vels`.
  datatype VelSet = VelSet(vels: seq<Vec2>, ofs: Vec2)

  const EmptyVelSet := VelSet([], Zero)

  /// `CalcVelSet::addVel`. The source asserts there is room for one more velocity;
  /// `FullSetBound` shows a whole check never needs more than `n - 1` entries, and
  /// `CharaCollection.CollectPair` asserts the room before each call.
  function AddVel(v: VelSet, vel: Vec2, ofs: Vec2): (r: VelSet)
    ensures |r.vels| == |v.vels| + 1
    ensures r.vels[..|v.vels|] == v.vels && r.vels[|v.vels|] == vel && r.ofs == Add(v.ofs, ofs)
  {
    VelSet(v.vels + [vel], Add(v.ofs, ofs))
  }

  function Region(c: CharaState, k: Kinematics): Circle {
    Circle(c.pos, k.charaRadius)
  }

  /// Characters `a` and `b` (`a < b`) are both in the race and their regions overlap.
  predicate Collides(s: seq<CharaState>, a: int, b: int, k: Kinematics)
    requires 0 <= a < |s| && 0 <= b < |s|
  {
    !IsGoal(s[a]) && !IsGoal(s[b]) && k.isHit(Region(s[a], k), Region(s[b], k))
  }

  /// The response of one colliding pair: new velocity of `a`, new velocity of `b`,
  /// and the separation offset pushed onto `b` (its negation goes to `a`).
  function Response(s: seq<CharaState>, a: int, b: int, k: Kinematics): (Vec2, Vec2, Vec2)
    requires 0 <= a < |s| && 0 <= b < |s|
  {
    k.collide(Region(s[a], k), s[a].vel, Region(s[b], k), s[b].vel)
  }

  /// What character `i` collects as the second member of the pairs `(p, i)` with
  /// `p < P`, in increasing `p`.
  function AsSecond(s: seq<CharaState>, i: int, P: int, k: Kinematics): (r: VelSet)
    requires 0 <= i < |s| && 0 <= P <= i
    ensures |r.vels| <= P
    ensures IsGoal(s[i]) ==> r == EmptyVelSet
    decreases P
  {
    if P == 0 then EmptyVelSet
    else
      var v := AsSecond(s, i, P - 1, k);
      if Collides(s, P - 1, i, k) then
        var resp := Response(s, P - 1, i, k);
        AddVel(v, resp.1, resp.2)
      else v
  }

  /// What character `i` collects, on top of `base`, as the first member of the pairs
  /// `(i, q)` with `i < q < Q`, in increasing `q`.
  function AsFirst(s: seq<CharaState>, i: int, base: VelSet, Q: int, k: Kinematics): (r: VelSet)
    requires 0 <= i < |s| && i + 1 <= Q <= |s|
    ensures |r.vels| <= |base.vels| + (Q - i - 1)
    ensures IsGoal(s[i]) ==> r == base
    decreases Q
  {
    if Q == i + 1 then base
    else
      var v := AsFirst(s, i, base, Q - 1, k);
      if Collides(s, i, Q - 1, k) then
        var resp := Response(s, i, Q - 1, k);
        AddVel(v, resp.0, Neg(resp.2))
      else v
  }

  /// The set of character `i` once the nested loop has visited every pair `(p, q)`
  /// that comes before `(a, b)` in loop order (`p < a`, or `p == a` and `q < b`).
  function Collected(s: seq<CharaState>, n: int, i: int, a: int, b: int, k: Kinematics): (r: VelSet)
    requires 0 <= i < n <= |s| && 0 <= a <= n && a < b <= n + 1
    ensures |r.vels| <= n - 1
  {
    var P := if i <= a then i else if i < b then a + 1 else a;
    var Q := if i < a then n else if i == a then (if b <= n then b else n) else i + 1;
    AsFirst(s, i, AsSecond(s, i, P, k), Q, k)
  }

  /// The set of character `i` after the whole check of `n` characters.
  function FullSet(s: seq<CharaState>, n: int, i: int, k: Kinematics): (r: VelSet)
    requires 0 <= i < n <= |s|
    ensures r == Collected(s, n, i, n, n + 1, k)
  {
    AsFirst(s, i, AsSecond(s, i, i, k), n, k)
  }

  /// Every character collects at most one entry per other character, so the sets
  /// never exceed `n - 1 < CharaCountMax` entries and `addVel`'s room check holds.
  lemma {:induction false} FullSetBound(s: seq<CharaState>, n: int, i: int, k: Kinematics)
    requires 0 <= i < n <= |s| && n <= CharaCountMax
    ensures |FullSet(s, n, i, k).vels| <= n - 1 < CharaCountMax
  {
  }

  /// A character that collides with nobody collects nothing, and a character
  /// collects one entry for each character it collides with.
  lemma {:induction false} FullSetCountsPartners(s: seq<CharaState>, n: int, i: int, k: Kinematics)
    requires 0 <= i < n <= |s|
    ensures |FullSet(s, n, i, k).vels| ==
      SecondCount(s, i, i, k) + FirstCount(s, i, n, k)
  {
    SecondCountIs(s, i, i, k);
    FirstCountIs(s, i, AsSecond(s, i, i, k), n, k);
  }

  /// The number of `p < P` that collide with `i`.
  function SecondCount(s: seq<CharaState>, i: int, P: int, k: Kinematics): nat
    requires 0 <= i < |s| && 0 <= P <= i
    decreases P
  {
    if P == 0 then 0 else SecondCount(s, i, P - 1, k) + (if Collides(s, P - 1, i, k) then 1 else 0)
  }

  /// The number of `q` with `i < q < Q` that collide with `i`.
  function FirstCount(s: seq<CharaState>, i: int, Q: int, k: Kinematics): nat
    requires 0 <= i < |s| && i + 1 <= Q <= |s|
    decreases Q
  {
    if Q == i + 1 then 0 else FirstCount(s, i, Q - 1, k) + (if Collides(s, i, Q - 1, k) then 1 else 0)
  }

  lemma {:induction false} SecondCountIs(s: seq<CharaState>, i: int, P: int, k: Kinematics)
    requires 0 <= i < |s| && 0 <= P <= i
    ensures |AsSecond(s, i, P, k).vels| == SecondCount(s, i, P, k)
    decreases P
  {
    if P > 0 {
      SecondCountIs(s, i, P - 1, k);
    }
  }

  lemma {:induction false} FirstCountIs(s: seq<CharaState>, i: int, base: VelSet, Q: int, k: Kinematics)
    requires 0 <= i < |s| && i + 1 <= Q <= |s|
    ensures |AsFirst(s, i, base, Q, k).vels| == |base.vels| + FirstCount(s, i, Q, k)
    decreases Q
  {
    if Q > i + 1 {
      FirstCountIs(s, i, base, Q - 1, k);
    }
  }

  /// The second loop of the check for one character: with at least one entry it takes
  /// the mean velocity and is moved by the summed offset; with none it is untouched.
  function Absorb(c: CharaState, v: VelSet, k: Kinematics): (r: CharaState)
    ensures |v.vels| == 0 ==> r == c
    ensures |v.vels| != 0 ==> r == c.(vel := k.meanVel(v.vels), pos := Add(c.pos, v.ofs))
  {
    if |v.vels| == 0 then c else Separate(c.(vel := k.meanVel(v.vels)), v.ofs)
  }

  /// What one character does with its collected set: `Absorb`, then, like every
  /// character in the race, it is put back inside the field.
  function AfterCollisions(c: CharaState, v: VelSet, k: Kinematics, f: Field): (r: CharaState)
    ensures Valid(c) ==> Valid(r)
    ensures |v.vels| == 0 ==> r == CorrectInside(c, k, f)
  {
    CorrectInside(Absorb(c, v, k), k, f)
  }

  /// Before the nested loop nothing has been collected.
  lemma CollectedStart(s: seq<CharaState>, n: int, i: int, k: Kinematics)
    requires 0 <= i < n <= |s|
    ensures Collected(s, n, i, 0, 1, k) == EmptyVelSet
  {
  }

  /// One visit of the inner loop: the pair `(a, b)` adds one entry to the set of each
  /// of its members when they collide, and nothing to anybody otherwise.
  lemma CollectedStep(s: seq<CharaState>, n: int, i: int, a: int, b: int, k: Kinematics)
    requires 0 <= i < n <= |s| && 0 <= a < b < n
    ensures var v := Collected(s, n, i, a, b, k);
      var resp := Response(s, a, b, k);
      Collected(s, n, i, a, b + 1, k) ==
        if Collides(s, a, b, k) && i == a then AddVel(v, resp.0, Neg(resp.2))
        else if Collides(s, a, b, k) && i == b then AddVel(v, resp.1, resp.2)
        else v
  {
    if i == b {
      assert AsFirst(s, i, AsSecond(s, i, a + 1, k), i + 1, k) == AsSecond(s, i, a + 1, k);
      assert AsFirst(s, i, AsSecond(s, i, a, k), i + 1, k) == AsSecond(s, i, a, k);
    }
  }

  /// The end of the inner loop for `a` is the start of the inner loop for `a + 1`.
  lemma CollectedNext(s: seq<CharaState>, n: int, i: int, a: int, k: Kinematics)
    requires 0 <= i < n <= |s| && 0 <= a < n
    ensures Collected(s, n, i, a, n, k) == Collected(s, n, i, a + 1, a + 2, k)
  {
  }

  /// A goal character `a` takes part in no pair, so skipping its inner loop collects
  /// what running it would.
  lemma CollectedSkip(s: seq<CharaState>, n: int, i: int, a: int, k: Kinematics)
    requires 0 <= i < n <= |s| && 0 <= a < n && IsGoal(s[a])
    ensures Collected(s, n, i, a, a + 1, k) == Collected(s, n, i, a + 1, a + 2, k)
  {
    if i == a + 1 {
      assert AsSecond(s, i, a + 1, k) == AsSecond(s, i, a, k);
    }
  }
}
