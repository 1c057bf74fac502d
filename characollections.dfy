/// `CharaCollection` (HPCCharaCollection.cpp): the fixed array of `CharaCountMax`
/// characters of a stage, of which the first `count` race, with the per-turn passes
/// over them.
module CharaCollections {
  import opened Params
  import opened Geometry
  import opened Actions
  import opened CharaParams
  import opened CharaRules
  import opened Randoms
  import opened Brains
  import opened Charas
  import opened Ranking
  import opened Collisions
  import opened Enemies
  import opened TurnPasses

  class CharaCollection {
    const charas: seq<Chara>
    const types: array<CharaType>
    var count: int
    ghost const brains: seq<Brain>

    /// The fixed shape: `CharaCountMax` distinct characters with distinct brains.
    ghost predicate Wired() {
      |charas| == CharaCountMax && types.Length == CharaCountMax &&
      (forall i, j :: 0 <= i < j < |charas| ==> charas[i] != charas[j] && charas[i].brain != charas[j].brain) &&
      |brains| == CharaCountMax && (forall i :: 0 <= i < CharaCountMax ==> brains[i] == charas[i].brain)
    }

    ghost predicate Valid()
      reads this, types, charas, brains
    {
      Wired() && 0 <= count <= CharaCountMax &&
      (forall i :: 0 <= i < CharaCountMax ==>
        charas[i].Valid() && types[i] == charas[i].brain.param.kind)
    }

    /// Every character's fields as a value.
    ghost function States(): (r: seq<CharaState>)
      reads charas
      requires Wired()
      ensures |r| == CharaCountMax
    {
      seq(CharaCountMax, i requires 0 <= i < CharaCountMax reads charas => charas[i].State())
    }

    /// Every brain's CPU saving counter.
    ghost function Saves(): (r: seq<int>)
      reads brains
      requires Wired()
      ensures |r| == CharaCountMax
    {
      seq(CharaCountMax, i requires 0 <= i < CharaCountMax reads brains => brains[i].cpuSaveAccelTurn)
    }

    /// The default constructor.
    constructor ()
      ensures Valid() && count == 0 && fresh(types) && (forall i :: 0 <= i < CharaCountMax ==> fresh(charas[i]) && fresh(brains[i]))
      ensures forall i :: 0 <= i < CharaCountMax ==> charas[i].State() == Initial && types[i] == NoType
    {
      var cs := NewCharas();
      charas := cs;
      types := new CharaType[CharaCountMax](_ => NoType);
      count := 0;
      brains := [cs[0].brain, cs[1].brain, cs[2].brain, cs[3].brain];
    }

    /// `reset`: every one of the `CharaCountMax` characters reset, every type cleared,
    /// no character in use.
    method Reset()
      requires Valid()
      modifies this, types, charas, brains
      ensures Valid() && count == 0
      ensures forall i :: 0 <= i < CharaCountMax ==>
        charas[i].State() == CharaRules.Reset(old(charas[i].State())) && types[i] == NoType
    {
      var index := 0;
      while index < CharaCountMax
        invariant 0 <= index <= CharaCountMax && Valid()
        invariant forall i :: 0 <= i < index ==>
          charas[i].State() == CharaRules.Reset(old(charas[i].State())) && types[i] == NoType
        invariant forall i :: index <= i < CharaCountMax ==> charas[i].State() == old(charas[i].State())
      {
        ResetAt(index);
        index := index + 1;
      }
      count := 0;
    }

    /// One step of `reset`: the character in slot `index` reset and its type cleared.
    method ResetAt(index: int)
      requires Valid() && 0 <= index < CharaCountMax
      modifies types, charas[index], charas[index].brain
      ensures Valid()
      ensures charas[index].State() == CharaRules.Reset(old(charas[index].State())) && types[index] == NoType
      ensures forall i :: 0 <= i < CharaCountMax && i != index ==>
        charas[i].State() == old(charas[i].State()) && types[i] == old(types[i])
    {
      charas[index].Reset();
      types[index] := NoType;
    }

    /// The characters in use are ready for a turn over `lotusCount` lotuses: each has
    /// a type and targets one of those lotuses.
    ghost predicate Ready(lotusCount: int)
      reads this, types, charas, brains
    {
      Valid() &&
      forall i :: 0 <= i < count ==> types[i] != NoType && States()[i].targetLotusNo < lotusCount
    }

    /// The four passes `Stage::runTurn` makes over the characters: decide, act,
    /// collide, end. The ghost results name the states after deciding, after acting
    /// and after the collision check; the last pass ends in the states `EndPass` gives,
    /// ranked as `RanksOk` says.
    method ProcTurn(rng: Random, k: Kinematics, answer: StageView -> Action,
                    lotuses: seq<Circle>, field: Field)
      returns (ghost decided: Decisions, ghost moved: seq<CharaState>, ghost collided: seq<CharaState>)
      requires Ready(|lotuses|)
      requires forall view :: IsDecided(answer(view))
      modifies charas, brains, rng
      ensures Ready(|lotuses|)
      ensures TurnDone(Decisions(old(States()), old(Saves()), 0), old(rng.State()), types[..], count, lotuses,
                       field, k, answer, decided, moved, collided, States(), Saves(), rng.State())
    {
      decided := DecideTurn(rng, k, answer, lotuses, field);
      moved, collided := ActTurn(k, lotuses, field);
    }

    /// `procDecideAction` with what it leaves behind: every racer has decided, and
    /// nothing but the snapshots and decided actions changed.
    method DecideTurn(rng: Random, k: Kinematics, answer: StageView -> Action,
                      lotuses: seq<Circle>, field: Field)
      returns (ghost decided: Decisions)
      requires Ready(|lotuses|)
      requires forall view :: IsDecided(answer(view))
      modifies charas, brains, rng
      ensures Valid()
      ensures decided == DecidePass(Decisions(old(States()), old(Saves()), 0), types[..], count, count,
                                    lotuses, field, CpuPolicy(old(rng.State()), k), answer)
      ensures rng.State() == Steps(old(rng.State()), decided.draws)
      ensures Saves() == decided.saves && States() == decided.states
      ensures forall i :: 0 <= i < count && !IsGoal(decided.states[i]) ==> IsDecided(decided.states[i].decided)
      ensures forall j :: 0 <= j < CharaCountMax ==>
        decided.states[j] == old(States())[j].(prevPos := decided.states[j].prevPos, decided := decided.states[j].decided)
    {
      ghost var kinds := types[..];
      ghost var cpu := CpuPolicy(rng.State(), k);
      ghost var d0 := Decisions(States(), Saves(), 0);
      ProcDecideAction(rng, k, answer, lotuses, field);
      decided := DecidePass(d0, kinds, count, count, lotuses, field, cpu, answer);
      DecidePassOnlyDecides(d0, kinds, count, lotuses, field, cpu, answer);
      CpuPolicyDecides(old(rng.State()), k);
      forall i | 0 <= i < count && !IsGoal(decided.states[i])
        ensures IsDecided(decided.states[i].decided)
      {
        DecidePassDecides(d0, kinds, count, i, lotuses, field, cpu, answer);
      }
    }

    /// `procExecAction`, `procCheckColl` and `procEnd` in turn, on characters that
    /// have all decided.
    method ActTurn(k: Kinematics, lotuses: seq<Circle>, field: Field)
      returns (ghost moved: seq<CharaState>, ghost collided: seq<CharaState>)
      requires Valid()
      requires forall i :: 0 <= i < count ==> States()[i].targetLotusNo < |lotuses|
      requires forall i :: 0 <= i < count && !IsGoal(States()[i]) ==> IsDecided(States()[i].decided)
      modifies charas
      ensures Valid() && forall i :: 0 <= i < count ==> States()[i].targetLotusNo < |lotuses|
      ensures moved == ExecPass(old(States()), count, k, field)
      ensures collided == CollPass(moved, count, k, field)
      ensures forall i :: 0 <= i < count && !IsGoal(collided[i]) ==> InStage(collided[i], |lotuses|)
      ensures forall i :: 0 <= i < CharaCountMax ==>
        States()[i] == EndPass(collided, count, lotuses, k)[i].(rank := States()[i].rank)
      ensures RanksOk(States()[..count], |lotuses|)
    {
      moved, collided := MoveAndCollide(k, lotuses, field);
      assert forall i :: 0 <= i < count ==> charas[i].State() == collided[i];
      ProcEnd(lotuses, k);
      ghost var r := EndPass(collided, count, lotuses, k);
      forall i | 0 <= i < count
        ensures States()[i].targetLotusNo < |lotuses|
      {
        assert States()[i].targetLotusNo == r[i].targetLotusNo;
      }
    }

    /// The act and collision passes of `ActTurn`: the characters end in the states
    /// `CollPass` gives after `ExecPass`, aiming at the lotuses they aimed at.
    method MoveAndCollide(k: Kinematics, lotuses: seq<Circle>, field: Field)
      returns (ghost moved: seq<CharaState>, ghost collided: seq<CharaState>)
      requires Valid()
      requires forall i :: 0 <= i < count ==> States()[i].targetLotusNo < |lotuses|
      requires forall i :: 0 <= i < count && !IsGoal(States()[i]) ==> IsDecided(States()[i].decided)
      modifies charas
      ensures Valid() && States() == collided
      ensures moved == ExecPass(old(States()), count, k, field)
      ensures collided == CollPass(moved, count, k, field)
      ensures forall i :: 0 <= i < count ==> collided[i].targetLotusNo == old(States())[i].targetLotusNo
      ensures forall i :: 0 <= i < count && !IsGoal(collided[i]) ==> InStage(collided[i], |lotuses|)
    {
      ghost var s0 := States();
      assert forall i :: 0 <= i < CharaCountMax ==> charas[i].State() == s0[i];
      ProcExecAction(k, field);
      moved := States();
      ProcCheckColl(k, field);
      collided := States();
      assert forall i :: 0 <= i < count ==> collided[i].targetLotusNo == s0[i].targetLotusNo;
    }

    /// `procDecideAction`: every character in use that is not goal decides, in index
    /// order, each CPU taking the next three draws of `rng`; this is the pass
    /// `DecidePass` describes, from the states and counters the characters had and
    /// no draws made.
    method ProcDecideAction(rng: Random, k: Kinematics, answer: StageView -> Action,
                            lotuses: seq<Circle>, field: Field)
      requires Valid()
      requires forall i :: 0 <= i < count && !IsGoal(States()[i]) ==>
        types[i] != NoType && 0 <= States()[i].targetLotusNo < |lotuses|
      modifies charas, brains, rng
      ensures Valid()
      ensures var r := DecidePass(Decisions(old(States()), old(Saves()), 0), types[..], count, count,
                                  lotuses, field, CpuPolicy(old(rng.State()), k), answer);
        States() == r.states && Saves() == r.saves && rng.State() == Steps(old(rng.State()), r.draws)
    {
      ghost var d0 := Decisions(States(), Saves(), 0);
      ghost var seed0 := rng.State();
      ghost var kinds := types[..];
      ghost var draws: nat := 0;
      var index := 0;
      while index < count
        invariant 0 <= index <= count && Valid() && kinds == types[..]
        invariant Decisions(States(), Saves(), draws) == DecidePass(d0, kinds, count, index, lotuses, field, CpuPolicy(seed0, k), answer)
        invariant rng.State() == Steps(seed0, draws)
      {
        draws := DecideNext(index, rng, k, answer, lotuses, field, d0, seed0, draws);
        index := index + 1;
      }
    }

    /// One turn of the loop of `procDecideAction`: character `index`, unless it is
    /// goal, takes its snapshot and decides, which is the next step of `DecidePass`.
    method DecideNext(index: int, rng: Random, k: Kinematics, answer: StageView -> Action,
                      lotuses: seq<Circle>, field: Field, ghost d0: Decisions, ghost seed0: Seed, ghost draws: nat)
      returns (ghost draws': nat)
      requires Valid() && 0 <= index < count && Shaped(d0, types[..], count)
      requires forall i :: 0 <= i < count && !IsGoal(d0.states[i]) ==>
        types[i] != NoType && 0 <= d0.states[i].targetLotusNo < |lotuses|
      requires Decisions(States(), Saves(), draws) ==
        DecidePass(d0, types[..], count, index, lotuses, field, CpuPolicy(seed0, k), answer)
      requires rng.State() == Steps(seed0, draws)
      modifies charas, brains, rng
      ensures Valid() && types[..] == old(types[..])
      ensures Decisions(States(), Saves(), draws') ==
        DecidePass(d0, types[..], count, index + 1, lotuses, field, CpuPolicy(seed0, k), answer)
      ensures rng.State() == Steps(seed0, draws')
    {
      ghost var kinds := types[..];
      ghost var cpu := CpuPolicy(seed0, k);
      DecidePassUntouched(d0, kinds, count, index, index, lotuses, field, cpu, answer);
      ghost var d := Decisions(States(), Saves(), draws);
      ghost var e := DecidePass(d0, kinds, count, index + 1, lotuses, field, cpu, answer);
      assert d0.states[index] == charas[index].State();
      draws' := draws;
      if !charas[index].IsGoal() {
        assert e == DecideOne(d, kinds, count, index, lotuses, field, cpu, answer);
        var n := count;
        var others := seq(n, j requires 0 <= j < n && j < |charas| reads charas => Visible(charas[j].State()));
        assert others == seq(n, j requires 0 <= j < n => Visible(d.states[j]));
        var enemies := Pick(others, index);
        DecideAt(index, enemies, rng, k, answer, lotuses, field, seed0, draws);
        DecideOneIs(d, kinds, count, index, lotuses, field, cpu, answer, charas[index].State(), brains[index].cpuSaveAccelTurn);
        draws' := if kinds[index] == Cpu then draws + 3 else draws;
        assert e == Decisions(States(), Saves(), draws');
      } else {
        assert e == d;
      }
    }

    /// One step of `procDecideAction`: character `index` decides, with `enemies` as
    /// the others, after `draws` numbers have been drawn from `seed0`.
    method DecideAt(index: int, enemies: seq<CharaState>, rng: Random, k: Kinematics,
                    answer: StageView -> Action, lotuses: seq<Circle>, field: Field,
                    ghost seed0: Seed, ghost draws: nat)
      requires Valid() && 0 <= index < count && rng.State() == Steps(seed0, draws)
      requires types[index] != NoType && 0 <= charas[index].State().targetLotusNo < |lotuses|
      modifies charas[index], charas[index].brain, rng
      ensures Valid()
      ensures States() == old(States())[index := charas[index].State()]
      ensures Saves() == old(Saves())[index := brains[index].cpuSaveAccelTurn]
      ensures DecideStep(old(charas[index].State()), charas[index].State(), types[index],
                         old(brains[index].cpuSaveAccelTurn), brains[index].cpuSaveAccelTurn,
                         StageView(Visible(Snapped(old(charas[index].State()))), enemies, lotuses, field),
                         draws, CpuPolicy(seed0, k), answer)
      ensures rng.State() == Steps(seed0, if types[index] == Cpu then draws + 3 else draws)
    {
      StepsThree(rng.State());
      StepsAdd(seed0, draws, 3);
      charas[index].DecideAction(enemies, lotuses, field, rng, k, answer);
      forall i | 0 <= i < CharaCountMax && i != index
        ensures charas[i].State() == old(charas[i].State()) && charas[i].Valid()
        ensures brains[i].cpuSaveAccelTurn == old(brains[i].cpuSaveAccelTurn)
      {
      }
    }

    /// `procExecAction`: every character in use that is not goal carries out its
    /// decided action and moves, as `ExecPass` says.
    method ProcExecAction(k: Kinematics, field: Field)
      requires Valid()
      requires forall i :: 0 <= i < count && !IsGoal(charas[i].State()) ==> IsDecided(charas[i].State().decided)
      modifies charas
      ensures Valid()
      ensures States() == ExecPass(old(States()), count, k, field)
    {
      ghost var s0 := States();
      assert forall i :: 0 <= i < count && !IsGoal(s0[i]) ==> IsDecided(s0[i].decided);
      var index := 0;
      while index < count
        invariant 0 <= index <= count && Valid()
        invariant forall i :: 0 <= i < CharaCountMax ==>
          States()[i] == if i < index && !IsGoal(s0[i]) then Move(CharaRules.ExecAction(s0[i], k), k, field) else s0[i]
      {
        assert charas[index].State() == States()[index] == s0[index];
        if !charas[index].IsGoal() {
          ExecAt(index, k, field);
        }
        index := index + 1;
      }
      assert States() == ExecPass(s0, count, k, field);
    }

    /// One step of `procExecAction`: the character in slot `index` acts and moves.
    method ExecAt(index: int, k: Kinematics, field: Field)
      requires Valid() && 0 <= index < CharaCountMax && IsDecided(charas[index].State().decided)
      modifies charas[index]
      ensures Valid()
      ensures States() == old(States())[index := Move(CharaRules.ExecAction(old(States())[index], k), k, field)]
    {
      charas[index].ExecAction(k);
      charas[index].Move(k, field);
      forall i | 0 <= i < CharaCountMax && i != index
        ensures charas[i].State() == old(charas[i].State()) && charas[i].Valid()
      {
      }
    }

    /// `procCheckColl`: every pair of characters in the race is judged on the states
    /// from before the check, each collecting into a `CalcVelSet`; then every character
    /// in the race takes what it collected and is put back inside the field, as
    /// `CollPass` says.
    method ProcCheckColl(k: Kinematics, field: Field)
      requires Valid()
      modifies charas
      ensures Valid()
      ensures States() == CollPass(old(States()), count, k, field)
    {
      ghost var s0 := States();
      var velSet := CollectVels(k);
      AbsorbAll(velSet, k);
      ghost var s1 := States();
      CorrectAll(k, field);
      assert States() == CollPass(s0, count, k, field);
    }

    /// The second loop of `procCheckColl`: every character in the race with a
    /// non-empty set takes the mean velocity and the summed offset.
    method AbsorbAll(velSet: seq<VelSet>, k: Kinematics)
      requires Valid() && |velSet| == count
      modifies charas
      ensures Valid()
      ensures forall i :: 0 <= i < CharaCountMax ==>
        States()[i] == if i < count && !IsGoal(old(States())[i]) then Absorb(old(States())[i], velSet[i], k) else old(States())[i]
    {
      ghost var s0 := States();
      var index := 0;
      while index < count
        invariant 0 <= index <= count && Valid()
        invariant forall i :: 0 <= i < CharaCountMax ==>
          States()[i] == if i < index && !IsGoal(s0[i]) then Absorb(s0[i], velSet[i], k) else s0[i]
      {
        if !charas[index].IsGoal() && |velSet[index].vels| != 0 {
          AbsorbAt(index, velSet[index], k);
        }
        index := index + 1;
      }
    }

    /// The third loop of `procCheckColl`: every character in the race is put back
    /// inside the field.
    method CorrectAll(k: Kinematics, field: Field)
      requires Valid()
      modifies charas
      ensures Valid()
      ensures forall i :: 0 <= i < CharaCountMax ==>
        States()[i] == if i < count && !IsGoal(old(States())[i]) then CorrectInside(old(States())[i], k, field) else old(States())[i]
    {
      ghost var s0 := States();
      var index := 0;
      while index < count
        invariant 0 <= index <= count && Valid()
        invariant forall i :: 0 <= i < CharaCountMax ==>
          States()[i] == if i < index && !IsGoal(s0[i]) then CorrectInside(s0[i], k, field) else s0[i]
      {
        if !charas[index].IsGoal() {
          CorrectAt(index, k, field);
        }
        index := index + 1;
      }
    }

    /// The nested loop of `procCheckColl`: for every pair `a < b` of characters in the
    /// race whose regions overlap, the response of the pair is added to both sets.
    method CollectVels(k: Kinematics) returns (velSet: seq<VelSet>)
      requires Valid()
      ensures |velSet| == count
      ensures forall i :: 0 <= i < count ==> velSet[i] == FullSet(States(), count, i, k)
    {
      ghost var s := States();
      var n := count;
      velSet := seq(n, _ => EmptyVelSet);
      var indexA := 0;
      while indexA < n
        invariant 0 <= indexA <= n && |velSet| == n
        invariant forall i :: 0 <= i < n ==> velSet[i] == Collected(s, n, i, indexA, indexA + 1, k)
      {
        if charas[indexA].IsGoal() {
          assert IsGoal(s[indexA]);
          forall i | 0 <= i < n
            ensures velSet[i] == Collected(s, n, i, indexA + 1, indexA + 2, k)
          {
            CollectedSkip(s, n, i, indexA, k);
          }
        } else {
          velSet := CollectFrom(indexA, velSet, k, s);
        }
        indexA := indexA + 1;
      }
    }

    /// The inner loop of `procCheckColl` for character `a`: the pairs `(a, b)` with
    /// `a < b`, in increasing `b`.
    method CollectFrom(a: int, velSet: seq<VelSet>, k: Kinematics, ghost s: seq<CharaState>) returns (r: seq<VelSet>)
      requires Valid() && s == States() && 0 <= a < count && |velSet| == count
      requires forall i :: 0 <= i < count ==> velSet[i] == Collected(s, count, i, a, a + 1, k)
      ensures |r| == count
      ensures forall i :: 0 <= i < count ==> r[i] == Collected(s, count, i, a + 1, a + 2, k)
    {
      var n := count;
      r := velSet;
      var indexB := a + 1;
      while indexB < n
        invariant a + 1 <= indexB <= n && |r| == n
        invariant forall i :: 0 <= i < n ==> r[i] == Collected(s, n, i, a, indexB, k)
      {
        r := CollectPair(a, indexB, r, k, s);
        indexB := indexB + 1;
      }
      forall i | 0 <= i < n
        ensures r[i] == Collected(s, n, i, a + 1, a + 2, k)
      {
        CollectedNext(s, n, i, a, k);
      }
    }

    /// One visit of the inner loop of `procCheckColl`: when `b` is in the race too and
    /// the regions of `a` and `b` overlap, the response of the pair is added to the
    /// set of each, and the sets become those the pair `(a, b)` leaves.
    method CollectPair(a: int, b: int, velSet: seq<VelSet>, k: Kinematics, ghost s: seq<CharaState>)
      returns (r: seq<VelSet>)
      requires Valid() && s == States() && 0 <= a < b < count && |velSet| == count
      requires forall i :: 0 <= i < count ==> velSet[i] == Collected(s, count, i, a, b, k)
      ensures |r| == count
      ensures forall i :: 0 <= i < count ==> r[i] == Collected(s, count, i, a, b + 1, k)
    {
      ghost var sa, sb := charas[a].State(), charas[b].State();
      assert s[a] == sa && s[b] == sb;
      r := velSet;
      if !charas[a].IsGoal() && !charas[b].IsGoal() {
        var circleA := Circle(charas[a].pos, k.charaRadius);
        var circleB := Circle(charas[b].pos, k.charaRadius);
        if k.isHit(circleA, circleB) {
          var (velA, velB, ofs) := k.collide(circleA, charas[a].vel, circleB, charas[b].vel);
          assert Collides(s, a, b, k) && (velA, velB, ofs) == Response(s, a, b, k);
          assert |r[a].vels| < CharaCountMax && |r[b].vels| < CharaCountMax;
          r := r[a := AddVel(r[a], velA, Neg(ofs))];
          r := r[b := AddVel(r[b], velB, ofs)];
        } else {
          assert !Collides(s, a, b, k);
        }
      } else {
        assert !Collides(s, a, b, k);
      }
      forall i | 0 <= i < count
        ensures r[i] == Collected(s, count, i, a, b + 1, k)
      {
        CollectedStep(s, count, i, a, b, k);
      }
    }

    /// One step of the second loop of `procCheckColl`.
    method AbsorbAt(index: int, v: VelSet, k: Kinematics)
      requires Valid() && 0 <= index < CharaCountMax && |v.vels| != 0
      modifies charas[index]
      ensures Valid()
      ensures States() == old(States())[index := Absorb(old(States())[index], v, k)]
    {
      charas[index].SetVel(k.meanVel(v.vels));
      charas[index].Separation(v.ofs);
      forall i | 0 <= i < CharaCountMax && i != index
        ensures charas[i].State() == old(charas[i].State()) && charas[i].Valid()
      {
      }
    }

    /// One step of the third loop of `procCheckColl`.
    method CorrectAt(index: int, k: Kinematics, field: Field)
      requires Valid() && 0 <= index < CharaCountMax
      modifies charas[index]
      ensures Valid()
      ensures States() == old(States())[index := CorrectInside(old(States())[index], k, field)]
    {
      charas[index].CorrectInside(k, field);
      forall i | 0 <= i < CharaCountMax && i != index
        ensures charas[i].State() == old(charas[i].State()) && charas[i].Valid()
      {
      }
    }

    /// `procEnd`: every character in use that is not goal counts the turn and passes
    /// the lotuses its move swept, as `EndPass` says; then the ranks are updated.
    method ProcEnd(lotuses: seq<Circle>, k: Kinematics)
      requires Valid()
      requires forall i :: 0 <= i < count && !IsGoal(charas[i].State()) ==> charas[i].State().targetLotusNo < |lotuses|
      modifies charas
      ensures Valid()
      ensures forall i :: 0 <= i < CharaCountMax ==>
        States()[i] == EndPass(old(States()), count, lotuses, k)[i].(rank := States()[i].rank)
      ensures forall i :: count <= i < CharaCountMax ==> States()[i] == old(States())[i]
      ensures RanksOk(States()[..count], |lotuses|)
    {
      EndAll(lotuses, k);
      UpdateRank(|lotuses|);
    }

    /// The loop of `procEnd`.
    method EndAll(lotuses: seq<Circle>, k: Kinematics)
      requires Valid()
      requires forall i :: 0 <= i < count && !IsGoal(charas[i].State()) ==> charas[i].State().targetLotusNo < |lotuses|
      modifies charas
      ensures Valid()
      ensures States() == EndPass(old(States()), count, lotuses, k)
    {
      ghost var s0 := States();
      ghost var r := EndPass(s0, count, lotuses, k);
      var index := 0;
      while index < count
        invariant 0 <= index <= count && Valid()
        invariant forall i :: 0 <= i < CharaCountMax ==> States()[i] == if i < index then r[i] else s0[i]
      {
        assert charas[index].State() == States()[index] == s0[index];
        if !charas[index].IsGoal() {
          EndAt(index, lotuses, k);
        }
        index := index + 1;
      }
      assert States() == r;
    }

    /// One step of `procEnd`: the turn counted, then the lotus-passing loop.
    method EndAt(index: int, lotuses: seq<Circle>, k: Kinematics)
      requires Valid() && 0 <= index < CharaCountMax && !IsGoal(charas[index].State())
      requires charas[index].State().targetLotusNo < |lotuses|
      modifies charas[index]
      ensures Valid()
      ensures States() == old(States())[index := EndTurn(old(States())[index], lotuses, k)]
    {
      charas[index].UpdateTurn();
      PassLotusesOf(charas[index], lotuses, k);
      forall i | 0 <= i < CharaCountMax && i != index
        ensures charas[i].State() == old(charas[i].State()) && charas[i].Valid()
      {
      }
    }

    /// The loop of `Stage::start` that prepares every character in use: each brain
    /// is initialised, a CPU's counter restarting from 0.
    method InitAll()
      requires Valid() && forall i :: 0 <= i < count ==> types[i] != NoType
      modifies brains
      ensures Valid() && States() == old(States())
      ensures forall i :: 0 <= i < CharaCountMax ==>
        Saves()[i] == if i < count && types[i] == Cpu then 0 else old(Saves())[i]
      ensures forall i :: 0 <= i < CharaCountMax ==> brains[i].param == old(brains[i].param)
    {
      ghost var v0 := Saves();
      var index := 0;
      while index < count
        invariant 0 <= index <= count && Valid() && States() == old(States())
        invariant forall i :: 0 <= i < CharaCountMax ==> brains[i].param == old(brains[i].param)
        invariant forall i :: 0 <= i < CharaCountMax ==>
          Saves()[i] == if i < index && types[i] == Cpu then 0 else v0[i]
      {
        InitAt(index);
        index := index + 1;
      }
    }

    /// One step of `InitAll`.
    method InitAt(index: int)
      requires Valid() && 0 <= index < CharaCountMax && types[index] != NoType
      modifies brains[index]
      ensures Valid() && States() == old(States())
      ensures Saves() == old(Saves())[index := if types[index] == Cpu then 0 else old(Saves())[index]]
      ensures forall i :: 0 <= i < CharaCountMax ==> brains[i].param == old(brains[i].param)
    {
      charas[index].Init();
      forall i | 0 <= i < CharaCountMax && i != index
        ensures brains[i].cpuSaveAccelTurn == old(brains[i].cpuSaveAccelTurn) && charas[i].Valid()
        ensures brains[i].param == old(brains[i].param)
      {
      }
    }

    /// `setupAddChara`: the next free slot takes the character; earlier slots are
    /// left alone.
    method SetupAddChara(p: Vec2, param: CharaParam)
      requires Valid() && count < CharaCountMax
      modifies this, types, charas[count], charas[count].brain
      ensures Valid() && count == old(count) + 1
      ensures charas[old(count)].State() == Setup(old(charas[count].State()), p, param.strength)
      ensures charas[old(count)].brain.param == param && types[old(count)] == param.kind
      ensures forall i :: 0 <= i < CharaCountMax && i != old(count) ==>
        charas[i].State() == old(charas[i].State()) && types[i] == old(types[i]) &&
        brains[i].param == old(brains[i].param)
    {
      charas[count].Setup(p, param);
      types[count] := param.kind;
      count := count + 1;
    }

    /// `operator[]`: only characters in use may be read.
    function At(index: int): Chara
      reads this
      requires Wired() && 0 <= index < count <= CharaCountMax
    {
      charas[index]
    }

    /// `isAllHumanGoal`: there is a human among the characters in use and every one
    /// of them is goal.
    method IsAllHumanGoal() returns (r: bool)
      requires Valid()
      ensures r <==> (exists i :: 0 <= i < count && types[i] == Human) &&
                     (forall i :: 0 <= i < count && types[i] == Human ==> charas[i].IsGoal())
    {
      var targetCount := 0;
      var index := 0;
      while index < count
        invariant 0 <= index <= count
        invariant forall i :: 0 <= i < index && types[i] == Human ==> charas[i].IsGoal()
        invariant targetCount == 0 <==> forall i :: 0 <= i < index ==> types[i] != Human
      {
        if types[index] != Human {
          index := index + 1;
          continue;
        }
        if !charas[index].IsGoal() {
          return false;
        }
        targetCount := targetCount + 1;
        index := index + 1;
      }
      if targetCount == 0 {
        return false;
      }
      return true;
    }

    /// `goalCount`: the number of goal characters in use.
    method GoalCount() returns (r: int)
      requires Valid()
      ensures r == GoalsIn(States()[..count]) && 0 <= r <= count
    {
      var targetCount := 0;
      var index := 0;
      while index < count
        invariant 0 <= index <= count
        invariant targetCount == GoalsIn(States()[..index])
      {
        assert States()[..index + 1][..index] == States()[..index];
        if charas[index].IsGoal() {
          targetCount := targetCount + 1;
        }
        index := index + 1;
      }
      assert States()[..count] == States()[..index];
      r := targetCount;
    }

    /// `updateRank`: rank the characters in use by the exchange sort; only their
    /// ranks change.
    method UpdateRank(lotusCount: int)
      requires Valid()
      modifies charas
      ensures Valid()
      ensures forall i :: 0 <= i < CharaCountMax ==>
        charas[i].State() == old(charas[i].State()).(rank := charas[i].rank)
      ensures forall i :: count <= i < CharaCountMax ==> charas[i].State() == old(charas[i].State())
      ensures RanksOk(States()[..count], lotusCount)
    {
      var keys := seq(count, i requires 0 <= i < count && i < |charas| reads this, charas => Key(charas[i].State(), lotusCount));
      var order := SortOrder(keys);
      AssignRanks(order);
      RanksFromOrder(States()[..count], lotusCount, keys, order);
    }

    /// The second half of `updateRank`: the character at place `p` of `order` gets
    /// rank `p`.
    method AssignRanks(order: seq<int>)
      requires Valid() && |order| == count
      requires forall p :: 0 <= p < |order| ==> 0 <= order[p] < count
      requires forall p, q :: 0 <= p < q < |order| ==> order[p] != order[q]
      modifies charas
      ensures Valid()
      ensures forall i :: 0 <= i < CharaCountMax ==>
        charas[i].State() == old(charas[i].State()).(rank := charas[i].rank)
      ensures forall i :: count <= i < CharaCountMax ==> charas[i].rank == old(charas[i].rank)
      ensures forall p :: 0 <= p < count ==> charas[order[p]].rank == p
    {
      ghost var s0 := States();
      var index := 0;
      while index < count
        invariant 0 <= index <= count
        invariant Valid()
        invariant forall i :: 0 <= i < CharaCountMax ==> States()[i] == s0[i].(rank := States()[i].rank)
        invariant forall p :: 0 <= p < index ==> States()[order[p]].rank == p
        invariant forall i :: count <= i < CharaCountMax ==> States()[i].rank == s0[i].rank
      {
        RankAt(order[index], index);
        index := index + 1;
      }
      forall i | 0 <= i < CharaCountMax
        ensures charas[i].State() == States()[i] && s0[i] == old(charas[i].State())
      {
      }
    }

    /// One step of `updateRank`'s second half: the character in slot `slot` gets
    /// rank `r`.
    method RankAt(slot: int, r: int)
      requires Valid() && 0 <= slot < CharaCountMax
      modifies charas[slot]
      ensures Valid()
      ensures States() == old(States())[slot := old(States())[slot].(rank := r)]
    {
      charas[slot].SetRank(r);
      forall i | 0 <= i < CharaCountMax && i != slot
        ensures charas[i].State() == old(charas[i].State()) && charas[i].Valid()
      {
      }
    }
  }

  /// The lotus-passing loop of `procEnd` for one character: while it is not goal and
  /// the region it swept this turn touches its target lotus, it aims at the next one.
  method PassLotusesOf(chara: Chara, lotuses: seq<Circle>, k: Kinematics)
    requires chara.Valid() && InStage(chara.State(), |lotuses|)
    modifies chara
    ensures chara.Valid() && chara.State() == PassLotuses(old(chara.State()), lotuses, k)
  {
    ghost var c0 := chara.State();
    while !chara.IsGoal()
      invariant chara.Valid() && InStage(chara.State(), |lotuses|)
      invariant PassLotuses(chara.State(), lotuses, k) == PassLotuses(c0, lotuses, k)
      decreases StageRoundCount - chara.roundCount, |lotuses| - chara.targetLotusNo
    {
      if k.isHitSwept(lotuses[chara.targetLotusNo], Circle(chara.prevPos, k.charaRadius), chara.pos) {
        chara.IncTargetLotusNo(|lotuses|);
      } else {
        break;
      }
    }
  }

  /// The `CharaCountMax` default-constructed characters of a new collection.
  method NewCharas() returns (cs: seq<Chara>)
    ensures |cs| == CharaCountMax
    ensures forall i, j :: 0 <= i < j < |cs| ==> cs[i] != cs[j] && cs[i].brain != cs[j].brain
    ensures forall i :: 0 <= i < |cs| ==> fresh(cs[i]) && fresh(cs[i].brain)
    ensures forall i :: 0 <= i < |cs| ==>
      cs[i].Valid() && cs[i].State() == Initial && cs[i].brain.param == NoParam
  {
    var c0 := new Chara();
    var c1 := new Chara();
    var c2 := new Chara();
    var c3 := new Chara();
    cs := [c0, c1, c2, c3];
  }

}
