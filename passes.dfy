/// The passes of `CharaCollection` (HPCCharaCollection.cpp) over all characters of a
/// turn, as pure functions on the characters' states: deciding, executing, the
/// collision check, the end of turn and the ranking. The class methods are proved to
/// compute exactly these; the properties of the passes are proved here.
module TurnPasses {
  import opened Params
  import opened Geometry
  import opened Actions
  import opened CharaParams
  import opened CharaRules
  import opened Randoms
  import opened Brains
  import opened Ranking
  import opened Collisions
  import opened Enemies

  /// The key `IsHighOrder` compares, for a character on a stage of `n` lotuses.
  function Key(c: CharaState, n: int): RankKey {
    RankKey(IsGoal(c), c.passedTurn, PassedLotusCount(c, n))
  }

  /// The ranks of `s` list `0 .. |s|-1` once each, and no character ranks ahead
  /// (`IsHighOrder`) of one with a smaller rank.
  predicate RanksOk(s: seq<CharaState>, n: int) {
    (forall i :: 0 <= i < |s| ==> 0 <= s[i].rank < |s|) &&
    (forall i, j :: 0 <= i < j < |s| ==> s[i].rank != s[j].rank) &&
    (forall i, j :: 0 <= i < |s| && 0 <= j < |s| && s[i].rank < s[j].rank ==>
      !HigherOrder(Key(s[j], n), Key(s[i], n)))
  }

  /// The number of goal characters in `s`.
  function GoalsIn(s: seq<CharaState>): (r: nat)
    ensures r <= |s|
  {
    if s == [] then 0 else GoalsIn(s[..|s| - 1]) + (if IsGoal(s[|s| - 1]) then 1 else 0)
  }

  /// Every character is goal exactly when the goal count is the number of
  /// characters, and exactly one is not goal when the count is one short of it.
  lemma GoalsInCounts(s: seq<CharaState>)
    ensures GoalsIn(s) == |s| <==> forall i :: 0 <= i < |s| ==> IsGoal(s[i])
    ensures GoalsIn(s) == |s| - 1 <==>
      exists i :: 0 <= i < |s| && !IsGoal(s[i]) && forall j :: 0 <= j < |s| && j != i ==> IsGoal(s[j])
  {
    GoalsInAll(s);
    GoalsInOneLeft(s);
  }

  /// The goal count is the number of characters exactly when every one is goal.
  lemma {:induction false} GoalsInAll(s: seq<CharaState>)
    ensures GoalsIn(s) == |s| <==> forall i :: 0 <= i < |s| ==> IsGoal(s[i])
  {
    if s != [] {
      var t := s[..|s| - 1];
      GoalsInAll(t);
      assert forall i :: 0 <= i < |t| ==> t[i] == s[i];
    }
  }

  /// The goal count is one short of the number of characters exactly when exactly
  /// one of them is not goal.
  lemma {:induction false} GoalsInOneLeft(s: seq<CharaState>)
    ensures GoalsIn(s) == |s| - 1 <==>
      exists i :: 0 <= i < |s| && !IsGoal(s[i]) && forall j :: 0 <= j < |s| && j != i ==> IsGoal(s[j])
  {
    if s != [] {
      var t := s[..|s| - 1];
      GoalsInOneLeft(t);
      GoalsInAll(t);
      assert forall i :: 0 <= i < |t| ==> t[i] == s[i];
      if GoalsIn(s) == |s| - 1 {
        if IsGoal(s[|s| - 1]) {
          var i :| 0 <= i < |t| && !IsGoal(t[i]) && forall j :: 0 <= j < |t| && j != i ==> IsGoal(t[j]);
          assert !IsGoal(s[i]) && forall j :: 0 <= j < |s| && j != i ==> IsGoal(s[j]);
        } else {
          assert forall j :: 0 <= j < |s| && j != |s| - 1 ==> IsGoal(s[j]);
        }
      }
      if exists i :: 0 <= i < |s| && !IsGoal(s[i]) && forall j :: 0 <= j < |s| && j != i ==> IsGoal(s[j]) {
        var i :| 0 <= i < |s| && !IsGoal(s[i]) && forall j :: 0 <= j < |s| && j != i ==> IsGoal(s[j]);
        if i == |s| - 1 {
          assert forall j :: 0 <= j < |t| ==> IsGoal(t[j]);
        } else {
          assert !IsGoal(t[i]) && forall j :: 0 <= j < |t| && j != i ==> IsGoal(t[j]);
        }
      }
    }
  }

  /// A character once it has taken its snapshot for the turn: the previous position
  /// is moved up to the current one.
  function Snapped(c: CharaState): CharaState {
    c.(prevPos := c.pos)
  }

  /// What character `j` shows the others while the characters before `i` have
  /// already decided this turn.
  function Shown(s: seq<CharaState>, i: int, j: int): CharaState
    requires 0 <= j < |s|
  {
    if j < i && !IsGoal(s[j]) then Visible(Snapped(s[j])) else Visible(s[j])
  }

  /// The view the policy of character `i` gets in `procDecideAction`, where `s` are
  /// the characters at the start of the pass and `n` of them are in use.
  function ViewAt(s: seq<CharaState>, n: int, i: int, lotuses: seq<Circle>, field: Field): StageView
    requires 0 <= i < n <= |s|
  {
    StageView(Visible(Snapped(s[i])), Pick(seq(n, j requires 0 <= j < n => Shown(s, i, j)), i), lotuses, field)
  }

  /// The number of CPU characters before `i` that are not goal, each of which draws
  /// three numbers when it decides.
  function CpusBefore(s: seq<CharaState>, kinds: seq<CharaType>, i: int): (r: nat)
    requires 0 <= i <= |s| && i <= |kinds|
    ensures r <= i
  {
    if i == 0 then 0
    else CpusBefore(s, kinds, i - 1) + (if kinds[i - 1] == Cpu && !IsGoal(s[i - 1]) then 1 else 0)
  }

  /// Giving each character its place in an order sorted by `IsHighOrder` as its rank
  /// satisfies `RanksOk`.
  lemma RanksFromOrder(s: seq<CharaState>, n: int, keys: seq<RankKey>, order: seq<int>)
    requires |keys| == |s| == |order|
    requires forall i :: 0 <= i < |s| ==> keys[i] == Key(s[i], n)
    requires forall p :: 0 <= p < |order| ==> 0 <= order[p] < |s|
    requires forall p, q :: 0 <= p < q < |order| ==> order[p] != order[q]
    requires forall i :: 0 <= i < |s| ==> i in order
    requires forall p, q :: 0 <= p < q < |order| ==> !HigherOrder(keys[order[q]], keys[order[p]])
    requires forall p :: 0 <= p < |order| ==> s[order[p]].rank == p
    ensures RanksOk(s, n)
  {
    forall i | 0 <= i < |s|
      ensures 0 <= s[i].rank < |s| && order[s[i].rank] == i
    {
      assert i in order;
      var p :| 0 <= p < |order| && order[p] == i;
    }
  }

  /// A CPU's policy as a function of what it sees, its saving counter and how many
  /// numbers have been drawn from `seed0` before: the CPU rule of `Brain` applied to
  /// the player and the lotuses of the view. The rule reads the target lotus, which
  /// every character in the race has (`InStage`); a view without one would be outside
  /// the source's contract and is answered with a wait.
  function CpuPolicy(seed0: Seed, k: Kinematics): (StageView, int, nat) -> CpuResult {
    (view: StageView, save: int, draws: nat) =>
      var seed := Steps(seed0, draws);
      if 0 <= view.player.targetLotusNo < |view.lotuses| then CpuDecide(view.player, view.lotuses, save, seed, k)
      else CpuResult(WaitAction(), save, seed)
  }

  /// The outcome of `decideAction` for one character: its snapshot is taken and the
  /// decided action is the human policy's answer to `view`, or the CPU policy's
  /// answer drawn from `seed`, which also updates the saving counter.
  predicate DecideStep(c0: CharaState, c1: CharaState, kind: CharaType, save0: int, save1: int,
                       view: StageView, draws: nat, cpu: (StageView, int, nat) -> CpuResult,
                       answer: StageView -> Action)
  {
    c1 == Snapped(c0).(decided := c1.decided) &&
    (kind == Human ==> c1.decided == answer(view) && save1 == save0) &&
    (kind == Cpu ==> c1.decided == cpu(view, save0, draws).action && save1 == cpu(view, save0, draws).saveTurn)
  }

  /// What a deciding pass works on: the states, the brain counters, and how many
  /// numbers have been drawn from the seed the pass started with.
  datatype Decisions = Decisions(states: seq<CharaState>, saves: seq<int>, draws: nat)

  /// Shapes a pass works on: `n` characters in use, each with a counter and a type.
  predicate Shaped(d: Decisions, kinds: seq<CharaType>, n: int) {
    0 <= n <= |d.states| == |d.saves| && n <= |kinds|
  }

  /// Every character in use that is not goal has a type.
  predicate Typed(s: seq<CharaState>, kinds: seq<CharaType>, n: int)
    requires 0 <= n <= |s| && n <= |kinds|
  {
    forall i :: 0 <= i < n && !IsGoal(s[i]) ==> kinds[i] != NoType
  }

  /// The view character `i` gets when the characters are as `s` says: itself with
  /// its snapshot taken, and the others as they are.
  function ViewNow(s: seq<CharaState>, n: int, i: int, lotuses: seq<Circle>, field: Field): StageView
    requires 0 <= i < n <= |s|
  {
    StageView(Visible(Snapped(s[i])), Pick(seq(n, j requires 0 <= j < n => Visible(s[j])), i), lotuses, field)
  }

  /// `decideAction` of character `i` in the middle of the pass: it sees the others as
  /// they are now; a CPU draws three numbers.
  function DecideOne(d: Decisions, kinds: seq<CharaType>, n: int, i: int, lotuses: seq<Circle>,
                     field: Field, cpu: (StageView, int, nat) -> CpuResult, answer: StageView -> Action): Decisions
    requires Shaped(d, kinds, n) && 0 <= i < n
  {
    var c := d.states[i];
    var view := ViewNow(d.states, n, i, lotuses, field);
    match kinds[i]
    case Human => d.(states := d.states[i := Snapped(c).(decided := answer(view))])
    case Cpu =>
      var r := cpu(view, d.saves[i], d.draws);
      Decisions(d.states[i := Snapped(c).(decided := r.action)], d.saves[i := r.saveTurn], d.draws + 3)
    case NoType => d
  }

  /// `procDecideAction` over the first `upto` characters: those that are not goal
  /// decide, in index order. Whether a character is goal is read from the states
  /// the pass started with, which are the states it has when its turn comes
  /// (`DecidePassFrame`).
  function DecidePass(d0: Decisions, kinds: seq<CharaType>, n: int, upto: int, lotuses: seq<Circle>,
                      field: Field, cpu: (StageView, int, nat) -> CpuResult, answer: StageView -> Action): (r: Decisions)
    requires Shaped(d0, kinds, n) && 0 <= upto <= n
    ensures Shaped(r, kinds, n) && |r.states| == |d0.states|
    decreases upto
  {
    if upto == 0 then d0
    else
      var d := DecidePass(d0, kinds, n, upto - 1, lotuses, field, cpu, answer);
      if IsGoal(d0.states[upto - 1]) then d
      else DecideOne(d, kinds, n, upto - 1, lotuses, field, cpu, answer)
  }

  /// One decision, stated against the view it was given and the seed it drew from.
  lemma DecideOneStep(d: Decisions, kinds: seq<CharaType>, n: int, i: int, lotuses: seq<Circle>,
                      field: Field, cpu: (StageView, int, nat) -> CpuResult, answer: StageView -> Action)
    requires Shaped(d, kinds, n) && 0 <= i < n && kinds[i] != NoType
    ensures var r := DecideOne(d, kinds, n, i, lotuses, field, cpu, answer);
      DecideStep(d.states[i], r.states[i], kinds[i], d.saves[i], r.saves[i],
                 ViewNow(d.states, n, i, lotuses, field), d.draws, cpu, answer)
  {
  }

  /// Conversely, a character and counter that satisfy `DecideStep` for the view and
  /// seed of its turn are the ones `DecideOne` computes: the step determines them.
  lemma DecideOneIs(d: Decisions, kinds: seq<CharaType>, n: int, i: int, lotuses: seq<Circle>,
                    field: Field, cpu: (StageView, int, nat) -> CpuResult, answer: StageView -> Action,
                    c1: CharaState, save1: int)
    requires Shaped(d, kinds, n) && 0 <= i < n && kinds[i] != NoType
    requires DecideStep(d.states[i], c1, kinds[i], d.saves[i], save1,
                        ViewNow(d.states, n, i, lotuses, field), d.draws, cpu, answer)
    ensures DecideOne(d, kinds, n, i, lotuses, field, cpu, answer) ==
      Decisions(d.states[i := c1], d.saves[i := save1], if kinds[i] == Cpu then d.draws + 3 else d.draws)
  {
    if kinds[i] == Human {
      assert d.saves[i := save1] == d.saves;
    }
  }

  /// A decision changes only the deciding character, and a CPU draws three numbers.
  lemma DecideOneFrame(d: Decisions, kinds: seq<CharaType>, n: int, i: int, lotuses: seq<Circle>,
                       field: Field, cpu: (StageView, int, nat) -> CpuResult, answer: StageView -> Action)
    requires Shaped(d, kinds, n) && 0 <= i < n
    ensures var r := DecideOne(d, kinds, n, i, lotuses, field, cpu, answer);
      |r.states| == |d.states| &&
      r.draws == (if kinds[i] == Cpu then d.draws + 3 else d.draws) &&
      forall j :: 0 <= j < |d.states| && j != i ==> r.states[j] == d.states[j] && r.saves[j] == d.saves[j]
  {
  }

  /// A character whose turn has not come yet, or that is goal, is as the pass found it.
  lemma {:induction false} DecidePassUntouched(d0: Decisions, kinds: seq<CharaType>, n: int, upto: int, j: int,
                                               lotuses: seq<Circle>, field: Field,
                                               cpu: (StageView, int, nat) -> CpuResult, answer: StageView -> Action)
    requires Shaped(d0, kinds, n) && 0 <= upto <= n && 0 <= j < |d0.states|
    requires upto <= j || IsGoal(d0.states[j])
    ensures var r := DecidePass(d0, kinds, n, upto, lotuses, field, cpu, answer);
      r.states[j] == d0.states[j] && r.saves[j] == d0.saves[j]
    decreases upto
  {
    if upto > 0 {
      DecidePassUntouched(d0, kinds, n, upto - 1, j, lotuses, field, cpu, answer);
      if !IsGoal(d0.states[upto - 1]) {
        DecideOneFrame(DecidePass(d0, kinds, n, upto - 1, lotuses, field, cpu, answer),
                       kinds, n, upto - 1, lotuses, field, cpu, answer);
      }
    }
  }

  /// Once character `i` has decided, the rest of the pass leaves it alone.
  lemma {:induction false} DecidePassKeeps(d0: Decisions, kinds: seq<CharaType>, n: int, i: int, upto: int,
                                           lotuses: seq<Circle>, field: Field,
                                           cpu: (StageView, int, nat) -> CpuResult, answer: StageView -> Action)
    requires Shaped(d0, kinds, n) && 0 <= i < upto <= n
    ensures var r := DecidePass(d0, kinds, n, upto, lotuses, field, cpu, answer);
      var e := DecidePass(d0, kinds, n, i + 1, lotuses, field, cpu, answer);
      r.states[i] == e.states[i] && r.saves[i] == e.saves[i]
    decreases upto
  {
    if upto > i + 1 {
      DecidePassKeeps(d0, kinds, n, i, upto - 1, lotuses, field, cpu, answer);
      if !IsGoal(d0.states[upto - 1]) {
        DecideOneFrame(DecidePass(d0, kinds, n, upto - 1, lotuses, field, cpu, answer),
                       kinds, n, upto - 1, lotuses, field, cpu, answer);
      }
    }
  }

  /// After its turn, a character that is not goal has only taken its snapshot and
  /// decided.
  lemma DecidePassSnapped(d0: Decisions, kinds: seq<CharaType>, n: int, j: int, upto: int,
                          lotuses: seq<Circle>, field: Field,
                          cpu: (StageView, int, nat) -> CpuResult, answer: StageView -> Action)
    requires Shaped(d0, kinds, n) && Typed(d0.states, kinds, n) && 0 <= j < upto <= n && !IsGoal(d0.states[j])
    ensures var r := DecidePass(d0, kinds, n, upto, lotuses, field, cpu, answer);
      r.states[j] == Snapped(d0.states[j]).(decided := r.states[j].decided)
  {
    DecidePassKeeps(d0, kinds, n, j, upto, lotuses, field, cpu, answer);
    DecidePassUntouched(d0, kinds, n, j, j, lotuses, field, cpu, answer);
    DecideOneStep(DecidePass(d0, kinds, n, j, lotuses, field, cpu, answer),
                  kinds, n, j, lotuses, field, cpu, answer);
  }

  /// The pass draws three numbers for every CPU that decides.
  lemma {:induction false} DecidePassDraws(d0: Decisions, kinds: seq<CharaType>, n: int, upto: int,
                                           lotuses: seq<Circle>, field: Field,
                                           cpu: (StageView, int, nat) -> CpuResult, answer: StageView -> Action)
    requires Shaped(d0, kinds, n) && 0 <= upto <= n
    ensures DecidePass(d0, kinds, n, upto, lotuses, field, cpu, answer).draws ==
      d0.draws + 3 * CpusBefore(d0.states, kinds, upto)
    decreases upto
  {
    if upto > 0 {
      DecidePassDraws(d0, kinds, n, upto - 1, lotuses, field, cpu, answer);
      if !IsGoal(d0.states[upto - 1]) {
        DecideOneFrame(DecidePass(d0, kinds, n, upto - 1, lotuses, field, cpu, answer),
                       kinds, n, upto - 1, lotuses, field, cpu, answer);
      }
    }
  }

  /// What the pass does to character `i` that is not goal: it takes its snapshot and
  /// decides from the view `ViewAt` describes, a CPU after three draws for every CPU
  /// before it.
  lemma DecidePassStep(d0: Decisions, kinds: seq<CharaType>, n: int, i: int, upto: int,
                       lotuses: seq<Circle>, field: Field,
                       cpu: (StageView, int, nat) -> CpuResult, answer: StageView -> Action)
    requires Shaped(d0, kinds, n) && Typed(d0.states, kinds, n) && 0 <= i < upto <= n && !IsGoal(d0.states[i])
    ensures var r := DecidePass(d0, kinds, n, upto, lotuses, field, cpu, answer);
      DecideStep(d0.states[i], r.states[i], kinds[i], d0.saves[i], r.saves[i],
                 ViewAt(d0.states, n, i, lotuses, field),
                 d0.draws + 3 * CpusBefore(d0.states, kinds, i), cpu, answer)
  {
    DecidePassTurn(d0, kinds, n, i, lotuses, field, cpu, answer);
    DecidePassKeeps(d0, kinds, n, i, upto, lotuses, field, cpu, answer);
  }

  /// `DecidePassStep` at the end of character `i`'s own turn.
  lemma DecidePassTurn(d0: Decisions, kinds: seq<CharaType>, n: int, i: int,
                       lotuses: seq<Circle>, field: Field,
                       cpu: (StageView, int, nat) -> CpuResult, answer: StageView -> Action)
    requires Shaped(d0, kinds, n) && Typed(d0.states, kinds, n) && 0 <= i < n && !IsGoal(d0.states[i])
    ensures var e := DecidePass(d0, kinds, n, i + 1, lotuses, field, cpu, answer);
      DecideStep(d0.states[i], e.states[i], kinds[i], d0.saves[i], e.saves[i],
                 ViewAt(d0.states, n, i, lotuses, field),
                 d0.draws + 3 * CpusBefore(d0.states, kinds, i), cpu, answer)
  {
    var d := DecidePass(d0, kinds, n, i, lotuses, field, cpu, answer);
    DecidePassUntouched(d0, kinds, n, i, i, lotuses, field, cpu, answer);
    DecidePassDraws(d0, kinds, n, i, lotuses, field, cpu, answer);
    DecidePassShows(d0, kinds, n, i, lotuses, field, cpu, answer);
    DecideOneStep(d, kinds, n, i, lotuses, field, cpu, answer);
  }

  /// When character `i`'s turn comes, the characters show what `Shown` says.
  lemma DecidePassShows(d0: Decisions, kinds: seq<CharaType>, n: int, i: int,
                        lotuses: seq<Circle>, field: Field,
                        cpu: (StageView, int, nat) -> CpuResult, answer: StageView -> Action)
    requires Shaped(d0, kinds, n) && Typed(d0.states, kinds, n) && 0 <= i < n
    ensures var d := DecidePass(d0, kinds, n, i, lotuses, field, cpu, answer);
      ViewNow(d.states, n, i, lotuses, field) == ViewAt(d0.states, n, i, lotuses, field)
  {
    DecidePassUntouched(d0, kinds, n, i, i, lotuses, field, cpu, answer);
    var d := DecidePass(d0, kinds, n, i, lotuses, field, cpu, answer);
    forall j | 0 <= j < n
      ensures Visible(d.states[j]) == Shown(d0.states, i, j)
    {
      if j < i && !IsGoal(d0.states[j]) {
        DecidePassSnapped(d0, kinds, n, j, i, lotuses, field, cpu, answer);
      } else {
        DecidePassUntouched(d0, kinds, n, i, j, lotuses, field, cpu, answer);
      }
    }
    assert seq(n, j requires 0 <= j < n => Visible(d.states[j])) == seq(n, j requires 0 <= j < n => Shown(d0.states, i, j));
  }

  /// The CPU policy only answers with decided actions.
  lemma CpuPolicyDecides(seed0: Seed, k: Kinematics)
    ensures forall view, save, draws :: IsDecided(CpuPolicy(seed0, k)(view, save, draws).action)
  {
    assert IsDecided(WaitAction());
  }

  /// When both policies only answer with decided actions, every character in the
  /// race leaves the deciding pass with an action to carry out.
  lemma DecidePassDecides(d0: Decisions, kinds: seq<CharaType>, n: int, i: int,
                          lotuses: seq<Circle>, field: Field,
                          cpu: (StageView, int, nat) -> CpuResult, answer: StageView -> Action)
    requires Shaped(d0, kinds, n) && Typed(d0.states, kinds, n) && 0 <= i < n && !IsGoal(d0.states[i])
    requires forall view :: IsDecided(answer(view))
    requires forall view, save, draws :: IsDecided(cpu(view, save, draws).action)
    ensures IsDecided(DecidePass(d0, kinds, n, n, lotuses, field, cpu, answer).states[i].decided)
  {
    DecidePassStep(d0, kinds, n, i, n, lotuses, field, cpu, answer);
  }

  /// `procExecAction` as a function of the states: every character in use that is
  /// not goal carries out its decided action and moves. The characters do not see
  /// each other here, so the order of the loop does not matter.
  function ExecPass(s: seq<CharaState>, n: int, k: Kinematics, field: Field): (r: seq<CharaState>)
    requires 0 <= n <= |s|
    requires forall i :: 0 <= i < n && !IsGoal(s[i]) ==> IsDecided(s[i].decided)
    ensures |r| == |s|
    ensures forall i :: 0 <= i < |s| && (n <= i || IsGoal(s[i])) ==> r[i] == s[i]
    ensures forall i :: 0 <= i < n && !IsGoal(s[i]) ==>
      r[i] == s[i].(pos := r[i].pos, vel := r[i].vel, accelCount := r[i].accelCount, decided := NoneDecided) &&
      s[i].accelCount - 1 <= r[i].accelCount <= s[i].accelCount
    ensures forall i :: 0 <= i < |s| && Valid(s[i]) ==> Valid(r[i])
  {
    seq(|s|, i requires 0 <= i < |s| =>
      if i < n && !IsGoal(s[i]) then Move(ExecAction(s[i], k), k, field) else s[i])
  }

  /// `procCheckColl` as a function of the states: every character in use that is not
  /// goal takes what it collected over all pairs (`FullSet`) and is put back inside
  /// the field. Every pair is judged on the states from before the check.
  function CollPass(s: seq<CharaState>, n: int, k: Kinematics, field: Field): (r: seq<CharaState>)
    requires 0 <= n <= |s|
    ensures |r| == |s|
    ensures forall i :: 0 <= i < |s| && (n <= i || IsGoal(s[i])) ==> r[i] == s[i]
    ensures forall i :: 0 <= i < n && !IsGoal(s[i]) ==> r[i] == s[i].(pos := r[i].pos, vel := r[i].vel)
    ensures forall i :: 0 <= i < |s| && Valid(s[i]) ==> Valid(r[i])
  {
    seq(|s|, i requires 0 <= i < |s| =>
      if i < n && !IsGoal(s[i]) then AfterCollisions(s[i], FullSet(s, n, i, k), k, field) else s[i])
  }

  /// A character in the race that collides with nobody is only put back inside the
  /// field.
  lemma CollPassAlone(s: seq<CharaState>, n: int, i: int, k: Kinematics, field: Field)
    requires 0 <= i < n <= |s| && !IsGoal(s[i])
    requires forall j :: 0 <= j < i ==> !Collides(s, j, i, k)
    requires forall j :: i < j < n ==> !Collides(s, i, j, k)
    ensures CollPass(s, n, k, field)[i] == CorrectInside(s[i], k, field)
  {
    FullSetCountsPartners(s, n, i, k);
    NoPartners(s, i, i, n, k);
  }

  /// Without a partner the counts of `FullSetCountsPartners` are zero.
  lemma {:induction false} NoPartners(s: seq<CharaState>, i: int, P: int, Q: int, k: Kinematics)
    requires 0 <= P <= i < Q <= |s|
    requires forall j :: 0 <= j < i ==> !Collides(s, j, i, k)
    requires forall j :: i < j < Q ==> !Collides(s, i, j, k)
    ensures SecondCount(s, i, P, k) == 0 && FirstCount(s, i, Q, k) == 0
    decreases P + Q
  {
    if P > 0 {
      NoPartners(s, i, P - 1, Q, k);
    } else if Q > i + 1 {
      NoPartners(s, i, P, Q - 1, k);
    }
  }

  /// `procEnd` before the ranking, as a function of the states: every character in
  /// use that is not goal counts the turn and passes the lotuses its move swept.
  function EndPass(s: seq<CharaState>, n: int, lotuses: seq<Circle>, k: Kinematics): (r: seq<CharaState>)
    requires 0 <= n <= |s|
    requires forall i :: 0 <= i < n && !IsGoal(s[i]) ==> InStage(s[i], |lotuses|)
    ensures |r| == |s|
    ensures forall i :: 0 <= i < |s| && (n <= i || IsGoal(s[i])) ==> r[i] == s[i]
    ensures forall i :: 0 <= i < n && !IsGoal(s[i]) ==>
      InStage(r[i], |lotuses|) && r[i].passedTurn == s[i].passedTurn + 1 &&
      PassedLotusCount(s[i], |lotuses|) <= PassedLotusCount(r[i], |lotuses|) &&
      (!IsGoal(r[i]) ==> !HitsTarget(r[i], lotuses, k))
  {
    seq(|s|, i requires 0 <= i < |s| =>
      if i < n && !IsGoal(s[i]) then EndTurn(s[i], lotuses, k) else s[i])
  }

  /// The deciding pass changes nothing of a character but its snapshot and its
  /// decided action.
  lemma DecidePassOnlyDecides(d0: Decisions, kinds: seq<CharaType>, n: int,
                              lotuses: seq<Circle>, field: Field,
                              cpu: (StageView, int, nat) -> CpuResult, answer: StageView -> Action)
    requires Shaped(d0, kinds, n) && Typed(d0.states, kinds, n)
    ensures var r := DecidePass(d0, kinds, n, n, lotuses, field, cpu, answer);
      forall j :: 0 <= j < |d0.states| ==>
        r.states[j] == d0.states[j].(prevPos := r.states[j].prevPos, decided := r.states[j].decided)
  {
    forall j | 0 <= j < |d0.states|
      ensures var r := DecidePass(d0, kinds, n, n, lotuses, field, cpu, answer);
        r.states[j] == d0.states[j].(prevPos := r.states[j].prevPos, decided := r.states[j].decided)
    {
      if j < n && !IsGoal(d0.states[j]) {
        DecidePassSnapped(d0, kinds, n, j, n, lotuses, field, cpu, answer);
      } else {
        DecidePassUntouched(d0, kinds, n, n, j, lotuses, field, cpu, answer);
      }
    }
  }

  /// What the four passes of a turn leave behind, starting from the decisions `d0`
  /// (states, counters, no draws) and the random state `seed0`: the deciding pass
  /// gives `decided`, with every racer decided; acting gives `moved`; the collision
  /// check gives `collided`, with every racer in the stage; the end pass gives `s1`
  /// up to the ranks, and the ranks of the first `n` are as `RanksOk` says. `saves1`
  /// and `seed1` are the counters and random state after deciding.
  ghost predicate TurnDone(d0: Decisions, seed0: Seed, kinds: seq<CharaType>, n: int, lotuses: seq<Circle>,
                           field: Field, k: Kinematics, answer: StageView -> Action,
                           decided: Decisions, moved: seq<CharaState>, collided: seq<CharaState>,
                           s1: seq<CharaState>, saves1: seq<int>, seed1: Seed)
  {
    Shaped(d0, kinds, n) &&
    decided == DecidePass(d0, kinds, n, n, lotuses, field, CpuPolicy(seed0, k), answer) &&
    seed1 == Steps(seed0, decided.draws) && saves1 == decided.saves &&
    (forall i :: 0 <= i < n && !IsGoal(decided.states[i]) ==> IsDecided(decided.states[i].decided)) &&
    moved == ExecPass(decided.states, n, k, field) &&
    collided == CollPass(moved, n, k, field) &&
    (forall i :: 0 <= i < n && !IsGoal(collided[i]) ==> InStage(collided[i], |lotuses|)) &&
    |s1| == |collided| &&
    (forall i :: 0 <= i < |s1| ==> s1[i] == EndPass(collided, n, lotuses, k)[i].(rank := s1[i].rank)) &&
    RanksOk(s1[..n], |lotuses|)
  }
}
