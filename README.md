# Racing simulator core, modelled in Dafny

This project models the discrete core of the HAL procon 2014 racing simulator. Characters race on a
stage through an ordered ring of circular checkpoints called lotuses, for a fixed number of laps.
Each turn, every character decides an action: a human character asks the contestant's policy, and a
CPU character follows a fixed rule drawing from a xorshift generator. Each character then
accelerates if it can, moves, collides with the others, and passes the lotuses its move swept.
After that, the characters are ranked and the stage's state machine decides whether the stage is
complete, failed, out of turns or still playing.

A game plays its stages one after another. For every stage it keeps a record (turns, ranks, lotuses
passed, failure) and a score. Each stage is generated by the level designer on an integer grid
visited in shuffled order.

The model keeps the source's form, module by module:

- **Classes over arrays** model the objects the source updates in place:
  - `Chara`, `CharaCollection`, `Brain`, `Stage`;
  - `LotusCollection`, `TurnResult`, `EnemyAccessor`;
  - `RecordStage`, `Record`, `Game`;
  - `Random`/`RandomSet`, `LevelGrid`.
- **Each method is proved against a specification function** on values:
  - `CharaRules` holds one character;
  - `TurnPasses` holds the four passes of a turn over all characters;
  - `Collisions` holds the collection of collision responses;
  - `Ranking` holds the swap sort of `updateRank`;
  - `Randoms` holds the generator's step and draws;
  - `RecordStages` holds the turn writing and the score formula.
- **Datatypes with functions** model the value types: `Action`, `CharaParam`, `IntVec2` and the
  integer `Math` overloads.

Floating-point quantities (positions, velocities, radii) are reals, and only copied, added,
subtracted and compared. Every float computation is an uninterpreted function field of the
`Geometry.Kinematics` datatype, passed in as a parameter. This covers normalising, moving and
decelerating, rotation, the collision response, the mean velocity, putting a character back inside
the field, and the static and swept hit tests. The float-valued parts of level generation are the
fields of `LevelDesigners.LevelFloats`.

The contestant's policy (`Answer`) is a parameter `answer: StageView -> Action`. The view it gets
is the `StageView` datatype, standing for `StageAccessor`.

`LotusCollection.At` and `EnemyAccessor.At` model the two `operator[]`s, with the index in range as
their precondition. `RecordStage.State`, `Record.States` and `CharaCollection.States` give an
object's fields as a value.

## Model

| member | source | states |
|---|---|---|
| Actions.WaitAction | HPCAction.cpp:17-23 | `Wait()` builds a decided action of kind Wait whose value is the zero vector |
| Actions.AccelAction | HPCAction.cpp:29-35 | `Accel(p)` builds a decided action of kind Accel carrying exactly `p` |
| CharaParams.CreateHuman | HPCCharaParam.cpp:19-26 | The human factory gives kind Human with strength 0, never the reset value |
| CharaParams.CreateCpu | HPCCharaParam.cpp:32-41 | The CPU factory gives kind Cpu with exactly the given strength, never the reset value |
| IntMath.Wrap32 | HPCMath.cpp:111-114 | 32-bit two's-complement wrap-around: the result is an `int` of 32 bits congruent to the input, and equals it when it already fits |
| IntMath.Max | HPCMath.cpp:55-58 | The result is one of the arguments and at least both |
| IntMath.Min | HPCMath.cpp:75-78 | The result is one of the arguments and at most both |
| IntMath.LimitMinMax | HPCMath.cpp:97-100 | With `lo <= hi` the result is in `[lo, hi]`: `v` itself when in range, `lo` below, `hi` above. With `hi < lo` it is `lo` |
| IntMath.Abs | HPCMath.cpp:111-114 | `v` for `v >= 0` and `-v` otherwise, which is non-negative for every `v` but `INT_MIN`; there, where C++ is undefined, the model gives the two's-complement result `INT_MIN` |
| IntVectors.TruncDivRemainder | HPCIntVec2.cpp:97-119 | The remainder of `TruncDiv` is smaller in magnitude than the divisor and has the dividend's sign: C++ truncating division |
| IntVectors.Equals | HPCIntVec2.cpp:46-49 | `==` holds exactly when the two vectors are the same |
| IntVectors.Neg | HPCIntVec2.cpp:52-55 | Unary minus gives the additive inverse: adding it on either side gives the origin |
| IntVectors.AddAssign | HPCIntVec2.cpp:58-64 | `+=` adds componentwise; `Sub` and `SubAssign` state that subtracting undoes it |
| IntVectors.SubAssign | HPCIntVec2.cpp:67-70 | `-=`, written through `+=` and unary minus, agrees with binary `-`, and `+=` of the same vector undoes it |
| IntVectors.Add | HPCIntVec2.cpp:73-79 | Binary `+` is a copy then `+=`; `Sub` states its inverse |
| IntVectors.Sub | HPCIntVec2.cpp:82-85 | Binary `-`, written as `a + (-b)`, is the componentwise difference, and `+ b` undoes it |
| IntVectors.MulAssign | HPCIntVec2.cpp:88-94 | `*=` scales both components; `DivUndoesMul` states that dividing undoes it |
| IntVectors.DivAssign | HPCIntVec2.cpp:97-103 | `/=` divides both components with C++'s truncating division (`TruncDiv`) |
| IntVectors.Mul | HPCIntVec2.cpp:106-111 | Binary `*` is a copy then `*=`; `DivUndoesMul` states its inverse |
| IntVectors.Div | HPCIntVec2.cpp:114-119 | Binary `/` is a copy then `/=`, for a nonzero divisor |
| IntVectors.MulLeft | HPCIntVec2.cpp:122-125 | `k * a`, written as `a * k`, scales each component by `k` |
| IntVectors.TruncDiv | HPCIntVec2.cpp:97-103 | C++ integer division, truncating toward zero; `TruncDivRemainder` states its quotient-remainder law |
| IntVectors.DivUndoesMul | HPCIntVec2.cpp:97-119 | For nonzero `k`, `(a * k) / k == a` under truncating division |
| TurnResults.TurnResult.constructor | HPCTurnResult.cpp:21-26 | A new result has every entry zeroed and state TERM |
| TurnResults.TurnResult.Reset | HPCTurnResult.cpp:30-39 | All `CharaCountMax` entries are zeroed (position, budget, passed lotuses) and the state is TERM |
| TurnResults.TurnResult.Set | HPCTurnResult.cpp:46-52 | Every entry and the state are copied from the source, which may be the same object |
| Lotuses.LotusCollection.constructor | HPCLotusCollection.cpp:21-25 | No lotus is in use, and every slot is a base-radius lotus at the origin |
| Lotuses.LotusCollection.Reset | HPCLotusCollection.cpp:45-51 | The count becomes 0. Every slot moves to the origin and keeps its radius |
| Lotuses.LotusCollection.Set | HPCLotusCollection.cpp:31-40 | The lotuses in use, count included, equal the source's. The remaining slots are reset |
| Lotuses.LotusCollection.SetupAddLotus | HPCLotusCollection.cpp:56-59 | The lotuses in use gain exactly one lotus at the end, and no other slot changes |
| Lotuses.LotusCollection.At | HPCLotusCollection.cpp:72-86 | `operator[]`: the lotus at an index in use; an index outside `[0, count)` is excluded, as the source's range assertion does |
| Enemies.Others | HPCEnemyAccessor.cpp:37-44 | The indices below `n` other than the player's, each once, in increasing order: `n - 1` of them when the player index is in range |
| Enemies.Pick | HPCEnemyAccessor.cpp:37-44 | The enemies of the player among the items are those at the indices `Others` lists, in that order |
| Enemies.EnemyAccessor.constructor | HPCEnemyAccessor.cpp:21-25 | A new accessor has no enemy |
| Enemies.EnemyAccessor.Init | HPCEnemyAccessor.cpp:32-48 | Restarting from zero, the enemies are exactly `Others(charaCount, player)`, so there are `charaCount - 1` of them and `init` is idempotent |
| Enemies.EnemyAccessor.At | HPCEnemyAccessor.cpp:61-65 | `operator[]`: the enemy at an index in use; an index outside `[0, count)` is excluded, as the source's range assertion does |
| Randoms.Step | HPCRandom.cpp:72-78 | One xorshift step moves the old Y word into X |
| Randoms.StepsAdd | HPCRandom.cpp:72-78 | `m` steps followed by `j` steps are `m + j` steps |
| Randoms.Steps | HPCRandom.cpp:72-78 | `k` calls of `randCoreU32` in a row; `StepsAdd` and `StepsThree` state how they compose |
| Randoms.Term | HPCRandom.cpp:33-37 | The low 31 bits modulo `n > 0` lie in `[0, n)` |
| Randoms.TermDraw | HPCRandom.cpp:33-37 | `randTerm(n)` gives a value in `[0, n)` after exactly one step |
| Randoms.MinTermDraw | HPCRandom.cpp:46-50 | `randMinTerm(lo, t)` with `lo <= t - 1` gives a value in `[lo, t)` after exactly one step |
| Randoms.MinMaxDraw | HPCRandom.cpp:59-63 | `randMinMax(lo, hi)` with `lo <= hi` gives a value in `[lo, hi]` after exactly one step |
| Randoms.Random.constructor | HPCRandom.cpp:21-25 | The state is the given seed words |
| Randoms.Random.RandCoreU32 | HPCRandom.cpp:72-78 | The state advances by exactly one step and the returned word is the new Y word |
| Randoms.Random.RandTerm | HPCRandom.cpp:33-37 | The value is in `[0, n)` and the state moves as `TermDraw` says, so equal seeds give equal sequences |
| Randoms.Random.RandMinTerm | HPCRandom.cpp:46-50 | The value is in `[lo, t)` and the state moves as `MinTermDraw` says |
| Randoms.Random.RandMinMax | HPCRandom.cpp:59-63 | The value is in `[lo, hi]` and the state moves as `MinMaxDraw` says |
| Randoms.RandomSet.constructor | HPCRandomSet.cpp:21-25 | The system generator is seeded with `(x, y)` and the game generator with `(z, w)`. They are two distinct fresh objects, so a draw on one leaves the other alone |
| Brains.SlurDeg | HPCBrain.cpp:131-133 | The slur angle is between 17 and 20 degrees in magnitude, with either sign, and takes exactly two steps, whichever draw comes first |
| Brains.CpuDecide | HPCBrain.cpp:123-164 | Three draws always come first, and the action is always decided. With no budget, it waits and the counter is unchanged. A counter that starts in `[0, CpuSaveAccelTurnMax]` stays there. The save branch below the limit waits and counts one up. Otherwise the counter restarts from 0, and the CPU waits when the target is at its position. It accelerates only with budget, a counter at 0 and the target elsewhere |
| Brains.SaveLimitForcesAction | HPCBrain.cpp:143-149 | With budget left, a counter at `CpuSaveAccelTurnMax` always takes the non-saving path and restarts from 0 |
| Brains.Brain.constructor | HPCBrain.cpp:32-37 | A new brain has counter 0 and no parameter |
| Brains.Brain.Reset | HPCBrain.cpp:41-44 | The parameter is forgotten and the counter is left as it is |
| Brains.Brain.Setup | HPCBrain.cpp:50-53 | The parameter is taken and the counter is left as it is |
| Brains.Brain.InitCpu | HPCBrain.cpp:110-113 | The counter restarts from 0 |
| Brains.Brain.Init | HPCBrain.cpp:60-76 | A CPU restarts its counter from 0, and a human's counter is untouched |
| Brains.Brain.GetCpuNextAction | HPCBrain.cpp:123-164 | The action, the new counter and the new generator state are those of `CpuDecide` |
| Brains.Brain.GetNextAction | HPCBrain.cpp:86-103 | A human returns the policy's answer and draws nothing. A CPU behaves as `CpuDecide` says. The parameter is kept |
| CharaRules.ResetStartsRace | HPCChara.cpp:160-173 | A reset character is valid, not goal, and has passed nothing in 0 turns. It holds the initial budget, with both wait counters at `CharaAddAccelWaitTurn` |
| CharaRules.Reset | HPCChara.cpp:160-173 | `reset`: the character's fields back to their start values; `ResetStartsRace` states what that means for the race |
| CharaRules.Trunc | HPCChara.cpp:180-191 | `static_cast<int>` truncates toward zero |
| CharaRules.WaitTurnMaxRange | HPCChara.cpp:180-191 | Strengths 0 to 100 give a recharge period from 10 down to 8 turns, never longer for a stronger character |
| CharaRules.WaitTurnMax | HPCChara.cpp:180-191 | The recharge period `CharaAddAccelWaitTurn - (int)(strength / 100 * 2 + 0.5)`; `WaitTurnMaxRange` states its range and monotonicity |
| CharaRules.Setup | HPCChara.cpp:180-191 | Both regions are placed at the position, validity is kept, and a strength in `[0, 100]` gives a period in `[8, CharaAddAccelWaitTurn]` |
| CharaRules.UpdateTurn | HPCChara.cpp:114-124 | Exactly one more passed turn, and nothing but the budget and wait counter change. When the countdown runs out, the budget grows to `min(budget + 1, max)` and the countdown restarts from its maximum. Otherwise the budget is unchanged and the countdown drops by one |
| CharaRules.Turns | HPCChara.cpp:114-124 | Repeated turns never make a character goal |
| CharaRules.RechargePeriod | HPCChara.cpp:119-123 | From a countdown of `w`, the budget is unchanged for `w - 1` turns and grows by exactly one, capped, on turn `w`, when the countdown restarts |
| CharaRules.IncTarget | HPCChara.cpp:195-203 | The target stays in `[0, n)`, wrapping to 0 and adding a lap exactly when it reaches `n`. The passed-lotus count grows by exactly one |
| CharaRules.AccelIfPossible | HPCChara.cpp:313-331 | With no budget, or a target equal to the position, nothing changes. Otherwise the budget drops by exactly one and the velocity is replaced by the acceleration toward the target |
| CharaRules.ExecAction | HPCChara.cpp:63-82 | Wait changes nothing, Accel goes through the gate, and the decided action is reset either way |
| CharaRules.Move | HPCChara.cpp:86-103 | Moving keeps a character valid |
| CharaRules.CorrectInside | HPCChara.cpp:129-156 | A character inside the field is untouched. One outside changes only its position and has its velocity stopped |
| CharaRules.PassLotuses | HPCCharaCollection.cpp:251-262 | Only the target and laps change. The passed count never decreases and the target stays in range. A goal character, or one whose swept region misses its target, is untouched |
| CharaRules.EndTurn | HPCCharaCollection.cpp:244-262 | One more passed turn, the target still in range, and a passed count that never decreases |
| CharaRules.IncTargetCounts | HPCChara.cpp:290-293 | `passedLotusCount` counts `incTargetLotusNo` calls exactly: `j` calls add `j` |
| CharaRules.GoalAfterAllLaps | HPCChara.cpp:248-251 | A character is goal exactly when it has passed `StageRoundCount * n` lotuses |
| CharaRules.IsGoal | HPCChara.cpp:247-250 | `isGoal`: all `StageRoundCount` laps are done; `GoalAfterAllLaps` ties it to the passed-lotus count |
| CharaRules.PassedLotusCount | HPCChara.cpp:289-292 | `passedLotusCount`: laps times the stage's lotus count plus the target; `PassedLotusOrder` gives its meaning |
| CharaRules.PassedLotusOrder | HPCChara.cpp:289-292 | On one stage, one character has passed fewer lotuses than another exactly when it has done fewer laps, or as many laps with an earlier target |
| Charas.Chara.constructor | HPCChara.cpp:23-39 | A new character is in the initial state with a fresh brain that has no parameter |
| Charas.Chara.Reset | HPCChara.cpp:160-173 | The state becomes `CharaRules.Reset` of the old one, and the brain forgets its parameter |
| Charas.Chara.Setup | HPCChara.cpp:180-191 | The state becomes `CharaRules.Setup`, and the brain takes the parameter |
| Charas.Chara.Init | HPCChara.cpp:45-49 | The brain is prepared as `Brain.Init` says |
| Charas.Chara.DecideAction | HPCChara.cpp:53-59 | The previous region becomes the current one, then the action is the brain's answer to a view of the character after the snapshot |
| Charas.Chara.AccelIfPossible | HPCChara.cpp:313-331 | The new state is `CharaRules.AccelIfPossible` of the old one |
| Charas.Chara.ExecAction | HPCChara.cpp:63-82 | The new state is `CharaRules.ExecAction` of the old one |
| Charas.Chara.Move | HPCChara.cpp:86-103 | The new state is `CharaRules.Move` of the old one |
| Charas.Chara.Separation | HPCChara.cpp:107-110 | Only the position moves, by the offset |
| Charas.Chara.SetVel | HPCChara.cpp:209-212 | Only the velocity changes |
| Charas.Chara.SetRank | HPCChara.cpp:218-221 | Only the rank changes |
| Charas.Chara.CorrectInside | HPCChara.cpp:129-156 | The new state is `CharaRules.CorrectInside` of the old one |
| Charas.Chara.UpdateTurn | HPCChara.cpp:114-124 | On a character that is not goal, the new state is `CharaRules.UpdateTurn` of the old one |
| Charas.Chara.IncTargetLotusNo | HPCChara.cpp:195-203 | The new state is `CharaRules.IncTarget` of the old one |
| Charas.Chara.IsGoal | HPCChara.cpp:247-250 | True exactly when `CharaRules.IsGoal` holds of the character's state |
| Charas.Chara.PassedLotusCount | HPCChara.cpp:289-292 | Equals `CharaRules.PassedLotusCount` of the character's state on a stage of `lotusCount` lotuses |
| Collisions.AddVel | HPCCharaCollection.cpp:36-41 | Exactly one entry is added, after the old ones, and the offset is summed; the room the source asserts is asserted at the call in `CollectPair` |
| Collisions.AsSecond | HPCCharaCollection.cpp:155-203 | What a character collects as the second of a pair is at most one entry per earlier character, and nothing when it is goal |
| Collisions.AsFirst | HPCCharaCollection.cpp:155-203 | What a character collects as the first of a pair is at most one entry per later character, and nothing when it is goal |
| Collisions.Collected | HPCCharaCollection.cpp:155-203 | Partway through the nested loop, a set holds at most `n - 1` entries |
| Collisions.FullSet | HPCCharaCollection.cpp:155-203 | The set after the whole nested loop is the set collected over every pair |
| Collisions.FullSetBound | HPCCharaCollection.cpp:36-41 | Every set holds at most `n - 1 < CharaCountMax` entries, so `addVel`'s assertion always holds |
| Collisions.FullSetCountsPartners | HPCCharaCollection.cpp:155-203 | A set holds exactly one entry per character it collides with |
| Collisions.SecondCountIs | HPCCharaCollection.cpp:155-203 | The entries collected as second member are exactly the earlier colliding characters |
| Collisions.FirstCountIs | HPCCharaCollection.cpp:155-203 | The entries collected as first member are exactly the later colliding characters |
| Collisions.Absorb | HPCCharaCollection.cpp:206-222 | An empty set leaves the character untouched. Otherwise it takes the mean velocity and moves by the summed offset |
| Collisions.AfterCollisions | HPCCharaCollection.cpp:206-234 | With an empty set the character is only put back inside the field. Validity is kept |
| Collisions.CollectedStart | HPCCharaCollection.cpp:153 | Before the loop every set is empty |
| Collisions.CollectedStep | HPCCharaCollection.cpp:166-201 | Visiting pair `(a, b)` adds one entry to each member's set when they collide, and changes nothing otherwise |
| Collisions.CollectedNext | HPCCharaCollection.cpp:155-203 | The end of the inner loop for `a` is the start of the one for `a + 1` |
| Collisions.CollectedSkip | HPCCharaCollection.cpp:159-161 | Skipping a goal character collects what running its inner loop would |
| TurnPasses.GoalsIn | HPCCharaCollection.cpp:331-342 | The goal count is at most the number of characters |
| TurnPasses.GoalsInCounts | HPCCharaCollection.cpp:331-342 | The count equals the number of characters exactly when all are goal. It is one short exactly when exactly one is not goal |
| TurnPasses.GoalsInAll | HPCCharaCollection.cpp:331-342 | The goal count equals the number of characters exactly when every one is goal |
| TurnPasses.GoalsInOneLeft | HPCCharaCollection.cpp:331-342 | The goal count is one short exactly when exactly one character is not goal |
| TurnPasses.CpusBefore | HPCBrain.cpp:131-134 | At most one CPU per earlier slot draws |
| TurnPasses.RanksFromOrder | HPCCharaCollection.cpp:366-391 | Ranking by place in an order sorted by `IsHighOrder` lists the ranks `0 .. n-1` once each, and nobody ranks ahead of a character with a smaller rank |
| TurnPasses.DecidePass | HPCCharaCollection.cpp:100-112 | The pass keeps the number of characters, counters and types |
| TurnPasses.DecideOneStep | HPCChara.cpp:53-59 | One decision is the snapshot plus the policy's answer to the view and seed of its turn |
| TurnPasses.DecideOneIs | HPCChara.cpp:53-59 | Conversely, the snapshot and the answer determine the decision |
| TurnPasses.DecideOneFrame | HPCCharaCollection.cpp:100-112 | A decision changes only the deciding character, and a CPU draws exactly three numbers |
| TurnPasses.DecidePassUntouched | HPCCharaCollection.cpp:106-108 | Goal characters, and characters whose turn has not come, are untouched |
| TurnPasses.DecidePassKeeps | HPCCharaCollection.cpp:102-111 | Once a character has decided, the rest of the pass leaves it alone |
| TurnPasses.DecidePassSnapped | HPCCharaCollection.cpp:102-111 | After its turn, a racer has only taken its snapshot and decided |
| TurnPasses.DecidePassDraws | HPCBrain.cpp:131-134 | The pass takes exactly three draws per deciding CPU |
| TurnPasses.DecidePassStep | HPCCharaCollection.cpp:100-112 | Each racer decides from the view `ViewAt` describes, with the seed left by three draws per earlier CPU |
| TurnPasses.DecidePassTurn | HPCCharaCollection.cpp:100-112 | `DecidePassStep` holds at the end of the character's own turn |
| TurnPasses.DecidePassShows | HPCCharaCollection.cpp:100-112 | When its turn comes, a character sees the earlier ones after their decisions and the later ones as they were |
| TurnPasses.CpuPolicyDecides | HPCBrain.cpp:123-164 | The CPU policy always answers with a decided action |
| TurnPasses.DecidePassDecides | HPCStage.cpp:80-83 | When both policies answer decided actions, every racer leaves the pass decided, ready for `procExecAction` |
| TurnPasses.ExecPass | HPCCharaCollection.cpp:116-131 | Goal characters and unused slots are untouched. A racer changes only its motion fields, budget and decided action, and stays valid |
| TurnPasses.CollPass | HPCCharaCollection.cpp:135-235 | Goal characters and unused slots are untouched, and a racer changes only its position and velocity. Validity is kept |
| TurnPasses.CollPassAlone | HPCCharaCollection.cpp:206-234 | A racer that collides with nobody keeps its velocity and position through the collision step and is only put back inside the field |
| TurnPasses.NoPartners | HPCCharaCollection.cpp:155-203 | Without a partner, nothing is collected |
| TurnPasses.EndPass | HPCCharaCollection.cpp:239-263 | Goal characters and unused slots are untouched. A racer counts one more turn, keeps its target in range and never loses passed lotuses |
| TurnPasses.DecidePassOnlyDecides | HPCCharaCollection.cpp:100-112 | The deciding pass changes only each character's snapshot and decided action |
| Ranking.HigherOrder | HPCCharaCollection.cpp:60-84 | `IsHighOrder`: goal before not goal, then fewer turns among goal characters, more lotuses passed among the rest; `StrictOrder` proves it a strict order |
| Ranking.StrictOrder | HPCCharaCollection.cpp:60-84 | `IsHighOrder` is irreflexive, asymmetric and transitive |
| Ranking.SwapPerm | HPCCharaCollection.cpp:375-385 | A swap keeps a permutation, with its inverse updated |
| Ranking.SwapKeepsSettled | HPCCharaCollection.cpp:375-385 | A swap behind the settled prefix keeps it settled |
| Ranking.StepKeepsHead | HPCCharaCollection.cpp:377-384 | One step of the inner loop keeps the head ahead of every entry visited |
| Ranking.PlaceHead | HPCCharaCollection.cpp:375-385 | One outer pass keeps a permutation and settles one more position |
| Ranking.SortOrder | HPCCharaCollection.cpp:366-391 | The exchange sort lists every index once, and no later entry ranks ahead of an earlier one |
| CharaCollections.CharaCollection.States | HPCCharaCollection.cpp:348-362 | There are `CharaCountMax` character slots |
| CharaCollections.CharaCollection.Saves | HPCBrain.cpp:25 | There are `CharaCountMax` saving counters |
| CharaCollections.CharaCollection.constructor | HPCCharaCollection.cpp:91-96 | `CharaCountMax` fresh characters in the initial state, no types, none in use |
| CharaCollections.CharaCollection.Reset | HPCCharaCollection.cpp:273-280 | Every slot is reset and its type cleared, and none is in use |
| CharaCollections.CharaCollection.ResetAt | HPCCharaCollection.cpp:273-280 | One slot is reset and the others are untouched |
| CharaCollections.CharaCollection.ProcTurn | HPCStage.cpp:80-89 | Decide, act, collide and end, in that order. The states after each pass are those of `DecidePass`, `ExecPass`, `CollPass` and `EndPass`, with the ranks as `RanksOk` says |
| CharaCollections.CharaCollection.DecideTurn | HPCCharaCollection.cpp:100-112 | The deciding pass as `DecidePass` says, leaving every racer decided |
| CharaCollections.CharaCollection.ActTurn | HPCStage.cpp:83-89 | Act, collide and end as `ExecPass`, `CollPass` and `EndPass` say |
| CharaCollections.CharaCollection.MoveAndCollide | HPCStage.cpp:83-86 | The states become `CollPass` of `ExecPass`, and every target is kept |
| CharaCollections.CharaCollection.ProcDecideAction | HPCCharaCollection.cpp:100-112 | The states, counters and generator end as `DecidePass` says, with each CPU taking the next three draws |
| CharaCollections.CharaCollection.DecideNext | HPCCharaCollection.cpp:103-110 | One turn of the loop takes the states, counters and generator from `DecidePass` up to `index` to `DecidePass` up to `index + 1`, leaving the types and count alone |
| CharaCollections.CharaCollection.DecideAt | HPCCharaCollection.cpp:103-110 | One character decides from its view, and the rest are untouched |
| CharaCollections.CharaCollection.ProcExecAction | HPCCharaCollection.cpp:116-131 | The states become `ExecPass` of the old ones |
| CharaCollections.CharaCollection.ExecAt | HPCCharaCollection.cpp:119-129 | One slot acts and moves, and the rest are untouched |
| CharaCollections.CharaCollection.ProcCheckColl | HPCCharaCollection.cpp:135-235 | The states become `CollPass` of the old ones |
| CharaCollections.CharaCollection.AbsorbAll | HPCCharaCollection.cpp:206-222 | Each racer absorbs its set as `Absorb` says, and the others are untouched |
| CharaCollections.CharaCollection.CorrectAll | HPCCharaCollection.cpp:225-234 | Each racer is put back inside the field, and the others are untouched |
| CharaCollections.CharaCollection.CollectVels | HPCCharaCollection.cpp:153-203 | Each character's set is `FullSet`, the set collected over every pair |
| CharaCollections.CharaCollection.CollectFrom | HPCCharaCollection.cpp:166-202 | The inner loop for `a` takes every set from what the pairs before `(a, a + 1)` leave to what the pairs before `(a + 1, a + 2)` leave |
| CharaCollections.CharaCollection.CollectPair | HPCCharaCollection.cpp:167-201 | One pair `(a, b)` takes every set from what the pairs before it leave to what the pairs up to it leave, adding the response to both members exactly when they collide |
| CharaCollections.CharaCollection.AbsorbAt | HPCCharaCollection.cpp:215-221 | One slot absorbs its set, and the rest are untouched |
| CharaCollections.CharaCollection.CorrectAt | HPCCharaCollection.cpp:226-233 | One slot is put back inside the field, and the rest are untouched |
| CharaCollections.CharaCollection.ProcEnd | HPCCharaCollection.cpp:239-268 | The states are `EndPass` of the old ones except for the ranks, which `updateRank` sets as `RanksOk` says. Unused slots are untouched |
| CharaCollections.CharaCollection.EndAll | HPCCharaCollection.cpp:240-263 | The states become `EndPass` of the old ones |
| CharaCollections.CharaCollection.EndAt | HPCCharaCollection.cpp:241-262 | One slot ends its turn, and the rest are untouched |
| CharaCollections.CharaCollection.InitAll | HPCStage.cpp:54-56 | Each CPU in use restarts its counter. Other counters and all states are untouched |
| CharaCollections.CharaCollection.InitAt | HPCStage.cpp:54-56 | One slot's brain is prepared |
| CharaCollections.CharaCollection.SetupAddChara | HPCCharaCollection.cpp:285-294 | Slot `count` is set up with the parameter and type, the count grows by one, and every other slot is untouched |
| CharaCollections.CharaCollection.IsAllHumanGoal | HPCCharaCollection.cpp:305-327 | True exactly when a human is in use and every human in use is goal |
| CharaCollections.CharaCollection.At | HPCCharaCollection.cpp:348-362 | `operator[]`: the character in slot `index`, readable only for `0 <= index < count`, as the source's range assertion demands |
| CharaCollections.CharaCollection.GoalCount | HPCCharaCollection.cpp:331-342 | The number of goal characters in use, at most the count |
| CharaCollections.CharaCollection.UpdateRank | HPCCharaCollection.cpp:366-391 | Only ranks change, and unused slots are untouched. The ranks in use are a permutation of `0 .. count-1` with nobody ranked behind a character it is `IsHighOrder`-ahead of |
| CharaCollections.CharaCollection.AssignRanks | HPCCharaCollection.cpp:387-390 | The character at place `p` of the order gets rank `p`, and nothing else changes |
| CharaCollections.CharaCollection.RankAt | HPCCharaCollection.cpp:388-389 | One slot's rank is set |
| CharaCollections.PassLotusesOf | HPCCharaCollection.cpp:251-262 | The state becomes `PassLotuses` of the old one |
| CharaCollections.NewCharas | HPCCharaCollection.cpp:91-96 | `CharaCountMax` distinct fresh characters with distinct brains, all in the initial state |
| Stages.OutcomeMeaning | HPCStage.cpp:94-112 | Complete exactly when all humans are goal, checked first. Failed exactly when not, and exactly one racer is left. TurnLimit exactly when neither holds and the counter reaches `GameTurnPerStage`. Playing otherwise. The counter advances exactly when neither Complete nor Failed fired |
| Stages.Outcome | HPCStage.cpp:94-112 | The state and turn counter `runTurn` leaves; `OutcomeMeaning` states which state is reached when |
| Stages.AllHumansGoal | HPCCharaCollection.cpp:305-327 | Some human is in use and every human in use is goal, the condition `runTurn` checks first |
| Stages.ResultOf | HPCStage.cpp:154-161 | One entry copies position, budget and passed-lotus count |
| Stages.Stage.constructor | HPCStage.cpp:22-29 | A new stage has no character, no lotus, an empty field, state TERM and turn 0 |
| Stages.Stage.Reset | HPCStage.cpp:33-40 | Every part is cleared, every character reset, and the turn index is 0 |
| Stages.Stage.Start | HPCStage.cpp:48-59 | Playing from turn 0. The CPUs in use restart their counters, the states are unchanged, and the turn result is refreshed |
| Stages.Stage.UpdateTurnResult | HPCStage.cpp:154-161 | Exactly the first `count` entries are refreshed from the characters, and the rest are untouched |
| Stages.Stage.RunTurn | HPCStage.cpp:74-113 | From Playing, the four passes run in order as `TurnDone` says, the turn result is refreshed from the characters in use (zero beyond `count`), then the state and counter become `Outcome`'s |
| Stages.Stage.Play | HPCStage.cpp:79-89 | The four passes as `TurnDone` says, keeping the stage ready |
| Stages.Stage.Conclude | HPCStage.cpp:94-112 | The state and counter become `Outcome`'s, and the characters are untouched |
| Stages.Stage.CheckOutcome | HPCStage.cpp:94-112 | The new state and counter are `Outcome` of the characters |
| RecordStages.LotusScoreMonotone | HPCRecordStage.cpp:105-107 | The passed-lotus score `(p / StageRoundCount)^2` is non-negative and never decreases with `p` |
| RecordStages.LotusScore | HPCRecordStage.cpp:105-107 | The square of the passed-lotus count divided by `StageRoundCount`, truncating; `LotusScoreMonotone` states its bounds and monotonicity |
| RecordStages.ScoreOf | HPCRecordStage.cpp:90-118 | The score formula over reals; `ScoreNonNegative` and the monotonicity lemmas state its properties |
| RecordStages.ScoreNonNegative | HPCRecordStage.cpp:90-118 | A score is never negative |
| RecordStages.MoreLotusesScoreHigher | HPCRecordStage.cpp:90-118 | All else equal, passing more lotuses never lowers the score |
| RecordStages.FewerTurnsScoreHigher | HPCRecordStage.cpp:104-109 | On a cleared stage, fewer turns never lower the score |
| RecordStages.ClearingBeatsFailing | HPCRecordStage.cpp:104-116 | Clearing within the allowance never scores less than failing, with the same lotuses |
| RecordStages.BetterRankScoresHigher | HPCRecordStage.cpp:111-116 | A better rank never lowers a cleared stage's score, and raises it once a round is complete |
| RecordStages.WriteTurnsMeaning | HPCRecordStage.cpp:57-71 | Writing turns advances the counter by their number and touches nothing else. The stage is failed exactly when it was already, or some turn was Failed or TurnLimit: failure is sticky |
| RecordStages.WriteTurnOf | HPCRecordStage.cpp:57-71 | One turn written: the counter advances and a failed or timed-out state marks the stage failed; `WriteTurnsMeaning` states its effect |
| RecordStages.WriteTurns | HPCRecordStage.cpp:57-71 | A sequence of turns written in order; `WriteTurnsMeaning` states its effect |
| RecordStages.EndWith | HPCRecordStage.cpp:77-86 | The end of a stage: the first `charaCount` ranks copied and the lotus count recorded; `RecordStage.WriteEnd` states it per field |
| RecordStages.RanksIn | HPCRecordStage.cpp:80-82 | Every character's rank, in order |
| RecordStages.RecordStage.constructor | HPCRecordStage.cpp:21-34 | Nothing recorded: every count is zero and the stage is not failed |
| RecordStages.RecordStage.WriteStart | HPCRecordStage.cpp:40-51 | Only the character count changes |
| RecordStages.RecordStage.WriteTurn | HPCRecordStage.cpp:57-71 | The record becomes `WriteTurnOf` of the old one (see `WriteTurnsMeaning`) |
| RecordStages.RecordStage.WriteEnd | HPCRecordStage.cpp:77-86 | The first `charaCount` ranks are copied and the rest kept, with the player's passed-lotus count |
| RecordStages.RecordStage.Score | HPCRecordStage.cpp:90-118 | The score is never negative |
| Records.SumScoresNonNegative | HPCRecord.cpp:69-80 | The total is never negative |
| Records.SumScoresMonotone | HPCRecord.cpp:69-80 | A better stage score never lowers the total |
| Records.SumScoresFront | HPCRecord.cpp:69-80 | The total is the first score plus the total of the rest |
| Records.SumScores | HPCRecord.cpp:75-78 | The sum of the stage scores over reals; the three lemmas above state its properties |
| Records.TruncReal | HPCRecord.cpp:79 | `static_cast<int>` of a non-negative value is its floor, and of a negative value its ceiling: truncation toward zero |
| Records.Record.States | HPCRecord.cpp:20-24 | One record per stage |
| Records.Record.constructor | HPCRecord.cpp:20-24 | Every stage's record is empty, and stage 0 is current |
| Records.Record.NewStages | HPCRecord.cpp:20-24 | `GameStageCount` distinct, fresh, empty records |
| Records.Record.WriteStartStage | HPCRecord.cpp:33-39 | The index becomes current and only its record changes, gaining the character count |
| Records.Record.WriteTurn | HPCRecord.cpp:47-50 | Only the current record changes, as `WriteTurnOf` says |
| Records.Record.WriteEndStage | HPCRecord.cpp:58-61 | Only the current record changes, gaining the ranks and the player's passed lotuses |
| Records.Record.Score | HPCRecord.cpp:69-80 | The integer truncation of the sum of all stage scores, which is never negative |
| LevelGrids.AxisToIndexRoundTrip | HPCLevelGrid.cpp:256-273 | Every in-range position has an index below the surface, and `indexToAxis` returns the position |
| LevelGrids.IndexToAxisRoundTrip | HPCLevelGrid.cpp:256-273 | Every index below the surface maps to an in-range position, and `axisToIndex` returns the index |
| LevelGrids.AxisToIndex | HPCLevelGrid.cpp:256-259 | `axisToIndex`: row-major index `width * y + x`; the round-trip lemmas state its inverse |
| LevelGrids.IndexToAxis | HPCLevelGrid.cpp:267-273 | `indexToAxis` with C++'s truncating `%` and `/`; the round-trip lemmas state its inverse |
| LevelGrids.SurfaceBounds | HPCLevelGrid.cpp:73-104 | A grid has between 1 and `CellCountMax` cells |
| Swaps.Swap | HPCLevelGrid.cpp:29-34 | Exactly the two entries are exchanged |
| LevelGrids.Numbers | HPCLevelGrid.cpp:84-88 | The numbers `0 .. n-1` in order |
| LevelGrids.PermutedNumbers | HPCLevelGrid.cpp:44-51 | A permutation of `0 .. n-1` holds only numbers below `n` |
| Swaps.SwapPermutes | HPCLevelGrid.cpp:29-34 | A swap keeps the multiset |
| LevelGrids.ShufflePermutes | HPCLevelGrid.cpp:44-51 | The shuffle keeps the length and the multiset |
| LevelGrids.ShuffleDraws | HPCLevelGrid.cpp:44-51 | The shuffle takes exactly one draw per swap |
| LevelGrids.Shuffle | HPCLevelGrid.cpp:44-51 | The swap loop of the shuffle as a function; `ShufflePermutes` and `ShuffleDraws` state its properties |
| LevelGrids.ShuffleArray | HPCLevelGrid.cpp:44-51 | The first `count` entries are shuffled as `Shuffle` says, with `count - 1` draws, and the rest of the array is untouched |
| LevelGrids.LevelGrid.CellOf | HPCLevelGrid.cpp:256-259 | The cell at a position's index sits at that position, and is occupied exactly when the position is |
| LevelGrids.LevelGrid.NoneOccupied | HPCLevelGrid.cpp:73-104 | With no cell marked, the occupied set is empty |
| LevelGrids.LevelGrid.constructor | HPCLevelGrid.cpp:73-104 | Every cell is numbered and placed, the random order is `Shuffle` of `0 .. surface-1` with `surface - 1` draws, and exactly the cells within the margin of an edge are occupied |
| LevelGrids.LevelGrid.NewCells | HPCLevelGrid.cpp:80-89 | Every cell in use gets its number and position, and the random order starts as `0 .. surface-1` |
| LevelGrids.LevelGrid.MarkMargin | HPCLevelGrid.cpp:90-103 | Starting empty, exactly the cells within the margin become occupied |
| LevelGrids.LevelGrid.Occupy | HPCLevelGrid.cpp:114-121 | The occupied set gains exactly that cell |
| LevelGrids.LevelGrid.SetOccupied | HPCLevelGrid.cpp:114-121 | The occupied set gains exactly the position |
| LevelGrids.LevelGrid.SetOccupiedRect | HPCLevelGrid.cpp:133-140 | The occupied set gains exactly the rectangle, so occupancy is monotone |
| LevelGrids.LevelGrid.IsAvailable | HPCLevelGrid.cpp:210-222 | True exactly when the position is in range and not occupied |
| LevelGrids.LevelGrid.IsAvailableRect | HPCLevelGrid.cpp:233-247 | True exactly when every cell of the `w` by `h` rectangle is in range and free |
| LevelGrids.LevelGrid.FindAvailableRandCell | HPCLevelGrid.cpp:150-164 | The first cell in random order whose rectangle fits. `None` exactly when none fits |
| LevelGrids.LevelGrid.SetRandomOccupied | HPCLevelGrid.cpp:187-201 | The rectangle at the first fitting cell, all free before, becomes occupied and nothing else changes. `None`, with nothing changed, when nothing fits |
| LevelGrids.LevelGrid.SetRandomOccupiedCell | HPCLevelGrid.cpp:170-177 | The first free cell in random order becomes occupied and nothing else changes. `None`, with nothing changed, when all are occupied |
| LevelDesigners.StageGridSizeBounds | HPCLevelDesigner.cpp:39-55 | Width is in `[10, 21]`, height in `[9, 21]`, within `CellSizeMax`. From stage 30 on it is 21 by 21 |
| LevelDesigners.StageGridGrows | HPCLevelDesigner.cpp:39-55 | A later stage never has a smaller grid |
| LevelDesigners.StageGridSize | HPCLevelDesigner.cpp:39-55 | `GetStageGridSize`: the grid size table; `StageGridSizeBounds` and `StageGridGrows` state its properties |
| LevelDesigners.BattleCharaCountMeaning | HPCLevelDesigner.cpp:91-98 | Between `CharaCountMin` and `CharaCountMax` characters (2, 3, then 4 from stages 15 and 30), never fewer later |
| LevelDesigners.BattleCharaCount | HPCLevelDesigner.cpp:91-98 | The number of racers in a stage; `BattleCharaCountMeaning` states its values |
| LevelDesigners.RandomLotusCountMeaning | HPCLevelDesigner.cpp:132-143 | Between 3 and `LotusCountMax` lotuses, never fewer later, so the assertion at line 246 holds |
| LevelDesigners.RandomLotusCount | HPCLevelDesigner.cpp:132-143 | The number of lotuses in a stage; `RandomLotusCountMeaning` states its bounds |
| LevelDesigners.LotusSizeDrawMeaning | HPCLevelDesigner.cpp:159-192 | A size from the stage's table in `[1, LotusSizeMax]` with exactly one draw. Always 2 for stages 0-4, and 2 or 3 for stages 5-9 |
| LevelDesigners.LotusSizeTable | HPCLevelDesigner.cpp:159-192 | The lotus size table of each stage range |
| LevelDesigners.LotusSizeDraw | HPCLevelDesigner.cpp:159-192 | One entry of the stage's size table drawn with `randTerm`; `LotusSizeDrawMeaning` states its range and draw count |
| LevelDesigners.GetRandomLotusSize | HPCLevelDesigner.cpp:159-192 | The size and new state are `LotusSizeDraw`'s |
| LevelDesigners.LaidStep | HPCLevelDesigner.cpp:248-262 | The next lotus, with the next draw, extends the lotuses laid so far |
| LevelDesigners.Widths | HPCLevelDesigner.cpp:255 | One width per size |
| LevelDesigners.WidthsSnoc | HPCLevelDesigner.cpp:255 | One more lotus adds its width at the end |
| LevelDesigners.PlaceKeepsApart | HPCLevelDesigner.cpp:248-262 | Placing on free cells keeps the squares apart, in the grid and covered |
| LevelDesigners.PlaceLotus | HPCLevelDesigner.cpp:249-261 | One lotus is added, its size drawn from the stage's table, at the centre of a free square it occupies, or of the square at cell (0, 0) with the grid unchanged when none is free |
| LevelDesigners.PlaceLotuses | HPCLevelDesigner.cpp:244-262 | `RandomLotusCount` lotuses, one draw each, whose squares lie apart inside the grid |
| LevelDesigners.PlaceNext | HPCLevelDesigner.cpp:248-262 | One more lotus keeps the lotuses laid, apart and covered |
| LevelDesigners.PlaceStep | HPCLevelDesigner.cpp:248-262 | From what placing one lotus states, the lotuses stay laid from the same draws, their squares apart in the grid and covered by the occupied cells |
| LevelDesigners.StartPositions | HPCLevelDesigner.cpp:266-312 | A distance is drawn, then the ring around the first lotus is shuffled as `Shuffle` says, with `CharaCountMax` more draws: a permutation of the ring |
| LevelDesigners.ParamOf | HPCLevelDesigner.cpp:328-344 | Character 0 is Human and every other character is Cpu |
| LevelDesigners.AddCharas | HPCLevelDesigner.cpp:328-344 | `count` characters are set up at the first positions with `ParamOf`, and the rest are untouched |
| LevelDesigners.NewGrid | HPCLevelDesigner.cpp:236-237 | The stage's grid, with its margin occupied and `surface - 1` draws |
| LevelDesigners.LayLotuses | HPCLevelDesigner.cpp:236-262 | The grid's draws, then the lotuses as `LotusesBuilt` says |
| LevelDesigners.FillLotuses | HPCLevelDesigner.cpp:236-262 | The stage's field is set, the lotuses are laid as `LotusesBuilt` says, and the characters are untouched |
| LevelDesigners.StartCharas | HPCLevelDesigner.cpp:266-344 | The characters as `CharasBuilt` says: `BattleCharaCount` of them at the shuffled positions, Human first, then CPUs |
| LevelDesigners.ResetAll | HPCStage.cpp:33-40 | Every state is reset |
| LevelDesigners.Fill | HPCLevelDesigner.cpp:236-346 | The stage is built as `Built` says |
| LevelDesigners.Setup | HPCLevelDesigner.cpp:230-346 | The stage is reset, then built as `Built` says: grid, lotuses and characters, with draws in source order |
| Games.StartRecord | HPCGame.cpp:35-45 | The record of a started stage: the character count, one turn more, and the ranks, passed lotuses and failure kept |
| Games.Begin | HPCGame.cpp:38-41 | Setup then start: Playing from turn 0, with the stage's character and lotus counts |
| Games.Turn | HPCGame.cpp:53-54 | One stage turn: the four passes as `TurnDone` says from the states, counters, lotuses and generator before it; ready, the same count, state and counter as `Outcome` says |
| Games.WriteTurn | HPCGame.cpp:55-56 | The turn written to the current record, and the stage untouched |
| Games.PlayTurn | HPCGame.cpp:51-57 | One turn as `TurnDone` and `Outcome` say, and exactly one turn written to the current record |
| Games.StartOn | HPCGame.cpp:35-45 | The stage started Playing from turn 0 with its counts, its record current, with its start and one turn written |
| Games.BeginBeside | HPCGame.cpp:38-41 | Setup then start with the stage's counts, and every stage record unchanged |
| Games.WriteStart | HPCGame.cpp:42-43 | The start and the first turn written to the stage's record, which becomes the current one |
| Games.Game.constructor | HPCGame.cpp:23-29 | Stage 0 is current with an empty stage and empty records |
| Games.Game.State | HPCGame.cpp:63-67 | `state`: the current stage's last turn result, for a valid stage index as the source asserts |
| Games.Game.IsValidStage | HPCGame.cpp:90-93 | `isValidStage`: the current stage index is within `[0, GameStageCount)` |
| Games.Game.StartStage | HPCGame.cpp:35-45 | The current stage starts Playing from turn 0 with its counts. Its record gets the start and exactly one turn, and the index is kept |
| Games.Game.RunTurn | HPCGame.cpp:51-57 | One turn with the game generator as `TurnDone` and `Outcome` say, and exactly one turn written to the current record |
| Games.Game.OnStageDone | HPCGame.cpp:75-80 | The end is written to the current record and the index grows by exactly one |

## Left out

- Float geometry and kinematics (vectors, circles, rectangles, the field, the swept hit test, the collision response, the mean velocity, normalising and rotating) are uninterpreted functions of `Geometry.Kinematics`. Positions are reals, only copied, added, subtracted and compared.
- The float parts of level generation come in as the fields of `LevelDesigners.LevelFloats` rather than being computed:
  - `GetFieldFlowVel`, `GridToRect`, `GridCenterToVec2` and `FieldGridSize`;
  - the `Math::Ceil` sizing of a lotus's square;
  - `GetCpuStrength` and the rotated start-position ring;
  - the CPU's slur rotation.
- `LevelDesigners.Setup`: the overlap assertion on start positions (HPCLevelDesigner.cpp:314-324) is float-only and not modelled. A lotus with no free square is placed at the centre of the square at cell (0, 0), where `setRandomOccupied` puts it once its assertion is compiled out. The model then leaves the grid unchanged, whereas that build would also mark the cells of that square occupied.
- `LevelDesigners.Setup`: does not restate that the turn result is cleared and the turn counter is 0, which `Stages.Stage.Reset` states.
- `LevelDesigners.BattleCharaCountMeaning`: the character count is taken as the integer table the float formula gives for every stage.
- `Answer.cpp` is the parameter `answer`; its preparation (`Answer::Init`) is outside the model.
- Output (`dump`, `dumpJson`, `print`), the timer, `Simulation`, `Main` and `StageAccessor` (its context is passed explicitly) are not part of this model.
- `RecordStages.ScoreOf`: the `double` score is computed over reals, not bit-exact.
- `Records.Record.Score`: requires every record to be scorable, which is the source's range assertion for every stage.
- The record's debug-only fields (turn-by-turn log, field, lotuses, start positions) are not modelled.
- 32-bit overflow is written out only where it matters (`IntMath.Abs`, `IntMath.Wrap32`). Elsewhere integers are unbounded; the counters stay far below the limit.
- `CharaRules.WaitTurnMax`: the float expression `strength / 100 * 2 + 0.5` is computed over reals.
- `Brains.SlurDeg`: fixes the magnitude-then-sign draw order, which C++ leaves unspecified for the two operands of the product.
- `IntMath.Abs`: C++ leaves `-INT_MIN` undefined; the model gives the usual two's-complement result, `INT_MIN` itself.
- `Randoms.Random.RandTerm`: requires `n > 0`, since the source's `n == 0` divides by zero.
- `CharaCollections.CharaCollection.UpdateRank`: states the ranking property, not the exact order the swap sort gives tied characters.
- `Lotuses.LotusCollection.SetupAddLotus`: requires a free slot, which the source does not check.
- `Lotuses.LotusCollection.Set`: requires a distinct source; `set(*this)` would empty the collection, because `reset` zeroes the count before the copy, and no caller does it.
- `LevelGrids.LevelGrid`: the pointer array `mRandArray` is an array of cell indices.
- `LevelGrids.LevelGrid.FindAvailableRandCell`: returns `None` where the source reaches `HPC_SHOULD_NOT_REACH_HERE` and, with assertions compiled out, index 0.
- `LevelGrids.LevelGrid.SetRandomOccupied`: on `None` changes nothing, where the source with assertions compiled out would occupy the rectangle at cell (0, 0).
- `Collisions.AddVel`: the room check is an `assert` at its one call in `CharaCollections.CharaCollection.CollectPair`, not a precondition of the function, which the specification of a whole pass also uses.
- `Games.Begin`: states the counts and readiness, not the layout. `LevelDesigners.Setup` states the layout as `Built`; `start` leaves what `Built` reads alone, but the contract does not carry it, as the proof across `start` is too costly.
- `Games.BeginBeside`: states the counts and readiness, not the layout, as `Games.Begin`.
- `Games.StartOn`: states the counts, readiness and record, not the layout, as `Games.Begin`.
- `Games.Game.StartStage`: states the counts, readiness and record, not the layout, as `Games.Begin`.
- `Stages.Stage.RunTurn`: requires every answer of the player's policy to be a decided action, as do `Stages.Stage.Play`, `CharaCollections.CharaCollection.ProcTurn`, `CharaCollections.CharaCollection.DecideTurn`, `Games.Turn`, `Games.PlayTurn` and `Games.Game.RunTurn`. The source only asserts it: an undecided action reaches `HPC_SHOULD_NOT_REACH_HERE` in `execAction` (HPCChara.cpp:63-77), and with assertions compiled out that character waits for the turn.
- `Games.Game.OnStageDone`: requires a started stage, not just a valid stage index, because `writeEnd` reads the stage's characters.
- `Ranking.HigherOrder`, `CharaRules.IsGoal`, `CharaRules.PassedLotusCount`, `CharaCollections.CharaCollection.At` and `Games.Game.IsValidStage`: have no `ensures`; they are the source's definitions, and the lemmas and contracts that use them state their properties.
- `Games.Game.State`: has no `ensures`; it only reads the state, and `Games.Game.RunTurn` states what that state becomes.
- `Games.Game.constructor` takes the base lotus radius as a parameter.
