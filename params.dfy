/// Game rule constants of the simulator (HPCParameter.hpp).
module Params {
  const GameTurnPerStage := 3000      // turns allowed per stage
  const GameStageCount := 100         // stages per game
  const StageRoundCount := 3          // laps needed to finish a stage
  const CharaCountMin := 2            // fewest characters in a stage, player included
  const CharaCountMax := 4            // most characters in a stage, player included
  const CharaAccelCountMax := 9       // largest acceleration budget
  const CharaInitAccelCount := 9      // acceleration budget at stage start
  const CharaAddAccelWaitTurn := 10   // turns between two budget recharges
  const LotusCountMax := 20           // most lotuses in a stage
}
