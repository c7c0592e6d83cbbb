# Color Match Challenge — a verified model of the game state

Color Match Challenge is a browser game. Coloured squares fall from the top
of a canvas, and the player moves a coloured platform left and right along
the bottom. A landing square of the platform's colour is caught and scores a
point. A landing square of another colour, or a square that falls past the
bottom, ends the game. Every ten points raise the level. A new level speeds
the squares up and gives the platform a new colour.

This project models the frame-by-frame game-state logic of `script.js`:

- `Palette` holds the six colours and the random colour pick.
- `Rules` holds the constants, the falling block and one pure function per
  rule of a frame: platform movement, the fall, the cleanup of missed
  blocks, catching, mismatches, the level, and spawning. It also holds the
  lemmas about those functions.
- `Session` holds the whole game state as a value (`Snapshot`). It defines
  one function per stage of a frame and composes them in the game loop's
  order (`Step`). It also states the invariant every frame keeps and the
  properties that span a frame.
- `ColorMatch` holds the class `Game`. Its fields are the variables the
  script keeps in its closure. It has one method per function of the
  script: `MovePlatform`, `MoveBlocks`, `CheckBlockLanding`, `CheckLevelUp`,
  `CreateBlock`, `Restart`, and the spawn step, plus `Frame`, which calls
  them in the loop's order. Each method is proved to change the state
  exactly as its stage function says. The reverse-index loops of
  `moveBlocks` and `checkBlockLanding` are `while` loops over the `blocks`
  sequence. The second one splices caught blocks out as it goes, and its
  invariants show that the scan skips no block.

Each rule of a frame appears at three levels. `Rules` states the rule on
its own inputs (a position, a block list), where the lemmas about it are
proved. `Session` lifts it to the whole game state as a stage function, whose
contract says which fields the stage changes and which it leaves alone. The
frame-level properties (`Step`, the invariant, game over) are proved over the
composition of these stage functions; they need the whole state, and a
method's contract cannot be used inside a function or lemma. `Game`'s
methods are the imperative code, each proved to change the object's fields
exactly as its stage function changes the state.

Two behaviours of the code are modelled as written:

- The platform is never clamped to the canvas. A left step from x = 5
  reaches x = -5, and on the right the platform can reach 755 on a
  900-pixel canvas. The invariant the model proves is the one the code
  keeps: the platform is never more than one step past either edge.
- Game over is a flag and not a phase. `gameOver` cancels the frame request
  whose callback is already running, and the end of the loop schedules the
  next frame. So the rest of the frame, and every later frame, still moves,
  scores, levels up and spawns. The model records game over in
  `gameOverSignalled`, which only a restart clears, and proves that the flag
  gates nothing (`Session.GameOverDoesNotGate`).

Random draws are parameters: uniform rolls in [0, 1). A colour is the palette
entry at floor(roll * 6). A spawn x is roll * (900 - 50). A block spawns when
the spawn roll is below 0.02 + 0.002 * level. Positions and speeds are exact
reals.

## Model

| member | source | states |
|---|---|---|
| Palette.RandomColor | script.js:51-53 | the colour drawn by a roll is the one whose sixth of [0, 1) contains the roll |
| Palette.RandomColorCovers | script.js:51-53 | every one of the six colours can be drawn |
| Rules.MovedX | script.js:63-70 | the net move is -10, 0 or +10. The platform ends further left exactly when left is held with x > 0 and the right step that follows is not taken (right not held, or x - 10 + width >= 900). It ends further right exactly when right is held with x + width < 900 and no left step was taken. With no key held it stays. It keeps the platform within one step of both edges |
| Rules.PlatformLeavesCanvas | script.js:64-66 | no clamp: from x = 5 with left held the platform reaches -5 |
| Rules.FallDistance | script.js:126 | a block falls by speed * dt * 60 pixels in a frame of dt seconds |
| Rules.Advance | script.js:125-126 | every block moves down by exactly the fall distance. Its x and colour are unchanged, and no block is added or lost |
| Rules.Missed | script.js:129 | some block's y exceeds the canvas height (675) |
| Rules.Survivors | script.js:134 | the cleanup never lengthens the list |
| Rules.SurvivorsMembers | script.js:134 | the cleanup keeps exactly the blocks not below the bottom edge |
| Rules.SurvivorsAppend | script.js:134 | the cleanup keeps relative order (it distributes over concatenation) |
| Rules.SurvivorsKeepAll | script.js:129-134 | the cleanup removes something exactly when some block is past the bottom |
| Rules.AdvanceMissed | script.js:125-131 | after the fall, some block is past the bottom exactly when some block's old y plus the fall distance exceeds the canvas height |
| Rules.Landing | script.js:108-111 | a block lands when its bottom edge is at or below the platform's top edge (y + 50 >= 675 - 20) and it overlaps the platform horizontally (x + 50 > platformX and x < platformX + width) |
| Rules.Catches | script.js:111-112 | a block is caught when it lands and has the platform's colour |
| Rules.CatchCount | script.js:111-115 | the count of caught blocks is at most the length of the list |
| Rules.CatchCountZero | script.js:111-115 | no point is scored exactly when no block lands with the platform's colour |
| Rules.Uncaught | script.js:105-121 | the landing check shortens the list by exactly the number of catches |
| Rules.UncaughtMembers | script.js:111-118 | the landing check keeps exactly the blocks that are not caught; a mismatched landing block stays |
| Rules.UncaughtAppend | script.js:105-121 | the landing check keeps relative order |
| Rules.UncaughtKeepAll | script.js:111-115 | nothing is removed exactly when nothing is caught |
| Rules.MismatchAt | script.js:111-118 | game over is signalled by the landing check exactly when some landing, overlapping block has a different colour |
| Rules.LandingScanStep | script.js:106-120 | one iteration of the reverse scan: splicing out block i when it is caught, and keeping it otherwise, extends the verdict from the suffix after i to the suffix from i. The count and the mismatch flag extend the same way |
| Rules.LevelFor | script.js:139 | the level is the l >= 1 with 10 * (l - 1) <= score < 10 * l |
| Rules.LevelForMonotone | script.js:139 | a higher score never earns a lower level |
| Rules.LevelAfter | script.js:139-141 | the level never decreases and is either unchanged or the earned level. If it was at most the earned level, it becomes the earned level |
| Rules.SpeedAfter | script.js:140-142 | the speed rises by exactly 0.5 when the level rose, and is unchanged otherwise |
| Rules.LevelCheckKeepsInvariant | script.js:138-146 | if the level matched the old score and the score did not fall, the level after the check is the one the new score earns, and the speed stays between 2 and 2 + 0.5 * (level - 1) |
| Rules.SkippedLevelsOneIncrement | script.js:139-142 | from level 1 at 25 points the level jumps to 3, but the speed rises by one increment only |
| Rules.SpawnChance | script.js:201 | the chance per frame that a block spawns is 0.02 + 0.002 * level |
| Rules.Spawns | script.js:201 | a block spawns when the uniform draw is below the chance for the level |
| Rules.SpawnedBlock | script.js:56-60 | a new block starts at y = -50, with x in [0, 850) and the drawn colour |
| Rules.FallAndLandOnCanvas | script.js:105-135 | after the fall, the cleanup and the landing check, every block left lies on the canvas horizontally and not below it |
| Session.Initial | script.js:156-163 | restart state: score 0, level 1, speed 2, no blocks, width 150, x = 900 / 2 - 75, a drawn colour, game over cleared |
| Session.MoveStage | script.js:63-70 | movePlatform on the whole state: only the platform position changes, and it becomes the MovedX position |
| Session.FallStage | script.js:124-135 | moveBlocks on the whole state: only the blocks and the game-over flag change; the list does not grow; no block left is below the canvas; the flag is raised exactly when some block's y plus the fall distance exceeds 675, or it was raised before |
| Session.FallStageByBlock | script.js:125-134 | moving every block down one at a time, raising the flag on any block below the canvas, then filtering, gives exactly the fall stage |
| Session.LandStage | script.js:105-121 | checkBlockLanding on the whole state: only the blocks, the score and the flag change; the score rises by exactly the number of blocks removed; the flag is raised exactly when some landing block has another colour than the platform, or it was raised before |
| Session.LevelStage | script.js:138-146 | checkLevelUp on the whole state: only the level, speed and platform colour change. On a rise the level becomes floor(score / 10) + 1, the speed gains 0.5 and the colour is drawn anew; otherwise all three stay |
| Session.SpawnStage | script.js:200-203 | the spawn on the whole state: only the block list changes. When the draw is below the chance, the spawned block is appended at the end; otherwise the list stays |
| Session.Step | script.js:193-203 | a frame never lowers the score, the level or the speed. It leaves the platform width unchanged and never clears game over |
| Session.InitialInvariant | script.js:23-32 | the starting state satisfies the frame invariant |
| Session.StepKeepsInvariant | script.js:193-203 | every frame keeps the invariant: level = floor(score / 10) + 1, speed within its bounds, the platform within one step of the edges, every block on the canvas |
| Session.GameOverDoesNotGate | script.js:149-153 | a frame after game over changes everything else exactly as it would without it |
| Session.StepGameOver | script.js:111-131 | a frame signals game over exactly when some block falls past the bottom or some landing block has the wrong colour (or it was already signalled) |
| Session.StepScoreCountsCatches | script.js:111-115 | the score rises by exactly the number of blocks the landing check takes off the list |
| Session.CatchScenario | script.js:105-121 | a red block landing on a red platform is caught: score 1, no blocks, no game over |
| Session.MismatchScenario | script.js:111-118 | the same block on a blue platform stays, scores nothing and signals game over |
| ColorMatch.Game.constructor | script.js:23-32 | the state at load time is the restart state, and it satisfies the invariant |
| ColorMatch.Game.Restart | script.js:156-163 | the state after a restart is the restart state, and it satisfies the invariant |
| ColorMatch.Game.CreateBlock | script.js:56-60 | exactly one block, the spawned one, is appended at the end |
| ColorMatch.Game.MaybeSpawn | script.js:200-203 | a block is appended exactly when the spawn roll is below the chance for the current level |
| ColorMatch.Game.MovePlatform | script.js:63-70 | only the platform position changes, as MovedX says |
| ColorMatch.Game.MoveBlocks | script.js:124-135 | the reverse loop and the filter leave the survivors of the fall, and set game over exactly when a fallen block is past the bottom |
| ColorMatch.Game.CheckBlockLanding | script.js:105-121 | the reverse scan with splicing leaves exactly the uncaught blocks in order. It adds exactly the number of catches to the score and signals game over exactly on a mismatch |
| ColorMatch.Game.CheckLevelUp | script.js:138-146 | the level, speed and platform colour change as the level check says; the colour is re-drawn only when the level rose |
| ColorMatch.Game.Frame | script.js:189-206 | one frame is the composition of the stages in the loop's order, and it keeps the invariant |

## Left out

- Looking up page elements, resizing the canvas and the window listener. The canvas is fixed at its widest size, 900 by 675.
- The keyboard listeners. The held keys are the boolean parameters `left` and `right` of a frame.
- Drawing and text output: the platform and block drawing, the render pass, the score and level displays, and the overlay and final-score text. They only present the state; the overlay's visibility is `gameOverSignalled`.
- Frame scheduling and time: the animation-frame requests, the cancel in `gameOver`, the clock, and the computation of `dt`. `dt` is a parameter of a frame. The extra loop that a restart starts beside the running one is not modelled, so the model has one frame sequence.
- `Math.random`. Each draw is a parameter in [0, 1).
- Floating-point rounding of positions and speeds. They are exact reals.
