/**
 * A whole frame as a function of the game state: the reference the frame
 * method of ColorMatch.Game is proved against, and the place where the
 * properties that span a frame are stated.
 */
module Session {
  import opened Palette
  import opened Rules

  /** Everything the game keeps between frames. */
  datatype Snapshot = Snapshot(
    score: nat,
    level: nat,
    speed: real,
    platformX: real,
    platformWidth: real,
    platformColor: Color,
    blocks: seq<Block>,
    gameOver: bool)

  /** The uniform draws a frame may consume, each in [0, 1). */
  datatype Draws = Draws(levelColor: real, spawn: real, spawnColor: real, spawnX: real)

  predicate ValidDraws(r: Draws)
  {
    && 0.0 <= r.levelColor < 1.0
    && 0.0 <= r.spawn < 1.0
    && 0.0 <= r.spawnColor < 1.0
    && 0.0 <= r.spawnX < 1.0
  }

  /** The state at load time and after a restart. */
  function Initial(colorRoll: real): (s: Snapshot)
    requires 0.0 <= colorRoll < 1.0
    ensures s.score == 0 && s.level == 1 && s.speed == InitialSpeed && s.blocks == []
    ensures s.platformWidth == InitialPlatformWidth
    ensures s.platformX == CanvasWidth / 2.0 - InitialPlatformWidth / 2.0
    ensures s.platformColor == RandomColor(colorRoll) && !s.gameOver
  {
    Snapshot(0, 1, InitialSpeed, CanvasWidth / 2.0 - InitialPlatformWidth / 2.0,
             InitialPlatformWidth, RandomColor(colorRoll), [], false)
  }

  /**
   * What holds between frames: the level is the one the score earns, the
   * speed has risen by at most one increment per level, the platform is at
   * most one step off either edge, and every block lies within the canvas
   * horizontally and not below it.
   */
  ghost predicate Invariant(s: Snapshot)
  {
    && s.level == LevelFor(s.score)
    && InitialSpeed <= s.speed <= MaxSpeed(s.level)
    && s.platformWidth == InitialPlatformWidth
    && -PlatformStep < s.platformX
    && s.platformX + s.platformWidth < CanvasWidth + PlatformStep
    && forall b :: b in s.blocks ==> OnCanvas(b)
  }

  /** movePlatform on the state: the platform position is the only thing that changes. */
  function MoveStage(s: Snapshot, left: bool, right: bool): (t: Snapshot)
    ensures t.(platformX := s.platformX) == s
    ensures t.platformX == MovedX(s.platformX, s.platformWidth, left, right)
  {
    s.(platformX := MovedX(s.platformX, s.platformWidth, left, right))
  }

  /**
   * moveBlocks on the state: fall, flag a miss, drop the missed blocks. Only
   * the blocks and the flag change; no block left is below the canvas; the
   * flag is raised exactly when some block falls past the bottom edge.
   */
  function FallStage(s: Snapshot, dt: real): (t: Snapshot)
    ensures t.(blocks := s.blocks, gameOver := s.gameOver) == s
    ensures |t.blocks| <= |s.blocks|
    ensures forall b :: b in t.blocks ==> b.y <= CanvasHeight
    ensures t.gameOver <==>
              || s.gameOver
              || exists i :: 0 <= i < |s.blocks| && s.blocks[i].y + FallDistance(s.speed, dt) > CanvasHeight
  {
    var fallen := Advance(s.blocks, FallDistance(s.speed, dt));
    SurvivorsMembers(fallen);
    AdvanceMissed(s.blocks, FallDistance(s.speed, dt));
    s.(blocks := Survivors(fallen), gameOver := s.gameOver || Missed(fallen))
  }

  /**
   * The fall stage, as the reverse loop of moveBlocks computes it: each block
   * moved down by the fall distance, the flag raised if one of them is below
   * the canvas, and then the cleanup.
   */
  lemma FallStageByBlock(s: Snapshot, dt: real, fallen: seq<Block>, flag: bool)
    requires |fallen| == |s.blocks|
    requires forall j :: 0 <= j < |fallen| ==>
               fallen[j] == s.blocks[j].(y := s.blocks[j].y + FallDistance(s.speed, dt))
    requires flag == (s.gameOver || exists j :: 0 <= j < |s.blocks| && s.blocks[j].y + FallDistance(s.speed, dt) > CanvasHeight)
    ensures FallStage(s, dt) == s.(blocks := Survivors(fallen), gameOver := flag)
  {
    var moved := Advance(s.blocks, FallDistance(s.speed, dt));
    forall j | 0 <= j < |fallen| ensures fallen[j] == moved[j] { }
    assert fallen == moved;
    AdvanceMissed(s.blocks, FallDistance(s.speed, dt));
  }

  /**
   * checkBlockLanding on the state: drop and count the catches, flag a
   * mismatch. Only the blocks, the score and the flag change; the score rises
   * by the number of blocks removed; the flag is raised exactly when a
   * landing block has another colour than the platform.
   */
  function LandStage(s: Snapshot): (t: Snapshot)
    ensures t.(blocks := s.blocks, score := s.score, gameOver := s.gameOver) == s
    ensures t.score - s.score == |s.blocks| - |t.blocks|
    ensures t.gameOver <==>
              || s.gameOver
              || exists i :: 0 <= i < |s.blocks| && Landing(s.blocks[i], s.platformX, s.platformWidth)
                                               && s.blocks[i].color != s.platformColor
  {
    MismatchAt(s.blocks, s.platformX, s.platformWidth, s.platformColor);
    s.(blocks := Uncaught(s.blocks, s.platformX, s.platformWidth, s.platformColor),
       score := s.score + CatchCount(s.blocks, s.platformX, s.platformWidth, s.platformColor),
       gameOver := s.gameOver || Mismatch(s.blocks, s.platformX, s.platformWidth, s.platformColor))
  }

  /**
   * checkLevelUp on the state. Only the level, the speed and the platform
   * colour change, and all three change together: on a rise the level is the
   * one the score earns, the speed gains one increment and the colour is
   * drawn anew; otherwise nothing changes.
   */
  function LevelStage(s: Snapshot, colorRoll: real): (t: Snapshot)
    requires 0.0 <= colorRoll < 1.0
    ensures t.(level := s.level, speed := s.speed, platformColor := s.platformColor) == s
    ensures t.level > s.level ==>
              t.level == LevelFor(s.score) && t.speed == s.speed + SpeedIncrement
              && t.platformColor == RandomColor(colorRoll)
    ensures t.level <= s.level ==>
              t.level == s.level && t.speed == s.speed && t.platformColor == s.platformColor
  {
    var level := LevelAfter(s.level, s.score);
    s.(level := level,
       speed := SpeedAfter(s.level, s.speed, s.score),
       platformColor := if level > s.level then RandomColor(colorRoll) else s.platformColor)
  }

  /**
   * The spawn at the end of gameLoop: createBlock when the draw is below the
   * chance. Only the block list changes, and only by one block at its end.
   */
  function SpawnStage(s: Snapshot, spawnRoll: real, colorRoll: real, xRoll: real): (t: Snapshot)
    requires 0.0 <= colorRoll < 1.0 && 0.0 <= xRoll < 1.0
    ensures t.(blocks := s.blocks) == s
    ensures Spawns(spawnRoll, s.level) ==> t.blocks == s.blocks + [SpawnedBlock(colorRoll, xRoll)]
    ensures !Spawns(spawnRoll, s.level) ==> t.blocks == s.blocks
  {
    s.(blocks := s.blocks + if Spawns(spawnRoll, s.level) then [SpawnedBlock(colorRoll, xRoll)] else [])
  }

  /**
   * One frame: move the platform, let the blocks fall and drop the missed
   * ones, catch the landing blocks of the platform's colour, check the level,
   * and spawn a block when the spawn draw is below the chance for the new
   * level. The game-over flag only accumulates; it gates nothing.
   */
  function Step(s: Snapshot, left: bool, right: bool, dt: real, r: Draws): (t: Snapshot)
    requires ValidDraws(r)
    ensures t.score >= s.score && t.level >= s.level && t.speed >= s.speed
    ensures t.platformWidth == s.platformWidth
    ensures s.gameOver ==> t.gameOver
  {
    var moved := MoveStage(s, left, right);
    var landed := LandStage(FallStage(moved, dt));
    SpawnStage(LevelStage(landed, r.levelColor), r.spawn, r.spawnColor, r.spawnX)
  }

  /** The starting state satisfies the invariant. */
  lemma InitialInvariant(colorRoll: real)
    requires 0.0 <= colorRoll < 1.0
    ensures Invariant(Initial(colorRoll))
  {
  }

  /**
   * Every frame keeps the invariant; in particular the level is
   * floor(score / 10) + 1 after every frame.
   */
  lemma StepKeepsInvariant(s: Snapshot, left: bool, right: bool, dt: real, r: Draws)
    requires Invariant(s) && ValidDraws(r)
    ensures Invariant(Step(s, left, right, dt, r))
  {
    var x := MovedX(s.platformX, s.platformWidth, left, right);
    var onScreen := Survivors(Advance(s.blocks, FallDistance(s.speed, dt)));
    var score := s.score + CatchCount(onScreen, x, s.platformWidth, s.platformColor);
    LevelCheckKeepsInvariant(s.level, s.speed, s.score, score);
    FallAndLandOnCanvas(s.blocks, FallDistance(s.speed, dt), x, s.platformWidth, s.platformColor);
  }

  /**
   * Game over does not stop the game: a frame after game over changes the
   * score, the level, the platform and the blocks exactly as it would have
   * without it.
   */
  lemma GameOverDoesNotGate(s: Snapshot, left: bool, right: bool, dt: real, r: Draws)
    requires ValidDraws(r)
    ensures Step(s.(gameOver := true), left, right, dt, r)
            == Step(s.(gameOver := false), left, right, dt, r).(gameOver := true)
  {
  }

  /**
   * A frame signals game over exactly when a block fell past the bottom or a
   * landing block has the wrong colour, or it had been signalled before.
   */
  lemma StepGameOver(s: Snapshot, left: bool, right: bool, dt: real, r: Draws)
    requires ValidDraws(r)
    ensures var x := MovedX(s.platformX, s.platformWidth, left, right);
            Step(s, left, right, dt, r).gameOver <==>
              || s.gameOver
              || (exists i :: 0 <= i < |s.blocks| && s.blocks[i].y + FallDistance(s.speed, dt) > CanvasHeight)
              || Mismatch(Survivors(Advance(s.blocks, FallDistance(s.speed, dt))), x, s.platformWidth, s.platformColor)
  {
    AdvanceMissed(s.blocks, FallDistance(s.speed, dt));
  }

  /**
   * The score rises by exactly the number of blocks taken off the list by
   * the landing check.
   */
  lemma StepScoreCountsCatches(s: Snapshot, left: bool, right: bool, dt: real, r: Draws)
    requires ValidDraws(r)
    ensures var t := Step(s, left, right, dt, r);
            var onScreen := Survivors(Advance(s.blocks, FallDistance(s.speed, dt)));
            var spawned := if Spawns(r.spawn, t.level) then 1 else 0;
            t.score - s.score == |onScreen| - (|t.blocks| - spawned)
  {
  }

  /**
   * A red block about to land on a red platform, centred, at speed 2 and
   * 60 frames per second: the frame catches it, scores one point and does
   * not signal game over.
   */
  lemma CatchScenario()
    ensures var s := Snapshot(0, 1, 2.0, 375.0, 150.0, Red, [Block(400.0, 604.0, Red)], false);
            var t := Step(s, false, false, 1.0 / 60.0, Draws(0.0, 0.99, 0.0, 0.0));
            t.score == 1 && t.blocks == [] && !t.gameOver
  {
    var s := Snapshot(0, 1, 2.0, 375.0, 150.0, Red, [Block(400.0, 604.0, Red)], false);
    var b := Block(400.0, 606.0, Red);
    FallOneBlock(s, Red);
    assert FallStage(MoveStage(s, false, false), 1.0 / 60.0) == s.(blocks := [b]);
    assert Catches(b, 375.0, 150.0, Red);
    assert Uncaught([b], 375.0, 150.0, Red) == [] + Uncaught([], 375.0, 150.0, Red);
    assert LandStage(s.(blocks := [b])) == s.(blocks := [], score := 1);
  }

  /**
   * The same block on a blue platform: the frame signals game over, the
   * score stays and the block is not removed.
   */
  lemma MismatchScenario()
    ensures var s := Snapshot(0, 1, 2.0, 375.0, 150.0, Blue, [Block(400.0, 604.0, Red)], false);
            var t := Step(s, false, false, 1.0 / 60.0, Draws(0.0, 0.99, 0.0, 0.0));
            t.score == 0 && t.blocks == [Block(400.0, 606.0, Red)] && t.gameOver
  {
    var s := Snapshot(0, 1, 2.0, 375.0, 150.0, Blue, [Block(400.0, 604.0, Red)], false);
    var b := Block(400.0, 606.0, Red);
    FallOneBlock(s, Red);
    assert FallStage(MoveStage(s, false, false), 1.0 / 60.0) == s.(blocks := [b]);
    assert Landing(b, 375.0, 150.0) && !Catches(b, 375.0, 150.0, Blue);
    assert Uncaught([b], 375.0, 150.0, Blue) == [b] + Uncaught([], 375.0, 150.0, Blue);
    assert Mismatch([b], 375.0, 150.0, Blue);
    assert LandStage(s.(blocks := [b])) == s.(blocks := [b], gameOver := true);
  }

  /** The fall shared by both scenarios: 2 px in a 60 Hz frame at speed 2, nothing missed. */
  lemma FallOneBlock(s: Snapshot, c: Color)
    requires s.speed == 2.0 && s.blocks == [Block(400.0, 604.0, c)] && !s.gameOver
    ensures FallStage(MoveStage(s, false, false), 1.0 / 60.0)
            == s.(blocks := [Block(400.0, 606.0, c)])
  {
    var b := s.blocks[0];
    assert FallDistance(2.0, 1.0 / 60.0) == 2.0;
    var fallen := Advance(s.blocks, 2.0);
    assert fallen == [b.(y := 606.0)] + Advance([], 2.0);
    assert Survivors(fallen) == [b.(y := 606.0)] + Survivors([]);
    assert !Missed(fallen);
  }
}
