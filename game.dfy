/**
 * The game session: the state the game keeps between frames and the
 * operations that change it, called in a fixed order once per frame.
 *
 * Game over is a flag, not a phase: signalling it does not stop the frame in
 * progress or the ones after it, and only a restart clears it.
 */
module ColorMatch {
  import opened Palette
  import opened Rules
  import opened Session

  class Game {
    var score: nat
    var level: nat
    var speed: real
    var platformX: real
    var platformWidth: real
    var platformColor: Color
    var blocks: seq<Block>
    /** Set by every game over; the overlay is showing. */
    var gameOverSignalled: bool

    /** The state as a value. */
    function State(): Snapshot
      reads this
    {
      Snapshot(score, level, speed, platformX, platformWidth, platformColor, blocks, gameOverSignalled)
    }

    /** The invariant every frame keeps (see Session.Invariant). */
    ghost predicate Valid()
      reads this
    {
      Invariant(State())
    }

    /** The state when the game first loads; `colorRoll` draws the platform colour. */
    constructor (colorRoll: real)
      requires 0.0 <= colorRoll < 1.0
      ensures State() == Initial(colorRoll) && Valid()
    {
      score := 0;
      level := 1;
      speed := InitialSpeed;
      platformWidth := InitialPlatformWidth;
      platformX := CanvasWidth / 2.0 - InitialPlatformWidth / 2.0;
      platformColor := RandomColor(colorRoll);
      blocks := [];
      gameOverSignalled := false;
    }

    /** restartGame: back to the starting state, with a fresh platform colour. */
    method Restart(colorRoll: real)
      requires 0.0 <= colorRoll < 1.0
      modifies this
      ensures State() == Initial(colorRoll) && Valid()
    {
      score := 0;
      level := 1;
      speed := InitialSpeed;
      blocks := [];
      platformWidth := InitialPlatformWidth;
      platformX := CanvasWidth / 2.0 - platformWidth / 2.0;
      platformColor := RandomColor(colorRoll);
      gameOverSignalled := false;
    }

    /** createBlock: one new block at the end of the list. */
    method CreateBlock(colorRoll: real, xRoll: real)
      requires 0.0 <= colorRoll < 1.0 && 0.0 <= xRoll < 1.0
      modifies this`blocks
      ensures blocks == old(blocks) + [SpawnedBlock(colorRoll, xRoll)]
    {
      var color := RandomColor(colorRoll);
      var x := xRoll * (CanvasWidth - BlockSize);
      blocks := blocks + [Block(x, -BlockSize, color)];
    }

    /** The spawn step of a frame: a block is created when the draw is below the chance. */
    method MaybeSpawn(spawnRoll: real, colorRoll: real, xRoll: real)
      requires 0.0 <= colorRoll < 1.0 && 0.0 <= xRoll < 1.0
      modifies this`blocks
      ensures State() == SpawnStage(old(State()), spawnRoll, colorRoll, xRoll)
    {
      if spawnRoll < SpawnChance(level) {
        CreateBlock(colorRoll, xRoll);
      }
    }

    /** movePlatform: only the platform position changes. */
    method MovePlatform(left: bool, right: bool)
      modifies this`platformX
      ensures State() == MoveStage(old(State()), left, right)
    {
      if left && platformX > 0.0 {
        platformX := platformX - PlatformStep;
      }
      if right && platformX + platformWidth < CanvasWidth {
        platformX := platformX + PlatformStep;
      }
    }

    /**
     * moveBlocks: every block falls by speed * dt * 60, last to first; a block
     * that ends below the canvas signals game over; then those blocks are
     * filtered out.
     */
    method MoveBlocks(dt: real)
      modifies this`blocks, this`gameOverSignalled
      ensures State() == FallStage(old(State()), dt)
    {
      ghost var s := State();
      ghost var bs := blocks;
      var d := FallDistance(speed, dt);
      var i := |blocks|;
      while i > 0
        invariant 0 <= i <= |blocks| == |bs|
        invariant forall j :: 0 <= j < i ==> blocks[j] == bs[j]
        invariant forall j :: i <= j < |bs| ==> blocks[j] == bs[j].(y := bs[j].y + d)
        invariant gameOverSignalled == (s.gameOver || exists j :: i <= j < |bs| && bs[j].y + d > CanvasHeight)
      {
        i := i - 1;
        blocks := blocks[i := blocks[i].(y := blocks[i].y + d)];
        if blocks[i].y > CanvasHeight {
          gameOverSignalled := true;
        }
      }
      FallStageByBlock(s, dt, blocks, gameOverSignalled);
      blocks := Survivors(blocks);
    }

    /**
     * checkBlockLanding: scans the blocks last to first; a landing block of
     * the platform's colour scores a point and is spliced out, a landing block
     * of another colour signals game over and stays.
     */
    method CheckBlockLanding()
      modifies this`blocks, this`score, this`gameOverSignalled
      ensures State() == LandStage(old(State()))
    {
      ghost var s := State();
      ghost var bs, px, pw, pc := blocks, platformX, platformWidth, platformColor;
      var i := |blocks|;
      while i > 0
        invariant 0 <= i <= |bs| && i <= |blocks|
        invariant blocks[..i] == bs[..i]
        invariant blocks[i..] == Uncaught(bs[i..], px, pw, pc)
        invariant score == s.score + CatchCount(bs[i..], px, pw, pc)
        invariant gameOverSignalled == (s.gameOver || Mismatch(bs[i..], px, pw, pc))
      {
        i := i - 1;
        LandingScanStep(bs, blocks, i, px, pw, pc);
        var block := blocks[i];
        if Landing(block, platformX, platformWidth) {
          if block.color == platformColor {
            score := score + 1;
            blocks := blocks[..i] + blocks[i + 1..];
          } else {
            gameOverSignalled := true;
          }
        }
      }
      assert bs[0..] == bs && blocks[0..] == blocks;
    }

    /**
     * checkLevelUp: when the score earns a higher level, take it, speed up by
     * one increment and draw a new platform colour.
     */
    method CheckLevelUp(colorRoll: real)
      requires 0.0 <= colorRoll < 1.0
      modifies this`level, this`speed, this`platformColor
      ensures State() == LevelStage(old(State()), colorRoll)
    {
      var newLevel := LevelFor(score);
      if newLevel > level {
        level := newLevel;
        speed := speed + SpeedIncrement;
        platformColor := RandomColor(colorRoll);
      }
    }

    /**
     * gameLoop, one frame: move the platform, move the blocks, check
     * landings, check the level, then spawn. Nothing here depends on whether
     * game over was signalled.
     */
    method Frame(left: bool, right: bool, dt: real, draws: Draws)
      requires Valid() && ValidDraws(draws)
      modifies this
      ensures State() == Step(old(State()), left, right, dt, draws)
      ensures Valid()
    {
      ghost var s := State();
      MovePlatform(left, right);
      MoveBlocks(dt);
      CheckBlockLanding();
      CheckLevelUp(draws.levelColor);
      MaybeSpawn(draws.spawn, draws.spawnColor, draws.spawnX);
      StepKeepsInvariant(s, left, right, dt, draws);
    }
  }
}
