/**
 * The play-area constants, the falling block, and the pure rules of one
 * frame: how the platform moves, how blocks fall, which blocks are missed,
 * caught or mismatched, and how the level follows the score. The methods of
 * ColorMatch.Game are specified by these functions.
 */
module Rules {
  import opened Palette

  /** The canvas at its widest (900 px wide, height three quarters of that). */
  const CanvasWidth: real := 900.0
  const CanvasHeight: real := 675.0

  const BlockSize: real := 50.0
  const PlatformHeight: real := 20.0
  const InitialPlatformWidth: real := 150.0
  /** Pixels the platform moves per frame per held key. */
  const PlatformStep: real := 10.0

  const InitialSpeed: real := 2.0
  const SpeedIncrement: real := 0.5
  /** A frame at the 60 Hz reference rate moves a block by `speed` pixels. */
  const FramesPerSecond: real := 60.0

  /** A falling square: top-left corner and colour. */
  datatype Block = Block(x: real, y: real, color: Color)

  // ---------------------------------------------------------------------
  // Platform movement

  /**
   * movePlatform: a left step when left is held and the platform is right of
   * x = 0, then a right step when right is held and its right edge is left of
   * the canvas edge. There is no clamp.
   */
  function MovedX(x: real, width: real, left: bool, right: bool): (r: real)
    ensures r == x - PlatformStep || r == x || r == x + PlatformStep
    ensures r < x <==> left && x > 0.0 && !(right && x - PlatformStep + width < CanvasWidth)
    ensures r > x <==> right && !(left && x > 0.0) && x + width < CanvasWidth
    ensures !left && !right ==> r == x
    ensures left && !right && x > 0.0 ==> r == x - PlatformStep
    ensures right && !left && x + width < CanvasWidth ==> r == x + PlatformStep
    ensures -PlatformStep < x && x + width < CanvasWidth + PlatformStep ==>
              -PlatformStep < r && r + width < CanvasWidth + PlatformStep
  {
    var afterLeft := if left && x > 0.0 then x - PlatformStep else x;
    if right && afterLeft + width < CanvasWidth then afterLeft + PlatformStep else afterLeft
  }

  /** The platform is not clamped to the canvas: from x = 5 a left step reaches -5. */
  lemma PlatformLeavesCanvas()
    ensures MovedX(5.0, InitialPlatformWidth, true, false) == -5.0
  {
  }

  // ---------------------------------------------------------------------
  // Falling and missed blocks

  /** moveBlocks, first half: every block moves down by `d`, nothing else changes. */
  function Advance(bs: seq<Block>, d: real): (r: seq<Block>)
    ensures |r| == |bs|
    ensures forall i {:trigger r[i]} :: 0 <= i < |r| ==>
              r[i].x == bs[i].x && r[i].color == bs[i].color && r[i].y == bs[i].y + d
  {
    if bs == [] then [] else [bs[0].(y := bs[0].y + d)] + Advance(bs[1..], d)
  }

  /** How far a block falls in a frame of `dt` seconds: `speed` pixels per 60 Hz frame. */
  function FallDistance(speed: real, dt: real): real
  {
    speed * dt * FramesPerSecond
  }

  /** Some block is below the bottom edge of the canvas. */
  predicate Missed(bs: seq<Block>)
  {
    exists i :: 0 <= i < |bs| && bs[i].y > CanvasHeight
  }

  /** moveBlocks, cleanup: the blocks that are not below the bottom edge, in order. */
  function Survivors(bs: seq<Block>): (r: seq<Block>)
    ensures |r| <= |bs|
  {
    if bs == [] then []
    else (if bs[0].y <= CanvasHeight then [bs[0]] else []) + Survivors(bs[1..])
  }

  /** The cleanup keeps relative order: it distributes over concatenation. */
  lemma {:induction false} SurvivorsAppend(a: seq<Block>, b: seq<Block>)
    ensures Survivors(a + b) == Survivors(a) + Survivors(b)
  {
    if a == [] {
      assert a + b == b;
    } else {
      var head := if a[0].y <= CanvasHeight then [a[0]] else [];
      assert (a + b)[0] == a[0];
      assert (a + b)[1..] == a[1..] + b;
      assert Survivors(a + b) == head + Survivors(a[1..] + b);
      SurvivorsAppend(a[1..], b);
    }
  }

  /** The cleanup keeps exactly the blocks that are not below the bottom edge. */
  lemma {:induction false} SurvivorsMembers(bs: seq<Block>)
    ensures forall b :: b in Survivors(bs) <==> b in bs && b.y <= CanvasHeight
  {
    if bs != [] {
      SurvivorsMembers(bs[1..]);
      assert bs == [bs[0]] + bs[1..];
    }
  }

  /** The cleanup removes something exactly when some block is missed. */
  lemma {:induction false} SurvivorsKeepAll(bs: seq<Block>)
    ensures Survivors(bs) == bs <==> !Missed(bs)
  {
    if Missed(bs) {
      var i :| 0 <= i < |bs| && bs[i].y > CanvasHeight;
      SurvivorsMembers(bs);
      assert bs[i] !in Survivors(bs);
    } else if bs != [] {
      assert !Missed(bs[1..]) by {
        forall j | 0 <= j < |bs[1..]| ensures bs[1..][j].y <= CanvasHeight {
          assert bs[1..][j] == bs[j + 1];
        }
      }
      SurvivorsKeepAll(bs[1..]);
      assert bs == [bs[0]] + bs[1..];
    }
  }

  /** Game over during the fall is signalled exactly when a moved block is past the bottom. */
  lemma AdvanceMissed(bs: seq<Block>, d: real)
    ensures Missed(Advance(bs, d)) <==> exists i :: 0 <= i < |bs| && bs[i].y + d > CanvasHeight
  {
    var r := Advance(bs, d);
    if Missed(r) {
      var i :| 0 <= i < |r| && r[i].y > CanvasHeight;
      assert bs[i].y + d > CanvasHeight;
    }
    if exists i :: 0 <= i < |bs| && bs[i].y + d > CanvasHeight {
      var i :| 0 <= i < |bs| && bs[i].y + d > CanvasHeight;
      assert r[i].y > CanvasHeight;
    }
  }

  // ---------------------------------------------------------------------
  // Landing and scoring

  /**
   * The block's bottom edge has reached the platform's top edge and the two
   * overlap horizontally.
   */
  predicate Landing(b: Block, px: real, pw: real)
  {
    && b.y + BlockSize >= CanvasHeight - PlatformHeight
    && b.x + BlockSize > px
    && b.x < px + pw
  }

  /** A landing block of the platform's colour: it is caught and scores. */
  predicate Catches(b: Block, px: real, pw: real, pc: Color)
  {
    Landing(b, px, pw) && b.color == pc
  }

  /** Some landing block has a colour other than the platform's. */
  predicate Mismatch(bs: seq<Block>, px: real, pw: real, pc: Color)
  {
    bs != [] && ((Landing(bs[0], px, pw) && bs[0].color != pc) || Mismatch(bs[1..], px, pw, pc))
  }

  /** Mismatch holds exactly when some block of the list lands with the wrong colour. */
  lemma {:induction false} MismatchAt(bs: seq<Block>, px: real, pw: real, pc: Color)
    ensures Mismatch(bs, px, pw, pc) <==>
              exists i :: 0 <= i < |bs| && Landing(bs[i], px, pw) && bs[i].color != pc
  {
    if bs != [] {
      MismatchAt(bs[1..], px, pw, pc);
      if exists i :: 0 <= i < |bs| && Landing(bs[i], px, pw) && bs[i].color != pc {
        var i :| 0 <= i < |bs| && Landing(bs[i], px, pw) && bs[i].color != pc;
        if i > 0 {
          assert bs[1..][i - 1] == bs[i];
        }
      }
      if Mismatch(bs[1..], px, pw, pc) {
        var i :| 0 <= i < |bs[1..]| && Landing(bs[1..][i], px, pw) && bs[1..][i].color != pc;
        assert bs[i + 1] == bs[1..][i];
      }
    }
  }

  /** The number of caught blocks. */
  function CatchCount(bs: seq<Block>, px: real, pw: real, pc: Color): (n: nat)
    ensures n <= |bs|
  {
    if bs == [] then 0
    else (if Catches(bs[0], px, pw, pc) then 1 else 0) + CatchCount(bs[1..], px, pw, pc)
  }

  /** No point is scored exactly when no block lands with the platform's colour. */
  lemma {:induction false} CatchCountZero(bs: seq<Block>, px: real, pw: real, pc: Color)
    ensures CatchCount(bs, px, pw, pc) == 0 <==> forall i :: 0 <= i < |bs| ==> !Catches(bs[i], px, pw, pc)
  {
    if bs != [] {
      CatchCountZero(bs[1..], px, pw, pc);
      forall i | 0 < i < |bs| ensures bs[i] == bs[1..][i - 1] { }
    }
  }

  /**
   * checkBlockLanding: the blocks that are not caught, in order. Exactly the
   * caught ones are gone, so the list shrinks by the number of points scored;
   * a mismatched landing block stays.
   */
  function Uncaught(bs: seq<Block>, px: real, pw: real, pc: Color): (r: seq<Block>)
    ensures |r| + CatchCount(bs, px, pw, pc) == |bs|
  {
    if bs == [] then []
    else (if Catches(bs[0], px, pw, pc) then [] else [bs[0]]) + Uncaught(bs[1..], px, pw, pc)
  }

  /**
   * Landing removal keeps exactly the blocks that are not caught; in
   * particular a mismatched landing block stays.
   */
  lemma {:induction false} UncaughtMembers(bs: seq<Block>, px: real, pw: real, pc: Color)
    ensures forall b :: b in Uncaught(bs, px, pw, pc) <==> b in bs && !Catches(b, px, pw, pc)
  {
    if bs != [] {
      UncaughtMembers(bs[1..], px, pw, pc);
      assert bs == [bs[0]] + bs[1..];
    }
  }

  /** Landing removal keeps relative order: it distributes over concatenation. */
  lemma {:induction false} UncaughtAppend(a: seq<Block>, b: seq<Block>, px: real, pw: real, pc: Color)
    ensures Uncaught(a + b, px, pw, pc) == Uncaught(a, px, pw, pc) + Uncaught(b, px, pw, pc)
  {
    if a == [] {
      assert a + b == b;
    } else {
      var head := if Catches(a[0], px, pw, pc) then [] else [a[0]];
      assert (a + b)[0] == a[0];
      assert (a + b)[1..] == a[1..] + b;
      calc {
        Uncaught(a + b, px, pw, pc);
        head + Uncaught(a[1..] + b, px, pw, pc);
        { UncaughtAppend(a[1..], b, px, pw, pc); }
        head + (Uncaught(a[1..], px, pw, pc) + Uncaught(b, px, pw, pc));
        (head + Uncaught(a[1..], px, pw, pc)) + Uncaught(b, px, pw, pc);
        Uncaught(a, px, pw, pc) + Uncaught(b, px, pw, pc);
      }
    }
  }

  /**
   * One step of the reverse scan of checkBlockLanding. Before the step the
   * list is the untouched prefix bs[..i + 1] followed by the verdict on the
   * suffix bs[i + 1..]. Splicing block i out when it is caught, and keeping
   * it otherwise, leaves the untouched prefix bs[..i] followed by the
   * verdict on bs[i..]; the count and the mismatch flag extend the same way.
   */
  lemma LandingScanStep(bs: seq<Block>, cur: seq<Block>, i: nat, px: real, pw: real, pc: Color)
    requires i < |bs| && i < |cur|
    requires cur[..i + 1] == bs[..i + 1]
    requires cur[i + 1..] == Uncaught(bs[i + 1..], px, pw, pc)
    ensures cur[i] == bs[i]
    ensures Catches(bs[i], px, pw, pc) ==>
              var next := cur[..i] + cur[i + 1..];
              && next[..i] == bs[..i] && next[i..] == Uncaught(bs[i..], px, pw, pc)
              && CatchCount(bs[i..], px, pw, pc) == 1 + CatchCount(bs[i + 1..], px, pw, pc)
              && Mismatch(bs[i..], px, pw, pc) == Mismatch(bs[i + 1..], px, pw, pc)
    ensures !Catches(bs[i], px, pw, pc) ==>
              && cur[..i] == bs[..i] && cur[i..] == Uncaught(bs[i..], px, pw, pc)
              && CatchCount(bs[i..], px, pw, pc) == CatchCount(bs[i + 1..], px, pw, pc)
              && (Mismatch(bs[i..], px, pw, pc) <==> Landing(bs[i], px, pw) || Mismatch(bs[i + 1..], px, pw, pc))
  {
    assert bs[i..][1..] == bs[i + 1..];
    assert cur[..i] == cur[..i + 1][..i] && bs[..i] == bs[..i + 1][..i];
    assert cur[i] == cur[..i + 1][i] && bs[i] == bs[..i + 1][i];
    var next := if Catches(cur[i], px, pw, pc) then cur[..i] + cur[i + 1..] else cur;
    if Catches(cur[i], px, pw, pc) {
      assert next[..i] == cur[..i];
      assert next[i..] == cur[i + 1..];
    } else {
      assert cur[i..] == [cur[i]] + cur[i + 1..];
    }
  }

  /** Nothing is removed exactly when nothing is caught. */
  lemma {:induction false} UncaughtKeepAll(bs: seq<Block>, px: real, pw: real, pc: Color)
    ensures Uncaught(bs, px, pw, pc) == bs <==> CatchCount(bs, px, pw, pc) == 0
  {
    if bs != [] {
      UncaughtKeepAll(bs[1..], px, pw, pc);
      assert bs == [bs[0]] + bs[1..];
    }
  }

  // ---------------------------------------------------------------------
  // Levels and spawning

  /** The level a score earns: floor(score / 10) + 1, one level per ten points. */
  function LevelFor(score: nat): (l: nat)
    ensures l >= 1
    ensures 10 * (l - 1) <= score < 10 * l
  {
    score / 10 + 1
  }

  /** A higher score never earns a lower level. */
  lemma LevelForMonotone(s: nat, t: nat)
    requires s <= t
    ensures LevelFor(s) <= LevelFor(t)
  {
  }

  /**
   * checkLevelUp: the level rises to the one the score earns when that is
   * higher, and otherwise stays.
   */
  function LevelAfter(level: int, score: nat): (l: int)
    ensures l >= level
    ensures l == level || l == LevelFor(score)
    ensures level <= LevelFor(score) ==> l == LevelFor(score)
  {
    if LevelFor(score) > level then LevelFor(score) else level
  }

  /** The speed after a level check: one increment when the level rose, however far. */
  function SpeedAfter(level: int, speed: real, score: nat): (s: real)
    ensures LevelAfter(level, score) > level ==> s == speed + SpeedIncrement
    ensures LevelAfter(level, score) == level ==> s == speed
  {
    if LevelFor(score) > level then speed + SpeedIncrement else speed
  }

  /** The fastest a game at `level` can be: one increment per level above the first. */
  function MaxSpeed(level: int): real
  {
    InitialSpeed + 0.5 * (level - 1) as real
  }

  /**
   * The invariant that ties level and speed to the score survives a rise in
   * score followed by a level check: the level is again the one the score
   * earns and the speed stays between its start and one increment per level.
   */
  lemma LevelCheckKeepsInvariant(level: nat, speed: real, score: nat, newScore: nat)
    requires level == LevelFor(score) && score <= newScore
    requires InitialSpeed <= speed <= MaxSpeed(level)
    ensures LevelAfter(level, newScore) == LevelFor(newScore)
    ensures InitialSpeed <= SpeedAfter(level, speed, newScore)
              <= MaxSpeed(LevelAfter(level, newScore))
  {
    LevelForMonotone(score, newScore);
  }

  /** Ten more points can skip levels, yet the speed rises by one increment only. */
  lemma SkippedLevelsOneIncrement()
    ensures LevelAfter(1, 25) == 3
    ensures SpeedAfter(1, InitialSpeed, 25) == InitialSpeed + SpeedIncrement
  {
  }

  /** The chance per frame that a block spawns: 2% plus 0.2% per level. */
  function SpawnChance(level: int): real
  {
    0.02 + level as real * 0.002
  }

  /** The spawn test of a frame: a uniform draw in [0, 1) below the chance. */
  predicate Spawns(roll: real, level: int)
  {
    roll < SpawnChance(level)
  }

  /** The block createBlock makes from a colour draw and a position draw in [0, 1). */
  function SpawnedBlock(colorRoll: real, xRoll: real): (b: Block)
    requires 0.0 <= colorRoll < 1.0 && 0.0 <= xRoll < 1.0
    ensures b.y == -BlockSize
    ensures 0.0 <= b.x < CanvasWidth - BlockSize
    ensures b.color == RandomColor(colorRoll)
  {
    Block(xRoll * (CanvasWidth - BlockSize), -BlockSize, RandomColor(colorRoll))
  }

  /** A block that lies horizontally on the canvas and is not below it. */
  predicate OnCanvas(b: Block)
  {
    0.0 <= b.x < CanvasWidth - BlockSize && b.y <= CanvasHeight
  }

  /**
   * After the fall, the cleanup and the landing check, every block left is on
   * the canvas, provided every block started within it horizontally.
   */
  lemma FallAndLandOnCanvas(bs: seq<Block>, d: real, px: real, pw: real, pc: Color)
    requires forall b :: b in bs ==> 0.0 <= b.x < CanvasWidth - BlockSize
    ensures forall b :: b in Uncaught(Survivors(Advance(bs, d)), px, pw, pc) ==> OnCanvas(b)
  {
    var fallen := Advance(bs, d);
    forall b | b in fallen ensures 0.0 <= b.x < CanvasWidth - BlockSize {
      var k :| 0 <= k < |fallen| && fallen[k] == b;
      assert bs[k] in bs;
    }
    SurvivorsMembers(fallen);
    UncaughtMembers(Survivors(fallen), px, pw, pc);
  }
}
