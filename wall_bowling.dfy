/** The first iteration of the game (main.cpp): a paddle at the bottom of the
    window fires balls upward at a static grid of nine bricks. The state of
    the main loop is a player object, a vector of bricks and a vector of
    balls, both held by value; one pass of the loop is Game.Step. */
module WallBowling {
  import opened Geometry
  import opened Entities
  import opened Compaction

  const WindowWidth: int := 800
  const WindowHeight: int := 800
  const GridGap: int := 5           // space left between neighbouring bricks
  const GridOffset: int := 5        // extra horizontal shift of the grid

  function BallDestroyed(b: Ball): bool { b.destroyed }
  function BrickDestroyed(b: Brick): bool { b.destroyed }

  /** The paddle of this iteration: no cooldown, and it reports a shot on
      every frame Space is held. */
  class Player {
    var body: Shape
    var velocityX: int
    var isShooting: bool

    constructor (x: int, y: int)
      ensures body == Rect(x, y, PlayerHalfSize, PlayerHalfSize)
      ensures velocityX == 0 && !isShooting
    {
      body := Rect(x, y, PlayerHalfSize, PlayerHalfSize);
      velocityX := 0;
      isShooting := false;
    }

    /** Read the keys, then move by the chosen velocity (y never changes). */
    method Update(keys: Keys)
      modifies this
      ensures velocityX == HorizontalVelocity(old(body), keys, WindowWidth)
      ensures velocityX == 0 || velocityX == -PlayerSpeed || velocityX == PlayerSpeed
      ensures body == old(body).Moved(velocityX, 0) && body.y == old(body).y
      ensures isShooting == keys.space
    {
      ProcessPlayerInput(keys);
      body := body.Moved(velocityX, 0);
    }

    method ProcessPlayerInput(keys: Keys)
      modifies this
      ensures velocityX == HorizontalVelocity(body, keys, WindowWidth)
      ensures isShooting == keys.space
      ensures body == old(body)
    {
      if keys.left && body.Left() > 0 {
        velocityX := -PlayerSpeed;
      } else if keys.right && body.Right() < WindowWidth {
        velocityX := PlayerSpeed;
      } else {
        velocityX := 0;
      }
      if keys.space {
        isShooting := true;
      } else {
        isShooting := false;
      }
    }
  }

  /** A ball that overlaps a brick destroys it; the ball itself is left as
      it is (the main loop never calls this rule: its call is commented out). */
  function SolveBallBrickCollision(brick: Brick, ball: Ball): (r: Brick)
    ensures r.body == brick.body
    ensures r.destroyed <==> brick.destroyed || Intersecting(brick.body, ball.body)
  {
    if !Intersecting(brick.body, ball.body) then brick
    else brick.(destroyed := true)
  }

  /** Brick k of the initial grid: column k / 3, row k % 3, cells 85 wide
      and 35 high, shifted right by GridOffset. */
  function GridBrick(k: nat): Brick {
    NewBrick(GridOffset + (k / 3 + 1) * (2 * BrickHalfWidth + GridGap),
             (k % 3 + 1) * (2 * BrickHalfHeight + GridGap))
  }

  /** The 3 x 3 brick grid, built column by column. */
  method SetupBricks() returns (bricks: seq<Brick>)
    ensures |bricks| == 9
    ensures forall k :: 0 <= k < 9 ==> bricks[k] == GridBrick(k)
  {
    bricks := [];
    for iX := 0 to 3
      invariant |bricks| == 3 * iX
      invariant forall k :: 0 <= k < |bricks| ==> bricks[k] == GridBrick(k)
    {
      for iY := 0 to 3
        invariant |bricks| == 3 * iX + iY
        invariant forall k :: 0 <= k < |bricks| ==> bricks[k] == GridBrick(k)
      {
        var x := (iX + 1) * (2 * BrickHalfWidth + GridGap);
        var y := (iY + 1) * (2 * BrickHalfHeight + GridGap);
        assert (3 * iX + iY) / 3 == iX && (3 * iX + iY) % 3 == iY;
        bricks := bricks + [NewBrick(GridOffset + x, y)];
      }
    }
  }

  /** The initial bricks are pairwise apart: neighbouring cells leave a gap
      of GridGap on both axes, so no two of them intersect. */
  lemma {:induction false} GridBricksApart(i: nat, j: nat)
    requires i < 9 && j < 9 && i != j
    ensures !Intersecting(GridBrick(i).body, GridBrick(j).body)
  {
    var (ci, ri, cj, rj) := (i / 3, i % 3, j / 3, j % 3);
    assert i == 3 * ci + ri && j == 3 * cj + rj;
    var a, b := GridBrick(i).body, GridBrick(j).body;
    assert a.x == GridOffset + (ci + 1) * 85 && b.x == GridOffset + (cj + 1) * 85;
    assert a.y == (ri + 1) * 35 && b.y == (rj + 1) * 35;
    if ci != cj {
      assert a.Right() < b.Left() || b.Right() < a.Left();
    } else {
      assert ri != rj;
      assert a.Bottom() < b.Top() || b.Bottom() < a.Top();
    }
  }

  /** Every ball after one update, in order. */
  function UpdatedBalls(balls: seq<Ball>): (r: seq<Ball>)
  {
    seq(|balls|, i requires 0 <= i < |balls| => balls[i].Update())
  }

  /** The main loop's update pass: every ball is updated once, in order, in place. */
  method UpdateBalls(balls: seq<Ball>) returns (out: seq<Ball>)
    ensures out == UpdatedBalls(balls)
  {
    out := balls;
    for i := 0 to |out|
      invariant |out| == |balls|
      invariant forall j :: 0 <= j < i ==> out[j] == balls[j].Update()
      invariant forall j :: i <= j < |out| ==> out[j] == balls[j]
    {
      out := out[i := out[i].Update()];
    }
  }

  /** Balls that were valid stay valid after the update pass. */
  lemma UpdatedBallsValid(balls: seq<Ball>)
    requires forall i :: 0 <= i < |balls| ==> balls[i].Valid()
    ensures forall i :: 0 <= i < |balls| ==> UpdatedBalls(balls)[i].Valid()
  {
    forall i | 0 <= i < |balls| ensures UpdatedBalls(balls)[i].Valid() {
      BallStep(balls[i]);
    }
  }

  /** The state of main()'s loop. */
  class Game {
    var player: Player
    var bricks: seq<Brick>
    var balls: seq<Ball>

    /** Set-up before the loop: the paddle near the bottom centre, the brick
        grid, no balls. */
    constructor ()
      ensures fresh(player)
      ensures player.body == Rect(WindowWidth / 2, WindowHeight - 50, PlayerHalfSize, PlayerHalfSize)
      ensures player.velocityX == 0 && !player.isShooting
      ensures |bricks| == 9 && (forall k :: 0 <= k < 9 ==> bricks[k] == GridBrick(k))
      ensures balls == []
    {
      var grid := SetupBricks();
      player := new Player(WindowWidth / 2, WindowHeight - 50);
      bricks := grid;
      balls := [];
    }

    /** One pass of the loop (drawing left out). Escape leaves the loop
        before anything changes. Otherwise: the player moves, the (static)
        bricks and the balls update, a shooting player adds one ball at its
        new centre, and destroyed balls and bricks are erased. Returns
        whether the loop ends. */
    method Step(keys: Keys) returns (exit: bool)
      modifies this, player
      ensures player == old(player)
      ensures exit == keys.escape
      ensures exit ==> bricks == old(bricks) && balls == old(balls)
      ensures exit ==> player.body == old(player.body) && player.velocityX == old(player.velocityX)
      ensures exit ==> player.isShooting == old(player.isShooting)
      ensures !exit ==> player.velocityX == HorizontalVelocity(old(player.body), keys, WindowWidth)
      ensures !exit ==> player.body == old(player.body).Moved(player.velocityX, 0)
      ensures !exit ==> player.isShooting == keys.space
      ensures !exit ==> balls == Survivors(UpdatedBalls(old(balls))
                                  + (if keys.space then [NewBall(player.body.x, player.body.y)] else []),
                                  BallDestroyed)
      ensures !exit ==> bricks == Survivors(old(bricks), BrickDestroyed)
    {
      if keys.escape {
        return true;
      }
      exit := false;
      player.Update(keys);
      // Brick::update is empty in this iteration: the bricks do not move.
      balls := UpdateBalls(balls);
      if player.isShooting {
        balls := balls + [NewBall(player.body.x, player.body.y)];
      } else {
        assert balls + [] == balls;
      }
      balls := EraseRemove(balls, BallDestroyed);
      bricks := EraseRemove(bricks, BrickDestroyed);
    }
  }
}
