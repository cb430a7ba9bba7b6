/** The game objects of the second iteration (entities.h): the player's
    paddle with its firing cooldown, the ball (fired upward), the brick
    (falling debris) and the world (the defended baseline). The first
    iteration (main.cpp) reuses the ball and the horizontal movement rule,
    which are identical there, and the brick, which has the same size there
    but never moves.

    An SFML body's velocity is a 2-vector; only the component an entity can
    ever change is kept as a field, the other is the constant noted beside it. */
module Entities {
  import opened Geometry

  /** The keys held down during one frame (the game polls the keyboard once
      per frame for each of them). */
  datatype Keys = Keys(left: bool, right: bool, space: bool, p: bool, r: bool, escape: bool)

  const PlayerHalfSize: nat := 10     // 20 x 20 body
  const PlayerSpeed: int := 8
  const DefaultCooldown: nat := 15    // frames between two shots
  const BallRadius: nat := 5
  const BallSpeed: int := 10          // upward, so the y velocity is -BallSpeed
  const BrickHalfWidth: nat := 40     // 80 x 30 body
  const BrickHalfHeight: nat := 15
  const BrickFallSpeed: int := 2      // downward
  const WorldHalfWidth: nat := 400    // 800 x 30 body
  const WorldHalfHeight: nat := 15

  /** The player's horizontal velocity for a frame: Left wins over Right, and
      each is ignored once the body already touches that side of the track. */
  function HorizontalVelocity(body: Shape, keys: Keys, trackWidth: int): (v: int)
    ensures v == -PlayerSpeed <==> keys.left && body.Left() > 0
    ensures v == PlayerSpeed <==> !(keys.left && body.Left() > 0) && keys.right && body.Right() < trackWidth
    ensures v == 0 || v == -PlayerSpeed || v == PlayerSpeed
  {
    if keys.left && body.Left() > 0 then -PlayerSpeed
    else if keys.right && body.Right() < trackWidth then PlayerSpeed
    else 0
  }

  /** The player's paddle; its y velocity is always 0. */
  datatype Player = Player(body: Shape, velocityX: int, trackWidth: int, coolDown: nat, isShooting: bool)
  {
    /** What every reachable player satisfies: the cooldown never exceeds its
        default, and a shot is only reported on the frame the cooldown was
        restarted. */
    predicate Valid() {
      coolDown <= DefaultCooldown && (isShooting ==> coolDown == DefaultCooldown)
    }

    /** One frame: choose the velocity from the keys, run the firing
        cooldown, then move by the velocity. */
    function Update(keys: Keys): (q: Player)
      ensures q.velocityX == HorizontalVelocity(body, keys, trackWidth)
      ensures q.body == body.Moved(q.velocityX, 0) && q.trackWidth == trackWidth
      ensures coolDown > 0 ==> q.coolDown == coolDown - 1 && !q.isShooting
      ensures coolDown == 0 && keys.space ==> q.coolDown == DefaultCooldown && q.isShooting
      ensures coolDown == 0 && !keys.space ==> q.coolDown == 0 && q.isShooting == isShooting
    {
      var v := HorizontalVelocity(body, keys, trackWidth);
      if coolDown > 0 then
        Player(body.Moved(v, 0), v, trackWidth, coolDown - 1, false)
      else if keys.space then
        Player(body.Moved(v, 0), v, trackWidth, DefaultCooldown, true)
      else
        Player(body.Moved(v, 0), v, trackWidth, coolDown, isShooting)
    }
  }

  function NewPlayer(x: int, y: int, trackWidth: int): (p: Player)
    ensures p.body == Rect(x, y, PlayerHalfSize, PlayerHalfSize)
    ensures p.velocityX == 0 && p.trackWidth == trackWidth
    ensures p.coolDown == 0 && !p.isShooting && p.Valid()
  {
    Player(Rect(x, y, PlayerHalfSize, PlayerHalfSize), 0, trackWidth, 0, false)
  }

  /** The player after one update per element of `frames`, in order. */
  function Replay(p: Player, frames: seq<Keys>): Player
    decreases |frames|
  {
    if frames == [] then p
    else Replay(p, frames[..|frames| - 1]).Update(frames[|frames| - 1])
  }

  lemma PlayerValidPreserved(p: Player, keys: Keys)
    requires p.Valid()
    ensures p.Update(keys).Valid()
  {
  }

  /** Firing happens exactly on the frames whose cooldown is already 0 and
      Space is held; nothing else starts a shot. */
  lemma FiresIffReady(p: Player, keys: Keys)
    requires p.Valid()
    ensures p.Update(keys).isShooting <==> p.coolDown == 0 && keys.space
  {
  }

  /** A shot is reported on one frame only: the next update clears it,
      whatever keys are pressed then. */
  lemma ShotLastsOneFrame(p: Player, k1: Keys, k2: Keys)
    requires p.Valid() && p.Update(k1).isShooting
    ensures !p.Update(k1).Update(k2).isShooting
  {
  }

  /** Holding Space from a cooldown of 0: the n-th frame (counting from 1)
      fires exactly when n - 1 is a multiple of DefaultCooldown + 1 (16), so
      one frame in every 16 fires. */
  lemma {:induction false} FiringCadence(p: Player, frames: seq<Keys>)
    requires p.coolDown == 0 && |frames| >= 1
    requires forall i :: 0 <= i < |frames| ==> frames[i].space
    ensures Replay(p, frames).coolDown == DefaultCooldown - (|frames| - 1) % (DefaultCooldown + 1)
    ensures Replay(p, frames).isShooting <==> (|frames| - 1) % (DefaultCooldown + 1) == 0
  {
    var n := |frames|;
    if n > 1 {
      var prefix := frames[..n - 1];
      FiringCadence(p, prefix);
      var m := (n - 2) % (DefaultCooldown + 1);
      assert (n - 1) % (DefaultCooldown + 1) == if m == DefaultCooldown then 0 else m + 1;
    }
  }

  /** The paddle can overshoot a side of the track by less than one step and
      no more: a player that starts within those margins stays within them
      for any sequence of frames. */
  lemma {:induction false} PlayerStaysNearTrack(p: Player, frames: seq<Keys>)
    requires -PlayerSpeed < p.body.Left() && p.body.Right() < p.trackWidth + PlayerSpeed
    ensures Replay(p, frames).body.y == p.body.y && Replay(p, frames).trackWidth == p.trackWidth
    ensures -PlayerSpeed < Replay(p, frames).body.Left()
    ensures Replay(p, frames).body.Right() < p.trackWidth + PlayerSpeed
    decreases |frames|
  {
    if frames != [] {
      PlayerStaysNearTrack(p, frames[..|frames| - 1]);
    }
  }

  /** A ball flies straight up; once its top edge leaves the window it is
      destroyed and its velocity is zeroed. */
  datatype Ball = Ball(body: Shape, velocityY: int, destroyed: bool)
  {
    /** Reachable balls: a circle of the default radius that moves up at full
        speed until destroyed, and rests above the window afterwards. */
    predicate Valid() {
      body.Circle? && body.radius == BallRadius
      && velocityY == (if destroyed then 0 else -BallSpeed)
      && (destroyed ==> body.Top() < 0)
    }

    /** Move by the velocity, then handle leaving the screen. */
    function Update(): (b: Ball)
      ensures b.body.x == body.x && b.body.Circle? == body.Circle?
      ensures destroyed ==> b.destroyed
    {
      var moved := body.Moved(0, velocityY);
      if moved.Top() < 0 then Ball(moved, 0, true)
      else Ball(moved, velocityY, destroyed)
    }
  }

  function NewBall(x: int, y: int): (b: Ball)
    ensures b.Valid() && !b.destroyed && b.body.x == x && b.body.y == y
  {
    Ball(Circle(x, y, BallRadius), -BallSpeed, false)
  }

  /** One ball update: x unchanged, y up by exactly BallSpeed while alive,
      destroyed exactly when the new top is above the window (never
      cleared), and the ball stays valid. */
  lemma BallStep(b: Ball)
    requires b.Valid()
    ensures b.Update().Valid()
    ensures b.Update().body.x == b.body.x
    ensures !b.destroyed ==> b.Update().body.y == b.body.y - BallSpeed
    ensures b.Update().destroyed <==> b.destroyed || b.Update().body.Top() < 0
  {
  }

  /** A destroyed ball no longer moves: further updates leave it as it is. */
  lemma DestroyedBallIsParked(b: Ball)
    requires b.Valid() && b.destroyed
    ensures b.Update() == b
  {
  }

  /** The ball after n updates. */
  function Flown(b: Ball, n: nat): Ball {
    if n == 0 then b else Flown(b, n - 1).Update()
  }

  /** A ball fired from (x, y) is destroyed after n frames exactly when its
      top would by then have crossed y = 0, and until then it has risen by
      BallSpeed per frame without drifting sideways. */
  lemma {:induction false} BallFlight(x: int, y: int, n: nat)
    ensures Flown(NewBall(x, y), n).Valid() && Flown(NewBall(x, y), n).body.x == x
    ensures Flown(NewBall(x, y), n).destroyed <==> n >= 1 && y - BallSpeed * n - BallRadius < 0
    ensures !Flown(NewBall(x, y), n).destroyed ==> Flown(NewBall(x, y), n).body.y == y - BallSpeed * n
  {
    if n > 0 {
      BallFlight(x, y, n - 1);
      BallStep(Flown(NewBall(x, y), n - 1));
    }
  }

  /** A falling piece of debris; its x velocity is always 0. */
  datatype Brick = Brick(body: Shape, destroyed: bool)
  {
    function Update(): (b: Brick)
      ensures b.body.x == body.x && b.body.y == body.y + BrickFallSpeed
      ensures b.body.Bottom() == body.Bottom() + BrickFallSpeed
      ensures b.destroyed == destroyed
    {
      this.(body := body.Moved(0, BrickFallSpeed))
    }
  }

  function NewBrick(x: int, y: int): (b: Brick)
    ensures b.body == Rect(x, y, BrickHalfWidth, BrickHalfHeight) && !b.destroyed
  {
    Brick(Rect(x, y, BrickHalfWidth, BrickHalfHeight), false)
  }

  /** The defended baseline; its update does nothing. */
  datatype World = World(body: Shape, destroyed: bool)

  function NewWorld(x: int, y: int): (w: World)
    ensures w.body == Rect(x, y, WorldHalfWidth, WorldHalfHeight) && !w.destroyed
  {
    World(Rect(x, y, WorldHalfWidth, WorldHalfHeight), false)
  }
}
