/** The second iteration of the game (game.h): debris falls towards the
    world, the player shoots it down, and the game restarts when debris
    reaches the bottom of the window. All objects live in one entity store,
    kept here as a sequence in creation order; a visit of the objects of one
    type (`forEach<T>`) is a pass over the sequence that skips the other
    types. One pass of the main loop is Game.Step.

    Debris and Bullet are defined in headers this model does not cover:
    Debris is taken to be a Brick (80 x 30, falling 2 per frame) and Bullet
    a Ball (radius 5, rising 10 per frame). */
module SpaceDebris {
  import opened Geometry
  import opened Entities
  import opened Compaction

  const WindowWidth: int := 800
  const WindowHeight: int := 800
  const GridGap: int := 5           // space left between neighbouring debris
  const GridOffset: int := 10       // extra horizontal shift of the debris field

  datatype GameState = Paused | InProgress

  datatype EntityKind = PlayerKind | WorldKind | DebrisKind | BulletKind

  /** An object owned by the entity store. */
  datatype Entity =
    | PlayerEntity(player: Player)
    | WorldEntity(world: World)
    | DebrisEntity(debris: Brick)
    | BulletEntity(bullet: Ball)
  {
    function Kind(): EntityKind {
      match this
      case PlayerEntity(_) => PlayerKind
      case WorldEntity(_) => WorldKind
      case DebrisEntity(_) => DebrisKind
      case BulletEntity(_) => BulletKind
    }

    function Body(): Shape {
      match this
      case PlayerEntity(p) => p.body
      case WorldEntity(w) => w.body
      case DebrisEntity(d) => d.body
      case BulletEntity(b) => b.body
    }

    /** The player has no destroyed flag and is never removed. */
    predicate Destroyed() {
      match this
      case PlayerEntity(_) => false
      case WorldEntity(w) => w.destroyed
      case DebrisEntity(d) => d.destroyed
      case BulletEntity(b) => b.destroyed
    }

    /** The same object with its destroyed flag set. */
    function Marked(): (e: Entity)
      ensures e.Kind() == Kind() && e.Body() == Body()
      ensures e.Destroyed() <==> Kind() != PlayerKind
    {
      match this
      case PlayerEntity(_) => this
      case WorldEntity(w) => WorldEntity(w.(destroyed := true))
      case DebrisEntity(d) => DebrisEntity(d.(destroyed := true))
      case BulletEntity(b) => BulletEntity(b.(destroyed := true))
    }
  }

  function IsDestroyed(e: Entity): bool { e.Destroyed() }

  function MarkIf(e: Entity, c: bool): (r: Entity)
    ensures r.Kind() == e.Kind() && r.Body() == e.Body()
  {
    if c then e.Marked() else e
  }

  /** Setting the flag twice is setting it once. */
  lemma MarkIfTwice()
    ensures forall e: Entity, a: bool, b: bool :: MarkIf(MarkIf(e, a), b) == MarkIf(e, a || b)
  {
  }

  // ---------------------------------------------------------------------
  // Collision rules

  /** A bullet that overlaps a piece of debris destroys it and is destroyed
      with it; apart from the two destroyed flags nothing changes. */
  function SolveBulletJunkCollision(junk: Brick, bullet: Ball): (r: (Brick, Ball))
    ensures r.0 == junk.(destroyed := junk.destroyed || Intersecting(junk.body, bullet.body))
    ensures r.1 == bullet.(destroyed := bullet.destroyed || Intersecting(junk.body, bullet.body))
  {
    if !Intersecting(junk.body, bullet.body) then (junk, bullet)
    else (junk.(destroyed := true), bullet.(destroyed := true))
  }

  /** Debris whose bottom edge has reached the bottom of the window is
      destroyed and destroys the world with it; where the world is plays no
      part. */
  function SolveJunkHittingWorld(junk: Brick, world: World): (r: (Brick, World))
    ensures r.0 == junk.(destroyed := junk.destroyed || junk.body.Bottom() >= WindowHeight)
    ensures r.1 == world.(destroyed := world.destroyed || junk.body.Bottom() >= WindowHeight)
  {
    if junk.body.Bottom() >= WindowHeight then (junk.(destroyed := true), world.(destroyed := true))
    else (junk, world)
  }

  // ---------------------------------------------------------------------
  // The collision pass as a whole. Every rule only sets flags, from the
  // kinds and positions of the objects, which the pass never changes; so the
  // outcome does not depend on the order of the visits and has a closed form.

  predicate ReachesGround(e: Entity) {
    e.Kind() == DebrisKind && e.Body().Bottom() >= WindowHeight
  }

  /** Debris d and bullet b overlap. */
  predicate Hits(d: Entity, b: Entity) {
    d.Kind() == DebrisKind && b.Kind() == BulletKind && Intersecting(d.Body(), b.Body())
  }

  predicate HasWorld(es: seq<Entity>) {
    exists i :: 0 <= i < |es| && es[i].Kind() == WorldKind
  }

  predicate AnyReachesGround(es: seq<Entity>) {
    exists j :: 0 <= j < |es| && ReachesGround(es[j])
  }

  predicate StruckByBullet(es: seq<Entity>, x: nat)
    requires x < |es|
  {
    exists k :: 0 <= k < |es| && Hits(es[x], es[k])
  }

  predicate StrikesDebris(es: seq<Entity>, x: nat)
    requires x < |es|
  {
    exists j :: 0 <= j < |es| && Hits(es[j], es[x])
  }

  /** Object x ends the collision pass destroyed (if it was not already):
      a world when any debris reaches the ground; debris that reaches the
      ground or overlaps a bullet, and a bullet that overlaps debris, provided
      there is a world at all (the whole pass runs inside the visit of the
      worlds). */
  predicate Doomed(es: seq<Entity>, x: nat)
    requires x < |es|
  {
    (es[x].Kind() == WorldKind && AnyReachesGround(es))
    || (HasWorld(es) && (ReachesGround(es[x]) || StruckByBullet(es, x) || StrikesDebris(es, x)))
  }

  function Collided(es: seq<Entity>): seq<Entity> {
    seq(|es|, x requires 0 <= x < |es| => MarkIf(es[x], Doomed(es, x)))
  }

  predicate RestartDue(es: seq<Entity>) {
    exists i :: 0 <= i < |es| && es[i].WorldEntity? && es[i].world.destroyed
  }

  predicate SameLayout(a: seq<Entity>, b: seq<Entity>) {
    |a| == |b| && forall x :: 0 <= x < |a| ==> a[x].Kind() == b[x].Kind() && a[x].Body() == b[x].Body()
  }

  /** Every collision test reads only kinds and bodies. */
  lemma LayoutDecides(a: seq<Entity>, b: seq<Entity>)
    requires SameLayout(a, b)
    ensures forall x, y :: 0 <= x < |a| && 0 <= y < |a| ==> Hits(a[x], a[y]) == Hits(b[x], b[y])
    ensures forall x :: 0 <= x < |a| ==> ReachesGround(a[x]) == ReachesGround(b[x])
    ensures forall x :: 0 <= x < |a| ==> StruckByBullet(a, x) == StruckByBullet(b, x)
    ensures forall x :: 0 <= x < |a| ==> StrikesDebris(a, x) == StrikesDebris(b, x)
    ensures AnyReachesGround(a) == AnyReachesGround(b)
  {
    forall x | 0 <= x < |a| ensures StruckByBullet(a, x) == StruckByBullet(b, x) {
      if StruckByBullet(a, x) {
        var k :| 0 <= k < |a| && Hits(a[x], a[k]);
        assert Hits(b[x], b[k]);
      }
      if StruckByBullet(b, x) {
        var k :| 0 <= k < |b| && Hits(b[x], b[k]);
        assert Hits(a[x], a[k]);
      }
    }
    forall x | 0 <= x < |a| ensures StrikesDebris(a, x) == StrikesDebris(b, x) {
      if StrikesDebris(a, x) {
        var j :| 0 <= j < |a| && Hits(a[j], a[x]);
        assert Hits(b[j], b[x]);
      }
      if StrikesDebris(b, x) {
        var j :| 0 <= j < |b| && Hits(b[j], b[x]);
        assert Hits(a[j], a[x]);
      }
    }
    if AnyReachesGround(a) {
      var j :| 0 <= j < |a| && ReachesGround(a[j]);
      assert ReachesGround(b[j]);
    }
    if AnyReachesGround(b) {
      var j :| 0 <= j < |b| && ReachesGround(b[j]);
      assert ReachesGround(a[j]);
    }
  }

  /** The innermost visit, `forEach<Bullet>` for debris d: every bullet that
      overlaps d is destroyed, and so is d if any bullet does. */
  method StrikeDebris(es: seq<Entity>, d: nat) returns (out: seq<Entity>)
    requires d < |es| && es[d].DebrisEntity?
    ensures SameLayout(out, es)
    ensures forall x :: 0 <= x < |es| ==>
      out[x] == MarkIf(es[x], (x == d && StruckByBullet(es, d)) || Hits(es[d], es[x]))
  {
    out := es;
    var b := 0;
    while b < |out|
      invariant b <= |out| == |es|
      invariant SameLayout(out, es)
      invariant forall x :: 0 <= x < |es| ==>
        out[x] == MarkIf(es[x], (x == d && exists k :: 0 <= k < b && Hits(es[d], es[k]))
                                || (x < b && Hits(es[d], es[x])))
    {
      if out[b].BulletEntity? {
        var r := SolveBulletJunkCollision(out[d].debris, out[b].bullet);
        out := out[d := DebrisEntity(r.0)][b := BulletEntity(r.1)];
      }
      b := b + 1;
    }
  }

  /** The flag of object x once the visit of world w has handled the
      debris before index d. */
  predicate SweptSoFar(es: seq<Entity>, w: nat, d: nat, x: nat)
    requires x < |es|
  {
    (x == w && exists j :: 0 <= j < d && j < |es| && ReachesGround(es[j]))
    || (x < d && (ReachesGround(es[x]) || StruckByBullet(es, x)))
    || (exists j :: 0 <= j < d && j < |es| && Hits(es[j], es[x]))
  }

  /** Visiting an object that is not debris changes no flag. */
  lemma SweepSkip(es: seq<Entity>, w: nat, d: nat)
    requires d < |es| && es[d].Kind() != DebrisKind
    ensures forall x :: 0 <= x < |es| ==> SweptSoFar(es, w, d + 1, x) == SweptSoFar(es, w, d, x)
  {
    assert !ReachesGround(es[d]) && !StruckByBullet(es, d);
    assert forall x :: 0 <= x < |es| ==> !Hits(es[d], es[x]);
  }

  /** Visiting debris d sets the flags that the ground test and the bullet
      visit for d add. */
  lemma SweepVisit(es: seq<Entity>, w: nat, d: nat, cur: seq<Entity>, next: seq<Entity>)
    requires w < |es| && es[w].Kind() == WorldKind && d < |es| && es[d].Kind() == DebrisKind
    requires |cur| == |es| && |next| == |es|
    requires forall x :: 0 <= x < |es| ==> cur[x] == MarkIf(es[x], SweptSoFar(es, w, d, x))
    requires forall x :: 0 <= x < |es| ==>
      next[x] == MarkIf(cur[x], ((x == w || x == d) && ReachesGround(es[d]))
                                || (x == d && StruckByBullet(es, d)) || Hits(es[d], es[x]))
    ensures forall x :: 0 <= x < |es| ==> next[x] == MarkIf(es[x], SweptSoFar(es, w, d + 1, x))
  {
    MarkIfTwice();
    forall x | 0 <= x < |es|
      ensures next[x] == MarkIf(es[x], SweptSoFar(es, w, d + 1, x))
    {
      var added := ((x == w || x == d) && ReachesGround(es[d])) || (x == d && StruckByBullet(es, d)) || Hits(es[d], es[x]);
      assert SweptSoFar(es, w, d + 1, x) == (SweptSoFar(es, w, d, x) || added);
    }
  }

  /** The ground test and then the bullet visit for debris d, both run on
      the current flags, together advance the sweep by one piece of debris. */
  lemma SweepDebrisVisit(es: seq<Entity>, w: nat, d: nat, cur: seq<Entity>, grounded: seq<Entity>, next: seq<Entity>)
    requires w < |es| && es[w].Kind() == WorldKind && d < |es| && es[d].Kind() == DebrisKind
    requires |cur| == |es| && SameLayout(grounded, es) && |next| == |es|
    requires forall x :: 0 <= x < |es| ==> cur[x] == MarkIf(es[x], SweptSoFar(es, w, d, x))
    requires forall x :: 0 <= x < |es| ==>
      grounded[x] == MarkIf(cur[x], (x == w || x == d) && ReachesGround(es[d]))
    requires forall x :: 0 <= x < |es| ==>
      next[x] == MarkIf(grounded[x], (x == d && StruckByBullet(grounded, d)) || Hits(grounded[d], grounded[x]))
    ensures forall x :: 0 <= x < |es| ==> next[x] == MarkIf(es[x], SweptSoFar(es, w, d + 1, x))
  {
    LayoutDecides(grounded, es);
    MarkIfTwice();
    SweepVisit(es, w, d, cur, next);
  }

  /** The middle visit, `forEach<Debris>` inside the visit of world w: each
      piece of debris is first checked against the ground, then against
      every bullet. */
  method SweepDebris(es: seq<Entity>, w: nat) returns (out: seq<Entity>)
    requires w < |es| && es[w].WorldEntity?
    ensures SameLayout(out, es)
    ensures forall x :: 0 <= x < |es| ==>
      out[x] == MarkIf(es[x], (x == w && AnyReachesGround(es))
                              || ReachesGround(es[x]) || StruckByBullet(es, x) || StrikesDebris(es, x))
  {
    out := es;
    var d := 0;
    while d < |out|
      invariant d <= |out| == |es|
      invariant SameLayout(out, es)
      invariant forall x :: 0 <= x < |es| ==> out[x] == MarkIf(es[x], SweptSoFar(es, w, d, x))
    {
      if out[d].DebrisEntity? {
        ghost var cur := out;
        var r := SolveJunkHittingWorld(out[d].debris, out[w].world);
        out := out[d := DebrisEntity(r.0)][w := WorldEntity(r.1)];
        ghost var grounded := out;
        assert forall x :: 0 <= x < |es| ==>
          grounded[x] == MarkIf(cur[x], (x == w || x == d) && ReachesGround(es[d]));
        out := StrikeDebris(out, d);
        SweepDebrisVisit(es, w, d, cur, grounded, out);
      } else {
        SweepSkip(es, w, d);
      }
      d := d + 1;
    }
    SweptAll(es, w);
  }

  /** Once every object is visited, the flags are the closed form. */
  lemma SweptAll(es: seq<Entity>, w: nat)
    requires w < |es|
    ensures forall x :: 0 <= x < |es| ==>
      SweptSoFar(es, w, |es|, x) == ((x == w && AnyReachesGround(es))
                                     || ReachesGround(es[x]) || StruckByBullet(es, x) || StrikesDebris(es, x))
  {
  }

  /** The flag of object x once the worlds before index w are visited. */
  predicate ResolvedSoFar(es: seq<Entity>, w: nat, x: nat)
    requires x < |es|
  {
    (x < w && es[x].Kind() == WorldKind && AnyReachesGround(es))
    || ((exists i :: 0 <= i < w && i < |es| && es[i].Kind() == WorldKind)
        && (ReachesGround(es[x]) || StruckByBullet(es, x) || StrikesDebris(es, x)))
  }

  /** Visiting an object that is not a world changes no flag. */
  lemma ResolveSkip(es: seq<Entity>, w: nat)
    requires w < |es| && es[w].Kind() != WorldKind
    ensures forall x :: 0 <= x < |es| ==> ResolvedSoFar(es, w + 1, x) == ResolvedSoFar(es, w, x)
  {
  }

  /** Visiting world w sets the flags its debris sweep adds, and leaves the
      other worlds as they are. */
  lemma ResolveVisit(es: seq<Entity>, w: nat, cur: seq<Entity>, next: seq<Entity>)
    requires w < |es| && es[w].Kind() == WorldKind && |cur| == |es| && |next| == |es|
    requires forall x :: 0 <= x < |es| ==> cur[x] == MarkIf(es[x], ResolvedSoFar(es, w, x))
    requires forall x :: 0 <= x < |es| ==>
      next[x] == MarkIf(cur[x], (x == w && AnyReachesGround(es))
                                || ReachesGround(es[x]) || StruckByBullet(es, x) || StrikesDebris(es, x))
    ensures forall x :: 0 <= x < |es| ==> next[x] == MarkIf(es[x], ResolvedSoFar(es, w + 1, x))
    ensures forall x :: 0 <= x < |es| && x != w && es[x].Kind() == WorldKind ==> next[x] == cur[x]
  {
    MarkIfTwice();
    forall x | 0 <= x < |es|
      ensures next[x] == MarkIf(es[x], ResolvedSoFar(es, w + 1, x))
    {
      var added := (x == w && AnyReachesGround(es))
                   || ReachesGround(es[x]) || StruckByBullet(es, x) || StrikesDebris(es, x);
      assert ResolvedSoFar(es, w + 1, x) == (ResolvedSoFar(es, w, x) || added);
    }
  }

  /** The outer visit, `forEach<World>`: sweep the debris for each world and
      request a restart when a world ends up destroyed. */
  method ResolveCollisions(es: seq<Entity>) returns (out: seq<Entity>, restart: bool)
    ensures out == Collided(es)
    ensures restart == RestartDue(out)
  {
    out := es;
    restart := false;
    var w := 0;
    while w < |out|
      invariant w <= |out| == |es|
      invariant SameLayout(out, es)
      invariant forall x :: 0 <= x < |es| ==> out[x] == MarkIf(es[x], ResolvedSoFar(es, w, x))
      invariant restart <==> exists i :: 0 <= i < w && out[i].WorldEntity? && out[i].world.destroyed
    {
      if out[w].WorldEntity? {
        ghost var cur := out;
        out := SweepDebris(out, w);
        LayoutDecides(cur, es);
        ResolveVisit(es, w, cur, out);
        if out[w].world.destroyed {
          restart := true;
        }
      } else {
        ResolveSkip(es, w);
      }
      w := w + 1;
    }
    forall x | 0 <= x < |es|
      ensures ResolvedSoFar(es, |es|, x) == Doomed(es, x)
    {
    }
  }

  /** A bullet and a piece of debris that overlap are both gone after the
      collision pass (when there is a world). */
  lemma HitDestroysBoth(es: seq<Entity>, j: nat, k: nat)
    requires j < |es| && k < |es| && HasWorld(es) && Hits(es[j], es[k])
    ensures Collided(es)[j].Destroyed() && Collided(es)[k].Destroyed()
  {
    assert StruckByBullet(es, j) && StrikesDebris(es, k);
  }

  // ---------------------------------------------------------------------
  // The other phases of a frame

  /** One entity's update (World::update does nothing). */
  function UpdateEntity(e: Entity, keys: Keys): (r: Entity)
    ensures r.Kind() == e.Kind()
    ensures e.Destroyed() ==> r.Destroyed()
    ensures r.Destroyed() && !e.Destroyed() ==> e.Kind() == BulletKind
    ensures e.Kind() == WorldKind ==> r == e
  {
    match e
    case PlayerEntity(p) => PlayerEntity(p.Update(keys))
    case WorldEntity(_) => e
    case DebrisEntity(d) => DebrisEntity(d.Update())
    case BulletEntity(b) => BulletEntity(b.Update())
  }

  function UpdatedAll(es: seq<Entity>, keys: Keys): seq<Entity> {
    seq(|es|, i requires 0 <= i < |es| => UpdateEntity(es[i], keys))
  }

  /** `updateEntities`: every entity updated once, in creation order. */
  method UpdateEntities(es: seq<Entity>, keys: Keys) returns (out: seq<Entity>)
    ensures out == UpdatedAll(es, keys)
  {
    out := es;
    for i := 0 to |out|
      invariant |out| == |es|
      invariant forall j :: 0 <= j < i ==> out[j] == UpdateEntity(es[j], keys)
      invariant forall j :: i <= j < |out| ==> out[j] == es[j]
    {
      out := out[i := UpdateEntity(out[i], keys)];
    }
  }

  /** The bullet a shooting player creates at its centre. */
  function ShotFrom(e: Entity): seq<Entity> {
    if e.PlayerEntity? && e.player.isShooting
    then [BulletEntity(NewBall(e.player.body.x, e.player.body.y))]
    else []
  }

  /** The bullets created by the visit of the players, in order. */
  function Shots(es: seq<Entity>): seq<Entity> {
    if es == [] then [] else Shots(es[..|es| - 1]) + ShotFrom(es[|es| - 1])
  }

  /** `forEach<Player>`: every shooting player adds one bullet at its centre
      to the end of the store. */
  method SpawnBullets(es: seq<Entity>) returns (out: seq<Entity>)
    ensures out == es + Shots(es)
  {
    out := es;
    for i := 0 to |es|
      invariant out == es + Shots(es[..i])
    {
      assert es[..i + 1][..i] == es[..i];
      if es[i].PlayerEntity? {
        var player := es[i].player;
        if player.isShooting {
          out := out + [BulletEntity(NewBall(player.body.x, player.body.y))];
        }
      }
    }
    assert es[..|es|] == es;
  }

  /** Objects other than players create no bullets. */
  lemma {:induction false} NoPlayerNoShots(es: seq<Entity>)
    requires forall i :: 0 <= i < |es| ==> es[i].Kind() != PlayerKind
    ensures Shots(es) == []
    decreases |es|
  {
    if es != [] {
      NoPlayerNoShots(es[..|es| - 1]);
    }
  }

  /** With the player first and no other player, the players' visit adds
      exactly one bullet, at the player's centre, when the player is
      shooting, and nothing otherwise. */
  lemma {:induction false} ShotsOfSinglePlayer(es: seq<Entity>)
    requires |es| >= 1 && es[0].PlayerEntity?
    requires forall i :: 1 <= i < |es| ==> es[i].Kind() != PlayerKind
    ensures Shots(es) == ShotFrom(es[0])
    ensures |Shots(es)| == (if es[0].player.isShooting then 1 else 0)
    decreases |es|
  {
    if |es| > 1 {
      ShotsOfSinglePlayer(es[..|es| - 1]);
    } else {
      assert es[..0] == [];
    }
  }

  // ---------------------------------------------------------------------
  // Restart

  /** Debris k of the field created by a restart: column k / 3, row k % 3,
      cells 85 wide and 35 high, shifted right by GridOffset. */
  function DebrisAt(k: nat): Entity {
    DebrisEntity(NewBrick(GridOffset + (k / 3 + 1) * (2 * BrickHalfWidth + GridGap),
                          (k % 3 + 1) * (2 * BrickHalfHeight + GridGap)))
  }

  /** The store right after a restart: the player standing on the world,
      the world along the bottom of the window, then nine pieces of debris. */
  function Fresh(): seq<Entity> {
    [PlayerEntity(NewPlayer(WindowWidth / 2, WindowHeight - 2 * WorldHalfHeight - 2 * PlayerHalfSize, WindowHeight)),
     WorldEntity(NewWorld(WindowWidth / 2, WindowHeight - 2 * WorldHalfHeight))]
    + seq(9, k requires 0 <= k < 9 => DebrisAt(k))
  }

  // ---------------------------------------------------------------------
  // A whole frame

  /** The entity phases of a frame that is in progress: update, spawn
      bullets, collide, erase the destroyed objects, and restart when a
      world was destroyed. */
  function Advance(es: seq<Entity>, keys: Keys): seq<Entity> {
    var updated := UpdatedAll(es, keys);
    var hit := Collided(updated + Shots(updated));
    if RestartDue(hit) then Fresh() else Survivors(hit, IsDestroyed)
  }

  /** The shape of every store the game reaches: empty (before the first
      restart) or the player, then the world, then only debris and bullets,
      with nothing destroyed between frames. */
  predicate WellFormed(es: seq<Entity>) {
    es == []
    || (|es| >= 2 && es[0].PlayerEntity? && es[0].player.Valid() && es[1].WorldEntity?
        && (forall i :: 2 <= i < |es| ==> es[i].Kind() == DebrisKind || es[i].Kind() == BulletKind)
        && (forall i :: 0 <= i < |es| ==> !es[i].Destroyed()))
  }

  lemma FreshWellFormed()
    ensures WellFormed(Fresh()) && |Fresh()| == 11
    ensures forall k :: 0 <= k < 9 ==> Fresh()[2 + k] == DebrisAt(k)
  {
  }

  /** Compaction keeps any property that holds of all of its input. */
  lemma {:induction false} SurvivorsKeepKind(s: seq<Entity>, k1: EntityKind, k2: EntityKind)
    requires forall i :: 0 <= i < |s| ==> s[i].Kind() == k1 || s[i].Kind() == k2
    ensures forall i :: 0 <= i < |Survivors(s, IsDestroyed)| ==>
      Survivors(s, IsDestroyed)[i].Kind() == k1 || Survivors(s, IsDestroyed)[i].Kind() == k2
    decreases |s|
  {
    if s != [] {
      SurvivorsKeepKind(s[..|s| - 1], k1, k2);
    }
  }

  /** The collision pass changes no kind and leaves players as they are. */
  lemma CollidedKeepsKinds(es: seq<Entity>)
    ensures |Collided(es)| == |es|
    ensures forall x :: 0 <= x < |es| ==> Collided(es)[x].Kind() == es[x].Kind()
    ensures forall x :: 0 <= x < |es| && es[x].PlayerEntity? ==> Collided(es)[x] == es[x]
  {
  }

  /** The update and spawn phases of a frame keep the player first, the
      world second and only debris and bullets after them. */
  lemma SpawnedLayout(es: seq<Entity>, keys: Keys)
    requires WellFormed(es) && es != []
    ensures var updated := UpdatedAll(es, keys);
      var spawned := updated + Shots(updated);
      |spawned| >= 2 && spawned[0] == PlayerEntity(es[0].player.Update(keys))
      && spawned[1].Kind() == WorldKind
      && forall i :: 2 <= i < |spawned| ==> spawned[i].Kind() == DebrisKind || spawned[i].Kind() == BulletKind
  {
    var updated := UpdatedAll(es, keys);
    assert forall i :: 1 <= i < |updated| ==> updated[i].Kind() == es[i].Kind();
    ShotsOfSinglePlayer(updated);
  }

  /** A live player and world followed by live debris and bullets form a
      well-formed store. */
  lemma JoinWellFormed(head: seq<Entity>, kept: seq<Entity>)
    requires |head| == 2 && head[0].PlayerEntity? && head[0].player.Valid() && head[1].WorldEntity?
    requires !head[1].Destroyed()
    requires forall i :: 0 <= i < |kept| ==> kept[i].Kind() == DebrisKind || kept[i].Kind() == BulletKind
    requires forall i :: 0 <= i < |kept| ==> !IsDestroyed(kept[i])
    ensures WellFormed(head + kept)
  {
    var out := head + kept;
    assert forall i :: 2 <= i < |out| ==> out[i] == kept[i - 2];
  }

  /** Erasing the destroyed objects from a store whose player and world
      come first and are alive leaves a well-formed store. */
  lemma CompactedWellFormed(hit: seq<Entity>)
    requires |hit| >= 2 && hit[0].PlayerEntity? && hit[0].player.Valid()
    requires hit[1].WorldEntity? && !hit[1].Destroyed()
    requires forall i :: 2 <= i < |hit| ==> hit[i].Kind() == DebrisKind || hit[i].Kind() == BulletKind
    ensures WellFormed(Survivors(hit, IsDestroyed))
  {
    SurvivorsOfLivePrefix(hit, 2, IsDestroyed);
    var rest := hit[2..];
    assert forall i :: 0 <= i < |rest| ==> rest[i] == hit[i + 2];
    SurvivorsKeepKind(rest, DebrisKind, BulletKind);
    JoinWellFormed(hit[..2], Survivors(rest, IsDestroyed));
  }

  /** Every frame that is in progress keeps the store well formed: the
      player and the world stay first, and no destroyed object is left. */
  lemma AdvanceKeepsWellFormed(es: seq<Entity>, keys: Keys)
    requires WellFormed(es)
    ensures WellFormed(Advance(es, keys))
  {
    var updated := UpdatedAll(es, keys);
    var spawned := updated + Shots(updated);
    var hit := Collided(spawned);
    FreshWellFormed();
    if es == [] {
      assert updated == [] && Shots(updated) == [];
      assert hit == [];
    } else if !RestartDue(hit) {
      SpawnedLayout(es, keys);
      CollidedKeepsKinds(spawned);
      PlayerValidPreserved(es[0].player, keys);
      assert hit[1].WorldEntity?;
      CompactedWellFormed(hit);
    }
  }

  /** In a well-formed store, a frame in progress restarts the game exactly
      when some debris has reached the bottom of the window after moving. */
  lemma RestartIffDebrisLands(es: seq<Entity>, keys: Keys)
    requires WellFormed(es) && es != []
    ensures var updated := UpdatedAll(es, keys);
      RestartDue(Collided(updated + Shots(updated))) <==> AnyReachesGround(updated + Shots(updated))
  {
    var updated := UpdatedAll(es, keys);
    var spawned := updated + Shots(updated);
    var hit := Collided(spawned);
    ShotsOfSinglePlayer(updated);
    assert spawned[1].Kind() == WorldKind;
    if AnyReachesGround(spawned) {
      assert hit[1].WorldEntity? && hit[1].world.destroyed;
    }
    if RestartDue(hit) {
      var i :| 0 <= i < |hit| && hit[i].WorldEntity? && hit[i].world.destroyed;
      assert i == 1;
    }
  }

  // ---------------------------------------------------------------------
  // Pause key debouncing

  function Toggled(s: GameState): (t: GameState)
    ensures t != s
  {
    if s == Paused then InProgress else Paused
  }

  /** The P key with debouncing: the state flips only on a frame where P is
      down and was not down on the previous frame; the returned flag records
      whether P is down now. */
  function PauseStep(state: GameState, pausedLastFrame: bool, p: bool): (r: (GameState, bool))
    ensures r.1 == p
    ensures r.0 != state <==> p && !pausedLastFrame
  {
    if p then (if !pausedLastFrame then Toggled(state) else state, true)
    else (state, false)
  }

  /** State and flag after holding P down for k frames. */
  function HoldPause(state: GameState, pausedLastFrame: bool, k: nat): (GameState, bool) {
    if k == 0 then (state, pausedLastFrame)
    else
      var (s, last) := HoldPause(state, pausedLastFrame, k - 1);
      PauseStep(s, last, true)
  }

  /** Holding P for any number k >= 1 of frames, from a frame where it was
      up, toggles the state exactly once. */
  lemma {:induction false} HoldingPauseTogglesOnce(state: GameState, k: nat)
    requires k >= 1
    ensures HoldPause(state, false, k) == (Toggled(state), true)
  {
    if k > 1 {
      HoldingPauseTogglesOnce(state, k - 1);
    }
  }

  // ---------------------------------------------------------------------
  // The game object

  class Game {
    var state: GameState
    var pausedLastFrame: bool
    var entities: seq<Entity>

    /** The game starts in progress with an empty store. */
    constructor ()
      ensures state == InProgress && !pausedLastFrame && entities == []
    {
      state := InProgress;
      pausedLastFrame := false;
      entities := [];
    }

    /** Empty the store and create the player, the world and the debris
        field. The state is NOT reset to InProgress: the source compares the
        state with InProgress instead of assigning it, so a game restarted
        while paused stays paused. */
    method RestartGame()
      modifies this
      ensures state == old(state) && pausedLastFrame == old(pausedLastFrame)
      ensures entities == Fresh()
    {
      var store := [];   // clearAll
      store := store + [PlayerEntity(NewPlayer(WindowWidth / 2, WindowHeight - 2 * WorldHalfHeight - 2 * PlayerHalfSize, WindowHeight))];
      store := store + [WorldEntity(NewWorld(WindowWidth / 2, WindowHeight - 2 * WorldHalfHeight))];
      for iX := 0 to 3
        invariant |store| == 2 + 3 * iX
        invariant store == Fresh()[..|store|]
      {
        for iY := 0 to 3
          invariant |store| == 2 + 3 * iX + iY
          invariant store == Fresh()[..|store|]
        {
          var x := (iX + 1) * (2 * BrickHalfWidth + GridGap);
          var y := (iY + 1) * (2 * BrickHalfHeight + GridGap);
          assert (3 * iX + iY) / 3 == iX && (3 * iX + iY) % 3 == iY;
          assert Fresh()[|store|] == DebrisAt(3 * iX + iY);
          store := store + [DebrisEntity(NewBrick(GridOffset + x, y))];
        }
      }
      entities := store;
    }

    /** One pass of the main loop (drawing left out); returns whether the
        loop ends. Escape ends it before anything changes. Otherwise the P
        key is debounced, R restarts, and only while in progress do the
        entities update, shoot, collide and get compacted, with a restart at
        the end of the frame when a world was destroyed. */
    method Step(keys: Keys) returns (exit: bool)
      modifies this
      ensures exit == keys.escape
      ensures exit ==> state == old(state) && pausedLastFrame == old(pausedLastFrame) && entities == old(entities)
      ensures !exit ==> (state, pausedLastFrame) == PauseStep(old(state), old(pausedLastFrame), keys.p)
      ensures !exit && state == Paused ==> entities == (if keys.r then Fresh() else old(entities))
      ensures !exit && state == InProgress ==> entities == Advance(if keys.r then Fresh() else old(entities), keys)
      ensures WellFormed(old(entities)) ==> WellFormed(entities)
    {
      if keys.escape {
        return true;
      }
      exit := false;

      if keys.p {
        if !pausedLastFrame {
          if state == Paused {
            state := InProgress;
          } else {
            state := Paused;
          }
        }
        pausedLastFrame := true;
      } else {
        pausedLastFrame := false;
      }

      if keys.r {
        RestartGame();
      }
      ghost var start := entities;
      FreshWellFormed();

      var restart := false;
      if state == InProgress {
        entities := UpdateEntities(entities, keys);
        entities := SpawnBullets(entities);
        entities, restart := ResolveCollisions(entities);
        entities := EraseRemove(entities, IsDestroyed);
        if WellFormed(start) {
          AdvanceKeepsWellFormed(start, keys);
        }
      }

      if restart {
        RestartGame();
      }
    }
  }
}
