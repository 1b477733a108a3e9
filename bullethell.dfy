/**
 * The entity model of the single-player game: square entities (the player
 * and the enemies) that move, shoot and take damage, and the bullets they
 * fire, plus the per-frame world step of the game loop.
 *
 * Positions are integers, as pygame's Rect stores them. The trigonometry
 * (a bullet's velocity from its angle, an enemy's aim from atan2) and the
 * random draws are inputs.
 */
module BulletHell {
  import opened Wrappers
  import opened Keyboard

  const WorldWidth: int := 500
  const WorldHeight: int := 500
  const EntitySize: int := 20
  const BulletSize: int := 10
  const PlayerSpeed: int := 5
  const EnemySpeed: int := 3
  const BulletSpeed: int := 2
  const ShootIntervalEnemy: int := 2000
  const ShootIntervalPlayer: int := 250
  const BulletDamage: int := 10
  const EnemySpawnMin: int := 250
  const EnemySpawnMax: int := 3000
  const EnemyActionInterval: int := 250
  const PlayerHealthMax: int := 100

  /**
   * The four directions of movement. An entity's action is a direction or
   * `None`: the game compares the action string with "left", "right", "up"
   * and "down", so any other string (the server's "none") moves nothing,
   * exactly as no action does.
   */
  datatype Direction = Left | Right | Up | Down

  /** The action update_position reads from an action string. */
  function ActionOf(name: string): (a: Option<Direction>)
    ensures a == Some(Left) <==> name == "left"
    ensures a == Some(Right) <==> name == "right"
    ensures a == Some(Up) <==> name == "up"
    ensures a == Some(Down) <==> name == "down"
  {
    if name == "left" then Some(Left)
    else if name == "right" then Some(Right)
    else if name == "up" then Some(Up)
    else if name == "down" then Some(Down)
    else None
  }

  /** The directions an enemy picks from with random.choice: ['left', 'right', 'up', 'down']. */
  const EnemyActions: seq<Direction> := [Left, Right, Up, Down]

  /** An index into EnemyActions: the outcome of random.choice. */
  type ChoiceIndex = i: int | 0 <= i < 4

  /** A random.randint(0, WORLD - ENTITY_SIZE) spawn coordinate. */
  type SpawnCoord = c: int | 0 <= c <= WorldWidth - EntitySize

  /** A random.randint(ENEMY_SPAWN_MIN, ENEMY_SPAWN_MAX) spawn interval. */
  type SpawnInterval = t: int | EnemySpawnMin <= t <= EnemySpawnMax witness EnemySpawnMin

  /**
   * The floating-point maths the model does not compute:
   * `bulletVelocity(angle)` is (cos, sin) of the angle times BULLET_SPEED,
   * `aimAngle(dx, dy)` is degrees(atan2(dy, dx)).
   */
  datatype Trig = Trig(bulletVelocity: int -> (int, int), aimAngle: (int, int) -> int)
  {
    /** The velocity of a bullet fired at `angle` degrees. */
    function Velocity(angle: int): (int, int) { bulletVelocity(angle) }

    /** The angle, in degrees, of the vector (dx, dy). */
    function Aim(dx: int, dy: int): int { aimAngle(dx, dy) }
  }

  // ---------------------------------------------------------------------
  // Geometry
  // ---------------------------------------------------------------------

  /**
   * pygame's Rect.colliderect for two rectangles of positive size: they
   * overlap exactly when the corner where their top and left edges meet
   * lies inside both.
   */
  predicate RectsCollide(x1: int, y1: int, w1: int, h1: int, x2: int, y2: int, w2: int, h2: int)
    ensures w1 > 0 && h1 > 0 && w2 > 0 && h2 > 0 ==>
      (RectsCollide(x1, y1, w1, h1, x2, y2, w2, h2) <==>
       var px, py := if x1 >= x2 then x1 else x2, if y1 >= y2 then y1 else y2;
       InRect(px, py, x1, y1, w1, h1) && InRect(px, py, x2, y2, w2, h2))
  {
    x1 < x2 + w2 && x2 < x1 + w1 && y1 < y2 + h2 && y2 < y1 + h1
  }

  /** The point (px, py) lies in the half-open rectangle of size w x h at (x, y). */
  predicate InRect(px: int, py: int, x: int, y: int, w: int, h: int)
  {
    x <= px < x + w && y <= py < y + h
  }

  /** Two rectangles of positive size collide exactly when some point lies in both. */
  lemma CollideIffSharePoint(x1: int, y1: int, w1: int, h1: int, x2: int, y2: int, w2: int, h2: int)
    requires w1 > 0 && h1 > 0 && w2 > 0 && h2 > 0
    ensures RectsCollide(x1, y1, w1, h1, x2, y2, w2, h2) <==>
      exists px, py :: InRect(px, py, x1, y1, w1, h1) && InRect(px, py, x2, y2, w2, h2)
  {
    if RectsCollide(x1, y1, w1, h1, x2, y2, w2, h2) {
      var px := if x1 >= x2 then x1 else x2;
      var py := if y1 >= y2 then y1 else y2;
      assert InRect(px, py, x1, y1, w1, h1) && InRect(px, py, x2, y2, w2, h2);
    }
  }

  /** `max(0, min(extent - size, v))`: keeps a square of `size` inside [0, extent]. */
  function ClampToWorld(v: int, size: int, extent: int): (r: int)
    requires 0 <= size <= extent
    ensures 0 <= r <= extent - size
    ensures 0 <= v <= extent - size ==> r == v
  {
    var m := if extent - size <= v then extent - size else v;
    if 0 >= m then 0 else m
  }

  /**
   * The step update_position takes before clamping: a direction changes
   * exactly one coordinate by exactly `speed`; any other action, "none" and
   * no action at all included, changes nothing.
   */
  function Displace(x: int, y: int, speed: int, action: Option<Direction>): (r: (int, int))
    ensures action.Some? ==>
      (r.1 == y && Dist(r.0, x) == Dist(speed, 0)) || (r.0 == x && Dist(r.1, y) == Dist(speed, 0))
    ensures action == Some(Left) || action == Some(Right) ==> r.1 == y
    ensures action == Some(Up) || action == Some(Down) ==> r.0 == x
    ensures action == None ==> r == (x, y)
  {
    match action
    case Some(Left) => (x - speed, y)
    case Some(Right) => (x + speed, y)
    case Some(Up) => (x, y - speed)
    case Some(Down) => (x, y + speed)
    case None => (x, y)
  }

  /** The distance between two integers. */
  function Dist(a: int, b: int): nat
  {
    if a >= b then a - b else b - a
  }

  /** update_position on a position: displace by the action, then clamp into the world. */
  function Moved(x: int, y: int, speed: int, size: int, action: Option<Direction>): (r: (int, int))
    requires 0 <= size <= WorldWidth && size <= WorldHeight
    ensures 0 <= r.0 <= WorldWidth - size && 0 <= r.1 <= WorldHeight - size
  {
    var d := Displace(x, y, speed, action);
    (ClampToWorld(d.0, size, WorldWidth), ClampToWorld(d.1, size, WorldHeight))
  }

  /**
   * From a position inside the world, one update_position moves along at
   * most one axis and by at most `speed`; without a direction it stays put.
   */
  lemma MovedIsOneShortStep(x: int, y: int, speed: int, size: int, action: Option<Direction>)
    requires 0 <= size <= WorldWidth && size <= WorldHeight && speed >= 0
    requires 0 <= x <= WorldWidth - size && 0 <= y <= WorldHeight - size
    ensures var r := Moved(x, y, speed, size, action);
      (r.0 == x || r.1 == y) && Dist(r.0, x) + Dist(r.1, y) <= speed
    ensures action == None ==> Moved(x, y, speed, size, action) == (x, y)
  {
  }

  /** Bullet.is_off_screen on a position: the world edges themselves are still on screen. */
  predicate OffWorld(x: int, y: int)
  {
    x < 0 || x > WorldWidth || y < 0 || y > WorldHeight
  }

  /** The on-screen region is the closed square [0, 500] x [0, 500], corners included. */
  lemma OnWorldIsClosedSquare(x: int, y: int)
    ensures !OffWorld(x, y) <==> 0 <= x <= WorldWidth && 0 <= y <= WorldHeight
    ensures !OffWorld(WorldWidth, WorldHeight) && OffWorld(WorldWidth + 1, y) && OffWorld(x, -1)
  {
  }

  /** The centre coordinate of a square of `size` at `pos`: `pos + size // 2`. */
  function Centre(pos: int, size: int): int
    requires size >= 0
  {
    pos + size / 2
  }

  /** The shoot, re-roll and spawn timers: `interval` milliseconds have elapsed since `last`. */
  predicate Due(last: real, interval: int, now: real)
  {
    now - last >= interval as real
  }

  // ---------------------------------------------------------------------
  // Bullets
  // ---------------------------------------------------------------------

  class Bullet {
    var x: int
    var y: int
    const size: int := BulletSize
    const angle: int
    const speed: int := BulletSpeed
    const damage: int
    const isFriendly: bool
    const velX: int
    const velY: int

    /** Bullet.__init__: the velocity is fixed once, from the angle. */
    constructor (x: int, y: int, angle: int, damage: int, isFriendly: bool, trig: Trig)
      ensures this.x == x && this.y == y && this.angle == angle
      ensures this.damage == damage && this.isFriendly == isFriendly
      ensures (velX, velY) == trig.Velocity(angle)
    {
      this.x := x;
      this.y := y;
      this.angle := angle;
      this.damage := damage;
      this.isFriendly := isFriendly;
      velX := trig.Velocity(angle).0;
      velY := trig.Velocity(angle).1;
    }

    /** Bullet.update: one step along the fixed velocity (velocity, damage and team are constants). */
    method Update()
      modifies this`x, this`y
      ensures x == old(x) + velX && y == old(y) + velY
    {
      x := x + velX;
      y := y + velY;
    }

    /** Bullet.is_off_screen: the bullet has left the closed square [0, 500] x [0, 500]. */
    predicate IsOffScreen()
      reads this
      ensures 0 <= x <= WorldWidth && 0 <= y <= WorldHeight ==> !IsOffScreen()
    {
      OffWorld(x, y)
    }
  }

  /** The constant fields spawn_bullet gives a shot along `angle` for team `friendly`. */
  predicate ShotKind(b: Bullet, angle: int, friendly: bool, trig: Trig)
  {
    b.angle == angle && b.damage == BulletDamage && b.isFriendly == friendly &&
    (b.velX, b.velY) == trig.Velocity(angle)
  }

  /** Where spawn_bullet puts a shot from a square of `size` at (x, y): at its centre. */
  predicate ShotAt(b: Bullet, x: int, y: int, size: int)
    reads b
  {
    0 <= size && b.x == Centre(x, size) && b.y == Centre(y, size)
  }

  /** No reference occurs twice. */
  ghost predicate Distinct<T>(s: seq<T>)
  {
    forall i, j | 0 <= i < j < |s| :: s[i] != s[j]
  }

  /** In a list without duplicates every element occurs once. */
  lemma {:induction false} DistinctCountsOne<T>(s: seq<T>)
    requires Distinct(s)
    ensures forall e | e in s :: multiset(s)[e] == 1
  {
    if s != [] {
      var n := |s| - 1;
      assert s == s[..n] + [s[n]];
      assert Distinct(s[..n]);
      DistinctCountsOne(s[..n]);
      assert s[n] !in s[..n];
      forall e | e in s
        ensures multiset(s)[e] == 1
      {
        if e != s[n] {
          assert e in s[..n];
        }
      }
    }
  }

  /** A list whose every element occurs once has no duplicates. */
  lemma CountsOneDistinct<T>(s: seq<T>)
    requires forall e | e in s :: multiset(s)[e] == 1
    ensures Distinct(s)
  {
    forall i, j | 0 <= i < j < |s|
      ensures s[i] != s[j]
    {
      assert s == s[..i] + [s[i]] + s[i + 1..j] + [s[j]] + s[j + 1..];
      assert multiset(s)[s[i]] >= 1 + multiset([s[j]])[s[i]];
    }
  }

  /** In a list without duplicates, the element at `i` occurs neither before nor after `i`. */
  lemma DistinctSplit<T>(s: seq<T>, i: int)
    requires Distinct(s) && 0 <= i < |s|
    ensures s[i] !in s[..i] && s[i] !in s[i + 1..]
    ensures forall j | 0 <= j < |s| && j != i :: s[j] != s[i]
  {
    assert s == s[..i] + [s[i]] + s[i + 1..];
    assert multiset(s)[s[i]] == multiset(s[..i])[s[i]] + 1 + multiset(s[i + 1..])[s[i]];
    forall j | 0 <= j < |s| && j != i
      ensures s[j] != s[i]
    {
      if j < i {
        assert s[j] == s[..i][j];
      } else {
        assert s[j] == s[i + 1..][j - i - 1];
      }
    }
  }

  /**
   * The bullets that hit a square at (x, y) of `size` on team `friendly`,
   * in input order.
   */
  function Hits(x: int, y: int, size: int, friendly: bool, bullets: seq<Bullet>): (h: seq<Bullet>)
    reads bullets
    ensures |h| <= |bullets|
  {
    if bullets == [] then []
    else
      var last := bullets[|bullets| - 1];
      var hit := (friendly && !last.isFriendly) || (!friendly && last.isFriendly);
      Hits(x, y, size, friendly, bullets[..|bullets| - 1])
        + (if RectsCollide(x, y, size, size, last.x, last.y, last.size, last.size) && hit then [last] else [])
  }

  /** One pass of is_colliding's loop: bullet `i` is kept and its damage added when it hits. */
  method CollectOne(x: int, y: int, size: int, friendly: bool, bullets: seq<Bullet>, i: int,
                    hits: seq<Bullet>, damage: int)
    returns (hits': seq<Bullet>, damage': int)
    requires 0 <= i < |bullets|
    requires hits == Hits(x, y, size, friendly, bullets[..i]) && damage == TotalDamage(hits)
    ensures hits' == Hits(x, y, size, friendly, bullets[..i + 1]) && damage' == TotalDamage(hits')
  {
    var bullet := bullets[i];
    HitsSnoc(x, y, size, friendly, bullets, i);
    hits', damage' := hits, damage;
    if RectsCollide(x, y, size, size, bullet.x, bullet.y, bullet.size, bullet.size) {
      if (friendly && !bullet.isFriendly) || (!friendly && bullet.isFriendly) {
        TotalDamageSnoc(hits, bullet);
        damage' := damage + bullet.damage;
        hits' := hits + [bullet];
      }
    }
  }

  /** The loop of is_colliding: the hits in order, and the damage they add up to. */
  method CollectHits(x: int, y: int, size: int, friendly: bool, bullets: seq<Bullet>)
    returns (hits: seq<Bullet>, damage: int)
    ensures hits == Hits(x, y, size, friendly, bullets)
    ensures damage == TotalDamage(hits)
  {
    hits := [];
    damage := 0;
    var i := 0;
    while i < |bullets|
      invariant 0 <= i <= |bullets|
      invariant hits == Hits(x, y, size, friendly, bullets[..i])
      invariant damage == TotalDamage(hits)
    {
      hits, damage := CollectOne(x, y, size, friendly, bullets, i, hits, damage);
      i := i + 1;
    }
    assert bullets[..i] == bullets;
  }

  /** Extending the list by one bullet extends the hits by that bullet exactly when it hits. */
  lemma HitsSnoc(x: int, y: int, size: int, friendly: bool, bullets: seq<Bullet>, i: int)
    requires 0 <= i < |bullets|
    ensures Hits(x, y, size, friendly, bullets[..i + 1]) ==
      Hits(x, y, size, friendly, bullets[..i]) +
      (if RectsCollide(x, y, size, size, bullets[i].x, bullets[i].y, bullets[i].size, bullets[i].size) &&
          ((friendly && !bullets[i].isFriendly) || (!friendly && bullets[i].isFriendly))
       then [bullets[i]] else [])
  {
    assert bullets[..i + 1][..i] == bullets[..i];
  }

  /** The damage of one more hit adds up. */
  lemma TotalDamageSnoc(hits: seq<Bullet>, b: Bullet)
    ensures TotalDamage(hits + [b]) == TotalDamage(hits) + b.damage
  {
    assert (hits + [b])[..|hits|] == hits;
  }

  /** A bullet hits exactly when it is in the list, overlaps the square and is on the other team. */
  lemma {:induction false} HitsAreOverlappingOpponents(x: int, y: int, size: int, friendly: bool, bullets: seq<Bullet>)
    ensures forall b | b in Hits(x, y, size, friendly, bullets) ::
      b in bullets && b.isFriendly != friendly && RectsCollide(x, y, size, size, b.x, b.y, b.size, b.size)
    ensures forall b | b in bullets && b.isFriendly != friendly && RectsCollide(x, y, size, size, b.x, b.y, b.size, b.size) ::
      b in Hits(x, y, size, friendly, bullets)
  {
    if bullets != [] {
      var init := bullets[..|bullets| - 1];
      HitsAreOverlappingOpponents(x, y, size, friendly, init);
      assert bullets == init + [bullets[|bullets| - 1]];
    }
  }

  /** A bullet of the entity's own team is never among the hits. */
  lemma SameTeamNeverHits(x: int, y: int, size: int, friendly: bool, bullets: seq<Bullet>, b: Bullet)
    requires b.isFriendly == friendly
    ensures b !in Hits(x, y, size, friendly, bullets)
  {
    HitsAreOverlappingOpponents(x, y, size, friendly, bullets);
  }

  /**
   * The hits keep the input order: the hits of a concatenation are the hits
   * of the first part followed by the hits of the second.
   */
  lemma {:induction false} HitsKeepOrder(x: int, y: int, size: int, friendly: bool, a: seq<Bullet>, b: seq<Bullet>)
    ensures Hits(x, y, size, friendly, a + b) == Hits(x, y, size, friendly, a) + Hits(x, y, size, friendly, b)
  {
    if b == [] {
      assert a + b == a;
    } else {
      var init := b[..|b| - 1];
      HitsKeepOrder(x, y, size, friendly, a, init);
      assert (a + b)[..|a + b| - 1] == a + init;
    }
  }

  /**
   * Where bullets stood at one moment. A frame's collisions happen before
   * its bullet pass moves every bullet on, so what a collision met is
   * stated against the positions recorded before that pass.
   */
  type Spots = map<Bullet, (int, int)>

  /** Every bullet of `bs` stands where `at` records it. */
  ghost predicate Stood(bs: seq<Bullet>, at: Spots)
    reads bs
  {
    forall b | b in bs :: b in at && at[b] == (b.x, b.y)
  }

  /** Every bullet of `bs` stood, in the old state, where `at` records it. */
  twostate predicate StoodBefore(bs: seq<Bullet>, new at: Spots)
  {
    forall b | b in bs :: b in at && at[b] == (old(b.x), old(b.y))
  }

  /** Every bullet of `bs` has flown on by its velocity from where `at` records it. */
  ghost predicate FlewFrom(bs: seq<Bullet>, at: Spots)
    reads bs
  {
    forall i | 0 <= i < |bs| ::
      bs[i] in at && bs[i].x == at[bs[i]].0 + bs[i].velX && bs[i].y == at[bs[i]].1 + bs[i].velY
  }

  /** The positions of the bullets of `bs`, as they stand now. */
  ghost function SpotsOf(bs: set<Bullet>): Spots
    reads bs
  {
    map b | b in bs :: (b.x, b.y)
  }

  /** The hits of is_colliding, with the bullets standing where `at` records them. */
  function HitsAt(x: int, y: int, size: int, friendly: bool, bullets: seq<Bullet>, at: Spots): seq<Bullet>
  {
    if bullets == [] then []
    else
      var last := bullets[|bullets| - 1];
      var hit := (friendly && !last.isFriendly) || (!friendly && last.isFriendly);
      HitsAt(x, y, size, friendly, bullets[..|bullets| - 1], at)
        + (if last in at && RectsCollide(x, y, size, size, at[last].0, at[last].1, last.size, last.size) && hit
           then [last] else [])
  }

  /** While the bullets stand where `at` records them, the hits there are the hits now. */
  lemma {:induction false} HitsAtNow(x: int, y: int, size: int, friendly: bool, bullets: seq<Bullet>, at: Spots)
    requires Stood(bullets, at)
    ensures HitsAt(x, y, size, friendly, bullets, at) == Hits(x, y, size, friendly, bullets)
  {
    if bullets != [] {
      var init := bullets[..|bullets| - 1];
      assert Stood(init, at);
      HitsAtNow(x, y, size, friendly, init, at);
    }
  }

  /** The health an entity loses to a list of hits: the sum of their damages. */
  function TotalDamage(bullets: seq<Bullet>): int
  {
    if bullets == [] then 0 else TotalDamage(bullets[..|bullets| - 1]) + bullets[|bullets| - 1].damage
  }

  /** `if x in s: s.remove(x)`: drop the first occurrence of `x`, if any. */
  function RemoveFirst<T(==)>(s: seq<T>, x: T): seq<T>
  {
    if s == [] then []
    else if s[0] == x then s[1..]
    else [s[0]] + RemoveFirst(s[1..], x)
  }

  /** Exactly one occurrence of `x` goes, when there is one; otherwise the list is unchanged. */
  lemma {:induction false} RemoveFirstMultiset<T>(s: seq<T>, x: T)
    ensures multiset(RemoveFirst(s, x)) == multiset(s) - multiset{x}
    ensures x !in s ==> RemoveFirst(s, x) == s
  {
    if s != [] {
      assert s == [s[0]] + s[1..];
      if s[0] != x {
        RemoveFirstMultiset(s[1..], x);
      }
    }
  }

  /** Without duplicates, removing the first occurrence removes `x` altogether and keeps the rest distinct. */
  lemma DistinctRemoveFirst<T>(s: seq<T>, x: T)
    requires Distinct(s)
    ensures Distinct(RemoveFirst(s, x)) && x !in RemoveFirst(s, x)
  {
    var r := RemoveFirst(s, x);
    RemoveFirstMultiset(s, x);
    DistinctCountsOne(s);
    assert forall e | e in r :: e in multiset(r);
    assert x in r ==> x in multiset(r);
    CountsOneDistinct(r);
  }

  /** Removing never adds an element. */
  lemma RemoveFirstShrinks<T>(s: seq<T>, x: T)
    ensures forall e | e in RemoveFirst(s, x) :: e in s
  {
    var r := RemoveFirst(s, x);
    RemoveFirstMultiset(s, x);
    assert forall e | e in r :: e in multiset(r);
  }

  lemma MultisetRemoveOneMore<T>(a: multiset<T>, b: multiset<T>, x: T)
    ensures (a - b) - multiset{x} == a - (b + multiset{x})
  {
  }

  /** The first occurrence of `x` lies after a prefix that does not contain it. */
  lemma {:induction false} RemoveFirstAfterPrefix<T>(a: seq<T>, x: T, b: seq<T>)
    requires x !in a
    ensures RemoveFirst(a + [x] + b, x) == a + b
  {
    var s := a + [x] + b;
    if a == [] {
      assert s == [x] + b;
    } else {
      assert s[0] == a[0] && s[1..] == a[1..] + [x] + b;
      RemoveFirstAfterPrefix(a[1..], x, b);
      assert a == [a[0]] + a[1..];
    }
  }

  /** `for x in xs: if x in s: s.remove(x)`. */
  function RemoveAll<T(==)>(s: seq<T>, xs: seq<T>): seq<T>
    decreases |xs|
  {
    if xs == [] then s else RemoveAll(RemoveFirst(s, xs[0]), xs[1..])
  }

  /** The removals take one occurrence of each listed element that is present, and nothing else. */
  lemma {:induction false} RemoveAllMultiset<T>(s: seq<T>, xs: seq<T>)
    ensures multiset(RemoveAll(s, xs)) == multiset(s) - multiset(xs)
    decreases |xs|
  {
    if xs != [] {
      RemoveAllMultiset(RemoveFirst(s, xs[0]), xs[1..]);
      RemoveFirstMultiset(s, xs[0]);
      assert xs == [xs[0]] + xs[1..];
      MultisetRemoveOneMore(multiset(s), multiset{xs[0]}, xs[0]);
      assert multiset(xs) == multiset{xs[0]} + multiset(xs[1..]);
    }
  }

  /** On a list without duplicates the removals leave none of the listed elements behind. */
  lemma {:induction false} RemoveAllDistinct<T>(s: seq<T>, xs: seq<T>)
    requires Distinct(s)
    ensures Distinct(RemoveAll(s, xs))
    ensures forall e | e in xs :: e !in RemoveAll(s, xs)
    decreases |xs|
  {
    if xs != [] {
      var s' := RemoveFirst(s, xs[0]);
      DistinctRemoveFirst(s, xs[0]);
      RemoveAllDistinct(s', xs[1..]);
      RemoveAllShrinks(s', xs[1..]);
      assert forall e | e in xs :: e == xs[0] || e in xs[1..];
    }
  }

  /** The removals never add an element. */
  lemma {:induction false} RemoveAllShrinks<T>(s: seq<T>, xs: seq<T>)
    ensures forall e | e in RemoveAll(s, xs) :: e in s
    decreases |xs|
  {
    if xs != [] {
      RemoveFirstShrinks(s, xs[0]);
      RemoveAllShrinks(RemoveFirst(s, xs[0]), xs[1..]);
    }
  }

  /**
   * The removal loop the game runs after every collision check. It removes
   * one occurrence of each listed element that is present and nothing else;
   * on a list without duplicates no listed element is left.
   */
  method RemoveEach<T(==)>(s: seq<T>, xs: seq<T>) returns (r: seq<T>)
    ensures r == RemoveAll(s, xs)
    ensures forall e | e in r :: e in s
    ensures Distinct(s) ==> Distinct(r) && forall e | e in xs :: e !in r
  {
    r := s;
    var i := 0;
    while i < |xs|
      invariant 0 <= i <= |xs|
      invariant RemoveAll(s, xs) == RemoveAll(r, xs[i..])
    {
      assert xs[i..][1..] == xs[i + 1..];
      r := RemoveFirst(r, xs[i]);
      i := i + 1;
    }
    RemoveAllShrinks(s, xs);
    if Distinct(s) {
      RemoveAllDistinct(s, xs);
    }
  }

  /** The bullets of a list still on screen, in order. */
  function OnScreen(bullets: seq<Bullet>): seq<Bullet>
    reads bullets
  {
    if bullets == [] then []
    else
      var last := bullets[|bullets| - 1];
      OnScreen(bullets[..|bullets| - 1]) + (if last.IsOffScreen() then [] else [last])
  }

  /** A bullet survives the bullet pass exactly when it is in the list and on screen. */
  lemma {:induction false} OnScreenKeepsVisible(bullets: seq<Bullet>)
    ensures forall b | b in OnScreen(bullets) :: b in bullets && !b.IsOffScreen()
    ensures forall b | b in bullets && !b.IsOffScreen() :: b in OnScreen(bullets)
  {
    if bullets != [] {
      OnScreenKeepsVisible(bullets[..|bullets| - 1]);
      assert bullets == bullets[..|bullets| - 1] + [bullets[|bullets| - 1]];
    }
  }

  lemma {:induction false} UnflaggedSubMultiset<T>(s: seq<T>, off: seq<bool>)
    requires |off| == |s|
    ensures multiset(Unflagged(s, off)) <= multiset(s)
  {
    if s != [] {
      var n := |s| - 1;
      UnflaggedSubMultiset(s[..n], off[..n]);
      assert s == s[..n] + [s[n]];
      assert multiset(s) == multiset(s[..n]) + multiset{s[n]};
      var tail := if off[n] then [] else [s[n]];
      assert Unflagged(s, off) == Unflagged(s[..n], off[..n]) + tail;
      assert multiset(Unflagged(s, off)) == multiset(Unflagged(s[..n], off[..n])) + multiset(tail);
    }
  }

  /** Dropping flagged elements from a list without duplicates leaves it without duplicates. */
  lemma UnflaggedDistinct<T>(s: seq<T>, off: seq<bool>)
    requires |off| == |s| && Distinct(s)
    ensures Distinct(Unflagged(s, off))
  {
    UnflaggedSubMultiset(s, off);
    SubMultisetDistinct(Unflagged(s, off), s);
  }

  /** Appending a new element keeps a list without duplicates. */
  lemma DistinctAppend<T>(s: seq<T>, x: T)
    requires Distinct(s) && x !in s
    ensures Distinct(s + [x])
  {
    assert forall e | e in s + [x] :: multiset(s + [x])[e] == multiset(s)[e] + multiset{x}[e];
  }

  /** Dropping elements from a list without duplicates leaves it without duplicates. */
  lemma SubMultisetDistinct<T>(a: seq<T>, b: seq<T>)
    requires multiset(a) <= multiset(b) && Distinct(b)
    ensures Distinct(a)
  {
    DistinctCountsOne(b);
    assert forall e | e in a :: e in multiset(a) && e in multiset(b);
    CountsOneDistinct(a);
  }

  /** The elements of `s` whose flag in `off` is false, in order. */
  function Unflagged<T>(s: seq<T>, off: seq<bool>): seq<T>
    requires |off| == |s|
  {
    if s == [] then []
    else Unflagged(s[..|s| - 1], off[..|s| - 1]) + (if off[|s| - 1] then [] else [s[|s| - 1]])
  }

  lemma UnflaggedSnoc<T>(s: seq<T>, off: seq<bool>, x: T, f: bool)
    requires |off| == |s|
    ensures Unflagged(s + [x], off + [f]) == Unflagged(s, off) + (if f then [] else [x])
  {
    assert (s + [x])[..|s|] == s;
    assert (off + [f])[..|s|] == off;
  }

  /**
   * One step of a `for x in s[:]` loop that removes the flagged elements:
   * the list stays "kept so far" followed by "not yet visited".
   */
  lemma {:induction false} UnflaggedStep<T>(s: seq<T>, i: int, off: seq<bool>, kept: seq<T>, f: bool)
    requires 0 <= i < |s| && |off| == i && s[i] !in s[..i]
    requires kept == Unflagged(s[..i], off) + s[i..]
    ensures (if f then RemoveFirst(kept, s[i]) else kept) == Unflagged(s[..i + 1], off + [f]) + s[i + 1..]
  {
    var done := Unflagged(s[..i], off);
    assert s[..i + 1] == s[..i] + [s[i]];
    assert kept == done + [s[i]] + s[i + 1..] by {
      assert s[i..] == [s[i]] + s[i + 1..];
    }
    UnflaggedSnoc(s[..i], off, s[i], f);
    if f {
      UnflaggedShrinks(s[..i], off);
      RemoveFirstAfterPrefix(done, s[i], s[i + 1..]);
    }
  }

  lemma {:induction false} UnflaggedShrinks<T>(s: seq<T>, off: seq<bool>)
    requires |off| == |s|
    ensures forall e | e in Unflagged(s, off) :: e in s
  {
    if s != [] {
      UnflaggedShrinks(s[..|s| - 1], off[..|s| - 1]);
    }
  }

  /** Flags that record which bullets are off screen select exactly the bullets on screen. */
  lemma {:induction false} UnflaggedIsOnScreen(bullets: seq<Bullet>, off: seq<bool>)
    requires |off| == |bullets|
    requires forall j | 0 <= j < |bullets| :: off[j] == bullets[j].IsOffScreen()
    ensures Unflagged(bullets, off) == OnScreen(bullets)
  {
    if bullets != [] {
      UnflaggedIsOnScreen(bullets[..|bullets| - 1], off[..|bullets| - 1]);
    }
  }

  /** Every bullet of `kept` comes from `bullets` and is on screen. */
  ghost predicate Survivors(kept: seq<Bullet>, bullets: seq<Bullet>)
    reads kept
  {
    forall b | b in kept :: b in bullets && !b.IsOffScreen()
  }

  /** Every bullet of `bullets` has moved by its velocity since the old state. */
  twostate predicate Flew(bullets: seq<Bullet>)
    reads bullets
  {
    forall i | 0 <= i < |bullets| ::
      bullets[i].x == old(bullets[i].x) + bullets[i].velX && bullets[i].y == old(bullets[i].y) + bullets[i].velY
  }

  /** The bullets kept by the bullet pass are all on screen. */
  lemma KeptAreOnScreen(bullets: seq<Bullet>, off: seq<bool>)
    requires |off| == |bullets|
    requires forall j | 0 <= j < |bullets| :: off[j] == bullets[j].IsOffScreen()
    ensures Survivors(Unflagged(bullets, off), bullets)
  {
    UnflaggedIsOnScreen(bullets, off);
    OnScreenKeepsVisible(bullets);
  }

  /**
   * The state of the bullet pass after its first `i` turns, given the
   * positions `x0`, `y0` the bullets had before it: those bullets have moved
   * by their velocity and `off` flags those now off screen, the others
   * have not moved, and `kept` is the pass's list with the flagged ones gone.
   */
  ghost predicate BulletsAdvanced(bullets: seq<Bullet>, x0: seq<int>, y0: seq<int>, i: int,
                                  kept: seq<Bullet>, off: seq<bool>)
    reads bullets
  {
    0 <= i <= |bullets| && |off| == i && |x0| == |y0| == |bullets| &&
    kept == Unflagged(bullets[..i], off) + bullets[i..] &&
    (forall j | 0 <= j < i ::
      off[j] == bullets[j].IsOffScreen() &&
      bullets[j].x == x0[j] + bullets[j].velX && bullets[j].y == y0[j] + bullets[j].velY) &&
    (forall j | i <= j < |bullets| :: bullets[j].x == x0[j] && bullets[j].y == y0[j])
  }

  /**
   * One turn of the bullet pass: the `i`-th bullet moves by its velocity
   * and, if it is now off screen, `bullets.remove` takes it out of the
   * list still being thinned.
   */
  method AdvanceOne(bullets: seq<Bullet>, ghost x0: seq<int>, ghost y0: seq<int>, i: int,
                    kept: seq<Bullet>, ghost off: seq<bool>)
    returns (kept': seq<Bullet>, ghost off': seq<bool>)
    requires i < |bullets| && Distinct(bullets) && BulletsAdvanced(bullets, x0, y0, i, kept, off)
    modifies bullets[i]
    ensures BulletsAdvanced(bullets, x0, y0, i + 1, kept', off')
  {
    DistinctSplit(bullets, i);
    var bullet := bullets[i];
    bullet.Update();
    var gone := bullet.IsOffScreen();
    UnflaggedStep(bullets, i, off, kept, gone);
    kept' := kept;
    if gone {
      kept' := RemoveFirst(kept, bullet);
    }
    off' := off + [gone];
  }

  /**
   * The loop of the bullet pass, `for bullet in bullets[:]`, from the
   * positions `x0`, `y0` the bullets start at.
   */
  method AdvanceAll(bullets: seq<Bullet>, ghost x0: seq<int>, ghost y0: seq<int>)
    returns (kept: seq<Bullet>, ghost off: seq<bool>)
    requires Distinct(bullets) && |x0| == |y0| == |bullets|
    requires forall j | 0 <= j < |bullets| :: x0[j] == bullets[j].x && y0[j] == bullets[j].y
    modifies bullets
    ensures BulletsAdvanced(bullets, x0, y0, |bullets|, kept, off)
  {
    kept := bullets;
    off := [];
    var i := 0;
    while i < |bullets|
      invariant BulletsAdvanced(bullets, x0, y0, i, kept, off)
    {
      kept, off := AdvanceOne(bullets, x0, y0, i, kept, off);
      i := i + 1;
    }
  }

  /**
   * The bullet pass of a frame: each bullet moves by its velocity and is
   * removed if it is now off screen; the kept ones stay in order.
   */
  method AdvanceBullets(bullets: seq<Bullet>, ghost at: Spots) returns (kept: seq<Bullet>, ghost off: seq<bool>)
    requires Distinct(bullets) && Stood(bullets, at)
    modifies bullets
    ensures Flew(bullets) && FlewFrom(bullets, at)
    ensures |off| == |bullets| && forall i | 0 <= i < |bullets| :: off[i] == bullets[i].IsOffScreen()
    ensures kept == Unflagged(bullets, off) && kept == OnScreen(bullets) && Distinct(kept)
  {
    ghost var x0 := seq(|bullets|, j requires 0 <= j < |bullets| reads bullets => bullets[j].x);
    ghost var y0 := seq(|bullets|, j requires 0 <= j < |bullets| reads bullets => bullets[j].y);
    kept, off := AdvanceAll(bullets, x0, y0);
    assert bullets[..|bullets|] == bullets;
    UnflaggedDistinct(bullets, off);
    UnflaggedIsOnScreen(bullets, off);
  }

  // ---------------------------------------------------------------------
  // Entities
  // ---------------------------------------------------------------------

  datatype Kind = PlayerKind | EnemyKind

  /**
   * An Entity of the game: the player or an enemy. The two subclasses of
   * the game are one class here, told apart by `kind`; `lastActionTime`
   * and `actionInterval` belong to enemies only.
   */
  class Entity {
    const kind: Kind
    var x: int
    var y: int
    const size: int := EntitySize
    const speed: int
    var health: int
    var aimAngle: int
    var shootTimer: real
    const shootTimerMax: int
    const isFriendly: bool
    var action: Option<Direction>
    var lastActionTime: real
    const actionInterval: int

    /** Player.__init__: fast, friendly, full health, shoots every 250 ms. */
    constructor Player(x: int, y: int)
      ensures kind == PlayerKind && this.x == x && this.y == y
      ensures speed == PlayerSpeed && health == PlayerHealthMax && isFriendly
      ensures shootTimerMax == ShootIntervalPlayer && aimAngle == 0 && shootTimer == 0.0 && action == None
    {
      kind := PlayerKind;
      this.x := x;
      this.y := y;
      speed := PlayerSpeed;
      health := PlayerHealthMax;
      aimAngle := 0;
      shootTimer := 0.0;
      shootTimerMax := ShootIntervalPlayer;
      isFriendly := true;
      action := None;
      lastActionTime := 0.0;
      actionInterval := 0;
    }

    /** Enemy.__init__: slow, hostile, one hit point, shoots every 2000 ms, re-rolls every 250 ms. */
    constructor Enemy(x: int, y: int)
      ensures kind == EnemyKind && this.x == x && this.y == y
      ensures speed == EnemySpeed && health == 1 && !isFriendly
      ensures shootTimerMax == ShootIntervalEnemy && aimAngle == 0 && shootTimer == 0.0 && action == None
      ensures lastActionTime == 0.0 && actionInterval == EnemyActionInterval
    {
      kind := EnemyKind;
      this.x := x;
      this.y := y;
      speed := EnemySpeed;
      health := 1;
      aimAngle := 0;
      shootTimer := 0.0;
      shootTimerMax := ShootIntervalEnemy;
      isFriendly := false;
      action := None;
      lastActionTime := 0.0;
      actionInterval := EnemyActionInterval;
    }

    predicate InBounds()
      reads this
    {
      0 <= x <= WorldWidth - size && 0 <= y <= WorldHeight - size
    }

    /** Entity.update_position: move by the current action, then clamp into the world. */
    method UpdatePosition()
      modifies this`x, this`y
      ensures (x, y) == Moved(old(x), old(y), speed, size, action)
      ensures InBounds()
    {
      var d := Displace(x, y, speed, action);
      x := ClampToWorld(d.0, size, WorldWidth);
      y := ClampToWorld(d.1, size, WorldHeight);
    }

    /**
     * Entity.is_colliding: every overlapping bullet of the other team, in
     * order, is returned and takes its damage off the health (which is not
     * clamped at zero).
     */
    method IsColliding(bullets: seq<Bullet>) returns (hits: seq<Bullet>)
      modifies this`health
      ensures hits == Hits(x, y, size, isFriendly, bullets)
      ensures health == old(health) - TotalDamage(hits)
    {
      var damage;
      hits, damage := CollectHits(x, y, size, isFriendly, bullets);
      health := health - damage;
    }

    /** Entity.spawn_bullet: a bullet from the entity's centre along its aim, on its team. */
    method SpawnBullet(damage: int, trig: Trig) returns (b: Bullet)
      ensures fresh(b)
      ensures b.x == Centre(x, size) && b.y == Centre(y, size)
      ensures b.angle == aimAngle && b.damage == damage && b.isFriendly == isFriendly
      ensures (b.velX, b.velY) == trig.Velocity(aimAngle)
    {
      b := new Bullet(x + size / 2, y + size / 2, aimAngle, damage, isFriendly, trig);
    }

    /**
     * Player.update: the pressed keys choose the action (up over down over
     * left over right), the player moves, and the bullets hitting it are
     * returned.
     */
    method PlayerUpdate(keys: Keys, bullets: seq<Bullet>) returns (hits: seq<Bullet>)
      modifies this`action, this`x, this`y, this`health
      ensures action == KeyAction(keys)
      ensures (x, y) == Moved(old(x), old(y), speed, size, action)
      ensures hits == Hits(x, y, size, isFriendly, bullets)
      ensures health == old(health) - TotalDamage(hits)
    {
      hits := Drive(KeyAction(keys), bullets);
    }

    /**
     * The update with the action given rather than read off the keyboard,
     * as the multiplayer server calls it: take the action, move, and return
     * the bullets hitting the entity.
     */
    method Drive(a: Option<Direction>, bullets: seq<Bullet>) returns (hits: seq<Bullet>)
      modifies this`action, this`x, this`y, this`health
      ensures action == a && InBounds()
      ensures (x, y) == Moved(old(x), old(y), speed, size, action)
      ensures hits == Hits(x, y, size, isFriendly, bullets)
      ensures health == old(health) - TotalDamage(hits)
    {
      action := a;
      UpdatePosition();
      hits := IsColliding(bullets);
    }

    /**
     * Player.shoot: once the interval has elapsed, the aim is replaced by
     * the random angle drawn for this frame and a bullet is fired;
     * otherwise nothing changes.
     */
    method PlayerShoot(now: real, randomAngle: int, trig: Trig) returns (b: Option<Bullet>)
      requires 0 <= randomAngle <= 360
      modifies this`aimAngle, this`shootTimer
      ensures Due(old(shootTimer), shootTimerMax, now) ==>
        aimAngle == randomAngle && shootTimer == now && b.Some? && fresh(b.value) &&
        ShotAt(b.value, x, y, size) && ShotKind(b.value, randomAngle, isFriendly, trig)
      ensures !Due(old(shootTimer), shootTimerMax, now) ==>
        b == None && aimAngle == old(aimAngle) && shootTimer == old(shootTimer)
    {
      if now - shootTimer >= shootTimerMax as real {
        aimAngle := randomAngle;
        shootTimer := now;
        var bullet := SpawnBullet(BulletDamage, trig);
        return Some(bullet);
      }
      return None;
    }

    /**
     * Enemy.update: once the action interval has elapsed the enemy takes
     * the randomly picked direction; it moves, aims at the target's centre
     * and returns the bullets hitting it.
     */
    method EnemyUpdate(target: Entity, now: real, bullets: seq<Bullet>, pick: ChoiceIndex, trig: Trig)
      returns (hits: seq<Bullet>)
      modifies this`action, this`lastActionTime, this`x, this`y, this`aimAngle, this`health
      ensures Due(old(lastActionTime), actionInterval, now) ==>
        action == Some(EnemyActions[pick]) && lastActionTime == now
      ensures !Due(old(lastActionTime), actionInterval, now) ==>
        action == old(action) && lastActionTime == old(lastActionTime)
      ensures (x, y) == Moved(old(x), old(y), speed, size, action)
      ensures aimAngle == trig.Aim(Centre(target.x, target.size) - Centre(x, size),
                                   Centre(target.y, target.size) - Centre(y, size))
      ensures hits == Hits(x, y, size, isFriendly, bullets)
      ensures health == old(health) - TotalDamage(hits)
    {
      Manoeuvre(target, now, pick, trig);
      hits := IsColliding(bullets);
    }

    /** The movement part of Enemy.update: steer, move, then aim at the target. */
    method Manoeuvre(target: Entity, now: real, pick: ChoiceIndex, trig: Trig)
      modifies this`action, this`lastActionTime, this`x, this`y, this`aimAngle
      ensures Due(old(lastActionTime), actionInterval, now) ==>
        action == Some(EnemyActions[pick]) && lastActionTime == now
      ensures !Due(old(lastActionTime), actionInterval, now) ==>
        action == old(action) && lastActionTime == old(lastActionTime)
      ensures (x, y) == Moved(old(x), old(y), speed, size, action)
      ensures aimAngle == trig.Aim(Centre(target.x, target.size) - Centre(x, size),
                                   Centre(target.y, target.size) - Centre(y, size))
    {
      Steer(now, pick);
      UpdatePosition();
      AimAt(target, trig);
    }

    /** The enemy's choice of direction: a new random one once the action interval has elapsed. */
    method Steer(now: real, pick: ChoiceIndex)
      modifies this`action, this`lastActionTime
      ensures Due(old(lastActionTime), actionInterval, now) ==>
        action == Some(EnemyActions[pick]) && lastActionTime == now
      ensures !Due(old(lastActionTime), actionInterval, now) ==>
        action == old(action) && lastActionTime == old(lastActionTime)
    {
      if now - lastActionTime >= actionInterval as real {
        action := Some(EnemyActions[pick]);
        lastActionTime := now;
      }
    }

    /** The enemy's aim: the angle from its centre to the target's, by floor-halved sizes. */
    method AimAt(target: Entity, trig: Trig)
      modifies this`aimAngle
      ensures aimAngle == trig.Aim(Centre(target.x, target.size) - Centre(x, size),
                                   Centre(target.y, target.size) - Centre(y, size))
    {
      var dx := target.x + target.size / 2 - (x + size / 2);
      var dy := target.y + target.size / 2 - (y + size / 2);
      aimAngle := trig.Aim(dx, dy);
    }

    /** Enemy.shoot: once the interval has elapsed, a bullet along the current aim. */
    method EnemyShoot(now: real, trig: Trig) returns (b: Option<Bullet>)
      modifies this`shootTimer
      ensures Due(old(shootTimer), shootTimerMax, now) ==>
        shootTimer == now && b.Some? && fresh(b.value) &&
        ShotAt(b.value, x, y, size) && ShotKind(b.value, aimAngle, isFriendly, trig)
      ensures !Due(old(shootTimer), shootTimerMax, now) ==> b == None && shootTimer == old(shootTimer)
    {
      if now - shootTimer >= shootTimerMax as real {
        shootTimer := now;
        var bullet := SpawnBullet(BulletDamage, trig);
        return Some(bullet);
      }
      return None;
    }
  }

  /** The action Player.update reads off the keyboard: up over down over left over right. */
  function KeyAction(keys: Keys): (a: Option<Direction>)
    ensures a == Some(Up) <==> keys.up
    ensures a == Some(Down) <==> !keys.up && keys.down
    ensures a == Some(Left) <==> !keys.up && !keys.down && keys.left
    ensures a == Some(Right) <==> !keys.up && !keys.down && !keys.left && keys.right
    ensures a == None <==> !keys.up && !keys.down && !keys.left && !keys.right
  {
    if keys.up then Some(Up)
    else if keys.down then Some(Down)
    else if keys.left then Some(Left)
    else if keys.right then Some(Right)
    else None
  }

  /** With non-negative damages, health never rises through collisions. */
  lemma {:induction false} DamageIsNonNegative(hits: seq<Bullet>)
    requires forall b | b in hits :: b.damage >= 0
    ensures TotalDamage(hits) >= 0
  {
    if hits != [] {
      var init := hits[..|hits| - 1];
      assert forall b | b in init :: b in hits;
      DamageIsNonNegative(init);
    }
  }

  /** The enemies whose health is still positive, in order. */
  function Alive(es: seq<Entity>): seq<Entity>
    reads es
  {
    if es == [] then []
    else
      var last := es[|es| - 1];
      Alive(es[..|es| - 1]) + (if last.health > 0 then [last] else [])
  }

  /**
   * The enemies whose pose at the end of their turn has positive health, in
   * order: `Alive` read off the recorded poses instead of the heap.
   */
  function LivingAt(es: seq<Entity>, ends: seq<Pose>): seq<Entity>
    requires |ends| == |es|
  {
    if es == [] then []
    else
      var n := |es| - 1;
      LivingAt(es[..n], ends[..n]) + (if ends[n].health > 0 then [es[n]] else [])
  }

  /** Read off poses that are the enemies' own, the survivors are the living enemies. */
  lemma {:induction false} LivingAtIsAlive(es: seq<Entity>, ends: seq<Pose>)
    requires |ends| == |es|
    requires forall j | 0 <= j < |es| :: ends[j] == PoseOf(es[j])
    ensures LivingAt(es, ends) == Alive(es)
  {
    if es != [] {
      LivingAtIsAlive(es[..|es| - 1], ends[..|es| - 1]);
    }
  }

  /** Flags that record which recorded poses are dead select the survivors. */
  lemma {:induction false} UnflaggedIsLivingAt(es: seq<Entity>, dead: seq<bool>, ends: seq<Pose>)
    requires |dead| == |es| == |ends|
    requires forall j | 0 <= j < |es| :: dead[j] == (ends[j].health <= 0)
    ensures Unflagged(es, dead) == LivingAt(es, ends)
  {
    if es != [] {
      UnflaggedIsLivingAt(es[..|es| - 1], dead[..|es| - 1], ends[..|es| - 1]);
    }
  }

  /** An enemy survives the enemy pass exactly when it is in the list and its health is positive. */
  lemma {:induction false} AliveKeepsLiving(es: seq<Entity>)
    ensures forall e | e in Alive(es) :: e in es && e.health > 0
    ensures forall e | e in es && e.health > 0 :: e in Alive(es)
  {
    if es != [] {
      AliveKeepsLiving(es[..|es| - 1]);
      assert es == es[..|es| - 1] + [es[|es| - 1]];
    }
  }

  /**
   * A shot joined the end of the list `before` exactly when `fired`: one
   * bullet along `angle` for team `friendly`.
   */
  ghost predicate Appended(before: seq<Bullet>, after: seq<Bullet>, fired: bool, angle: int, friendly: bool, trig: Trig)
  {
    if fired
    then |after| == |before| + 1 && after[..|before|] == before && ShotKind(after[|before|], angle, friendly, trig)
    else after == before
  }

  /** An enemy joined the end of the list `before` exactly when `spawned`. */
  ghost predicate Joined(before: seq<Entity>, after: seq<Entity>, spawned: bool)
  {
    if spawned then |after| == |before| + 1 && after[..|before|] == before else after == before
  }

  // ---------------------------------------------------------------------
  // Turns and passes
  // ---------------------------------------------------------------------

  /**
   * The fields of an entity that a turn changes, as they stand at one
   * moment: position, health, aim, shoot timer, action and re-roll time.
   */
  datatype Pose = Pose(x: int, y: int, health: int, aimAngle: int, shootTimer: real,
                       action: Option<Direction>, lastActionTime: real)

  function PoseOf(e: Entity): Pose
    reads e
  {
    Pose(e.x, e.y, e.health, e.aimAngle, e.shootTimer, e.action, e.lastActionTime)
  }

  /** The fields Enemy.__init__ gives an enemy spawned at (x, y). */
  function SpawnPose(x: int, y: int): Pose
  {
    Pose(x, y, 1, 0, 0.0, None, 0.0)
  }

  /**
   * A pass over a list of entities, turn by turn: each entity's fields
   * before and after its turn, the bullet list before each turn and after
   * the last, the list in the middle of each turn (for an enemy the list
   * with its shot, for a player of the server the list less its hits) and
   * the bullets that hit in each turn.
   */
  datatype Pass = Pass(poses: seq<Pose>, ends: seq<Pose>, lists: seq<seq<Bullet>>, mids: seq<seq<Bullet>>,
                       hits: seq<seq<Bullet>>)
  {
    /** A pass of `n` turns. */
    predicate Over(n: int)
    {
      |poses| == n && |ends| == n && |lists| == n + 1 && |mids| == n && |hits| == n
    }

    /** The pass records a turn `j`. */
    predicate Has(j: int)
    {
      0 <= j < |poses| && j < |ends| && j + 1 < |lists| && j < |mids| && j < |hits|
    }

    /** The pass with one more turn: from pose `p` to `q`, through `mid`, hit by `hit`, leaving `after`. */
    function Then(p: Pose, q: Pose, mid: seq<Bullet>, hit: seq<Bullet>, after: seq<Bullet>): Pass
    {
      Pass(poses + [p], ends + [q], lists + [after], mids + [mid], hits + [hit])
    }
  }

  /**
   * One enemy's turn against a target centred at (tx, ty) (the body of
   * main's enemy loop) took enemy `e` from pose `p` to pose `q`:
   * Enemy.shoot appended a shot along the old aim to `before`, giving
   * `armed`, exactly when its timer was due; Enemy.update re-rolled the
   * action exactly when its interval was due, moved, aimed at the target's
   * centre and lost the damage of `hits`; and the hits were removed from
   * `armed`.
   */
  ghost predicate EnemyTurned(e: Entity, p: Pose, q: Pose, tx: int, ty: int, now: real, pick: ChoiceIndex, trig: Trig,
                              before: seq<Bullet>, armed: seq<Bullet>, hits: seq<Bullet>, after: seq<Bullet>)
  {
    EnemyFired(e, p, q, now, trig, before, armed) && EnemySteered(e, p, q, now, pick) &&
    EnemyAimed(e, p, q, tx, ty, trig) &&
    q.health == p.health - TotalDamage(hits) &&
    after == RemoveAll(armed, hits)
  }

  /** Enemy.shoot appended a shot along the old aim exactly when the shoot timer was due. */
  ghost predicate EnemyFired(e: Entity, p: Pose, q: Pose, now: real, trig: Trig, before: seq<Bullet>, armed: seq<Bullet>)
  {
    Appended(before, armed, Due(p.shootTimer, e.shootTimerMax, now), p.aimAngle, e.isFriendly, trig) &&
    q.shootTimer == (if Due(p.shootTimer, e.shootTimerMax, now) then now else p.shootTimer)
  }

  /** Enemy.update re-rolled the action exactly when its interval was due. */
  ghost predicate EnemySteered(e: Entity, p: Pose, q: Pose, now: real, pick: ChoiceIndex)
  {
    if Due(p.lastActionTime, e.actionInterval, now)
    then q.action == Some(EnemyActions[pick]) && q.lastActionTime == now
    else q.action == p.action && q.lastActionTime == p.lastActionTime
  }

  /** The enemy moved by its action and then aimed at the target's centre. */
  ghost predicate EnemyAimed(e: Entity, p: Pose, q: Pose, tx: int, ty: int, trig: Trig)
  {
    0 <= e.size <= WorldWidth && e.size <= WorldHeight &&
    (q.x, q.y) == Moved(p.x, p.y, e.speed, e.size, q.action) &&
    q.aimAngle == trig.Aim(tx - Centre(q.x, e.size), ty - Centre(q.y, e.size))
  }

  /**
   * The collision of that turn, which holds until the bullets move: the
   * hits are those of `armed` against the enemy where it stands at pose
   * `q`, and a shot left from its centre at pose `p`, before it moved.
   */
  ghost predicate EnemyHit(e: Entity, p: Pose, q: Pose, before: seq<Bullet>, armed: seq<Bullet>, hits: seq<Bullet>)
    reads armed
  {
    hits == Hits(q.x, q.y, e.size, e.isFriendly, armed) &&
    (|armed| > |before| ==> ShotAt(armed[|before|], p.x, p.y, e.size))
  }

  /** Turn `j` of the enemy pass over `es`, against a target centred at (tx, ty), went as `pass` records. */
  ghost predicate TurnAt(es: seq<Entity>, pass: Pass, j: int, tx: int, ty: int, now: real, picks: seq<ChoiceIndex>, trig: Trig)
  {
    0 <= j < |es| && j < |picks| && pass.Has(j) &&
    EnemyTurned(es[j], pass.poses[j], pass.ends[j], tx, ty, now, picks[j], trig,
                pass.lists[j], pass.mids[j], pass.hits[j], pass.lists[j + 1])
  }

  /** Turn `j` of the enemy pass over `es` met its bullets as `pass` records. */
  ghost predicate HitAt(es: seq<Entity>, pass: Pass, j: int)
    reads if 0 <= j < |pass.mids| then pass.mids[j] else []
  {
    0 <= j < |es| && pass.Has(j) &&
    EnemyHit(es[j], pass.poses[j], pass.ends[j], pass.lists[j], pass.mids[j], pass.hits[j])
  }

  /**
   * The collision of an enemy's turn as it stays true once the bullets
   * have moved on: the hits are those of `armed`, standing where `at`
   * records them, against the enemy at pose `q`, and its shot, if any,
   * stood at its centre at pose `p`.
   */
  ghost predicate EnemyHitIn(e: Entity, p: Pose, q: Pose, before: seq<Bullet>, armed: seq<Bullet>, hits: seq<Bullet>,
                             at: Spots)
  {
    (forall b | b in armed :: b in at) &&
    hits == HitsAt(q.x, q.y, e.size, e.isFriendly, armed, at) &&
    (|armed| > |before| ==> at[armed[|before|]] == (Centre(p.x, e.size), Centre(p.y, e.size)))
  }

  /** Turn `j` of the enemy pass over `es` met its bullets, standing where `at` records them, as `pass` records. */
  ghost predicate HitIn(es: seq<Entity>, pass: Pass, j: int, at: Spots)
  {
    0 <= j < |es| && pass.Has(j) &&
    EnemyHitIn(es[j], pass.poses[j], pass.ends[j], pass.lists[j], pass.mids[j], pass.hits[j], at)
  }

  /** Every bullet a pass handled: those of its lists and of the middle of its turns. */
  ghost function PassBullets(pass: Pass): set<Bullet>
  {
    (set j, b | 0 <= j < |pass.lists| && b in pass.lists[j] :: b) +
    (set j, b | 0 <= j < |pass.mids| && b in pass.mids[j] :: b)
  }

  /** A snapshot of the bullets a pass handled and of the list it started from records where each of them stands. */
  lemma PassStood(pass: Pass, start: seq<Bullet>, at: Spots)
    requires at == SpotsOf((set b | b in start) + PassBullets(pass))
    ensures Stood(start, at)
    ensures forall j | 0 <= j < |pass.mids| :: Stood(pass.mids[j], at)
    ensures forall j | 0 <= j < |pass.lists| :: Stood(pass.lists[j], at)
  {
  }

  /**
   * A snapshot of where the bullets of `start`, still where `from` records
   * them, and of every list of `pass` stand: the player's hits in `start`
   * and every recorded enemy turn hold against it.
   */
  lemma Snapshot(es: seq<Entity>, pass: Pass, start: seq<Bullet>, from: Spots, x: int, y: int, size: int, friendly: bool)
    returns (at: Spots)
    requires pass.Over(|es|) && forall j | 0 <= j < |es| :: HitAt(es, pass, j)
    requires Stood(start, from)
    ensures forall b | b in start :: b in at && at[b] == from[b]
    ensures Stood(pass.lists[|es|], at)
    ensures HitsAt(x, y, size, friendly, start, at) == Hits(x, y, size, friendly, start)
    ensures forall j | 0 <= j < |es| :: HitIn(es, pass, j, at)
  {
    at := SpotsOf((set b | b in start) + PassBullets(pass));
    PassStood(pass, start, at);
    HitsAtNow(x, y, size, friendly, start, at);
    PassHitsStood(es, pass, at);
  }

  /** A snapshot of a set of bullets records where each bullet of `bs` in that set stands. */
  lemma SpotsStood(bs: seq<Bullet>, s: set<Bullet>)
    requires forall b | b in bs :: b in s
    ensures Stood(bs, SpotsOf(s))
  {
  }

  /** The collisions of a whole pass, recorded while the bullets stand where `at` says, hold against `at`. */
  lemma PassHitsStood(es: seq<Entity>, pass: Pass, at: Spots)
    requires forall j | 0 <= j < |es| :: HitAt(es, pass, j)
    requires forall j | 0 <= j < |pass.mids| :: Stood(pass.mids[j], at)
    ensures forall j | 0 <= j < |es| :: HitIn(es, pass, j, at)
  {
    forall j | 0 <= j < |es|
      ensures HitIn(es, pass, j, at)
    {
      HitAtStood(es, pass, j, at);
    }
  }

  /** A collision recorded while the bullets stand where `at` says holds against `at` from then on. */
  lemma HitAtStood(es: seq<Entity>, pass: Pass, j: int, at: Spots)
    requires HitAt(es, pass, j) && Stood(pass.mids[j], at)
    ensures HitIn(es, pass, j, at)
  {
    var e, armed := es[j], pass.mids[j];
    HitsAtNow(pass.ends[j].x, pass.ends[j].y, e.size, e.isFriendly, armed, at);
  }

  /** The first `i` turns of the enemy pass over `es` went as `pass` records. */
  ghost predicate TurnedUpTo(es: seq<Entity>, i: int, pass: Pass, tx: int, ty: int, now: real, picks: seq<ChoiceIndex>, trig: Trig)
  {
    0 <= i <= |es| && |picks| >= |es| && pass.Over(i) &&
    forall j | 0 <= j < i :: TurnAt(es, pass, j, tx, ty, now, picks, trig)
  }

  /** The enemy pass over `es` against a target centred at (tx, ty) went turn by turn as `pass` records. */
  ghost predicate EnemiesTurned(es: seq<Entity>, pass: Pass, tx: int, ty: int, now: real, picks: seq<ChoiceIndex>, trig: Trig)
  {
    TurnedUpTo(es, |es|, pass, tx, ty, now, picks, trig)
  }

  /** A pass that went as recorded for `i` turns, followed by turn `i` as recorded. */
  lemma TurnedUpToSnoc(es: seq<Entity>, i: int, pass: Pass, tx: int, ty: int, now: real, picks: seq<ChoiceIndex>, trig: Trig,
                       p: Pose, q: Pose, armed: seq<Bullet>, hits: seq<Bullet>, after: seq<Bullet>)
    requires TurnedUpTo(es, i, pass, tx, ty, now, picks, trig) && i < |es|
    requires EnemyTurned(es[i], p, q, tx, ty, now, picks[i], trig, pass.lists[i], armed, hits, after)
    ensures TurnedUpTo(es, i + 1, pass.Then(p, q, armed, hits, after), tx, ty, now, picks, trig)
  {
    var pass' := pass.Then(p, q, armed, hits, after);
    forall j | 0 <= j < i + 1
      ensures TurnAt(es, pass', j, tx, ty, now, picks, trig)
    {
      if j < i {
        assert TurnAt(es, pass, j, tx, ty, now, picks, trig);
        assert pass'.poses[j] == pass.poses[j] && pass'.ends[j] == pass.ends[j];
        assert pass'.lists[j] == pass.lists[j] && pass'.lists[j + 1] == pass.lists[j + 1];
        assert pass'.mids[j] == pass.mids[j] && pass'.hits[j] == pass.hits[j];
      }
    }
  }

  /**
   * Enemy.update as a step between two poses of enemy `e`: a re-roll when
   * the interval is due, the move, the aim at the target centred at
   * (tx, ty), and the hits of `armed` where it now stands, whose damage
   * comes off its health.
   */
  ghost predicate EnemyUpdated(e: Entity, m: Pose, q: Pose, tx: int, ty: int, now: real, pick: ChoiceIndex, trig: Trig,
                               armed: seq<Bullet>, hits: seq<Bullet>)
    reads armed
  {
    EnemySteered(e, m, q, now, pick) && EnemyAimed(e, m, q, tx, ty, trig) &&
    q.health == m.health - TotalDamage(hits) && q.shootTimer == m.shootTimer &&
    hits == Hits(q.x, q.y, e.size, e.isFriendly, armed)
  }

  /**
   * Enemy.shoot within the enemy pass: once the timer is due the shot
   * joins the end of the list, giving `armed`; only the timer changes.
   */
  method EnemyArm(enemy: Entity, now: real, bullets: seq<Bullet>, trig: Trig) returns (armed: seq<Bullet>)
    requires Distinct(bullets)
    modifies enemy`shootTimer
    ensures EnemyFired(enemy, old(PoseOf(enemy)), PoseOf(enemy), now, trig, bullets, armed)
    ensures PoseOf(enemy) == old(PoseOf(enemy)).(shootTimer := enemy.shootTimer)
    ensures |armed| > |bullets| ==> fresh(armed[|bullets|]) && ShotAt(armed[|bullets|], enemy.x, enemy.y, enemy.size)
    ensures Distinct(armed)
  {
    armed := bullets;
    var fired := enemy.EnemyShoot(now, trig);
    if fired.Some? {
      DistinctAppend(bullets, fired.value);
      armed := bullets + [fired.value];
      assert armed[..|bullets|] == bullets;
    }
  }

  /** Enemy.update within the enemy pass, against `target`. */
  method EnemyMoves(enemy: Entity, target: Entity, now: real, armed: seq<Bullet>, pick: ChoiceIndex, trig: Trig)
    returns (hits: seq<Bullet>)
    modifies enemy
    ensures EnemyUpdated(enemy, old(PoseOf(enemy)), PoseOf(enemy), Centre(target.x, target.size),
                         Centre(target.y, target.size), now, pick, trig, armed, hits)
    ensures enemy.InBounds()
  {
    ghost var m := PoseOf(enemy);
    hits := enemy.EnemyUpdate(target, now, armed, pick, trig);
    ghost var q := PoseOf(enemy);
    assert EnemySteered(enemy, m, q, now, pick);
    assert EnemyAimed(enemy, m, q, Centre(target.x, target.size), Centre(target.y, target.size), trig);
  }

  /**
   * One enemy's turn of the enemy pass: it shoots if its timer is due (the
   * bullet joins the list, giving `armed`), updates against its target,
   * and the bullets that hit it leave the list.
   */
  method EnemyTurn(enemy: Entity, target: Entity, now: real, bullets: seq<Bullet>, pick: ChoiceIndex, trig: Trig)
    returns (after: seq<Bullet>, armed: seq<Bullet>, hits: seq<Bullet>)
    requires Distinct(bullets)
    modifies enemy
    ensures EnemyTurned(enemy, old(PoseOf(enemy)), PoseOf(enemy), Centre(target.x, target.size),
                        Centre(target.y, target.size), now, pick, trig, bullets, armed, hits, after)
    ensures EnemyHit(enemy, old(PoseOf(enemy)), PoseOf(enemy), bullets, armed, hits)
    ensures |armed| > |bullets| ==> fresh(armed[|bullets|])
    ensures Distinct(after) && enemy.InBounds()
    ensures forall b | b in after :: b in armed
  {
    ghost var p := PoseOf(enemy);
    armed := EnemyArm(enemy, now, bullets, trig);
    ghost var m := PoseOf(enemy);
    hits := EnemyMoves(enemy, target, now, armed, pick, trig);
    after := RemoveEach(armed, hits);
  }

  /** Flags that record which enemies are dead select exactly the living ones. */
  lemma {:induction false} UnflaggedIsAlive(es: seq<Entity>, dead: seq<bool>)
    requires |dead| == |es|
    requires forall j | 0 <= j < |es| :: dead[j] == (es[j].health <= 0)
    ensures Unflagged(es, dead) == Alive(es)
  {
    if es != [] {
      UnflaggedIsAlive(es[..|es| - 1], dead[..|es| - 1]);
    }
  }

  /** The enemies kept by the enemy pass are exactly those of the list whose health is positive. */
  lemma SurvivorsAreAlive(es: seq<Entity>, dead: seq<bool>)
    requires |dead| == |es|
    requires forall j | 0 <= j < |es| :: dead[j] == (es[j].health <= 0)
    ensures forall e | e in Unflagged(es, dead) :: e in es && e.health > 0
    ensures forall e | e in es && e.health > 0 :: e in Unflagged(es, dead)
  {
    UnflaggedIsAlive(es, dead);
    AliveKeepsLiving(es);
  }

  /** The end of an enemy's turn: `enemies.remove(enemy)` once its health is gone. */
  method DropIfDead(enemies: seq<Entity>, i: int, alive: seq<Entity>, ghost dead: seq<bool>)
    returns (alive': seq<Entity>, ghost dead': seq<bool>)
    requires 0 <= i < |enemies| && enemies[i] !in enemies[..i]
    requires EnemiesTaken(enemies, i, alive, dead) && enemies[i].InBounds()
    ensures dead' == dead + [enemies[i].health <= 0]
    ensures EnemiesTaken(enemies, i + 1, alive', dead')
  {
    var enemy := enemies[i];
    UnflaggedStep(enemies, i, dead, alive, enemy.health <= 0);
    alive' := alive;
    if enemy.health <= 0 {
      alive' := RemoveFirst(alive, enemy);
    }
    dead' := dead + [enemy.health <= 0];
  }

  /**
   * The state of the enemy pass after its first `i` turns: `dead` flags those
   * enemies whose health ran out, each of them is inside the world, and
   * `alive` is the pass's list, with the dead among them gone.
   */
  ghost predicate EnemiesTaken(enemies: seq<Entity>, i: int, alive: seq<Entity>, dead: seq<bool>)
    reads enemies
  {
    0 <= i <= |enemies| && |dead| == i &&
    alive == Unflagged(enemies[..i], dead) + enemies[i..] &&
    forall j | 0 <= j < i :: dead[j] == (enemies[j].health <= 0) && enemies[j].InBounds()
  }

  /** Every bullet of `after` was already in `start` or is one of `born`. */
  ghost predicate FromOrBorn(after: seq<Bullet>, start: seq<Bullet>, born: set<Bullet>)
  {
    forall b | b in after :: b in start || b in born
  }

  /** A bullet left after a turn was on the list before it or is the turn's own shot. */
  lemma ArmedMembers(before: seq<Bullet>, armed: seq<Bullet>, after: seq<Bullet>)
    requires armed == before || (|armed| == |before| + 1 && armed[..|before|] == before)
    requires forall b | b in after :: b in armed
    ensures forall b | b in after :: b in before || (|armed| > |before| && b == armed[|before|])
  {
    if armed != before {
      assert armed == before + [armed[|before|]];
    }
  }

  /**
   * The `i`-th turn of the enemy pass as `pass` records it: the enemy takes
   * its turn against the player, centred at (tx, ty), and `pass` gains
   * that turn.
   */
  method PassTurn(player: Entity, enemies: seq<Entity>, i: int, now: real, picks: seq<ChoiceIndex>, trig: Trig,
                  bullets: seq<Bullet>, ghost pass: Pass, ghost tx: int, ghost ty: int)
    returns (after: seq<Bullet>, armed: seq<Bullet>, ghost pass': Pass)
    requires 0 <= i < |enemies| && player !in enemies
    requires tx == Centre(player.x, player.size) && ty == Centre(player.y, player.size)
    requires Distinct(bullets)
    requires TurnedUpTo(enemies, i, pass, tx, ty, now, picks, trig) && pass.lists[i] == bullets
    requires forall j | 0 <= j < i :: HitAt(enemies, pass, j)
    modifies enemies[i]
    ensures TurnedUpTo(enemies, i + 1, pass', tx, ty, now, picks, trig)
    ensures forall j | 0 <= j < i + 1 :: HitAt(enemies, pass', j)
    ensures pass'.lists[i + 1] == after && pass'.lists[0] == pass.lists[0]
    ensures pass'.poses == pass.poses + [old(PoseOf(enemies[i]))]
    ensures pass'.ends == pass.ends + [PoseOf(enemies[i])]
    ensures |armed| > |bullets| ==> fresh(armed[|bullets|])
    ensures Distinct(after) && enemies[i].InBounds()
    ensures forall b | b in after :: b in bullets || (|armed| > |bullets| && b == armed[|bullets|])
  {
    ghost var p := PoseOf(enemies[i]);
    var hits;
    after, armed, hits := EnemyTurn(enemies[i], player, now, bullets, picks[i], trig);
    ghost var q := PoseOf(enemies[i]);
    pass' := pass.Then(p, q, armed, hits, after);
    forall j | 0 <= j < i + 1
      ensures HitAt(enemies, pass', j)
    {
      if j < i {
        assert HitAt(enemies, pass, j);
        assert pass'.poses[j] == pass.poses[j] && pass'.ends[j] == pass.ends[j] && pass'.lists[j] == pass.lists[j];
        assert pass'.mids[j] == pass.mids[j] && pass'.hits[j] == pass.hits[j];
      }
    }
    TurnedUpToSnoc(enemies, i, pass, tx, ty, now, picks, trig, p, q, armed, hits, after);
    ArmedMembers(bullets, armed, after);
  }

  /**
   * The enemies' fields as the enemy pass leaves them after its first `i`
   * turns: those that took their turn started from their pose in `poses0`
   * and stand at the pose `pass` recorded after it, the rest still stand
   * at their pose in `poses0`.
   */
  ghost predicate Posed(enemies: seq<Entity>, i: int, pass: Pass, poses0: seq<Pose>)
    reads enemies
  {
    0 <= i <= |enemies| == |poses0| && |pass.poses| == |pass.ends| == i &&
    (forall j | 0 <= j < i :: pass.poses[j] == poses0[j] && pass.ends[j] == PoseOf(enemies[j])) &&
    (forall j | i <= j < |enemies| :: PoseOf(enemies[j]) == poses0[j])
  }

  /**
   * The `i`-th turn of the enemy pass: the enemy takes its turn against the
   * player and leaves the list if it died; `pass` gains that turn.
   */
  method EnemyStep(player: Entity, enemies: seq<Entity>, i: int, now: real, picks: seq<ChoiceIndex>, trig: Trig,
                   alive: seq<Entity>, bullets: seq<Bullet>, ghost dead: seq<bool>,
                   ghost start: seq<Bullet>, ghost born: set<Bullet>, ghost pass: Pass, ghost poses0: seq<Pose>,
                   ghost tx: int, ghost ty: int)
    returns (alive': seq<Entity>, after: seq<Bullet>, ghost dead': seq<bool>, ghost shots: set<Bullet>,
             ghost pass': Pass)
    requires i < |enemies| && Distinct(enemies) && player !in enemies
    requires tx == Centre(player.x, player.size) && ty == Centre(player.y, player.size)
    requires EnemiesTaken(enemies, i, alive, dead)
    requires Distinct(bullets) && FromOrBorn(bullets, start, born)
    requires TurnedUpTo(enemies, i, pass, tx, ty, now, picks, trig) && pass.lists[i] == bullets
    requires forall j | 0 <= j < i :: HitAt(enemies, pass, j)
    requires Posed(enemies, i, pass, poses0)
    modifies enemies[i]
    ensures EnemiesTaken(enemies, i + 1, alive', dead')
    ensures Distinct(after) && fresh(shots) && FromOrBorn(after, start, born + shots)
    ensures TurnedUpTo(enemies, i + 1, pass', tx, ty, now, picks, trig)
    ensures forall j | 0 <= j < i + 1 :: HitAt(enemies, pass', j)
    ensures pass'.lists[i + 1] == after && pass'.lists[0] == pass.lists[0]
    ensures Posed(enemies, i + 1, pass', poses0)
  {
    DistinctSplit(enemies, i);
    var armed;
    label Turn:
    after, armed, pass' := PassTurn(player, enemies, i, now, picks, trig, bullets, pass, tx, ty);
    forall j | 0 <= j < |enemies| && j != i
      ensures PoseOf(enemies[j]) == old@Turn(PoseOf(enemies[j]))
    {
      assert enemies[j] != enemies[i];
    }
    forall j | 0 <= j < i + 1
      ensures pass'.poses[j] == poses0[j] && pass'.ends[j] == PoseOf(enemies[j])
    {
      if j < i {
        assert pass'.poses[j] == pass.poses[j] && pass'.ends[j] == pass.ends[j];
      }
    }
    assert EnemiesTaken(enemies, i, alive, dead);
    shots := if |armed| > |bullets| then {armed[|bullets|]} else {};
    alive', dead' := DropIfDead(enemies, i, alive, dead);
  }


  /**
   * The loop of the enemies' turn, against the player centred at (tx, ty),
   * from the enemies' poses `poses0`.
   */
  method EnemyLoop(enemies: seq<Entity>, player: Entity, bullets: seq<Bullet>, now: real, picks: seq<ChoiceIndex>,
                   trig: Trig, ghost tx: int, ghost ty: int, ghost poses0: seq<Pose>)
    returns (alive: seq<Entity>, after: seq<Bullet>, ghost dead: seq<bool>, ghost born: set<Bullet>, ghost pass: Pass)
    requires Distinct(enemies) && Distinct(bullets) && |picks| >= |enemies| && player !in enemies
    requires tx == Centre(player.x, player.size) && ty == Centre(player.y, player.size)
    requires |poses0| == |enemies| && forall j | 0 <= j < |enemies| :: PoseOf(enemies[j]) == poses0[j]
    modifies enemies
    ensures EnemiesTaken(enemies, |enemies|, alive, dead)
    ensures Distinct(after) && fresh(born) && FromOrBorn(after, bullets, born)
    ensures TurnedUpTo(enemies, |enemies|, pass, tx, ty, now, picks, trig)
    ensures forall j | 0 <= j < |enemies| :: HitAt(enemies, pass, j)
    ensures pass.lists[0] == bullets && pass.lists[|enemies|] == after
    ensures Posed(enemies, |enemies|, pass, poses0)
  {
    alive := enemies;
    after := bullets;
    dead := [];
    born := {};
    pass := Pass([], [], [bullets], [], []);
    for i := 0 to |enemies|
      invariant EnemiesTaken(enemies, i, alive, dead)
      invariant Distinct(after) && fresh(born) && FromOrBorn(after, bullets, born)
      invariant TurnedUpTo(enemies, i, pass, tx, ty, now, picks, trig)
      invariant forall j | 0 <= j < i :: HitAt(enemies, pass, j)
      invariant pass.lists[0] == bullets && pass.lists[i] == after
      invariant Posed(enemies, i, pass, poses0)
    {
      DistinctSplit(enemies, i);
      ghost var shots;
      alive, after, dead, shots, pass :=
        EnemyStep(player, enemies, i, now, picks, trig, alive, after, dead, bullets, born, pass, poses0, tx, ty);
      born := born + shots;
    }
  }

  /**
   * The enemies' turn (`bullethell.py`, `main`): each enemy in list order shoots,
   * moves, takes its hits, and leaves the list once its health is gone;
   * `pass` records every turn, from the list `bullets` to `after`.
   */
  method EnemyPass(enemies: seq<Entity>, player: Entity, bullets: seq<Bullet>, now: real, picks: seq<ChoiceIndex>, trig: Trig)
    returns (alive: seq<Entity>, after: seq<Bullet>, ghost dead: seq<bool>, ghost born: set<Bullet>, ghost pass: Pass)
    requires Distinct(enemies) && Distinct(bullets) && |picks| >= |enemies| && player !in enemies
    modifies enemies
    ensures EnemiesTaken(enemies, |enemies|, alive, dead)
    ensures Distinct(after) && fresh(born) && FromOrBorn(after, bullets, born)
    ensures EnemiesTurned(enemies, pass, Centre(player.x, player.size), Centre(player.y, player.size), now, picks, trig)
    ensures forall j | 0 <= j < |enemies| :: HitAt(enemies, pass, j)
    ensures pass.lists[0] == bullets && pass.lists[|enemies|] == after
    ensures forall j | 0 <= j < |enemies| :: pass.poses[j] == old(PoseOf(enemies[j])) && pass.ends[j] == PoseOf(enemies[j])
  {
    ghost var tx, ty := Centre(player.x, player.size), Centre(player.y, player.size);
    ghost var poses0 := seq(|enemies|, j requires 0 <= j < |enemies| reads enemies => PoseOf(enemies[j]));
    assert forall j | 0 <= j < |enemies| :: poses0[j] == old(PoseOf(enemies[j]));
    alive, after, dead, born, pass := EnemyLoop(enemies, player, bullets, now, picks, trig, tx, ty, poses0);
    assert player.x == old(player.x) && player.y == old(player.y);
  }

  /** The enemy pass seen from the game: who survives, in order, and how the bullet list evolved. */
  method EnemiesAct(enemies: seq<Entity>, player: Entity, bullets: seq<Bullet>, now: real, picks: seq<ChoiceIndex>, trig: Trig)
    returns (alive: seq<Entity>, after: seq<Bullet>, ghost pass: Pass)
    requires Distinct(enemies) && Distinct(bullets) && |picks| >= |enemies| && player !in enemies
    modifies enemies
    ensures forall e | e in alive :: e in enemies && e.health > 0 && e.InBounds()
    ensures forall e | e in enemies && e.health > 0 :: e in alive
    ensures Distinct(alive) && Distinct(after)
    ensures forall i | 0 <= i < |after| :: after[i] in bullets || fresh(after[i])
    ensures EnemiesTurned(enemies, pass, Centre(player.x, player.size), Centre(player.y, player.size), now, picks, trig)
    ensures forall j | 0 <= j < |enemies| :: HitAt(enemies, pass, j)
    ensures pass.lists[0] == bullets && pass.lists[|enemies|] == after
    ensures forall j | 0 <= j < |enemies| :: pass.poses[j] == old(PoseOf(enemies[j])) && pass.ends[j] == PoseOf(enemies[j])
    ensures alive == LivingAt(enemies, pass.ends)
  {
    ghost var dead, born;
    alive, after, dead, born, pass := EnemyPass(enemies, player, bullets, now, picks, trig);
    assert enemies[..|enemies|] == enemies;
    UnflaggedDistinct(enemies, dead);
    UnflaggedIsLivingAt(enemies, dead, pass.ends);
    SurvivorsAreAlive(enemies, dead);
  }

  /**
   * The player's turn of a frame: it moves, the bullets of the list that
   * hit it where it now stands take their damage off its health, and they
   * leave the list.
   */
  method PlayerTurn(p: Entity, keys: Keys, bullets: seq<Bullet>) returns (after: seq<Bullet>, hits: seq<Bullet>)
    requires Distinct(bullets)
    modifies p
    ensures p.action == KeyAction(keys) && p.InBounds()
    ensures (p.x, p.y) == Moved(old(p.x), old(p.y), p.speed, p.size, p.action)
    ensures hits == Hits(p.x, p.y, p.size, p.isFriendly, bullets)
    ensures p.health == old(p.health) - TotalDamage(hits)
    ensures p.aimAngle == old(p.aimAngle) && p.shootTimer == old(p.shootTimer)
    ensures after == RemoveAll(bullets, hits)
    ensures Distinct(after) && forall j | 0 <= j < |after| :: after[j] in bullets
  {
    hits := p.PlayerUpdate(keys, bullets);
    after := RemoveEach(bullets, hits);
  }

  // ---------------------------------------------------------------------
  // The game loop
  // ---------------------------------------------------------------------

  /** The world of the single-player game loop: the player, the enemies and the bullets in flight. */
  class Game {
    var player: Entity
    var enemies: seq<Entity>
    var bullets: seq<Bullet>
    var lastEnemySpawnTime: real
    var nextSpawnInterval: int

    /**
     * One player, enemies only in the enemy list, no entity outside the
     * world, no object twice in a list, and a spawn interval drawn from
     * [ENEMY_SPAWN_MIN, ENEMY_SPAWN_MAX].
     */
    ghost predicate Valid()
      reads this, player, enemies
    {
      player.kind == PlayerKind && player.InBounds() &&
      (forall e | e in enemies :: e.kind == EnemyKind && e.InBounds()) &&
      Distinct(enemies) && Distinct(bullets) &&
      EnemySpawnMin <= nextSpawnInterval <= EnemySpawnMax
    }

    /** The set-up of main: a player at a random position, no enemies, no bullets. */
    constructor (px: SpawnCoord, py: SpawnCoord, interval: SpawnInterval)
      ensures Valid() && fresh(player)
      ensures player.x == px && player.y == py && player.health == PlayerHealthMax
      ensures enemies == [] && bullets == []
      ensures lastEnemySpawnTime == 0.0 && nextSpawnInterval == interval
    {
      player := new Entity.Player(px, py);
      enemies := [];
      bullets := [];
      lastEnemySpawnTime := 0.0;
      nextSpawnInterval := interval;
    }

    /**
     * The player's shot of the frame: once its timer is due the aim becomes
     * the random angle and a bullet from the player's centre along it joins
     * the end of the bullet list.
     */
    method PlayerFires(now: real, randomAngle: int, trig: Trig)
      requires Valid() && 0 <= randomAngle <= 360
      modifies this`bullets, player
      ensures Valid()
      ensures Appended(old(bullets), bullets, Due(old(player.shootTimer), player.shootTimerMax, now),
                       randomAngle, player.isFriendly, trig)
      ensures Due(old(player.shootTimer), player.shootTimerMax, now) ==>
        fresh(bullets[|old(bullets)|]) && ShotAt(bullets[|old(bullets)|], player.x, player.y, player.size) &&
        player.aimAngle == randomAngle && player.shootTimer == now
      ensures !Due(old(player.shootTimer), player.shootTimerMax, now) ==>
        player.aimAngle == old(player.aimAngle) && player.shootTimer == old(player.shootTimer)
      ensures forall i | 0 <= i < |bullets| :: bullets[i] in old(bullets) || fresh(bullets[i])
      ensures player.x == old(player.x) && player.y == old(player.y) && player.health == old(player.health)
      ensures player.action == old(player.action)
    {
      var shot := player.PlayerShoot(now, randomAngle, trig);
      if shot.Some? {
        DistinctAppend(bullets, shot.value);
        bullets := bullets + [shot.value];
      }
    }

    /**
     * The spawn timer of main: once the drawn interval has elapsed an
     * enemy, as Enemy.__init__ makes it, joins the end of the enemy list at
     * the drawn position, the timer restarts and a new interval is drawn.
     */
    method SpawnEnemy(now: real, spawnX: SpawnCoord, spawnY: SpawnCoord, interval: SpawnInterval)
      requires Valid()
      modifies this`enemies, this`lastEnemySpawnTime, this`nextSpawnInterval
      ensures Valid()
      ensures Joined(old(enemies), enemies, Due(old(lastEnemySpawnTime), old(nextSpawnInterval), now))
      ensures Due(old(lastEnemySpawnTime), old(nextSpawnInterval), now) ==>
        fresh(enemies[|old(enemies)|]) && PoseOf(enemies[|old(enemies)|]) == SpawnPose(spawnX, spawnY) &&
        lastEnemySpawnTime == now && nextSpawnInterval == interval
      ensures !Due(old(lastEnemySpawnTime), old(nextSpawnInterval), now) ==>
        lastEnemySpawnTime == old(lastEnemySpawnTime) && nextSpawnInterval == old(nextSpawnInterval)
      ensures forall i | 0 <= i < |enemies| :: enemies[i] in old(enemies) || fresh(enemies[i])
    {
      if now - lastEnemySpawnTime >= nextSpawnInterval as real {
        var enemy := new Entity.Enemy(spawnX, spawnY);
        DistinctAppend(enemies, enemy);
        enemies := enemies + [enemy];
        lastEnemySpawnTime := now;
        nextSpawnInterval := interval;
      }
    }

    /**
     * The player's update of the frame: it moves, the bullets that hit it
     * where it now stands take their damage, and they leave the list.
     */
    method MovePlayer(keys: Keys, ghost from: Spots) returns (ghost hits: seq<Bullet>)
      requires Valid() && Stood(bullets, from)
      modifies this`bullets, player
      ensures Valid()
      ensures player.action == KeyAction(keys)
      ensures (player.x, player.y) == Moved(old(player.x), old(player.y), player.speed, player.size, player.action)
      ensures hits == Hits(player.x, player.y, player.size, player.isFriendly, old(bullets))
      ensures player.health == old(player.health) - TotalDamage(hits)
      ensures player.aimAngle == old(player.aimAngle) && player.shootTimer == old(player.shootTimer)
      ensures bullets == RemoveAll(old(bullets), hits)
      ensures forall i | 0 <= i < |bullets| :: bullets[i] in old(bullets)
      ensures forall j | 0 <= j < |enemies| :: PoseOf(enemies[j]) == old(PoseOf(enemies[j]))
      ensures Stood(old(bullets), from)
    {
      bullets, hits := PlayerTurn(player, keys, bullets);
    }

    /**
     * The enemy pass of the frame against the player: `pass` records each
     * enemy's turn, from the old bullet list to the new one, and the dead
     * enemies leave the list.
     */
    method MoveEnemies(now: real, picks: seq<ChoiceIndex>, trig: Trig, ghost start: seq<Bullet>, ghost from: Spots)
      returns (ghost pass: Pass)
      requires Valid() && |picks| >= |enemies| && Stood(start, from)
      modifies this`enemies, this`bullets, enemies
      ensures Valid()
      ensures EnemiesTurned(old(enemies), pass, Centre(player.x, player.size), Centre(player.y, player.size), now, picks, trig)
      ensures forall j | 0 <= j < |old(enemies)| :: HitAt(old(enemies), pass, j)
      ensures forall j | 0 <= j < |old(enemies)| ::
        pass.poses[j] == old(PoseOf(enemies[j])) && pass.ends[j] == PoseOf(old(enemies)[j])
      ensures pass.lists[0] == old(bullets) && bullets == pass.lists[|old(enemies)|]
      ensures enemies == Alive(old(enemies))
      ensures forall e | e in enemies :: e in old(enemies) && e.health > 0
      ensures forall e | e in old(enemies) && e.health > 0 :: e in enemies
      ensures forall i | 0 <= i < |bullets| :: bullets[i] in old(bullets) || fresh(bullets[i])
      ensures PoseOf(player) == old(PoseOf(player))
      ensures Stood(start, from)
    {
      ghost var es := enemies;
      assert player !in es;
      var alive, after;
      alive, after, pass := EnemiesAct(enemies, player, bullets, now, picks, trig);
      LivingAtIsAlive(es, pass.ends);
      Settle(es, alive, after, pass);
    }

    /**
     * Installs the lists an enemy pass produced; what holds of the pass's
     * entities and bullets holds as before.
     */
    method Settle(ghost es: seq<Entity>, alive: seq<Entity>, after: seq<Bullet>, ghost pass: Pass)
      requires player.kind == PlayerKind && player.InBounds() && EnemySpawnMin <= nextSpawnInterval <= EnemySpawnMax
      requires forall e | e in alive :: e.kind == EnemyKind && e.InBounds()
      requires Distinct(alive) && Distinct(after) && |pass.ends| == |es|
      requires forall j | 0 <= j < |es| :: HitAt(es, pass, j)
      requires forall j | 0 <= j < |es| :: pass.ends[j] == PoseOf(es[j])
      requires alive == Alive(es)
      requires forall e | e in alive :: e in es && e.health > 0
      requires forall e | e in es && e.health > 0 :: e in alive
      modifies this`enemies, this`bullets
      ensures Valid() && enemies == alive && bullets == after
      ensures forall j | 0 <= j < |es| :: HitAt(es, pass, j)
      ensures forall j | 0 <= j < |es| :: pass.ends[j] == PoseOf(es[j])
      ensures alive == Alive(es)
      ensures forall e | e in alive :: e in es && e.health > 0
      ensures forall e | e in es && e.health > 0 :: e in alive
    {
      enemies, bullets := alive, after;
    }

    /**
     * The bullet pass of the frame: every bullet flies on by its velocity
     * and exactly those now off screen leave the list.
     */
    method MoveBullets(ghost roster: seq<Entity>, ghost at: Spots)
      requires Valid() && Stood(bullets, at)
      modifies this`bullets, bullets
      ensures Valid()
      ensures Flew(old(bullets)) && FlewFrom(old(bullets), at)
      ensures bullets == OnScreen(old(bullets))
      ensures PoseOf(player) == old(PoseOf(player))
      ensures forall j | 0 <= j < |roster| :: PoseOf(roster[j]) == old(PoseOf(roster[j]))
    {
      var kept, off := AdvanceBullets(bullets, at);
      KeptAreOnScreen(bullets, off);
      assert player.InBounds() && forall e | e in enemies :: e.InBounds();
      bullets := kept;
    }

    /** The first half of a frame: the player may shoot and an enemy may spawn. */
    method Arm(now: real, randomAngle: int, spawnX: SpawnCoord, spawnY: SpawnCoord,
               interval: SpawnInterval, trig: Trig, ghost from: Spots)
      requires Valid() && 0 <= randomAngle <= 360 && Stood(bullets, from)
      modifies this`bullets, this`enemies, this`lastEnemySpawnTime, this`nextSpawnInterval, player
      ensures Valid()
      ensures Appended(old(bullets), bullets, Due(old(player.shootTimer), player.shootTimerMax, now),
                       randomAngle, player.isFriendly, trig)
      ensures Due(old(player.shootTimer), player.shootTimerMax, now) ==>
        fresh(bullets[|old(bullets)|]) && ShotAt(bullets[|old(bullets)|], player.x, player.y, player.size) &&
        player.aimAngle == randomAngle && player.shootTimer == now
      ensures !Due(old(player.shootTimer), player.shootTimerMax, now) ==>
        player.aimAngle == old(player.aimAngle) && player.shootTimer == old(player.shootTimer)
      ensures player.x == old(player.x) && player.y == old(player.y) && player.health == old(player.health)
      ensures Joined(old(enemies), enemies, Due(old(lastEnemySpawnTime), old(nextSpawnInterval), now))
      ensures Due(old(lastEnemySpawnTime), old(nextSpawnInterval), now) ==>
        fresh(enemies[|old(enemies)|]) && PoseOf(enemies[|old(enemies)|]) == SpawnPose(spawnX, spawnY) &&
        lastEnemySpawnTime == now && nextSpawnInterval == interval
      ensures !Due(old(lastEnemySpawnTime), old(nextSpawnInterval), now) ==>
        lastEnemySpawnTime == old(lastEnemySpawnTime) && nextSpawnInterval == old(nextSpawnInterval)
      ensures forall i | 0 <= i < |enemies| :: enemies[i] in old(enemies) || fresh(enemies[i])
      ensures forall j | 0 <= j < |old(enemies)| :: PoseOf(old(enemies)[j]) == old(PoseOf(enemies[j]))
      ensures Stood(old(bullets), from)
    {
      PlayerFires(now, randomAngle, trig);
      SpawnEnemy(now, spawnX, spawnY, interval);
    }

    /**
     * The player's and the enemies' passes of a frame, with `running` read
     * after them: the player moves and is hit by `hits`, then `pass`
     * records each enemy's turn from the list the player left, and the dead
     * enemies leave. No bullet moves.
     */
    method Fight(now: real, keys: Keys, picks: seq<ChoiceIndex>, trig: Trig)
      returns (running: bool, ghost hits: seq<Bullet>, ghost pass: Pass, ghost at: Spots)
      requires Valid() && |picks| >= |enemies|
      modifies this`bullets, this`enemies, player, enemies
      ensures Valid()
      ensures running <==> player.health > 0
      ensures player.action == KeyAction(keys)
      ensures (player.x, player.y) == Moved(old(player.x), old(player.y), player.speed, player.size, player.action)
      ensures StoodBefore(old(bullets), at) && Stood(bullets, at)
      ensures hits == HitsAt(player.x, player.y, player.size, player.isFriendly, old(bullets), at)
      ensures player.health == old(player.health) - TotalDamage(hits)
      ensures player.aimAngle == old(player.aimAngle) && player.shootTimer == old(player.shootTimer)
      ensures EnemiesTurned(old(enemies), pass, Centre(player.x, player.size), Centre(player.y, player.size), now, picks, trig)
      ensures forall j | 0 <= j < |old(enemies)| :: HitIn(old(enemies), pass, j, at)
      ensures forall j | 0 <= j < |old(enemies)| ::
        pass.poses[j] == old(PoseOf(enemies[j])) && pass.ends[j] == PoseOf(old(enemies)[j])
      ensures pass.lists[0] == RemoveAll(old(bullets), hits) && bullets == pass.lists[|old(enemies)|]
      ensures enemies == Alive(old(enemies))
      ensures forall i | 0 <= i < |bullets| :: bullets[i] in old(bullets) || fresh(bullets[i])
    {
      ghost var roster, from := enemies, SpotsOf(set b | b in bullets);
      running, hits, pass := Clash(now, keys, picks, trig, from);
      at := Snapshot(roster, pass, old(bullets), from, player.x, player.y, player.size, player.isFriendly);
    }

    /** The player's turn, then the enemies' turns, with the hits where each stood after its move. */
    method Clash(now: real, keys: Keys, picks: seq<ChoiceIndex>, trig: Trig, ghost from: Spots)
      returns (running: bool, ghost hits: seq<Bullet>, ghost pass: Pass)
      requires Valid() && |picks| >= |enemies| && Stood(bullets, from)
      modifies this`bullets, this`enemies, player, enemies
      ensures Valid()
      ensures running <==> player.health > 0
      ensures player.action == KeyAction(keys)
      ensures (player.x, player.y) == Moved(old(player.x), old(player.y), player.speed, player.size, player.action)
      ensures hits == Hits(player.x, player.y, player.size, player.isFriendly, old(bullets))
      ensures player.health == old(player.health) - TotalDamage(hits)
      ensures player.aimAngle == old(player.aimAngle) && player.shootTimer == old(player.shootTimer)
      ensures EnemiesTurned(old(enemies), pass, Centre(player.x, player.size), Centre(player.y, player.size), now, picks, trig)
      ensures forall j | 0 <= j < |old(enemies)| :: HitAt(old(enemies), pass, j)
      ensures forall j | 0 <= j < |old(enemies)| ::
        pass.poses[j] == old(PoseOf(enemies[j])) && pass.ends[j] == PoseOf(old(enemies)[j])
      ensures pass.lists[0] == RemoveAll(old(bullets), hits) && bullets == pass.lists[|old(enemies)|]
      ensures enemies == Alive(old(enemies))
      ensures forall i | 0 <= i < |bullets| :: bullets[i] in old(bullets) || fresh(bullets[i])
      ensures Stood(old(bullets), from)
    {
      hits := MovePlayer(keys, from);
      pass := MoveEnemies(now, picks, trig, old(bullets), from);
      running := player.health > 0;
    }

    /**
     * The second half of a frame: the player's and the enemies' passes,
     * `running` read after them, then the bullet pass. `at` records where
     * every bullet stood until the bullet pass: the frame's collisions are
     * stated against it, and the bullets kept flew on from there.
     */
    method Advance(now: real, keys: Keys, picks: seq<ChoiceIndex>, trig: Trig)
      returns (running: bool, ghost hits: seq<Bullet>, ghost pass: Pass, ghost at: Spots)
      requires Valid() && |picks| >= |enemies|
      modifies this`bullets, this`enemies, player, enemies, bullets
      ensures Valid()
      ensures running <==> player.health > 0
      ensures player.action == KeyAction(keys)
      ensures (player.x, player.y) == Moved(old(player.x), old(player.y), player.speed, player.size, player.action)
      ensures StoodBefore(old(bullets), at)
      ensures hits == HitsAt(player.x, player.y, player.size, player.isFriendly, old(bullets), at)
      ensures player.health == old(player.health) - TotalDamage(hits)
      ensures player.aimAngle == old(player.aimAngle) && player.shootTimer == old(player.shootTimer)
      ensures EnemiesTurned(old(enemies), pass, Centre(player.x, player.size), Centre(player.y, player.size), now, picks, trig)
      ensures forall j | 0 <= j < |old(enemies)| :: HitIn(old(enemies), pass, j, at)
      ensures forall j | 0 <= j < |old(enemies)| ::
        pass.poses[j] == old(PoseOf(enemies[j])) && pass.ends[j] == PoseOf(old(enemies)[j])
      ensures pass.lists[0] == RemoveAll(old(bullets), hits)
      ensures enemies == Alive(old(enemies))
      ensures FlewFrom(pass.lists[|old(enemies)|], at) && bullets == OnScreen(pass.lists[|old(enemies)|])
    {
      ghost var roster := enemies;
      running, hits, pass, at := Fight(now, keys, picks, trig);
      MoveBullets(roster, at);
    }

    /**
     * One frame of main's loop at time `now`: the player shoots (`armed` is
     * the list with its shot), an enemy may spawn (`roster` is the enemy
     * list with it), the player moves and is hit by `hits`, every enemy of
     * the roster takes its turn as `pass` records and is removed once dead,
     * and the bullets fly on, those leaving the world removed. The game
     * keeps running while the player has health.
     */
    method Step(now: real, keys: Keys, randomAngle: int, spawnX: SpawnCoord, spawnY: SpawnCoord,
                interval: SpawnInterval, picks: seq<ChoiceIndex>, trig: Trig)
      returns (running: bool, ghost armed: seq<Bullet>, ghost roster: seq<Entity>, ghost hits: seq<Bullet>,
               ghost pass: Pass, ghost at: Spots)
      requires Valid()
      requires 0 <= randomAngle <= 360 && |picks| > |enemies|
      modifies this, player, enemies, bullets
      ensures Valid()
      ensures player == old(player)
      ensures running <==> player.health > 0
      ensures Appended(old(bullets), armed, Due(old(player.shootTimer), player.shootTimerMax, now),
                       randomAngle, player.isFriendly, trig)
      ensures Due(old(player.shootTimer), player.shootTimerMax, now) ==>
        fresh(armed[|old(bullets)|]) && player.aimAngle == randomAngle && player.shootTimer == now
      ensures !Due(old(player.shootTimer), player.shootTimerMax, now) ==>
        player.aimAngle == old(player.aimAngle) && player.shootTimer == old(player.shootTimer)
      ensures Joined(old(enemies), roster, Due(old(lastEnemySpawnTime), old(nextSpawnInterval), now))
      ensures Due(old(lastEnemySpawnTime), old(nextSpawnInterval), now) ==>
        fresh(roster[|old(enemies)|]) && lastEnemySpawnTime == now && nextSpawnInterval == interval
      ensures !Due(old(lastEnemySpawnTime), old(nextSpawnInterval), now) ==>
        lastEnemySpawnTime == old(lastEnemySpawnTime) && nextSpawnInterval == old(nextSpawnInterval)
      ensures player.action == KeyAction(keys)
      ensures (player.x, player.y) == Moved(old(player.x), old(player.y), player.speed, player.size, player.action)
      ensures StoodBefore(old(bullets), at)
      ensures Due(old(player.shootTimer), player.shootTimerMax, now) ==>
        armed[|old(bullets)|] in at &&
        at[armed[|old(bullets)|]] == (Centre(old(player.x), player.size), Centre(old(player.y), player.size))
      ensures hits == HitsAt(player.x, player.y, player.size, player.isFriendly, armed, at)
      ensures player.health == old(player.health) - TotalDamage(hits)
      ensures EnemiesTurned(roster, pass, Centre(player.x, player.size), Centre(player.y, player.size), now, picks, trig)
      ensures forall j | 0 <= j < |old(enemies)| :: pass.poses[j] == old(PoseOf(enemies[j]))
      ensures forall j | 0 <= j < |roster| :: pass.ends[j] == PoseOf(roster[j])
      ensures Due(old(lastEnemySpawnTime), old(nextSpawnInterval), now) ==>
        pass.poses[|old(enemies)|] == SpawnPose(spawnX, spawnY)
      ensures forall j | 0 <= j < |roster| :: HitIn(roster, pass, j, at)
      ensures pass.lists[0] == RemoveAll(armed, hits)
      ensures enemies == Alive(roster)
      ensures FlewFrom(pass.lists[|roster|], at) && bullets == OnScreen(pass.lists[|roster|])
    {
      ghost var from := SpotsOf(set b | b in bullets);
      Arm(now, randomAngle, spawnX, spawnY, interval, trig, from);
      armed := bullets;
      roster := enemies;
      running, hits, pass, at := Advance(now, keys, picks, trig);
    }
  }
}
