// The Gymnasium environment of the game (src/bulllet_hell_rl/envs/BulletHellEnv.py):
// the choice of the nearest enemies and bullets for the observation, the
// centre test and the reward cascade, and the bookkeeping of `step` and
// `reset` (fixed 60 ms clock, spawn timer, step counter, end of episode).
// The moves of the entities inside `step` belong to a version of the game
// module that is not part of this model; they are left out, and the
// entities are those of the BulletHell module.

module Env {
  import opened BulletHell

  const StepMillis: int := 60
  const MaxSteps: int := 10000
  const NEnemies: int := 5
  const NBullets: int := 10

  // ---------------------------------------------------------------------
  // get_closest_entities: a stable sort by distance, then a prefix
  // ---------------------------------------------------------------------

  /** The sort key of get_closest_entities: the squared distance between two points. */
  function SqDist(x: int, y: int, refX: int, refY: int): (d: int)
    ensures d >= 0
    ensures d == 0 <==> x == refX && y == refY
  {
    (x - refX) * (x - refX) + (y - refY) * (y - refY)
  }

  /** Keys never decrease along `s`. */
  ghost predicate Ascending<T>(s: seq<T>, key: T -> int)
  {
    forall i, j | 0 <= i < j < |s| :: key(s[i]) <= key(s[j])
  }

  /** The elements of `s` whose key is `k`, in their order in `s`. */
  function WithKey<T>(s: seq<T>, key: T -> int, k: int): seq<T>
  {
    if |s| == 0 then []
    else (if key(s[0]) == k then [s[0]] else []) + WithKey(s[1..], key, k)
  }

  /** Puts `x` in front of the first element whose key is not smaller than its own. */
  function Insert<T>(x: T, s: seq<T>, key: T -> int): (r: seq<T>)
    ensures multiset(r) == multiset(s) + multiset{x}
  {
    if |s| == 0 then [x]
    else if key(x) <= key(s[0]) then [x] + s
    else
      assert s == [s[0]] + s[1..];
      [s[0]] + Insert(x, s[1..], key)
  }

  /** A head no larger than every key of an ascending tail gives an ascending list. */
  lemma PrependAscending<T>(h: T, rest: seq<T>, key: T -> int)
    requires Ascending(rest, key)
    requires forall e | e in rest :: key(h) <= key(e)
    ensures Ascending([h] + rest, key)
  {
    var r := [h] + rest;
    forall i, j | 0 <= i < j < |r| ensures key(r[i]) <= key(r[j]) {
      assert r[j] == rest[j - 1];
      if i > 0 {
        assert r[i] == rest[i - 1];
      }
    }
  }

  /** The tail of an ascending list is ascending. */
  lemma AscendingTail<T>(s: seq<T>, key: T -> int)
    requires |s| > 0 && Ascending(s, key)
    ensures Ascending(s[1..], key)
  {
    forall i, j | 0 <= i < j < |s[1..]| ensures key(s[1..][i]) <= key(s[1..][j]) {
      assert s[1..][i] == s[i + 1] && s[1..][j] == s[j + 1];
    }
  }

  /** WithKey of a list with a given head. */
  lemma WithKeyCons<T>(h: T, t: seq<T>, key: T -> int, k: int)
    ensures WithKey([h] + t, key, k) == (if key(h) == k then [h] else []) + WithKey(t, key, k)
  {
    assert ([h] + t)[1..] == t;
  }

  /** Inserting into an ascending list keeps it ascending. */
  lemma {:induction false} InsertAscending<T>(x: T, s: seq<T>, key: T -> int)
    requires Ascending(s, key)
    ensures Ascending(Insert(x, s, key), key)
  {
    if |s| == 0 {
    } else if key(x) <= key(s[0]) {
      PrependAscending(x, s, key);
    } else {
      var rest := Insert(x, s[1..], key);
      AscendingTail(s, key);
      InsertAscending(x, s[1..], key);
      forall e | e in rest ensures key(s[0]) <= key(e) {
        assert e in multiset(rest);
        if e != x {
          assert e in multiset(s[1..]);
          var j :| 0 <= j < |s[1..]| && s[1..][j] == e;
          assert s[j + 1] == e;
        }
      }
      PrependAscending(s[0], rest, key);
    }
  }

  /** Inserting `x` into an ascending list puts it in front of the entries of its own key. */
  lemma {:induction false} InsertWithKey<T>(x: T, s: seq<T>, key: T -> int, k: int)
    requires Ascending(s, key)
    ensures WithKey(Insert(x, s, key), key, k) == (if key(x) == k then [x] else []) + WithKey(s, key, k)
  {
    if |s| == 0 {
    } else if key(x) <= key(s[0]) {
      WithKeyCons(x, s, key, k);
    } else {
      var rest := Insert(x, s[1..], key);
      var h0 := if key(s[0]) == k then [s[0]] else [];
      var hx := if key(x) == k then [x] else [];
      var tail := WithKey(s[1..], key, k);
      AscendingTail(s, key);
      calc {
        WithKey(Insert(x, s, key), key, k);
        WithKey([s[0]] + rest, key, k);
        { WithKeyCons(s[0], rest, key, k); }
        h0 + WithKey(rest, key, k);
        { InsertWithKey(x, s[1..], key, k); }
        h0 + (hx + tail);
        { SwapHeads(h0, hx, tail); }
        hx + (h0 + tail);
        hx + WithKey(s, key, k);
      }
    }
  }

  /** Two heads of which one is empty can be swapped. */
  lemma SwapHeads<T>(a: seq<T>, b: seq<T>, w: seq<T>)
    requires a == [] || b == []
    ensures a + (b + w) == b + (a + w)
  {
    if a == [] {
      assert a + (b + w) == b + w == b + (a + w);
    } else {
      assert a + (b + w) == a + w == b + (a + w);
    }
  }

  /** Python's stable `sorted` by a key, as an insertion sort from the back of the list. */
  function SortedByKey<T>(s: seq<T>, key: T -> int): (r: seq<T>)
    ensures multiset(r) == multiset(s) && |r| == |s|
  {
    if |s| == 0 then []
    else
      assert s == [s[0]] + s[1..];
      assert multiset(s) == multiset{s[0]} + multiset(s[1..]);
      var r := Insert(s[0], SortedByKey(s[1..], key), key);
      assert |r| == |multiset(r)|;
      r
  }

  /** The sort puts the keys in ascending order. */
  lemma {:induction false} SortedIsAscending<T>(s: seq<T>, key: T -> int)
    ensures Ascending(SortedByKey(s, key), key)
  {
    if |s| > 0 {
      SortedIsAscending(s[1..], key);
      InsertAscending(s[0], SortedByKey(s[1..], key), key);
    }
  }

  /** The sort is stable: the entries of each key keep their order. */
  lemma {:induction false} SortedIsStable<T>(s: seq<T>, key: T -> int, k: int)
    ensures WithKey(SortedByKey(s, key), key, k) == WithKey(s, key, k)
  {
    if |s| > 0 {
      SortedIsStable(s[1..], key, k);
      SortedIsAscending(s[1..], key);
      InsertWithKey(s[0], SortedByKey(s[1..], key), key, k);
    }
  }

  /** The length of Python's slice `[:n]` of a list of `len` elements (a negative `n` counts from the end). */
  function PrefixLength(n: int, len: nat): (m: nat)
    ensures m <= len
    ensures 0 <= n ==> m == if n < len then n else len
    ensures n < 0 ==> m == if len + n > 0 then len + n else 0
  {
    if n >= 0 then (if n < len then n else len)
    else if len + n > 0 then len + n else 0
  }

  /**
   * get_closest_entities: the `n` entries of `items` nearest by `dist`,
   * nearest first, equally distant ones in their order in `items`.
   */
  function Closest<T(==)>(items: seq<T>, dist: T -> int, n: int): (r: seq<T>)
    ensures |items| == 0 ==> r == []
    ensures |r| == PrefixLength(n, |items|)
    ensures forall e | e in r :: e in items
  {
    if |items| == 0 then []
    else
      var sorted := SortedByKey(items, dist);
      var m := PrefixLength(n, |items|);
      assert forall e | e in sorted[..m] :: e in items by {
        forall e | e in sorted[..m] ensures e in items {
          assert e in multiset(sorted);
        }
      }
      sorted[..m]
  }

  /** The chosen entries are taken from `items`, each at most as often as it occurs there. */
  lemma ClosestIsSubMultiset<T>(items: seq<T>, dist: T -> int, n: int)
    ensures multiset(Closest(items, dist, n)) <= multiset(items)
  {
    if |items| > 0 {
      var sorted := SortedByKey(items, dist);
      var m := PrefixLength(n, |items|);
      assert sorted == sorted[..m] + sorted[m..];
    }
  }

  /** The chosen entries are nearest first. */
  lemma ClosestIsAscending<T>(items: seq<T>, dist: T -> int, n: int)
    ensures Ascending(Closest(items, dist, n), dist)
  {
    if |items| > 0 {
      SortedIsAscending(items, dist);
    }
  }

  /** No entry left out is nearer than an entry chosen. */
  lemma ClosestAreNearest<T>(items: seq<T>, dist: T -> int, n: int)
    ensures var r := Closest(items, dist, n);
      forall i, e | 0 <= i < |r| && e in multiset(items) - multiset(r) :: dist(r[i]) <= dist(e)
  {
    var r := Closest(items, dist, n);
    if |items| > 0 {
      var sorted := SortedByKey(items, dist);
      var m := |r|;
      assert r == sorted[..m];
      SortedIsAscending(items, dist);
      assert sorted == r + sorted[m..];
      assert multiset(items) == multiset(r) + multiset(sorted[m..]);
      PrefixBeforeRest(sorted, dist, m);
    }
  }

  /** In an ascending sequence, every entry of a prefix comes before every entry after it. */
  lemma PrefixBeforeRest<T>(s: seq<T>, key: T -> int, m: nat)
    requires Ascending(s, key) && m <= |s|
    ensures forall i, e | 0 <= i < m && e in multiset(s[m..]) :: key(s[..m][i]) <= key(e)
  {
    forall i, e | 0 <= i < m && e in multiset(s[m..]) ensures key(s[..m][i]) <= key(e) {
      var j :| m <= j < |s| && s[j] == e;
      assert s[..m][i] == s[i];
    }
  }

  /** Equally distant entries keep their relative order: they form a prefix of those in `items`. */
  lemma ClosestIsStable<T>(items: seq<T>, dist: T -> int, n: int, k: int)
    ensures var r := Closest(items, dist, n);
      exists m :: 0 <= m <= |WithKey(items, dist, k)| && WithKey(r, dist, k) == WithKey(items, dist, k)[..m]
  {
    var r := Closest(items, dist, n);
    if |items| == 0 {
      assert WithKey(r, dist, k) == WithKey(items, dist, k)[..0];
    } else {
      var sorted := SortedByKey(items, dist);
      SortedIsStable(items, dist, k);
      WithKeyOfPrefix(sorted, dist, k, |r|);
    }
  }

  lemma {:induction false} WithKeyOfPrefix<T>(s: seq<T>, key: T -> int, k: int, m: nat)
    requires m <= |s|
    ensures exists p :: 0 <= p <= |WithKey(s, key, k)| && WithKey(s[..m], key, k) == WithKey(s, key, k)[..p]
  {
    if m == 0 {
      assert WithKey(s[..m], key, k) == WithKey(s, key, k)[..0];
    } else {
      assert s[..m][1..] == s[1..][..m - 1];
      WithKeyOfPrefix(s[1..], key, k, m - 1);
      var p :| 0 <= p <= |WithKey(s[1..], key, k)| && WithKey(s[1..][..m - 1], key, k) == WithKey(s[1..], key, k)[..p];
      var head := if key(s[0]) == k then [s[0]] else [];
      assert WithKey(s[..m], key, k) == head + WithKey(s[1..], key, k)[..p];
      assert WithKey(s, key, k) == head + WithKey(s[1..], key, k);
      assert WithKey(s[..m], key, k) == WithKey(s, key, k)[..|head| + p];
    }
  }

  /** The squared distance of each enemy to the reference point, as a sort key. */
  function EnemyDistance(refX: int, refY: int, es: seq<Entity>): (dist: Entity -> int)
    reads es
    ensures forall e | e in es :: dist(e) == SqDist(e.x, e.y, refX, refY)
  {
    var m := map e | e in es :: SqDist(e.x, e.y, refX, refY);
    e => if e in m then m[e] else 0
  }

  /** The squared distance of each bullet to the reference point, as a sort key. */
  function BulletDistance(refX: int, refY: int, bs: seq<Bullet>): (dist: Bullet -> int)
    reads bs
    ensures forall b | b in bs :: dist(b) == SqDist(b.x, b.y, refX, refY)
  {
    var m := map b | b in bs :: SqDist(b.x, b.y, refX, refY);
    b => if b in m then m[b] else 0
  }

  // ---------------------------------------------------------------------
  // The bullet observation: truncation, then the friendly filter
  // ---------------------------------------------------------------------

  /** The list comprehension that drops friendly bullets. */
  function Hostile(bs: seq<Bullet>): (r: seq<Bullet>)
    ensures |r| <= |bs|
    ensures forall b | b in r :: !b.isFriendly
    ensures forall b | b in r :: b in bs
    ensures forall b | b in bs :: b in r <==> !b.isFriendly
  {
    if |bs| == 0 then []
    else
      assert bs == [bs[0]] + bs[1..];
      (if bs[0].isFriendly then [] else [bs[0]]) + Hostile(bs[1..])
  }

  /** No friendly bullet gets through the filter. */
  lemma {:induction false} HostileOfFriendly(bs: seq<Bullet>)
    requires forall b | b in bs :: b.isFriendly
    ensures Hostile(bs) == []
  {
    if |bs| > 0 {
      assert bs[0] in bs;
      assert forall b | b in bs[1..] :: b in bs;
      HostileOfFriendly(bs[1..]);
    }
  }

  /**
   * The bullets of the observation: the NBullets bullets nearest to the
   * player, of which the friendly ones are then dropped.
   */
  function ObservedBullets(refX: int, refY: int, bs: seq<Bullet>): (r: seq<Bullet>)
    reads bs
    ensures |r| <= NBullets
    ensures forall b | b in r :: b in bs && !b.isFriendly
  {
    Hostile(Closest(bs, BulletDistance(refX, refY, bs), NBullets))
  }

  /** With no more than NBullets bullets in the world, every hostile bullet is observed. */
  lemma FewBulletsAllSeen(refX: int, refY: int, bs: seq<Bullet>)
    requires |bs| <= NBullets
    ensures forall b | b in bs && !b.isFriendly :: b in ObservedBullets(refX, refY, bs)
  {
    var dist := BulletDistance(refX, refY, bs);
    var near := Closest(bs, dist, NBullets);
    if |bs| > 0 {
      var sorted := SortedByKey(bs, dist);
      assert near == sorted[..|bs|] == sorted;
    }
    assert multiset(near) == multiset(bs);
    assert ObservedBullets(refX, refY, bs) == Hostile(near);
    forall b | b in bs && !b.isFriendly ensures b in near {
      assert b in multiset(near);
    }
  }

  /**
   * Truncation comes first: when the NBullets nearest bullets are all
   * friendly, the observation holds no bullet, however many hostile
   * bullets lie further away.
   */
  lemma FriendlyCrowdHidesHostile(refX: int, refY: int, bs: seq<Bullet>)
    requires forall b | b in Closest(bs, BulletDistance(refX, refY, bs), NBullets) :: b.isFriendly
    ensures ObservedBullets(refX, refY, bs) == []
  {
    HostileOfFriendly(Closest(bs, BulletDistance(refX, refY, bs), NBullets));
  }

  // ---------------------------------------------------------------------
  // is_player_in_center
  // ---------------------------------------------------------------------

  /** is_player_in_center: strictly inside the middle half of the world on both axes. */
  predicate InCentre(x: real, y: real)
    ensures InCentre(x, y) <==> 125.0 < x < 375.0 && 125.0 < y < 375.0
  {
    var cx := WorldWidth as real / 2.0;
    var cy := WorldHeight as real / 2.0;
    x > cx / 2.0 && x < cx / 2.0 + cx && y > cy / 2.0 && y < cy / 2.0 + cy
  }

  /** The centre of the world is the square from a quarter to three quarters of each side, edges excluded. */
  lemma InCentreIsMiddleHalf(x: real, y: real)
    ensures InCentre(x, y) <==>
      WorldWidth as real / 4.0 < x < 3.0 * WorldWidth as real / 4.0 &&
      WorldHeight as real / 4.0 < y < 3.0 * WorldHeight as real / 4.0
  {
  }

  /** On whole coordinates of the 500 x 500 world the centre is 126..374 on both axes. */
  lemma InCentreOnGrid(x: int, y: int)
    ensures InCentre(x as real, y as real) <==> 126 <= x <= 374 && 126 <= y <= 374
  {
  }

  // ---------------------------------------------------------------------
  // The reward cascade
  // ---------------------------------------------------------------------

  /** The reward of a step and the comparison values the step leaves behind. */
  datatype Score = Score(reward: int, previousKillCount: int, previousHealth: int)

  /**
   * The reward cascade of step, first match wins: a kill since the last
   * recorded kill count scores 50 and records the count; otherwise a loss
   * of health since the last recorded health scores -100 and records the
   * health; otherwise the centre scores 10; otherwise staying alive scores 1.
   */
  function Reward(killCount: int, previousKillCount: int, health: int, previousHealth: int, inCentre: bool): (s: Score)
    ensures s.reward in {50, -100, 10, 1}
    ensures s.reward == 50 <==> killCount > previousKillCount
    ensures s.reward == -100 <==> killCount <= previousKillCount && health < previousHealth
    ensures s.reward == 10 <==> killCount <= previousKillCount && health >= previousHealth && inCentre
    ensures s.reward == 1 <==> killCount <= previousKillCount && health >= previousHealth && !inCentre
    ensures s.previousKillCount >= previousKillCount && s.previousKillCount >= killCount
    ensures s.previousKillCount == previousKillCount || s.previousKillCount == killCount
    ensures s.previousHealth == (if s.reward == -100 then health else previousHealth)
  {
    if killCount > previousKillCount then Score(50, killCount, previousHealth)
    else if health < previousHealth then Score(-100, previousKillCount, health)
    else if inCentre then Score(10, previousKillCount, previousHealth)
    else Score(1, previousKillCount, previousHealth)
  }

  /**
   * A hit taken in a step that also kills is not lost: the recorded health
   * stays, so the next step without a kill is penalised for it.
   */
  lemma HitDuringKillIsPenalisedNext(kills: int, previousKills: int, health: int, previousHealth: int,
                                      inCentre: bool, inCentre': bool)
    requires kills > previousKills && health < previousHealth
    ensures var s := Reward(kills, previousKills, health, previousHealth, inCentre);
      s.reward == 50 &&
      Reward(kills, s.previousKillCount, health, s.previousHealth, inCentre').reward == -100
  {
  }

  /** Repeating a step with nothing new scores no kill and no hit: the comparison values have caught up. */
  lemma RewardSettles(kills: int, previousKills: int, health: int, previousHealth: int,
                      inCentre: bool, inCentre': bool)
    requires health <= previousHealth
    ensures var s := Reward(kills, previousKills, health, previousHealth, inCentre);
      var s' := Reward(kills, s.previousKillCount, health, s.previousHealth, inCentre');
      s'.reward == (if s.reward == 50 && health < previousHealth then -100 else if inCentre' then 10 else 1)
  {
  }

  // ---------------------------------------------------------------------
  // The environment
  // ---------------------------------------------------------------------

  /** What step returns besides the reward: the observed entities and the player. */
  datatype Observation = Observation(health: int, x: int, y: int, enemies: seq<Entity>, bullets: seq<Bullet>)

  /** The info dictionary of step; `dtMillis` is `delta_time` in milliseconds. */
  datatype Info = Info(dtMillis: int, currentTime: int, stepCount: int, playerHealth: int, killCount: int)

  /**
   * BulletHellEnv after reset. `killCount` is the player's kill count,
   * which step raises by the number of enemy-killed events.
   */
  class BulletHellEnv {
    var player: Entity
    var killCount: int
    var enemies: seq<Entity>
    var bullets: seq<Bullet>
    var currentTime: int
    var previousTime: int
    var lastEnemySpawnTime: int
    var nextSpawnInterval: int
    var stepCount: int
    var playerPreviousHealth: int
    var playerPreviousKillCount: int

    /**
     * The clock is 60 ms per step since the reset and `previousTime` has
     * caught up with it; the spawn timer has not yet run out; the drawn
     * interval lies in [ENEMY_SPAWN_MIN, ENEMY_SPAWN_MAX].
     */
    ghost predicate Valid()
      reads this
    {
      stepCount >= 0 && currentTime == StepMillis * stepCount && previousTime == currentTime &&
      EnemySpawnMin <= nextSpawnInterval <= EnemySpawnMax &&
      0 <= currentTime - lastEnemySpawnTime < nextSpawnInterval &&
      killCount >= 0
    }

    /** The recorded kill count has caught up with the player's, so the next kill is rewarded. */
    predicate KillsRecorded()
      reads this
    {
      playerPreviousKillCount == killCount
    }

    /** The observation of the current state, nearest entities first. */
    function Observe(): (obs: Observation)
      reads this`player, this`enemies, this`bullets, player, enemies, bullets
      ensures obs.health == player.health && obs.x == player.x && obs.y == player.y
      ensures obs.enemies == Closest(enemies, EnemyDistance(player.x, player.y, enemies), NEnemies)
      ensures |obs.enemies| <= NEnemies && |obs.bullets| <= NBullets
      ensures obs.bullets == ObservedBullets(player.x, player.y, bullets)
      ensures obs.bullets == Hostile(Closest(bullets, BulletDistance(player.x, player.y, bullets), NBullets))
    {
      Observation(player.health, player.x, player.y,
                  Closest(enemies, EnemyDistance(player.x, player.y, enemies), NEnemies),
                  ObservedBullets(player.x, player.y, bullets))
    }

    /** __init__ followed by reset: the comparison values start at full health and no kills. */
    constructor (px: SpawnCoord, py: SpawnCoord, interval: SpawnInterval, spawns: seq<(SpawnCoord, SpawnCoord)>)
      requires |spawns| == 3
      ensures Valid() && KillsRecorded()
      ensures stepCount == 0 && currentTime == 0 && lastEnemySpawnTime == 0 && nextSpawnInterval == interval
      ensures fresh(player) && player.x == px && player.y == py && player.health == PlayerHealthMax
      ensures killCount == 0 && bullets == [] && |enemies| == 3
      ensures forall i | 0 <= i < 3 :: fresh(enemies[i]) && enemies[i].x == spawns[i].0 && enemies[i].y == spawns[i].1
      ensures playerPreviousHealth == PlayerHealthMax && playerPreviousKillCount == 0
    {
      playerPreviousHealth := PlayerHealthMax;
      playerPreviousKillCount := 0;
      stepCount := 0;
      previousTime := 0;
      currentTime := 0;
      player := new Entity.Player(px, py);
      killCount := 0;
      bullets := [];
      lastEnemySpawnTime := 0;
      nextSpawnInterval := interval;
      var e0 := new Entity.Enemy(spawns[0].0, spawns[0].1);
      var e1 := new Entity.Enemy(spawns[1].0, spawns[1].1);
      var e2 := new Entity.Enemy(spawns[2].0, spawns[2].1);
      enemies := [e0, e1, e2];
    }

    /**
     * reset as written: a new episode with a new player, three enemies and
     * no bullets, the clock and counter at zero, and the comparison values
     * of the reward left as the last episode made them.
     */
    method ResetAsWritten(px: SpawnCoord, py: SpawnCoord, interval: SpawnInterval,
                          spawns: seq<(SpawnCoord, SpawnCoord)>) returns (obs: Observation)
      requires |spawns| == 3
      modifies this
      ensures Valid()
      ensures stepCount == 0 && currentTime == 0 && lastEnemySpawnTime == 0 && nextSpawnInterval == interval
      ensures fresh(player) && player.x == px && player.y == py && player.health == PlayerHealthMax
      ensures killCount == 0 && bullets == [] && |enemies| == 3
      ensures forall i | 0 <= i < 3 :: fresh(enemies[i]) && enemies[i].x == spawns[i].0 && enemies[i].y == spawns[i].1
      ensures playerPreviousHealth == old(playerPreviousHealth)
      ensures playerPreviousKillCount == old(playerPreviousKillCount)
      ensures obs == Observe() && obs.bullets == []
    {
      Restart(px, py, interval, spawns);
      obs := Observe();
    }

    /** The new episode of reset: everything but the comparison values of the reward. */
    method Restart(px: SpawnCoord, py: SpawnCoord, interval: SpawnInterval, spawns: seq<(SpawnCoord, SpawnCoord)>)
      requires |spawns| == 3
      modifies this
      ensures Valid()
      ensures stepCount == 0 && currentTime == 0 && lastEnemySpawnTime == 0 && nextSpawnInterval == interval
      ensures fresh(player) && player.x == px && player.y == py && player.health == PlayerHealthMax
      ensures killCount == 0 && bullets == [] && |enemies| == 3
      ensures forall i | 0 <= i < 3 :: fresh(enemies[i]) && enemies[i].x == spawns[i].0 && enemies[i].y == spawns[i].1
      ensures playerPreviousHealth == old(playerPreviousHealth)
      ensures playerPreviousKillCount == old(playerPreviousKillCount)
    {
      RestartClock(interval);
      NewPlayer(px, py);
      NewEnemies(spawns);
    }

    /** The clock, the step counter and the spawn timer start again from zero. */
    method RestartClock(interval: SpawnInterval)
      modifies this`stepCount, this`previousTime, this`currentTime, this`lastEnemySpawnTime, this`nextSpawnInterval
      ensures stepCount == 0 && previousTime == 0 && currentTime == 0
      ensures lastEnemySpawnTime == 0 && nextSpawnInterval == interval
    {
      stepCount := 0;
      previousTime := 0;
      currentTime := 0;
      lastEnemySpawnTime := 0;
      nextSpawnInterval := interval;
    }

    /** A new player at full health with no kills. */
    method NewPlayer(px: SpawnCoord, py: SpawnCoord)
      modifies this`player, this`killCount
      ensures fresh(player) && player.kind == PlayerKind && player.x == px && player.y == py
      ensures player.health == PlayerHealthMax && killCount == 0
    {
      player := new Entity.Player(px, py);
      killCount := 0;
    }

    /** Three new enemies at the drawn positions, and no bullets. */
    method NewEnemies(spawns: seq<(SpawnCoord, SpawnCoord)>)
      requires |spawns| == 3
      modifies this`enemies, this`bullets
      ensures |enemies| == 3 && bullets == []
      ensures forall i | 0 <= i < 3 :: fresh(enemies[i]) && enemies[i].x == spawns[i].0 && enemies[i].y == spawns[i].1
    {
      var e0 := new Entity.Enemy(spawns[0].0, spawns[0].1);
      var e1 := new Entity.Enemy(spawns[1].0, spawns[1].1);
      var e2 := new Entity.Enemy(spawns[2].0, spawns[2].1);
      enemies := [e0, e1, e2];
      bullets := [];
    }

    /**
     * reset with the comparison values of the reward restored as __init__
     * sets them, so that the new episode's first kill and first hit count.
     */
    method Reset(px: SpawnCoord, py: SpawnCoord, interval: SpawnInterval,
                 spawns: seq<(SpawnCoord, SpawnCoord)>) returns (obs: Observation)
      requires |spawns| == 3
      modifies this
      ensures Valid() && KillsRecorded()
      ensures stepCount == 0 && currentTime == 0 && lastEnemySpawnTime == 0 && nextSpawnInterval == interval
      ensures fresh(player) && player.x == px && player.y == py && player.health == PlayerHealthMax
      ensures killCount == 0 && bullets == [] && |enemies| == 3
      ensures forall i | 0 <= i < 3 :: fresh(enemies[i]) && enemies[i].x == spawns[i].0 && enemies[i].y == spawns[i].1
      ensures playerPreviousHealth == PlayerHealthMax && playerPreviousKillCount == 0
      ensures obs == Observe() && obs.bullets == []
    {
      playerPreviousHealth := PlayerHealthMax;
      playerPreviousKillCount := 0;
      obs := ResetAsWritten(px, py, interval, spawns);
    }

    /** The fixed clock of step: 60 ms on, and the previous time catches up. */
    method Clock() returns (dtMillis: int)
      requires Valid()
      modifies this`currentTime, this`previousTime
      ensures currentTime == old(currentTime) + StepMillis && previousTime == currentTime
      ensures dtMillis == StepMillis
    {
      currentTime := currentTime + StepMillis;
      dtMillis := currentTime - previousTime;
      previousTime := currentTime;
    }

    /**
     * The spawn timer of step: once the drawn interval has elapsed an enemy
     * joins the end of the enemy list at the drawn position, the timer
     * restarts at the current time and a new interval is drawn.
     */
    method SpawnEnemy(spawnX: SpawnCoord, spawnY: SpawnCoord, interval: SpawnInterval)
      modifies this`enemies, this`lastEnemySpawnTime, this`nextSpawnInterval
      ensures old(currentTime - lastEnemySpawnTime >= nextSpawnInterval) ==>
        |enemies| == |old(enemies)| + 1 && enemies[..|old(enemies)|] == old(enemies) &&
        fresh(enemies[|old(enemies)|]) && enemies[|old(enemies)|].x == spawnX && enemies[|old(enemies)|].y == spawnY &&
        enemies[|old(enemies)|].health > 0 &&
        lastEnemySpawnTime == currentTime && nextSpawnInterval == interval
      ensures old(currentTime - lastEnemySpawnTime < nextSpawnInterval) ==>
        enemies == old(enemies) && lastEnemySpawnTime == old(lastEnemySpawnTime) &&
        nextSpawnInterval == old(nextSpawnInterval)
    {
      if currentTime - lastEnemySpawnTime >= nextSpawnInterval {
        var enemy := new Entity.Enemy(spawnX, spawnY);
        enemies := enemies + [enemy];
        lastEnemySpawnTime := currentTime;
        nextSpawnInterval := interval;
      }
    }

    /**
     * The reward and the end-of-episode flags of step: `killEvents`
     * enemy-killed events raise the kill count, the cascade sets the
     * reward, the episode is terminated once the player has no health and
     * truncated once the counter, read before it is raised, has reached
     * MaxSteps.
     */
    method Score(killEvents: nat) returns (reward: int, terminated: bool, truncated: bool)
      modifies this`killCount, this`playerPreviousKillCount, this`playerPreviousHealth, this`stepCount
      ensures killCount == old(killCount) + killEvents
      ensures var s := Reward(killCount, old(playerPreviousKillCount), player.health, old(playerPreviousHealth),
                              InCentre(player.x as real, player.y as real));
        reward == s.reward && playerPreviousKillCount == s.previousKillCount &&
        playerPreviousHealth == s.previousHealth
      ensures terminated <==> player.health <= 0
      ensures truncated <==> old(stepCount) >= MaxSteps
      ensures stepCount == old(stepCount) + 1
    {
      killCount := killCount + killEvents;
      var s := Reward(killCount, playerPreviousKillCount, player.health, playerPreviousHealth,
                      InCentre(player.x as real, player.y as real));
      reward := s.reward;
      playerPreviousKillCount := s.previousKillCount;
      playerPreviousHealth := s.previousHealth;
      terminated := player.health <= 0;
      truncated := stepCount >= MaxSteps;
      stepCount := stepCount + 1;
    }

    /**
     * step: the clock moves on 60 ms, an enemy spawns once the drawn
     * interval has elapsed, the observation is taken, and the reward and
     * the end-of-episode flags are computed. The observation reads none of
     * the state the reward changes, so it is taken last here.
     */
    method Step(killEvents: nat, spawnX: SpawnCoord, spawnY: SpawnCoord, interval: SpawnInterval)
      returns (obs: Observation, reward: int, terminated: bool, truncated: bool, info: Info)
      requires Valid()
      modifies this`currentTime, this`previousTime, this`enemies, this`lastEnemySpawnTime,
        this`nextSpawnInterval, this`killCount, this`playerPreviousKillCount, this`playerPreviousHealth,
        this`stepCount
      ensures Valid()
      ensures currentTime == old(currentTime) + StepMillis && stepCount == old(stepCount) + 1
      ensures info == Info(StepMillis, currentTime, stepCount, player.health, killCount)
      ensures currentTime - old(lastEnemySpawnTime) >= old(nextSpawnInterval) ==>
        |enemies| == |old(enemies)| + 1 && enemies[..|old(enemies)|] == old(enemies) &&
        fresh(enemies[|old(enemies)|]) && enemies[|old(enemies)|].x == spawnX && enemies[|old(enemies)|].y == spawnY &&
        lastEnemySpawnTime == currentTime && nextSpawnInterval == interval &&
        old(currentTime) - old(lastEnemySpawnTime) < old(nextSpawnInterval)
      ensures currentTime - old(lastEnemySpawnTime) < old(nextSpawnInterval) ==>
        enemies == old(enemies) && lastEnemySpawnTime == old(lastEnemySpawnTime) &&
        nextSpawnInterval == old(nextSpawnInterval)
      ensures bullets == old(bullets) && player == old(player)
      ensures var s := Reward(killCount, old(playerPreviousKillCount), player.health, old(playerPreviousHealth),
                              InCentre(player.x as real, player.y as real));
        reward == s.reward && playerPreviousKillCount == s.previousKillCount &&
        playerPreviousHealth == s.previousHealth
      ensures old(KillsRecorded()) ==> KillsRecorded() && (reward == 50 <==> killEvents > 0)
      ensures terminated <==> player.health <= 0
      ensures truncated <==> old(stepCount) >= MaxSteps
      ensures truncated <==> currentTime > StepMillis * MaxSteps
      ensures obs == Observe()
    {
      reward, terminated, truncated, info := Play(killEvents, spawnX, spawnY, interval);
      obs := Observe();
    }

    /** step without the observation. */
    method Play(killEvents: nat, spawnX: SpawnCoord, spawnY: SpawnCoord, interval: SpawnInterval)
      returns (reward: int, terminated: bool, truncated: bool, info: Info)
      requires Valid()
      modifies this`currentTime, this`previousTime, this`enemies, this`lastEnemySpawnTime,
        this`nextSpawnInterval, this`killCount, this`playerPreviousKillCount, this`playerPreviousHealth,
        this`stepCount
      ensures Valid()
      ensures currentTime == old(currentTime) + StepMillis && stepCount == old(stepCount) + 1
      ensures info == Info(StepMillis, currentTime, stepCount, player.health, killCount)
      ensures currentTime - old(lastEnemySpawnTime) >= old(nextSpawnInterval) ==>
        |enemies| == |old(enemies)| + 1 && enemies[..|old(enemies)|] == old(enemies) &&
        fresh(enemies[|old(enemies)|]) && enemies[|old(enemies)|].x == spawnX && enemies[|old(enemies)|].y == spawnY &&
        lastEnemySpawnTime == currentTime && nextSpawnInterval == interval &&
        old(currentTime) - old(lastEnemySpawnTime) < old(nextSpawnInterval)
      ensures currentTime - old(lastEnemySpawnTime) < old(nextSpawnInterval) ==>
        enemies == old(enemies) && lastEnemySpawnTime == old(lastEnemySpawnTime) &&
        nextSpawnInterval == old(nextSpawnInterval)
      ensures bullets == old(bullets) && player == old(player)
      ensures var s := Reward(killCount, old(playerPreviousKillCount), player.health, old(playerPreviousHealth),
                              InCentre(player.x as real, player.y as real));
        reward == s.reward && playerPreviousKillCount == s.previousKillCount &&
        playerPreviousHealth == s.previousHealth
      ensures old(KillsRecorded()) ==> KillsRecorded() && (reward == 50 <==> killEvents > 0)
      ensures terminated <==> player.health <= 0
      ensures truncated <==> old(stepCount) >= MaxSteps
      ensures truncated <==> currentTime > StepMillis * MaxSteps
    {
      var dtMillis := Clock();
      SpawnEnemy(spawnX, spawnY, interval);
      reward, terminated, truncated := Score(killEvents);
      info := Info(dtMillis, currentTime, stepCount, player.health, killCount);
    }
  }

  /**
   * After an episode that ended with the player out of health, reset as
   * written leaves a recorded health of 0 or less, and a hit on the new,
   * full-health player scores no penalty.
   */
  lemma StaleHealthHidesHits()
    ensures Reward(0, 0, PlayerHealthMax - BulletDamage, 0, false).reward == 1
  {
  }

  /**
   * After an episode of three kills, reset as written leaves a recorded
   * kill count of 3, and the new player's first kill scores no reward.
   */
  lemma StaleKillCountHidesKills()
    ensures Reward(1, 3, PlayerHealthMax, PlayerHealthMax, false).reward == 1
  {
  }

  /** With the values restored by Reset, the first kill and the first hit of an episode both count. */
  lemma FreshEpisodeCountsFirstKillAndHit(kills: int, health: int, inCentre: bool)
    requires kills >= 0 && health <= PlayerHealthMax
    ensures Reward(kills, 0, health, PlayerHealthMax, inCentre).reward ==
      if kills > 0 then 50 else if health < PlayerHealthMax then -100 else if inCentre then 10 else 1
  {
  }
}
