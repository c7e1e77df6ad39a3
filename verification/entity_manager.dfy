/**
 * The server's enemy manager (server/src/entity-manager.ts): the occupancy
 * set, the walkability check, enemy steps with diagonal corner validation,
 * the chase / return / wander AI, step-timer carry-over, damage and respawn.
 *
 * Randomness is passed in: `AiDraw` carries the wander jitter and the
 * shuffle draws of one enemy for one tick, respawn offsets are a list of
 * candidate offsets. The 10-second respawn timer is the explicit event
 * `Respawn`.
 */
module EntityManager {
  import opened Wrappers
  import opened Constants
  import opened Types
  import opened Terrain
  import opened Oracles

  /** The source's type also lists 'idle', but no code path ever assigns it. */
  datatype AiState = Wander | Chase | Return

  datatype Enemy = Enemy(
    id: Id,
    kind: EntityType,
    tile: Tile,
    spawn: Tile,
    moveState: MoveState,
    from: Tile,
    moveTimer: int,
    moveDuration: Duration,
    direction: Direction,
    health: int,
    maxHealth: int,
    attack: int,
    defense: int,
    aggroRange: int,
    aiState: AiState,
    aiTimer: real,
    target: Option<Id>,
    attackCooldown: int)

  /** The result of an operation that may start a step: the enemy and the occupancy after it. */
  datatype Outcome = Outcome(moved: bool, enemy: Enemy, occ: set<Tile>)

  /** The random numbers one enemy may consume in one tick. */
  datatype AiDraw = AiDraw(jitter: real, shuffle: seq<nat>)

  datatype EnemyConfig = EnemyConfig(moveMs: Duration, health: int, attack: int, defense: int, aggroRange: int)

  /** ENEMY_CONFIGS: only spiders, skeletons and orcs have one. */
  function ConfigOf(kind: EntityType): Option<EnemyConfig> {
    match kind
    case Spider => Some(EnemyConfig(SpiderMoveMs, SpiderHealth, SpiderAttack, 1, SpiderAggroRange))
    case Skeleton => Some(EnemyConfig(SkeletonMoveMs, SkeletonHealth, SkeletonAttack, 4, SkeletonAggroRange))
    case Orc => Some(EnemyConfig(OrcMoveMs, OrcHealth, OrcAttack, 5, OrcAggroRange))
    case _ => None
  }

  /**
   * `#spawnEnemy`: a fresh enemy of a configured kind standing idle on its
   * spawn tile; `timerDraw` in [0, 1) is the Math.random() behind its first
   * wander delay.
   */
  function NewEnemy(id: Id, kind: EntityType, at: Tile, timerDraw: real): (e: Enemy)
    requires ConfigOf(kind).Some?
    ensures e.tile == at && e.spawn == at && e.from == at
    ensures e.moveState == Idle && e.aiState == Wander && e.target == None
    ensures e.health == e.maxHealth > 0
    ensures 0.0 <= timerDraw < 1.0 ==> 0.0 <= e.aiTimer < WanderIntervalMs as real
  {
    var cfg := ConfigOf(kind).value;
    Enemy(id, kind, at, at, Idle, at, 0, cfg.moveMs, Down, cfg.health, cfg.health,
          cfg.attack, cfg.defense, cfg.aggroRange, Wander, timerDraw * WanderIntervalMs as real, None, 0)
  }

  // ---------------------------------------------------------------------
  // Occupancy and walkability
  // ---------------------------------------------------------------------

  /** The tiles of the live enemies, gathered in table order. */
  function LiveTiles(es: seq<Enemy>): (s: set<Tile>)
    ensures forall t :: t in s <==> exists e :: e in es && e.health > 0 && e.tile == t
  {
    if |es| == 0 then {}
    else
      var last := es[|es| - 1];
      assert es == es[..|es| - 1] + [last];
      LiveTiles(es[..|es| - 1]) + (if last.health > 0 then {last.tile} else {})
  }

  /** `buildOccupancy`: every live enemy's tile and every given player tile. */
  function BuildOccupancy(es: seq<Enemy>, playerTiles: seq<Tile>): (occ: set<Tile>)
    ensures forall t :: t in occ <==> (exists e :: e in es && e.health > 0 && e.tile == t) || t in playerTiles
  {
    LiveTiles(es) + set t | t in playerTiles
  }

  predicate InWorld(x: int, y: int) {
    1 <= x < WorldTilesX - 1 && 1 <= y < WorldTilesY - 1
  }

  /**
   * `isTileWalkable(x, y, fromX?, fromY?)`: bounds, then occupancy, then
   * terrain, then (only when a source tile is given) the step height.
   */
  function IsTileWalkable(occ: set<Tile>, o: Oracle, x: int, y: int, source: Option<Tile>): (b: bool)
    ensures b ==> 1 <= x <= WorldTilesX - 2 && 1 <= y <= WorldTilesY - 2
    ensures b ==> Tile(x, y) !in occ && o.walkable(x, y)
    ensures b && source.Some? ==> InStep(o, source.value.x, source.value.y, x, y)
    ensures source.None? ==> (b <==> InWorld(x, y) && Tile(x, y) !in occ && o.walkable(x, y))
  {
    if !InWorld(x, y) then false
    else if Tile(x, y) in occ then false
    else if !o.walkable(x, y) then false
    else if source.Some? && !InStep(o, source.value.x, source.value.y, x, y) then false
    else true
  }

  /** Each of the four checks on its own is enough to reject a tile. */
  lemma WalkableRejections(occ: set<Tile>, n: Noise, x: int, y: int, source: Option<Tile>)
    ensures x < 1 || y < 1 || x >= WorldTilesX - 1 || y >= WorldTilesY - 1 ==> !IsTileWalkable(occ, OracleOf(n), x, y, source)
    ensures Tile(x, y) in occ ==> !IsTileWalkable(occ, OracleOf(n), x, y, source)
    ensures !TerrainWalkable(n, x, y) ==> !IsTileWalkable(occ, OracleOf(n), x, y, source)
    ensures source.Some? && !ElevationWalkable(n, source.value.x, source.value.y, x, y) ==>
              !IsTileWalkable(occ, OracleOf(n), x, y, source)
    ensures source.None? && InWorld(x, y) && Tile(x, y) !in occ && TerrainWalkable(n, x, y) ==>
              IsTileWalkable(occ, OracleOf(n), x, y, source)
  {
  }

  /**
   * With non-negative elevation noise the bounds test never decides
   * anything: terrain walkability already keeps a tile one in from every edge.
   */
  lemma BoundsCheckRedundant(occ: set<Tile>, n: Noise, x: int, y: int, source: Option<Tile>)
    requires n.elevation(x, y) >= 0.0
    ensures IsTileWalkable(occ, OracleOf(n), x, y, source) <==>
              Tile(x, y) !in occ && TerrainWalkable(n, x, y) &&
              (source.Some? ==> ElevationWalkable(n, source.value.x, source.value.y, x, y))
  {
    if TerrainWalkable(n, x, y) {
      WalkableIsInterior(n, x, y);
    }
  }

  // ---------------------------------------------------------------------
  // Steps
  // ---------------------------------------------------------------------

  /** `#tryMove`: one step by (dx, dy), refusing (0, 0) and diagonals that cut a corner. */
  function TryMove(occ: set<Tile>, o: Oracle, e: Enemy, dx: int, dy: int): (r: Outcome)
    ensures !r.moved ==> r.enemy == e && r.occ == occ
    ensures r.moved ==> (dx != 0 || dy != 0)
    ensures r.moved ==> r.enemy.tile == Offset(e.tile, dx, dy) && r.enemy.tile !in occ
    ensures r.moved ==> r.enemy == e.(from := e.tile, tile := r.enemy.tile, moveState := Moving,
                                      moveTimer := 0, direction := Face(e.direction, dx, dy))
    ensures r.moved ==> r.occ == occ - {e.tile} + {r.enemy.tile}
    ensures r.moved ==> IsTileWalkable(occ, o, e.tile.x + dx, e.tile.y + dy, Some(e.tile))
  {
    var t := e.tile;
    if dx == 0 && dy == 0 then Outcome(false, e, occ)
    else if dx != 0 && dy != 0 &&
            (!IsTileWalkable(occ, o, t.x + dx, t.y, Some(t)) || !IsTileWalkable(occ, o, t.x, t.y + dy, Some(t)))
    then Outcome(false, e, occ)
    else if !IsTileWalkable(occ, o, t.x + dx, t.y + dy, Some(t)) then Outcome(false, e, occ)
    else
      var next := Offset(t, dx, dy);
      Outcome(true, e.(from := t, tile := next, moveState := Moving, moveTimer := 0,
                       direction := Face(e.direction, dx, dy)),
              occ - {t} + {next})
  }

  /**
   * The shape every AI step has: either nothing changes, or the enemy starts
   * a one-tile step onto a free tile, carrying its occupancy entry along.
   */
  predicate StepShape(occ: set<Tile>, e: Enemy, r: Outcome) {
    && (!r.moved ==> r.enemy == e && r.occ == occ)
    && (r.moved ==>
          && r.enemy.tile !in occ
          && r.occ == occ - {e.tile} + {r.enemy.tile}
          && Chebyshev(r.enemy.tile, e.tile) == 1
          && r.enemy == e.(from := e.tile, tile := r.enemy.tile, moveState := Moving,
                           moveTimer := 0, direction := r.enemy.direction))
  }

  lemma TryMoveShape(occ: set<Tile>, o: Oracle, e: Enemy, dx: int, dy: int)
    requires -1 <= dx <= 1 && -1 <= dy <= 1
    ensures StepShape(occ, e, TryMove(occ, o, e, dx, dy))
  {
  }

  /** A diagonal step needs both cardinal neighbours walkable from the source. */
  lemma DiagonalNeedsBothCardinals(occ: set<Tile>, o: Oracle, e: Enemy, dx: int, dy: int)
    requires dx != 0 && dy != 0
    requires TryMove(occ, o, e, dx, dy).moved
    ensures IsTileWalkable(occ, o, e.tile.x + dx, e.tile.y, Some(e.tile))
    ensures IsTileWalkable(occ, o, e.tile.x, e.tile.y + dy, Some(e.tile))
  {
  }

  /** Whether a step is accepted depends on where the enemy stands, not on its other fields. */
  lemma AcceptanceDependsOnTile(occ: set<Tile>, o: Oracle, e: Enemy, e2: Enemy, dx: int, dy: int)
    requires e2.tile == e.tile
    ensures TryMove(occ, o, e2, dx, dy).moved == TryMove(occ, o, e, dx, dy).moved
  {
  }

  /** Some of the three steps `#stepToward` tries toward `target` is accepted. */
  predicate TowardAccepted(occ: set<Tile>, o: Oracle, e: Enemy, target: Tile) {
    var sx := Sign(target.x - e.tile.x);
    var sy := Sign(target.y - e.tile.y);
    TryMove(occ, o, e, sx, sy).moved || TryMove(occ, o, e, sx, 0).moved || TryMove(occ, o, e, 0, sy).moved
  }

  /** `to` is no farther from `goal` than `from` on either axis, and nearer on at least one. */
  predicate Approaches(from: Tile, to: Tile, goal: Tile) {
    && Abs(to.x - goal.x) <= Abs(from.x - goal.x) && Abs(to.y - goal.y) <= Abs(from.y - goal.y)
    && (Abs(to.x - goal.x) < Abs(from.x - goal.x) || Abs(to.y - goal.y) < Abs(from.y - goal.y))
  }

  /**
   * A step that moves each axis by its sign toward `goal`, or not at all,
   * and moves at least one axis, approaches `goal`.
   */
  lemma SignStepApproaches(from: Tile, goal: Tile, dx: int, dy: int)
    requires dx == Sign(goal.x - from.x) || dx == 0
    requires dy == Sign(goal.y - from.y) || dy == 0
    requires dx != 0 || dy != 0
    ensures Approaches(from, Offset(from, dx, dy), goal)
    ensures Chebyshev(Offset(from, dx, dy), goal) <= Chebyshev(from, goal)
  {
  }

  /** The step by (dx, dy) approaches `goal` and is no farther from it in Chebyshev distance. */
  predicate ApproachesBy(from: Tile, goal: Tile, dx: int, dy: int) {
    Approaches(from, Offset(from, dx, dy), goal) && Chebyshev(Offset(from, dx, dy), goal) <= Chebyshev(from, goal)
  }

  /** Each of the three tries of `#stepToward` that moves at all approaches the target. */
  lemma CandidatesApproach(from: Tile, goal: Tile)
    ensures var sx := Sign(goal.x - from.x); var sy := Sign(goal.y - from.y);
            && (sx != 0 || sy != 0 ==> ApproachesBy(from, goal, sx, sy))
            && (sx != 0 ==> ApproachesBy(from, goal, sx, 0))
            && (sy != 0 ==> ApproachesBy(from, goal, 0, sy))
  {
    var sx := Sign(goal.x - from.x);
    var sy := Sign(goal.y - from.y);
    if sx != 0 || sy != 0 {
      SignStepApproaches(from, goal, sx, sy);
    }
    if sx != 0 {
      SignStepApproaches(from, goal, sx, 0);
    }
    if sy != 0 {
      SignStepApproaches(from, goal, 0, sy);
    }
  }

  /** The acceptance test of `#stepToward` sees only the tile the enemy stands on. */
  lemma TowardAcceptedOnTile(occ: set<Tile>, o: Oracle, e: Enemy, e2: Enemy, target: Tile)
    requires e2.tile == e.tile
    ensures TowardAccepted(occ, o, e2, target) == TowardAccepted(occ, o, e, target)
  {
    var sx := Sign(target.x - e.tile.x);
    var sy := Sign(target.y - e.tile.y);
    AcceptanceDependsOnTile(occ, o, e, e2, sx, sy);
    AcceptanceDependsOnTile(occ, o, e, e2, sx, 0);
    AcceptanceDependsOnTile(occ, o, e, e2, 0, sy);
  }

  /** The random step's acceptance test sees only the tile the enemy stands on. */
  lemma SomeAcceptedOnTile(occ: set<Tile>, o: Oracle, e: Enemy, e2: Enemy)
    requires e2.tile == e.tile
    ensures (exists d :: Accepts(occ, o, e2, d)) == (exists d :: Accepts(occ, o, e, d))
  {
    forall d ensures Accepts(occ, o, e2, d) == Accepts(occ, o, e, d) {
      AcceptanceDependsOnTile(occ, o, e, e2, DirDx(d), DirDy(d));
    }
  }

  /**
   * `#stepToward`: the sign step toward the target, then its horizontal
   * part, then its vertical part; the first accepted one is taken.
   */
  function StepToward(occ: set<Tile>, o: Oracle, e: Enemy, target: Tile): (r: Outcome)
    ensures var sx := Sign(target.x - e.tile.x); var sy := Sign(target.y - e.tile.y);
      && (TryMove(occ, o, e, sx, sy).moved ==> r == TryMove(occ, o, e, sx, sy))
      && (!TryMove(occ, o, e, sx, sy).moved && sx != 0 && TryMove(occ, o, e, sx, 0).moved ==> r == TryMove(occ, o, e, sx, 0))
      && (!TryMove(occ, o, e, sx, sy).moved && (sx == 0 || !TryMove(occ, o, e, sx, 0).moved) && sy != 0 ==> r == TryMove(occ, o, e, 0, sy))
      && (r.moved ==> r == TryMove(occ, o, e, r.enemy.tile.x - e.tile.x, r.enemy.tile.y - e.tile.y))
      && (!r.moved ==> r.enemy == e && r.occ == occ)
    ensures StepShape(occ, e, r)
  {
    var sx := Sign(target.x - e.tile.x);
    var sy := Sign(target.y - e.tile.y);
    TryMoveShape(occ, o, e, sx, sy);
    TryMoveShape(occ, o, e, sx, 0);
    TryMoveShape(occ, o, e, 0, sy);
    var first := TryMove(occ, o, e, sx, sy);
    if first.moved then first
    else
      var horizontal := if sx != 0 then TryMove(occ, o, e, sx, 0) else Outcome(false, e, occ);
      if horizontal.moved then horizontal
      else if sy != 0 then TryMove(occ, o, e, 0, sy)
      else Outcome(false, e, occ)
  }

  /**
   * `#stepToward` moves exactly when one of its three tries is accepted, and
   * a step it takes never leads away from the target on either axis.
   */
  lemma StepTowardApproaches(occ: set<Tile>, o: Oracle, e: Enemy, target: Tile)
    ensures var r := StepToward(occ, o, e, target);
            && (r.moved <==> TowardAccepted(occ, o, e, target))
            && (r.moved ==> Approaches(e.tile, r.enemy.tile, target) && Chebyshev(r.enemy.tile, target) <= Chebyshev(e.tile, target))
  {
    CandidatesApproach(e.tile, target);
  }

  /** Swaps positions i and j. */
  function Swap<T>(a: seq<T>, i: nat, j: nat): (r: seq<T>)
    requires i < |a| && j < |a|
    ensures |r| == |a| && multiset(r) == multiset(a)
    ensures r[i] == a[j] && r[j] == a[i]
    ensures forall k :: 0 <= k < |a| && k != i && k != j ==> r[k] == a[k]
  {
    var r := a[i := a[j]][j := a[i]];
    assert multiset(a[i := a[j]]) == multiset(a) - multiset{a[i]} + multiset{a[j]};
    r
  }

  /**
   * The Fisher-Yates shuffle of `#stepRandom`, positions i down to 1: each
   * draw stands for Math.floor(Math.random() * (i + 1)); a draw outside
   * [0, i] is reduced into it and a missing one counts as 0.
   */
  function ShuffleDown<T>(a: seq<T>, i: nat, draws: seq<nat>): (r: seq<T>)
    requires i < |a|
    ensures |r| == |a| && multiset(r) == multiset(a)
    decreases i
  {
    if i == 0 then a
    else
      var j := (if |draws| > 0 then draws[0] else 0) % (i + 1);
      ShuffleDown(Swap(a, i, j), i - 1, if |draws| > 0 then draws[1..] else [])
  }

  /** The shuffled direction list is a permutation of all eight directions. */
  function ShuffledDirections(draws: seq<nat>): (r: seq<Direction>)
    ensures |r| == 8
    ensures forall d :: d in r
  {
    var r := ShuffleDown(AllDirections, |AllDirections| - 1, draws);
    assert forall d :: d in r by {
      forall d ensures d in r {
        AllDirectionsComplete(d);
        assert d in multiset(r);
      }
    }
    r
  }

  /** Whether the step along `d` would be accepted. */
  predicate Accepts(occ: set<Tile>, o: Oracle, e: Enemy, d: Direction) {
    TryMove(occ, o, e, DirDx(d), DirDy(d)).moved
  }

  /** `r` moves iff some direction of `order` is accepted, and then as the first accepted one does. */
  predicate FirstAccepted(occ: set<Tile>, o: Oracle, e: Enemy, order: seq<Direction>, r: Outcome) {
    && (r.moved <==> exists i :: 0 <= i < |order| && Accepts(occ, o, e, order[i]))
    && (r.moved ==> exists i :: 0 <= i < |order| && r == TryMove(occ, o, e, DirDx(order[i]), DirDy(order[i])) &&
                                 forall j :: 0 <= j < i ==> !Accepts(occ, o, e, order[j]))
  }

  /** A rejected head direction leaves the choice to the rest of the order. */
  lemma FirstAcceptedAfterRejected(occ: set<Tile>, o: Oracle, e: Enemy, order: seq<Direction>, r: Outcome)
    requires |order| > 0 && !Accepts(occ, o, e, order[0])
    requires FirstAccepted(occ, o, e, order[1..], r)
    ensures FirstAccepted(occ, o, e, order, r)
  {
    if r.moved {
      var k :| 0 <= k < |order[1..]| && r == TryMove(occ, o, e, DirDx(order[1..][k]), DirDy(order[1..][k])) &&
        forall j :: 0 <= j < k ==> !Accepts(occ, o, e, order[1..][j]);
      assert order[k + 1] == order[1..][k];
      forall j | 0 <= j < k + 1 ensures !Accepts(occ, o, e, order[j]) {
        if j > 0 {
          assert order[j] == order[1..][j - 1];
        }
      }
    } else {
      forall i | 0 <= i < |order| ensures !Accepts(occ, o, e, order[i]) {
        if i > 0 {
          assert order[i] == order[1..][i - 1];
        }
      }
    }
  }

  /** Tries the directions in order; the first accepted one is taken. */
  function TryInOrder(occ: set<Tile>, o: Oracle, e: Enemy, order: seq<Direction>): (r: Outcome)
    ensures FirstAccepted(occ, o, e, order, r)
    ensures StepShape(occ, e, r)
  {
    if |order| == 0 then Outcome(false, e, occ)
    else
      DeltaIsUnitStep(order[0]);
      TryMoveShape(occ, o, e, DirDx(order[0]), DirDy(order[0]));
      var first := TryMove(occ, o, e, DirDx(order[0]), DirDy(order[0]));
      if first.moved then
        assert Accepts(occ, o, e, order[0]);
        first
      else
        var rest := TryInOrder(occ, o, e, order[1..]);
        FirstAcceptedAfterRejected(occ, o, e, order, rest);
        rest
  }

  /** Trying an order that lists every direction moves iff some direction is accepted. */
  lemma CoveringOrderMoves(occ: set<Tile>, o: Oracle, e: Enemy, order: seq<Direction>)
    requires forall d :: d in order
    ensures TryInOrder(occ, o, e, order).moved <==> exists d :: Accepts(occ, o, e, d)
    ensures TryInOrder(occ, o, e, order).moved ==>
              exists d :: TryInOrder(occ, o, e, order) == TryMove(occ, o, e, DirDx(d), DirDy(d))
  {
    var r := TryInOrder(occ, o, e, order);
    if r.moved {
      var i :| 0 <= i < |order| && r == TryMove(occ, o, e, DirDx(order[i]), DirDy(order[i]));
      assert Accepts(occ, o, e, order[i]);
    }
    if d :| Accepts(occ, o, e, d) {
      assert d in order;
      var i :| 0 <= i < |order| && order[i] == d;
      assert Accepts(occ, o, e, order[i]);
    }
  }

  /** `#stepRandom`: the enemy moves iff at least one of the eight directions is accepted. */
  function StepRandom(occ: set<Tile>, o: Oracle, e: Enemy, draws: seq<nat>): (r: Outcome)
    ensures r.moved <==> exists d :: Accepts(occ, o, e, d)
    ensures r.moved ==> exists d :: r == TryMove(occ, o, e, DirDx(d), DirDy(d))
    ensures StepShape(occ, e, r)
  {
    var order := ShuffledDirections(draws);
    CoveringOrderMoves(occ, o, e, order);
    TryInOrder(occ, o, e, order)
  }

  // ---------------------------------------------------------------------
  // AI
  // ---------------------------------------------------------------------

  datatype PlayerPos = PlayerPos(id: Id, tile: Tile)

  /** The player chosen by the aggro scan, its distance and its place in the list. */
  datatype Target = Target(pos: PlayerPos, dist: nat, index: nat)

  /**
   * The aggro scan of `#runAI`: the nearest player within `range`
   * (Chebyshev), the earliest in the list on ties.
   */
  function Closest(ps: seq<PlayerPos>, from: Tile, range: int): (r: Option<Target>)
    ensures r.None? <==> forall i :: 0 <= i < |ps| ==> Chebyshev(ps[i].tile, from) > range
    ensures r.Some? ==> r.value.index < |ps| && ps[r.value.index] == r.value.pos
    ensures r.Some? ==> r.value.dist == Chebyshev(r.value.pos.tile, from) <= range
    ensures r.Some? ==> forall i :: 0 <= i < |ps| ==> Chebyshev(ps[i].tile, from) >= r.value.dist
    ensures r.Some? ==> forall i :: 0 <= i < r.value.index ==> Chebyshev(ps[i].tile, from) > r.value.dist
  {
    if |ps| == 0 then None
    else
      var init := ps[..|ps| - 1];
      var c := Closest(init, from, range);
      var p := ps[|ps| - 1];
      var d := Chebyshev(p.tile, from);
      assert forall i :: 0 <= i < |init| ==> ps[i] == init[i];
      if d <= range && (c.None? || d < c.value.dist) then Some(Target(p, d, |ps| - 1))
      else c
  }

  /** What an AI decision never touches: identity, health, spawn point and cooldown. */
  predicate KeepsIdentity(before: Enemy, after: Enemy) {
    && after.id == before.id && after.kind == before.kind && after.spawn == before.spawn
    && after.health == before.health && after.maxHealth == before.maxHealth
    && after.attackCooldown == before.attackCooldown
  }

  /** The position part of StepShape: where the enemy stands and what occupancy says. */
  predicate Stepped(occ: set<Tile>, e: Enemy, r: Outcome) {
    && (!r.moved ==> && r.enemy.tile == e.tile && r.enemy.moveState == e.moveState
                     && r.enemy.moveTimer == e.moveTimer && r.occ == occ)
    && (r.moved ==> && r.enemy.tile !in occ && r.occ == occ - {e.tile} + {r.enemy.tile}
                    && Chebyshev(r.enemy.tile, e.tile) == 1 && r.enemy.from == e.tile
                    && r.enemy.moveState == Moving && r.enemy.moveTimer == 0)
  }

  /** The chase branch of `#runAI`: face a player in melee range, otherwise step toward it. */
  function Pursue(e: Enemy, c: Target, occ: set<Tile>, o: Oracle): (r: Outcome)
    ensures r.enemy.aiState == Chase && r.enemy.target == Some(c.pos.id) && r.enemy.aiTimer == e.aiTimer
    ensures KeepsIdentity(e, r.enemy) && Stepped(occ, e, r)
    ensures c.dist <= 1 ==>
              && !r.moved
              && r.enemy == e.(aiState := Chase, target := Some(c.pos.id),
                               direction := Face(e.direction, Sign(c.pos.tile.x - e.tile.x), Sign(c.pos.tile.y - e.tile.y)))
    ensures c.dist > 1 ==> r == StepToward(occ, o, e.(aiState := Chase, target := Some(c.pos.id)), c.pos.tile)
    ensures c.dist > 1 ==> (r.moved <==> TowardAccepted(occ, o, e, c.pos.tile))
    ensures r.moved ==> c.dist > 1 && Approaches(e.tile, r.enemy.tile, c.pos.tile)
  {
    var e2 := e.(aiState := Chase, target := Some(c.pos.id));
    if c.dist <= 1 then
      Outcome(false, e2.(direction := Face(e2.direction, Sign(c.pos.tile.x - e2.tile.x), Sign(c.pos.tile.y - e2.tile.y))), occ)
    else
      StepTowardApproaches(occ, o, e2, c.pos.tile);
      TowardAcceptedOnTile(occ, o, e, e2, c.pos.tile);
      StepToward(occ, o, e2, c.pos.tile)
  }

  /** The leash branch of `#runAI`: step back toward the spawn point. */
  function Retreat(e: Enemy, occ: set<Tile>, o: Oracle): (r: Outcome)
    ensures r.enemy.aiState == Return && r.enemy.target == None && r.enemy.aiTimer == e.aiTimer
    ensures KeepsIdentity(e, r.enemy) && Stepped(occ, e, r)
    ensures !r.moved ==> r.enemy == e.(aiState := Return, target := None)
    ensures r.moved <==> TowardAccepted(occ, o, e, e.spawn)
    ensures r.moved ==> Approaches(e.tile, r.enemy.tile, e.spawn) && Chebyshev(r.enemy.tile, e.spawn) <= Chebyshev(e.tile, e.spawn)
    ensures r.moved ==> r.enemy.direction == Face(e.direction, r.enemy.tile.x - e.tile.x, r.enemy.tile.y - e.tile.y)
  {
    var e2 := e.(aiState := Return, target := None);
    StepTowardApproaches(occ, o, e2, e.spawn);
    TowardAcceptedOnTile(occ, o, e, e2, e.spawn);
    StepToward(occ, o, e2, e.spawn)
  }

  /** The wander branch of `#runAI`: a random step each time the wander timer runs out. */
  function Roam(e: Enemy, occ: set<Tile>, o: Oracle, draw: AiDraw): (r: Outcome)
    ensures r.enemy.aiState == Wander && r.enemy.target == None
    ensures KeepsIdentity(e, r.enemy) && Stepped(occ, e, r)
    ensures e.aiTimer > 0.0 ==> r == Outcome(false, e.(aiState := Wander, target := None), occ)
    ensures e.aiTimer <= 0.0 ==> r.enemy.aiTimer == WanderIntervalMs as real + draw.jitter
    ensures e.aiTimer <= 0.0 ==> (r.moved <==> exists d :: Accepts(occ, o, e, d))
    ensures e.aiTimer <= 0.0 ==>
              r == StepRandom(occ, o, e.(aiState := Wander, target := None, aiTimer := WanderIntervalMs as real + draw.jitter), draw.shuffle)
  {
    var e2 := e.(aiState := Wander, target := None);
    if e2.aiTimer <= 0.0 then
      var e3 := e2.(aiTimer := WanderIntervalMs as real + draw.jitter);
      SomeAcceptedOnTile(occ, o, e, e3);
      StepRandom(occ, o, e3, draw.shuffle)
    else Outcome(false, e2, occ)
  }

  /** The timers `#runAI` counts down before deciding. */
  function Countdown(e: Enemy): Enemy {
    e.(aiTimer := e.aiTimer - TickMs as real,
       attackCooldown := if e.attackCooldown > 0 then e.attackCooldown - TickMs else e.attackCooldown)
  }

  /**
   * What `#runAI` does once it has chosen to chase `c`: face it in melee
   * range, otherwise move iff a step toward it is accepted, never away.
   */
  predicate Chases(occ: set<Tile>, o: Oracle, e: Enemy, c: Target, r: Outcome) {
    && r.enemy.target == Some(c.pos.id)
    && (c.dist <= 1 ==> !r.moved && r.enemy.direction == Face(e.direction, Sign(c.pos.tile.x - e.tile.x), Sign(c.pos.tile.y - e.tile.y)))
    && (c.dist > 1 ==> (r.moved <==> TowardAccepted(occ, o, e, c.pos.tile)))
    && (r.moved ==> Approaches(e.tile, r.enemy.tile, c.pos.tile))
  }

  /** `#runAI` on an enemy that is not mid-step. */
  function RunAI(e: Enemy, ps: seq<PlayerPos>, occ: set<Tile>, o: Oracle, draw: AiDraw): (r: Outcome)
    ensures r.enemy.id == e.id && r.enemy.health == e.health && r.enemy.spawn == e.spawn
    ensures r.enemy.attackCooldown == if e.attackCooldown > 0 then e.attackCooldown - TickMs else e.attackCooldown
    ensures r.enemy.aiState == Chase <==> Closest(ps, e.tile, e.aggroRange).Some?
    ensures r.enemy.aiState == Chase <==> exists i :: 0 <= i < |ps| && Chebyshev(ps[i].tile, e.tile) <= e.aggroRange
    ensures r.enemy.aiState == Chase ==> Chases(occ, o, e, Closest(ps, e.tile, e.aggroRange).value, r)
    ensures r.enemy.aiState != Chase ==> r.enemy.target == None
    ensures r.enemy.aiState == Return <==> r.enemy.aiState != Chase && Chebyshev(e.tile, e.spawn) > LeashRange
    ensures r.enemy.aiState == Return ==> (r.moved <==> TowardAccepted(occ, o, e, e.spawn))
    ensures r.enemy.aiState == Return && r.moved ==> Approaches(e.tile, r.enemy.tile, e.spawn)
    ensures r.enemy.aiState == Wander ==> (r.moved <==> e.aiTimer - TickMs as real <= 0.0 && exists d :: Accepts(occ, o, e, d))
    ensures r.enemy.aiTimer ==
              if r.enemy.aiState == Wander && e.aiTimer - TickMs as real <= 0.0 then WanderIntervalMs as real + draw.jitter
              else e.aiTimer - TickMs as real
    ensures Stepped(occ, e, r)
  {
    var e1 := Countdown(e);
    match Closest(ps, e1.tile, e1.aggroRange)
    case Some(c) =>
      TowardAcceptedOnTile(occ, o, e, e1, c.pos.tile);
      Pursue(e1, c, occ, o)
    case None =>
      if Chebyshev(e1.tile, e1.spawn) > LeashRange then
        TowardAcceptedOnTile(occ, o, e, e1, e1.spawn);
        Retreat(e1, occ, o)
      else
        SomeAcceptedOnTile(occ, o, e, e1);
        Roam(e1, occ, o, draw)
  }

  // ---------------------------------------------------------------------
  // The enemy pass of a tick
  // ---------------------------------------------------------------------

  predicate Live(e: Enemy) {
    e.health > 0
  }

  /**
   * One enemy's share of `updateAll`: dead enemies are skipped; a moving
   * enemy advances its step timer and, once the step is complete, re-runs
   * the AI at once, carrying the excess time into the next step.
   */
  function UpdateEnemy(e: Enemy, ps: seq<PlayerPos>, occ: set<Tile>, o: Oracle, draw: AiDraw): (r: Outcome)
    ensures !Live(e) ==> r == Outcome(false, e, occ)
    ensures r.enemy.id == e.id && r.enemy.health == e.health
    ensures r.moved ==> Live(e)
    ensures !r.moved ==> r.enemy.tile == e.tile && r.occ == occ
    ensures r.moved ==> (&& r.enemy.tile !in occ && r.occ == occ - {e.tile} + {r.enemy.tile}
                         && Chebyshev(r.enemy.tile, e.tile) == 1 && r.enemy.from == e.tile
                         && r.enemy.moveState == Moving)
    ensures (Live(e) && e.moveState == Moving && e.moveTimer + TickMs < e.moveDuration) ==>
              r == Outcome(false, e.(moveTimer := e.moveTimer + TickMs), occ)
    ensures (Live(e) && e.moveState == Moving && r.moved) ==>
              e.moveTimer + TickMs >= e.moveDuration && r.enemy.moveTimer == e.moveTimer + TickMs - e.moveDuration
    ensures (Live(e) && e.moveState == Idle && r.moved) ==> r.enemy.moveTimer == 0
    ensures Live(e) && e.moveState == Idle ==> r == RunAI(e, ps, occ, o, draw)
    ensures Live(e) && e.moveState == Moving && e.moveTimer + TickMs >= e.moveDuration ==>
              var a := RunAI(e.(moveState := Idle, moveTimer := 0), ps, occ, o, draw);
              && r.moved == a.moved && r.occ == a.occ
              && (a.moved ==> r.enemy == a.enemy.(moveTimer := e.moveTimer + TickMs - e.moveDuration))
              && (!a.moved ==> r.enemy == a.enemy && r.enemy.moveState == Idle && r.enemy.moveTimer == 0)
  {
    if !Live(e) then Outcome(false, e, occ)
    else if e.moveState == Moving then
      var t := e.moveTimer + TickMs;
      if t >= e.moveDuration then
        var excess := t - e.moveDuration;
        var r := RunAI(e.(moveState := Idle, moveTimer := 0), ps, occ, o, draw);
        if r.enemy.moveState == Moving then r.(enemy := r.enemy.(moveTimer := excess)) else r
      else Outcome(false, e.(moveTimer := t), occ)
    else RunAI(e, ps, occ, o, draw)
  }

  /** The enemies after a pass together with the occupancy it leaves behind. */
  datatype Pass = Pass(enemies: seq<Enemy>, occ: set<Tile>)

  /** The random draws of the k-th enemy of a pass; none left means no jitter and no swaps. */
  function DrawAt(draws: seq<AiDraw>, k: nat): AiDraw {
    if k < |draws| then draws[k] else AiDraw(0.0, [])
  }

  /**
   * The occupancy the enemy pass has reached at position i when it started
   * at position k with `occ`: every enemy in between updated against what
   * the ones before it left.
   */
  function PassOcc(es: seq<Enemy>, ps: seq<PlayerPos>, occ: set<Tile>, o: Oracle, draws: seq<AiDraw>, k: nat, i: nat): set<Tile>
    requires k <= i <= |es|
    decreases i
  {
    if i == k then occ
    else UpdateEnemy(es[i - 1], ps, PassOcc(es, ps, occ, o, draws, k, i - 1), o, DrawAt(draws, i - 1)).occ
  }

  /** Starting one position later, after the first enemy's update, reaches the same occupancies. */
  lemma {:induction false} PassOccShift(es: seq<Enemy>, es': seq<Enemy>, ps: seq<PlayerPos>, occ: set<Tile>, occ': set<Tile>,
                                        o: Oracle, draws: seq<AiDraw>, k: nat, i: nat)
    requires k < i <= |es| == |es'|
    requires forall j :: k < j < |es| ==> es'[j] == es[j]
    requires occ' == UpdateEnemy(es[k], ps, occ, o, DrawAt(draws, k)).occ
    ensures PassOcc(es', ps, occ', o, draws, k + 1, i) == PassOcc(es, ps, occ, o, draws, k, i)
    decreases i
  {
    if i > k + 1 {
      PassOccShift(es, es', ps, occ, occ', o, draws, k, i - 1);
      assert es'[i - 1] == es[i - 1];
    }
  }

  /**
   * `updateAll` from position k on: the enemies are visited in table order
   * and each sees the occupancy the previous ones left.
   */
  function UpdateFrom(es: seq<Enemy>, k: nat, ps: seq<PlayerPos>, occ: set<Tile>, o: Oracle, draws: seq<AiDraw>): (r: Pass)
    requires k <= |es|
    ensures |r.enemies| == |es|
    ensures forall i :: 0 <= i < k ==> r.enemies[i] == es[i]
    ensures forall i :: 0 <= i < |es| ==> r.enemies[i].id == es[i].id && r.enemies[i].health == es[i].health
    ensures forall i :: 0 <= i < |es| && !Live(es[i]) ==> r.enemies[i] == es[i]
    decreases |es| - k
  {
    if k == |es| then Pass(es, occ)
    else
      var u := UpdateEnemy(es[k], ps, occ, o, DrawAt(draws, k));
      UpdateFrom(es[k := u.enemy], k + 1, ps, u.occ, o, draws)
  }

  lemma PassOccShiftAll(es: seq<Enemy>, es': seq<Enemy>, ps: seq<PlayerPos>, occ: set<Tile>, occ': set<Tile>,
                        o: Oracle, draws: seq<AiDraw>, k: nat)
    requires k < |es| == |es'|
    requires forall j :: k < j < |es| ==> es'[j] == es[j]
    requires occ' == UpdateEnemy(es[k], ps, occ, o, DrawAt(draws, k)).occ
    ensures forall i :: k < i <= |es| ==> PassOcc(es', ps, occ', o, draws, k + 1, i) == PassOcc(es, ps, occ, o, draws, k, i)
  {
    forall i | k < i <= |es|
      ensures PassOcc(es', ps, occ', o, draws, k + 1, i) == PassOcc(es, ps, occ, o, draws, k, i)
    {
      PassOccShift(es, es', ps, occ, occ', o, draws, k, i);
    }
  }

  /** The pass from position k on ends with the occupancy the last enemy's update left. */
  lemma {:induction false} UpdateFromOcc(es: seq<Enemy>, k: nat, ps: seq<PlayerPos>, occ: set<Tile>, o: Oracle, draws: seq<AiDraw>)
    requires k <= |es|
    ensures UpdateFrom(es, k, ps, occ, o, draws).occ == PassOcc(es, ps, occ, o, draws, k, |es|)
    decreases |es| - k
  {
    if k < |es| {
      var u := UpdateEnemy(es[k], ps, occ, o, DrawAt(draws, k));
      var es' := es[k := u.enemy];
      PassOccShift(es, es', ps, occ, u.occ, o, draws, k, |es|);
      UpdateFromOcc(es', k + 1, ps, u.occ, o, draws);
    }
  }

  /** In the pass from position k on, enemy i is updated against the occupancy the enemies from k to i - 1 left. */
  lemma {:induction false} UpdateFromEnemies(es: seq<Enemy>, k: nat, ps: seq<PlayerPos>, occ: set<Tile>, o: Oracle, draws: seq<AiDraw>)
    requires k <= |es|
    ensures var r := UpdateFrom(es, k, ps, occ, o, draws);
            forall i :: k <= i < |es| ==>
              r.enemies[i] == UpdateEnemy(es[i], ps, PassOcc(es, ps, occ, o, draws, k, i), o, DrawAt(draws, i)).enemy
    decreases |es| - k
  {
    if k < |es| {
      var u := UpdateEnemy(es[k], ps, occ, o, DrawAt(draws, k));
      var es' := es[k := u.enemy];
      PassOccShiftAll(es, es', ps, occ, u.occ, o, draws, k);
      UpdateFromEnemies(es', k + 1, ps, u.occ, o, draws);
      var r := UpdateFrom(es', k + 1, ps, u.occ, o, draws);
      assert UpdateFrom(es, k, ps, occ, o, draws) == r;
      forall i | k < i < |es|
        ensures r.enemies[i] == UpdateEnemy(es[i], ps, PassOcc(es, ps, occ, o, draws, k, i), o, DrawAt(draws, i)).enemy
      {
        assert es'[i] == es[i];
      }
    }
  }

  /**
   * `updateAll`: one pass over the whole enemy table, in table order. It
   * changes neither ids nor health, and leaves dead enemies alone.
   */
  function UpdateAll(es: seq<Enemy>, ps: seq<PlayerPos>, occ: set<Tile>, o: Oracle, draws: seq<AiDraw>): (r: Pass)
    ensures |r.enemies| == |es|
    ensures forall i :: 0 <= i < |es| ==> r.enemies[i].id == es[i].id && r.enemies[i].health == es[i].health
    ensures forall i :: 0 <= i < |es| && !Live(es[i]) ==> r.enemies[i] == es[i]
    ensures EnemyIds(r.enemies) == EnemyIds(es)
  {
    UpdateFrom(es, 0, ps, occ, o, draws)
  }

  /** `updateAll` enemy by enemy: each is updated against the occupancy the enemies before it left. */
  lemma UpdateAllInOrder(es: seq<Enemy>, ps: seq<PlayerPos>, occ: set<Tile>, o: Oracle, draws: seq<AiDraw>)
    ensures var r := UpdateAll(es, ps, occ, o, draws);
            && (forall i :: 0 <= i < |es| ==>
                  r.enemies[i] == UpdateEnemy(es[i], ps, PassOcc(es, ps, occ, o, draws, 0, i), o, DrawAt(draws, i)).enemy)
            && r.occ == PassOcc(es, ps, occ, o, draws, 0, |es|)
  {
    UpdateFromEnemies(es, 0, ps, occ, o, draws);
    UpdateFromOcc(es, 0, ps, occ, o, draws);
  }

  /**
   * No two live enemies share a tile, no live enemy stands on a player's
   * tile, and the occupancy set covers every live enemy and every player.
   */
  predicate Separated(es: seq<Enemy>, playerTiles: set<Tile>, occ: set<Tile>) {
    && playerTiles <= occ
    && (forall i :: 0 <= i < |es| && Live(es[i]) ==> es[i].tile in occ && es[i].tile !in playerTiles)
    && (forall i, j :: 0 <= i < |es| && 0 <= j < |es| && i != j && Live(es[i]) && Live(es[j]) ==> es[i].tile != es[j].tile)
  }

  /** One enemy's update keeps the enemies separated. */
  lemma UpdateEnemyKeepsSeparated(es: seq<Enemy>, k: nat, ps: seq<PlayerPos>, playerTiles: set<Tile>,
                                  occ: set<Tile>, o: Oracle, draw: AiDraw)
    requires k < |es| && Separated(es, playerTiles, occ)
    ensures var u := UpdateEnemy(es[k], ps, occ, o, draw);
            Separated(es[k := u.enemy], playerTiles, u.occ)
  {
    var u := UpdateEnemy(es[k], ps, occ, o, draw);
    var es' := es[k := u.enemy];
    assert forall i :: 0 <= i < |es| ==> Live(es'[i]) == Live(es[i]);
    if u.moved {
      forall i | 0 <= i < |es'| && Live(es'[i])
        ensures es'[i].tile in u.occ && es'[i].tile !in playerTiles
      {
        if i != k {
          assert es'[i].tile != es[k].tile;
        }
      }
    }
  }

  /** The whole enemy pass keeps the enemies separated. */
  lemma {:induction false} UpdateFromKeepsSeparated(es: seq<Enemy>, k: nat, ps: seq<PlayerPos>, playerTiles: set<Tile>,
                                                    occ: set<Tile>, o: Oracle, draws: seq<AiDraw>)
    requires k <= |es| && Separated(es, playerTiles, occ)
    ensures var r := UpdateFrom(es, k, ps, occ, o, draws);
            Separated(r.enemies, playerTiles, r.occ)
    decreases |es| - k
  {
    if k < |es| {
      var u := UpdateEnemy(es[k], ps, occ, o, DrawAt(draws, k));
      UpdateEnemyKeepsSeparated(es, k, ps, playerTiles, occ, o, DrawAt(draws, k));
      UpdateFromKeepsSeparated(es[k := u.enemy], k + 1, ps, playerTiles, u.occ, o, draws);
    }
  }

  /** Starting from `buildOccupancy` on separated enemies, the pass leaves them separated. */
  lemma UpdateAllKeepsSeparated(es: seq<Enemy>, ps: seq<PlayerPos>, playerTiles: seq<Tile>, o: Oracle, draws: seq<AiDraw>)
    requires forall i :: 0 <= i < |es| && Live(es[i]) ==> es[i].tile !in playerTiles
    requires forall i, j :: 0 <= i < |es| && 0 <= j < |es| && i != j && Live(es[i]) && Live(es[j]) ==> es[i].tile != es[j].tile
    ensures var r := UpdateAll(es, ps, BuildOccupancy(es, playerTiles), o, draws);
            Separated(r.enemies, (set t | t in playerTiles), r.occ)
  {
    var occ := BuildOccupancy(es, playerTiles);
    assert Separated(es, (set t | t in playerTiles), occ);
    UpdateFromKeepsSeparated(es, 0, ps, (set t | t in playerTiles), occ, o, draws);
  }

  // ---------------------------------------------------------------------
  // Damage, death and respawn
  // ---------------------------------------------------------------------

  /** The broadcasts of the combat code: DAMAGE, ENTITY_DEATH and COMBAT_MISS. */
  datatype Event =
    | DamageEvent(target: Id, damage: int, attacker: Id, targetHealth: int)
    | DeathEvent(entity: Id, killer: Id, kind: EntityType)
    | MissEvent(target: Id, attacker: Id)

  /** The enemy table's id column. */
  function EnemyIds(es: seq<Enemy>): (r: seq<Id>)
    ensures |r| == |es| && forall i :: 0 <= i < |es| ==> r[i] == es[i].id
  {
    seq(|es|, i requires 0 <= i < |es| => es[i].id)
  }

  /** Where `id` sits in the enemy table (its first entry). */
  function Find(es: seq<Enemy>, id: Id): (r: Option<nat>)
    ensures r.None? <==> forall i :: 0 <= i < |es| ==> es[i].id != id
    ensures r.Some? ==> r.value < |es| && es[r.value].id == id
    ensures r.Some? ==> forall i :: 0 <= i < r.value ==> es[i].id != id
  {
    var ids := EnemyIds(es);
    var r := IndexOf(ids, id);
    assert r.Some? ==> forall i :: 0 <= i < r.value ==> ids[..r.value][i] == ids[i];
    r
  }

  /** The table after a hit together with what was broadcast. */
  datatype Hit = Hit(enemies: seq<Enemy>, events: seq<Event>)

  /**
   * `damageEnemy`: a missing or dead enemy ignores the hit; otherwise its
   * health drops by `dmg` (not below 0), a DAMAGE message goes out, and an
   * ENTITY_DEATH message follows when the hit killed it. The respawn timer
   * this arms is the separate Respawn event below.
   */
  function DamageEnemy(es: seq<Enemy>, id: Id, dmg: int, attacker: Id): (r: Hit)
    ensures |r.enemies| == |es|
    ensures (Find(es, id).None? || !Live(es[Find(es, id).value])) ==> r == Hit(es, [])
    ensures Find(es, id).Some? && Live(es[Find(es, id).value]) ==>
              var i := Find(es, id).value;
              var h := if es[i].health - dmg > 0 then es[i].health - dmg else 0;
              && r.enemies == es[i := es[i].(health := h)]
              && |r.events| >= 1
              && r.events[0] == DamageEvent(id, dmg, attacker, h)
              && (h == 0 <==> r.events == [DamageEvent(id, dmg, attacker, h), DeathEvent(id, attacker, es[i].kind)])
              && (h > 0 <==> r.events == [DamageEvent(id, dmg, attacker, h)])
  {
    match Find(es, id)
    case None => Hit(es, [])
    case Some(i) =>
      var e := es[i];
      if !Live(e) then Hit(es, [])
      else
        var h := if e.health - dmg > 0 then e.health - dmg else 0;
        var damage := [DamageEvent(id, dmg, attacker, h)];
        Hit(es[i := e.(health := h)], if h <= 0 then damage + [DeathEvent(id, attacker, e.kind)] else damage)
  }

  /** Whether `id` names a live enemy of the table. */
  predicate AliveIn(es: seq<Enemy>, id: Id) {
    Find(es, id).Some? && Live(es[Find(es, id).value])
  }

  function DeathCount(evs: seq<Event>): (n: nat)
    ensures n <= |evs|
    ensures n == 0 <==> forall i :: 0 <= i < |evs| ==> !evs[i].DeathEvent?
  {
    if |evs| == 0 then 0
    else
      assert forall i :: 1 <= i < |evs| ==> evs[i] == evs[1..][i - 1];
      (if evs[0].DeathEvent? then 1 else 0) + DeathCount(evs[1..])
  }

  lemma {:induction false} DeathCountAppend(a: seq<Event>, b: seq<Event>)
    ensures DeathCount(a + b) == DeathCount(a) + DeathCount(b)
  {
    if |a| == 0 {
      assert a + b == b;
    } else {
      assert (a + b)[0] == a[0];
      assert (a + b)[1..] == a[1..] + b;
      DeathCountAppend(a[1..], b);
    }
  }

  /** A hit changes health only, so every id is found where it was. */
  lemma FindAfterHit(es: seq<Enemy>, id: Id, dmg: int, attacker: Id, other: Id)
    ensures Find(DamageEnemy(es, id, dmg, attacker).enemies, other) == Find(es, other)
  {
    var es' := DamageEnemy(es, id, dmg, attacker).enemies;
    assert forall i :: 0 <= i < |es| ==> es'[i].id == es[i].id;
    FindSameIds(es, es', other);
  }

  lemma FindSameIds(a: seq<Enemy>, b: seq<Enemy>, id: Id)
    requires |a| == |b| && forall i :: 0 <= i < |a| ==> a[i].id == b[i].id
    ensures Find(a, id) == Find(b, id)
  {
    assert EnemyIds(a) == EnemyIds(b);
  }


  /** A series of hits on one enemy, in order, with everything they broadcast. */
  function HitSeries(es: seq<Enemy>, id: Id, hits: seq<(int, Id)>): (r: Hit)
    ensures |r.enemies| == |es|
    decreases |hits|
  {
    if |hits| == 0 then Hit(es, [])
    else
      var h := DamageEnemy(es, id, hits[0].0, hits[0].1);
      var rest := HitSeries(h.enemies, id, hits[1..]);
      Hit(rest.enemies, h.events + rest.events)
  }

  /**
   * An enemy dies at most once however many hits land on it, and not at
   * all when it is already dead: a respawn is the only way back.
   */
  lemma {:induction false} DeathOnlyOnce(es: seq<Enemy>, id: Id, hits: seq<(int, Id)>)
    ensures DeathCount(HitSeries(es, id, hits).events) <= (if AliveIn(es, id) then 1 else 0)
    decreases |hits|
  {
    if |hits| > 0 {
      var h := DamageEnemy(es, id, hits[0].0, hits[0].1);
      var rest := HitSeries(h.enemies, id, hits[1..]);
      DeathOnlyOnce(h.enemies, id, hits[1..]);
      DeathCountAppend(h.events, rest.events);
      FindAfterHit(es, id, hits[0].0, hits[0].1, id);
      if DeathCount(h.events) > 0 {
        assert !AliveIn(h.enemies, id);
      }
    }
  }

  /** The number of free-spot attempts a respawn makes. */
  const RespawnAttempts := 20

  /**
   * The respawn spot: the first offset from the spawn point whose tile is
   * not occupied, or the spawn point itself when every attempt hit an
   * occupied tile. Walkability is not consulted.
   */
  function RespawnSpot(spawn: Tile, offsets: seq<(int, int)>, occ: set<Tile>): (t: Tile)
    ensures t == spawn || (t !in occ && exists k :: 0 <= k < |offsets| && t == Offset(spawn, offsets[k].0, offsets[k].1))
    ensures t != spawn ==> t !in occ
    ensures (forall k :: 0 <= k < |offsets| ==> Offset(spawn, offsets[k].0, offsets[k].1) in occ) ==> t == spawn
    ensures (exists k :: 0 <= k < |offsets| && Offset(spawn, offsets[k].0, offsets[k].1) !in occ) ==> t !in occ
  {
    if |offsets| == 0 then spawn
    else
      var c := Offset(spawn, offsets[0].0, offsets[0].1);
      if c !in occ then c
      else
        var t := RespawnSpot(spawn, offsets[1..], occ);
        assert forall k :: 1 <= k < |offsets| ==> offsets[k] == offsets[1..][k - 1];
        t
  }

  /**
   * The respawn timer firing: the enemy gets full health and stands idle,
   * wandering and untargeted, on a spot near its spawn point. Only the first
   * RespawnAttempts offsets are tried; each stands for the two
   * Math.floor((Math.random() - 0.5) * 6) draws.
   */
  function Respawn(es: seq<Enemy>, id: Id, occ: set<Tile>, offsets: seq<(int, int)>): (r: seq<Enemy>)
    ensures |r| == |es|
    ensures Find(es, id).None? ==> r == es
    ensures Find(es, id).Some? ==>
              var i := Find(es, id).value;
              var spot := r[i].tile;
              && (forall j :: 0 <= j < |es| && j != i ==> r[j] == es[j])
              && r[i] == es[i].(health := es[i].maxHealth, tile := spot, from := spot, moveState := Idle,
                                aiState := Wander, target := None)
              && (spot == es[i].spawn || spot !in occ)
  {
    match Find(es, id)
    case None => es
    case Some(i) =>
      var e := es[i];
      var attempts := if |offsets| <= RespawnAttempts then offsets else offsets[..RespawnAttempts];
      var spot := RespawnSpot(e.spawn, attempts, occ);
      es[i := e.(health := e.maxHealth, tile := spot, from := spot, moveState := Idle, aiState := Wander, target := None)]
  }

  /** Offsets drawn as the source draws them keep a respawn within three tiles of the spawn point. */
  lemma RespawnNearSpawn(es: seq<Enemy>, id: Id, occ: set<Tile>, offsets: seq<(int, int)>)
    requires forall k :: 0 <= k < |offsets| ==> -3 <= offsets[k].0 <= 2 && -3 <= offsets[k].1 <= 2
    requires Find(es, id).Some?
    ensures var i := Find(es, id).value;
            Chebyshev(Respawn(es, id, occ, offsets)[i].tile, es[i].spawn) <= 3
  {
    var i := Find(es, id).value;
    var attempts := if |offsets| <= RespawnAttempts then offsets else offsets[..RespawnAttempts];
    var spot := RespawnSpot(es[i].spawn, attempts, occ);
    if spot != es[i].spawn {
      var k :| 0 <= k < |attempts| && spot == Offset(es[i].spawn, attempts[k].0, attempts[k].1);
      assert attempts[k] == offsets[k];
    }
  }

  /** What a state snapshot shows of an enemy. */
  datatype EnemyState = EnemyState(
    id: Id, kind: EntityType, tile: Tile, from: Tile, progress: real, direction: Direction,
    animation: Animation, health: int, maxHealth: int, isMoving: bool)

  /** How far a step has got: the timer over the duration, capped at 1; 1 when standing. */
  function Progress(moveState: MoveState, timer: int, duration: Duration): (p: real)
    ensures p <= 1.0
    ensures timer >= 0 ==> p >= 0.0
    ensures moveState == Idle ==> p == 1.0
    ensures moveState == Moving && timer >= duration ==> p == 1.0
    ensures moveState == Moving && timer < duration ==> p * duration as real == timer as real
  {
    if moveState == Moving then
      var q := timer as real / duration as real;
      if q < 1.0 then q else 1.0
    else 1.0
  }

  function EnemyStateOf(e: Enemy): (s: EnemyState)
    ensures s.id == e.id && s.kind == e.kind && s.tile == e.tile && s.from == e.from && s.direction == e.direction
    ensures s.health == e.health && s.maxHealth == e.maxHealth
    ensures s.isMoving <==> e.moveState == Moving
    ensures s.animation == WalkAnim <==> s.isMoving
    ensures s.progress <= 1.0 && (e.moveTimer >= 0 ==> 0.0 <= s.progress)
    ensures !s.isMoving ==> s.progress == 1.0
  {
    EnemyState(e.id, e.kind, e.tile, e.from, Progress(e.moveState, e.moveTimer, e.moveDuration), e.direction,
               if e.moveState == Moving then WalkAnim else IdleAnim, e.health, e.maxHealth, e.moveState == Moving)
  }

  /** `getAllEnemyStates`: a snapshot of every live enemy, in table order. */
  function EnemyStates(es: seq<Enemy>): (r: seq<EnemyState>)
    ensures |r| <= |es|
    ensures forall s :: s in r ==> exists e :: e in es && Live(e) && s == EnemyStateOf(e)
    ensures forall e :: e in es && Live(e) ==> EnemyStateOf(e) in r
    ensures forall s :: s in r ==> s.health > 0 && s.progress <= 1.0 && (s.animation == WalkAnim <==> s.isMoving)
  {
    if |es| == 0 then []
    else
      var rest := EnemyStates(es[1..]);
      assert forall e :: e in es[1..] ==> e in es;
      assert forall e :: e in es ==> e == es[0] || e in es[1..];
      if Live(es[0]) then [EnemyStateOf(es[0])] + rest else rest
  }
}
