/**
 * The server's tick (server/src/game-loop.ts `#update`): occupancy from the
 * current positions, the player pass, occupancy again, combat, the enemy
 * pass, then one state snapshot per connected player.
 *
 * The world keeps the enemy manager's occupancy set between ticks because
 * the respawn timer reads it. The interval timer is the caller applying
 * `Update` once per tick; the respawn timer is the event `RespawnDue`.
 */
module GameLoop {
  import opened Wrappers
  import opened Constants
  import opened Types
  import opened Oracles
  import opened EntityManager
  import opened PlayerManager

  datatype World = World(tick: nat, players: seq<Player>, enemies: seq<Enemy>, occ: set<Tile>)

  /** The random numbers one tick consumes: combat rolls per player, AI draws per enemy. */
  datatype TickDraws = TickDraws(combat: seq<CombatDraw>, ai: seq<AiDraw>)

  /** A STATE_UPDATE message, addressed to one player. */
  datatype Snapshot = Snapshot(to: Id, tick: nat, players: seq<PlayerState>, enemies: seq<EnemyState>, ack: int)

  /** The world after a tick, the combat broadcasts and the snapshots sent. */
  datatype Frame = Frame(world: World, events: seq<Event>, snapshots: seq<Snapshot>)

  /** The player pass's test: the enemy manager's check with no source tile, so no elevation test. */
  function PlayerWalkable(occ: set<Tile>, o: Oracle): (w: (int, int) -> bool)
    ensures forall x, y :: w(x, y) == IsTileWalkable(occ, o, x, y, None)
  {
    (x, y) => IsTileWalkable(occ, o, x, y, None)
  }

  /** Phases 1 and 2: occupancy from the current positions, then the player pass. */
  function MovePlayers(w: World, o: Oracle): (ps: seq<Player>)
    ensures |ps| == |w.players| && PlayerIds(ps) == PlayerIds(w.players)
    ensures forall i :: 0 <= i < |ps| ==>
              ps[i] == UpdatePlayer(w.players[i], PlayerWalkable(BuildOccupancy(w.enemies, PlayerTiles(w.players)), o))
  {
    UpdatePlayers(w.players, PlayerWalkable(BuildOccupancy(w.enemies, PlayerTiles(w.players)), o))
  }

  /** Phase 6: the same lists to every player, each with its own acknowledged input sequence number. */
  function Snapshots(tick: nat, ps: seq<Player>, es: seq<Enemy>): (r: seq<Snapshot>)
    ensures |r| == |ps|
    ensures forall i :: 0 <= i < |ps| ==>
              && r[i].to == ps[i].id && r[i].ack == ps[i].lastProcessedSeq && r[i].tick == tick
              && r[i].players == AllPlayerStates(ps) && r[i].enemies == EnemyStates(es)
  {
    seq(|ps|, i requires 0 <= i < |ps| =>
      Snapshot(ps[i].id, tick, AllPlayerStates(ps), EnemyStates(es), ps[i].lastProcessedSeq))
  }

  /** `#update`: one tick, phases in the source's fixed order. */
  function Update(w: World, o: Oracle, draws: TickDraws): (f: Frame)
    ensures f.world.tick == w.tick + 1
    ensures |f.world.players| == |w.players| && |f.world.enemies| == |w.enemies|
    ensures PlayerIds(f.world.players) == PlayerIds(w.players) && EnemyIds(f.world.enemies) == EnemyIds(w.enemies)
    ensures f.snapshots == Snapshots(w.tick + 1, f.world.players, f.world.enemies)
    ensures var c := ProcessCombat(MovePlayers(w, o), w.enemies, draws.combat);
            f.world.players == c.players && f.events == c.events
  {
    var ps := MovePlayers(w, o);
    var occ := BuildOccupancy(w.enemies, PlayerTiles(ps));
    var c := ProcessCombat(ps, w.enemies, draws.combat);
    var pass := UpdateAll(c.enemies, Positions(c.players), occ, o, draws.ai);
    var next := World(w.tick + 1, c.players, pass.enemies, pass.occ);
    Frame(next, c.events, Snapshots(next.tick, next.players, next.enemies))
  }

  /** Combat and the enemy pass move no player: after a tick every player stands where the player pass put it. */
  lemma PlayersMoveOnlyInPlayerPass(w: World, o: Oracle, draws: TickDraws)
    ensures var f := Update(w, o, draws); var ps := MovePlayers(w, o);
            && |f.world.players| == |ps|
            && forall i :: 0 <= i < |ps| ==> f.world.players[i].tile == ps[i].tile
  {
  }

  /**
   * The tick's enemy pass runs on the enemies as combat left them, one by
   * one in table order, against an occupancy that starts with every live
   * player's post-move tile and is updated as each enemy moves.
   */
  lemma AiSeesMovedPlayers(w: World, o: Oracle, draws: TickDraws)
    ensures var ps := MovePlayers(w, o);
            var c := ProcessCombat(ps, w.enemies, draws.combat);
            var occ := BuildOccupancy(w.enemies, PlayerTiles(ps));
            var pass := UpdateAll(c.enemies, Positions(c.players), occ, o, draws.ai);
            var f := Update(w, o, draws);
            && (forall p :: p in ps && !p.isDead ==> p.tile in occ)
            && f.world.enemies == pass.enemies && f.world.occ == pass.occ
            && (forall i :: 0 <= i < |c.enemies| ==>
                  pass.enemies[i] ==
                  UpdateEnemy(c.enemies[i], Positions(c.players), PassOcc(c.enemies, Positions(c.players), occ, o, draws.ai, 0, i),
                              o, DrawAt(draws.ai, i)).enemy)
            && pass.occ == PassOcc(c.enemies, Positions(c.players), occ, o, draws.ai, 0, |c.enemies|)
  {
    var ps := MovePlayers(w, o);
    var c := ProcessCombat(ps, w.enemies, draws.combat);
    UpdateAllInOrder(c.enemies, Positions(c.players), BuildOccupancy(w.enemies, PlayerTiles(ps)), o, draws.ai);
  }

  /** Enemies that combat killed this tick are left exactly as combat left them by this tick's AI. */
  lemma KilledEnemiesSkipAi(w: World, o: Oracle, draws: TickDraws, i: nat)
    requires i < |w.enemies|
    requires var c := ProcessCombat(MovePlayers(w, o), w.enemies, draws.combat);
             !Live(c.enemies[i])
    ensures Update(w, o, draws).world.enemies[i] ==
            ProcessCombat(MovePlayers(w, o), w.enemies, draws.combat).enemies[i]
  {
  }

  // ---------------------------------------------------------------------
  // What a tick keeps: enemies apart from each other and from players
  // ---------------------------------------------------------------------

  /** No two live enemies share a tile and no live enemy stands on a live player's tile. */
  predicate EnemiesApart(ps: seq<Player>, es: seq<Enemy>) {
    && (forall i :: 0 <= i < |es| && Live(es[i]) ==> es[i].tile !in PlayerTiles(ps))
    && (forall i, j :: 0 <= i < |es| && 0 <= j < |es| && i != j && Live(es[i]) && Live(es[j]) ==> es[i].tile != es[j].tile)
  }

  /** Players that keep ids, tiles and deaths have the same tile list. */
  lemma {:induction false} SameTiles(a: seq<Player>, b: seq<Player>)
    requires |a| == |b|
    requires forall i :: 0 <= i < |a| ==> a[i].tile == b[i].tile && a[i].isDead == b[i].isDead
    ensures PlayerTiles(a) == PlayerTiles(b)
  {
    if |a| > 0 {
      SameTiles(a[1..], b[1..]);
    }
  }

  /** A player either stays put or lands on a tile the occupancy set had free. */
  lemma PlayerLandsFree(p: Player, occ: set<Tile>, o: Oracle)
    ensures var q := UpdatePlayer(p, PlayerWalkable(occ, o));
            q.tile == p.tile || q.tile !in occ
  {
  }

  /** A tile that was occupied but held no live player before the player pass holds none after it. */
  lemma NoPlayerLandsOn(w: World, o: Oracle, t: Tile)
    requires t in BuildOccupancy(w.enemies, PlayerTiles(w.players))
    requires t !in PlayerTiles(w.players)
    ensures t !in PlayerTiles(MovePlayers(w, o))
  {
    var occ := BuildOccupancy(w.enemies, PlayerTiles(w.players));
    var ps := MovePlayers(w, o);
    if t in PlayerTiles(ps) {
      var k := FirstPlayerOn(ps, t);
      var before := w.players[k];
      assert ps[k] == UpdatePlayer(before, PlayerWalkable(occ, o));
      assert !before.isDead;
      assert before.tile in PlayerTiles(w.players) by {
        assert before in w.players;
      }
      PlayerLandsFree(before, occ, o);
      assert false;
    }
  }

  /** The player pass never puts a live player on a live enemy's tile. */
  lemma MoveKeepsApart(w: World, o: Oracle)
    requires EnemiesApart(w.players, w.enemies)
    ensures EnemiesApart(MovePlayers(w, o), w.enemies)
  {
    var occ := BuildOccupancy(w.enemies, PlayerTiles(w.players));
    forall i | 0 <= i < |w.enemies| && Live(w.enemies[i])
      ensures w.enemies[i].tile !in PlayerTiles(MovePlayers(w, o))
    {
      var e := w.enemies[i];
      assert e.tile in occ by {
        assert e in w.enemies;
      }
      NoPlayerLandsOn(w, o, e.tile);
    }
  }


  /** Enemies apart before combat are separated, in the enemy pass's sense, after it. */
  lemma SeparatedBeforeAi(ps: seq<Player>, before: seq<Enemy>, after: seq<Enemy>)
    requires EnemiesApart(ps, before) && |after| == |before|
    requires forall i :: 0 <= i < |after| && Live(after[i]) ==> Live(before[i]) && after[i].tile == before[i].tile
    ensures Separated(after, (set t | t in PlayerTiles(ps)), BuildOccupancy(before, PlayerTiles(ps)))
  {
    var occ := BuildOccupancy(before, PlayerTiles(ps));
    forall i | 0 <= i < |after| && Live(after[i])
      ensures after[i].tile in occ
    {
      assert before[i] in before;
    }
  }

  lemma ApartFromSeparated(ps: seq<Player>, es: seq<Enemy>, occ: set<Tile>)
    requires Separated(es, (set t | t in PlayerTiles(ps)), occ)
    ensures EnemiesApart(ps, es)
  {
  }

  /**
   * Combat and then the enemy pass keep enemies apart: combat moves nobody,
   * and the enemy pass keeps its occupancy, built before combat, up to date.
   */
  lemma CombatAndAiKeepApart(ps: seq<Player>, es: seq<Enemy>, o: Oracle, draws: TickDraws)
    requires EnemiesApart(ps, es)
    ensures var c := ProcessCombat(ps, es, draws.combat);
            var pass := UpdateAll(c.enemies, Positions(c.players), BuildOccupancy(es, PlayerTiles(ps)), o, draws.ai);
            EnemiesApart(c.players, pass.enemies)
  {
    var occ := BuildOccupancy(es, PlayerTiles(ps));
    var c := ProcessCombat(ps, es, draws.combat);
    SeparatedBeforeAi(ps, es, c.enemies);
    var pt := set t | t in PlayerTiles(ps);
    UpdateFromKeepsSeparated(c.enemies, 0, Positions(c.players), pt, occ, o, draws.ai);
    var pass := UpdateAll(c.enemies, Positions(c.players), occ, o, draws.ai);
    SameTiles(ps, c.players);
    ApartFromSeparated(c.players, pass.enemies, pass.occ);
  }

  /**
   * A whole tick keeps enemies apart from each other and from players:
   * players only step onto tiles the occupancy set leaves free, combat moves
   * nobody, and the enemy pass keeps its occupancy up to date.
   */
  lemma UpdateKeepsApart(w: World, o: Oracle, draws: TickDraws)
    requires EnemiesApart(w.players, w.enemies)
    ensures var f := Update(w, o, draws); EnemiesApart(f.world.players, f.world.enemies)
  {
    MoveKeepsApart(w, o);
    CombatAndAiKeepApart(MovePlayers(w, o), w.enemies, o, draws);
  }

  // ---------------------------------------------------------------------
  // The respawn timer
  // ---------------------------------------------------------------------

  /** The respawn timer of an enemy firing between ticks, against the occupancy of the last tick. */
  function RespawnDue(w: World, id: Id, offsets: seq<(int, int)>): (r: World)
    ensures r.tick == w.tick && r.players == w.players && r.occ == w.occ
    ensures |r.enemies| == |w.enemies|
    ensures forall i :: 0 <= i < |w.enemies| ==> r.enemies[i].id == w.enemies[i].id
  {
    w.(enemies := Respawn(w.enemies, id, w.occ, offsets))
  }

  // ---------------------------------------------------------------------
  // The source as written: what the player pass does not check
  // ---------------------------------------------------------------------

  /** Open, flat ground everywhere except a cliff: column 11 stands 14 levels above its neighbours. */
  function CliffOracle(): Oracle {
    Oracle((x, y) => true, (x, y) => if x == 11 then 15 else 1)
  }

  function Walker(n: nat, at: Tile, d: Direction): Player {
    Player(PlayerId(n), "p", at, Idle, at, 0, PlayerWalkMs, Some(d), Down,
           PlayerMaxHealth, PlayerMaxHealth, PlayerAttack, PlayerDefense, 0, 0, None, false, false)
  }

  /** The player pass puts a player walking right from (10, 10) on the cliff top at (11, 10). */
  lemma PlayerPassClimbs()
    ensures var w := World(0, [Walker(1, Tile(10, 10), Right)], [], {});
            MovePlayers(w, CliffOracle())[0].tile == Tile(11, 10)
  {
    var w := World(0, [Walker(1, Tile(10, 10), Right)], [], {});
    assert PlayerTiles(w.players) == [Tile(10, 10)];
    assert IsTileWalkable(BuildOccupancy([], [Tile(10, 10)]), CliffOracle(), 11, 10, None);
  }

  /**
   * Players climb cliffs: a player steps up 14 elevation levels, where an
   * enemy's step to the same tile is refused by the step-height rule.
   */
  lemma PlayerIgnoresElevation()
    ensures var w := World(0, [Walker(1, Tile(10, 10), Right)], [], {});
            Update(w, CliffOracle(), TickDraws([], [])).world.players[0].tile == Tile(11, 10)
    ensures !IsTileWalkable({}, CliffOracle(), 11, 10, Some(Tile(10, 10)))
  {
    PlayerPassClimbs();
    PlayersMoveOnlyInPlayerPass(World(0, [Walker(1, Tile(10, 10), Right)], [], {}), CliffOracle(), TickDraws([], []));
    assert !InStep(CliffOracle(), 10, 10, 11, 10);
  }

  /** The player pass moves two players walking towards each other onto the tile between them. */
  lemma PlayerPassShares()
    ensures var w := World(0, [Walker(1, Tile(10, 10), Right), Walker(2, Tile(12, 10), Left)], [], {});
            var ps := MovePlayers(w, Oracle((x, y) => true, (x, y) => 1));
            ps[0].tile == ps[1].tile == Tile(11, 10)
  {
    var w := World(0, [Walker(1, Tile(10, 10), Right), Walker(2, Tile(12, 10), Left)], [], {});
    assert PlayerTiles(w.players) == [Tile(10, 10), Tile(12, 10)];
    assert Tile(11, 10) !in BuildOccupancy([], PlayerTiles(w.players));
  }

  /**
   * Two players may end a tick on the same tile: the player pass does not
   * update occupancy, so both see the tile between them free.
   */
  lemma PlayersMayShareTile()
    ensures var w := World(0, [Walker(1, Tile(10, 10), Right), Walker(2, Tile(12, 10), Left)], [], {});
            var f := Update(w, Oracle((x, y) => true, (x, y) => 1), TickDraws([], []));
            f.world.players[0].tile == f.world.players[1].tile == Tile(11, 10)
  {
    PlayerPassShares();
    PlayersMoveOnlyInPlayerPass(World(0, [Walker(1, Tile(10, 10), Right), Walker(2, Tile(12, 10), Left)], [], {}),
                                Oracle((x, y) => true, (x, y) => 1), TickDraws([], []));
  }
}
