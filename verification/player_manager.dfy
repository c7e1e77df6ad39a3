/**
 * The server's player manager (server/src/player-manager.ts): joining and
 * leaving, input and attack requests, melee combat, one tile step per
 * completed step, and the state snapshot of a player.
 *
 * The movement pass takes the walkability test as a parameter, exactly as
 * the source takes a callback; the game loop passes the enemy manager's
 * check without a source tile. Combat consumes the miss and damage rolls
 * as explicit draws.
 */
module PlayerManager {
  import opened Wrappers
  import opened Constants
  import opened Types
  import opened EntityManager

  datatype Player = Player(
    id: Id,
    name: string,
    tile: Tile,
    moveState: MoveState,
    from: Tile,
    moveTimer: int,
    moveDuration: Duration,
    queued: Option<Direction>,
    direction: Direction,
    health: int,
    maxHealth: int,
    attack: int,
    defense: int,
    lastProcessedSeq: int,
    attackCooldown: int,
    target: Option<Id>,
    isAttacking: bool,
    isDead: bool)

  /** The player table together with the module-level id counter. */
  datatype Roster = Roster(players: seq<Player>, nextId: nat)

  // ---------------------------------------------------------------------
  // Lookup
  // ---------------------------------------------------------------------

  /** The player table's id column. */
  function PlayerIds(ps: seq<Player>): (r: seq<Id>)
    ensures |r| == |ps| && forall i :: 0 <= i < |ps| ==> r[i] == ps[i].id
  {
    seq(|ps|, i requires 0 <= i < |ps| => ps[i].id)
  }

  /** Where `id` sits in the player table (its first entry). */
  function FindPlayer(ps: seq<Player>, id: Id): (r: Option<nat>)
    ensures r.None? <==> forall i :: 0 <= i < |ps| ==> ps[i].id != id
    ensures r.Some? ==> r.value < |ps| && ps[r.value].id == id
    ensures r.Some? ==> forall i :: 0 <= i < r.value ==> ps[i].id != id
  {
    var ids := PlayerIds(ps);
    var r := IndexOf(ids, id);
    assert r.Some? ==> forall i :: 0 <= i < r.value ==> ids[..r.value][i] == ids[i];
    r
  }

  /** Tables whose entries agree on ids, position by position, find every id in the same place. */
  lemma FindPlayerSameIds(a: seq<Player>, b: seq<Player>, id: Id)
    requires |a| == |b| && forall i :: 0 <= i < |a| ==> a[i].id == b[i].id
    ensures FindPlayer(a, id) == FindPlayer(b, id)
  {
    assert PlayerIds(a) == PlayerIds(b);
  }


  predicate UniqueIds(ps: seq<Player>) {
    forall i, j :: 0 <= i < j < |ps| ==> ps[i].id != ps[j].id
  }

  /** Every player id was handed out by the counter before its current value. */
  predicate WellFormed(r: Roster) {
    && UniqueIds(r.players)
    && forall i :: 0 <= i < |r.players| ==> r.players[i].id.PlayerId? && r.players[i].id.n < r.nextId
  }

  // ---------------------------------------------------------------------
  // Joining and leaving
  // ---------------------------------------------------------------------

  function DigitChar(d: nat): (c: char)
    requires d < 10
    ensures '0' <= c <= '9'
  {
    "0123456789"[d]
  }

  /** Whether every character is a decimal digit. */
  predicate AllDigits(s: string) {
    forall i :: 0 <= i < |s| ==> '0' <= s[i] <= '9'
  }

  /** The number a string of decimal digits reads as, most significant digit first. */
  function DigitsValue(s: string): nat
    requires AllDigits(s)
  {
    if |s| == 0 then 0 else DigitsValue(s[..|s| - 1]) * 10 + (s[|s| - 1] as int - '0' as int)
  }

  /** The decimal spelling of n, as a template string prints it: no leading zero, and it reads back as n. */
  function DecimalString(n: nat): (s: string)
    ensures |s| >= 1 && AllDigits(s)
    ensures (|s| == 1) == (n < 10)
    ensures s[0] == '0' ==> n == 0
    ensures DigitsValue(s) == n
  {
    if n < 10 then [DigitChar(n)]
    else
      var prefix := DecimalString(n / 10);
      var s := prefix + [DigitChar(n % 10)];
      assert s[..|s| - 1] == prefix;
      s
  }

  /** The name a player joins with: the requested one, or "Player" + id when it is empty. */
  function JoinName(name: string, n: nat): (s: string)
    ensures name != [] ==> s == name
    ensures name == [] ==> && |s| > 7 && s[..7] == "Playerp" && AllDigits(s[7..])
                           && DigitsValue(s[7..]) == n && (s[7] == '0' ==> n == 0)
  {
    if name != [] then name else "Playerp" + DecimalString(n)
  }

  /**
   * `addPlayer`: a fresh id from the counter; the player spawns idle,
   * facing down, at full health near the world centre. `offset` stands
   * for the two Math.floor((Math.random() - 0.5) * 6) draws.
   */
  function AddPlayer(r: Roster, name: string, offset: (int, int)): (out: (Roster, Id))
    ensures out.1 == PlayerId(r.nextId) && out.0.nextId == r.nextId + 1
    ensures |out.0.players| == |r.players| + 1 && out.0.players[..|r.players|] == r.players
    ensures var p := out.0.players[|r.players|];
            && p.id == out.1 && p.name == JoinName(name, r.nextId)
            && p.tile == Tile(WorldTilesX / 2 + offset.0, WorldTilesY / 2 + offset.1) && p.from == p.tile
            && p.moveState == Idle && p.moveTimer == 0 && p.queued == None && p.direction == Down
            && p.health == p.maxHealth == PlayerMaxHealth && p.attack == PlayerAttack && p.defense == PlayerDefense
            && p.lastProcessedSeq == 0 && p.target == None && !p.isAttacking && !p.isDead
  {
    var id := PlayerId(r.nextId);
    var at := Tile(WorldTilesX / 2 + offset.0, WorldTilesY / 2 + offset.1);
    var p := Player(id, JoinName(name, r.nextId), at, Idle, at, 0, PlayerWalkMs, None, Down,
                    PlayerMaxHealth, PlayerMaxHealth, PlayerAttack, PlayerDefense, 0, 0, None, false, false);
    (Roster(r.players + [p], r.nextId + 1), id)
  }

  /** Ids handed out by the counter never collide with the ids already in the table. */
  lemma AddPlayerKeepsWellFormed(r: Roster, name: string, offset: (int, int))
    requires WellFormed(r)
    ensures WellFormed(AddPlayer(r, name, offset).0)
  {
    var r' := AddPlayer(r, name, offset).0;
    forall i, j | 0 <= i < j < |r'.players|
      ensures r'.players[i].id != r'.players[j].id
    {
      if j == |r.players| {
        assert r'.players[i] == r.players[i];
      } else {
        assert r'.players[i] == r.players[i] && r'.players[j] == r.players[j];
      }
    }
    assert forall i :: 0 <= i < |r.players| ==> r'.players[i] == r.players[i];
  }

  /** The players whose id is not `id`, in order. */
  function Without(ps: seq<Player>, id: Id): (r: seq<Player>)
    ensures forall p :: p in r <==> p in ps && p.id != id
    ensures |r| <= |ps|
  {
    if |ps| == 0 then []
    else
      var rest := Without(ps[1..], id);
      assert forall p :: p in ps <==> p == ps[0] || p in ps[1..];
      if ps[0].id == id then rest else [ps[0]] + rest
  }

  /** `removePlayer`: the player with that id leaves; everyone else stays, in order. */
  function RemovePlayer(r: Roster, id: Id): (out: Roster)
    ensures out.nextId == r.nextId
    ensures forall p :: p in out.players <==> p in r.players && p.id != id
    ensures FindPlayer(out.players, id).None?
  {
    Roster(Without(r.players, id), r.nextId)
  }

  /** Removing a player keeps ids unique and below the counter. */
  lemma {:induction false} WithoutKeepsUnique(ps: seq<Player>, id: Id)
    requires UniqueIds(ps)
    ensures UniqueIds(Without(ps, id))
  {
    if |ps| > 0 {
      WithoutKeepsUnique(ps[1..], id);
      var rest := Without(ps[1..], id);
      if ps[0].id != id {
        var r := [ps[0]] + rest;
        forall i, j | 0 <= i < j < |r| ensures r[i].id != r[j].id {
          if i == 0 {
            assert r[j] in rest;
            assert r[j] in ps[1..];
            var k :| 0 <= k < |ps[1..]| && ps[1..][k] == r[j];
            assert ps[k + 1] == r[j];
          } else {
            assert r[i] == rest[i - 1] && r[j] == rest[j - 1];
          }
        }
      }
    }
  }

  lemma RemovePlayerKeepsWellFormed(r: Roster, id: Id)
    requires WellFormed(r)
    ensures WellFormed(RemovePlayer(r, id))
  {
    WithoutKeepsUnique(r.players, id);
    var out := RemovePlayer(r, id);
    forall i | 0 <= i < |out.players|
      ensures out.players[i].id.PlayerId? && out.players[i].id.n < out.nextId
    {
      assert out.players[i] in r.players;
    }
  }

  // ---------------------------------------------------------------------
  // Input and attack requests
  // ---------------------------------------------------------------------

  /**
   * `handleInput`: a live player's queued direction and acknowledged
   * sequence number become the input's; a missing or dead player is left
   * alone.
   */
  function HandleInput(ps: seq<Player>, id: Id, dir: Option<Direction>, seqNo: int): (r: seq<Player>)
    ensures |r| == |ps|
    ensures forall i :: 0 <= i < |ps| ==> r[i].id == ps[i].id
    ensures forall i :: 0 <= i < |ps| && ps[i].id != id ==> r[i] == ps[i]
    ensures forall i :: 0 <= i < |ps| && ps[i].isDead ==> r[i] == ps[i]
    ensures FindPlayer(ps, id).Some? && !ps[FindPlayer(ps, id).value].isDead ==>
              var i := FindPlayer(ps, id).value;
              r[i] == ps[i].(queued := dir, lastProcessedSeq := seqNo)
  {
    match FindPlayer(ps, id)
    case None => ps
    case Some(i) =>
      if ps[i].isDead then ps else ps[i := ps[i].(queued := dir, lastProcessedSeq := seqNo)]
  }

  /** The latest input wins: a second input erases every trace of the first. */
  lemma InputLastWriteWins(ps: seq<Player>, id: Id, d1: Option<Direction>, s1: int, d2: Option<Direction>, s2: int)
    ensures HandleInput(HandleInput(ps, id, d1, s1), id, d2, s2) == HandleInput(ps, id, d2, s2)
  {
    var mid := HandleInput(ps, id, d1, s1);
    FindPlayerSameIds(ps, mid, id);
  }

  /** Repeating an input changes nothing further. */
  lemma InputIdempotent(ps: seq<Player>, id: Id, d: Option<Direction>, s: int)
    ensures HandleInput(HandleInput(ps, id, d, s), id, d, s) == HandleInput(ps, id, d, s)
  {
    InputLastWriteWins(ps, id, d, s, d, s);
  }

  /** `handleAttack`: a live player takes up the requested target. */
  function HandleAttack(ps: seq<Player>, id: Id, target: Id): (r: seq<Player>)
    ensures |r| == |ps|
    ensures forall i :: 0 <= i < |ps| ==> r[i].id == ps[i].id
    ensures forall i :: 0 <= i < |ps| && (ps[i].id != id || ps[i].isDead) ==> r[i] == ps[i]
    ensures FindPlayer(ps, id).Some? && !ps[FindPlayer(ps, id).value].isDead ==>
              var i := FindPlayer(ps, id).value;
              r[i] == ps[i].(target := Some(target))
  {
    match FindPlayer(ps, id)
    case None => ps
    case Some(i) => if ps[i].isDead then ps else ps[i := ps[i].(target := Some(target))]
  }

  // ---------------------------------------------------------------------
  // Combat
  // ---------------------------------------------------------------------

  /** The two Math.random() calls of an attack: the 20% miss roll and floor(random * 4). */
  datatype CombatDraw = CombatDraw(miss: bool, roll: int)

  /** The damage of a hit: attack + roll - 1 less the target's defense, at least 1. */
  function HitDamage(attack: int, roll: int, defense: int): (d: int)
    ensures d >= 1
    ensures d >= attack + roll - 1 - defense
    ensures d == attack + roll - 1 - defense || d == 1
  {
    var base := attack + roll - 1;
    if base - defense > 1 then base - defense else 1
  }

  /** With a roll in [0, 3] a player's hit lands between 1 and attack + 2 - defense (or 1). */
  lemma HitDamageRange(attack: int, roll: int, defense: int)
    requires 0 <= roll <= 3
    ensures 1 <= HitDamage(attack, roll, defense)
    ensures HitDamage(attack, roll, defense) <= (if attack + 2 - defense > 1 then attack + 2 - defense else 1)
    ensures attack - 1 - defense >= 1 ==> HitDamage(attack, roll, defense) >= attack - 1 - defense
  {
  }

  /** One player's combat turn: the player, the enemy table and what was broadcast. */
  datatype Turn = Turn(player: Player, enemies: seq<Enemy>, events: seq<Event>)

  /** The body of `processCombat` for one player. */
  function CombatTurn(p: Player, es: seq<Enemy>, draw: CombatDraw): (r: Turn)
    ensures r.player.id == p.id && r.player.tile == p.tile && r.player.moveState == p.moveState && r.player.isDead == p.isDead
    ensures r.player.queued == p.queued && r.player.lastProcessedSeq == p.lastProcessedSeq
    ensures p.isDead || p.target.None? ==> r == Turn(p.(isAttacking := false), es, [])
    ensures !p.isDead && p.target.Some? && p.attackCooldown > 0 ==>
              r == Turn(p.(attackCooldown := p.attackCooldown - TickMs), es, [])
    ensures !p.isDead && p.target.Some? && p.attackCooldown <= 0 && !AliveIn(es, p.target.value) ==>
              r == Turn(p.(target := None, isAttacking := false), es, [])
    ensures r.events != [] <==>
              && !p.isDead && p.target.Some? && p.attackCooldown <= 0 && AliveIn(es, p.target.value)
              && Chebyshev(es[Find(es, p.target.value).value].tile, p.tile) <= MeleeRange
    ensures r.events == [] ==> r.enemies == es
    ensures !p.isDead && p.target.Some? && p.attackCooldown <= 0 && AliveIn(es, p.target.value)
            && Chebyshev(es[Find(es, p.target.value).value].tile, p.tile) > MeleeRange ==>
              r == Turn(p.(isAttacking := false), es, [])
    ensures r.events != [] ==>
              r.player == p.(direction := r.player.direction, isAttacking := true, attackCooldown := AttackCooldownMs)
    ensures r.events != [] && draw.miss ==> r.enemies == es && r.events == [MissEvent(p.target.value, p.id)]
    ensures r.events != [] && !draw.miss ==>
              var t := p.target.value;
              var h := DamageEnemy(es, t, HitDamage(p.attack, draw.roll, es[Find(es, t).value].defense), p.id);
              r.enemies == h.enemies && r.events == h.events
  {
    if p.isDead || p.target.None? then Turn(p.(isAttacking := false), es, [])
    else if p.attackCooldown > 0 then Turn(p.(attackCooldown := p.attackCooldown - TickMs), es, [])
    else
      var t := p.target.value;
      match Find(es, t)
      case None => Turn(p.(target := None, isAttacking := false), es, [])
      case Some(i) =>
        var enemy := es[i];
        if !Live(enemy) then Turn(p.(target := None, isAttacking := false), es, [])
        else if Chebyshev(enemy.tile, p.tile) > MeleeRange then Turn(p.(isAttacking := false), es, [])
        else
          var dx := Sign(enemy.tile.x - p.tile.x);
          var dy := Sign(enemy.tile.y - p.tile.y);
          var facing := if dx != 0 || dy != 0 then Face(p.direction, dx, dy) else p.direction;
          var attacker := p.(direction := facing, isAttacking := true, attackCooldown := AttackCooldownMs);
          if draw.miss then Turn(attacker, es, [MissEvent(t, p.id)])
          else
            var h := DamageEnemy(es, t, HitDamage(p.attack, draw.roll, enemy.defense), p.id);
            Turn(attacker, h.enemies, h.events)
  }

  /** An attack turns the player toward its target. */
  lemma AttackFacesTarget(p: Player, es: seq<Enemy>, draw: CombatDraw)
    requires CombatTurn(p, es, draw).events != []
    ensures var e := es[Find(es, p.target.value).value];
            e.tile != p.tile ==>
              && DirDx(CombatTurn(p, es, draw).player.direction) == Sign(e.tile.x - p.tile.x)
              && DirDy(CombatTurn(p, es, draw).player.direction) == Sign(e.tile.y - p.tile.y)
  {
  }

  /** The combat phase after processing players k.. of the table. */
  datatype Combat = Combat(players: seq<Player>, enemies: seq<Enemy>, events: seq<Event>)

  function DrawFor(draws: seq<CombatDraw>, k: nat): CombatDraw {
    if k < |draws| then draws[k] else CombatDraw(false, 0)
  }

  /**
   * The enemy table a combat pass started at player k has reached when
   * player i acts, each player's turn given by `turn`.
   */
  function EnemiesAt(turn: (Player, seq<Enemy>, CombatDraw) -> Turn, ps: seq<Player>, es: seq<Enemy>,
                     draws: seq<CombatDraw>, k: nat, i: nat): seq<Enemy>
    requires k <= i <= |ps|
    decreases i
  {
    if i == k then es else turn(ps[i - 1], EnemiesAt(turn, ps, es, draws, k, i - 1), DrawFor(draws, i - 1)).enemies
  }

  /** What a combat pass started at player k has broadcast before player i acts, in turn order. */
  function EventsAt(turn: (Player, seq<Enemy>, CombatDraw) -> Turn, ps: seq<Player>, es: seq<Enemy>,
                    draws: seq<CombatDraw>, k: nat, i: nat): seq<Event>
    requires k <= i <= |ps|
    decreases i
  {
    if i == k then []
    else EventsAt(turn, ps, es, draws, k, i - 1) + turn(ps[i - 1], EnemiesAt(turn, ps, es, draws, k, i - 1), DrawFor(draws, i - 1)).events
  }

  /** Starting one player later, after the first player's turn, reaches the same enemy tables. */
  lemma {:induction false} EnemiesAtShift(turn: (Player, seq<Enemy>, CombatDraw) -> Turn, ps: seq<Player>, ps': seq<Player>,
                                          es: seq<Enemy>, es': seq<Enemy>, draws: seq<CombatDraw>, k: nat, i: nat)
    requires k < i <= |ps| == |ps'|
    requires forall j :: k < j < |ps| ==> ps'[j] == ps[j]
    requires es' == turn(ps[k], es, DrawFor(draws, k)).enemies
    ensures EnemiesAt(turn, ps', es', draws, k + 1, i) == EnemiesAt(turn, ps, es, draws, k, i)
    decreases i
  {
    if i > k + 1 {
      EnemiesAtShift(turn, ps, ps', es, es', draws, k, i - 1);
    }
  }

  /** Starting one player later, after the first player's turn, broadcasts the rest of the events. */
  lemma {:induction false} EventsAtShift(turn: (Player, seq<Enemy>, CombatDraw) -> Turn, ps: seq<Player>, ps': seq<Player>,
                                         es: seq<Enemy>, t: Turn, draws: seq<CombatDraw>, k: nat, i: nat)
    requires k < i <= |ps| == |ps'|
    requires forall j :: k < j < |ps| ==> ps'[j] == ps[j]
    requires t == turn(ps[k], es, DrawFor(draws, k))
    ensures EventsAt(turn, ps, es, draws, k, i) == t.events + EventsAt(turn, ps', t.enemies, draws, k + 1, i)
    decreases i
  {
    if i > k + 1 {
      EventsAtShift(turn, ps, ps', es, t, draws, k, i - 1);
      EnemiesAtShift(turn, ps, ps', es, t.enemies, draws, k, i - 1);
      assert ps'[i - 1] == ps[i - 1];
      var last := turn(ps[i - 1], EnemiesAt(turn, ps, es, draws, k, i - 1), DrawFor(draws, i - 1)).events;
      var rest := EventsAt(turn, ps', t.enemies, draws, k + 1, i - 1);
      assert EventsAt(turn, ps', t.enemies, draws, k + 1, i) == rest + last;
      assert (t.events + rest) + last == t.events + (rest + last);
    } else {
      assert EventsAt(turn, ps, es, draws, k, i) == [] + t.events;
    }
  }

  /**
   * The loop of `processCombat` from player k on, in table order, with each
   * player's turn given by `turn`: a player's turn sees the enemy table the
   * players before it left.
   */
  function CombatFrom(turn: (Player, seq<Enemy>, CombatDraw) -> Turn, ps: seq<Player>, k: nat,
                      es: seq<Enemy>, draws: seq<CombatDraw>): (r: Combat)
    requires k <= |ps|
    ensures |r.players| == |ps|
    ensures forall i :: 0 <= i < k ==> r.players[i] == ps[i]
    ensures forall i :: k <= i < |ps| ==> r.players[i] == turn(ps[i], EnemiesAt(turn, ps, es, draws, k, i), DrawFor(draws, i)).player
    ensures r.enemies == EnemiesAt(turn, ps, es, draws, k, |ps|)
    ensures r.events == EventsAt(turn, ps, es, draws, k, |ps|)
    decreases |ps| - k
  {
    if k == |ps| then Combat(ps, es, [])
    else
      var t := turn(ps[k], es, DrawFor(draws, k));
      var ps' := ps[k := t.player];
      CombatAtShiftAll(turn, ps, ps', es, t, draws, k);
      var rest := CombatFrom(turn, ps', k + 1, t.enemies, draws);
      Combat(rest.players, rest.enemies, t.events + rest.events)
  }

  lemma CombatAtShiftAll(turn: (Player, seq<Enemy>, CombatDraw) -> Turn, ps: seq<Player>, ps': seq<Player>,
                         es: seq<Enemy>, t: Turn, draws: seq<CombatDraw>, k: nat)
    requires k < |ps| == |ps'|
    requires forall j :: k < j < |ps| ==> ps'[j] == ps[j]
    requires t == turn(ps[k], es, DrawFor(draws, k))
    ensures forall i :: k < i <= |ps| ==> EnemiesAt(turn, ps', t.enemies, draws, k + 1, i) == EnemiesAt(turn, ps, es, draws, k, i)
    ensures EventsAt(turn, ps, es, draws, k, |ps|) == t.events + EventsAt(turn, ps', t.enemies, draws, k + 1, |ps|)
  {
    forall i | k < i <= |ps|
      ensures EnemiesAt(turn, ps', t.enemies, draws, k + 1, i) == EnemiesAt(turn, ps, es, draws, k, i)
    {
      EnemiesAtShift(turn, ps, ps', es, t.enemies, draws, k, i);
    }
    EventsAtShift(turn, ps, ps', es, t, draws, k, |ps|);
  }

  /** A combat turn changes at most health in the enemy table, and never revives. */
  lemma CombatTurnKeepsTable(p: Player, es: seq<Enemy>, draw: CombatDraw)
    ensures var r := CombatTurn(p, es, draw);
            && |r.enemies| == |es|
            && (forall i :: 0 <= i < |es| ==> r.enemies[i].id == es[i].id && r.enemies[i].tile == es[i].tile)
            && (forall i :: 0 <= i < |es| && !Live(es[i]) ==> r.enemies[i] == es[i])
  {
  }

  /** However far the combat pass has got, the enemy table has changed at most in health, and never revived. */
  lemma {:induction false} CombatKeepsTable(ps: seq<Player>, es: seq<Enemy>, draws: seq<CombatDraw>, i: nat)
    requires i <= |ps|
    ensures var t := EnemiesAt(CombatTurn, ps, es, draws, 0, i);
            && |t| == |es|
            && (forall j :: 0 <= j < |es| ==> t[j].id == es[j].id && t[j].tile == es[j].tile)
            && (forall j :: 0 <= j < |es| && !Live(es[j]) ==> t[j] == es[j])
    decreases i
  {
    if i > 0 {
      CombatKeepsTable(ps, es, draws, i - 1);
      CombatTurnKeepsTable(ps[i - 1], EnemiesAt(CombatTurn, ps, es, draws, 0, i - 1), DrawFor(draws, i - 1));
    }
  }

  /**
   * `processCombat`: every player takes its turn in table order against the
   * enemy table the players before it left; the broadcasts are the turns'
   * events one after the other.
   */
  function ProcessCombat(ps: seq<Player>, es: seq<Enemy>, draws: seq<CombatDraw>): (r: Combat)
    ensures |r.players| == |ps| && |r.enemies| == |es|
    ensures forall i :: 0 <= i < |ps| ==> r.players[i] == CombatTurn(ps[i], EnemiesAt(CombatTurn, ps, es, draws, 0, i), DrawFor(draws, i)).player
    ensures r.enemies == EnemiesAt(CombatTurn, ps, es, draws, 0, |ps|)
    ensures r.events == EventsAt(CombatTurn, ps, es, draws, 0, |ps|)
    ensures forall i :: 0 <= i < |ps| ==> r.players[i].id == ps[i].id && r.players[i].tile == ps[i].tile && r.players[i].isDead == ps[i].isDead
    ensures forall i :: 0 <= i < |es| ==> r.enemies[i].id == es[i].id && r.enemies[i].tile == es[i].tile
    ensures forall i :: 0 <= i < |es| && !Live(es[i]) ==> r.enemies[i] == es[i]
    ensures PlayerIds(r.players) == PlayerIds(ps) && EnemyIds(r.enemies) == EnemyIds(es)
  {
    CombatKeepsTable(ps, es, draws, |ps|);
    CombatFrom(CombatTurn, ps, 0, es, draws)
  }

  // ---------------------------------------------------------------------
  // Movement
  // ---------------------------------------------------------------------

  /**
   * `updateAll` for one player. A moving player only advances its timer
   * and turns idle once the step is complete, dropping the excess time. An
   * idle player with a queued direction turns to face it and steps iff the
   * given predicate accepts the target tile: no corner test, no elevation
   * test, and the queued direction stays queued.
   */
  function UpdatePlayer(p: Player, walkable: (int, int) -> bool): (r: Player)
    ensures r.id == p.id && r.queued == p.queued && r.health == p.health && r.isDead == p.isDead
    ensures p.isDead ==> r == p
    ensures !p.isDead && p.moveState == Moving ==>
              r.tile == p.tile &&
              (if p.moveTimer + TickMs >= p.moveDuration then r.moveState == Idle && r.moveTimer == 0
               else r.moveState == Moving && r.moveTimer == p.moveTimer + TickMs)
    ensures !p.isDead && p.moveState == Idle && p.queued.None? ==> r == p
    ensures !p.isDead && p.moveState == Idle && p.queued.Some? ==>
              var d := p.queued.value;
              && r.direction == d
              && (walkable(p.tile.x + DirDx(d), p.tile.y + DirDy(d)) <==> r.moveState == Moving)
              && (r.moveState == Moving ==> r.tile == Step(p.tile, d) && r.from == p.tile && r.moveTimer == 0)
              && (r.moveState == Idle ==> r.tile == p.tile)
  {
    if p.isDead then p
    else if p.moveState == Moving then
      var t := p.moveTimer + TickMs;
      if t >= p.moveDuration then p.(moveState := Idle, moveTimer := 0) else p.(moveTimer := t)
    else
      match p.queued
      case None => p
      case Some(d) =>
        var dx := DirDx(d);
        var dy := DirDy(d);
        FaceRoundTrip(p.direction, d);
        var turned := p.(direction := Face(p.direction, dx, dy));
        if !walkable(p.tile.x + dx, p.tile.y + dy) then turned
        else turned.(from := p.tile, tile := Offset(p.tile, dx, dy), moveState := Moving, moveTimer := 0)
  }

  /** The player pass: every player sees the same walkability test, fixed before the pass. */
  function UpdatePlayers(ps: seq<Player>, walkable: (int, int) -> bool): (r: seq<Player>)
    ensures |r| == |ps|
    ensures forall i :: 0 <= i < |ps| ==> r[i] == UpdatePlayer(ps[i], walkable)
  {
    if |ps| == 0 then [] else [UpdatePlayer(ps[0], walkable)] + UpdatePlayers(ps[1..], walkable)
  }

  /** n ticks of the movement pass on one player under a fixed walkability test. */
  function Ticks(p: Player, walkable: (int, int) -> bool, n: nat): Player
    decreases n
  {
    if n == 0 then p else Ticks(UpdatePlayer(p, walkable), walkable, n - 1)
  }

  /**
   * A step that started with timer t completes after n ticks, where n is
   * the least count with t + 50n >= duration: the player then stands idle
   * on the step's target with timer 0.
   */
  lemma {:induction false} StepCompletes(p: Player, walkable: (int, int) -> bool, n: nat)
    requires !p.isDead && p.moveState == Moving && n >= 1
    requires p.moveTimer + TickMs * n >= p.moveDuration > p.moveTimer + TickMs * (n - 1)
    ensures Ticks(p, walkable, n) == p.(moveState := Idle, moveTimer := 0)
    decreases n
  {
    if n > 1 {
      var q := UpdatePlayer(p, walkable);
      assert q == p.(moveTimer := p.moveTimer + TickMs);
      StepCompletes(q, walkable, n - 1);
    }
  }

  /**
   * A held direction on open ground: from the start of one step, the next
   * step starts ceil(duration / 50) + 1 ticks later, one tile further on.
   * The completion tick drops the excess time and the idle tick after it
   * is spent taking the next step.
   */
  lemma HeldDirectionPeriod(p: Player, walkable: (int, int) -> bool, d: Direction, n: nat)
    requires !p.isDead && p.moveState == Moving && p.moveTimer == 0 && p.queued == Some(d)
    requires n >= 1 && TickMs * n >= p.moveDuration > TickMs * (n - 1)
    requires walkable(p.tile.x + DirDx(d), p.tile.y + DirDy(d))
    ensures var q := Ticks(p, walkable, n + 1);
            q.moveState == Moving && q.moveTimer == 0 && q.tile == Step(p.tile, d) && q.from == p.tile
  {
    StepCompletes(p, walkable, n);
    TicksSplit(p, walkable, n, 1);
  }

  lemma {:induction false} TicksSplit(p: Player, walkable: (int, int) -> bool, m: nat, n: nat)
    ensures Ticks(p, walkable, m + n) == Ticks(Ticks(p, walkable, m), walkable, n)
    decreases m
  {
    if m > 0 {
      TicksSplit(UpdatePlayer(p, walkable), walkable, m - 1, n);
    }
  }

  // ---------------------------------------------------------------------
  // Snapshots and filters
  // ---------------------------------------------------------------------

  datatype PlayerState = PlayerState(
    id: Id, name: string, tile: Tile, from: Tile, progress: real, direction: Direction,
    animation: Animation, health: int, maxHealth: int, isMoving: bool, isAttacking: bool, target: Option<Id>)

  /** `getPlayerState`: DEAD over ATTACK over WALK over IDLE. */
  function PlayerStateOf(p: Player): (s: PlayerState)
    ensures s.animation == DeadAnim <==> p.isDead
    ensures s.animation == AttackAnim <==> !p.isDead && p.isAttacking
    ensures s.animation == WalkAnim <==> !p.isDead && !p.isAttacking && p.moveState == Moving
    ensures s.animation == IdleAnim <==> !p.isDead && !p.isAttacking && p.moveState == Idle
    ensures s.progress <= 1.0 && (p.moveState == Idle ==> s.progress == 1.0)
    ensures p.moveTimer >= 0 ==> s.progress >= 0.0
    ensures s.isMoving <==> p.moveState == Moving
    ensures s.id == p.id && s.tile == p.tile && s.from == p.from && s.target == p.target
  {
    var anim := if p.isDead then DeadAnim else if p.isAttacking then AttackAnim
                else if p.moveState == Moving then WalkAnim else IdleAnim;
    PlayerState(p.id, p.name, p.tile, p.from, Progress(p.moveState, p.moveTimer, p.moveDuration), p.direction,
                anim, p.health, p.maxHealth, p.moveState == Moving, p.isAttacking, p.target)
  }

  /** `getPlayerState` by id: nothing for an unknown id. */
  function GetPlayerState(ps: seq<Player>, id: Id): (r: Option<PlayerState>)
    ensures r.None? <==> FindPlayer(ps, id).None?
    ensures r.Some? ==> r.value.id == id && r.value == PlayerStateOf(ps[FindPlayer(ps, id).value])
  {
    match FindPlayer(ps, id)
    case None => None
    case Some(i) => Some(PlayerStateOf(ps[i]))
  }

  /** `getAllPlayerStates`: one snapshot per player, dead ones included, in table order. */
  function AllPlayerStates(ps: seq<Player>): (r: seq<PlayerState>)
    ensures |r| == |ps| && forall i :: 0 <= i < |ps| ==> r[i] == PlayerStateOf(ps[i])
  {
    if |ps| == 0 then [] else [PlayerStateOf(ps[0])] + AllPlayerStates(ps[1..])
  }

  /** `getPlayersPositions`: the live players' ids and tiles, in table order. */
  function Positions(ps: seq<Player>): (r: seq<PlayerPos>)
    ensures |r| <= |ps|
    ensures forall q :: q in r <==> exists p :: p in ps && !p.isDead && q == PlayerPos(p.id, p.tile)
    ensures |ps| == 1 ==> r == if ps[0].isDead then [] else [PlayerPos(ps[0].id, ps[0].tile)]
  {
    if |ps| == 0 then []
    else
      var rest := Positions(ps[1..]);
      assert forall p :: p in ps <==> p == ps[0] || p in ps[1..];
      if ps[0].isDead then rest else [PlayerPos(ps[0].id, ps[0].tile)] + rest
  }

  /**
   * The filter keeps table order: the positions of two tables one after the
   * other are the first table's positions followed by the second's.
   */
  lemma {:induction false} PositionsAppend(a: seq<Player>, b: seq<Player>)
    ensures Positions(a + b) == Positions(a) + Positions(b)
  {
    if |a| > 0 {
      assert (a + b)[1..] == a[1..] + b;
      PositionsAppend(a[1..], b);
    } else {
      assert a + b == b;
    }
  }

  /** `getPlayerTiles`: the live players' tiles, in table order. */
  function PlayerTiles(ps: seq<Player>): (r: seq<Tile>)
    ensures |r| <= |ps|
    ensures forall t :: t in r <==> exists p :: p in ps && !p.isDead && p.tile == t
  {
    if |ps| == 0 then []
    else
      var rest := PlayerTiles(ps[1..]);
      assert forall p :: p in ps <==> p == ps[0] || p in ps[1..];
      if ps[0].isDead then rest else [ps[0].tile] + rest
  }

  /** The first live player standing on a tile of the live players' tile list. */
  function FirstPlayerOn(ps: seq<Player>, t: Tile): (k: nat)
    requires t in PlayerTiles(ps)
    ensures k < |ps| && !ps[k].isDead && ps[k].tile == t
    ensures forall j :: 0 <= j < k ==> ps[j].isDead || ps[j].tile != t
    decreases |ps|
  {
    if !ps[0].isDead && ps[0].tile == t then 0
    else
      assert ps[0] in ps && forall p :: p in ps ==> p == ps[0] || p in ps[1..];
      1 + FirstPlayerOn(ps[1..], t)
  }

  /** The two filters agree: the tiles are exactly the positions' tiles, in the same order. */
  lemma {:induction false} TilesArePositions(ps: seq<Player>)
    ensures |PlayerTiles(ps)| == |Positions(ps)|
    ensures forall i :: 0 <= i < |PlayerTiles(ps)| ==> PlayerTiles(ps)[i] == Positions(ps)[i].tile
  {
    if |ps| > 0 {
      TilesArePositions(ps[1..]);
    }
  }
}
