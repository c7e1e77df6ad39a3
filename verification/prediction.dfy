/**
 * The client's movement prediction (client/src/main.ts): the local move
 * check, the diagonal fallback, click-target snapping, the step toward a
 * clicked tile, reconciliation with the server, and the per-frame step
 * chaining that numbers every INPUT message it sends.
 *
 * What the frame loop reads from outside (the held WASD direction, the
 * mouse, the elapsed frame time, whether the socket is connected) is
 * passed in. MOVE_ACK is handled against an abstract acknowledgement: no
 * server code sends one.
 */
module Prediction {
  import opened Wrappers
  import opened Constants
  import opened Types
  import opened Terrain
  import opened Oracles
  import opened EntityManager

  /** What the client knows of other entities: the tiles of enemies and of remote players. */
  datatype View = View(enemyTiles: seq<Tile>, remoteTiles: seq<Tile>)

  /** `isTileOccupied`: an enemy or a remote player stands on the tile. */
  function Occupied(v: View, x: int, y: int): (b: bool)
    ensures b <==> (exists i :: 0 <= i < |v.enemyTiles| && v.enemyTiles[i] == Tile(x, y))
                   || (exists j :: 0 <= j < |v.remoteTiles| && v.remoteTiles[j] == Tile(x, y))
  {
    Tile(x, y) in v.enemyTiles || Tile(x, y) in v.remoteTiles
  }

  /** The occupied tiles as a set, for comparison with the server's occupancy. */
  function OccupiedSet(v: View): (s: set<Tile>)
    ensures forall x, y :: Tile(x, y) in s <==> Occupied(v, x, y)
  {
    (set t | t in v.enemyTiles) + (set t | t in v.remoteTiles)
  }

  /** One tile passes the client's test from `from`: walkable terrain, a low enough step, no occupant. */
  predicate ClientTileOk(v: View, o: Oracle, from: Tile, x: int, y: int) {
    o.walkable(x, y) && InStep(o, from.x, from.y, x, y) && !Occupied(v, x, y)
  }

  /**
   * `canPredictMove`: the target needs x >= 1 and y >= 1 (no upper bound)
   * and must pass the tile test; a diagonal also needs both cardinal
   * neighbours to pass it.
   */
  function CanPredictMove(v: View, o: Oracle, from: Tile, dx: int, dy: int): (b: bool)
    ensures b ==> from.x + dx >= 1 && from.y + dy >= 1 && ClientTileOk(v, o, from, from.x + dx, from.y + dy)
  {
    && from.x + dx >= 1 && from.y + dy >= 1
    && ClientTileOk(v, o, from, from.x + dx, from.y + dy)
    && (dx != 0 && dy != 0 ==>
          ClientTileOk(v, o, from, from.x + dx, from.y) && ClientTileOk(v, o, from, from.x, from.y + dy))
  }

  /**
   * `resolveMoveDirection`: the requested step, else for a diagonal its
   * horizontal part, else its vertical part, else nothing.
   */
  function ResolveMoveDirection(v: View, o: Oracle, from: Tile, dx: int, dy: int): (r: Option<(int, int)>)
    ensures r.Some? ==> CanPredictMove(v, o, from, r.value.0, r.value.1)
    ensures r.Some? ==> r.value == (dx, dy) || (dx != 0 && dy != 0 && (r.value == (dx, 0) || r.value == (0, dy)))
    ensures CanPredictMove(v, o, from, dx, dy) ==> r == Some((dx, dy))
    ensures (dx == 0 || dy == 0) ==> (r.Some? <==> CanPredictMove(v, o, from, dx, dy))
    ensures dx != 0 && dy != 0 ==>
              (r.None? <==> !CanPredictMove(v, o, from, dx, dy) && !CanPredictMove(v, o, from, dx, 0)
                            && !CanPredictMove(v, o, from, 0, dy))
  {
    if CanPredictMove(v, o, from, dx, dy) then Some((dx, dy))
    else if dx != 0 && dy != 0 && CanPredictMove(v, o, from, dx, 0) then Some((dx, 0))
    else if dx != 0 && dy != 0 && CanPredictMove(v, o, from, 0, dy) then Some((0, dy))
    else None
  }

  // ---------------------------------------------------------------------
  // Agreement with the enemy step rule
  // ---------------------------------------------------------------------

  /** Only tiles strictly inside the world's border are walkable. */
  ghost predicate Bordered(o: Oracle) {
    forall x, y :: o.walkable(x, y) ==> InWorld(x, y)
  }

  /** The generated terrain is bordered when its elevation noise is non-negative. */
  lemma TerrainBordered(n: Noise)
    requires forall x, y :: n.elevation(x, y) >= 0.0
    ensures Bordered(OracleOf(n))
  {
    forall x, y | OracleOf(n).walkable(x, y) ensures InWorld(x, y) {
      WalkableIsInterior(n, x, y);
    }
  }

  /** On bordered ground the client's tile test is the server's, given the same occupancy. */
  lemma TileTestsAgree(v: View, o: Oracle, from: Tile, x: int, y: int)
    requires Bordered(o)
    ensures ClientTileOk(v, o, from, x, y) == IsTileWalkable(OccupiedSet(v), o, x, y, Some(from))
    ensures ClientTileOk(v, o, from, x, y) ==> x >= 1 && y >= 1
  {
  }

  /**
   * On bordered ground (the generated terrain among it), the client's
   * check and the server's enemy step rule agree on every unit step when
   * the client sees the occupancy the server has: the missing upper bound
   * cannot matter.
   */
  lemma PredictionMatchesEnemyRule(v: View, o: Oracle, e: Enemy, dx: int, dy: int)
    requires Bordered(o)
    requires IsUnitStep(dx, dy)
    ensures CanPredictMove(v, o, e.tile, dx, dy) == TryMove(OccupiedSet(v), o, e, dx, dy).moved
  {
    var t := e.tile;
    TileTestsAgree(v, o, t, t.x + dx, t.y + dy);
    TileTestsAgree(v, o, t, t.x + dx, t.y);
    TileTestsAgree(v, o, t, t.x, t.y + dy);
  }

  /**
   * Whatever the client predicts, the server's player rule (bounds,
   * occupancy and terrain only, no source tile) accepts on bordered
   * ground; the converse fails, as the server does not test the step height.
   */
  lemma PredictionImpliesPlayerRule(v: View, o: Oracle, from: Tile, dx: int, dy: int)
    requires Bordered(o)
    requires CanPredictMove(v, o, from, dx, dy)
    ensures IsTileWalkable(OccupiedSet(v), o, from.x + dx, from.y + dy, None)
  {
    TileTestsAgree(v, o, from, from.x + dx, from.y + dy);
  }

  /** On arbitrary ground the client accepts a step past the server's upper bound. */
  lemma ClientMissesUpperBound()
    ensures var o := Oracle((x, y) => true, (x, y) => 1);
            && CanPredictMove(View([], []), o, Tile(WorldTilesX - 2, 5), 1, 0)
            && !IsTileWalkable({}, o, WorldTilesX - 1, 5, Some(Tile(WorldTilesX - 2, 5)))
  {
  }

  // ---------------------------------------------------------------------
  // Click targets
  // ---------------------------------------------------------------------

  /** The tile at offset (a, b) from t is not walkable terrain. */
  predicate Blocked(o: Oracle, t: Tile, a: int, b: int) {
    !o.walkable(t.x + a, t.y + b)
  }

  /** (a, b) lies on the border of the square ring of radius r. */
  predicate OnBorder(r: nat, a: int, b: int) {
    -(r as int) <= a <= r && -(r as int) <= b <= r && (Abs(a) == r || Abs(b) == r)
  }

  /**
   * The ring loops of `findNearestWalkableTile` for one radius, from the
   * scan position (dx, dy) on: the first walkable tile on the ring's border.
   */
  function ScanRing(o: Oracle, t: Tile, r: nat, dx: int, dy: int): (res: Option<Tile>)
    requires -(r as int) <= dx <= r + 1 && -(r as int) <= dy <= r + 1
    ensures res.Some? ==> o.walkable(res.value.x, res.value.y) && Chebyshev(res.value, t) == r
    ensures res.None? ==>
              forall a, b :: OnBorder(r, a, b) && (a > dx || (a == dx && b >= dy)) ==> Blocked(o, t, a, b)
    decreases r + 1 - dx, r + 1 - dy
  {
    if dx > r then None
    else if dy > r then ScanRing(o, t, r, dx + 1, -(r as int))
    else if Abs(dx) != r && Abs(dy) != r then ScanRing(o, t, r, dx, dy + 1)
    else if o.walkable(t.x + dx, t.y + dy) then Some(Offset(t, dx, dy))
    else ScanRing(o, t, r, dx, dy + 1)
  }

  /** Every tile at Chebyshev distance r is on the border of ring r. */
  lemma OnRing(t: Tile, u: Tile)
    ensures OnBorder(Chebyshev(u, t), u.x - t.x, u.y - t.y)
  {
  }

  /** The rings from radius r up to 8. */
  function Rings(o: Oracle, t: Tile, r: nat): (res: Option<Tile>)
    requires r >= 1
    ensures res.Some? ==> o.walkable(res.value.x, res.value.y) && r <= Chebyshev(res.value, t) <= 8
    ensures res.Some? ==> forall u :: r <= Chebyshev(u, t) < Chebyshev(res.value, t) ==> !o.walkable(u.x, u.y)
    ensures res.None? ==> forall u :: r <= Chebyshev(u, t) <= 8 ==> !o.walkable(u.x, u.y)
    decreases 9 - r
  {
    if r > 8 then None
    else
      var here := ScanRing(o, t, r, -(r as int), -(r as int));
      assert here.None? ==> forall u :: Chebyshev(u, t) == r ==> !o.walkable(u.x, u.y) by {
        if here.None? {
          forall u | Chebyshev(u, t) == r ensures !o.walkable(u.x, u.y) {
            OnRing(t, u);
            assert Blocked(o, t, u.x - t.x, u.y - t.y);
          }
        }
      }
      if here.Some? then here else Rings(o, t, r + 1)
  }

  /**
   * `findNearestWalkableTile`: the target itself when its terrain is
   * walkable, otherwise a walkable tile on the smallest ring (radius at
   * most 8) that has one, otherwise nothing. Only terrain is consulted.
   */
  function FindNearestWalkableTile(o: Oracle, t: Tile): (res: Option<Tile>)
    ensures o.walkable(t.x, t.y) ==> res == Some(t)
    ensures res.Some? ==> o.walkable(res.value.x, res.value.y) && Chebyshev(res.value, t) <= 8
    ensures res.Some? ==> forall u :: Chebyshev(u, t) < Chebyshev(res.value, t) ==> !o.walkable(u.x, u.y)
    ensures res.None? <==> forall u :: Chebyshev(u, t) <= 8 ==> !o.walkable(u.x, u.y)
  {
    if o.walkable(t.x, t.y) then Some(t)
    else
      var res := Rings(o, t, 1);
      assert forall u :: Chebyshev(u, t) == 0 ==> u == t;
      res
  }

  /**
   * `directionToward`: nothing when the tiles coincide, otherwise the
   * direction of the sign step from one to the other.
   */
  function DirectionToward(from: Tile, to: Tile): (r: Option<Direction>)
    ensures r.None? <==> from == to
    ensures r.Some? ==> DirDx(r.value) == Sign(to.x - from.x) && DirDy(r.value) == Sign(to.y - from.y)
  {
    if from == to then None
    else
      var sdx := Sign(to.x - from.x);
      var sdy := Sign(to.y - from.y);
      if sdx == 0 && sdy == -1 then Some(Up)
      else if sdx == 1 && sdy == -1 then Some(UpRight)
      else if sdx == 1 && sdy == 0 then Some(Right)
      else if sdx == 1 && sdy == 1 then Some(DownRight)
      else if sdx == 0 && sdy == 1 then Some(Down)
      else if sdx == -1 && sdy == 1 then Some(DownLeft)
      else if sdx == -1 && sdy == 0 then Some(Left)
      else Some(UpLeft)
  }

  /** The client's step toward a tile and the server's facing rule pick the same direction. */
  lemma TowardAgreesWithFacing(from: Tile, to: Tile, current: Direction)
    requires from != to
    ensures DirectionToward(from, to) == Some(Face(current, to.x - from.x, to.y - from.y))
  {
    var d := DirectionToward(from, to).value;
    var f := Face(current, to.x - from.x, to.y - from.y);
    DeltaInjective(d, f);
  }

  // ---------------------------------------------------------------------
  // The prediction state and reconciliation
  // ---------------------------------------------------------------------

  datatype Client = Client(
    tile: Tile,
    from: Tile,
    moveState: MoveState,
    timer: real,
    duration: Duration,
    isRunning: bool,
    direction: Option<Direction>,
    target: Option<Tile>,
    inputSeq: nat)

  /** The abstract acknowledgement of one step. */
  datatype Ack = Ack(accepted: bool, tile: Tile)

  /**
   * MOVE_ACK: a rejection puts the prediction back, idle, on the
   * acknowledged tile and drops the click target; an acceptance changes
   * nothing.
   */
  function OnMoveAck(c: Client, ack: Ack): (r: Client)
    ensures ack.accepted ==> r == c
    ensures !ack.accepted ==>
              && r.tile == ack.tile && r.from == ack.tile && r.moveState == Idle && r.timer == 0.0
              && r.direction == None && r.target == None
              && r.duration == c.duration && r.isRunning == c.isRunning && r.inputSeq == c.inputSeq
  {
    if ack.accepted then c
    else c.(tile := ack.tile, from := ack.tile, moveState := Idle, timer := 0.0, direction := None, target := None)
  }

  /** A rejection settles the prediction: a second identical rejection changes nothing more. */
  lemma RejectIdempotent(c: Client, ack: Ack)
    ensures OnMoveAck(OnMoveAck(c, ack), ack) == OnMoveAck(c, ack)
  {
  }

  /** The drift threshold of the state-update safety net, in tiles. */
  const MaxDrift := 3

  /**
   * The safety net on each state update: a prediction more than three
   * tiles (Chebyshev) from the server's tile is teleported there, idle;
   * otherwise the prediction is left alone. The click target survives.
   */
  function CorrectDrift(c: Client, server: Tile): (r: Client)
    ensures Chebyshev(server, c.tile) <= MaxDrift ==> r == c
    ensures Chebyshev(server, c.tile) > MaxDrift ==>
              r == c.(tile := server, from := server, moveState := Idle, timer := 0.0, direction := None)
    ensures Chebyshev(server, r.tile) <= MaxDrift
  {
    if Chebyshev(server, c.tile) > MaxDrift then
      c.(tile := server, from := server, moveState := Idle, timer := 0.0, direction := None)
    else c
  }

  /** After the safety net, a second update from the same server tile changes nothing. */
  lemma DriftSettles(c: Client, server: Tile)
    ensures CorrectDrift(CorrectDrift(c, server), server) == CorrectDrift(c, server)
  {
  }

  // ---------------------------------------------------------------------
  // Movement input
  // ---------------------------------------------------------------------

  /**
   * The mouse as the frame loop sees it: a held right button with its
   * octant direction and run flag, and the target tile of a pending
   * click-and-release (already snapped, or None when it found nothing).
   */
  datatype Mouse = Mouse(active: bool, heldDirection: Option<Direction>, heldRunning: bool,
                         pendingClick: bool, clickTarget: Option<Tile>)

  datatype Intent = Intent(direction: Option<Direction>, running: bool)

  /** The input of a frame: what the keyboard and the mouse say, and the client state after reading it. */
  datatype Reading = Reading(intent: Intent, client: Client, mouse: Mouse)

  /** The Chebyshev distance above which a click-to-move starts running, and at or below which it stops. */
  const RunStartDistance := 3
  const RunStopDistance := 1

  /**
   * `getMovementInput`: a held WASD direction wins and cancels the click
   * target; then a held mouse button; then a pending click sets the target
   * (and is consumed); then the step toward the target, with running
   * hysteresis; otherwise no direction.
   */
  function GetMovementInput(c: Client, keys: Option<Direction>, m: Mouse): (r: Reading)
    ensures r.client == c.(target := r.client.target)
    ensures keys.Some? ==> r.intent == Intent(keys, false) && r.client.target == None
    ensures keys.None? && m.active ==> r.intent == Intent(m.heldDirection, m.heldRunning) && r.client.target == None
    ensures keys.None? && !m.active ==>
              var target := if m.pendingClick && m.clickTarget.Some? then m.clickTarget else c.target;
              && (target.None? ==> r.intent == Intent(None, false) && r.client.target == None)
              && (target.Some? && target.value == c.tile ==> r.intent == Intent(None, false) && r.client.target == None)
              && (target.Some? && target.value != c.tile ==>
                    && r.client.target == target
                    && r.intent.direction == DirectionToward(c.tile, target.value)
                    && r.intent.running == (Chebyshev(target.value, c.tile) > (if c.isRunning then RunStopDistance else RunStartDistance)))
    ensures r.intent.direction.None? ==> keys.None?
  {
    if keys.Some? then Reading(Intent(keys, false), c.(target := None), m)
    else if m.active then Reading(Intent(m.heldDirection, m.heldRunning), c.(target := None), m)
    else
      var m' := m.(pendingClick := false);
      var target := if m.pendingClick && m.clickTarget.Some? then m.clickTarget else c.target;
      match target
      case None => Reading(Intent(None, false), c.(target := None), m')
      case Some(t) =>
        if c.tile == t then Reading(Intent(None, false), c.(target := None), m')
        else
          var dist := Chebyshev(t, c.tile);
          var run := if c.isRunning then dist > RunStopDistance else dist > RunStartDistance;
          Reading(Intent(DirectionToward(c.tile, t), run), c.(target := target), m')
  }

  // ---------------------------------------------------------------------
  // The frame loop
  // ---------------------------------------------------------------------

  /** An INPUT message as the client sends it. */
  datatype Input = Input(direction: Option<Direction>, seqNo: nat, running: bool)

  /** The client after a frame together with the INPUT messages it sent. */
  datatype Step = Step(client: Client, mouse: Mouse, sent: seq<Input>)

  function StepMs(running: bool): Duration {
    if running then PlayerRunMs else PlayerWalkMs
  }

  /** Sends one INPUT when connected, numbering it with the next sequence number. */
  function Send(c: Client, connected: bool, dir: Option<Direction>, running: bool): (r: (Client, seq<Input>))
    ensures r.0 == c.(inputSeq := r.0.inputSeq)
    ensures connected ==> r.0.inputSeq == c.inputSeq + 1 && r.1 == [Input(dir, c.inputSeq + 1, running)]
    ensures !connected ==> r == (c, [])
  {
    if connected then (c.(inputSeq := c.inputSeq + 1), [Input(dir, c.inputSeq + 1, running)]) else (c, [])
  }

  /** The messages continue the sequence after `start` with no gap and no repeat. */
  predicate Numbered(msgs: seq<Input>, start: nat) {
    forall i :: 0 <= i < |msgs| ==> msgs[i].seqNo == start + i + 1
  }

  /** The client left `from` by a step the prediction allows and is walking it. */
  predicate Moved(v: View, o: Oracle, from: Tile, c: Client) {
    && c.moveState == Moving && c.from == from
    && CanPredictMove(v, o, from, c.tile.x - from.x, c.tile.y - from.y)
  }

  /** The direction a reading asks for, resolved by the prediction from `from`; nothing when it asks for none. */
  function Resolved(input: Reading, v: View, o: Oracle, from: Tile): Option<(int, int)> {
    match input.intent.direction
    case None => None
    case Some(d) => ResolveMoveDirection(v, o, from, DirDx(d), DirDy(d))
  }

  /**
   * A step latched from a reading: the client walks `delta` from `from`
   * with the reading's direction and run flag, the step's duration follows
   * the run flag, and one INPUT with that direction and the next sequence
   * number goes out when connected.
   */
  predicate Latched(input: Reading, from: Tile, delta: (int, int), timer: real, connected: bool, seqNo: nat, r: Step) {
    && r.mouse == input.mouse
    && r.client == input.client.(from := from, tile := Offset(from, delta.0, delta.1), moveState := Moving, timer := timer,
                                 direction := input.intent.direction, isRunning := input.intent.running,
                                 duration := StepMs(input.intent.running), inputSeq := r.client.inputSeq)
    && r.sent == if connected then [Input(input.intent.direction, seqNo + 1, input.intent.running)] else []
  }

  /** A stop after a completed step: idle where it is, no click target, and a stop INPUT when connected. */
  predicate StoppedAfterStep(input: Reading, connected: bool, seqNo: nat, r: Step) {
    && r.mouse == input.mouse
    && r.client == input.client.(target := None, moveState := Idle, timer := 0.0, direction := None, inputSeq := r.client.inputSeq)
    && r.sent == if connected then [Input(None, seqNo + 1, false)] else []
  }

  /**
   * The arrival half of the frame: the timer advances by dt and, once the
   * step is complete, the next step is chained at once (see `Chain`) with
   * the excess time carried over.
   */
  function Arrive(c: Client, keys: Option<Direction>, m: Mouse, v: View, o: Oracle, dt: real, connected: bool): (r: Step)
    requires c.moveState == Moving
    ensures r.client.inputSeq == c.inputSeq + |r.sent| && Numbered(r.sent, c.inputSeq) && |r.sent| <= 1
    ensures c.timer + dt < c.duration as real ==> r == Step(c.(timer := c.timer + dt), m, [])
    ensures c.timer + dt >= c.duration as real ==>
              r == Chain(c.(timer := c.timer + dt, from := c.tile), c.duration, keys, m, v, o, connected)
    ensures c.timer + dt >= c.duration as real && r.client.moveState == Moving ==>
              r.client.timer == c.timer + dt - c.duration as real
    ensures c.timer + dt >= c.duration as real && r.client.moveState == Idle ==>
              r.client.tile == c.tile && r.client.timer == 0.0 && r.client.direction == None
    ensures Chebyshev(r.client.tile, c.tile) <= 1
    ensures r.client.tile != c.tile ==> Moved(v, o, c.tile, r.client)
  {
    var t := c.timer + dt;
    if t < c.duration as real then Step(c.(timer := t), m, [])
    else Chain(c.(timer := t, from := c.tile), c.duration, keys, m, v, o, connected)
  }

  /**
   * Latches a step in direction `d`: the delta it resolves to, if the
   * prediction allows one, becomes the new step from the current tile.
   */
  function Go(c: Client, d: Direction, running: bool, timer: real, v: View, o: Oracle): (r: Option<Client>)
    ensures var res := ResolveMoveDirection(v, o, c.tile, DirDx(d), DirDy(d));
            && (r.None? <==> res.None?)
            && (r.Some? ==> r.value.tile == Offset(c.tile, res.value.0, res.value.1))
    ensures CanPredictMove(v, o, c.tile, DirDx(d), DirDy(d)) ==> r.Some? && r.value.tile == Types.Step(c.tile, d)
    ensures r.Some? ==>
              && Moved(v, o, c.tile, r.value) && Chebyshev(r.value.tile, c.tile) <= 1
              && r.value == c.(from := c.tile, tile := r.value.tile, moveState := Moving, timer := timer,
                               direction := Some(d), isRunning := running, duration := StepMs(running))
  {
    DeltaIsUnitStep(d);
    match ResolveMoveDirection(v, o, c.tile, DirDx(d), DirDy(d))
    case None => None
    case Some(delta) =>
      Some(c.(from := c.tile, tile := Offset(c.tile, delta.0, delta.1), moveState := Moving, timer := timer,
              direction := Some(d), isRunning := running, duration := StepMs(running)))
  }

  /**
   * A completed step chains into the next one if there is input and its
   * resolved delta is predicted to succeed; the new step's timer is the
   * elapsed time less the completed step's duration. Otherwise the client
   * stops, dropping the click target when it could not step toward it,
   * and tells the server it stopped.
   */
  function Chain(c: Client, done: Duration, keys: Option<Direction>, m: Mouse, v: View, o: Oracle, connected: bool): (r: Step)
    ensures r.client.inputSeq == c.inputSeq + |r.sent| && Numbered(r.sent, c.inputSeq) && |r.sent| <= 1
    ensures r.client.moveState == Moving ==> r.client.timer == c.timer - done as real && Moved(v, o, c.tile, r.client)
    ensures r.client.moveState == Idle ==>
              r.client.tile == c.tile && r.client.timer == 0.0 && r.client.direction == None
    ensures Chebyshev(r.client.tile, c.tile) <= 1
  {
    var input := GetMovementInput(c, keys, m);
    var c1 := input.client;
    match input.intent.direction
    case Some(d) =>
      (match Go(c1, d, input.intent.running, c1.timer - done as real, v, o)
       case Some(next) =>
         var sent := Send(next, connected, Some(d), input.intent.running);
         Step(sent.0, input.mouse, sent.1)
       case None =>
         var stopped := c1.(target := None, moveState := Idle, timer := 0.0, direction := None);
         var sent := Send(stopped, connected, None, false);
         Step(sent.0, input.mouse, sent.1))
    case None =>
      var stopped := c1.(moveState := Idle, timer := 0.0, direction := None);
      var sent := Send(stopped, connected, None, false);
      Step(sent.0, input.mouse, sent.1)
  }

  /**
   * The start half of the frame: an idle client with input starts a step
   * at once if its resolved delta is predicted to succeed; a click target
   * that cannot be stepped toward is dropped, and nothing is sent.
   */
  function Start(c: Client, keys: Option<Direction>, m: Mouse, v: View, o: Oracle, connected: bool): (r: Step)
    requires c.moveState == Idle
    ensures r.client.inputSeq == c.inputSeq + |r.sent| && Numbered(r.sent, c.inputSeq) && |r.sent| <= 1
    ensures r.client.moveState == Moving ==> r.client.timer == 0.0 && Moved(v, o, c.tile, r.client)
    ensures r.client.moveState == Idle ==> r.client.tile == c.tile && r.sent == []
    ensures Chebyshev(r.client.tile, c.tile) <= 1
    ensures r.client.tile != c.tile ==> Moved(v, o, c.tile, r.client)
  {
    var input := GetMovementInput(c, keys, m);
    var c1 := input.client;
    match input.intent.direction
    case None => Step(c1, input.mouse, [])
    case Some(d) =>
      match Go(c1, d, input.intent.running, 0.0, v, o)
      case Some(next) =>
        var sent := Send(next, connected, Some(d), input.intent.running);
        Step(sent.0, input.mouse, sent.1)
      case None =>
        Step(c1.(target := None), input.mouse, [])
  }

  /** A completed step whose input resolves to a delta latches that delta with the excess time. */
  lemma ChainLatches(c: Client, done: Duration, keys: Option<Direction>, m: Mouse, v: View, o: Oracle, connected: bool)
    ensures var input := GetMovementInput(c, keys, m);
            var res := Resolved(input, v, o, c.tile);
            res.Some? ==> Latched(input, c.tile, res.value, c.timer - done as real, connected, c.inputSeq,
                                  Chain(c, done, keys, m, v, o, connected))
  {
    var input := GetMovementInput(c, keys, m);
    if input.intent.direction.Some? {
      var d := input.intent.direction.value;
      var g := Go(input.client, d, input.intent.running, input.client.timer - done as real, v, o);
      if g.Some? {
        var res := ResolveMoveDirection(v, o, c.tile, DirDx(d), DirDy(d));
        assert g.value.tile == Offset(c.tile, res.value.0, res.value.1);
        var sent := Send(g.value, connected, Some(d), input.intent.running);
        assert Chain(c, done, keys, m, v, o, connected) == Step(sent.0, input.mouse, sent.1);
      }
    }
  }

  /** A completed step whose input resolves to nothing stops and reports the stop. */
  lemma ChainStops(c: Client, done: Duration, keys: Option<Direction>, m: Mouse, v: View, o: Oracle, connected: bool)
    ensures var input := GetMovementInput(c, keys, m);
            Resolved(input, v, o, c.tile).None? ==> StoppedAfterStep(input, connected, c.inputSeq, Chain(c, done, keys, m, v, o, connected))
  {
  }

  /**
   * What a completed step chains into: the step the input resolves to,
   * with the excess time and one numbered INPUT when connected; or, when
   * there is no input or it resolves to nothing, a stop.
   */
  lemma ChainOutcome(c: Client, done: Duration, keys: Option<Direction>, m: Mouse, v: View, o: Oracle, connected: bool)
    ensures var r := Chain(c, done, keys, m, v, o, connected);
            var input := GetMovementInput(c, keys, m);
            var res := Resolved(input, v, o, c.tile);
            && (res.Some? ==> Latched(input, c.tile, res.value, c.timer - done as real, connected, c.inputSeq, r))
            && (res.None? ==> StoppedAfterStep(input, connected, c.inputSeq, r))
  {
    ChainLatches(c, done, keys, m, v, o, connected);
    ChainStops(c, done, keys, m, v, o, connected);
  }

  /** From idle, input that resolves to a delta latches that delta with the timer at 0. */
  lemma StartLatches(c: Client, keys: Option<Direction>, m: Mouse, v: View, o: Oracle, connected: bool)
    requires c.moveState == Idle
    ensures var input := GetMovementInput(c, keys, m);
            var res := Resolved(input, v, o, c.tile);
            res.Some? ==> Latched(input, c.tile, res.value, 0.0, connected, c.inputSeq, Start(c, keys, m, v, o, connected))
  {
    var input := GetMovementInput(c, keys, m);
    if input.intent.direction.Some? {
      var d := input.intent.direction.value;
      var g := Go(input.client, d, input.intent.running, 0.0, v, o);
      if g.Some? {
        var res := ResolveMoveDirection(v, o, c.tile, DirDx(d), DirDy(d));
        assert g.value.tile == Offset(c.tile, res.value.0, res.value.1);
        var sent := Send(g.value, connected, Some(d), input.intent.running);
        assert Start(c, keys, m, v, o, connected) == Step(sent.0, input.mouse, sent.1);
      }
    }
  }

  /** From idle, input that resolves to nothing sends nothing and drops the click target. */
  lemma StartStays(c: Client, keys: Option<Direction>, m: Mouse, v: View, o: Oracle, connected: bool)
    requires c.moveState == Idle
    ensures var input := GetMovementInput(c, keys, m);
            Resolved(input, v, o, c.tile).None? ==>
              Start(c, keys, m, v, o, connected) == Step(input.client.(target := None), input.mouse, [])
  {
  }

  /**
   * What an idle client starts: the step the input resolves to, with one
   * numbered INPUT when connected; otherwise nothing is sent and any click
   * target is dropped.
   */
  lemma StartOutcome(c: Client, keys: Option<Direction>, m: Mouse, v: View, o: Oracle, connected: bool)
    requires c.moveState == Idle
    ensures var r := Start(c, keys, m, v, o, connected);
            var input := GetMovementInput(c, keys, m);
            var res := Resolved(input, v, o, c.tile);
            && (res.Some? ==> Latched(input, c.tile, res.value, 0.0, connected, c.inputSeq, r))
            && (res.None? ==> r == Step(input.client.(target := None), input.mouse, []))
  {
    StartLatches(c, keys, m, v, o, connected);
    StartStays(c, keys, m, v, o, connected);
  }

  /** Two numbered runs, one after the other, make one numbered run. */
  lemma NumberedAppend(a: seq<Input>, b: seq<Input>, start: nat)
    requires Numbered(a, start) && Numbered(b, start + |a|)
    ensures Numbered(a + b, start)
  {
    forall i | 0 <= i < |a + b| ensures (a + b)[i].seqNo == start + i + 1 {
      if i >= |a| {
        assert (a + b)[i] == b[i - |a|];
      }
    }
  }

  /**
   * One ticker frame: arrival (when moving), then a fresh start (when idle
   * and joined). The prediction moves at most one tile a frame.
   */
  function Frame(c: Client, keys: Option<Direction>, m: Mouse, v: View, o: Oracle, dt: real,
                 connected: bool, joined: bool): (r: Step)
    ensures r.client.inputSeq == c.inputSeq + |r.sent| && Numbered(r.sent, c.inputSeq) && |r.sent| <= 2
    ensures Chebyshev(r.client.tile, c.tile) <= 1
    ensures r.client.tile != c.tile ==> Moved(v, o, c.tile, r.client)
  {
    var a := if c.moveState == Moving then Arrive(c, keys, m, v, o, dt, connected) else Step(c, m, []);
    if a.client.moveState == Idle && joined then
      var s := Start(a.client, keys, a.mouse, v, o, connected);
      NumberedAppend(a.sent, s.sent, c.inputSeq);
      Step(s.client, s.mouse, a.sent + s.sent)
    else a
  }

  /** A joined idle client's frame latches the step its input resolves to, or stays put and sends nothing. */
  lemma FrameStarts(c: Client, keys: Option<Direction>, m: Mouse, v: View, o: Oracle, dt: real, connected: bool)
    requires c.moveState == Idle
    ensures var r := Frame(c, keys, m, v, o, dt, connected, true);
            var input := GetMovementInput(c, keys, m);
            var res := Resolved(input, v, o, c.tile);
            && (res.Some? ==> Latched(input, c.tile, res.value, 0.0, connected, c.inputSeq, r))
            && (res.None? ==> r == Step(input.client.(target := None), input.mouse, []))
  {
    StartOutcome(c, keys, m, v, o, connected);
    var s := Start(c, keys, m, v, o, connected);
    assert [] + s.sent == s.sent;
  }

  /** A completed step's arrival is the chain from the arrival tile, with the elapsed time on the timer. */
  lemma ArriveIsChain(c: Client, keys: Option<Direction>, m: Mouse, v: View, o: Oracle, dt: real, connected: bool)
    requires c.moveState == Moving && c.timer + dt >= c.duration as real
    ensures Arrive(c, keys, m, v, o, dt, connected) ==
            Chain(c.(timer := c.timer + dt, from := c.tile), c.duration, keys, m, v, o, connected)
  {
  }

  /** A moving client's frame is its arrival, unless the arrival leaves it idle and a fresh start follows. */
  lemma FrameArrives(c: Client, keys: Option<Direction>, m: Mouse, v: View, o: Oracle, dt: real, connected: bool, joined: bool)
    requires c.moveState == Moving
    ensures var a := Arrive(c, keys, m, v, o, dt, connected);
            a.client.moveState == Moving || !joined ==> Frame(c, keys, m, v, o, dt, connected, joined) == a
  {
  }

  /** Once the step completes, the frame is the chain, unless the chain stops and a fresh start follows. */
  lemma FrameIsChain(c: Client, keys: Option<Direction>, m: Mouse, v: View, o: Oracle, dt: real, connected: bool, joined: bool)
    requires c.moveState == Moving && c.timer + dt >= c.duration as real
    ensures var ch := Chain(c.(timer := c.timer + dt, from := c.tile), c.duration, keys, m, v, o, connected);
            ch.client.moveState == Moving || !joined ==> Frame(c, keys, m, v, o, dt, connected, joined) == ch
  {
    FrameArrives(c, keys, m, v, o, dt, connected, joined);
    ArriveIsChain(c, keys, m, v, o, dt, connected);
  }

  /**
   * A frame in which the step completes chains into the step the input
   * resolves to from the arrival tile, carrying the excess time; with no
   * such step and no fresh start, it stops and reports the stop.
   */
  lemma FrameChains(c: Client, keys: Option<Direction>, m: Mouse, v: View, o: Oracle, dt: real, connected: bool, joined: bool)
    requires c.moveState == Moving && c.timer + dt >= c.duration as real
    ensures var r := Frame(c, keys, m, v, o, dt, connected, joined);
            var input := GetMovementInput(c.(timer := c.timer + dt, from := c.tile), keys, m);
            var res := Resolved(input, v, o, c.tile);
            && (res.Some? ==> Latched(input, c.tile, res.value, c.timer + dt - c.duration as real, connected, c.inputSeq, r))
            && (res.None? && !joined ==> StoppedAfterStep(input, connected, c.inputSeq, r))
  {
    var c' := c.(timer := c.timer + dt, from := c.tile);
    FrameIsChain(c, keys, m, v, o, dt, connected, joined);
    ChainLatches(c', c.duration, keys, m, v, o, connected);
    ChainStops(c', c.duration, keys, m, v, o, connected);
  }

  /**
   * What a frame does: an idle client starts the step its input resolves
   * to once joined; a moving one only advances its timer until the step is
   * complete, and then chains into the next resolved step or stops.
   */
  lemma FrameOutcome(c: Client, keys: Option<Direction>, m: Mouse, v: View, o: Oracle, dt: real, connected: bool, joined: bool)
    ensures var r := Frame(c, keys, m, v, o, dt, connected, joined);
            && (c.moveState == Idle && !joined ==> r == Step(c, m, []))
            && (c.moveState == Idle && joined ==>
                  var input := GetMovementInput(c, keys, m);
                  var res := Resolved(input, v, o, c.tile);
                  && (res.Some? ==> Latched(input, c.tile, res.value, 0.0, connected, c.inputSeq, r))
                  && (res.None? ==> r == Step(input.client.(target := None), input.mouse, [])))
            && (c.moveState == Moving && c.timer + dt < c.duration as real ==> r == Step(c.(timer := c.timer + dt), m, []))
            && (c.moveState == Moving && c.timer + dt >= c.duration as real ==>
                  var input := GetMovementInput(c.(timer := c.timer + dt, from := c.tile), keys, m);
                  var res := Resolved(input, v, o, c.tile);
                  && (res.Some? ==> Latched(input, c.tile, res.value, c.timer + dt - c.duration as real, connected, c.inputSeq, r))
                  && (res.None? && !joined ==> StoppedAfterStep(input, connected, c.inputSeq, r)))
  {
    if c.moveState == Idle && joined {
      FrameStarts(c, keys, m, v, o, dt, connected);
    } else if c.moveState == Moving && c.timer + dt >= c.duration as real {
      FrameChains(c, keys, m, v, o, dt, connected, joined);
    }
  }

  /** Frames run one after another: every frame gets its own keys, mouse, view and elapsed time. */
  datatype FrameInput = FrameInput(keys: Option<Direction>, mouse: Mouse, view: View, dt: real, connected: bool)

  function Frames(c: Client, o: Oracle, inputs: seq<FrameInput>): (r: (Client, seq<Input>))
    decreases |inputs|
  {
    if |inputs| == 0 then (c, [])
    else
      var f := inputs[0];
      var s := Frame(c, f.keys, f.mouse, f.view, o, f.dt, f.connected, true);
      var rest := Frames(s.client, o, inputs[1..]);
      (rest.0, s.sent + rest.1)
  }

  /** Every INPUT ever sent uses the next sequence number: they rise strictly by one. */
  lemma {:induction false} SequenceNumbersConsecutive(c: Client, o: Oracle, inputs: seq<FrameInput>)
    ensures var r := Frames(c, o, inputs);
            && Numbered(r.1, c.inputSeq) && r.0.inputSeq == c.inputSeq + |r.1|
    decreases |inputs|
  {
    if |inputs| > 0 {
      var f := inputs[0];
      var s := Frame(c, f.keys, f.mouse, f.view, o, f.dt, f.connected, true);
      SequenceNumbersConsecutive(s.client, o, inputs[1..]);
      var rest := Frames(s.client, o, inputs[1..]);
      forall i | 0 <= i < |s.sent + rest.1|
        ensures (s.sent + rest.1)[i].seqNo == c.inputSeq + i + 1
      {
        if i >= |s.sent| {
          assert (s.sent + rest.1)[i] == rest.1[i - |s.sent|];
        }
      }
    }
  }
}
