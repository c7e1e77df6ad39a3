/**
 * Directions, tiles and the geometry every component shares
 * (shared/types.ts, plus the `setDirection` helper that the server's
 * player and enemy managers both define).
 */
module Types {
  import opened Wrappers

  /** The eight compass directions; the four two-word ones are the diagonals. */
  datatype Direction = Up | Down | Left | Right | UpLeft | UpRight | DownLeft | DownRight

  const AllDirections: seq<Direction> := [Up, Down, Left, Right, UpLeft, UpRight, DownLeft, DownRight]

  /** The kinds of entity the server and client know about. */
  datatype EntityType = PlayerType | Spider | Skeleton | Orc | Npc

  /**
   * Entity ids. The source formats them as the strings "p<n>" and "e<n>"
   * from two counters; the prefix is what keeps the two kinds apart.
   */
  datatype Id = PlayerId(n: nat) | EnemyId(n: nat)

  /**
   * Where `id` first appears in a table's id column, the entry a Map lookup
   * by key reaches (keys are unique there); none when it is absent.
   */
  function IndexOf(ids: seq<Id>, id: Id): (r: Option<nat>)
    ensures r.None? <==> id !in ids
    ensures r.Some? ==> r.value < |ids| && ids[r.value] == id && id !in ids[..r.value]
  {
    if |ids| == 0 then None
    else if ids[0] == id then Some(0)
    else
      match IndexOf(ids[1..], id)
      case None =>
        assert ids == [ids[0]] + ids[1..];
        None
      case Some(k) =>
        assert ids[..k + 1] == [ids[0]] + ids[1..][..k];
        Some(k + 1)
  }

  /** A step duration in milliseconds; every one the source uses is positive. */
  type Duration = d: int | d > 0 witness 400

  /** An integer tile coordinate. */
  datatype Tile = Tile(x: int, y: int)

  /** The server-side step state of players and enemies alike. */
  datatype MoveState = Idle | Moving

  /** The animation name a state snapshot carries. */
  datatype Animation = IdleAnim | WalkAnim | AttackAnim | DeadAnim

  /** DIR_DX: the column step of each direction. */
  function DirDx(d: Direction): (r: int)
    ensures r == 0 <==> d == Up || d == Down
    ensures r == 1 <==> d == Right || d == UpRight || d == DownRight
    ensures r == -1 <==> d == Left || d == UpLeft || d == DownLeft
  {
    match d
    case Up => 0
    case Down => 0
    case Left => -1
    case Right => 1
    case UpLeft => -1
    case UpRight => 1
    case DownLeft => -1
    case DownRight => 1
  }

  /** DIR_DY: the row step of each direction (rows grow downwards). */
  function DirDy(d: Direction): (r: int)
    ensures r == 0 <==> d == Left || d == Right
    ensures r == -1 <==> d == Up || d == UpLeft || d == UpRight
    ensures r == 1 <==> d == Down || d == DownLeft || d == DownRight
  {
    match d
    case Up => -1
    case Down => 1
    case Left => 0
    case Right => 0
    case UpLeft => -1
    case UpRight => -1
    case DownLeft => 1
    case DownRight => 1
  }

  predicate IsDiagonal(d: Direction) {
    d.UpLeft? || d.UpRight? || d.DownLeft? || d.DownRight?
  }

  /** A step delta that some direction has: both parts in {-1,0,1}, not both zero. */
  predicate IsUnitStep(dx: int, dy: int) {
    -1 <= dx <= 1 && -1 <= dy <= 1 && (dx != 0 || dy != 0)
  }

  function Offset(t: Tile, dx: int, dy: int): Tile {
    Tile(t.x + dx, t.y + dy)
  }

  function Step(t: Tile, d: Direction): Tile {
    Offset(t, DirDx(d), DirDy(d))
  }

  /** Math.sign on integers. */
  function Sign(v: int): int {
    if v > 0 then 1 else if v < 0 then -1 else 0
  }

  function Abs(v: int): nat {
    if v < 0 then -v else v
  }

  /** max(|dx|, |dy|): every range test of the game uses this distance. */
  function Chebyshev(a: Tile, b: Tile): nat {
    var ax := Abs(a.x - b.x);
    var ay := Abs(a.y - b.y);
    if ax >= ay then ax else ay
  }

  /**
   * `setDirection(entity, dx, dy)`: the facing after a move or attack with
   * delta (dx, dy). A zero delta leaves the current facing; otherwise the
   * facing is the direction whose table delta is the sign of the delta.
   */
  function Face(current: Direction, dx: int, dy: int): (r: Direction)
    ensures dx == 0 && dy == 0 ==> r == current
    ensures dx != 0 || dy != 0 ==> DirDx(r) == Sign(dx) && DirDy(r) == Sign(dy)
  {
    if dx > 0 && dy < 0 then UpRight
    else if dx < 0 && dy < 0 then UpLeft
    else if dx > 0 && dy > 0 then DownRight
    else if dx < 0 && dy > 0 then DownLeft
    else if dx > 0 then Right
    else if dx < 0 then Left
    else if dy < 0 then Up
    else if dy > 0 then Down
    else current
  }

  /** Every direction's delta is a unit step, never (0, 0). */
  lemma DeltaIsUnitStep(d: Direction)
    ensures IsUnitStep(DirDx(d), DirDy(d))
  {
  }

  /** Distinct directions have distinct deltas. */
  lemma DeltaInjective(d1: Direction, d2: Direction)
    requires DirDx(d1) == DirDx(d2) && DirDy(d1) == DirDy(d2)
    ensures d1 == d2
  {
  }

  /** Every unit step is the delta of some direction, so the tables are a bijection. */
  lemma DeltaSurjective(dx: int, dy: int)
    requires IsUnitStep(dx, dy)
    ensures exists d :: DirDx(d) == dx && DirDy(d) == dy
  {
    var d := Face(Down, dx, dy);
    assert DirDx(d) == dx && DirDy(d) == dy;
  }

  /** The diagonals are exactly the directions that move along both axes. */
  lemma DiagonalIffBothAxes(d: Direction)
    ensures IsDiagonal(d) <==> DirDx(d) != 0 && DirDy(d) != 0
  {
  }

  /** Facing along a direction's own delta selects that direction, whatever the old facing. */
  lemma FaceRoundTrip(current: Direction, d: Direction)
    ensures Face(current, DirDx(d), DirDy(d)) == d
  {
    DeltaIsUnitStep(d);
    DeltaInjective(Face(current, DirDx(d), DirDy(d)), d);
  }

  /** The direction list holds each of the eight directions once. */
  lemma AllDirectionsComplete(d: Direction)
    ensures d in AllDirections
    ensures multiset(AllDirections)[d] == 1
  {
  }

  /** Chebyshev distance is symmetric and zero only on the same tile. */
  lemma ChebyshevBasics(a: Tile, b: Tile)
    ensures Chebyshev(a, b) == Chebyshev(b, a)
    ensures Chebyshev(a, b) == 0 <==> a == b
  {
  }
}
