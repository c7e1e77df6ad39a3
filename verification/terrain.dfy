/**
 * The terrain oracle (shared/terrain.ts): the generator state step, the
 * biome ladder, walkability, elevation and the step-height rule.
 *
 * The fractal noise itself is floating point and is taken as an
 * uninterpreted input: a `Noise` value supplies the raw elevation and
 * moisture noise of every tile. Everything derived from it below is exact
 * (noise arithmetic is modelled on `real`).
 */
module Terrain {
  import opened Constants
  import opened Types

  // ---------------------------------------------------------------------
  // The Park-Miller "minimal standard" generator state step
  // ---------------------------------------------------------------------

  const Modulus: int := 2147483647
  const Multiplier: int := 16807
  const TerrainSeed: int := 42

  /**
   * JavaScript's `x % 2147483647`: it truncates toward zero, so the
   * remainder takes the sign of the dividend (Dafny's `%` never does).
   */
  function JsRemModulus(a: int): (r: int)
    ensures a >= 0 ==> 0 <= r < Modulus
    ensures a < 0 ==> -Modulus < r <= 0
    ensures (a - r) % Modulus == 0
  {
    if a >= 0 then a % Modulus else -((-a) % Modulus)
  }

  /** One step of `seededRandom`'s closure: s := (s * 16807 + 0) % 2147483647. */
  function NextState(s: int): (r: int)
    ensures s >= 0 ==> r == (s * Multiplier) % Modulus
    ensures s < 0 ==> -Modulus < r <= 0
  {
    JsRemModulus(s * Multiplier + 0)
  }

  /** The states the generator passes through on its first n draws from `seed`. */
  function States(seed: int, n: nat): (r: seq<int>)
    ensures |r| == n
  {
    if n == 0 then [] else
      var prev := States(seed, n - 1);
      prev + [NextState(if n == 1 then seed else prev[n - 2])]
  }

  /** A non-negative state steps to a state in [0, 2147483646], and 0 is a fixed point. */
  lemma NextStateRange(s: int)
    ensures s >= 0 ==> 0 <= NextState(s) <= Modulus - 1
    ensures s == 0 ==> NextState(s) == 0
    ensures (s * Multiplier - NextState(s)) % Modulus == 0
  {
  }

  /**
   * On states the generator can reach, the product s * 16807 stays below
   * 2^53, so the double-precision arithmetic of the source is exact and the
   * integer model loses nothing.
   */
  lemma ProductExactInDouble(s: int)
    requires 0 <= s <= Modulus - 1
    ensures 0 <= s * Multiplier < 0x20_0000_0000_0000
  {
  }

  /** Each state is the step of the one before it (the first is the step of the seed). */
  lemma {:induction false} StatesChain(seed: int, n: nat, i: nat)
    requires i < n
    ensures States(seed, n)[i] == NextState(if i == 0 then seed else States(seed, n)[i - 1])
  {
    if i < n - 1 {
      StatesPrefix(seed, n - 1, n);
      StatesChain(seed, n - 1, i);
    }
  }

  /**
   * Drawing more values never changes the ones already drawn: the state
   * sequence is a function of the seed alone, with no hidden state.
   */
  lemma {:induction false} StatesPrefix(seed: int, m: nat, n: nat)
    requires m <= n
    ensures States(seed, m) == States(seed, n)[..m]
  {
    if m < n {
      StatesPrefix(seed, m, n - 1);
      assert States(seed, n)[..n - 1] == States(seed, n - 1);
    }
  }

  /** From a non-negative seed every state lies in [0, 2147483646]. */
  lemma {:induction false} StatesInRange(seed: int, n: nat)
    requires seed >= 0
    ensures forall i :: 0 <= i < n ==> 0 <= States(seed, n)[i] <= Modulus - 1
  {
    if n > 0 {
      StatesInRange(seed, n - 1);
      var prev := States(seed, n - 1);
      NextStateRange(if n == 1 then seed else prev[n - 2]);
    }
  }

  /** Seed 0 is absorbing: every state drawn from it is 0. */
  lemma {:induction false} ZeroSeedIsFixed(n: nat)
    ensures forall i :: 0 <= i < n ==> States(0, n)[i] == 0
  {
    if n > 0 {
      ZeroSeedIsFixed(n - 1);
      var prev := States(0, n - 1);
      NextStateRange(if n == 1 then 0 else prev[n - 2]);
    }
  }

  // ---------------------------------------------------------------------
  // Biomes
  // ---------------------------------------------------------------------

  datatype TileType = DeepWater | ShallowWater | Sand | GrassLight | Grass | GrassDark | Dirt | Rock | Forest

  /**
   * The raw fractal noise of the world: `elevation(x, y)` stands for
   * fbmNoise(x*0.08, y*0.08, 42, 4) and `moisture(x, y)` for
   * fbmNoise(x*0.06+50, y*0.06+50, 542, 3).
   */
  datatype Noise = Noise(elevation: (int, int) -> real, moisture: (int, int) -> real)

  function Min(a: int, b: int): int {
    if a <= b then a else b
  }

  /** Tiles between (x, y) and the nearest world edge (negative outside the world). */
  function EdgeDist(x: int, y: int): int {
    Min(Min(x, y), Min(WorldTilesX - 1 - x, WorldTilesY - 1 - y))
  }

  /** min(edgeDist / 4, 1): ramps from 0 on the border to 1 four tiles in. */
  function EdgeFade(x: int, y: int): real {
    var f := EdgeDist(x, y) as real / 4.0;
    if f <= 1.0 then f else 1.0
  }

  /** The faded elevation `e` that both the biome and the elevation are read from. */
  function Faded(n: Noise, x: int, y: int): real {
    n.elevation(x, y) * EdgeFade(x, y)
  }

  /** The threshold ladder on faded elevation, refined by moisture. */
  function Biome(e: real, moisture: real): (t: TileType)
    ensures t == DeepWater <==> e < 0.2
    ensures IsWater(t) <==> e < 0.3
    ensures t == Sand <==> 0.3 <= e < 0.35
    ensures t == GrassDark || t == Grass || t == GrassLight <==> 0.35 <= e < 0.55
    ensures t == Forest || t == Dirt <==> 0.55 <= e < 0.7
    ensures t == Rock <==> 0.7 <= e
  {
    if e < 0.2 then DeepWater
    else if e < 0.3 then ShallowWater
    else if e < 0.35 then Sand
    else if e < 0.55 then
      (if moisture > 0.6 then GrassDark else if moisture > 0.4 then Grass else GrassLight)
    else if e < 0.7 then (if moisture > 0.5 then Forest else Dirt)
    else Rock
  }

  /** getTileType(x, y). */
  function TileTypeAt(n: Noise, x: int, y: int): (t: TileType)
    ensures IsWater(t) <==> Faded(n, x, y) < 0.3
    ensures t == Rock <==> 0.7 <= Faded(n, x, y)
  {
    Biome(Faded(n, x, y), n.moisture(x, y))
  }

  predicate IsWater(t: TileType) {
    t == DeepWater || t == ShallowWater
  }

  /** isTerrainWalkable(x, y). */
  function TerrainWalkable(n: Noise, x: int, y: int): (b: bool)
    ensures b <==> !IsWater(TileTypeAt(n, x, y))
    ensures b <==> 0.3 <= Faded(n, x, y)
  {
    var t := TileTypeAt(n, x, y);
    t != DeepWater && t != ShallowWater
  }

  /** The height band of a biome: the rung of the ladder it sits on. */
  function Band(t: TileType): nat {
    match t
    case DeepWater => 0
    case ShallowWater => 1
    case Sand => 2
    case GrassLight => 3
    case Grass => 3
    case GrassDark => 3
    case Dirt => 4
    case Forest => 4
    case Rock => 5
  }

  /**
   * The ladder is total and ordered: a higher faded elevation never lands on
   * a lower rung, whatever the moisture of either tile.
   */
  lemma BiomeMonotone(e1: real, m1: real, e2: real, m2: real)
    requires e1 <= e2
    ensures Band(Biome(e1, m1)) <= Band(Biome(e2, m2))
  {
  }

  /** A tile is walkable exactly when its faded elevation reaches 0.3. */
  lemma WalkableIffHighEnough(n: Noise, x: int, y: int)
    ensures TerrainWalkable(n, x, y) <==> Faded(n, x, y) >= 0.3
  {
  }

  /** Every tile on the world's border fades to 0 and is deep water, whatever the noise. */
  lemma BorderIsDeepWater(n: Noise, x: int, y: int)
    requires 0 <= x <= WorldTilesX - 1 && 0 <= y <= WorldTilesY - 1
    requires x == 0 || y == 0 || x == WorldTilesX - 1 || y == WorldTilesY - 1
    ensures EdgeFade(x, y) == 0.0
    ensures TileTypeAt(n, x, y) == DeepWater
  {
    assert EdgeDist(x, y) == 0;
  }

  /**
   * While the raw elevation noise is non-negative (fbm noise lies in [0, 1)
   * up to a 5e-10 undershoot), a walkable tile lies strictly inside the
   * world: one tile in from every edge.
   */
  lemma WalkableIsInterior(n: Noise, x: int, y: int)
    requires n.elevation(x, y) >= 0.0
    requires TerrainWalkable(n, x, y)
    ensures 1 <= x <= WorldTilesX - 2 && 1 <= y <= WorldTilesY - 2
  {
    if !(1 <= x <= WorldTilesX - 2 && 1 <= y <= WorldTilesY - 2) {
      assert EdgeDist(x, y) <= 0;
      assert EdgeFade(x, y) <= 0.0;
      NonNegTimesNonPos(n.elevation(x, y), EdgeFade(x, y));
      assert false;
    }
  }

  lemma NonNegTimesNonPos(a: real, b: real)
    requires a >= 0.0 && b <= 0.0
    ensures a * b <= 0.0
  {
  }

  // ---------------------------------------------------------------------
  // Elevation
  // ---------------------------------------------------------------------

  /** JavaScript's Math.round: rounds half-way values up. */
  function Round(r: real): int {
    (r + 0.5).Floor
  }

  function Clamp(lo: int, hi: int, v: int): int
    requires lo <= hi
  {
    if v < lo then lo else if v > hi then hi else v
  }

  /** The unclamped continuous remap round(1 + (e - 0.28) * 12). */
  function RawZ(e: real): int {
    Round(1.0 + (e - 0.28) * 12.0)
  }

  /** getTileElevation(x, y): 0 for water, the clamped remap of faded elevation otherwise. */
  function Elevation(n: Noise, x: int, y: int): (z: int)
    ensures 0 <= z <= 15
    ensures z == 0 <==> !TerrainWalkable(n, x, y)
  {
    if !TerrainWalkable(n, x, y) then 0
    else Clamp(1, 15, RawZ(Faded(n, x, y)))
  }

  /**
   * On land, elevation only depends on faded elevation and never decreases
   * as it rises, so a biome boundary cannot introduce a cliff.
   */
  lemma ElevationMonotone(n: Noise, x1: int, y1: int, x2: int, y2: int)
    requires TerrainWalkable(n, x1, y1) && TerrainWalkable(n, x2, y2)
    requires Faded(n, x1, y1) <= Faded(n, x2, y2)
    ensures Elevation(n, x1, y1) <= Elevation(n, x2, y2)
  {
    RoundMonotone(1.0 + (Faded(n, x1, y1) - 0.28) * 12.0, 1.0 + (Faded(n, x2, y2) - 0.28) * 12.0);
  }

  lemma RoundMonotone(a: real, b: real)
    requires a <= b
    ensures Round(a) <= Round(b)
  {
  }

  /**
   * Between two land tiles the elevation gap is at most 12 times the gap in
   * faded elevation, plus one for rounding.
   */
  lemma ElevationLipschitz(n: Noise, x1: int, y1: int, x2: int, y2: int)
    requires TerrainWalkable(n, x1, y1) && TerrainWalkable(n, x2, y2)
    requires Faded(n, x1, y1) <= Faded(n, x2, y2)
    ensures (Elevation(n, x2, y2) - Elevation(n, x1, y1)) as real <= 12.0 * (Faded(n, x2, y2) - Faded(n, x1, y1)) + 1.0
  {
    var a := 1.0 + (Faded(n, x1, y1) - 0.28) * 12.0;
    var b := 1.0 + (Faded(n, x2, y2) - 0.28) * 12.0;
    RoundMonotone(a, b);
    assert (Round(b) - Round(a)) as real < b - a + 1.0;
  }

  /** isElevationWalkable: the elevation gap between the two tiles is at most STEP_HEIGHT. */
  function ElevationWalkable(n: Noise, fromX: int, fromY: int, toX: int, toY: int): (b: bool)
    ensures b <==> Elevation(n, toX, toY) <= Elevation(n, fromX, fromY) + StepHeight
                   && Elevation(n, fromX, fromY) <= Elevation(n, toX, toY) + StepHeight
    ensures fromX == toX && fromY == toY ==> b
  {
    Abs(Elevation(n, fromX, fromY) - Elevation(n, toX, toY)) <= StepHeight
  }

  /** The step rule is the two-sided bound |z(a) - z(b)| <= 4, hence reflexive and symmetric. */
  lemma ElevationWalkableProperties(n: Noise, x1: int, y1: int, x2: int, y2: int)
    ensures ElevationWalkable(n, x1, y1, x2, y2) <==>
      -StepHeight <= Elevation(n, x1, y1) - Elevation(n, x2, y2) <= StepHeight
    ensures ElevationWalkable(n, x1, y1, x1, y1)
    ensures ElevationWalkable(n, x1, y1, x2, y2) == ElevationWalkable(n, x2, y2, x1, y1)
  {
  }

  /** Water tiles sit at 0 and land at most 15, so water to low land (z <= 4) is always in step. */
  lemma WaterToLowLandInStep(n: Noise, x1: int, y1: int, x2: int, y2: int)
    requires !TerrainWalkable(n, x1, y1)
    ensures ElevationWalkable(n, x1, y1, x2, y2) <==> Elevation(n, x2, y2) <= StepHeight
  {
  }
}

/**
 * The terrain oracle as the simulation consults it. Server and client never
 * exchange terrain; both evaluate the same oracle, `OracleOf(noise)`, so
 * every walkability and elevation decision they take agrees.
 */
module Oracles {
  import opened Constants
  import opened Types
  import opened Terrain

  datatype Oracle = Oracle(walkable: (int, int) -> bool, elevation: (int, int) -> int)

  function OracleOf(n: Noise): (o: Oracle)
    ensures forall x, y :: o.walkable(x, y) == TerrainWalkable(n, x, y)
    ensures forall x, y :: o.elevation(x, y) == Elevation(n, x, y)
  {
    Oracle((x, y) => TerrainWalkable(n, x, y), (x, y) => Elevation(n, x, y))
  }

  /** isElevationWalkable read through the oracle. */
  function InStep(o: Oracle, fromX: int, fromY: int, toX: int, toY: int): (b: bool)
    ensures b ==> o.elevation(toX, toY) <= o.elevation(fromX, fromY) + StepHeight
    ensures b ==> o.elevation(fromX, fromY) <= o.elevation(toX, toY) + StepHeight
    ensures fromX == toX && fromY == toY ==> b
  {
    Abs(o.elevation(fromX, fromY) - o.elevation(toX, toY)) <= StepHeight
  }

  lemma InStepAgrees(n: Noise, fromX: int, fromY: int, toX: int, toY: int)
    ensures InStep(OracleOf(n), fromX, fromY, toX, toY) == ElevationWalkable(n, fromX, fromY, toX, toY)
  {
  }
}
