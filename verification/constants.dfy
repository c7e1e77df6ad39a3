/**
 * The tuning constants shared by the server and the client
 * (shared/constants.ts), plus the step-height constant of the terrain
 * rules. All durations are in milliseconds, all distances in tiles.
 */
module Constants {

  const WorldTilesX: int := 8000
  const WorldTilesY: int := 8000

  const TickRate: int := 20
  /** 1000 / TICK_RATE; exactly 50, so server timers stay integral. */
  const TickMs: int := 50

  const PlayerWalkMs: int := 400
  const PlayerRunMs: int := 200
  const PlayerMaxHealth: int := 50
  const PlayerAttack: int := 8
  const PlayerDefense: int := 3

  const SpiderMoveMs: int := 700
  const SpiderHealth: int := 20
  const SpiderAttack: int := 4
  const SpiderAggroRange: int := 6

  const SkeletonMoveMs: int := 900
  const SkeletonHealth: int := 35
  const SkeletonAttack: int := 7
  const SkeletonAggroRange: int := 7

  const OrcMoveMs: int := 600
  const OrcHealth: int := 45
  const OrcAttack: int := 10
  const OrcAggroRange: int := 8

  const MeleeRange: int := 1
  const AttackCooldownMs: int := 1200

  const WanderIntervalMs: int := 2000
  const LeashRange: int := 12
  const RespawnMs: int := 10000

  /** Largest elevation difference between two tiles that can still be walked. */
  const StepHeight: int := 4
}
