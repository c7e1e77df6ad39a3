/**
 * Shared vocabulary of the single-player prototype (src/common/common.ts):
 * the four facing directions, the chest states, and the names under which
 * character states are registered.
 */
module Common {
  /** The prototype's four-way DIRECTION (distinct from the multiplayer eight-way one). */
  datatype Facing = FaceUp | FaceDown | FaceLeft | FaceRight

  datatype ChestState = Hidden | Revealed | Open

  /** Character state names; each state registers under its own name. */
  const IdleStateName: string := "IDLE_STATE"
  const MoveStateName: string := "MOVE_STATE"
  const HurtStateName: string := "HURT_STATE"
  const DeathStateName: string := "DEATH_STATE"
}
