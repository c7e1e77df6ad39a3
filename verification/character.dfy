/**
 * The prototype's character base object
 * (src/components/game-objects/common/character-game-object.ts): its
 * flags, `hit` and the enable/disable switches. The Phaser sprite's
 * body, activity and visibility are plain flags.
 */
module Character {
  import opened Wrappers
  import opened Common
  import opened Life
  import opened StateMachine
  import opened InputComponent

  datatype Anim = IdleAnim(facing: Facing) | WalkAnim(facing: Facing) | HurtDownAnim

  /** What the character states change on the sprite: facing, body velocity, flip and animation. */
  datatype Sprite = Sprite(
    direction: Facing,
    hasBody: bool,
    velocity: (int, int),
    flipX: bool,
    animation: Option<Anim>)

  datatype Character = Character(
    isPlayer: bool,
    isDefeated: bool,
    invulnerable: bool,
    life: Life,
    machine: Machine,
    controls: Controls,
    sprite: Sprite,
    hurtCallbacks: nat,
    bodyEnabled: bool,
    active: bool,
    visible: bool)

  /**
   * A new character: not defeated, invulnerable only when asked, life from
   * the life component's defaults, an empty state machine, facing down.
   */
  function NewCharacter(isPlayer: bool, isInvulnerable: Option<bool>, maxLife: int, currentLife: Option<int>,
                        controls: Controls, hasBody: bool): (r: Character)
    ensures !r.isDefeated && r.isPlayer == isPlayer && IsEnemy(r) == !isPlayer
    ensures r.invulnerable == (isInvulnerable == Some(true))
    ensures r.life == NewLife(maxLife, currentLife) && r.machine == New()
    ensures r.bodyEnabled && r.active && r.visible
  {
    Character(isPlayer, false, isInvulnerable.GetOr(false), NewLife(maxLife, currentLife), New(), controls,
              Sprite(FaceDown, hasBody, (0, 0), false, None), 0, true, true, true)
  }

  predicate IsEnemy(c: Character) {
    !c.isPlayer
  }

  /**
   * `hit`: a defeated or invulnerable character ignores it; otherwise the
   * damage is taken, and at life 0 the character is defeated and asked to
   * die, else asked to be hurt from the attack direction.
   */
  function Hit(c: Character, attack: Facing, damage: int): (r: Character)
    ensures c.isDefeated || c.invulnerable ==> r == c
    ensures !c.isDefeated && !c.invulnerable ==>
              var l := TakeDamage(c.life, damage);
              && r.life == l
              && (l.life == 0 ==> r.isDefeated && r.machine == SetState(c.machine, DeathStateName, []))
              && (l.life != 0 ==> !r.isDefeated && r.machine == SetState(c.machine, HurtStateName, [attack]))
              && r == c.(life := l, isDefeated := r.isDefeated, machine := r.machine)
  {
    if c.isDefeated then c
    else if c.invulnerable then c
    else
      var l := TakeDamage(c.life, damage);
      if l.life == 0 then c.(life := l, isDefeated := true, machine := SetState(c.machine, DeathStateName, []))
      else c.(life := l, machine := SetState(c.machine, HurtStateName, [attack]))
  }

  /** A defeated character has no life left. */
  predicate Consistent(c: Character) {
    c.isDefeated ==> c.life.life == 0
  }

  /** A series of hits, as (direction, damage) pairs. */
  function Hits(c: Character, hits: seq<(Facing, int)>): (r: Character)
    decreases |hits|
  {
    if |hits| == 0 then c else Hits(Hit(c, hits[0].0, hits[0].1), hits[1..])
  }

  /**
   * Defeat is final and consistent: once defeated, a character stays
   * defeated with life 0 and nothing about it changes, whatever hits follow.
   */
  lemma {:induction false} DefeatIsFinal(c: Character, hits: seq<(Facing, int)>)
    requires Consistent(c)
    ensures Consistent(Hits(c, hits))
    ensures c.isDefeated ==> Hits(c, hits) == c
    decreases |hits|
  {
    if |hits| > 0 {
      DefeatIsFinal(Hit(c, hits[0].0, hits[0].1), hits[1..]);
    }
  }

  /** `disableObject`: body and activity off; enemies are also hidden. */
  function DisableObject(c: Character): (r: Character)
    ensures !r.bodyEnabled && !r.active
    ensures r.visible == (c.visible && c.isPlayer)
    ensures r == c.(bodyEnabled := false, active := false, visible := r.visible)
  {
    c.(bodyEnabled := false, active := false, visible := if c.isPlayer then c.visible else false)
  }

  /** `enableObject`: only a defeated character is switched back on. */
  function EnableObject(c: Character): (r: Character)
    ensures !c.isDefeated ==> r == c
    ensures c.isDefeated ==> r == c.(bodyEnabled := true, active := true, visible := true)
  {
    if !c.isDefeated then c else c.(bodyEnabled := true, active := true, visible := true)
  }

  /** Disabling then enabling a defeated character restores all three switches. */
  lemma DisableThenEnable(c: Character)
    requires c.isDefeated
    ensures var r := EnableObject(DisableObject(c)); r.bodyEnabled && r.active && r.visible
  {
  }
}
