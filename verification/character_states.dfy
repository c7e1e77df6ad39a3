/**
 * The prototype's character states
 * (src/components/state-machine/states/character/): what the idle, move
 * and hurt states do to their character, and which state they ask for
 * next. A state's request for another state is returned rather than
 * applied.
 */
module CharacterStates {
  import opened Wrappers
  import opened Common
  import opened InputComponent
  import opened Character

  /** The sprite after a callback, and the state it asks the machine for. */
  datatype Reaction = Reaction(sprite: Sprite, request: Option<string>)

  /** The velocity, when the sprite has a physics body. */
  function WithVelocity(s: Sprite, vx: int, vy: int): Sprite {
    if s.hasBody then s.(velocity := (vx, vy)) else s
  }

  // ---------------------------------------------------------------------
  // Idle
  // ---------------------------------------------------------------------

  /** Idle `onEnter`: the idle animation of the current facing, and the body stops. */
  function IdleEnter(s: Sprite): (r: Sprite)
    ensures r.animation == Some(IdleAnim(s.direction))
    ensures r.velocity == (if s.hasBody then (0, 0) else s.velocity)
    ensures r == s.(animation := r.animation, velocity := r.velocity)
  {
    WithVelocity(s.(animation := Some(IdleAnim(s.direction))), 0, 0)
  }

  /** Idle `onUpdate`: any held direction asks for the move state; otherwise nothing happens. */
  function IdleUpdate(s: Sprite, k: Controls): (r: Reaction)
    ensures r.sprite == s
    ensures r.request.Some? <==> AnyDirection(k)
    ensures r.request.Some? ==> r.request.value == MoveStateName
  {
    if !AnyDirection(k) then Reaction(s, None) else Reaction(s, Some(MoveStateName))
  }

  // ---------------------------------------------------------------------
  // Move
  // ---------------------------------------------------------------------

  /** The facing a move update chooses: vertical flags first; a horizontal flag only without a vertical one. */
  function MoveFacing(k: Controls, current: Facing): (r: Facing)
    ensures k.up ==> r == FaceUp
    ensures !k.up && k.down ==> r == FaceDown
    ensures !k.up && !k.down && k.left ==> r == FaceLeft
    ensures !k.up && !k.down && !k.left && k.right ==> r == FaceRight
    ensures !AnyDirection(k) ==> r == current
  {
    if k.up then FaceUp
    else if k.down then FaceDown
    else if k.left then FaceLeft
    else if k.right then FaceRight
    else current
  }

  /** The vertical half of a move update: up beats down; a facing change plays the walk animation. */
  function MoveVertical(s: Sprite, k: Controls): (r: Sprite)
    ensures r.velocity == (if s.hasBody then (s.velocity.0, if k.up then -1 else if k.down then 1 else 0) else s.velocity)
    ensures r.direction == (if k.up then FaceUp else if k.down then FaceDown else s.direction)
    ensures r.animation == (if k.up || k.down then Some(WalkAnim(r.direction)) else s.animation)
    ensures r == s.(velocity := r.velocity, direction := r.direction, animation := r.animation)
  {
    if k.up then WithVelocity(s, s.velocity.0, -1).(direction := FaceUp, animation := Some(WalkAnim(FaceUp)))
    else if k.down then WithVelocity(s, s.velocity.0, 1).(direction := FaceDown, animation := Some(WalkAnim(FaceDown)))
    else WithVelocity(s, s.velocity.0, 0)
  }

  /**
   * The horizontal half: left beats right and flips the sprite; the facing
   * turns sideways only when no vertical flag is held.
   */
  function MoveHorizontal(s: Sprite, k: Controls): (r: Sprite)
    ensures r.velocity == (if s.hasBody then (if k.left then -1 else if k.right then 1 else 0, s.velocity.1) else s.velocity)
    ensures r.flipX == (if k.left then true else if k.right then false else s.flipX)
    ensures var sideways := !k.up && !k.down;
            && r.direction == (if sideways && k.left then FaceLeft else if sideways && k.right then FaceRight else s.direction)
            && r.animation == (if sideways && (k.left || k.right) then Some(WalkAnim(r.direction)) else s.animation)
    ensures r == s.(velocity := r.velocity, direction := r.direction, flipX := r.flipX, animation := r.animation)
  {
    var vertical := k.up || k.down;
    if k.left then
      var f := WithVelocity(s.(flipX := true), -1, s.velocity.1);
      if !vertical then f.(direction := FaceLeft, animation := Some(WalkAnim(FaceLeft))) else f
    else if k.right then
      var f := WithVelocity(s.(flipX := false), 1, s.velocity.1);
      if !vertical then f.(direction := FaceRight, animation := Some(WalkAnim(FaceRight))) else f
    else WithVelocity(s, 0, s.velocity.1)
  }

  /**
   * Move `onUpdate`: with no flag held the idle state is requested; the
   * vertical and then the horizontal half set the velocity's signs, the
   * facing and the flip. The velocity holds the sign of each component:
   * normalisation and scaling by the speed keep signs.
   */
  function MoveUpdate(s: Sprite, k: Controls): (r: Reaction)
    ensures var sy := if k.up then -1 else if k.down then 1 else 0;
            var sx := if k.left then -1 else if k.right then 1 else 0;
            r.sprite.velocity == (if s.hasBody then (sx, sy) else s.velocity)
    ensures r.sprite.direction == MoveFacing(k, s.direction)
    ensures r.sprite.flipX == (if k.left then true else if k.right then false else s.flipX)
    ensures r.sprite.animation == (if AnyDirection(k) then Some(WalkAnim(r.sprite.direction)) else s.animation)
    ensures r.sprite.hasBody == s.hasBody
    ensures r.request.Some? <==> !AnyDirection(k)
    ensures r.request.Some? ==> r.request.value == IdleStateName
  {
    var request := if !AnyDirection(k) then Some(IdleStateName) else None;
    Reaction(MoveHorizontal(MoveVertical(s, k), k), request)
  }

  /** The move update's velocity points the way the sprite faces, unless it moves diagonally. */
  lemma MoveFacesVelocity(s: Sprite, k: Controls)
    requires s.hasBody && AnyDirection(k)
    ensures var r := MoveUpdate(s, k).sprite;
            && (r.direction == FaceUp ==> r.velocity.1 < 0)
            && (r.direction == FaceDown ==> r.velocity.1 > 0)
            && (r.direction == FaceLeft ==> r.velocity == (-1, 0))
            && (r.direction == FaceRight ==> r.velocity == (1, 0))
  {
  }

  /** Idle and move agree on when a character should be moving. */
  lemma IdleMoveAgree(s: Sprite, k: Controls)
    ensures IdleUpdate(s, k).request.Some? <==> MoveUpdate(s, k).request.None?
  {
  }

  // ---------------------------------------------------------------------
  // Hurt
  // ---------------------------------------------------------------------

  datatype HurtState = HurtState(pushBackSpeed: int, nextState: string)

  /** The next state defaults to idle. */
  function NewHurtState(pushBackSpeed: int, nextState: Option<string>): (r: HurtState)
    ensures r.pushBackSpeed == pushBackSpeed
    ensures r.nextState == (if nextState.Some? then nextState.value else IdleStateName)
  {
    HurtState(pushBackSpeed, nextState.GetOr(IdleStateName))
  }

  /**
   * The push-back of a hit from each direction. LEFT negates the speed
   * twice and so pushes the same way as RIGHT.
   */
  function PushBack(speed: int, attack: Facing): (r: (int, int))
    ensures attack == FaceUp ==> r == (0, -speed)
    ensures attack == FaceDown ==> r == (0, speed)
    ensures attack == FaceLeft || attack == FaceRight ==> r == (speed, 0)
  {
    match attack
    case FaceUp => (0, speed * -1)
    case FaceDown => (0, speed)
    case FaceLeft => (-speed * -1, 0)
    case FaceRight => (speed, 0)
  }

  /**
   * Hurt `onEnter`: the body is pushed back (from rest), the character
   * becomes invulnerable, the hurt callback runs once and the hurt
   * animation plays. No state is requested yet.
   */
  function HurtEnter(h: HurtState, c: Character, attack: Facing): (r: Character)
    ensures r.invulnerable && r.hurtCallbacks == c.hurtCallbacks + 1
    ensures r.sprite.animation == Some(HurtDownAnim)
    ensures r.sprite.velocity == (if c.sprite.hasBody then PushBack(h.pushBackSpeed, attack) else c.sprite.velocity)
    ensures r.sprite == c.sprite.(velocity := r.sprite.velocity, animation := Some(HurtDownAnim))
    ensures r == c.(sprite := r.sprite, invulnerable := true, hurtCallbacks := c.hurtCallbacks + 1)
  {
    var push := PushBack(h.pushBackSpeed, attack);
    var pushed := WithVelocity(WithVelocity(c.sprite, 0, 0), push.0, push.1);
    c.(sprite := pushed.(animation := Some(HurtDownAnim)), invulnerable := true, hurtCallbacks := c.hurtCallbacks + 1)
  }

  /** The delayed end of the push-back: the body comes to rest. */
  function PushBackEnds(s: Sprite): (r: Sprite)
    ensures r.velocity == (if s.hasBody then (0, 0) else s.velocity)
    ensures r == s.(velocity := r.velocity)
  {
    WithVelocity(s, 0, 0)
  }

  /** The hurt animation completes: the next state is requested; invulnerability stays for now. */
  function HurtAnimationDone(h: HurtState, s: Sprite): (r: Reaction)
    ensures r.sprite == s && r.request == Some(h.nextState)
  {
    Reaction(s, Some(h.nextState))
  }

  /** The delayed callback after the hurt animation clears invulnerability. */
  function InvulnerabilityEnds(c: Character): (r: Character)
    ensures !r.invulnerable && r == c.(invulnerable := false)
  {
    c.(invulnerable := false)
  }

  /**
   * While hurt a character ignores hits: from entering the hurt state
   * until the delayed callback, `hit` changes nothing.
   */
  lemma HurtShieldsFromHits(h: HurtState, c: Character, attack: Facing, next: Facing, damage: int)
    ensures var hurt := HurtEnter(h, c, attack);
            Hit(hurt, next, damage) == hurt
  {
  }

  /** After the delayed callback, a live character takes the damage of the next hit. */
  lemma HitAfterRecovery(h: HurtState, c: Character, attack: Facing, next: Facing, damage: int)
    requires !c.isDefeated
    ensures var back := InvulnerabilityEnds(HurtEnter(h, c, attack));
            Hit(back, next, damage).life == Life.TakeDamage(c.life, damage)
  {
  }
}
