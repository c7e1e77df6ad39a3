/**
 * The WASD keyboard state of the client (client/src/input/keyboard.ts):
 * key presses, chat-mode gating and the held direction.
 */
module Keyboard {
  import opened Wrappers
  import opened Types

  datatype Key = W | A | S | D

  datatype Keys = Keys(w: bool, a: bool, s: bool, d: bool)

  datatype Input = Input(keys: Keys, chatMode: bool)

  const Released := Keys(false, false, false, false)

  function Initial(): (r: Input)
    ensures !IsMoving(r) && !r.chatMode
  {
    Input(Released, false)
  }

  function Held(k: Keys, key: Key): bool {
    match key
    case W => k.w
    case A => k.a
    case S => k.s
    case D => k.d
  }

  /** The key state with one key set to `down`; the other three keep their state. */
  function Set(k: Keys, key: Key, down: bool): (r: Keys)
    ensures Held(r, key) == down
    ensures forall other :: other != key ==> Held(r, other) == Held(k, other)
  {
    match key
    case W => k.(w := down)
    case A => k.(a := down)
    case S => k.(s := down)
    case D => k.(d := down)
  }

  /** A key-down of a key other than W, A, S, D (in either case) is None. */
  function KeyDown(i: Input, key: Option<Key>): (r: Input)
    ensures i.chatMode ==> r == i
    ensures !i.chatMode && key.Some? ==> r == i.(keys := Set(i.keys, key.value, true))
    ensures key.None? ==> r == i
  {
    if i.chatMode then i
    else match key
      case None => i
      case Some(k) => i.(keys := Set(i.keys, k, true))
  }

  /** A key-up is applied in chat mode too. */
  function KeyUp(i: Input, key: Option<Key>): (r: Input)
    ensures key.Some? ==> r == i.(keys := Set(i.keys, key.value, false))
    ensures key.None? ==> r == i
  {
    match key
    case None => i
    case Some(k) => i.(keys := Set(i.keys, k, false))
  }

  /** `isMoving`: some WASD key is held. */
  function IsMoving(i: Input): (b: bool)
    ensures b <==> i.keys != Released
    ensures b <==> exists key :: Held(i.keys, key)
  {
    assert Held(i.keys, W) == i.keys.w && Held(i.keys, A) == i.keys.a;
    assert Held(i.keys, S) == i.keys.s && Held(i.keys, D) == i.keys.d;
    i.keys.w || i.keys.a || i.keys.s || i.keys.d
  }

  /**
   * `getDirection`: the four diagonals first (W+A, W+D, S+A, S+D), then
   * W, S, A, D alone.
   */
  function GetDirection(i: Input): (r: Option<Direction>)
    ensures r.None? <==> !IsMoving(i)
  {
    var k := i.keys;
    if k.w && k.a then Some(UpLeft)
    else if k.w && k.d then Some(UpRight)
    else if k.s && k.a then Some(DownLeft)
    else if k.s && k.d then Some(DownRight)
    else if k.w then Some(Up)
    else if k.s then Some(Down)
    else if k.a then Some(Left)
    else if k.d then Some(Right)
    else None
  }

  /**
   * The direction as a step: W beats S on the vertical axis and A beats D
   * on the horizontal one; each held key of the winning pair contributes
   * its unit.
   */
  lemma DirectionDelta(i: Input)
    requires IsMoving(i)
    ensures var d := GetDirection(i).value; var k := i.keys;
            && DirDy(d) == (if k.w then -1 else if k.s then 1 else 0)
            && DirDx(d) == (if k.a then -1 else if k.d then 1 else 0)
  {
  }

  /** Opposite keys do not cancel: W+S is up and A+D is left. */
  lemma OppositeKeys(i: Input)
    ensures i.keys == Keys(true, false, true, false) ==> GetDirection(i) == Some(Up)
    ensures i.keys == Keys(false, true, false, true) ==> GetDirection(i) == Some(Left)
  {
  }

  /** `setChatMode`: entering chat releases every key; leaving it keeps them. */
  function SetChatMode(i: Input, active: bool): (r: Input)
    ensures r.chatMode == active
    ensures active ==> !IsMoving(r) && GetDirection(r).None?
    ensures !active ==> r.keys == i.keys
  {
    if active then Input(Released, true) else i.(chatMode := false)
  }

  /** In chat mode no key press changes anything, however many arrive. */
  lemma {:induction false} ChatBlocksMovement(i: Input, presses: seq<Option<Key>>)
    requires i.chatMode
    ensures var r := PressAll(i, presses); r == i
    decreases |presses|
  {
    if |presses| > 0 {
      ChatBlocksMovement(KeyDown(i, presses[0]), presses[1..]);
    }
  }

  function PressAll(i: Input, presses: seq<Option<Key>>): Input
    decreases |presses|
  {
    if |presses| == 0 then i else PressAll(KeyDown(i, presses[0]), presses[1..])
  }
}
