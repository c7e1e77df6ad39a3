/** The prototype's input flags (src/components/input/input-component.ts). */
module InputComponent {
  datatype Flag = UpFlag | DownFlag | LeftFlag | RightFlag | ActionFlag | AttackFlag | SelectFlag | EnterFlag

  datatype Controls = Controls(
    up: bool, down: bool, left: bool, right: bool,
    actionKey: bool, attackKey: bool, selectKey: bool, enterKey: bool)

  /** The value a getter reads for a flag. */
  function Get(c: Controls, f: Flag): bool {
    match f
    case UpFlag => c.up
    case DownFlag => c.down
    case LeftFlag => c.left
    case RightFlag => c.right
    case ActionFlag => c.actionKey
    case AttackFlag => c.attackKey
    case SelectFlag => c.selectKey
    case EnterFlag => c.enterKey
  }

  /** A new component: every flag is clear. */
  function NewControls(): (r: Controls)
    ensures forall f :: !Get(r, f)
  {
    Controls(false, false, false, false, false, false, false, false)
  }

  /** A setter: its flag takes the value, the other seven keep theirs. */
  function Set(c: Controls, f: Flag, v: bool): (r: Controls)
    ensures Get(r, f) == v
    ensures forall g :: g != f ==> Get(r, g) == Get(c, g)
  {
    match f
    case UpFlag => c.(up := v)
    case DownFlag => c.(down := v)
    case LeftFlag => c.(left := v)
    case RightFlag => c.(right := v)
    case ActionFlag => c.(actionKey := v)
    case AttackFlag => c.(attackKey := v)
    case SelectFlag => c.(selectKey := v)
    case EnterFlag => c.(enterKey := v)
  }

  /** Setting a flag to the value it has changes nothing; setting it twice keeps the last. */
  lemma SetLaws(c: Controls, f: Flag, v: bool, w: bool)
    ensures Set(Set(c, f, v), f, w) == Set(c, f, w)
    ensures Set(c, f, Get(c, f)) == c
  {
  }

  /** `isUpJustDown` and `isDownJustDown` read the held up and down flags. */
  function IsUpJustDown(c: Controls): (r: bool)
    ensures r == Get(c, UpFlag)
  {
    c.up
  }

  function IsDownJustDown(c: Controls): (r: bool)
    ensures r == Get(c, DownFlag)
  {
    c.down
  }

  /** `reset`: every flag is clear again. */
  function Reset(c: Controls): (r: Controls)
    ensures forall f :: !Get(r, f)
    ensures r == NewControls()
  {
    NewControls()
  }

  /** Some direction flag is held. */
  predicate AnyDirection(c: Controls) {
    c.up || c.down || c.left || c.right
  }
}
