/** The prototype's treasure chest (src/components/game-objects/objects/chest.ts). */
module Chest {
  import opened Wrappers
  import opened Common

  datatype Frame = BigChestClosed | SmallChestClosed | BigChestOpen | SmallChestOpen

  predicate IsBig(f: Frame) {
    f == BigChestClosed || f == BigChestOpen
  }

  predicate IsOpenFrame(f: Frame) {
    f == BigChestOpen || f == SmallChestOpen
  }

  datatype Chest = Chest(state: ChestState, isBossKeyChest: bool, frame: Frame)

  /** The frame matches the kind of chest, and an open frame shows only on an open chest. */
  predicate Consistent(c: Chest) {
    IsBig(c.frame) == c.isBossKeyChest && (IsOpenFrame(c.frame) ==> c.state == Open)
  }

  /** A new chest: the given state, hidden by default, always with a closed frame of its size. */
  function NewChest(requiresBossKey: bool, chestState: Option<ChestState>): (r: Chest)
    ensures r.state == (if chestState.Some? then chestState.value else Hidden)
    ensures r.isBossKeyChest == requiresBossKey
    ensures !IsOpenFrame(r.frame) && Consistent(r)
  {
    Chest(chestState.GetOr(Hidden), requiresBossKey, if requiresBossKey then BigChestClosed else SmallChestClosed)
  }

  /** `open`: only a revealed chest opens, and it shows the open frame of its size. */
  function OpenChest(c: Chest): (r: Chest)
    ensures c.state != Revealed ==> r == c
    ensures c.state == Revealed ==> r.state == Open && IsOpenFrame(r.frame) && IsBig(r.frame) == c.isBossKeyChest
    ensures r.isBossKeyChest == c.isBossKeyChest
    ensures Consistent(c) ==> Consistent(r)
  {
    if c.state != Revealed then c
    else c.(state := Open, frame := if c.isBossKeyChest then BigChestOpen else SmallChestOpen)
  }

  /** Opening twice is opening once. */
  lemma OpenIdempotent(c: Chest)
    ensures OpenChest(OpenChest(c)) == OpenChest(c)
  {
  }

  /** A hidden chest cannot be opened, however often it is tried, until something reveals it. */
  lemma {:induction false} HiddenStaysShut(c: Chest, tries: nat)
    requires c.state == Hidden
    ensures OpenTimes(c, tries) == c
    decreases tries
  {
    if tries > 0 {
      HiddenStaysShut(OpenChest(c), tries - 1);
    }
  }

  function OpenTimes(c: Chest, tries: nat): Chest
    decreases tries
  {
    if tries == 0 then c else OpenTimes(OpenChest(c), tries - 1)
  }
}
