/** The prototype's life component (src/components/game-object/life-component.ts). */
module Life {
  import opened Wrappers

  datatype Life = Life(maxLife: int, life: int)

  /** The current life defaults to the maximum. */
  function NewLife(maxLife: int, currentLife: Option<int>): (r: Life)
    ensures r.maxLife == maxLife
    ensures currentLife.None? ==> r.life == maxLife
    ensures currentLife.Some? ==> r.life == currentLife.value
  {
    Life(maxLife, currentLife.GetOr(maxLife))
  }

  /**
   * `takeDamage`: nothing happens at life 0; otherwise the damage is
   * subtracted and a negative result becomes 0. There is no upper clamp.
   */
  function TakeDamage(l: Life, damage: int): (r: Life)
    ensures r.maxLife == l.maxLife
    ensures l.life == 0 ==> r == l
    ensures l.life != 0 ==> r.life == (if l.life - damage < 0 then 0 else l.life - damage)
    ensures l.life != 0 ==> r.life >= 0
  {
    if l.life == 0 then l
    else
      var left := l.life - damage;
      l.(life := if left < 0 then 0 else left)
  }

  /** Two non-negative hits do what one hit of their sum does. */
  lemma DamageAdds(l: Life, a: int, b: int)
    requires a >= 0 && b >= 0
    ensures TakeDamage(TakeDamage(l, a), b) == TakeDamage(l, a + b)
  {
  }

  /** Zero is absorbing: no damage, negative or not, revives. */
  lemma {:induction false} ZeroIsFinal(l: Life, damages: seq<int>)
    requires l.life == 0
    ensures TakeAll(l, damages) == l
    decreases |damages|
  {
    if |damages| > 0 {
      ZeroIsFinal(TakeDamage(l, damages[0]), damages[1..]);
    }
  }

  /** A series of hits. */
  function TakeAll(l: Life, damages: seq<int>): (r: Life)
    ensures r.maxLife == l.maxLife
    ensures l.life >= 0 ==> r.life >= 0
    decreases |damages|
  {
    if |damages| == 0 then l else TakeAll(TakeDamage(l, damages[0]), damages[1..])
  }

  /** Without an upper clamp, negative damage can raise life above the maximum. */
  lemma HealsPastMaximum()
    ensures TakeDamage(Life(10, 10), -5).life == 15
  {
  }
}
