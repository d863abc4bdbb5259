/**
 * IsometricGame/Classes/Items/PassiveItem.cs: a passive item whose level is bounded by its
 * maximum. The level-up callback (an Action<Player> chosen by whoever creates the item) is
 * represented by the number of times it has run.
 */
module Passives {
  import opened Numerics

  datatype PassiveType = EmptyTome | Spinach | Bracer | Spellbinder

  /** The level after one LevelUp: one higher below the maximum, otherwise unchanged. */
  function NextLevel(level: int, maxLevel: int): (r: int)
    ensures level <= r <= level + 1
    ensures r <= if level < maxLevel then maxLevel else level
    ensures r != level <==> level < maxLevel
  {
    if level < maxLevel then level + 1 else level
  }

  /** The level of a new item after n calls of LevelUp. */
  function LevelAfter(maxLevel: int, n: nat): int {
    if n == 0 then 0 else NextLevel(LevelAfter(maxLevel, n - 1), maxLevel)
  }

  /**
   * A new item levelled up n times is at level min(n, MaxLevel), or stays at 0 when MaxLevel is
   * not positive: the level never exceeds the maximum.
   */
  lemma {:induction false} LevelAfterBound(maxLevel: int, n: nat)
    ensures LevelAfter(maxLevel, n) == if n < Max0(maxLevel) then n else Max0(maxLevel)
  {
    if n > 0 {
      LevelAfterBound(maxLevel, n - 1);
    }
  }

  class PassiveItem {
    const passive: PassiveType
    const name: string
    var level: int
    const maxLevel: int
    /** How many times the level-up callback has run. */
    var callbackRuns: nat

    /** The level stays between 0 and the maximum (0 when the maximum is not positive). */
    ghost predicate Valid()
      reads this
    {
      0 <= level <= Max0(maxLevel)
    }

    /** A new item is at level 0 and its callback has not run. */
    constructor (passive: PassiveType, name: string, maxLevel: int)
      ensures Valid()
      ensures this.passive == passive && this.name == name && this.maxLevel == maxLevel
      ensures level == 0 && callbackRuns == 0
    {
      this.passive, this.name, this.maxLevel := passive, name, maxLevel;
      level, callbackRuns := 0, 0;
    }

    /** LevelUp: below the maximum the level rises by one and the callback runs once. */
    method LevelUp()
      requires Valid()
      modifies this`level, this`callbackRuns
      ensures Valid()
      ensures level == NextLevel(old(level), maxLevel)
      ensures callbackRuns == old(callbackRuns) + (if old(level) < maxLevel then 1 else 0)
    {
      if level < maxLevel {
        level := level + 1;
        callbackRuns := callbackRuns + 1;
      }
    }
  }
}
