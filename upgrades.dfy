/**
 * IsometricGame/Classes/Upgrades/UpgradeManager.cs: the level-up choices offered to the player.
 * GetSmartOptions builds a pool of options from the player's weapons and passives, adds two
 * fillers when the pool is short, and returns the first `count` options of a random order.
 * The player's weapons and passives are given as values (kind or type, name, level), each
 * option's action as an `Effect`, and the random order as the permutation `perm`.
 */
module Upgrades {
  import opened Wrappers
  import opened Text
  import W = Weapons
  import P = Passives

  datatype Color = Orange | Gold | Cyan | LightBlue | Green | Yellow

  /** What choosing an option does to the player. */
  datatype Effect =
    | LevelWeapon(index: nat)                  // LevelUp on the weapon at that place in Weapons
    | AddWeapon(kind: W.WeaponKind)            // a new weapon of that class joins Weapons
    | AddOrLevelPassive(passive: P.PassiveType)
    | Heal(amount: int)
    | NoEffect                                 // the gold coin does nothing yet

  datatype UpgradeOption = UpgradeOption(title: string, description: string, color: Color, effect: Effect)

  datatype OwnedWeapon = OwnedWeapon(kind: W.WeaponKind, name: string, level: int)
  datatype OwnedPassive = OwnedPassive(passive: P.PassiveType, name: string, level: int, maxLevel: int)

  /** The weapon classes a player can be offered (SimpleWeapon and OrbitingShield). */
  const AvailableWeapons: seq<W.WeaponKind> := [W.MagicWand, W.Shield]
  const AvailablePassives: seq<P.PassiveType> := [P.EmptyTome, P.Spinach, P.Bracer, P.Spellbinder]
  /** Offers of new weapons and new passives stop at this many owned. */
  const SlotLimit: int := 4
  const MaxUpgradeLevel: int := 8

  // ----- Description helpers -----

  function LevelPrefix(level: int): string {
    "Lvl " + IntToString(level) + ": "
  }

  /**
   * GetWeaponUpgradeDescription: wands (the Holy Wand is a SimpleWeapon too) announce a projectile
   * on an even next level and damage on an odd one; the shield announces a shield and duration.
   */
  function WeaponUpgradeDescription(kind: W.WeaponKind, level: int): (d: string)
    ensures IsPrefix(LevelPrefix(level + 1), d)
  {
    var nextLvl := level + 1;
    match kind
    case MagicWand | HolyWand =>
      if nextLvl % 2 == 0 then LevelPrefix(nextLvl) + "Fires +1 Projectile."
      else LevelPrefix(nextLvl) + "Base Damage +10."
    case Shield => LevelPrefix(nextLvl) + "Adds +1 Shield & +0.5s Duration."
  }

  /** The name a new-weapon option shows: the name the offered weapon is constructed with. */
  function NewWeaponName(kind: W.WeaponKind): (name: string)
    ensures kind != W.HolyWand ==> name == W.StartName(kind)
  {
    if kind == W.MagicWand then "Magic Wand" else "Orbiting Shield"
  }

  /** The description shown for a weapon class that is not among the available ones. */
  const UnknownWeaponDescription: string := "A new weapon."

  /** GetNewWeaponDescription: its own text for each available class, the generic one otherwise. */
  function NewWeaponDescription(kind: W.WeaponKind): (d: string)
    ensures d == UnknownWeaponDescription <==> kind !in AvailableWeapons
  {
    match kind
    case MagicWand => "Fires magic missiles at the nearest enemy."
    case Shield => "Creates a rotating shield that damages enemies."
    case HolyWand => UnknownWeaponDescription
  }

  /** GetPassiveName: a non-empty, capitalised display name for every passive type. */
  function PassiveName(t: P.PassiveType): (name: string)
    ensures |name| > 0 && 'A' <= name[0] <= 'Z'
  {
    match t
    case EmptyTome => "Empty Tome"
    case Spinach => "Spinach"
    case Bracer => "Bracer"
    case Spellbinder => "Spellbinder"
  }

  /** GetPassiveDescription: the level prefix, then the passive's bonus. */
  function PassiveDescription(t: P.PassiveType, level: int): (d: string)
    ensures IsPrefix(LevelPrefix(level), d)
  {
    LevelPrefix(level) +
      match t
      case EmptyTome => "Reduces Weapon Cooldown by 8%."
      case Spinach => "Increases Damage by 10%."
      case Bracer => "Increases Projectile Speed by 10%."
      case Spellbinder => "Increases Effect Duration by 10%."
  }

  // ----- The options -----

  function WeaponUpgradeOption(w: OwnedWeapon, i: nat): UpgradeOption {
    UpgradeOption("Upgrade: " + w.name, WeaponUpgradeDescription(w.kind, w.level), Orange, LevelWeapon(i))
  }

  function NewWeaponOption(kind: W.WeaponKind): UpgradeOption {
    UpgradeOption("New: " + NewWeaponName(kind), NewWeaponDescription(kind), Gold, AddWeapon(kind))
  }

  function GetPassiveOption(t: P.PassiveType): UpgradeOption {
    UpgradeOption("Get: " + PassiveName(t), PassiveDescription(t, 1), Cyan, AddOrLevelPassive(t))
  }

  function UpgradePassiveOption(p: OwnedPassive): UpgradeOption {
    UpgradeOption("Upgrade: " + p.name, PassiveDescription(p.passive, p.level + 1), LightBlue,
                  AddOrLevelPassive(p.passive))
  }

  const RoastChicken: UpgradeOption := UpgradeOption("Roast Chicken", "Recover 30 Health.", Green, Heal(30))
  const GoldCoin: UpgradeOption := UpgradeOption("Gold Coin", "Gain 100 Gold (Score).", Yellow, NoEffect)

  // ----- The pool -----

  /** A weapon below level 8 whose name does not contain "Holy" can be upgraded. */
  predicate Upgradable(w: OwnedWeapon) {
    w.level < MaxUpgradeLevel && !Contains(w.name, "Holy")
  }

  /** The upgrade options of the first n weapons, in order. */
  function WeaponUpgrades(ws: seq<OwnedWeapon>, n: nat): seq<UpgradeOption>
    requires n <= |ws|
  {
    if n == 0 then []
    else WeaponUpgrades(ws, n - 1) + (if Upgradable(ws[n - 1]) then [WeaponUpgradeOption(ws[n - 1], n - 1)] else [])
  }

  /** Some weapon of the player is exactly of that class. */
  predicate Owns(ws: seq<OwnedWeapon>, kind: W.WeaponKind) {
    exists i :: 0 <= i < |ws| && ws[i].kind == kind
  }

  /** The new-weapon options for the first n available classes. */
  function NewWeapons(ws: seq<OwnedWeapon>, n: nat): seq<UpgradeOption>
    requires n <= |AvailableWeapons|
  {
    if n == 0 then []
    else
      var kind := AvailableWeapons[n - 1];
      NewWeapons(ws, n - 1) + (if !Owns(ws, kind) then [NewWeaponOption(kind)] else [])
  }

  /** List.Find: the first owned passive of type t. */
  function FirstOfType(ps: seq<OwnedPassive>, t: P.PassiveType): (r: Option<nat>)
    ensures r.Some? ==> r.value < |ps| && ps[r.value].passive == t
    ensures r.Some? ==> forall j :: 0 <= j < r.value ==> ps[j].passive != t
    ensures r.None? ==> forall j :: 0 <= j < |ps| ==> ps[j].passive != t
  {
    if ps == [] then None
    else if ps[0].passive == t then Some(0)
    else match FirstOfType(ps[1..], t)
      case None => None
      case Some(k) => Some(k + 1)
  }

  /**
   * The option for one passive type: "Get" when none is owned and fewer than 4 are, "Upgrade"
   * when the owned one is below its maximum, otherwise none.
   */
  function PassiveOffer(ps: seq<OwnedPassive>, t: P.PassiveType): seq<UpgradeOption> {
    match FirstOfType(ps, t)
    case None => if |ps| < SlotLimit then [GetPassiveOption(t)] else []
    case Some(i) => if ps[i].level < ps[i].maxLevel then [UpgradePassiveOption(ps[i])] else []
  }

  /** The passive options for the first n available types. */
  function PassiveOptions(ps: seq<OwnedPassive>, n: nat): seq<UpgradeOption>
    requires n <= |AvailablePassives|
  {
    if n == 0 then [] else PassiveOptions(ps, n - 1) + PassiveOffer(ps, AvailablePassives[n - 1])
  }

  /** The place of a class in AvailableWeapons (past its end for the Holy Wand). */
  function WeaponSlot(kind: W.WeaponKind): nat {
    match kind
    case MagicWand => 0
    case Shield => 1
    case HolyWand => 2
  }

  /** The place of a type in AvailablePassives. */
  function PassiveSlot(t: P.PassiveType): nat {
    match t
    case EmptyTome => 0
    case Spinach => 1
    case Bracer => 2
    case Spellbinder => 3
  }

  /** The pool before the fillers: weapon upgrades, then new weapons, then passives. */
  function BasePool(ws: seq<OwnedWeapon>, ps: seq<OwnedPassive>): seq<UpgradeOption> {
    WeaponUpgrades(ws, |ws|)
      + (if |ws| < SlotLimit then NewWeapons(ws, |AvailableWeapons|) else [])
      + PassiveOptions(ps, |AvailablePassives|)
  }

  /** The pool GetSmartOptions draws from: the fillers are added when it holds fewer than count. */
  function Pool(ws: seq<OwnedWeapon>, ps: seq<OwnedPassive>, count: int): seq<UpgradeOption> {
    var base := BasePool(ws, ps);
    if |base| < count then base + [RoastChicken, GoldCoin] else base
  }

  /** `perm` lists 0 .. n-1, each once: the order OrderBy on random keys produces. */
  predicate IsPermutation(perm: seq<nat>, n: nat) {
    && |perm| == n
    && (forall i :: 0 <= i < n ==> perm[i] < n)
    && (forall i, j :: 0 <= i < j < n ==> perm[i] != perm[j])
  }

  /** Enumerable.Take(count): nothing for count <= 0, at most the whole sequence. */
  function TakeCount(count: int, size: nat): (n: nat)
    ensures n <= size
    ensures count > 0 ==> n == size || n == count
    ensures count <= 0 ==> n == 0
  {
    if count <= 0 then 0 else if count < size then count else size
  }

  /** The first `count` options of the pool in the order `perm`. */
  function Shuffled(pool: seq<UpgradeOption>, perm: seq<nat>, count: int): (r: seq<UpgradeOption>)
    requires IsPermutation(perm, |pool|)
    ensures |r| == TakeCount(count, |pool|)
    ensures forall k :: 0 <= k < |r| ==> r[k] == pool[perm[k]]
  {
    var n := TakeCount(count, |pool|);
    seq(n, k requires 0 <= k < n => pool[perm[k]])
  }

  /**
   * GetSmartOptions: the pool is built by appending in three loops and a filler step, then
   * the first `count` options of the random order are returned.
   */
  method GetSmartOptions(weapons: seq<OwnedWeapon>, passives: seq<OwnedPassive>, count: int, perm: seq<nat>)
    returns (options: seq<UpgradeOption>)
    requires IsPermutation(perm, |Pool(weapons, passives, count)|)
    ensures options == Shuffled(Pool(weapons, passives, count), perm, count)
  {
    var pool := CollectWeaponUpgrades(weapons);
    if |weapons| < SlotLimit {
      var added := CollectNewWeapons(weapons);
      pool := pool + added;
    }
    var added := CollectPassives(passives);
    pool := pool + added;
    assert pool == BasePool(weapons, passives);
    if |pool| < count {
      pool := pool + [RoastChicken, GoldCoin];
    }
    options := Shuffled(pool, perm, count);
  }

  /** The first loop of GetSmartOptions: one upgrade per upgradable weapon, in order. */
  method CollectWeaponUpgrades(weapons: seq<OwnedWeapon>) returns (pool: seq<UpgradeOption>)
    ensures pool == WeaponUpgrades(weapons, |weapons|)
  {
    pool := [];
    for i := 0 to |weapons|
      invariant pool == WeaponUpgrades(weapons, i)
    {
      var weapon := weapons[i];
      if weapon.level < MaxUpgradeLevel && !Contains(weapon.name, "Holy") {
        pool := pool + [WeaponUpgradeOption(weapon, i)];
      }
    }
  }

  /** The second loop: one option per available class the player does not own. */
  method CollectNewWeapons(weapons: seq<OwnedWeapon>) returns (added: seq<UpgradeOption>)
    ensures added == NewWeapons(weapons, |AvailableWeapons|)
  {
    added := [];
    for j := 0 to |AvailableWeapons|
      invariant added == NewWeapons(weapons, j)
    {
      var weaponType := AvailableWeapons[j];
      if !Owns(weapons, weaponType) {
        added := added + [NewWeaponOption(weaponType)];
      }
    }
  }

  /** The third loop: the offer of each available passive type. */
  method CollectPassives(passives: seq<OwnedPassive>) returns (added: seq<UpgradeOption>)
    ensures added == PassiveOptions(passives, |AvailablePassives|)
  {
    added := [];
    for j := 0 to |AvailablePassives|
      invariant added == PassiveOptions(passives, j)
    {
      var offer := OfferPassive(passives, AvailablePassives[j]);
      added := added + offer;
    }
  }

  /** One pass of the passive loop: the option it appends for one passive type, if any. */
  method OfferPassive(passives: seq<OwnedPassive>, passiveType: P.PassiveType) returns (offer: seq<UpgradeOption>)
    ensures offer == PassiveOffer(passives, passiveType)
    ensures |offer| <= 1
  {
    var existing := FirstOfType(passives, passiveType);
    offer := [];
    if existing.None? {
      if |passives| < SlotLimit {
        offer := [GetPassiveOption(passiveType)];
      }
    } else if passives[existing.value].level < passives[existing.value].maxLevel {
      offer := [UpgradePassiveOption(passives[existing.value])];
    }
  }

  // ----- Properties of the pool -----

  /** How many options of the list have effect e. */
  function Count(opts: seq<UpgradeOption>, e: Effect): nat {
    if opts == [] then 0
    else Count(opts[..|opts| - 1], e) + (if opts[|opts| - 1].effect == e then 1 else 0)
  }

  lemma {:induction false} CountAppend(a: seq<UpgradeOption>, b: seq<UpgradeOption>, e: Effect)
    ensures Count(a + b, e) == Count(a, e) + Count(b, e)
    decreases |b|
  {
    if b == [] {
      assert a + b == a;
    } else {
      assert (a + b)[..|a + b| - 1] == a + b[..|b| - 1];
      CountAppend(a, b[..|b| - 1], e);
    }
  }

  lemma CountSingle(opts: seq<UpgradeOption>, o: UpgradeOption, e: Effect)
    ensures Count(opts + [o], e) == Count(opts, e) + (if o.effect == e then 1 else 0)
  {
    assert (opts + [o])[..|opts|] == opts;
  }

  /** Two options of a list with the same effect make that effect's count at least 2. */
  lemma {:induction false} CountTwo(opts: seq<UpgradeOption>, k: nat, l: nat)
    requires k < l < |opts| && opts[k].effect == opts[l].effect
    ensures Count(opts, opts[l].effect) >= 2
    decreases |opts|
  {
    var init := opts[..|opts| - 1];
    if l < |opts| - 1 {
      assert init[k] == opts[k] && init[l] == opts[l];
      CountTwo(init, k, l);
    } else {
      assert init[k] == opts[k];
      CountPositive(init, k);
    }
  }

  lemma {:induction false} CountPositive(opts: seq<UpgradeOption>, k: nat)
    requires k < |opts|
    ensures Count(opts, opts[k].effect) >= 1
    decreases |opts|
  {
    var init := opts[..|opts| - 1];
    if k < |opts| - 1 {
      assert init[k] == opts[k];
      CountPositive(init, k);
    }
  }

  /** The first n weapons contribute one upgrade option for each upgradable weapon among them. */
  lemma {:induction false} WeaponUpgradesCount(ws: seq<OwnedWeapon>, n: nat, e: Effect)
    requires n <= |ws|
    ensures Count(WeaponUpgrades(ws, n), e) ==
      if e.LevelWeapon? && e.index < n && Upgradable(ws[e.index]) then 1 else 0
  {
    if n > 0 {
      WeaponUpgradesCount(ws, n - 1, e);
      var prev := WeaponUpgrades(ws, n - 1);
      if Upgradable(ws[n - 1]) {
        CountSingle(prev, WeaponUpgradeOption(ws[n - 1], n - 1), e);
      } else {
        assert WeaponUpgrades(ws, n) == prev;
      }
    }
  }

  /** The first n available classes contribute one option for each class not owned. */
  lemma {:induction false} NewWeaponsCount(ws: seq<OwnedWeapon>, n: nat, e: Effect)
    requires n <= |AvailableWeapons|
    ensures Count(NewWeapons(ws, n), e) ==
      if e.AddWeapon? && WeaponSlot(e.kind) < n && !Owns(ws, e.kind) then 1 else 0
  {
    if n > 0 {
      NewWeaponsCount(ws, n - 1, e);
      NewWeaponsStep(ws, n, e);
      WeaponSlotStep(ws, n, e);
    }
  }

  lemma WeaponSlotStep(ws: seq<OwnedWeapon>, n: nat, e: Effect)
    requires 0 < n <= |AvailableWeapons|
    ensures (if e.AddWeapon? && WeaponSlot(e.kind) < n && !Owns(ws, e.kind) then 1 else 0) ==
      (if e.AddWeapon? && WeaponSlot(e.kind) < n - 1 && !Owns(ws, e.kind) then 1 else 0) +
      (if e == AddWeapon(AvailableWeapons[n - 1]) && !Owns(ws, AvailableWeapons[n - 1]) then 1 else 0)
  {
    assert WeaponSlot(AvailableWeapons[n - 1]) == n - 1;
  }

  lemma NewWeaponsStep(ws: seq<OwnedWeapon>, n: nat, e: Effect)
    requires 0 < n <= |AvailableWeapons|
    ensures Count(NewWeapons(ws, n), e) == Count(NewWeapons(ws, n - 1), e) +
      if e == AddWeapon(AvailableWeapons[n - 1]) && !Owns(ws, AvailableWeapons[n - 1]) then 1 else 0
  {
    var prev := NewWeapons(ws, n - 1);
    var kind := AvailableWeapons[n - 1];
    if !Owns(ws, kind) {
      CountSingle(prev, NewWeaponOption(kind), e);
    } else {
      assert NewWeapons(ws, n) == prev;
    }
  }

  /** The first n available passive types contribute one option for each type with an offer. */
  lemma {:induction false} PassiveOptionsCount(ps: seq<OwnedPassive>, n: nat, e: Effect)
    requires n <= |AvailablePassives|
    ensures Count(PassiveOptions(ps, n), e) ==
      if e.AddOrLevelPassive? && PassiveSlot(e.passive) < n && PassiveOffer(ps, e.passive) != [] then 1 else 0
  {
    if n > 0 {
      PassiveOptionsCount(ps, n - 1, e);
      PassiveOptionsStep(ps, n, e);
      PassiveSlotStep(ps, n, e);
    }
  }

  lemma PassiveSlotStep(ps: seq<OwnedPassive>, n: nat, e: Effect)
    requires 0 < n <= |AvailablePassives|
    ensures (if e.AddOrLevelPassive? && PassiveSlot(e.passive) < n && PassiveOffer(ps, e.passive) != [] then 1 else 0) ==
      (if e.AddOrLevelPassive? && PassiveSlot(e.passive) < n - 1 && PassiveOffer(ps, e.passive) != [] then 1 else 0) +
      (if e == AddOrLevelPassive(AvailablePassives[n - 1]) && PassiveOffer(ps, AvailablePassives[n - 1]) != []
       then 1 else 0)
  {
    assert PassiveSlot(AvailablePassives[n - 1]) == n - 1;
  }

  lemma PassiveOptionsStep(ps: seq<OwnedPassive>, n: nat, e: Effect)
    requires 0 < n <= |AvailablePassives|
    ensures Count(PassiveOptions(ps, n), e) == Count(PassiveOptions(ps, n - 1), e) +
      if e == AddOrLevelPassive(AvailablePassives[n - 1]) && PassiveOffer(ps, AvailablePassives[n - 1]) != []
      then 1 else 0
  {
    var prev := PassiveOptions(ps, n - 1);
    var offer := PassiveOffer(ps, AvailablePassives[n - 1]);
    if offer == [] {
      assert PassiveOptions(ps, n) == prev;
    } else {
      assert offer[0].effect == AddOrLevelPassive(AvailablePassives[n - 1]);
      CountSingle(prev, offer[0], e);
    }
  }

  /** The count of an effect in the pool: each part counts only its own kind of effect. */
  lemma PoolCount(ws: seq<OwnedWeapon>, ps: seq<OwnedPassive>, count: int, e: Effect)
    ensures Count(Pool(ws, ps, count), e) ==
      Count(WeaponUpgrades(ws, |ws|), e)
      + (if |ws| < SlotLimit then Count(NewWeapons(ws, |AvailableWeapons|), e) else 0)
      + Count(PassiveOptions(ps, |AvailablePassives|), e)
      + (if |BasePool(ws, ps)| < count && (e == Heal(30) || e == NoEffect) then 1 else 0)
  {
    var a := WeaponUpgrades(ws, |ws|);
    var b := if |ws| < SlotLimit then NewWeapons(ws, |AvailableWeapons|) else [];
    var c := PassiveOptions(ps, |AvailablePassives|);
    CountAppend(a, b, e);
    CountAppend(a + b, c, e);
    CountFillers(a + b + c, e);
  }

  lemma CountFillers(base: seq<UpgradeOption>, e: Effect)
    ensures Count(base + [RoastChicken, GoldCoin], e) ==
      Count(base, e) + (if e == Heal(30) || e == NoEffect then 1 else 0)
  {
    CountSingle(base, RoastChicken, e);
    CountSingle(base + [RoastChicken], GoldCoin, e);
    assert base + [RoastChicken, GoldCoin] == base + [RoastChicken] + [GoldCoin];
  }

  /** Each weapon contributes exactly one upgrade option when it is below level 8 and not "Holy", else none. */
  lemma PoolWeaponUpgrade(ws: seq<OwnedWeapon>, ps: seq<OwnedPassive>, count: int, i: nat)
    ensures Count(Pool(ws, ps, count), LevelWeapon(i)) == if i < |ws| && Upgradable(ws[i]) then 1 else 0
  {
    PoolCount(ws, ps, count, LevelWeapon(i));
    WeaponUpgradesCount(ws, |ws|, LevelWeapon(i));
    NewWeaponsCount(ws, |AvailableWeapons|, LevelWeapon(i));
    PassiveOptionsCount(ps, |AvailablePassives|, LevelWeapon(i));
  }

  /**
   * A class is offered as a new weapon exactly once when the player has fewer than 4 weapons,
   * the class is available, and no weapon of exactly that class is owned; otherwise never.
   */
  lemma PoolNewWeapon(ws: seq<OwnedWeapon>, ps: seq<OwnedPassive>, count: int, kind: W.WeaponKind)
    ensures Count(Pool(ws, ps, count), AddWeapon(kind)) ==
      if |ws| < SlotLimit && kind in AvailableWeapons && !Owns(ws, kind) then 1 else 0
  {
    PoolCount(ws, ps, count, AddWeapon(kind));
    WeaponUpgradesCount(ws, |ws|, AddWeapon(kind));
    NewWeaponsCount(ws, |AvailableWeapons|, AddWeapon(kind));
    PassiveOptionsCount(ps, |AvailablePassives|, AddWeapon(kind));
    AvailableWeaponSlot(kind);
  }

  lemma AvailableWeaponSlot(kind: W.WeaponKind)
    ensures kind in AvailableWeapons <==> WeaponSlot(kind) < |AvailableWeapons|
  {
    if kind != W.HolyWand {
      assert AvailableWeapons[WeaponSlot(kind)] == kind;
    }
  }

  /**
   * Each passive type is offered exactly once or not at all: an unowned one ("Get", cyan) only
   * while fewer than 4 are owned, an owned one ("Upgrade", light blue) only below its maximum.
   */
  lemma PoolPassive(ws: seq<OwnedWeapon>, ps: seq<OwnedPassive>, count: int, t: P.PassiveType)
    ensures var owned := FirstOfType(ps, t);
      Count(Pool(ws, ps, count), AddOrLevelPassive(t)) ==
        if (if owned.None? then |ps| < SlotLimit else ps[owned.value].level < ps[owned.value].maxLevel)
        then 1 else 0
  {
    PoolOffer(ws, ps, count, t);
    OfferCondition(ps, t);
  }

  lemma PoolOffer(ws: seq<OwnedWeapon>, ps: seq<OwnedPassive>, count: int, t: P.PassiveType)
    ensures Count(Pool(ws, ps, count), AddOrLevelPassive(t)) == if PassiveOffer(ps, t) != [] then 1 else 0
  {
    var e := AddOrLevelPassive(t);
    PoolCount(ws, ps, count, e);
    WeaponUpgradesCount(ws, |ws|, e);
    NewWeaponsCount(ws, |AvailableWeapons|, e);
    PassiveOptionsCount(ps, |AvailablePassives|, e);
  }

  lemma OfferCondition(ps: seq<OwnedPassive>, t: P.PassiveType)
    ensures var owned := FirstOfType(ps, t);
      PassiveOffer(ps, t) != [] <==>
        if owned.None? then |ps| < SlotLimit else ps[owned.value].level < ps[owned.value].maxLevel
  {
  }

  /** "Roast Chicken" and "Gold Coin" are each in the pool once exactly when the rest holds fewer than count. */
  lemma PoolFillers(ws: seq<OwnedWeapon>, ps: seq<OwnedPassive>, count: int)
    ensures Count(Pool(ws, ps, count), Heal(30)) == if |BasePool(ws, ps)| < count then 1 else 0
    ensures Count(Pool(ws, ps, count), NoEffect) == if |BasePool(ws, ps)| < count then 1 else 0
    ensures |Pool(ws, ps, count)| == |BasePool(ws, ps)| + (if |BasePool(ws, ps)| < count then 2 else 0)
  {
    PoolCount(ws, ps, count, Heal(30));
    WeaponUpgradesCount(ws, |ws|, Heal(30));
    NewWeaponsCount(ws, |AvailableWeapons|, Heal(30));
    PassiveOptionsCount(ps, |AvailablePassives|, Heal(30));
    PoolCount(ws, ps, count, NoEffect);
    WeaponUpgradesCount(ws, |ws|, NoEffect);
    NewWeaponsCount(ws, |AvailableWeapons|, NoEffect);
    PassiveOptionsCount(ps, |AvailablePassives|, NoEffect);
  }

  /** No effect is in the pool twice. */
  lemma PoolAtMostOnce(ws: seq<OwnedWeapon>, ps: seq<OwnedPassive>, count: int, e: Effect)
    ensures Count(Pool(ws, ps, count), e) <= 1
  {
    PoolCount(ws, ps, count, e);
    WeaponUpgradesCount(ws, |ws|, e);
    NewWeaponsCount(ws, |AvailableWeapons|, e);
    PassiveOptionsCount(ps, |AvailablePassives|, e);
  }

  /** No two options of the list have the same effect. */
  predicate DistinctEffects(opts: seq<UpgradeOption>) {
    forall k, l :: 0 <= k < l < |opts| ==> opts[k].effect != opts[l].effect
  }

  /**
   * The result of GetSmartOptions: min(count, pool size) options (none for count <= 0), each
   * from the pool, no two alike.
   */
  lemma ShuffledSelection(ws: seq<OwnedWeapon>, ps: seq<OwnedPassive>, count: int, perm: seq<nat>)
    requires IsPermutation(perm, |Pool(ws, ps, count)|)
    ensures var r := Shuffled(Pool(ws, ps, count), perm, count);
      && |r| == (if count <= 0 then 0 else if count < |Pool(ws, ps, count)| then count else |Pool(ws, ps, count)|)
      && (forall k :: 0 <= k < |r| ==> r[k] in Pool(ws, ps, count))
      && DistinctEffects(r)
  {
    var pool := Pool(ws, ps, count);
    var r := Shuffled(pool, perm, count);
    forall k, l | 0 <= k < l < |r|
      ensures r[k].effect != r[l].effect
    {
      var a, b := perm[k], perm[l];
      if r[k].effect == r[l].effect {
        PoolAtMostOnce(ws, ps, count, pool[b].effect);
        if a < b {
          CountTwo(pool, a, b);
        } else {
          CountTwo(pool, b, a);
        }
      }
    }
  }

  /** A Holy Wand, named as its constructor names it, is never offered an upgrade. */
  lemma HolyWandNotUpgradable(level: int)
    ensures !Upgradable(OwnedWeapon(W.HolyWand, W.StartName(W.HolyWand), level))
  {
    assert W.StartName(W.HolyWand)[0..4] == "Holy";
    ContainsAt(W.StartName(W.HolyWand), "Holy", 0);
  }
}
