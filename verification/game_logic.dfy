/** The player-state transitions of the game: the starting record, derived
    stats, the level-up step, the gacha and the random events after a hunt.
    Every `Math.random()` call is an explicit `Draw` argument. */
module GameLogic {
  import opened Wrappers
  import opened Types
  import opened Constants
  import opened Text
  import opened Draws

  /** `createNewPlayer(username, pClass)`. The random id and the registration
      timestamp are parameters. A fresh record satisfies the invariant. */
  function NewPlayer(username: string, pClass: PlayerClass, id: string, now: string): (p: Player)
    ensures Valid(p)
    ensures p.level == 1 && p.xp == 0 && p.coins == 100 && p.hp == p.maxHp == 100
    ensures p.baseDamage == 10 && p.baseCrit == 5 && p.rank == "Bronze" && !p.vip
    ensures p.username == username && p.playerClass == pClass && p.id == id && p.registerDate == now
  {
    Player(id, username, pClass, 1, 0, 100, 100, 100, 10, 5,
      ["\U{1FAB5} Wood Sword", "\U{1F9EA} Small Potion"],
      None, None, None,
      ["\U{1F430} Forest Bunny"], Some("\U{1F430} Forest Bunny"),
      "DragonSlayers", "Bronze", false, false, "", now, 0)
  }

  // ---------------------------------------------------------------- stats

  /** The derived stats shown on the profile and used in combat. */
  datatype Stats = Stats(damage: int, crit: int, hp: int)

  /** A skill raises crit exactly when its name contains "Critical". */
  predicate IsCritSkill(s: Skill) {
    Contains(s.name, "Critical")
  }

  /** The sum of all bonuses of a skill list. */
  function BonusSum(skills: seq<Skill>): int {
    if |skills| == 0 then 0 else skills[0].bonus + BonusSum(skills[1..])
  }

  /** `skills.forEach(...)`, as the pair (damage bonus, crit bonus): every
      bonus lands in exactly one of the two, crit receives nothing unless
      some skill is critical, and non-negative bonuses give non-negative totals. */
  function SkillBonus(skills: seq<Skill>): (b: (int, int))
    ensures b.0 + b.1 == BonusSum(skills)
    ensures (forall i :: 0 <= i < |skills| ==> !IsCritSkill(skills[i])) ==> b.1 == 0
    ensures (forall i :: 0 <= i < |skills| ==> IsCritSkill(skills[i])) ==> b.0 == 0
    ensures (forall i :: 0 <= i < |skills| ==> skills[i].bonus >= 0) ==> b.0 >= 0 && b.1 >= 0
  {
    if |skills| == 0 then (0, 0)
    else
      var rest := SkillBonus(skills[1..]);
      if IsCritSkill(skills[0]) then (rest.0, rest.1 + skills[0].bonus)
      else (rest.0 + skills[0].bonus, rest.1)
  }

  /** What one skill adds to (damage, crit): a critical skill's bonus goes
      to crit, any other skill's to damage. */
  function Contribution(s: Skill): (int, int) {
    if IsCritSkill(s) then (0, s.bonus) else (s.bonus, 0)
  }

  /** Componentwise sum of two (damage, crit) pairs. */
  function Plus(a: (int, int), b: (int, int)): (int, int) {
    (a.0 + b.0, a.1 + b.1)
  }

  /** The same fold without the contract, so that proofs about appending
      do not drag the quantified facts above along. */
  function PairSum(skills: seq<Skill>): (int, int) {
    if |skills| == 0 then (0, 0)
    else Plus(Contribution(skills[0]), PairSum(skills[1..]))
  }

  lemma {:induction false} SkillBonusIsPairSum(xs: seq<Skill>)
    ensures SkillBonus(xs) == PairSum(xs)
    decreases |xs|
  {
    if |xs| > 0 {
      SkillBonusIsPairSum(xs[1..]);
    }
  }

  lemma {:induction false} PairSumAppend(xs: seq<Skill>, s: Skill)
    ensures PairSum(xs + [s]) == Plus(PairSum(xs), Contribution(s))
    decreases |xs|
  {
    var ys := xs + [s];
    if |xs| == 0 {
      assert ys[1..] == [];
    } else {
      assert ys[0] == xs[0] && ys[1..] == xs[1..] + [s];
      PairSumAppend(xs[1..], s);
    }
  }

  /** Adding one more skill at the end, as `forEach` visits it last, adds
      exactly that skill's contribution to the running pair. */
  lemma SkillBonusAppend(xs: seq<Skill>, s: Skill)
    ensures SkillBonus(xs + [s]) == Plus(SkillBonus(xs), Contribution(s))
  {
    SkillBonusIsPairSum(xs);
    SkillBonusIsPairSum(xs + [s]);
    PairSumAppend(xs, s);
  }

  /** `xs.find(x => nameOf(x) === name)`: the first element with that name;
      an absent name finds nothing. */
  function FindNamed<T>(xs: seq<T>, nameOf: T -> string, name: Option<string>): (r: Option<T>)
    ensures r.Some? <==> name.Some? && exists i :: 0 <= i < |xs| && nameOf(xs[i]) == name.value
    ensures r.Some? ==> r.value in xs && nameOf(r.value) == name.value
    ensures r.Some? ==>
      exists i :: 0 <= i < |xs| && xs[i] == r.value && (forall j :: 0 <= j < i ==> nameOf(xs[j]) != name.value)
  {
    if name.None? || |xs| == 0 then None
    else if nameOf(xs[0]) == name.value then Some(xs[0])
    else
      var r := FindNamed(xs[1..], nameOf, name);
      assert r.Some? ==> r.value in xs;
      assert r.Some? ==>
        exists i :: 0 <= i < |xs| && xs[i] == r.value && (forall j :: 0 <= j < i ==> nameOf(xs[j]) != name.value) by {
        if r.Some? {
          var i :| 0 <= i < |xs[1..]| && xs[1..][i] == r.value && (forall j :: 0 <= j < i ==> nameOf(xs[1..][j]) != name.value);
          forall j | 0 <= j < i + 1 ensures nameOf(xs[j]) != name.value {
            if j > 0 { assert xs[j] == xs[1..][j - 1]; }
          }
          assert xs[i + 1] == r.value;
        }
      }
      assert (exists i :: 0 <= i < |xs| && nameOf(xs[i]) == name.value)
        ==> exists i :: 0 <= i < |xs[1..]| && nameOf(xs[1..][i]) == name.value by {
        if exists i :: 0 <= i < |xs| && nameOf(xs[i]) == name.value {
          var i :| 0 <= i < |xs| && nameOf(xs[i]) == name.value;
          assert i > 0 && nameOf(xs[1..][i - 1]) == name.value;
        }
      }
      r
  }

  function ItemName(it: Item): string { it.name }
  function PetName(pet: Pet): string { pet.name }

  /** `getPlayerTotalStats(player)`: base stats plus class skills, the
      equipped weapon, armor and accessory, and the active pet. With the
      shipped tables every contribution is non-negative, so the result is
      never below the base stats. */
  function TotalStats(p: Player): (s: Stats)
    ensures s.damage >= p.baseDamage && s.crit >= p.baseCrit && s.hp >= p.maxHp
  {
    var skills := if p.playerClass != Classless then SkillBonus(SkillsOf(p.playerClass)) else (0, 0);
    var weapon := FindNamed(InitialItems, ItemName, p.equippedWeapon);
    var armor := FindNamed(InitialItems, ItemName, p.equippedArmor);
    var accessory := FindNamed(InitialItems, ItemName, p.equippedAccessory);
    var pet := FindNamed(Pets, PetName, p.activePet);
    ClassBonus(p.playerClass);
    assert (weapon.Some? ==> weapon.value.damage >= 0 && weapon.value.crit >= 0)
      && (armor.Some? ==> armor.value.hp >= 0)
      && (accessory.Some? ==> accessory.value.damage >= 0 && accessory.value.hp >= 0)
      && (pet.Some? ==> pet.value.damage >= 0) by {
      BonusesNonNegative();
    }
    var damage := p.baseDamage + skills.0
      + (if weapon.Some? then weapon.value.damage else 0)
      + (if accessory.Some? then accessory.value.damage else 0)
      + (if pet.Some? then pet.value.damage else 0);
    var crit := p.baseCrit + skills.1 + (if weapon.Some? then weapon.value.crit else 0);
    var hp := p.maxHp
      + (if armor.Some? then armor.value.hp else 0)
      + (if accessory.Some? then accessory.value.hp else 0);
    Stats(damage, crit, hp)
  }

  /** A class's skills never lower damage or crit. */
  lemma ClassBonus(c: PlayerClass)
    ensures SkillBonus(SkillsOf(c)).0 >= 0 && SkillBonus(SkillsOf(c)).1 >= 0
  {
    BonusesNonNegative();
    assert forall i :: 0 <= i < |SkillsOf(c)| ==> SkillsOf(c)[i] in SkillsOf(c);
  }

  /** Without a class, equipment or a known pet, the derived stats are the base stats. */
  lemma StatsBaseline(p: Player)
    requires p.playerClass == Classless
    requires FindNamed(InitialItems, ItemName, p.equippedWeapon).None?
    requires FindNamed(InitialItems, ItemName, p.equippedArmor).None?
    requires FindNamed(InitialItems, ItemName, p.equippedAccessory).None?
    requires FindNamed(Pets, PetName, p.activePet).None?
    ensures TotalStats(p) == Stats(p.baseDamage, p.baseCrit, p.maxHp)
  {
  }

  /** An equipped weapon adds its damage and its crit, and nothing to health. */
  lemma WeaponAdds(p: Player, w: Item)
    requires w in InitialItems && FindNamed(InitialItems, ItemName, Some(w.name)) == Some(w)
    ensures
      var bare := TotalStats(p.(equippedWeapon := None));
      TotalStats(p.(equippedWeapon := Some(w.name))) == Stats(bare.damage + w.damage, bare.crit + w.crit, bare.hp)
  {
  }

  /** Equipped armor adds its health, and nothing to damage or crit. */
  lemma ArmorAdds(p: Player, a: Item)
    requires a in InitialItems && FindNamed(InitialItems, ItemName, Some(a.name)) == Some(a)
    ensures
      var bare := TotalStats(p.(equippedArmor := None));
      TotalStats(p.(equippedArmor := Some(a.name))) == Stats(bare.damage, bare.crit, bare.hp + a.hp)
  {
  }

  /** An equipped accessory adds its damage and its health, but never its crit. */
  lemma AccessoryAdds(p: Player, a: Item)
    requires a in InitialItems && FindNamed(InitialItems, ItemName, Some(a.name)) == Some(a)
    ensures
      var bare := TotalStats(p.(equippedAccessory := None));
      TotalStats(p.(equippedAccessory := Some(a.name))) == Stats(bare.damage + a.damage, bare.crit, bare.hp + a.hp)
  {
  }

  /** A damage skill followed by a critical skill: each bonus lands on its own stat. */
  lemma DamageThenCrit(a: Skill, b: Skill)
    requires !IsCritSkill(a) && IsCritSkill(b)
    ensures SkillBonus([a, b]) == (a.bonus, b.bonus)
  {
    assert [a, b][1..] == [b];
    assert [b][1..] == [];
  }

  /** The Warrior's skills give +20 damage ("Power Slash") and +10 crit
      ("Critical Master"). */
  lemma WarriorSkillBonus()
    ensures SkillBonus(SkillsOf(Warrior)) == (20, 10)
  {
    var slash := SkillsOf(Warrior)[0];
    var master := SkillsOf(Warrior)[1];
    assert IsCritSkill(master) by {
      assert OccursAt("Critical Master", "Critical", 0);
    }
    assert !IsCritSkill(slash) by {
      MissingChar("Power Slash", "Critical", 0);
    }
    DamageThenCrit(slash, master);
    assert SkillsOf(Warrior) == [slash, master];
  }

  /** A fresh Warrior (the class `/start` creates) fights with 35 damage and
      15 crit: the Warrior skills plus 5 damage from the Forest Bunny. */
  lemma NewWarriorStats(username: string, id: string, now: string)
    ensures TotalStats(NewPlayer(username, Warrior, id, now)) == Stats(35, 15, 100)
  {
    var p := NewPlayer(username, Warrior, id, now);
    WarriorSkillBonus();
    assert PetName(Pets[0]) == "\U{1F430} Forest Bunny";
    assert FindNamed(Pets, PetName, p.activePet) == Some(Pets[0]);
  }

  // ---------------------------------------------------------------- ranks

  /** Strictly descending by `min`. */
  predicate Descending(rs: seq<Rank>) {
    forall i, j :: 0 <= i < j < |rs| ==> rs[i].min > rs[j].min
  }

  function Reverse<T>(xs: seq<T>): (r: seq<T>)
    ensures |r| == |xs|
    ensures forall i :: 0 <= i < |xs| ==> r[i] == xs[|xs| - 1 - i]
  {
    if |xs| == 0 then [] else Reverse(xs[1..]) + [xs[0]]
  }

  /** `[...RANKS].sort((a, b) => b.min - a.min)`. The table's `min` values are
      distinct and ascending, so the one order this comparator admits is
      the table read backwards. */
  function RanksByMinDesc(): (rs: seq<Rank>)
    ensures Descending(rs)
    ensures forall x :: x in rs <==> x in Ranks
  {
    RanksAscending();
    var rs := [Ranks[7], Ranks[6], Ranks[5], Ranks[4], Ranks[3], Ranks[2], Ranks[1], Ranks[0]];
    assert forall i :: 0 <= i < 8 ==> rs[i] == Ranks[7 - i];
    assert forall x :: x in Ranks ==> exists i :: 0 <= i < 8 && Ranks[i] == x;
    rs
  }

  /** `rs.find(r => level >= r.min)`. On a descending table the first rank
      reached is the one with the greatest `min` not above `level`. */
  function FirstReached(rs: seq<Rank>, level: int): (r: Option<Rank>)
    ensures r.Some? ==> r.value in rs && r.value.min <= level
    ensures r.None? <==> forall i :: 0 <= i < |rs| ==> rs[i].min > level
    ensures r.Some? && Descending(rs) ==> forall i :: 0 <= i < |rs| && rs[i].min <= level ==> rs[i].min <= r.value.min
  {
    if |rs| == 0 then None
    else if level >= rs[0].min then Some(rs[0])
    else
      var r := FirstReached(rs[1..], level);
      assert forall i :: 1 <= i < |rs| ==> rs[i] == rs[1..][i - 1];
      r
  }

  /** `name` belongs to the rank with the greatest `min` not above `level`. */
  predicate IsRankOf(name: string, level: int) {
    exists i :: 0 <= i < |Ranks| && Ranks[i].name == name && Ranks[i].min <= level
      && forall j :: 0 <= j < |Ranks| && Ranks[j].min <= level ==> Ranks[j].min <= Ranks[i].min
  }

  /** The rank lookup of `handleLevelUp`: defined for every level from 1 up,
      and then it names the highest rank reached. */
  function RankFor(level: int): (r: Option<string>)
    ensures r.Some? <==> level >= 1
    ensures r.Some? ==> IsRankOf(r.value, level)
  {
    var rs := RanksByMinDesc();
    RankReached(rs, level);
    var found := FirstReached(rs, level);
    if found.Some? then Some(found.value.name) else None
  }

  /** On any descending listing of the rank table, the first rank reached
      exists exactly from level 1 up and is the highest rank reached. */
  lemma RankReached(rs: seq<Rank>, level: int)
    requires Descending(rs) && forall x :: x in rs <==> x in Ranks
    ensures FirstReached(rs, level).Some? <==> level >= 1
    ensures FirstReached(rs, level).Some? ==> IsRankOf(FirstReached(rs, level).value.name, level)
  {
    RanksAscending();
    var found := FirstReached(rs, level);
    if found.Some? {
      var i :| 0 <= i < |Ranks| && Ranks[i] == found.value;
      forall j | 0 <= j < |Ranks| && Ranks[j].min <= level ensures Ranks[j].min <= found.value.min {
        assert Ranks[j] in rs;
        var k :| 0 <= k < |rs| && rs[k] == Ranks[j];
      }
      assert Ranks[0].min <= Ranks[i].min;
    } else {
      assert Ranks[0] in rs;
      var k :| 0 <= k < |rs| && rs[k] == Ranks[0];
    }
  }

  // ---------------------------------------------------------------- level-up

  /** `handleLevelUp(player)`: one step, not a loop. Below the threshold
      `level * 100` nothing changes; at or above it the level rises by
      exactly one, the threshold is paid from the experience, max health
      grows by 20 and is refilled, damage grows by 5, and the rank becomes
      the highest one reached. Every other field stays as it was. */
  function LevelUp(p: Player): (r: (Player, bool))
    ensures r.1 <==> p.xp >= p.level * 100
    ensures !r.1 ==> r.0 == p
    ensures r.1 ==> r.0 == p.(level := p.level + 1, xp := p.xp - p.level * 100,
      maxHp := p.maxHp + 20, hp := p.maxHp + 20, baseDamage := p.baseDamage + 5, rank := r.0.rank)
    ensures r.1 && p.level >= 0 ==> IsRankOf(r.0.rank, r.0.level)
    ensures r.1 && p.level < 0 ==> r.0.rank == p.rank
  {
    var needed := p.level * 100;
    if p.xp >= needed then
      var q := p.(level := p.level + 1, xp := p.xp - needed, maxHp := p.maxHp + 20,
                  hp := p.maxHp + 20, baseDamage := p.baseDamage + 5);
      var rank := RankFor(q.level);
      (if rank.Some? then q.(rank := rank.value) else q, true)
    else
      (p, false)
  }

  /** A gain of at most the next level's threshold keeps the invariant
      through one level-up step. */
  lemma LevelUpKeepsValid(p: Player)
    requires Valid(p.(xp := 0))
    requires 0 <= p.xp < p.level * 100 + (p.level + 1) * 100
    ensures Valid(LevelUp(p).0)
  {
  }

  /** The worked example: 250 experience at level 1 ends at level 2 with 150. */
  lemma LevelUpExample(p: Player)
    requires p.level == 1 && p.xp == 250
    ensures LevelUp(p).0.level == 2 && LevelUp(p).0.xp == 150
  {
  }

  /** One call is one step: 1000 experience at level 1 leaves the player at
      level 2 still holding more than the level-2 threshold. */
  lemma LevelUpIsOneStep(p: Player)
    requires p.level == 1 && p.xp == 1000
    ensures LevelUp(p).0.level == 2 && LevelUp(p).0.xp >= LevelUp(p).0.level * 100
  {
  }

  // ---------------------------------------------------------------- gacha

  /** The rarity loop of `rollGacha`: walk the table adding each rate to the
      running total and stop at the first rarity whose total reaches the
      roll (inclusive). Found rarities come from the table, and with
      non-negative rates every roll up to the grand total finds one. */
  function PickFrom(rates: seq<(Rarity, int)>, cumulative: int, roll: real): (r: Option<Rarity>)
    ensures r.Some? ==> exists i :: 0 <= i < |rates| && rates[i].0 == r.value
    ensures (&& |rates| > 0
             && (forall i :: 0 <= i < |rates| ==> rates[i].1 >= 0)
             && roll <= (cumulative + RateSum(rates)) as real) ==> r.Some?
  {
    if |rates| == 0 then None
    else
      var c := cumulative + rates[0].1;
      if roll <= c as real then Some(rates[0].0)
      else
        var r := PickFrom(rates[1..], c, roll);
        assert RateSum(rates) == rates[0].1 + RateSum(rates[1..]);
        assert (forall i :: 0 <= i < |rates| ==> rates[i].1 >= 0)
          ==> forall i :: 0 <= i < |rates[1..]| ==> rates[1..][i].1 >= 0;
        assert r.Some? ==> exists i :: 0 <= i < |rates| && rates[i].0 == r.value by {
          if r.Some? {
            var i :| 0 <= i < |rates[1..]| && rates[1..][i].0 == r.value;
            assert rates[i + 1].0 == r.value;
          }
        }
        r
  }

  /** The bands the gacha table cuts [0, 100) into. */
  function RarityBand(roll: real): Rarity {
    if roll <= 60.0 then Common
    else if roll <= 85.0 then Rare
    else if roll <= 95.0 then Epic
    else if roll <= 99.0 then Legendary
    else Mythic
  }

  /** The rarity selection of `rollGacha` without an explicit rarity. */
  function PickRarity(roll: Draw): Option<Rarity> {
    PickFrom(GachaRates, 0, Percent(roll))
  }

  /** The scan over the last four entries of the table, from 60. */
  lemma PickFromTail(x: real)
    ensures PickFrom([(Rare, 25), (Epic, 10), (Legendary, 4), (Mythic, 1)], 60, x) ==
      if x <= 85.0 then Some(Rare) else if x <= 95.0 then Some(Epic)
      else if x <= 99.0 then Some(Legendary) else if x <= 100.0 then Some(Mythic) else None
  {
    var t4: seq<(Rarity, int)> := [(Mythic, 1)];
    var t3 := [(Legendary, 4)] + t4;
    var t2 := [(Epic, 10)] + t3;
    var t1 := [(Rare, 25)] + t2;
    assert t4[1..] == [];
    assert PickFrom(t4, 99, x) == (if x <= 100.0 then Some(Mythic) else None);
    assert t3[1..] == t4;
    assert PickFrom(t3, 95, x) == (if x <= 99.0 then Some(Legendary) else PickFrom(t4, 99, x));
    assert t2[1..] == t3;
    assert PickFrom(t2, 85, x) == (if x <= 95.0 then Some(Epic) else PickFrom(t3, 95, x));
    assert t1[1..] == t2;
    assert PickFrom(t1, 60, x) == (if x <= 85.0 then Some(Rare) else PickFrom(t2, 85, x));
    assert t1 == [(Rare, 25), (Epic, 10), (Legendary, 4), (Mythic, 1)];
  }

  /** Every roll selects a rarity, and the one its band names. */
  lemma PickRarityBands(roll: Draw)
    ensures PickRarity(roll) == Some(RarityBand(Percent(roll)))
  {
    var x := Percent(roll);
    var t1 := [(Rare, 25), (Epic, 10), (Legendary, 4), (Mythic, 1)];
    PickFromTail(x);
    assert GachaRates == [(Common, 60)] + t1;
    assert GachaRates[1..] == t1;
    assert PickRarity(roll) == (if x <= 60.0 then Some(Common) else PickFrom(t1, 60, x));
  }

  /** `INITIAL_ITEMS.filter(i => i.rarity === rarity)`. */
  function ItemsOf(items: seq<Item>, rarity: Rarity): (r: seq<Item>)
    ensures forall it :: it in r <==> it in items && it.rarity == rarity
  {
    if |items| == 0 then []
    else
      var rest := ItemsOf(items[1..], rarity);
      assert forall it :: it in items <==> it == items[0] || it in items[1..];
      if items[0].rarity == rarity then [items[0]] + rest else rest
  }

  /** Every rarity has at least one shop item, so the gacha never picks from
      an empty list. */
  lemma EveryRarityStocked(rarity: Rarity)
    ensures |ItemsOf(InitialItems, rarity)| > 0
  {
    var i := match rarity
      case Common => 7
      case Rare => 5
      case Epic => 3
      case Legendary => 1
      case Mythic => 0;
    Stocked(InitialItems, rarity, i);
  }

  /** An item of the rarity in the list makes the filtered list non-empty. */
  lemma Stocked(items: seq<Item>, rarity: Rarity, i: int)
    requires 0 <= i < |items| && items[i].rarity == rarity
    ensures |ItemsOf(items, rarity)| > 0
  {
    assert items[i] in items;
  }

  /** `itemsOfRarity[Math.floor(Math.random() * itemsOfRarity.length)]`. */
  function PickItem(rarity: Rarity, pick: Draw): (it: Item)
    ensures it in InitialItems && it.rarity == rarity
  {
    EveryRarityStocked(rarity);
    var items := ItemsOf(InitialItems, rarity);
    var k := Scaled(pick, |items|);
    assert items[k] in items;
    items[k]
  }

  /** `rollGacha(customRarity)`: an item of the requested rarity, or else of
      the rarity whose band the roll falls in. `roll` is read only when no
      rarity is requested; `pick` chooses within the rarity. */
  function RollGacha(customRarity: Option<Rarity>, roll: Draw, pick: Draw): (it: Item)
    ensures it in InitialItems
    ensures customRarity.Some? ==> it.rarity == customRarity.value
    ensures customRarity.None? ==> it.rarity == RarityBand(Percent(roll))
  {
    match customRarity
    case Some(r) => PickItem(r, pick)
    case None =>
      PickRarityBands(roll);
      PickItem(PickRarity(roll).value, pick)
  }

  // ---------------------------------------------------------------- random events

  /** What `checkRandomEvent` reports when a band fires. */
  datatype Event =
    | BonusLevels(levels: int)
    | CoinPenalty(percent: int)
    | PetEvolved(from: string, to: string)
    | RareLoot(item: Item)
    | LegendaryLoot(item: Item)

  /** `pets.map(p => p === from ? to : p)`. */
  function ReplaceAll(pets: seq<string>, from: string, to: string): (r: seq<string>)
    ensures |r| == |pets|
    ensures forall i :: 0 <= i < |pets| ==> r[i] == (if pets[i] == from then to else pets[i])
  {
    seq(|pets|, i requires 0 <= i < |pets| => if pets[i] == from then to else pets[i])
  }

  /** `checkRandomEvent(player)`: one percentage roll picks at most one of
      five ordered bands; `next` is the one further draw a band may read.
      [0,5): 1 to 3 bonus levels with their health and damage, health refilled;
      [5,12): lose 10 to 79 percent of the coins, rounded down, never into debt;
      [12,15): the active pet evolves if it has a next form;
      [15,25): one Rare item; [25,27): one Legendary item;
      otherwise nothing. Without an event the player is unchanged. */
  function RandomEvent(p: Player, roll: Draw, next: Draw): (r: (Player, Option<Event>))
    ensures r.1.None? ==> r.0 == p
    ensures Percent(roll) >= 27.0 ==> r.1.None?
    ensures Percent(roll) < 5.0 ==> (
      && r.1.Some? && r.1.value.BonusLevels?
      && 1 <= r.1.value.levels <= 3
      && r.0 == p.(level := p.level + r.1.value.levels,
                   maxHp := p.maxHp + 20 * r.1.value.levels, hp := p.maxHp + 20 * r.1.value.levels,
                   baseDamage := p.baseDamage + 5 * r.1.value.levels))
    ensures 5.0 <= Percent(roll) < 12.0 ==> (
      && r.1.Some? && r.1.value.CoinPenalty?
      && 10 <= r.1.value.percent <= 79
      && r.0 == p.(coins := r.0.coins)
      && (p.coins >= 0 ==> (
        && 0 <= r.0.coins <= p.coins
        && (p.coins - r.0.coins) * 100 <= p.coins * r.1.value.percent
        && p.coins * r.1.value.percent < (p.coins - r.0.coins + 1) * 100)))
    ensures 12.0 <= Percent(roll) < 15.0 ==> r.1.None? || r.1.value.PetEvolved?
    ensures 12.0 <= Percent(roll) < 15.0 && r.1.Some? ==>
      r.0 == p.(activePet := Some(r.1.value.to), pets := ReplaceAll(p.pets, r.1.value.from, r.1.value.to))
      && p.activePet == Some(r.1.value.from)
    ensures 15.0 <= Percent(roll) < 25.0 ==> (
      && r.1.Some? && r.1.value.RareLoot?
      && r.1.value.item in InitialItems && r.1.value.item.rarity == Rare
      && r.0 == p.(inventory := p.inventory + [r.1.value.item.name]))
    ensures 25.0 <= Percent(roll) < 27.0 ==> (
      && r.1.Some? && r.1.value.LegendaryLoot?
      && r.1.value.item in InitialItems && r.1.value.item.rarity == Legendary
      && r.0 == p.(inventory := p.inventory + [r.1.value.item.name]))
  {
    var rand := Percent(roll);
    if rand < 5.0 then BonusLevelsEvent(p, next)
    else if rand < 12.0 then CoinPenaltyEvent(p, next)
    else if rand < 15.0 then PetEvent(p)
    else if rand < 25.0 then LootEvent(p, Rare, next)
    else if rand < 27.0 then LootEvent(p, Legendary, next)
    else (p, None)
  }

  /** One to three free levels, each with the level-up step's health and
      damage growth but no rank update. */
  function BonusLevelsEvent(p: Player, next: Draw): (r: (Player, Option<Event>))
    ensures r.1.Some? && r.1.value.BonusLevels? && 1 <= r.1.value.levels <= 3
    ensures r.0 == p.(level := p.level + r.1.value.levels,
      maxHp := p.maxHp + 20 * r.1.value.levels, hp := p.maxHp + 20 * r.1.value.levels,
      baseDamage := p.baseDamage + 5 * r.1.value.levels)
  {
    var k := Scaled(next, 3) + 1;
    (p.(level := p.level + k, maxHp := p.maxHp + 20 * k, hp := p.maxHp + 20 * k,
        baseDamage := p.baseDamage + 5 * k), Some(BonusLevels(k)))
  }

  /** Losing 10 to 79 percent of the coins, rounded down. */
  function CoinPenaltyEvent(p: Player, next: Draw): (r: (Player, Option<Event>))
    ensures r.1.Some? && r.1.value.CoinPenalty? && 10 <= r.1.value.percent <= 79
    ensures r.0 == p.(coins := r.0.coins)
    ensures p.coins >= 0 ==>
      && 0 <= r.0.coins <= p.coins
      && (p.coins - r.0.coins) * 100 <= p.coins * r.1.value.percent
      && p.coins * r.1.value.percent < (p.coins - r.0.coins + 1) * 100
  {
    var percent := Scaled(next, 70) + 10;
    var penalty := p.coins * percent / 100;
    PenaltyBounds(p.coins, percent);
    (p.(coins := p.coins - penalty), Some(CoinPenalty(percent)))
  }

  /** `Math.floor(coins * percent / 100)` lies between nothing and all the coins. */
  lemma PenaltyBounds(coins: int, percent: int)
    requires 0 <= percent <= 100
    ensures coins >= 0 ==>
      && 0 <= coins * percent / 100 <= coins
      && (coins * percent / 100) * 100 <= coins * percent < (coins * percent / 100 + 1) * 100
  {
    if coins >= 0 {
      var q := coins * percent;
      assert 0 <= q <= coins * 100 by {
        assert coins * percent <= coins * 100 by {
          assert coins * (100 - percent) >= 0;
        }
      }
    }
  }

  /** The active pet evolves, when it is a known pet with a next form. */
  function PetEvent(p: Player): (r: (Player, Option<Event>))
    ensures r.1.None? ==> r.0 == p
    ensures r.1.Some? ==> (
      && r.1.value.PetEvolved? && p.activePet == Some(r.1.value.from)
      && r.0 == p.(activePet := Some(r.1.value.to), pets := ReplaceAll(p.pets, r.1.value.from, r.1.value.to)))
  {
    var pet := FindNamed(Pets, PetName, p.activePet);
    if pet.Some? && pet.value.nextForm.Some? then
      var previous := p.activePet.value;
      var evolved := pet.value.nextForm.value;
      (p.(activePet := Some(evolved), pets := ReplaceAll(p.pets, previous, evolved)), Some(PetEvolved(previous, evolved)))
    else
      (p, None)
  }

  /** An item of the given rarity is added to the bag. */
  function LootEvent(p: Player, rarity: Rarity, next: Draw): (r: (Player, Option<Event>))
    ensures r.1.Some? && (rarity == Rare ==> r.1.value.RareLoot?) && (rarity != Rare ==> r.1.value.LegendaryLoot?)
    ensures r.1.value.item in InitialItems && r.1.value.item.rarity == rarity
    ensures r.0 == p.(inventory := p.inventory + [r.1.value.item.name])
  {
    var item := PickItem(rarity, next);
    (p.(inventory := p.inventory + [item.name]), Some(if rarity == Rare then RareLoot(item) else LegendaryLoot(item)))
  }

  /** The bonus levels leave the rank as it was: a Bronze player at level 19
      who jumps to level 20 or beyond stays Bronze, although Silver starts
      at 20, until the next level-up step recomputes the rank. */
  lemma BonusLevelsKeepRank(p: Player, roll: Draw, next: Draw)
    requires Percent(roll) < 5.0 && p.level == 19 && p.rank == "Bronze"
    ensures RandomEvent(p, roll, next).0.level >= 20
    ensures RandomEvent(p, roll, next).0.rank == "Bronze"
    ensures !IsRankOf("Bronze", RandomEvent(p, roll, next).0.level)
  {
    var q := RandomEvent(p, roll, next).0;
    assert forall i :: 0 <= i < |Ranks| && Ranks[i].name == "Bronze" ==> i == 0;
    assert Ranks[0].min < Ranks[1].min <= q.level;
  }

  /** A random event keeps the record invariant. */
  lemma RandomEventKeepsValid(p: Player, roll: Draw, next: Draw)
    requires Valid(p)
    ensures Valid(RandomEvent(p, roll, next).0)
  {
  }

  /** With the shipped pet table the evolution band never fires. */
  lemma PetBandInert(p: Player, roll: Draw, next: Draw)
    requires 12.0 <= Percent(roll) < 15.0
    ensures RandomEvent(p, roll, next) == (p, None)
  {
    PetsNeverEvolve();
  }
}
