/** The static game tables: shop items, class skills, monsters, the pet,
    ranks, gacha rates and the VIP multipliers. */
module Constants {
  import opened Wrappers
  import opened Types
  import opened Text

  const InitialItems: seq<Item> := [
    Item("\U{1F531} Spear of Eternity", Weapon, 1500, 100, 0, 0, 100000, Mythic),
    Item("\U{1F409} Emperor Plate", Armor, 0, 0, 5000, 0, 75000, Legendary),
    Item("\U{26A1} Void Dagger", Weapon, 800, 50, 0, 0, 50000, Legendary),
    Item("\U{1F525} Phoenix Amulet", Accessory, 0, 0, 1500, 0, 25000, Epic),
    Item("\U{2744}\U{FE0F} Frost Shield", Armor, 0, 0, 800, 0, 10000, Epic),
    Item("\U{1FA78} Warrior Band", Accessory, 100, 0, 0, 0, 5000, Rare),
    Item("\U{1F9EA} Power Elixir", Potion, 50, 0, 0, 0, 2000, Rare),
    Item("\U{1FAB5} Wood Staff", Weapon, 30, 0, 0, 0, 500, Common),
    Item("\U{1FA79} Small Bandage", Potion, 0, 0, 0, 20, 200, Common),
    Item("\U{1F9B4} Rusty Dagger", Weapon, 15, 5, 0, 0, 50, Common)
  ]

  /** `SKILL_TREE[c]`. */
  function SkillsOf(c: PlayerClass): seq<Skill> {
    match c
    case Warrior => [Skill("Power Slash", 20), Skill("Critical Master", 10)]
    case Mage => [Skill("Fireball", 30), Skill("Mana Boost", 15)]
    case Assassin => [Skill("Shadow Strike", 20), Skill("Stealth", 15)]
    case Classless => []
  }

  const MonstersLow: seq<Monster> := [
    Monster("\U{1F311} Shadow Stalker", 5, 80, 8, 10, "\U{1F311} Essence"),
    Monster("\U{1F9B4} Bone Gnawer", 10, 150, 15, 15, "\U{1F9B4} Bone")
  ]

  const MonstersMid: seq<Monster> := [
    Monster("\U{1F525} Blazing Efreet", 30, 1200, 120, 50, "\U{1F525} Flame"),
    Monster("\U{2744}\U{FE0F} Frost Gargoyle", 45, 3000, 300, 80, "\U{2744}\U{FE0F} Ice")
  ]

  const MonstersHigh: seq<Monster> := [
    Monster("\U{1F30C} Abyss Walker", 80, 18000, 1800, 200, "\U{1F30C} Void"),
    Monster("\U{1F409} Star Dragon", 250, 300000, 25000, 1000, "\U{1F48E} Soul")
  ]

  const BossMonsters: seq<Monster> := [
    Monster("\U{1F451} MiMi, Chaos Goddess", 500, 5000000, 150000, 100000, "\U{2728} Chaos Shard")
  ]

  /** The hunting pool: the three tiers, without the boss. */
  const Monsters: seq<Monster> := MonstersLow + MonstersMid + MonstersHigh

  const Pets: seq<Pet> := [Pet("\U{1F430} Forest Bunny", 5, 10, None)]

  const Ranks: seq<Rank> := [
    Rank("Bronze", 1), Rank("Silver", 20), Rank("Gold", 50),
    Rank("Platinum", 100), Rank("Diamond", 250), Rank("Mythic", 500),
    Rank("Legend", 1000), Rank("Immortal", 5000)
  ]

  /** `GACHA_RATES` in its iteration order. */
  const GachaRates: seq<(Rarity, int)> := [(Common, 60), (Rare, 25), (Epic, 10), (Legendary, 4), (Mythic, 1)]

  /** `VIP_CONFIG.bonusXp` (1.3) and `VIP_CONFIG.bonusCoins` (1.5) as tenths. */
  const VipXpTenths := 13
  const VipCoinTenths := 15

  /** Sum of the second components of a rate table. */
  function RateSum(rates: seq<(Rarity, int)>): int {
    if |rates| == 0 then 0 else rates[0].1 + RateSum(rates[1..])
  }

  /** The rank table is strictly ascending by `min` and starts at level 1. */
  lemma RanksAscending()
    ensures |Ranks| > 0 && Ranks[0].min == 1
    ensures forall i, j :: 0 <= i < j < |Ranks| ==> Ranks[i].min < Ranks[j].min
  {
  }

  /** The gacha rates cover exactly 100 percent, in the order Common to Mythic. */
  lemma GachaRatesTotal()
    ensures RateSum(GachaRates) == 100
    ensures forall i :: 0 <= i < |GachaRates| ==> GachaRates[i].1 > 0
    ensures [GachaRates[0].0, GachaRates[1].0, GachaRates[2].0, GachaRates[3].0, GachaRates[4].0]
         == [Common, Rare, Epic, Legendary, Mythic]
  {
  }

  /** Every monster of the hunting pool is from the three tiers, is at least
      level 5, and has positive hit points, damage and experience. */
  lemma MonstersWellFormed()
    ensures |Monsters| == |MonstersLow| + |MonstersMid| + |MonstersHigh|
    ensures forall m :: m in Monsters ==> m.level >= 5 && m.hp > 0 && m.damage > 0 && m.xp > 0
    ensures forall b :: b in BossMonsters ==> b !in Monsters
  {
  }

  /** Item stats, skill bonuses and pet damage are never negative. */
  lemma BonusesNonNegative()
    ensures forall it :: it in InitialItems ==> it.damage >= 0 && it.crit >= 0 && it.hp >= 0
    ensures forall c, s :: s in SkillsOf(c) ==> s.bonus >= 0
    ensures forall pet :: pet in Pets ==> pet.damage >= 0
  {
    forall it | it in InitialItems ensures it.damage >= 0 && it.crit >= 0 && it.hp >= 0 {
      var i :| 0 <= i < |InitialItems| && InitialItems[i] == it;
      assert i in {0, 1, 2, 3, 4, 5, 6, 7, 8, 9};
    }
    forall c, s | s in SkillsOf(c) ensures s.bonus >= 0 {
      match c
      case Warrior =>
      case Mage =>
      case Assassin =>
      case Classless =>
    }
  }

  /** Only the Warrior's "Critical Master" names a critical skill; the
      classless player has no skills. */
  lemma OnlyCriticalMaster()
    ensures forall c, s :: s in SkillsOf(c) && Contains(s.name, "Critical") ==> c == Warrior && s.name == "Critical Master"
    ensures SkillsOf(Classless) == []
  {
    forall c, s | s in SkillsOf(c) && Contains(s.name, "Critical")
      ensures c == Warrior && s.name == "Critical Master"
    {
      var names := SkillsOf(c);
      var i :| 0 <= i < |names| && names[i] == s;
      if !(c == Warrior && i == 1) {
        NotCritical(c, i);
        MissingChar(s.name, "Critical", 0);
      }
    }
  }

  /** Every skill name but the Warrior's second lacks a capital C. */
  lemma NotCritical(c: PlayerClass, i: int)
    requires 0 <= i < |SkillsOf(c)| && !(c == Warrior && i == 1)
    ensures 'C' !in SkillsOf(c)[i].name
  {
    match c
    case Warrior => assert SkillsOf(c)[i].name == "Power Slash";
    case Mage =>
    case Assassin =>
    case Classless =>
  }

  /** The only pet never evolves. */
  lemma PetsNeverEvolve()
    ensures forall pet :: pet in Pets ==> pet.nextForm.None?
  {
  }
}
