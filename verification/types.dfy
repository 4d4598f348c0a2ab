/** The record shapes of the game: items, skills, monsters, pets, ranks and
    the player record itself. Optional numeric item stats are read by the
    source as `x || 0`, so an absent stat is stored here as 0. */
module Types {
  import opened Wrappers

  datatype Rarity = Common | Rare | Epic | Legendary | Mythic

  datatype ItemCategory = Weapon | Armor | Accessory | Potion

  /** The four classes; `Classless` is the source's `'None'`. */
  datatype PlayerClass = Warrior | Mage | Assassin | Classless

  datatype Skill = Skill(name: string, bonus: int)

  datatype Item = Item(
    name: string,
    category: ItemCategory,
    damage: int,
    crit: int,
    hp: int,
    heal: int,
    price: int,
    rarity: Rarity)

  datatype Monster = Monster(name: string, level: int, hp: int, damage: int, xp: int, drop: string)

  datatype Pet = Pet(name: string, damage: int, evolveLevel: int, nextForm: Option<string>)

  datatype Rank = Rank(name: string, min: int)

  /** One player record, keyed in the store by its chat id. */
  datatype Player = Player(
    id: string,
    username: string,
    playerClass: PlayerClass,
    level: int,
    xp: int,
    coins: int,
    hp: int,
    maxHp: int,
    baseDamage: int,
    baseCrit: int,
    inventory: seq<string>,
    equippedWeapon: Option<string>,
    equippedArmor: Option<string>,
    equippedAccessory: Option<string>,
    pets: seq<string>,
    activePet: Option<string>,
    guild: string,
    rank: string,
    vip: bool,
    dailyClaimed: bool,
    dailyDate: string,
    registerDate: string,
    dungeonsCleared: int)

  /** The invariant every transition of the game keeps: at least level 1,
      experience below the next threshold, no debt, health within
      [1, maxHp], and base stats no lower than a new record's. */
  predicate Valid(p: Player) {
    && p.level >= 1
    && 0 <= p.xp < p.level * 100
    && p.coins >= 0
    && 1 <= p.hp <= p.maxHp
    && p.maxHp >= 100
    && p.baseDamage >= 10
    && p.baseCrit >= 0
  }
}
