/** `processCommand`: one message from one chat, answered against the
    player store. A command of a chat without a record is refused unless it
    is `/start`; otherwise the chat's record goes through the command's
    transition and is written back under the chat id. */
module Handler {
  import opened Wrappers
  import opened Types
  import opened Constants
  import opened Draws
  import opened GameLogic
  import opened Store
  import opened Commands

  /** Everything a command may read from outside the store: up to three
      `Math.random()` draws, in the order the handler makes them, and the
      random id and timestamp of a new record. */
  datatype Env = Env(first: Draw, second: Draw, third: Draw, newId: string, now: string)

  /** The reply sent back, with its data; the wording around it is fixed text. */
  datatype Reply =
    | Welcome
    | MainMenu(username: string, level: int, coins: int)
    | UseStart
    | ProfileCard(player: Player, stats: Stats)
    | NoMonster
    | Defeated(monster: string, hpLeft: int)
    | Won(monster: string, coinGain: int, xpGain: int, hpLeft: int, leveledUp: bool, event: bool)
    | ShopMenu(coins: int)
    | Bag(items: seq<string>)
    | Bought(goods: string, coinsLeft: int)
    | GachaWon(prize: Item)
    | VipActive
    | TooPoor(price: int)
    | HelpText
    | Top(players: seq<Player>)
    | UnknownCommand

  /** The keyboard sent with a reply: the shop keyboard for the shop and its purchases. */
  function KeyboardFor(r: Reply): seq<seq<string>> {
    match r
    case ShopMenu(_) => ShopKeyboard
    case Bought(_, _) => ShopKeyboard
    case GachaWon(_) => ShopKeyboard
    case VipActive => ShopKeyboard
    case TooPoor(_) => ShopKeyboard
    case _ => MainKeyboard
  }

  // ---------------------------------------------------------------- hunt

  /** `MONSTERS.filter(m => m.level <= level + 2)`, in table order. */
  function InRange(ms: seq<Monster>, level: int): (r: seq<Monster>)
    ensures forall m :: m in r <==> m in ms && m.level <= level + 2
    ensures |r| <= |ms|
    ensures |r| > 0 ==> r[0] in ms && r[0].level <= level + 2
  {
    if |ms| == 0 then []
    else if ms[0].level <= level + 2 then [ms[0]] + InRange(ms[1..], level)
    else InRange(ms[1..], level)
  }

  function Available(level: int): seq<Monster> {
    InRange(Monsters, level)
  }

  /** The weakest monster is level 5, so nothing is in range below level 3. */
  lemma AvailableEmptyIff(level: int)
    ensures |Available(level)| == 0 <==> level < 3
  {
    MonstersWellFormed();
    var weakest := Monsters[0];
    assert weakest in Monsters && weakest.level == 5;
    if level >= 3 {
      assert weakest in Available(level);
    }
  }

  /** `Math.ceil(a / b)` for a positive divisor: the least `r` with `a <= r * b`. */
  function CeilDiv(a: int, b: int): (r: int)
    requires b > 0
    ensures (r - 1) * b < a <= r * b
    ensures a > 0 ==> r >= 1
  {
    (a + b - 1) / b
  }

  lemma MulAtLeast(a: int, b: int)
    requires a >= 1 && b >= 0
    ensures a * b >= b
  {
  }

  /** `Math.floor(x * 1.5)` on an integer. */
  function TimesThreeHalves(x: int): (r: int)
    ensures 2 * r <= 3 * x < 2 * r + 2
  {
    x * 3 / 2
  }

  /** The experience of a win, with the VIP bonus rounded down. */
  function XpGain(p: Player, m: Monster): (g: int)
    ensures !p.vip ==> g == m.xp
    ensures p.vip ==> 10 * g <= m.xp * VipXpTenths < 10 * g + 10
  {
    if p.vip then m.xp * VipXpTenths / 10 else m.xp
  }

  /** The coins of a win: one and a half times the experience, rounded
      down, then the VIP bonus, rounded down again. */
  function CoinGain(p: Player, m: Monster): (g: int)
    ensures !p.vip ==> g == TimesThreeHalves(m.xp)
    ensures p.vip ==> 10 * g <= TimesThreeHalves(m.xp) * VipCoinTenths < 10 * g + 10
  {
    var base := TimesThreeHalves(m.xp);
    if p.vip then base * VipCoinTenths / 10 else base
  }

  /** The damage taken: the monster strikes once per turn the player
      needs, and the turns are the fewest whose total damage reaches the
      monster's health. */
  function DamageTaken(p: Player, m: Monster): (taken: int)
    requires TotalStats(p).damage > 0
    ensures exists turns ::
      && taken == turns * m.damage
      && (turns - 1) * TotalStats(p).damage < m.hp <= turns * TotalStats(p).damage
    ensures m.hp > 0 && m.damage > 0 ==> taken >= m.damage
  {
    var turns := CeilDiv(m.hp, TotalStats(p).damage);
    assert m.hp > 0 && m.damage > 0 ==> turns * m.damage >= m.damage by {
      if m.hp > 0 && m.damage > 0 { MulAtLeast(turns, m.damage); }
    }
    turns * m.damage
  }

  /** The record right after a won fight, before the level-up step. */
  function Fought(p: Player, m: Monster): Player
    requires TotalStats(p).damage > 0
  {
    p.(hp := p.hp - DamageTaken(p, m), xp := p.xp + XpGain(p, m), coins := p.coins + CoinGain(p, m))
  }

  /** One fight against `m`. If the damage taken reaches the health, the
      player is left with 10 health and nothing else changes; otherwise the
      damage is subtracted, the gains are added, one level-up step runs and
      then one random-event roll. */
  function Fight(p: Player, m: Monster, roll: Draw, next: Draw): (r: (Player, Reply))
    requires TotalStats(p).damage > 0
    ensures r.1.Defeated? <==> p.hp <= DamageTaken(p, m)
    ensures r.1.Defeated? ==> r.0 == p.(hp := 10) && r.1.hpLeft == 10
    ensures r.1.Won? ==> r.1.hpLeft == p.hp - DamageTaken(p, m) > 0
    ensures r.1.Won? ==> r.1.coinGain == CoinGain(p, m) && r.1.xpGain == XpGain(p, m)
    ensures r.1.Won? ==>
      var fought := Fought(p, m);
      && r.0 == RandomEvent(LevelUp(fought).0, roll, next).0
      && r.1.leveledUp == LevelUp(fought).1
      && r.1.event == RandomEvent(LevelUp(fought).0, roll, next).1.Some?
    ensures r.1.Defeated? || r.1.Won?
  {
    var taken := DamageTaken(p, m);
    if p.hp <= taken then
      (p.(hp := 10), Defeated(m.name, 10))
    else
      var fought := Fought(p, m);
      var leveled := LevelUp(fought);
      var after := RandomEvent(leveled.0, roll, next);
      (after.0, Won(m.name, CoinGain(p, m), XpGain(p, m), fought.hp, leveled.1, after.1.Some?))
  }

  /** The monster the first draw picks from the ones in range. */
  function Pick(p: Player, u: Draw): (m: Option<Monster>)
    ensures m.None? <==> p.level < 3
    ensures m.Some? ==> m.value in Monsters && m.value.level <= p.level + 2
  {
    var ms := Available(p.level);
    AvailableEmptyIff(p.level);
    if |ms| == 0 then None
    else
      var m := ms[Scaled(u, |ms|)];
      assert m in ms;
      Some(m)
  }

  /** `/hunt` as intended: with no monster in range the player is told so
      and nothing changes; otherwise the first draw picks the monster and
      the other two drive the random event. */
  function HuntStep(p: Player, env: Env): (r: (Player, Reply))
    requires TotalStats(p).damage > 0
    ensures r.1 == NoMonster <==> p.level < 3
    ensures r.1 == NoMonster ==> r.0 == p
    ensures p.level >= 3 ==> Pick(p, env.first).Some? && r == Fight(p, Pick(p, env.first).value, env.second, env.third)
  {
    match Pick(p, env.first)
    case None => (p, NoMonster)
    case Some(m) => Fight(p, m, env.second, env.third)
  }

  /** No monster gives more experience, even with the VIP bonus, than one
      level's threshold below its own level, nor negative coins. */
  lemma GainsBounded(m: Monster)
    requires m in Monsters
    ensures m.xp * VipXpTenths / 10 <= (m.level - 1) * 100
    ensures 0 <= m.xp && 0 <= TimesThreeHalves(m.xp) * VipCoinTenths / 10
  {
    assert m in MonstersLow || m in MonstersMid || m in MonstersHigh;
  }

  /** A win against a monster in range gains no negative coins and less
      experience than the next level's threshold. */
  lemma WinGainsBounded(p: Player, m: Monster)
    requires m in Monsters && m.level <= p.level + 2
    ensures 0 <= XpGain(p, m) <= (p.level + 1) * 100
    ensures CoinGain(p, m) >= 0
  {
    GainsBounded(m);
  }

  /** A won fight against a monster in range leaves a record the level-up
      step can absorb: the damage taken is positive and below the health,
      and the experience stays below two thresholds. */
  lemma FoughtValid(p: Player, m: Monster)
    requires Valid(p) && m in Monsters && m.level <= p.level + 2
    requires p.hp > DamageTaken(p, m)
    ensures Valid(Fought(p, m).(xp := 0))
    ensures 0 <= Fought(p, m).xp < p.level * 100 + (p.level + 1) * 100
  {
    MonstersWellFormed();
    assert DamageTaken(p, m) >= m.damage > 0;
    WinGainsBounded(p, m);
  }

  /** A fight against a monster in range keeps the record invariant. */
  lemma FightKeepsValid(p: Player, m: Monster, roll: Draw, next: Draw)
    requires Valid(p) && m in Monsters && m.level <= p.level + 2
    ensures Valid(Fight(p, m, roll, next).0)
  {
    if p.hp > DamageTaken(p, m) {
      var fought := Fought(p, m);
      FoughtValid(p, m);
      LevelUpKeepsValid(fought);
      RandomEventKeepsValid(LevelUp(fought).0, roll, next);
    }
  }

  /** A hunt keeps the record invariant. */
  lemma HuntKeepsValid(p: Player, env: Env)
    requires Valid(p)
    ensures Valid(HuntStep(p, env).0)
  {
    var picked := Pick(p, env.first);
    if picked.Some? {
      FightKeepsValid(p, picked.value, env.second, env.third);
    }
  }

  // ---------------------------------------------------------------- shop

  /** The price of each purchase; an unrecognised `/buy...` costs nothing. */
  function Price(k: BuyKind): int {
    match k
    case Katana => 1200
    case Spear => 2500
    case ArmorPiece => 1800
    case GachaPull => 500
    case VipPass => 10000
    case OtherBuy => 0
  }

  /** The item name a fixed purchase puts in the bag; empty for an unrecognised one. */
  function Goods(k: BuyKind): string {
    match k
    case Katana => "\U{1F525} Katana"
    case Spear => "\U{26A1} Spear"
    case ArmorPiece => "\U{1F6E1}\U{FE0F} Armor"
    case _ => ""
  }

  /** A purchase. It changes the record only when the coins cover the
      price; then exactly the price is paid and either the bag grows by
      exactly one name (a gacha pull adds a rolled item) or VIP turns on.
      Otherwise the record is unchanged and the price is reported. */
  function Purchase(p: Player, k: BuyKind, pull: Draw, pick: Draw): (r: (Player, Reply))
    ensures p.coins < Price(k) ==> r == (p, TooPoor(Price(k)))
    ensures p.coins >= Price(k) ==> r.0.coins == p.coins - Price(k)
    ensures p.coins >= Price(k) && k == VipPass ==> r == (p.(coins := r.0.coins, vip := true), VipActive)
    ensures p.coins >= Price(k) && k != VipPass ==>
      && |r.0.inventory| == |p.inventory| + 1
      && r.0.inventory[..|p.inventory|] == p.inventory
      && r.0 == p.(coins := r.0.coins, inventory := r.0.inventory)
    ensures p.coins >= Price(k) && k == GachaPull ==>
      r.1.GachaWon? && r.1.prize in InitialItems && r.0.inventory[|p.inventory|] == r.1.prize.name
    ensures p.coins >= Price(k) && k == GachaPull ==>
      r.1.prize == RollGacha(None, pull, pick) && r.1.prize.rarity == RarityBand(Percent(pull))
    ensures p.coins >= Price(k) && k != GachaPull && k != VipPass ==>
      r.0.inventory[|p.inventory|] == Goods(k) && r.1 == Bought(Goods(k), r.0.coins)
    ensures p.coins >= 0 ==> r.0.coins >= 0
  {
    var price := Price(k);
    if p.coins >= price then
      match k
      case GachaPull =>
        var it := RollGacha(None, pull, pick);
        (p.(coins := p.coins - 500, inventory := p.inventory + [it.name]), GachaWon(it))
      case VipPass =>
        (p.(coins := p.coins - 10000, vip := true), VipActive)
      case _ =>
        (p.(coins := p.coins - price, inventory := p.inventory + [Goods(k)]), Bought(Goods(k), p.coins - price))
    else
      (p, TooPoor(price))
  }

  /** An unrecognised `/buy...` is free and puts an empty name in the bag. */
  lemma UnknownPurchase(p: Player, pull: Draw, pick: Draw)
    requires p.coins >= 0
    ensures Purchase(p, OtherBuy, pull, pick).0 == p.(inventory := p.inventory + [""])
  {
  }

  // ---------------------------------------------------------------- leaderboard

  /** Player `i` is listed before player `j`: a higher level, or the same
      level and earlier in store order (the sort is stable). */
  predicate Before(vs: seq<Player>, i: int, j: int)
    requires 0 <= i < |vs| && 0 <= j < |vs|
  {
    vs[i].level > vs[j].level || (vs[i].level == vs[j].level && i < j)
  }

  /** `xs` lists distinct store positions in strict `Before` order. */
  predicate Ranked(vs: seq<Player>, xs: seq<int>) {
    && (forall a :: 0 <= a < |xs| ==> 0 <= xs[a] < |vs|)
    && (forall a, b :: 0 <= a < b < |xs| ==> Before(vs, xs[a], xs[b]))
  }

  /** A position listed before every entry of a ranked list may head it. */
  lemma ConsRanked(vs: seq<Player>, h: int, t: seq<int>)
    requires 0 <= h < |vs| && Ranked(vs, t)
    requires forall x :: x in t ==> 0 <= x < |vs| && Before(vs, h, x)
    ensures Ranked(vs, [h] + t)
  {
    var r := [h] + t;
    forall a, b | 0 <= a < b < |r| ensures Before(vs, r[a], r[b]) {
      if a == 0 { assert r[b] in t; } else { assert r[a] == t[a - 1] && r[b] == t[b - 1]; }
    }
  }

  /** The head of a ranked list comes before the rest, and the rest is ranked. */
  lemma HeadFirst(vs: seq<Player>, xs: seq<int>)
    requires Ranked(vs, xs) && |xs| > 0
    ensures Ranked(vs, xs[1..])
    ensures forall x :: x in xs[1..] ==> Before(vs, xs[0], x)
  {
    forall x | x in xs[1..] ensures Before(vs, xs[0], x) {
      var c :| 0 <= c < |xs[1..]| && xs[1..][c] == x;
      assert x == xs[c + 1];
    }
  }

  function InsertRanked(vs: seq<Player>, i: int, xs: seq<int>): (r: seq<int>)
    requires 0 <= i < |vs| && i !in xs && Ranked(vs, xs)
    ensures |r| == |xs| + 1
    ensures forall x :: x in r <==> x in xs || x == i
    ensures Ranked(vs, r)
  {
    if |xs| == 0 then [i]
    else
      HeadFirst(vs, xs);
      if Before(vs, i, xs[0]) then
        assert forall x :: x in xs ==> 0 <= x < |vs| && Before(vs, i, x) by {
          forall x | x in xs ensures 0 <= x < |vs| && Before(vs, i, x) {
            if x != xs[0] { assert x in xs[1..]; }
          }
        }
        ConsRanked(vs, i, xs);
        [i] + xs
      else
        var rest := InsertRanked(vs, i, xs[1..]);
        assert forall x :: x in rest ==> 0 <= x < |vs| && Before(vs, xs[0], x);
        ConsRanked(vs, xs[0], rest);
        assert forall x :: x in xs <==> x == xs[0] || x in xs[1..];
        [xs[0]] + rest
  }

  /** The store positions `0..n-1`, sorted. */
  function RankFirst(vs: seq<Player>, n: nat): (r: seq<int>)
    requires n <= |vs|
    ensures |r| == n
    ensures forall x :: x in r <==> 0 <= x < n
    ensures Ranked(vs, r)
  {
    if n == 0 then [] else InsertRanked(vs, n - 1, RankFirst(vs, n - 1))
  }

  /** The order of `Object.values(players).sort((a, b) => b.level - a.level)`:
      every store position once, by level descending, ties in store order. */
  function RankingOrder(vs: seq<Player>): (r: seq<int>)
    ensures |r| == |vs|
    ensures forall x :: x in r <==> 0 <= x < |vs|
    ensures Ranked(vs, r)
  {
    RankFirst(vs, |vs|)
  }

  /** There is only one such order: any listing of all positions in strict
      `Before` order is `RankingOrder`. */
  lemma {:induction false} RankedUnique(vs: seq<Player>, xs: seq<int>, ys: seq<int>)
    requires Ranked(vs, xs) && Ranked(vs, ys)
    requires forall x :: x in xs <==> x in ys
    ensures xs == ys
    decreases |xs|
  {
    assert |xs| > 0 ==> xs[0] in ys;
    assert |ys| > 0 ==> ys[0] in xs;
    if |xs| > 0 && |ys| > 0 {
      HeadFirst(vs, xs);
      HeadFirst(vs, ys);
      assert xs == [xs[0]] + xs[1..] && ys == [ys[0]] + ys[1..];
      var h, g, xt, yt := xs[0], ys[0], xs[1..], ys[1..];
      assert h == g || h in yt;
      assert h == g || g in xt;
      forall x ensures x in xs[1..] <==> x in ys[1..] {
        assert x in xs <==> x == xs[0] || x in xs[1..];
        assert x in ys <==> x == ys[0] || x in ys[1..];
        assert x in xs[1..] ==> x != xs[0];
        assert x in ys[1..] ==> x != ys[0];
      }
      RankedUnique(vs, xs[1..], ys[1..]);
    }
  }

  /** `.slice(0, 5)` of the sorted players: at most five, from the store,
      by level descending. */
  function TopFive(vs: seq<Player>): (r: seq<Player>)
    ensures |r| == if |vs| < 5 then |vs| else 5
    ensures forall a :: 0 <= a < |r| ==> r[a] == vs[RankingOrder(vs)[a]]
    ensures forall a :: 0 <= a < |r| ==> r[a] in vs
    ensures forall a, b :: 0 <= a < b < |r| ==> r[a].level >= r[b].level
  {
    var ix := RankingOrder(vs);
    var n := if |vs| < 5 then |vs| else 5;
    seq(n, a requires 0 <= a < n => vs[ix[a]])
  }

  /** A player left off the list has no higher level than any listed one,
      and at an equal level was stored after it. */
  lemma TopFiveOmitted(vs: seq<Player>, j: int)
    requires 0 <= j < |vs| && j !in RankingOrder(vs)[..|TopFive(vs)|]
    ensures forall a :: 0 <= a < |TopFive(vs)| ==> vs[j].level <= TopFive(vs)[a].level
    ensures forall a :: 0 <= a < |TopFive(vs)| && vs[j].level == TopFive(vs)[a].level ==> RankingOrder(vs)[a] < j
  {
    var ix := RankingOrder(vs);
    var n := |TopFive(vs)|;
    assert j in ix;
    var c :| 0 <= c < |ix| && ix[c] == j;
    forall a | 0 <= a < n ensures ix[a] != j {
      assert ix[..n][a] == ix[a];
    }
    assert c >= n;
    forall a | 0 <= a < n ensures Before(vs, ix[a], j) {
      assert Before(vs, ix[a], ix[c]);
    }
  }

  // ---------------------------------------------------------------- dispatch

  /** What a command does to an existing record, given the store it sits in. */
  function Act(p: Player, c: Command, s: Players, env: Env): (r: (Player, Reply))
    requires TotalStats(p).damage > 0
    ensures c == Hunt ==> r == HuntStep(p, env)
    ensures c.Buy? ==> r == Purchase(p, c.kind, env.first, env.second)
    ensures c != Hunt && !c.Buy? ==> r.0 == p
    ensures c == Profile ==> r.1 == ProfileCard(p, TotalStats(p))
    ensures c == Shop ==> r.1 == ShopMenu(p.coins)
    ensures c == Inventory ==> r.1 == Bag(p.inventory)
    ensures c == Help ==> r.1 == HelpText
    ensures c == Leaderboard ==> r.1 == Top(TopFive(Values(s)))
    ensures c == Start || c == Unknown ==> r.1 == UnknownCommand
  {
    match c
    case Profile => (p, ProfileCard(p, TotalStats(p)))
    case Hunt => HuntStep(p, env)
    case Shop => (p, ShopMenu(p.coins))
    case Inventory => (p, Bag(p.inventory))
    case Buy(k) => Purchase(p, k, env.first, env.second)
    case Help => (p, HelpText)
    case Leaderboard => (p, Top(TopFive(Values(s))))
    case _ => (p, UnknownCommand)
  }

  /** Every command keeps the record invariant. */
  lemma ActKeepsValid(p: Player, c: Command, s: Players, env: Env)
    requires Valid(p)
    ensures Valid(Act(p, c, s, env).0)
  {
    if c == Hunt { HuntKeepsValid(p, env); }
  }

  /** Only a hunt can change the level. */
  lemma ActKeepsLevel(p: Player, c: Command, s: Players, env: Env)
    requires TotalStats(p).damage > 0 && c != Hunt
    ensures Act(p, c, s, env).0.level == p.level
  {
    if c.Buy? { PurchaseKeepsLevel(p, c.kind, env.first, env.second); }
  }

  lemma PurchaseKeepsLevel(p: Player, k: BuyKind, pull: Draw, pick: Draw)
    ensures Purchase(p, k, pull, pick).0.level == p.level
  {
  }

  /** Every record in a valid store has positive derived damage. */
  lemma StoredDamage(s: Players, k: int)
    requires AllValid(s) && Lookup(s, k).Some?
    ensures Valid(Lookup(s, k).value) && TotalStats(Lookup(s, k).value).damage > 0
  {
    var i :| 0 <= i < |s| && s[i] == Entry(k, Lookup(s, k).value);
  }

  /** `processCommand(chatId, username, rawText)` as intended. A chat
      without a record gets a new Warrior on `/start` and is told to use
      `/start` otherwise, with the store unchanged; `/start` on an existing
      record changes nothing; any other command writes the chat's record
      back after its transition. Other chats' records are never touched,
      and the store invariants are kept. */
  function Process(s: Players, chatId: int, username: string, raw: string, env: Env): (r: (Players, Reply))
    requires AllValid(s)
    ensures Lookup(s, chatId).None? && Parse(raw) != Start ==> r == (s, UseStart)
    ensures Lookup(s, chatId).None? && Parse(raw) == Start ==>
      && r.1 == Welcome
      && Lookup(r.0, chatId) == Some(NewPlayer(username, Warrior, env.newId, env.now))
    ensures Lookup(s, chatId).Some? && Parse(raw) == Start ==> r.0 == s && r.1.MainMenu?
    ensures forall k :: k != chatId ==> Lookup(r.0, k) == Lookup(s, k)
    ensures Keys(r.0) == Keys(s) || (Keys(r.0) == Keys(s) + {chatId} && Parse(raw) == Start)
    ensures AllValid(r.0)
    ensures Ordered(s) ==> Ordered(r.0)
  {
    var found := Lookup(s, chatId);
    var c := Parse(raw);
    if c == Start then
      if found.None? then
        (Put(s, chatId, NewPlayer(username, Warrior, env.newId, env.now)), Welcome)
      else
        (s, MainMenu(found.value.username, found.value.level, found.value.coins))
    else if found.None? then
      (s, UseStart)
    else
      var p := found.value;
      StoredDamage(s, chatId);
      ActKeepsValid(p, c, s, env);
      var done := Act(p, c, s, env);
      (Put(s, chatId, done.0), done.1)
  }

  /** Any command but `/start` on an existing record: the record is valid,
      goes through the command's transition, and the result is written back
      under the chat id. */
  lemma ProcessExisting(s: Players, chatId: int, username: string, raw: string, env: Env)
    requires AllValid(s) && Lookup(s, chatId).Some? && Parse(raw) != Start
    ensures
      var p := Lookup(s, chatId).value;
      && Valid(p) && TotalStats(p).damage > 0
      && Process(s, chatId, username, raw, env) == (Put(s, chatId, Act(p, Parse(raw), s, env).0), Act(p, Parse(raw), s, env).1)
  {
    StoredDamage(s, chatId);
  }

  /** Only `/start` and `/hunt` can change a chat's level, and `/start`
      only by creating the record. */
  lemma LevelOnlyFromHunt(s: Players, chatId: int, username: string, raw: string, env: Env)
    requires AllValid(s) && Lookup(s, chatId).Some? && Parse(raw) != Hunt
    ensures Lookup(Process(s, chatId, username, raw, env).0, chatId).value.level == Lookup(s, chatId).value.level
  {
    var p := Lookup(s, chatId).value;
    if Parse(raw) != Start {
      StoredDamage(s, chatId);
      ActKeepsLevel(p, Parse(raw), s, env);
    }
  }

  // ---------------------------------------------------------------- as written

  /** `/hunt` as the handler is written: it indexes the filtered monster
      list without checking it, so with no monster in range it reads
      `undefined.hp` and throws. `None` is that exception. */
  function HuntAsWritten(p: Player, env: Env): (r: Option<(Player, Reply)>)
    requires TotalStats(p).damage > 0
    ensures r.None? <==> p.level < 3
    ensures r.Some? ==> r.value == HuntStep(p, env)
  {
    match Pick(p, env.first)
    case None => None
    case Some(m) => Some(Fight(p, m, env.second, env.third))
  }

  /** `processCommand` as written: `None` when the handler throws. */
  function ProcessAsWritten(s: Players, chatId: int, username: string, raw: string, env: Env): (r: Option<(Players, Reply)>)
    requires AllValid(s)
    ensures r.None? <==> Parse(raw) == Hunt && Lookup(s, chatId).Some? && Lookup(s, chatId).value.level < 3
    ensures r.Some? ==> r.value == Process(s, chatId, username, raw, env)
  {
    var found := Lookup(s, chatId);
    if Parse(raw) == Hunt && found.Some? then
      StoredDamage(s, chatId);
      ProcessHunt(s, chatId, username, raw, env);
      match HuntAsWritten(found.value, env)
      case None => None
      case Some(done) => Some((Put(s, chatId, done.0), done.1))
    else
      Some(Process(s, chatId, username, raw, env))
  }

  /** A hunt on an existing record writes back the hunted record. */
  lemma ProcessHunt(s: Players, chatId: int, username: string, raw: string, env: Env)
    requires AllValid(s) && Parse(raw) == Hunt && Lookup(s, chatId).Some?
    requires TotalStats(Lookup(s, chatId).value).damage > 0
    ensures
      var done := HuntStep(Lookup(s, chatId).value, env);
      Process(s, chatId, username, raw, env) == (Put(s, chatId, done.0), done.1)
  {
  }

  /** A player's first hunt after `/start` throws: the new record is level 1. */
  lemma FirstHuntThrows(s: Players, chatId: int, username: string, start: string, hunt: string, env: Env, env2: Env)
    requires AllValid(s) && Lookup(s, chatId).None?
    requires Parse(start) == Start && Parse(hunt) == Hunt
    ensures ProcessAsWritten(s, chatId, username, start, env).Some?
    ensures
      var s1 := ProcessAsWritten(s, chatId, username, start, env).value.0;
      ProcessAsWritten(s1, chatId, username, hunt, env2).None?
  {
  }

  /** With the intended hunt, a record below level 3 is told that no
      monster is in range, and the store stays exactly as it was. */
  lemma LowLevelHuntAnswered(s: Players, chatId: int, username: string, hunt: string, env: Env)
    requires AllValid(s) && Ordered(s) && Parse(hunt) == Hunt
    requires Lookup(s, chatId).Some? && Lookup(s, chatId).value.level < 3
    ensures Process(s, chatId, username, hunt, env) == (s, NoMonster)
  {
    var p := Lookup(s, chatId).value;
    StoredDamage(s, chatId);
    ProcessHunt(s, chatId, username, hunt, env);
    PutSame(s, chatId, p);
  }

  /** So a player's first hunt after `/start` is answered. */
  lemma FirstHuntAnswered(s: Players, chatId: int, username: string, start: string, hunt: string, env: Env, env2: Env)
    requires AllValid(s) && Ordered(s) && Lookup(s, chatId).None?
    requires Parse(start) == Start && Parse(hunt) == Hunt
    ensures
      var s1 := Process(s, chatId, username, start, env).0;
      Process(s1, chatId, username, hunt, env2) == (s1, NoMonster)
  {
    var s1 := Process(s, chatId, username, start, env).0;
    LowLevelHuntAnswered(s1, chatId, username, hunt, env2);
  }

  /** The typed commands are such texts. */
  lemma TypedStartAndHunt()
    ensures Parse("/start") == Start && Parse("/hunt") == Hunt
  {
    WordRoundTrip(Start);
    WordRoundTrip(Hunt);
  }
}
