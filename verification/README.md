# MiMi Games RPG bot: the player-state core in Dafny

The MiMi bot is a Telegram role-playing game. It long-polls Telegram for
updates and keeps one record per chat in a store keyed by chat id. It
answers each text message by mapping the text to a command and running
that command's transition on the chat's record. This project models that
core as pure functions over immutable records, and every `Math.random()`
draw is an explicit argument:

- `types.dfy` (`Types`): the record shapes (player, item, monster, pet,
  rank) and `Valid`, the record invariant the transitions keep. `Valid`
  means level ≥ 1, 0 ≤ xp < level·100, coins ≥ 0, 1 ≤ hp ≤ maxHp,
  maxHp ≥ 100, baseDamage ≥ 10 and baseCrit ≥ 0.
- `constants.dfy` (`Constants`): the item, skill, monster, pet, rank,
  gacha-rate and VIP tables, and lemmas about their shape.
- `game_logic.dfy` (`GameLogic`): `createNewPlayer`, `getPlayerTotalStats`,
  `handleLevelUp`, `rollGacha` and `checkRandomEvent`.
- `text.dfy` (`Text`): the JavaScript string operations the handler uses:
  `includes`, `startsWith`, `split`, `trim`, and case mapping.
- `commands.dfy` (`Commands`): how `processCommand` turns raw text into a
  command, and the two reply keyboards.
- `store.dfy` (`Store`): the `Record<string, Player>` store. It is a list of
  entries in JavaScript's own-property order, which is the order
  `Object.values` sees.
- `process.dfy` (`Handler`): `processCommand`, meaning the `/start` gate,
  profile, hunt, shop, bag, purchase, help, the top-5 leaderboard and the
  write-back.
- `box.dfy` (`Box`): `wrapInBox` with `getVisualLength` and `padLine`.
- `poll.dfy` (`Poll`): one round of `pollUpdates`, meaning the per-update
  cursor rule and the update queue.
- `draws.dfy` (`Draws`), `wrappers.dfy` (`Wrappers`): `Math.random()`
  values and `Option`.

A hunt with no monster in range makes the handler throw (see Findings).
The model has that handler twice:

- as written: `Handler.ProcessAsWritten` and `Poll.RoundAsWritten`;
- corrected: `Handler.Process` and `Poll.Round`. Here such a hunt gets a
  "no monster" reply and changes nothing. The rest of the model uses the
  corrected handler.

## Model

| member | source | states |
|---|---|---|
| Types.Valid | types.ts:88-114 | the record invariant kept by every transition (level, xp window, coins, health, base stats) |
| Constants.RanksAscending | constants.ts:57-61 | the rank table is strictly ascending by `min` and starts at 1, so every level ≥ 1 has a rank |
| Constants.GachaRatesTotal | constants.ts:62 | the gacha rates are positive, sum to 100 and iterate Common, Rare, Epic, Legendary, Mythic |
| Constants.MonstersWellFormed | constants.ts:35-54 | the hunting pool is the three tiers in order, without the boss; every monster has positive hp, damage and xp and level ≥ 5 |
| Constants.BonusesNonNegative | constants.ts:4-33 | every item, skill and pet bonus in the shipped tables is non-negative |
| Constants.OnlyCriticalMaster | constants.ts:28-33 | only the Warrior's "Critical Master" contains "Critical", and class 'None' has no skills |
| Constants.PetsNeverEvolve | constants.ts:55 | no shipped pet has a next form |
| GameLogic.NewPlayer | gameLogic.ts:5-26 | a new record has level 1, xp 0, 100 coins, hp = maxHp = 100, damage 10, crit 5, rank Bronze, no VIP, and is `Valid` |
| GameLogic.SkillBonus | gameLogic.ts:34-40 | each skill bonus goes to exactly one of damage or crit, to crit exactly for "Critical" skills, and non-negative bonuses give non-negative totals |
| GameLogic.SkillBonusAppend | gameLogic.ts:34-40 | one more skill at the end adds its bonus to crit when its name contains "Critical" and to damage otherwise, so every list's split is fixed skill by skill |
| GameLogic.FindNamed | gameLogic.ts:43-60 | `find` by name returns an element with that name exactly when one exists, the first such element in list order, and an absent name finds nothing |
| GameLogic.TotalStats | gameLogic.ts:28-66 | derived damage, crit and health are never below the base values; what each equipment slot adds is stated by the three lemmas below |
| GameLogic.WeaponAdds | gameLogic.ts:43-50 | equipping a shop weapon adds exactly its damage and its crit to the derived stats, and nothing to health |
| GameLogic.ArmorAdds | gameLogic.ts:44-53 | equipping shop armor adds exactly its health to the derived stats, and nothing to damage or crit |
| GameLogic.AccessoryAdds | gameLogic.ts:45-57 | equipping a shop accessory adds exactly its damage and its health to the derived stats, and never its crit |
| GameLogic.StatsBaseline | gameLogic.ts:28-66 | with class 'None', no item found and no pet found, the derived stats are exactly the base stats |
| GameLogic.WarriorSkillBonus | gameLogic.ts:34-40 | the Warrior's skills give +20 damage and +10 crit |
| GameLogic.NewWarriorStats | gameLogic.ts:28-66 | a new Warrior fights with 35 damage, 15 crit and 100 health |
| GameLogic.RanksByMinDesc | gameLogic.ts:78 | the sorted copy of the ranks is strictly descending and has the same ranks |
| GameLogic.FirstReached | gameLogic.ts:79 | the first rank at or below the level in a descending list is the greatest such rank, and it is missing only if no rank qualifies |
| GameLogic.RankFor | gameLogic.ts:78-80 | a rank is found exactly for levels ≥ 1, and it is the rank with the greatest `min` ≤ level |
| GameLogic.LevelUp | gameLogic.ts:68-85 | below level·100 the record is unchanged; otherwise the record equals the old one with level +1, xp − old level·100, maxHp +20, hp refilled, damage +5 and the rank of the new level, every other field as before |
| GameLogic.LevelUpKeepsValid | gameLogic.ts:68-85 | a gain below the next threshold leaves a `Valid` record after the step |
| GameLogic.LevelUpExample | gameLogic.ts:69-76 | 250 xp at level 1 ends at level 2 with 150 xp |
| GameLogic.LevelUpIsOneStep | gameLogic.ts:69-76 | the step is not a loop: with 1000 xp at level 1 it stops at level 2, still over the threshold |
| GameLogic.PickFrom | gameLogic.ts:90-99 | the cumulative scan returns a rarity of the table, and with non-negative rates every roll up to the total finds one |
| GameLogic.PickRarityBands | gameLogic.ts:90-99 | with the shipped rates the scan picks the band of the roll: ≤60 Common, ≤85 Rare, ≤95 Epic, ≤99 Legendary, else Mythic |
| GameLogic.ItemsOf | gameLogic.ts:102 | the filter keeps exactly the items of the rarity |
| GameLogic.EveryRarityStocked | constants.ts:4-26 | every rarity has at least one item, so the gacha never indexes an empty list |
| GameLogic.PickItem | gameLogic.ts:102-103 | the pick is a shop item of the requested rarity |
| GameLogic.RollGacha | gameLogic.ts:87-104 | the item is from the table, of the requested rarity if one is given and of the roll's band otherwise |
| GameLogic.ReplaceAll | gameLogic.ts:135 | the pet list keeps its length, with exactly the old form replaced |
| GameLogic.RandomEvent | gameLogic.ts:106-156 | the five bands [0,5), [5,12), [12,15), [15,25), [25,27), at most one firing, each stated as the whole new record: [0,5) adds k in 1..3 levels, 20·k maxHp with hp refilled and 5·k damage and nothing else, rank included; [5,12) changes only the coins, by floor(coins·p/100) for p in [10,79]; [12,15) changes only the active pet and the pet list; the loot bands only append one item of their rarity; no event leaves the record unchanged |
| GameLogic.BonusLevelsKeepRank | gameLogic.ts:110-117 | the bonus levels leave the rank stale: a Bronze player at level 19 who jumps to level 20 or more is still Bronze, which is not the rank of the new level |
| GameLogic.RandomEventKeepsValid | gameLogic.ts:106-156 | every band keeps the record invariant |
| GameLogic.PetBandInert | gameLogic.ts:129-140 | with the shipped pets the evolution band changes nothing and reports nothing |
| Text.NotStartsWith | App.tsx:196 | one differing character rules out `startsWith` |
| Text.Split | App.tsx:79 | `split` on one character gives at least one piece and no piece holds the separator |
| Text.JoinSplit | App.tsx:79 | joining the pieces of a split gives back the string |
| Text.SplitJoin | App.tsx:79 | splitting a join of separator-free pieces gives back the pieces |
| Text.FirstToken | App.tsx:140 | the command is a space-free prefix of the text that ends at the first space or at the end |
| Text.FirstTokenIsFirstPiece | App.tsx:140 | the command is `cmd.split(' ')[0]` |
| Text.Trim | App.tsx:122 | `trim` removes only white space and line terminators at both ends and leaves neither end blank |
| Text.LowerFixed | App.tsx:125 | lower-casing leaves text without capitals unchanged |
| Commands.Classify | App.tsx:142-232 | the dispatch: each command exactly for its word(s), a purchase exactly for words starting with `/buy`, with the kind read from the full word |
| Commands.CommandText | App.tsx:122-138 | the mapped command text is the target of the last check that fires on the trimmed text, or the lower-cased trimmed text when none fires |
| Commands.Parse | App.tsx:140-164 | the command is the dispatch of `cmd.split(' ')[0]` |
| Commands.LastFiring | App.tsx:126-138 | the last firing check exists exactly when some check fires |
| Commands.OverrideIsLastFiring | App.tsx:125-138 | running the checks in order leaves the target of the last check that fires, or the lower-cased text if none fires |
| Commands.CommandTextByPrecedence | App.tsx:125-138 | equivalently: VIP beats Gacha beats Armor beats Spear beats Katana, any keyword beats every label, and only with nothing firing does the lower-cased text stand |
| Commands.WordUnderstood | App.tsx:142-232 | each command word reaches its own branch; any word starting with `/buy` is a purchase |
| Commands.PlainWordUnchanged | App.tsx:122-138 | a typed lower-case command word passes the mapping unchanged |
| Commands.WordRoundTrip | App.tsx:119-140 | typing a command's word is understood as that command |
| Commands.RuleText | App.tsx:122-140 | text with no blank at either end becomes the target of a check that fires on it when no later check fires |
| Commands.LabelFires | App.tsx:125-132 | on an exact label with no keyword in it, that label's check is the last to fire |
| Commands.LabelDecides | App.tsx:125-138 | without a keyword, the label check that fires is decided by which of the seven labels the text equals, and none fires on any other text |
| Commands.LabelText | App.tsx:122-140 | an exact label with no keyword and no blank at its ends becomes that label's command |
| Commands.KeywordText | App.tsx:122-140 | text with no blank at either end that holds a keyword and lacks the first letter of every stronger keyword becomes that keyword's purchase |
| Commands.ButtonText | App.tsx:10-26 | each of the twelve keyboard buttons maps to exactly the word of the command it names |
| Commands.ButtonUnderstood | App.tsx:10-26 | pressing a button is understood as the command it names |
| Commands.NoKeywordIn | App.tsx:134-138 | text missing one character of every keyword fires no keyword |
| Store.Lookup | App.tsx:121 | `players[userId]` finds a record exactly for stored keys, and it is stored under that key |
| Store.Values | App.tsx:227 | `Object.values` lists every record in store order |
| Store.Replace | App.tsx:234 | overwriting a key changes only that key's record and keeps the key order |
| Store.InsertIndex | App.tsx:145 | a new array-index key adds exactly one entry; other keys keep their records |
| Store.InsertIndexOrdered | App.tsx:145 | inserting a new array-index key keeps the enumeration order (index keys first, ascending) |
| Store.Append | App.tsx:145 | a new non-index key adds exactly one entry at the end |
| Store.AppendOrdered | App.tsx:145 | appending a new non-index key keeps the enumeration order |
| Store.Put | App.tsx:234 | after `{ ...players, [key]: p }` the key holds p; every other key holds what it held; the store grows only for a new key; both invariants are kept |
| Store.PutSame | App.tsx:234 | writing back the record a key holds leaves an ordered store as it was |
| Box.VisualLength | App.tsx:66-71 | visual length = characters + 2 per astral character + 1 per joiner or variation selector |
| Box.VisualLengthAppend | App.tsx:66-71 | visual length adds up over concatenation |
| Box.PadLine | App.tsx:73-77 | padding appends only spaces: text at least 22 wide is unchanged, shorter text comes out exactly 22 wide |
| Box.WrapInBox | App.tsx:60-98 | the string built by appending each line with a newline and then the closing fence is the box's lines joined by newlines |
| Box.BoxShape | App.tsx:79-97 | split at newlines, the box is the fence, top border, title row, separator, one row per content line, bottom border and fence: content lines + 6 lines |
| Box.ContentRowWidth | App.tsx:85-93 | a content row is 26 wide when its trimmed line is shorter than 22, and otherwise 4 wider than the trimmed line |
| Handler.AvailableEmptyIff | App.tsx:165 | no monster is in range exactly when the level is below 3 |
| Handler.CeilDiv | App.tsx:168 | `Math.ceil(a / b)` is the least r with a ≤ r·b |
| Handler.Pick | App.tsx:165-166 | the first draw picks a monster in range, and there is none exactly below level 3 |
| Handler.TimesThreeHalves | App.tsx:177 | the result is the floor of 1.5·x |
| Handler.XpGain | App.tsx:176-181 | the xp gain is the monster's xp, or with VIP the floor of 1.3 times it |
| Handler.CoinGain | App.tsx:177-181 | the coin gain is floor(1.5·xp), or with VIP the floor of 1.5 times that |
| Handler.DamageTaken | App.tsx:167-169 | the damage taken is the monster's damage times the fewest turns whose player damage reaches the monster's hp, and at least one strike |
| Handler.Fight | App.tsx:167-190 | defeat exactly when hp ≤ damage taken, then hp becomes 10 and nothing else changes; a win reports the gains and hp − damage taken > 0, and its record is the level-up step then the random event applied to the old record with that hp, xp + xp gain and coins + coin gain, reporting whether each fired |
| Handler.HuntStep | App.tsx:164-190 | the corrected hunt: below level 3 the reply is "no monster" and the record is unchanged; from level 3 on a monster in range exists and the hunt is exactly the fight against the monster the first draw picks, with the other two draws driving the random event |
| Handler.WinGainsBounded | App.tsx:176-181 | a win against a monster in range gains non-negative coins and at most the next level's threshold in xp, VIP bonus included |
| Handler.FightKeepsValid | App.tsx:167-190 | a fight keeps the record invariant, so across a hunt hp ≤ maxHp and coins ≥ 0 |
| Handler.HuntKeepsValid | App.tsx:164-190 | a hunt keeps the record invariant |
| Handler.Purchase | App.tsx:196-222 | the record changes only if coins ≥ price; then exactly the price is paid and the bag grows by one name or VIP turns on; a gacha pull puts exactly the item `rollGacha()` draws into the bag, of the rarity band the pull lands in; otherwise it is unchanged and the price is reported |
| Handler.UnknownPurchase | App.tsx:196-218 | an unrecognised `/buy…` costs nothing and appends an empty name |
| Handler.InsertRanked | App.tsx:227 | inserting a position into a ranked list keeps it ranked, with one more element |
| Handler.RankingOrder | App.tsx:227 | the stable sort lists every store position once, by level descending, ties in store order |
| Handler.RankedUnique | App.tsx:227 | only one listing has that property, so the order is fully determined |
| Handler.TopFive | App.tsx:227 | the leaderboard shows min(5, n) players from the store in non-increasing level order |
| Handler.TopFiveOmitted | App.tsx:227 | a player left off has no higher level than any shown one, and on a tie was stored later |
| Handler.Act | App.tsx:158-232 | the command dispatch on a stored record: a hunt is the hunt step, a purchase is the purchase, every other command leaves the record as it was and gives its own reply (profile with the derived stats, shop with the coins, bag, help, the top five, unknown) |
| Handler.ProcessExisting | App.tsx:119-235 | any command but `/start` from a chat with a record runs `Act` on the valid stored record and writes the result back under the chat id |
| Handler.ActKeepsValid | App.tsx:158-232 | every command keeps the record invariant |
| Handler.ActKeepsLevel | App.tsx:158-232 | only a hunt changes the level |
| Handler.Process | App.tsx:119-235 | the `/start` gate: no record and not `/start` → "use /start", store unchanged; no record and `/start` → a new Warrior under the chat id; `/start` with a record changes nothing; other chats are never touched; both store invariants are kept |
| Handler.LevelOnlyFromHunt | App.tsx:142-234 | no message but a hunt changes a stored player's level |
| Handler.HuntAsWritten | App.tsx:164-168 | the hunt as written throws exactly below level 3, and otherwise agrees with the corrected hunt |
| Handler.ProcessAsWritten | App.tsx:119-235 | the handler as written throws exactly on a hunt by a stored player below level 3, and otherwise agrees with `Process` |
| Handler.FirstHuntThrows | App.tsx:142-168 | as written, a player's first hunt after `/start` throws |
| Handler.LowLevelHuntAnswered | App.tsx:164-168 | corrected, a hunt below level 3 is answered and the store stays exactly as it was |
| Handler.FirstHuntAnswered | App.tsx:142-168 | corrected, a player's first hunt after `/start` is answered |
| Handler.TypedStartAndHunt | App.tsx:140-164 | typed `/start` and `/hunt` are the start and hunt commands |
| Poll.Handle | App.tsx:245-249 | a texted update is answered once, to its own chat, and the reply and the new store are exactly those of `processCommand` on the display name `first_name || "Adventurer"` and the text; any update moves the offset to its id + 1; an untexted one leaves the store alone |
| Poll.Round | App.tsx:243-250 | a round answers each texted update once, in update order and to that update's chat, and ends with the offset past the last update |
| Poll.Pending | App.tsx:241 | the updates the server still holds for the bot are exactly the queued ones with an id at or after the offset |
| Poll.Fetch | App.tsx:241 | `getUpdates` without `limit` returns the oldest pending updates in queue order: all of them when at most 100 are pending, otherwise the first 100 |
| Poll.PendingKeepsLast | App.tsx:241 | a last queued update at or after the offset is pending, and last |
| Poll.PendingLast | App.tsx:241 | in a queue of increasing ids, whatever is pending ends with the newest update |
| Poll.PendingTwice | App.tsx:241-250 | confirming up to an offset and then up to a later one leaves pending what confirming up to the later one does |
| Poll.PendingPast | App.tsx:250 | in increasing ids, the offset just past the k-th update leaves exactly the updates after it |
| Poll.RoundConsumes | App.tsx:241-250 | after a round, exactly the pending updates that did not fit into the batch of 100 stay pending; with at most 100 pending, nothing is left |
| Poll.RoundAsWritten | App.tsx:240-256 | as written, a throwing handler ends the round through the `catch`; earlier updates keep their effects and offset |
| Poll.ThrowAtHead | App.tsx:240-256 | as written, a throwing first update ends the round with nothing changed and nothing sent |
| Poll.FirstThrowEndsRound | App.tsx:240-256 | as written, the round is exactly the corrected round over the updates before the first throwing one, and the whole corrected round when none throws |
| Poll.RoundAsWrittenAgrees | App.tsx:240-256 | with no hunt in the batch, the round as written is the corrected round |
| Poll.StuckOnLowHunt | App.tsx:244-253 | as written, a low-level hunt at the head of the batch makes the round change and send nothing, so the next round fetches the same batch again |
| Poll.LowHuntAnswered | App.tsx:244-250 | corrected, the hunt is answered "no monster" and only the updates beyond the batch stay pending |

## Left out

- Poll.Pending: Telegram keeps an update that was never confirmed for at most 24 hours and then drops it. The model has no clock, so the queue only loses updates that the offset confirms.
- Network and timers: the Telegram `fetch` calls in `sendMessage` and `pollUpdates`, the one-second `setInterval`, the `isPolling` re-entrancy guard, and a failed fetch are not modelled. A failed fetch changes nothing but a log line. The queue of pending updates is a parameter.
- The React UI, the log buffer and the localStorage load and save are left out; they are presentation and I/O.
- Reply wording and Markdown layout: a reply is modelled as the data it reports, plus the keyboard it carries. The formatting of the reply text is not modelled. `wrapInBox` itself is modelled.
- `Math.random()` is a `Draw` argument. The record's random id and `new Date().toISOString()` are arguments too.
- Within one polling batch the source reads every record from the `players` value captured when the batch began. A second command from the same chat in the same batch therefore sees the record before the first command's update, and its write-back overwrites that update. The model runs the batch sequentially, with each command seeing the store left by the one before.
- The shallow copy `{ ...player }` shares the inventory array with the stored record, so `push` also changes the stored array. Transitions here return new values.
- GameLogic.RandomEvent: the penalty uses exact rationals, floor(coins·p/100). The source multiplies by the double `p / 100`, which for some coin amounts can round one coin lower.
- Handler.XpGain and Handler.CoinGain use exact tenths for the VIP factors 1.3 and 1.5, and an exact floor for `xp * 1.5`. The double 1.5 and integer products by it are exact. The double 1.3 is slightly above 1.3, so flooring its product with the small integer gains here does not fall below the exact floor.
- Text.Lower and Text.Upper map ASCII letters only. JavaScript's `toLowerCase` and `toUpperCase` use full Unicode case mapping. The commands and titles in the source are ASCII apart from emoji, which have no case.
- `activeItems` and `warAttacks` of the player record are not modelled. No code shown reads or writes them, and `createNewPlayer` leaves them unset. The same holds for the guild, event and global-state types and the unused `DUNGEONS` table.
- Handler.Process requires every stored record to be `Valid`. The hunt divides by the derived damage, which is at least 10 for every record the bot can create. A record with zero or negative damage can only come from outside, for example a hand-edited localStorage.
- Chat ids are integers. The source uses their decimal strings as keys, which JavaScript enumerates as array indices exactly for 0 ≤ id ≤ 2^32 − 2.
- `rollGacha` and the random event treat a missing rarity or an empty item list as unreachable. `GameLogic.EveryRarityStocked` and `Constants.GachaRatesTotal` prove it is.

## Findings

| source | as written | input that shows it | evidently intended | confidence | as-written member | corrected member |
|---|---|---|---|---|---|---|
| App.tsx:165-168 | `/hunt` filters monsters by `m.level <= up.level + 2` and indexes the result unchecked. Every monster is level 5 or more, so below level 3 the list is empty and `monster.hp` throws. The throw escapes to the `catch` in `pollUpdates` before the offset moves past the update. | `/start`, then `/hunt` from the same chat: a new record is level 1. Only a hunt can raise a level, and that first hunt throws. The next poll fetches the same update again and fails on it the same way. The bot answers nobody until Telegram drops the unconfirmed update, after at most 24 hours, and the next low-level hunt blocks it again. | A hunt with no monster in range is answered, the record is unchanged and the offset moves on | high (not executed) | Handler.FirstHuntThrows | Handler.FirstHuntAnswered |
