/** How `processCommand` turns the raw text of a message into a command:
    the text is trimmed; the lower-cased text is the default command; an
    exact keyboard label replaces it; a shop keyword anywhere in the
    trimmed text replaces it again (later checks overwrite earlier ones);
    finally everything after the first space is dropped. */
module Commands {
  import opened Wrappers
  import opened Text

  const ProfileButton := "\U{1F464} Profile"
  const HuntButton := "\U{2694}\U{FE0F} Hunt"
  const InventoryButton := "\U{1F392} Inventory"
  const ShopButton := "\U{1F6D2} Shop"
  const LeaderboardButton := "\U{1F3C6} Leaderboard"
  const HelpButton := "\U{2753} Help"
  const BackButton := "\U{1F519} Kembali"

  const KatanaButton := "\U{2694}\U{FE0F} Katana (1200)"
  const SpearButton := "\U{1F531} Spear (2500)"
  const ArmorButton := "\U{1F6E1}\U{FE0F} Armor (1800)"
  const GachaButton := "\U{1F3B0} Gacha (500)"
  const VipButton := "\U{1F31F} VIP (10000)"

  /** The two reply keyboards, row by row. */
  const MainKeyboard: seq<seq<string>> :=
    [[ProfileButton, HuntButton], [InventoryButton, ShopButton], [LeaderboardButton, HelpButton]]
  const ShopKeyboard: seq<seq<string>> :=
    [[KatanaButton, SpearButton], [ArmorButton, GachaButton], [VipButton, BackButton]]

  /** One of the overriding checks: an exact label or a keyword. */
  datatype Rule = Exact(text: string, target: string) | Includes(word: string, target: string)

  predicate Fires(r: Rule, t: string) {
    match r
    case Exact(text, _) => t == text
    case Includes(word, _) => Contains(t, word)
  }

  /** The checks in the order the handler performs them. */
  const Rules: seq<Rule> := [
    Exact(ProfileButton, "/profile"),
    Exact(HuntButton, "/hunt"),
    Exact(InventoryButton, "/inv"),
    Exact(ShopButton, "/shop"),
    Exact(LeaderboardButton, "/leaderboard"),
    Exact(HelpButton, "/help"),
    Exact(BackButton, "/start"),
    Includes("Katana", "/buy_katana"),
    Includes("Spear", "/buy_spear"),
    Includes("Armor", "/buy_armor"),
    Includes("Gacha", "/buy_gacha"),
    Includes("VIP", "/buy_vip")
  ]

  /** Running the checks in order, each firing one overwriting `cmd`. */
  function Override(rules: seq<Rule>, t: string, cmd: string): string
    decreases |rules|
  {
    if |rules| == 0 then cmd
    else Override(rules[1..], t, if Fires(rules[0], t) then rules[0].target else cmd)
  }

  /** The target of the last check that fires, if any. */
  function LastFiring(rules: seq<Rule>, t: string): (r: Option<string>)
    ensures r.None? <==> forall i :: 0 <= i < |rules| ==> !Fires(rules[i], t)
    decreases |rules|
  {
    if |rules| == 0 then None
    else
      var later := LastFiring(rules[1..], t);
      if later.Some? then later
      else if Fires(rules[0], t) then Some(rules[0].target)
      else None
  }

  /** Overwriting in order is the same as letting the last firing check decide. */
  lemma {:induction false} OverrideIsLastFiring(rules: seq<Rule>, t: string, cmd: string)
    ensures Override(rules, t, cmd) == LastFiring(rules, t).GetOr(cmd)
    decreases |rules|
  {
    if |rules| > 0 {
      OverrideIsLastFiring(rules[1..], t, if Fires(rules[0], t) then rules[0].target else cmd);
    }
  }

  datatype BuyKind = Katana | Spear | ArmorPiece | GachaPull | VipPass | OtherBuy

  datatype Command =
    | Start | Profile | Hunt | Shop | Inventory | Buy(kind: BuyKind) | Help | Leaderboard | Unknown

  function BuyKindOf(w: string): BuyKind {
    if w == "/buy_katana" then Katana
    else if w == "/buy_spear" then Spear
    else if w == "/buy_armor" then ArmorPiece
    else if w == "/buy_gacha" then GachaPull
    else if w == "/buy_vip" then VipPass
    else OtherBuy
  }

  /** The dispatch on the command word; any word starting with `/buy` is a purchase. */
  function Classify(w: string): (c: Command)
    ensures c == Start <==> w == "/start"
    ensures c == Profile <==> w == "/profile" || w == "/me"
    ensures c == Hunt <==> w == "/hunt"
    ensures c == Shop <==> w == "/shop"
    ensures c == Inventory <==> w == "/inv" || w == "/inventory"
    ensures c.Buy? <==> StartsWith(w, "/buy")
    ensures c.Buy? ==> c.kind == BuyKindOf(w)
    ensures c == Help <==> w == "/help"
    ensures c == Leaderboard <==> w == "/leaderboard"
  {
    if w == "/start" then NotStartsWith(w, "/buy", 1); Start
    else if w == "/profile" || w == "/me" then NotStartsWith(w, "/buy", 1); Profile
    else if w == "/hunt" then NotStartsWith(w, "/buy", 1); Hunt
    else if w == "/shop" then NotStartsWith(w, "/buy", 1); Shop
    else if w == "/inv" || w == "/inventory" then NotStartsWith(w, "/buy", 1); Inventory
    else if StartsWith(w, "/buy") then
      NotStartsWith("/help", "/buy", 1);
      NotStartsWith("/leaderboard", "/buy", 1);
      Buy(BuyKindOf(w))
    else if w == "/help" then Help
    else if w == "/leaderboard" then Leaderboard
    else Unknown
  }

  /** `cmd` after all overriding checks: the target of the last check that
      fires on the trimmed text, or the lower-cased trimmed text if none does. */
  function CommandText(raw: string): (r: string)
    ensures r == LastFiring(Rules, Trim(raw)).GetOr(Lower(Trim(raw)))
  {
    var t := Trim(raw);
    OverrideIsLastFiring(Rules, t, Lower(t));
    Override(Rules, t, Lower(t))
  }

  /** `const [command] = cmd.split(' ')`, then the dispatch. */
  function Parse(raw: string): (c: Command)
    ensures c == Classify(Split(CommandText(raw), ' ')[0])
  {
    FirstTokenIsFirstPiece(CommandText(raw));
    Classify(FirstToken(CommandText(raw)))
  }

  /** The same mapping written as a precedence list: a keyword beats a
      label, VIP beats Gacha beats Armor beats Spear beats Katana, and
      only when nothing fires does the lower-cased text stand. */
  function IntendedText(raw: string): string {
    var t := Trim(raw);
    if Contains(t, "VIP") then "/buy_vip"
    else if Contains(t, "Gacha") then "/buy_gacha"
    else if Contains(t, "Armor") then "/buy_armor"
    else if Contains(t, "Spear") then "/buy_spear"
    else if Contains(t, "Katana") then "/buy_katana"
    else if t == BackButton then "/start"
    else if t == HelpButton then "/help"
    else if t == LeaderboardButton then "/leaderboard"
    else if t == ShopButton then "/shop"
    else if t == InventoryButton then "/inv"
    else if t == HuntButton then "/hunt"
    else if t == ProfileButton then "/profile"
    else Lower(t)
  }

  /** The last check decides when it fires and nothing after it does. */
  lemma {:induction false} LastFiringAt(rules: seq<Rule>, t: string, i: int)
    requires 0 <= i < |rules| && Fires(rules[i], t)
    requires forall j :: i < j < |rules| ==> !Fires(rules[j], t)
    ensures LastFiring(rules, t) == Some(rules[i].target)
    decreases |rules|
  {
    if i > 0 {
      LastFiringAt(rules[1..], t, i - 1);
    } else {
      assert LastFiring(rules[1..], t).None?;
    }
  }

  predicate NoKeyword(t: string) {
    !Contains(t, "VIP") && !Contains(t, "Gacha") && !Contains(t, "Armor") && !Contains(t, "Spear") && !Contains(t, "Katana")
  }

  lemma {:induction false} KeywordDecides(t: string)
    requires !NoKeyword(t)
    ensures LastFiring(Rules, t) == Some(
      if Contains(t, "VIP") then "/buy_vip"
      else if Contains(t, "Gacha") then "/buy_gacha"
      else if Contains(t, "Armor") then "/buy_armor"
      else if Contains(t, "Spear") then "/buy_spear"
      else "/buy_katana")
  {
    var i :=
      if Contains(t, "VIP") then 11
      else if Contains(t, "Gacha") then 10
      else if Contains(t, "Armor") then 9
      else if Contains(t, "Spear") then 8
      else 7;
    forall j | i < j < |Rules| ensures !Fires(Rules[j], t) {
      assert j in {8, 9, 10, 11};
    }
    LastFiringAt(Rules, t, i);
  }

  /** The first seven checks are the labels, which differ in their first
      character; the last five are the keywords. */
  lemma RulesShape()
    ensures |Rules| == 12
    ensures forall i :: 0 <= i < 7 ==> Rules[i].Exact? && |Rules[i].text| > 0
    ensures forall i, j :: 0 <= i < j < 7 ==> Rules[i].text[0] != Rules[j].text[0]
    ensures forall i :: 0 <= i < 7 ==> Rules[i].text[0] as int >= 128
    ensures forall j :: 7 <= j < 12 ==> Rules[j].Includes? && |Rules[j].word| > 0
    ensures [Rules[7].word, Rules[8].word, Rules[9].word, Rules[10].word, Rules[11].word]
         == ["Katana", "Spear", "Armor", "Gacha", "VIP"]
  {
  }

  /** Without a keyword in the text, no keyword check fires. */
  lemma KeywordsSilent(t: string)
    requires NoKeyword(t)
    ensures forall j :: 7 <= j < |Rules| ==> !Fires(Rules[j], t)
  {
    RulesShape();
    forall j | 7 <= j < |Rules| ensures !Fires(Rules[j], t) {
      assert j in {7, 8, 9, 10, 11};
    }
  }

  /** An exact label fires and no later check does: the labels differ in
      their first character and no keyword occurs. */
  lemma LabelFires(t: string, i: int)
    requires 0 <= i < 7 && t == Rules[i].text && NoKeyword(t)
    ensures LastFiring(Rules, t) == Some(Rules[i].target)
  {
    RulesShape();
    KeywordsSilent(t);
    forall j | i < j < 7 ensures !Fires(Rules[j], t) {
      assert Rules[j].text[0] != t[0];
    }
    LastFiringAt(Rules, t, i);
  }

  /** Text that is no label and holds no keyword fires no check. */
  lemma NoLabelFires(t: string)
    requires NoKeyword(t) && forall i :: 0 <= i < 7 ==> t != Rules[i].text
    ensures LastFiring(Rules, t) == None
  {
    RulesShape();
    KeywordsSilent(t);
  }

  lemma LabelDecides(t: string)
    requires NoKeyword(t)
    ensures LastFiring(Rules, t) ==
      if t == BackButton then Some("/start")
      else if t == HelpButton then Some("/help")
      else if t == LeaderboardButton then Some("/leaderboard")
      else if t == ShopButton then Some("/shop")
      else if t == InventoryButton then Some("/inv")
      else if t == HuntButton then Some("/hunt")
      else if t == ProfileButton then Some("/profile")
      else None
  {
    if t == BackButton { LabelFires(t, 6); }
    else if t == HelpButton { LabelFires(t, 5); }
    else if t == LeaderboardButton { LabelFires(t, 4); }
    else if t == ShopButton { LabelFires(t, 3); }
    else if t == InventoryButton { LabelFires(t, 2); }
    else if t == HuntButton { LabelFires(t, 1); }
    else if t == ProfileButton { LabelFires(t, 0); }
    else { NoLabelFires(t); }
  }

  lemma CommandTextByPrecedence(raw: string)
    ensures CommandText(raw) == IntendedText(raw)
  {
    var t := Trim(raw);
    OverrideIsLastFiring(Rules, t, Lower(t));
    if NoKeyword(t) { LabelDecides(t); } else { KeywordDecides(t); }
  }

  function BuyWord(k: BuyKind): string {
    match k
    case Katana => "/buy_katana"
    case Spear => "/buy_spear"
    case ArmorPiece => "/buy_armor"
    case GachaPull => "/buy_gacha"
    case VipPass => "/buy_vip"
    case OtherBuy => "/buy"
  }

  /** The spelled-out command word of each command. */
  function Word(c: Command): string {
    match c
    case Start => "/start"
    case Profile => "/profile"
    case Hunt => "/hunt"
    case Shop => "/shop"
    case Inventory => "/inv"
    case Buy(k) => BuyWord(k)
    case Help => "/help"
    case Leaderboard => "/leaderboard"
    case Unknown => "/"
  }

  /** Each command word is dispatched to its command. */
  lemma WordUnderstood(c: Command)
    requires c != Unknown
    ensures Classify(Word(c)) == c
  {
    if c.Buy? {
      var w := BuyWord(c.kind);
      assert StartsWith(w, "/buy") by {
        assert w[..4] == "/buy";
      }
      assert BuyKindOf(w) == c.kind;
    }
  }

  lemma WordUnspaced(c: Command)
    ensures ' ' !in Word(c)
  {
  }

  lemma Understood(c: Command)
    requires c != Unknown
    ensures Classify(FirstToken(Word(c))) == c
  {
    WordUnspaced(c);
    WordUnderstood(c);
  }

  /** A typed command word: slashes, underscores and lower-case letters. */
  predicate PlainWord(w: string) {
    && |w| > 0 && w[0] == '/'
    && forall i :: 0 <= i < |w| ==> w[i] == '/' || w[i] == '_' || 'a' <= w[i] <= 'z'
  }

  /** A plain word is taken as it stands: no keyword or label can fire on it. */
  lemma PlainWordUnchanged(w: string)
    requires PlainWord(w)
    ensures CommandText(w) == w
  {
    TrimUnspaced(w);
    LowerFixed(w);
    MissingChar(w, "VIP", 0);
    MissingChar(w, "Gacha", 0);
    MissingChar(w, "Armor", 0);
    MissingChar(w, "Spear", 0);
    MissingChar(w, "Katana", 0);
    RulesShape();
    assert forall i :: 0 <= i < 7 ==> w != Rules[i].text by {
      forall i | 0 <= i < 7 ensures w != Rules[i].text {
        assert w[0] != Rules[i].text[0];
      }
    }
    NoLabelFires(w);
    OverrideIsLastFiring(Rules, w, w);
  }

  /** Typing a command word is understood as that command. */
  lemma WordRoundTrip(c: Command)
    requires c != Unknown
    ensures Parse(Word(c)) == c
  {
    PlainWordUnchanged(Word(c));
    Understood(c);
  }

  /** Both ends of `b` are not trim-space, so trimming keeps it whole. */
  predicate Unspaced(b: string) {
    |b| > 0 && !IsTrimSpace(b[0]) && !IsTrimSpace(b[|b| - 1])
  }

  /** No check after the `i`-th fires on `t`. */
  predicate NoneAfter(t: string, i: int) {
    forall j :: 0 <= j < |Rules| && i < j ==> !Fires(Rules[j], t)
  }

  /** Text the trim leaves whole, on which check `i` fires and no later
      check does, yields check `i`'s target. */
  lemma RuleText(b: string, i: int)
    requires 0 <= i < |Rules| && Unspaced(b) && Fires(Rules[i], b) && NoneAfter(b, i)
    ensures CommandText(b) == Rules[i].target
  {
    TrimUnspaced(b);
    OverrideIsLastFiring(Rules, b, Lower(b));
    LastFiringAt(Rules, b, i);
  }

  /** An exact label with no keyword in it is the last check to fire on itself. */
  lemma LabelAlone(t: string, i: int)
    requires 0 <= i < 7 && t == Rules[i].text && NoKeyword(t)
    ensures Fires(Rules[i], t) && NoneAfter(t, i)
  {
    RulesShape();
    KeywordsSilent(t);
    forall j | i < j < 7 ensures !Fires(Rules[j], t) {
      assert Rules[j].text[0] != t[0];
    }
  }

  /** A label with no blank at either end and no keyword in it yields the
      label's target. */
  lemma LabelText(b: string, i: int)
    requires 0 <= i < 7 && b == Rules[i].text && Unspaced(b) && NoKeyword(b)
    ensures CommandText(b) == Rules[i].target
  {
    LabelAlone(b, i);
    RuleText(b, i);
  }

  /** A keyword decides the command whenever no stronger keyword occurs;
      here the first letter of each stronger keyword is missing. */
  lemma KeywordText(b: string, i: int)
    requires 7 <= i < 12 && Unspaced(b) && Contains(b, Rules[i].word)
    requires forall j :: i < j < 12 ==> Rules[j].word[0] !in b
    ensures CommandText(b) == Rules[i].target
  {
    RulesShape();
    forall j | i < j < |Rules| ensures !Fires(Rules[j], b) {
      MissingChar(b, Rules[j].word, 0);
    }
    RuleText(b, i);
  }

  // One small lemma per button: each unfolds a single literal label, and a
  // lemma that unfolds all of them at once runs out of resource.

  lemma ProfileButtonClean(b: string)
    requires b == ProfileButton
    ensures Unspaced(b) && NoKeyword(b)
  {
    NoKeywordIn(b, 0, 0, 0, 0, 0);
  }

  lemma HuntButtonClean(b: string)
    requires b == HuntButton
    ensures Unspaced(b) && NoKeyword(b)
  {
    NoKeywordIn(b, 0, 0, 0, 0, 0);
  }

  lemma InventoryButtonClean(b: string)
    requires b == InventoryButton
    ensures Unspaced(b) && NoKeyword(b)
  {
    NoKeywordIn(b, 0, 0, 0, 0, 0);
  }

  lemma ShopButtonClean(b: string)
    requires b == ShopButton
    ensures Unspaced(b) && NoKeyword(b)
  {
    NoKeywordIn(b, 0, 0, 0, 2, 0);
  }

  lemma LeaderboardButtonClean(b: string)
    requires b == LeaderboardButton
    ensures Unspaced(b) && NoKeyword(b)
  {
    NoKeywordIn(b, 0, 0, 0, 0, 0);
  }

  lemma HelpButtonClean(b: string)
    requires b == HelpButton
    ensures Unspaced(b) && NoKeyword(b)
  {
    NoKeywordIn(b, 0, 0, 0, 0, 0);
  }

  lemma BackButtonClean(b: string)
    requires b == BackButton
    ensures Unspaced(b) && NoKeyword(b)
  {
    NoKeywordIn(b, 0, 0, 0, 0, 2);
  }

  lemma KatanaButtonClean(b: string)
    requires b == KatanaButton
    ensures Unspaced(b) && Contains(b, Rules[7].word)
    ensures Rules[7].target == Word(Buy(Katana))
    ensures forall j :: 7 < j < 12 ==> Rules[j].word[0] !in b
  {
    KatanaButtonLacks(b);
    assert OccursAt(b, "Katana", 3);
    RulesShape();
  }

  lemma KatanaButtonLacks(b: string)
    requires b == KatanaButton
    ensures forall j :: 7 < j < 12 ==> Rules[j].word[0] !in b
  {
    RulesShape();
  }

  lemma SpearButtonClean(b: string)
    requires b == SpearButton
    ensures Unspaced(b) && Contains(b, Rules[8].word)
    ensures Rules[8].target == Word(Buy(Spear))
    ensures forall j :: 8 < j < 12 ==> Rules[j].word[0] !in b
  {
    SpearButtonLacks(b);
    assert OccursAt(b, "Spear", 2);
    RulesShape();
  }

  lemma SpearButtonLacks(b: string)
    requires b == SpearButton
    ensures forall j :: 8 < j < 12 ==> Rules[j].word[0] !in b
  {
    RulesShape();
  }

  lemma ArmorButtonClean(b: string)
    requires b == ArmorButton
    ensures Unspaced(b) && Contains(b, Rules[9].word)
    ensures Rules[9].target == Word(Buy(ArmorPiece))
    ensures forall j :: 9 < j < 12 ==> Rules[j].word[0] !in b
  {
    ArmorButtonLacks(b);
    assert OccursAt(b, "Armor", 3);
    RulesShape();
  }

  lemma ArmorButtonLacks(b: string)
    requires b == ArmorButton
    ensures forall j :: 9 < j < 12 ==> Rules[j].word[0] !in b
  {
    RulesShape();
  }

  lemma GachaButtonClean(b: string)
    requires b == GachaButton
    ensures Unspaced(b) && Contains(b, Rules[10].word)
    ensures Rules[10].target == Word(Buy(GachaPull))
    ensures forall j :: 10 < j < 12 ==> Rules[j].word[0] !in b
  {
    GachaButtonLacks(b);
    assert OccursAt(b, "Gacha", 2);
    RulesShape();
  }

  lemma GachaButtonLacks(b: string)
    requires b == GachaButton
    ensures forall j :: 10 < j < 12 ==> Rules[j].word[0] !in b
  {
    RulesShape();
  }

  lemma VipButtonClean(b: string)
    requires b == VipButton
    ensures Unspaced(b) && Contains(b, Rules[11].word)
    ensures Rules[11].target == Word(Buy(VipPass))
  {
    assert OccursAt(b, "VIP", 2);
    RulesShape();
  }

  /** The keyboard button that sends each command, if there is one. */
  function Button(c: Command): Option<string> {
    match c
    case Profile => Some(ProfileButton)
    case Hunt => Some(HuntButton)
    case Inventory => Some(InventoryButton)
    case Shop => Some(ShopButton)
    case Leaderboard => Some(LeaderboardButton)
    case Help => Some(HelpButton)
    case Start => Some(BackButton)
    case Buy(Katana) => Some(KatanaButton)
    case Buy(Spear) => Some(SpearButton)
    case Buy(ArmorPiece) => Some(ArmorButton)
    case Buy(GachaPull) => Some(GachaButton)
    case Buy(VipPass) => Some(VipButton)
    case _ => None
  }

  /** Pressing a button yields exactly the word of the command it names. */
  lemma ButtonText(c: Command)
    requires Button(c).Some?
    ensures CommandText(Button(c).value) == Word(c)
  {
    match c
    case Profile =>
      ProfileButtonClean(ProfileButton);
      LabelText(ProfileButton, 0);
    case Hunt =>
      HuntButtonClean(HuntButton);
      LabelText(HuntButton, 1);
    case Inventory =>
      InventoryButtonClean(InventoryButton);
      LabelText(InventoryButton, 2);
    case Shop =>
      ShopButtonClean(ShopButton);
      LabelText(ShopButton, 3);
    case Leaderboard =>
      LeaderboardButtonClean(LeaderboardButton);
      LabelText(LeaderboardButton, 4);
    case Help =>
      HelpButtonClean(HelpButton);
      LabelText(HelpButton, 5);
    case Start =>
      BackButtonClean(BackButton);
      LabelText(BackButton, 6);
    case Buy(Katana) =>
      KatanaButtonClean(KatanaButton);
      KeywordText(KatanaButton, 7);
    case Buy(Spear) =>
      SpearButtonClean(SpearButton);
      KeywordText(SpearButton, 8);
    case Buy(ArmorPiece) =>
      ArmorButtonClean(ArmorButton);
      KeywordText(ArmorButton, 9);
    case Buy(GachaPull) =>
      GachaButtonClean(GachaButton);
      KeywordText(GachaButton, 10);
    case Buy(VipPass) =>
      VipButtonClean(VipButton);
      KeywordText(VipButton, 11);
  }

  /** The word a button yields is dispatched to the button's command. */
  lemma WordParse(b: string, c: Command)
    requires c != Unknown && CommandText(b) == Word(c)
    ensures Parse(b) == c
  {
    Understood(c);
  }

  /** Pressing a button is understood as the command it names. */
  lemma ButtonUnderstood(c: Command)
    requires Button(c).Some?
    ensures Parse(Button(c).value) == c
  {
    ButtonText(c);
    WordParse(Button(c).value, c);
  }

  /** The two keyboards consist of the buttons of their commands. */
  lemma KeyboardsAreButtons()
    ensures MainKeyboard == [[Button(Profile).value, Button(Hunt).value], [Button(Inventory).value, Button(Shop).value], [Button(Leaderboard).value, Button(Help).value]]
    ensures ShopKeyboard == [[Button(Buy(Katana)).value, Button(Buy(Spear)).value], [Button(Buy(ArmorPiece)).value, Button(Buy(GachaPull)).value], [Button(Buy(VipPass)).value, Button(Start).value]]
  {
  }

  /** A string missing one character of every keyword triggers no keyword. */
  lemma NoKeywordIn(t: string, v: int, g: int, a: int, s: int, k: int)
    requires 0 <= v < 3 && "VIP"[v] !in t
    requires 0 <= g < 5 && "Gacha"[g] !in t
    requires 0 <= a < 5 && "Armor"[a] !in t
    requires 0 <= s < 5 && "Spear"[s] !in t
    requires 0 <= k < 6 && "Katana"[k] !in t
    ensures NoKeyword(t)
  {
    MissingChar(t, "VIP", v);
    MissingChar(t, "Gacha", g);
    MissingChar(t, "Armor", a);
    MissingChar(t, "Spear", s);
    MissingChar(t, "Katana", k);
  }
}
