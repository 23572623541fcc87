/**
  The rules of the flower simulator screen (app/games/flower-simulator.tsx):
  the five-row tier ladder and its lookups, the item shop, the level-up
  reward, flower creation and challenge claiming. The random shop item of
  the level-up reward is a parameter `pick`; fresh ids and timestamps are
  parameters too.
 */
module FlowerGame {
  import opened Common
  import opened Types
  import Keyed
  import P = Progression
  import S = Store

  // ---------------------------------------------------------------------------
  // The tier ladder

  datatype Tier = Tier(level: int, nameKey: string, xpRequired: int, emoji: string)

  /** FLOWER_LEVELS: seedling, blossom, hibiscus, sunflower, sparkles. */
  const Ladder: seq<Tier> := [
    Tier(1, "games.bud", 0, "\U{1F331}"),
    Tier(2, "games.bloom", 50, "\U{1F338}"),
    Tier(3, "games.fullFlower", 120, "\U{1F33A}"),
    Tier(4, "games.exoticFlower", 250, "\U{1F33B}"),
    Tier(5, "games.futuristicFlower", 500, "\U{2728}")
  ]

  /** The loop of `getFlowerLevel`, from row `i` downwards: the first row met whose
      threshold `xp` reaches, and row 0 when none is. */
  function ScanDown(xp: int, i: nat): (t: nat)
    requires i < |Ladder|
    ensures t <= i
    ensures Ladder[t].xpRequired <= xp || (t == 0 && xp < Ladder[0].xpRequired)
    ensures forall j :: t < j <= i ==> xp < Ladder[j].xpRequired
  {
    if xp >= Ladder[i].xpRequired then i
    else if i == 0 then 0
    else ScanDown(xp, i - 1)
  }

  /** `getFlowerLevel(xp)`: the highest row whose threshold xp reaches (the first row for negative xp). */
  function TierOf(xp: int): (t: Tier)
    ensures t in Ladder
    ensures 1 <= t.level <= 5
    ensures xp >= 0 ==> t.xpRequired <= xp
    ensures xp < 0 ==> t == Ladder[0]
    ensures forall j :: 0 <= j < |Ladder| && Ladder[j].xpRequired <= xp ==> Ladder[j].xpRequired <= t.xpRequired
  {
    Ladder[ScanDown(xp, |Ladder| - 1)]
  }

  /** The ladder written out as thresholds: an independent reading of the table. */
  function TierLevelByThresholds(xp: int): int {
    if xp >= 500 then 5
    else if xp >= 250 then 4
    else if xp >= 120 then 3
    else if xp >= 50 then 2
    else 1
  }

  lemma TierMatchesThresholds(xp: int)
    ensures TierOf(xp).level == TierLevelByThresholds(xp)
  {
    assert Ladder[1].xpRequired == 50 && Ladder[2].xpRequired == 120;
    assert Ladder[3].xpRequired == 250 && Ladder[4].xpRequired == 500;
  }

  /** More xp never shows a lower tier. */
  lemma TierMonotone(x1: int, x2: int)
    requires x1 <= x2
    ensures TierOf(x1).level <= TierOf(x2).level
  {
    TierMatchesThresholds(x1);
    TierMatchesThresholds(x2);
  }

  lemma TierExamples()
    ensures TierOf(49).emoji == "\U{1F331}" && TierOf(50).emoji == "\U{1F338}"
    ensures TierOf(120).emoji == "\U{1F33A}" && TierOf(250).emoji == "\U{1F33B}"
    ensures TierOf(500).emoji == "\U{2728}" && TierOf(-7).level == 1
  {
    TierMatchesThresholds(49);
    TierMatchesThresholds(50);
    TierMatchesThresholds(120);
    TierMatchesThresholds(250);
    TierMatchesThresholds(500);
  }

  /** The stored `level` (50 xp per level) and the displayed tier are two different scales. */
  lemma StoredLevelIsNotTier()
    ensures P.FlowerLevel(100) == 3 && TierOf(100).level == 2
  {
    TierMatchesThresholds(100);
  }

  function LevelIs(level: int): Tier -> bool {
    (t: Tier) => t.level == level
  }

  /** `getNextLevelXp(xp)`: the threshold of the next row, or the top threshold plus 500. */
  function NextLevelXp(xp: int): (r: int)
    ensures TierOf(xp).level < 5 ==> r == Ladder[TierOf(xp).level].xpRequired && r > xp
    ensures TierOf(xp).level == 5 ==> r == 1000
  {
    var t := TierOf(xp);
    var idx := FindIndex(Ladder, LevelIs(t.level));
    assert LevelIs(t.level)(Ladder[t.level - 1]);
    var next := idx.value + 1;
    if next < |Ladder| then Ladder[next].xpRequired else t.xpRequired + 500
  }

  // ---------------------------------------------------------------------------
  // Shop and inventory

  datatype ShopItem = ShopItem(id: string, nameKey: string, price: int, xpBonus: int)

  /** SHOP_ITEMS. */
  const Shop: seq<ShopItem> := [
    ShopItem("fertilizer", "games.fertilizer", 5, 10),
    ShopItem("sunlamp", "games.sunlamp", 10, 15),
    ShopItem("specialwater", "games.specialWater", 20, 25)
  ]

  function ShopId(s: ShopItem): string { s.id }

  /** The alerts the screen raises instead of changing the game. */
  datatype Alert = InsufficientCoins | EnterFlowerName

  function Increment(i: GameItem): GameItem { i.(quantity := i.quantity + 1) }

  /** One more of a shop item: the held entry grows by one, or a new entry of quantity 1 is appended. */
  function AddOneOf(inv: seq<GameItem>, item: ShopItem): (r: seq<GameItem>)
    ensures Keyed.HasKey(r, P.ItemId, item.id)
    ensures Keyed.HasKey(inv, P.ItemId, item.id) ==>
      && |r| == |inv|
      && forall i :: 0 <= i < |inv| ==>
           r[i] == if inv[i].id == item.id then inv[i].(quantity := inv[i].quantity + 1) else inv[i]
    ensures !Keyed.HasKey(inv, P.ItemId, item.id) ==>
      r == inv + [GameItem(item.id, item.nameKey, 1, item.xpBonus)]
  {
    if Keyed.HasKey(inv, P.ItemId, item.id) then
      var r := MapWhere(inv, Keyed.KeyIs(P.ItemId, item.id), Increment);
      assert forall i :: 0 <= i < |inv| ==> (Keyed.KeyIs(P.ItemId, item.id)(inv[i]) <==> inv[i].id == item.id);
      var k :| 0 <= k < |inv| && inv[k].id == item.id;
      assert r[k].id == item.id;
      r
    else
      var r := inv + [GameItem(item.id, item.nameKey, 1, item.xpBonus)];
      assert r[|inv|].id == item.id;
      r
  }

  /** Adding one keeps every quantity at one or more and the ids distinct. */
  lemma AddOneKeepsInventory(inv: seq<GameItem>, item: ShopItem)
    requires P.ValidInventory(inv) && Keyed.UniqueKeys(inv, P.ItemId)
    ensures P.ValidInventory(AddOneOf(inv, item)) && Keyed.UniqueKeys(AddOneOf(inv, item), P.ItemId)
  {
  }

  /** Adding one raises the total item count by exactly one. */
  lemma {:induction false} AddOneCounts(inv: seq<GameItem>, item: ShopItem)
    requires Keyed.UniqueKeys(inv, P.ItemId)
    ensures P.SumQuantity(AddOneOf(inv, item)) == P.SumQuantity(inv) + 1
  {
    if Keyed.HasKey(inv, P.ItemId, item.id) {
      var k :| 0 <= k < |inv| && inv[k].id == item.id;
      assert AddOneOf(inv, item) == inv[k := inv[k].(quantity := inv[k].quantity + 1)];
      SumQuantityPoint(inv, k, inv[k].(quantity := inv[k].quantity + 1));
    } else {
      SumQuantityAppend(inv, GameItem(item.id, item.nameKey, 1, item.xpBonus));
    }
  }

  lemma SumQuantityAppend(inv: seq<GameItem>, x: GameItem)
    ensures P.SumQuantity(inv + [x]) == P.SumQuantity(inv) + x.quantity
  {
    SumQuantityConcat(inv, [x]);
  }

  lemma {:induction false} SumQuantityConcat(a: seq<GameItem>, b: seq<GameItem>)
    ensures P.SumQuantity(a + b) == P.SumQuantity(a) + P.SumQuantity(b)
  {
    if |a| == 0 {
      assert a + b == b;
    } else {
      assert (a + b)[1..] == a[1..] + b;
      SumQuantityConcat(a[1..], b);
    }
  }

  lemma {:induction false} SumQuantityPoint(inv: seq<GameItem>, k: int, x: GameItem)
    requires 0 <= k < |inv|
    ensures P.SumQuantity(inv[k := x]) == P.SumQuantity(inv) - inv[k].quantity + x.quantity
  {
    assert inv == inv[..k] + [inv[k]] + inv[k + 1..];
    assert inv[k := x] == inv[..k] + [x] + inv[k + 1..];
    SumQuantityConcat(inv[..k] + [inv[k]], inv[k + 1..]);
    SumQuantityConcat(inv[..k], [inv[k]]);
    SumQuantityConcat(inv[..k] + [x], inv[k + 1..]);
    SumQuantityConcat(inv[..k], [x]);
  }

  /** `handleBuyItem(itemId)`: an unknown id does nothing, too few coins raise an alert,
      otherwise the price is paid and one of the item is added. */
  function BuyItem(gs: GameState, itemId: string): (r: Result<GameState, Alert>)
    ensures !Keyed.HasKey(Shop, ShopId, itemId) ==> r == Success(gs)
    ensures Keyed.HasKey(Shop, ShopId, itemId) ==>
      var item := Find(Shop, Keyed.KeyIs(ShopId, itemId)).value;
      && item.id == itemId
      && (gs.coins < item.price <==> r.Failure?)
      && (r.Failure? ==> r.error == InsufficientCoins)
      && (r.Success? ==>
            && r.value.coins == gs.coins - item.price
            && r.value.coins >= 0
            && r.value.inventory == AddOneOf(gs.inventory, item)
            && r.value == gs.(coins := r.value.coins, inventory := r.value.inventory))
  {
    match Find(Shop, Keyed.KeyIs(ShopId, itemId))
    case None => Success(gs)
    case Some(item) =>
      if gs.coins < item.price then Failure(InsufficientCoins)
      else Success(gs.(coins := gs.coins - item.price, inventory := AddOneOf(gs.inventory, item)))
  }

  /** Buying never drives the coins negative, whatever was held. */
  lemma BuyKeepsCoinsNonNegative(gs: GameState, itemId: string)
    requires gs.coins >= 0
    ensures BuyItem(gs, itemId).Success? ==> BuyItem(gs, itemId).value.coins >= 0
  {
  }

  lemma BuyExample(gs: GameState)
    requires gs.coins == 12 && gs.inventory == []
    ensures BuyItem(gs, "sunlamp") == Success(gs.(coins := 2, inventory := [GameItem("sunlamp", "games.sunlamp", 1, 15)]))
    ensures BuyItem(gs, "specialwater") == Failure(InsufficientCoins)
    ensures BuyItem(gs, "rose") == Success(gs)
  {
    var key := ShopId;
    assert key(Shop[0]) == "fertilizer" && key(Shop[1]) == "sunlamp" && key(Shop[2]) == "specialwater";
    assert Keyed.KeyIs(key, "sunlamp")(Shop[1]);
    assert !Keyed.KeyIs(key, "sunlamp")(Shop[0]);
    assert Find(Shop, Keyed.KeyIs(ShopId, "sunlamp")) == Some(Shop[1]);
    assert AddOneOf(gs.inventory, Shop[1]) == [GameItem("sunlamp", "games.sunlamp", 1, 15)];
    assert BuyItem(gs, "sunlamp") == Success(gs.(coins := 2, inventory := AddOneOf(gs.inventory, Shop[1])));
    assert Keyed.KeyIs(key, "specialwater")(Shop[2]);
  }

  // ---------------------------------------------------------------------------
  // Level-up reward and flower creation

  datatype RewardKind = XpReward | ItemReward | CoinsReward

  function AddXp(f: Flower): Flower { f.(xp := f.xp + 25) }

  /** `handleClaimReward(kind)`. `levelUpFlowerId` is the flower that levelled up (None when
      unset); `pick` stands for the random index into the shop. The xp reward does not
      recompute the flower's `level`. */
  function ClaimReward(gs: GameState, kind: RewardKind, levelUpFlowerId: Option<string>, pick: nat): (r: GameState)
    requires pick < |Shop|
    ensures kind == CoinsReward ==> r == gs.(coins := gs.coins + 50)
    ensures kind == ItemReward ==> r == gs.(inventory := AddOneOf(gs.inventory, Shop[pick]))
    ensures kind == XpReward ==>
      && r.totalXp == gs.totalXp + 25
      && |r.flowers| == |gs.flowers|
      && (forall i :: 0 <= i < |gs.flowers| ==>
            r.flowers[i] == if Some(gs.flowers[i].id) == levelUpFlowerId then gs.flowers[i].(xp := gs.flowers[i].xp + 25)
                            else gs.flowers[i])
      && r == gs.(flowers := r.flowers, totalXp := r.totalXp)
  {
    match kind
    case XpReward =>
      var hits := (f: Flower) => Some(f.id) == levelUpFlowerId;
      gs.(flowers := MapWhere(gs.flowers, hits, AddXp), totalXp := gs.totalXp + 25)
    case ItemReward => gs.(inventory := AddOneOf(gs.inventory, Shop[pick]))
    case CoinsReward => gs.(coins := gs.coins + 50)
  }

  /** The xp reward can leave a flower's stored level behind its xp (40 + 25 = 65 xp, still level 1). */
  lemma XpRewardLeavesLevelStale(gs: GameState)
    requires |gs.flowers| == 1 && gs.flowers[0].xp == 40 && gs.flowers[0].level == 1
    ensures var f := ClaimReward(gs, XpReward, Some(gs.flowers[0].id), 0).flowers[0];
      f.xp == 65 && f.level == 1 && P.FlowerLevel(f.xp) == 2 && !P.Levelled(f)
  {
  }

  /** Coins and item rewards keep the flowers as they were. */
  lemma RewardKeepsLevelled(gs: GameState, kind: RewardKind, levelUpFlowerId: Option<string>, pick: nat)
    requires pick < |Shop| && kind != XpReward && P.AllLevelled(gs.flowers)
    ensures P.AllLevelled(ClaimReward(gs, kind, levelUpFlowerId, pick).flowers)
  {
  }

  /** `handleCreateFlower`: a blank name raises an alert; otherwise a fresh flower is appended. */
  function CreateFlower(gs: GameState, name: string, id: string, today: string, now: string): (r: Result<GameState, Alert>)
    ensures Blank(name) <==> r.Failure?
    ensures r.Failure? ==> r.error == EnterFlowerName
    ensures r.Success? ==>
      && |r.value.flowers| == |gs.flowers| + 1
      && r.value.flowers[..|gs.flowers|] == gs.flowers
      && r.value.flowers[|gs.flowers|] == Flower(id, name, 1, 0, today, false, 0, now)
      && r.value == gs.(flowers := r.value.flowers)
  {
    if Blank(name) then Failure(EnterFlowerName)
    else Success(gs.(flowers := gs.flowers + [Flower(id, name, 1, 0, today, false, 0, now)]))
  }

  /** A created flower starts consistent: level 1 matches its 0 xp. */
  lemma CreateKeepsLevelled(gs: GameState, name: string, id: string, today: string, now: string)
    requires P.AllLevelled(gs.flowers)
    ensures CreateFlower(gs, name, id, today, now).Success? ==>
      P.AllLevelled(CreateFlower(gs, name, id, today, now).value.flowers)
  {
  }

  // ---------------------------------------------------------------------------
  // Challenge claiming

  function ChallengeId(c: GameChallenge): string { c.id }

  function MarkClaimed(now: string): GameChallenge -> GameChallenge {
    (c: GameChallenge) => c.(completed := true, completedAt := Some(now))
  }

  /** Pay a challenge's reward and mark every challenge with its id completed at `now`. */
  function Payout(gs: GameState, c: GameChallenge, now: string): (r: GameState)
    ensures r.coins == gs.coins + c.reward
    ensures |r.challenges| == |gs.challenges|
    ensures forall i :: 0 <= i < |gs.challenges| ==>
      r.challenges[i] == if gs.challenges[i].id == c.id
                         then gs.challenges[i].(completed := true, completedAt := Some(now))
                         else gs.challenges[i]
    ensures r == gs.(coins := r.coins, challenges := r.challenges)
  {
    var key := ChallengeId;
    assert forall i :: 0 <= i < |gs.challenges| ==> key(gs.challenges[i]) == gs.challenges[i].id;
    var challenges := MapWhere(gs.challenges, Keyed.KeyIs(key, c.id), MarkClaimed(now));
    gs.(coins := gs.coins + c.reward, challenges := challenges)
  }

  /** `handleClaimChallenge(id)` as written: nothing for an unknown or completed challenge,
      otherwise the reward is paid and the challenge marked completed. */
  function ClaimChallenge(gs: GameState, challengeId: string, now: string): (r: GameState)
    ensures Find(gs.challenges, Keyed.KeyIs(ChallengeId, challengeId)).None? ==> r == gs
    ensures Find(gs.challenges, Keyed.KeyIs(ChallengeId, challengeId)).Some? ==>
      var c := Find(gs.challenges, Keyed.KeyIs(ChallengeId, challengeId)).value;
      && c.id == challengeId
      && (c.completed ==> r == gs)
      && (!c.completed ==> r == Payout(gs, c, now))
  {
    match Find(gs.challenges, Keyed.KeyIs(ChallengeId, challengeId))
    case None => gs
    case Some(c) => if c.completed then gs else Payout(gs, c, now)
  }

  /** A second claim of the same challenge pays nothing. */
  lemma ClaimTwiceIsNoop(gs: GameState, challengeId: string, now: string)
    ensures var once := ClaimChallenge(gs, challengeId, now);
      ClaimChallenge(once, challengeId, now) == once
  {
    var once := ClaimChallenge(gs, challengeId, now);
    var f := Find(gs.challenges, Keyed.KeyIs(ChallengeId, challengeId));
    if f.Some? && !f.value.completed {
      var g := Find(once.challenges, Keyed.KeyIs(ChallengeId, challengeId));
      assert g.Some? by {
        var i :| 0 <= i < |gs.challenges| && gs.challenges[i] == f.value;
        assert Keyed.KeyIs(ChallengeId, challengeId)(once.challenges[i]);
      }
      var j :| 0 <= j < |once.challenges| && once.challenges[j] == g.value;
      assert once.challenges[j].completed;
    }
  }

  /** The claim button of the challenge list: shown for a completed challenge without a completion time. */
  predicate ClaimButtonShown(c: GameChallenge) {
    c.completed && c.completedAt.None?
  }

  /** With distinct ids, the challenge a claim looks up is the one whose button was pressed. */
  lemma FindsPressed(gs: GameState, i: int)
    requires Keyed.UniqueKeys(gs.challenges, ChallengeId)
    requires 0 <= i < |gs.challenges|
    ensures Find(gs.challenges, Keyed.KeyIs(ChallengeId, gs.challenges[i].id)) == Some(gs.challenges[i])
  {
    var p := Keyed.KeyIs(ChallengeId, gs.challenges[i].id);
    assert p(gs.challenges[i]);
    var k := FindIndex(gs.challenges, p).value;
    assert gs.challenges[k].id == gs.challenges[i].id;
  }

  /** As written, pressing a visible claim button never pays: the handler returns on `completed`,
      and the button is only shown for completed challenges. */
  lemma ClaimButtonNeverPays(gs: GameState, i: int, now: string)
    requires Keyed.UniqueKeys(gs.challenges, ChallengeId)
    requires 0 <= i < |gs.challenges| && ClaimButtonShown(gs.challenges[i])
    ensures ClaimChallenge(gs, gs.challenges[i].id, now) == gs
  {
    FindsPressed(gs, i);
  }

  lemma ClaimButtonNeverPaysExample(now: string)
    ensures var c := GameChallenge("daily-1", Daily, "t", "d", 10, true, None, 1, 1);
      var gs := GameState(0, [], [], [c], [], 0, None);
      ClaimButtonShown(c) && ClaimChallenge(gs, "daily-1", now).coins == 0
  {
    var c := GameChallenge("daily-1", Daily, "t", "d", 10, true, None, 1, 1);
    var gs := GameState(0, [], [], [c], [], 0, None);
    FindsPressed(gs, 0);
  }

  /** The claim the button evidently intends: a challenge whose button shows (completed, no
      completion time yet) pays out and is stamped. It pairs with `WaterFlowerFixed`, which
      leaves the completion time for the claim to write; next to the context's watering, which
      stamps it, no button ever shows (`ClaimButtonNeverShown`). */
  function ClaimChallengeFixed(gs: GameState, challengeId: string, now: string): (r: GameState)
    ensures Find(gs.challenges, Keyed.KeyIs(ChallengeId, challengeId)).None? ==> r == gs
    ensures Find(gs.challenges, Keyed.KeyIs(ChallengeId, challengeId)).Some? ==>
      var c := Find(gs.challenges, Keyed.KeyIs(ChallengeId, challengeId)).value;
      && (!ClaimButtonShown(c) ==> r == gs)
      && (ClaimButtonShown(c) ==> r == Payout(gs, c, now))
  {
    match Find(gs.challenges, Keyed.KeyIs(ChallengeId, challengeId))
    case None => gs
    case Some(c) => if !ClaimButtonShown(c) then gs else Payout(gs, c, now)
  }

  /** Pressing a visible claim button pays exactly that challenge's reward. */
  lemma FixedClaimPays(gs: GameState, i: int, now: string)
    requires Keyed.UniqueKeys(gs.challenges, ChallengeId)
    requires 0 <= i < |gs.challenges| && ClaimButtonShown(gs.challenges[i])
    ensures ClaimChallengeFixed(gs, gs.challenges[i].id, now).coins == gs.coins + gs.challenges[i].reward
  {
    FindsPressed(gs, i);
  }

  /** ... and only once: the claim stamps the completion time, which hides the button, so a
      second claim at any later time pays nothing more. */
  lemma FixedClaimOnce(gs: GameState, challengeId: string, now: string, later: string)
    ensures var once := ClaimChallengeFixed(gs, challengeId, now);
      ClaimChallengeFixed(once, challengeId, later) == once
  {
    var once := ClaimChallengeFixed(gs, challengeId, now);
    var f := Find(gs.challenges, Keyed.KeyIs(ChallengeId, challengeId));
    Keyed.FindByKey(gs.challenges, ChallengeId, challengeId);
    if f.Some? && ClaimButtonShown(f.value) {
      assert once == Payout(gs, f.value, now);
      Keyed.FindByKey(once.challenges, ChallengeId, challengeId);
      var i :| 0 <= i < |gs.challenges| && gs.challenges[i] == f.value;
      assert once.challenges[i].id == challengeId;
      var g := Find(once.challenges, Keyed.KeyIs(ChallengeId, challengeId));
      var j :| 0 <= j < |once.challenges| && once.challenges[j] == g.value;
      assert !ClaimButtonShown(once.challenges[j]);
    }
  }

  // ---------------------------------------------------------------------------
  // Reachable challenge states

  /** Every completed challenge carries a completion time. */
  predicate ClaimsStamped(cs: seq<GameChallenge>) {
    forall i :: 0 <= i < |cs| && cs[i].completed ==> cs[i].completedAt.Some?
  }

  /** The game writers of the context and of this screen, as one event each. */
  datatype GameEvent =
    | Water(flowerId: string, today: string, now: string)
    | Coins(amount: int)
    | UseItem(itemId: string, flowerId: string)
    | Buy(shopId: string)
    | Reward(kind: RewardKind, levelUpFlowerId: Option<string>, pick: nat)
    | Create(name: string, id: string, today: string, now: string)
    | Claim(challengeId: string, now: string)

  /** One event applied as written; an alert leaves the game as it was. */
  function Step(gs: GameState, ev: GameEvent): GameState {
    match ev
    case Water(f, today, now) => P.WaterFlower(gs, f, today, now)
    case Coins(n) => P.AddGameCoins(gs, n)
    case UseItem(i, f) => P.UseGameItem(gs, i, f)
    case Buy(i) => (match BuyItem(gs, i) case Success(g) => g case Failure(_) => gs)
    case Reward(k, f, pick) => ClaimReward(gs, k, f, pick % |Shop|)
    case Create(name, id, today, now) =>
      (match CreateFlower(gs, name, id, today, now) case Success(g) => g case Failure(_) => gs)
    case Claim(c, now) => ClaimChallenge(gs, c, now)
  }

  function Run(gs: GameState, evs: seq<GameEvent>): GameState
    decreases |evs|
  {
    if |evs| == 0 then gs else Run(Step(gs, evs[0]), evs[1..])
  }

  /** Every writer stamps a challenge whenever it marks it completed: watering sets both from
      the same test, and the claim handler sets both together. */
  lemma StepKeepsStamped(gs: GameState, ev: GameEvent)
    requires ClaimsStamped(gs.challenges)
    ensures ClaimsStamped(Step(gs, ev).challenges)
  {
    var r := Step(gs, ev);
    match ev
    case Water(f, today, now) =>
      forall i | 0 <= i < |r.challenges| && r.challenges[i].completed
        ensures r.challenges[i].completedAt.Some?
      {
        P.WaterChallengeRule(gs, f, today, now, i);
      }
    case Claim(c, now) =>
      var found := Find(gs.challenges, Keyed.KeyIs(ChallengeId, c));
      if found.Some? && !found.value.completed {
        forall i | 0 <= i < |r.challenges| && r.challenges[i].completed
          ensures r.challenges[i].completedAt.Some?
        {
          assert r.challenges[i] == if gs.challenges[i].id == found.value.id
                                    then gs.challenges[i].(completed := true, completedAt := Some(now))
                                    else gs.challenges[i];
        }
      }
    case Coins(_) =>
    case UseItem(_, _) =>
    case Buy(i) =>
    case Reward(_, _, _) =>
    case Create(_, _, _, _) =>
  }

  lemma {:induction false} RunKeepsStamped(gs: GameState, evs: seq<GameEvent>)
    requires ClaimsStamped(gs.challenges)
    ensures ClaimsStamped(Run(gs, evs).challenges)
    decreases |evs|
  {
    if |evs| > 0 {
      StepKeepsStamped(gs, evs[0]);
      RunKeepsStamped(Step(gs, evs[0]), evs[1..]);
    }
  }

  /** The starter game holds no completed challenge. */
  lemma DefaultStamped(today: string, now: string)
    ensures ClaimsStamped(S.DefaultGame(today, now).challenges)
  {
  }

  /** As written, no game reached from the starter game ever shows a claim button, so no
      challenge reward can be claimed from the list. */
  lemma ClaimButtonNeverShown(today: string, now: string, evs: seq<GameEvent>)
    ensures var g := Run(S.DefaultGame(today, now), evs);
      forall i :: 0 <= i < |g.challenges| ==> !ClaimButtonShown(g.challenges[i])
  {
    DefaultStamped(today, now);
    RunKeepsStamped(S.DefaultGame(today, now), evs);
  }

  /** ... and the claim keyed on the button alone pays nothing in any such game. */
  lemma FixedClaimAloneNeverPays(today: string, now: string, evs: seq<GameEvent>, id: string, at: string)
    ensures var g := Run(S.DefaultGame(today, now), evs);
      ClaimChallengeFixed(g, id, at) == g
  {
    DefaultStamped(today, now);
    RunKeepsStamped(S.DefaultGame(today, now), evs);
    var g := Run(S.DefaultGame(today, now), evs);
    var f := Find(g.challenges, Keyed.KeyIs(ChallengeId, id));
    if f.Some? {
      var i :| 0 <= i < |g.challenges| && g.challenges[i] == f.value;
      assert g.challenges[i].completed ==> g.challenges[i].completedAt.Some?;
    }
  }

  // ---------------------------------------------------------------------------
  // The intended challenge flow: watering completes, the claim pays and stamps

  /** The intended re-evaluation: a daily challenge is completed by watering, and its
      completion time is left for the claim to write. */
  function ReevaluateFixed(c: GameChallenge, watered: int): GameChallenge {
    if c.kind == Daily && !c.completed then
      c.(progress := watered, completed := watered >= c.target)
    else c
  }

  /** Watering with the intended re-evaluation; flowers and total xp as `waterFlower`. */
  function WaterFlowerFixed(gs: GameState, flowerId: string, today: string, now: string): (r: GameState)
    ensures var w := P.WaterFlower(gs, flowerId, today, now);
      r.flowers == w.flowers && r.totalXp == w.totalXp
    ensures |r.challenges| == |gs.challenges|
    ensures forall i :: 0 <= i < |gs.challenges| ==>
      var c, c' := gs.challenges[i], r.challenges[i];
      && (c.kind != Daily || c.completed ==> c' == c)
      && (c.kind == Daily && !c.completed ==>
            && c'.completed == (P.WateredCount(r.flowers) >= c.target)
            && c' == c.(progress := P.WateredCount(r.flowers), completed := c'.completed))
    ensures r == gs.(flowers := r.flowers, challenges := r.challenges, totalXp := r.totalXp)
  {
    var w := P.WaterFlower(gs, flowerId, today, now);
    var watered := P.WateredCount(w.flowers);
    w.(challenges := seq(|gs.challenges|, i requires 0 <= i < |gs.challenges| =>
      ReevaluateFixed(gs.challenges[i], watered)))
  }

  /** With the intended flow, a daily challenge that watering completes shows its button, and
      pressing it pays exactly its reward. */
  lemma WaterThenClaimPays(gs: GameState, i: int, flowerId: string, today: string, now: string, at: string)
    requires Keyed.UniqueKeys(gs.challenges, ChallengeId)
    requires 0 <= i < |gs.challenges|
    requires gs.challenges[i].kind == Daily && !gs.challenges[i].completed
    requires gs.challenges[i].completedAt.None?
    requires P.WateredCount(WaterFlowerFixed(gs, flowerId, today, now).flowers) >= gs.challenges[i].target
    ensures var w := WaterFlowerFixed(gs, flowerId, today, now);
      && ClaimButtonShown(w.challenges[i])
      && ClaimChallengeFixed(w, gs.challenges[i].id, at).coins == gs.coins + gs.challenges[i].reward
  {
    var w := WaterFlowerFixed(gs, flowerId, today, now);
    assert forall j :: 0 <= j < |gs.challenges| ==> w.challenges[j].id == gs.challenges[j].id;
    FixedClaimPays(w, i, at);
  }

  /** The starter game has distinct challenge ids, and watering its one flower makes the
      watered count 1, which reaches the target of "daily-1". */
  lemma StarterWatered(today: string, now: string)
    ensures var g0 := S.DefaultGame(today, now);
      && Keyed.UniqueKeys(g0.challenges, ChallengeId)
      && g0.challenges[0].id == "daily-1" && g0.challenges[0].target == 1
      && P.WateredCount(P.WaterFlower(g0, g0.flowers[0].id, today, now).flowers) == 1
  {
    var g0 := S.DefaultGame(today, now);
    assert Keyed.UniqueKeys(g0.challenges, ChallengeId) by {
      assert "daily-1"[0] != "weekly-1"[0] && "daily-1"[0] != "special-1"[0] && "weekly-1"[0] != "special-1"[0];
    }
    var flowers := P.WaterFlower(g0, g0.flowers[0].id, today, now).flowers;
    assert flowers == [flowers[0]] && flowers[0].wateredToday;
    assert Filter(flowers, P.IsWatered) == [flowers[0]];
  }

  /** As written, watering the starter flower completes "daily-1" with a stamp: no button
      appears, and a claim of it pays nothing. */
  lemma FirstDailyUnpaid(today: string, now: string, at: string)
    ensures var g0 := S.DefaultGame(today, now);
      var w := P.WaterFlower(g0, g0.flowers[0].id, today, now);
      && w.challenges[0].completed && !ClaimButtonShown(w.challenges[0])
      && ClaimChallenge(w, "daily-1", at).coins == 0
  {
    StarterWatered(today, now);
    var g0 := S.DefaultGame(today, now);
    var w := P.WaterFlower(g0, g0.flowers[0].id, today, now);
    P.WaterChallengeRule(g0, g0.flowers[0].id, today, now, 0);
    assert w.challenges[0].completed;
    assert Keyed.UniqueKeys(w.challenges, ChallengeId) by {
      assert forall j :: 0 <= j < |g0.challenges| ==> w.challenges[j].id == g0.challenges[j].id;
    }
    FindsPressed(w, 0);
  }

  /** With the intended flow, watering the starter flower lets "daily-1" be claimed for its
      10 coins, and a second claim pays nothing more. */
  lemma FirstDailyPaidOnce(today: string, now: string, at: string, later: string)
    ensures var g0 := S.DefaultGame(today, now);
      var w := WaterFlowerFixed(g0, g0.flowers[0].id, today, now);
      var paid := ClaimChallengeFixed(w, "daily-1", at);
      && ClaimButtonShown(w.challenges[0])
      && paid.coins == 10
      && ClaimChallengeFixed(paid, "daily-1", later) == paid
  {
    StarterWatered(today, now);
    var g0 := S.DefaultGame(today, now);
    var id := g0.flowers[0].id;
    WaterThenClaimPays(g0, 0, id, today, now, at);
    var w := WaterFlowerFixed(g0, id, today, now);
    var paid := ClaimChallengeFixed(w, "daily-1", at);
    FixedClaimOnce(w, "daily-1", at, later);
  }

  // ---------------------------------------------------------------------------
  // Watering and the level-up modal

  /** `currentFlower`: the selected flower when a (non-empty) selection exists, the first flower otherwise. */
  function CurrentFlower(gs: GameState, selected: Option<string>): (r: Option<Flower>)
    ensures r.Some? ==> r.value in gs.flowers
    ensures selected.Some? && selected.value != "" ==>
      && (r.Some? ==> r.value.id == selected.value)
      && (r.None? <==> forall f :: f in gs.flowers ==> f.id != selected.value)
    ensures (selected.None? || selected.value == "") ==>
      && (r.None? <==> |gs.flowers| == 0)
      && (|gs.flowers| > 0 ==> r == Some(gs.flowers[0]))
  {
    if selected.Some? && selected.value != "" then
      Keyed.FindByKey(gs.flowers, P.FlowerId, selected.value);
      Find(gs.flowers, Keyed.KeyIs(P.FlowerId, selected.value))
    else if |gs.flowers| > 0 then Some(gs.flowers[0])
    else None
  }

  /** `handleUseGameItemPress(itemId)`: the item goes to the shown flower; nothing happens without one. */
  function UseItemPress(gs: GameState, selected: Option<string>, itemId: string): (r: GameState)
    ensures CurrentFlower(gs, selected).None? ==> r == gs
    ensures CurrentFlower(gs, selected).Some? ==>
      r == P.UseGameItem(gs, itemId, CurrentFlower(gs, selected).value.id)
  {
    match CurrentFlower(gs, selected)
    case None => gs
    case Some(c) => P.UseGameItem(gs, itemId, c.id)
  }

  /** With distinct flower ids, a held item boosts the selected flower by its bonus and no other flower. */
  lemma UseItemBoostsSelected(gs: GameState, k: int, itemId: string)
    requires Keyed.UniqueKeys(gs.flowers, P.FlowerId)
    requires 0 <= k < |gs.flowers| && gs.flowers[k].id != ""
    requires Keyed.HasKey(gs.inventory, P.ItemId, itemId)
    ensures var r := UseItemPress(gs, Some(gs.flowers[k].id), itemId);
      var bonus := Find(gs.inventory, Keyed.KeyIs(P.ItemId, itemId)).value.xpBonus;
      && r.flowers[k].xp == gs.flowers[k].xp + bonus
      && forall i :: 0 <= i < |gs.flowers| && i != k ==> r.flowers[i] == gs.flowers[i]
  {
    Keyed.FindUnique(gs.flowers, P.FlowerId, k);
  }

  /** `handleWaterFlower` as written: the new game state, and the flower the level-up modal is
      opened for (None when it stays closed). The level after watering is read from `gameState`
      as captured when the screen last rendered, which the store's update has not replaced yet. */
  function PressWaterAsWritten(gs: GameState, selected: Option<string>, today: string, now: string)
    : (r: (GameState, Option<string>))
    ensures CurrentFlower(gs, selected).None? ==> r == (gs, None)
    ensures CurrentFlower(gs, selected).Some? ==>
      r.0 == P.WaterFlower(gs, CurrentFlower(gs, selected).value.id, today, now)
    ensures r.1.Some? ==> CurrentFlower(gs, selected).Some? && r.1.value == CurrentFlower(gs, selected).value.id
  {
    match CurrentFlower(gs, selected)
    case None => (gs, None)
    case Some(c) =>
      var oldLevel := TierOf(c.xp).level;
      var after := P.WaterFlower(gs, c.id, today, now);
      var stale := Find(gs.flowers, Keyed.KeyIs(P.FlowerId, c.id));
      (after, if stale.Some? && TierOf(stale.value.xp).level > oldLevel then Some(c.id) else None)
  }

  /** As written, watering never opens the level-up modal, whatever the state: the flower read back
      is the one from before watering, so its level cannot exceed itself. */
  lemma WaterNeverShowsLevelUp(gs: GameState, selected: Option<string>, today: string, now: string)
    ensures PressWaterAsWritten(gs, selected, today, now).1.None?
  {
    var c := CurrentFlower(gs, selected);
    if c.Some? && !(selected.Some? && selected.value != "") {
      Keyed.FindCons(gs.flowers, Keyed.KeyIs(P.FlowerId, c.value.id));
    }
  }

  /** The handler with the level read from the state after watering. */
  function PressWater(gs: GameState, selected: Option<string>, today: string, now: string)
    : (r: (GameState, Option<string>))
    ensures CurrentFlower(gs, selected).None? ==> r == (gs, None)
    ensures CurrentFlower(gs, selected).Some? ==>
      r.0 == P.WaterFlower(gs, CurrentFlower(gs, selected).value.id, today, now)
    ensures r.1.Some? ==> CurrentFlower(gs, selected).Some? && r.1.value == CurrentFlower(gs, selected).value.id
  {
    match CurrentFlower(gs, selected)
    case None => (gs, None)
    case Some(c) =>
      var oldLevel := TierOf(c.xp).level;
      var after := P.WaterFlower(gs, c.id, today, now);
      var updated := Find(after.flowers, Keyed.KeyIs(P.FlowerId, c.id));
      (after, if updated.Some? && TierOf(updated.value.xp).level > oldLevel then Some(c.id) else None)
  }

  /** With distinct flower ids, watering the selected flower opens the modal for it exactly when the
      ten xp of watering lift it to a higher tier. */
  lemma WaterShowsLevelUp(gs: GameState, k: int, today: string, now: string)
    requires Keyed.UniqueKeys(gs.flowers, P.FlowerId)
    requires 0 <= k < |gs.flowers| && gs.flowers[k].id != ""
    ensures var c := gs.flowers[k];
      PressWater(gs, Some(c.id), today, now).1 ==
        if TierOf(c.xp + 10).level > TierOf(c.xp).level then Some(c.id) else None
  {
    var c := gs.flowers[k];
    Keyed.FindUnique(gs.flowers, P.FlowerId, k);
    assert CurrentFlower(gs, Some(c.id)) == Some(c);
    var after := P.WaterFlower(gs, c.id, today, now);
    WaterKeepsIds(gs, c.id, today, now);
    Keyed.FindUnique(after.flowers, P.FlowerId, k);
    assert after.flowers[k].xp == c.xp + 10;
  }

  lemma WaterKeepsIds(gs: GameState, id: string, today: string, now: string)
    requires Keyed.UniqueKeys(gs.flowers, P.FlowerId)
    ensures var after := P.WaterFlower(gs, id, today, now);
      && (forall i :: 0 <= i < |gs.flowers| ==> after.flowers[i].id == gs.flowers[i].id)
      && Keyed.UniqueKeys(after.flowers, P.FlowerId)
  {
    var after := P.WaterFlower(gs, id, today, now);
    assert forall i :: 0 <= i < |gs.flowers| ==> after.flowers[i].id == gs.flowers[i].id;
  }

  /** A 45-xp flower watered to 55 reaches the second tier: as written no modal opens, as intended it does. */
  lemma WaterLevelUpExample(today: string, now: string)
    ensures var gs := GameState(0, [Flower("f1", "Rose", 1, 45, "", false, 0, "")], [], [], [], 0, None);
      && TierOf(55).level == 2 && TierOf(45).level == 1
      && PressWaterAsWritten(gs, None, today, now).1 == None
      && PressWater(gs, None, today, now).1 == Some("f1")
  {
    var gs := GameState(0, [Flower("f1", "Rose", 1, 45, "", false, 0, "")], [], [], [], 0, None);
    TierExamples();
    WaterNeverShowsLevelUp(gs, None, today, now);
    WaterShowsLevelUp(gs, 0, today, now);
  }
}
