/**
  The progression engine of the store (contexts/WidgetContext.tsx:686-809):
  user points to user level at 500 points per level, flower xp to flower
  level at 50 xp per level, watering, coin grants and item consumption.

  The store skips every one of these when its `userStats` / `gameState` is
  still null; that check lives in the Store module, which wraps these
  functions. "Today" and "now" are parameters standing for the clock.
 */
module Progression {
  import opened Common
  import opened Types
  import Keyed

  const PointsPerLevel: int := 500
  const XpPerLevel: int := 50
  const WaterXp: int := 10

  // ---------------------------------------------------------------------------
  // Points and user level

  /** `Math.floor(total / 500) + 1`. */
  function LevelOf(total: int): (level: int)
    ensures (level - 1) * PointsPerLevel <= total < level * PointsPerLevel
  {
    total / PointsPerLevel + 1
  }

  /** `(total % 500) / 500`, with JavaScript's truncating `%`. */
  function ProgressOf(total: int): (p: real)
    ensures total >= 0 ==> 0.0 <= p < 1.0
    ensures total >= 0 ==> p * 500.0 == (total - (LevelOf(total) - 1) * PointsPerLevel) as real
  {
    JsRem(total, PointsPerLevel) as real / PointsPerLevel as real
  }

  /** `addPoints` on present stats: add to the total and re-derive level and progress. */
  function AddPoints(stats: UserStats, points: int): (r: UserStats)
    ensures r.totalPoints == stats.totalPoints + points
    ensures (r.level - 1) * PointsPerLevel <= r.totalPoints < r.level * PointsPerLevel
    ensures r.totalPoints >= 0 ==> 0.0 <= r.levelProgress < 1.0
    ensures r.totalPoints >= 0 ==>
      r.levelProgress * 500.0 == (r.totalPoints - (r.level - 1) * PointsPerLevel) as real
    ensures r == stats.(totalPoints := r.totalPoints, level := r.level, levelProgress := r.levelProgress)
  {
    var total := stats.totalPoints + points;
    stats.(totalPoints := total, level := LevelOf(total), levelProgress := ProgressOf(total))
  }

  /** The level is the unique one whose 500-point band holds the total. */
  lemma LevelUnique(total: int, level: int)
    requires (level - 1) * PointsPerLevel <= total < level * PointsPerLevel
    ensures LevelOf(total) == level
  {
  }

  /** More points never mean a lower level. */
  lemma {:induction false} LevelMonotone(p1: int, p2: int)
    requires p1 <= p2
    ensures LevelOf(p1) <= LevelOf(p2)
  {
    var l1, l2 := LevelOf(p1), LevelOf(p2);
    assert (l1 - 1) * PointsPerLevel < l2 * PointsPerLevel;
  }

  /** An award of at most one band's worth of points, to stats whose level matches their total,
      never lowers the level and raises it by at most one. */
  lemma AwardRaisesLevelByAtMostOne(stats: UserStats, points: int)
    requires 0 <= points <= PointsPerLevel && stats.level == LevelOf(stats.totalPoints)
    ensures var r := AddPoints(stats, points);
      r.level == LevelOf(r.totalPoints) && stats.level <= r.level <= stats.level + 1
  {
    var t := stats.totalPoints;
    var r := AddPoints(stats, points);
    LevelUnique(r.totalPoints, r.level);
    LevelMonotone(t, t + points);
    LevelMonotone(t + points, t + PointsPerLevel);
    LevelUnique(t + PointsPerLevel, LevelOf(t) + 1);
  }

  lemma LevelExamples()
    ensures LevelOf(0) == 1 && LevelOf(499) == 1 && LevelOf(500) == 2
    ensures LevelOf(999) == 2 && LevelOf(1000) == 3
    ensures ProgressOf(250) == 0.5
  {
  }

  /** From fresh stats: +20 (health entry), +5 (shopping item), +50 (recipe). */
  lemma PointsScenario(stats: UserStats)
    requires stats.totalPoints == 0
    ensures var s := AddPoints(AddPoints(AddPoints(stats, 20), 5), 50);
      s.totalPoints == 75 && s.level == 1 && s.levelProgress == 0.15
  {
  }

  // ---------------------------------------------------------------------------
  // Flower xp and flower level

  /** `Math.floor(xp / 50) + 1`. */
  function FlowerLevel(xp: int): (level: int)
    ensures (level - 1) * XpPerLevel <= xp < level * XpPerLevel
  {
    xp / XpPerLevel + 1
  }

  lemma FlowerLevelExamples()
    ensures FlowerLevel(0) == 1 && FlowerLevel(49) == 1 && FlowerLevel(50) == 2
    ensures FlowerLevel(55) == 2
  {
  }

  /** A flower whose stored level agrees with its xp. */
  predicate Levelled(f: Flower) {
    f.level == FlowerLevel(f.xp)
  }

  predicate AllLevelled(fs: seq<Flower>) {
    forall i :: 0 <= i < |fs| ==> Levelled(fs[i])
  }

  function FlowerId(f: Flower): string { f.id }

  predicate IsWatered(f: Flower) { f.wateredToday }

  /** `flowers.filter(f => f.wateredToday).length`. */
  function WateredCount(fs: seq<Flower>): nat {
    Count(fs, IsWatered)
  }

  function SumXp(fs: seq<Flower>): int {
    if |fs| == 0 then 0 else SumXp(fs[..|fs| - 1]) + fs[|fs| - 1].xp
  }

  /** One watering of a flower: +10 xp, re-levelled, stamped with today's date. */
  function Watered(f: Flower, today: string): Flower {
    var xp := f.xp + WaterXp;
    f.(xp := xp, level := FlowerLevel(xp), lastWateredDate := today, wateredToday := true)
  }

  /** Re-evaluate one challenge once `watered` flowers are watered today. */
  function Reevaluate(c: GameChallenge, watered: int, now: string): GameChallenge {
    if c.kind == Daily && !c.completed then
      c.(progress := watered,
         completed := watered >= c.target,
         completedAt := if watered >= c.target then Some(now) else None)
    else c
  }

  /** `waterFlower(flowerId)` on a present game state. */
  function WaterFlower(gs: GameState, flowerId: string, today: string, now: string): (r: GameState)
    ensures |r.flowers| == |gs.flowers| && |r.challenges| == |gs.challenges|
    ensures forall i :: 0 <= i < |gs.flowers| && gs.flowers[i].id != flowerId ==>
      r.flowers[i] == gs.flowers[i]
    ensures forall i :: 0 <= i < |gs.flowers| && gs.flowers[i].id == flowerId ==>
      var f := gs.flowers[i];
      r.flowers[i] == f.(xp := f.xp + 10, level := FlowerLevel(f.xp + 10),
                        lastWateredDate := today, wateredToday := true)
    ensures forall i :: 0 <= i < |gs.challenges| ==>
      r.challenges[i] == Reevaluate(gs.challenges[i], WateredCount(r.flowers), now)
    ensures r.totalXp == gs.totalXp + 10
    ensures r == gs.(flowers := r.flowers, challenges := r.challenges, totalXp := r.totalXp)
  {
    var flowers := MapWhere(gs.flowers, Keyed.KeyIs(FlowerId, flowerId), f => Watered(f, today));
    assert forall i :: 0 <= i < |gs.flowers| ==>
      (Keyed.KeyIs(FlowerId, flowerId)(gs.flowers[i]) <==> gs.flowers[i].id == flowerId);
    var watered := WateredCount(flowers);
    var challenges := seq(|gs.challenges|, i requires 0 <= i < |gs.challenges| =>
      Reevaluate(gs.challenges[i], watered, now));
    gs.(flowers := flowers, challenges := challenges, totalXp := gs.totalXp + WaterXp)
  }

  /** Watering keeps every flower's level in step with its xp. */
  lemma WaterKeepsLevelled(gs: GameState, flowerId: string, today: string, now: string)
    requires AllLevelled(gs.flowers)
    ensures AllLevelled(WaterFlower(gs, flowerId, today, now).flowers)
  {
  }

  /** A daily challenge is completed by watering exactly when the count of flowers
      watered today reaches its target; completed, weekly and special ones are untouched. */
  lemma WaterChallengeRule(gs: GameState, flowerId: string, today: string, now: string, i: int)
    requires 0 <= i < |gs.challenges|
    ensures var r := WaterFlower(gs, flowerId, today, now);
      var c, c' := gs.challenges[i], r.challenges[i];
      && (c.kind != Daily || c.completed ==> c' == c)
      && (c.kind == Daily && !c.completed ==>
            && c'.progress == WateredCount(r.flowers)
            && (c'.completed <==> WateredCount(r.flowers) >= c.target)
            && (c'.completed <==> c'.completedAt == Some(now))
            && c' == c.(progress := c'.progress, completed := c'.completed, completedAt := c'.completedAt))
  {
  }

  /** Summing xp distributes over concatenation. */
  lemma {:induction false} SumXpConcat(a: seq<Flower>, b: seq<Flower>)
    ensures SumXp(a + b) == SumXp(a) + SumXp(b)
  {
    if |b| == 0 {
      assert a + b == a;
    } else {
      assert (a + b)[..|a + b| - 1] == a + b[..|b| - 1];
      SumXpConcat(a, b[..|b| - 1]);
    }
  }

  /** Changing one flower's xp by `d` changes the xp total by `d`. */
  lemma {:induction false} SumXpPoint(fs: seq<Flower>, i: int, f: Flower)
    requires 0 <= i < |fs|
    ensures SumXp(fs[i := f]) == SumXp(fs) + (f.xp - fs[i].xp)
  {
    var gs := fs[i := f];
    assert fs == fs[..i] + [fs[i]] + fs[i + 1..];
    assert gs == fs[..i] + [f] + fs[i + 1..];
    SumXpConcat(fs[..i] + [fs[i]], fs[i + 1..]);
    SumXpConcat(fs[..i], [fs[i]]);
    SumXpConcat(fs[..i] + [f], fs[i + 1..]);
    SumXpConcat(fs[..i], [f]);
    assert SumXp([f]) == f.xp by { assert [f][..0] == []; }
    assert SumXp([fs[i]]) == fs[i].xp by { assert [fs[i]][..0] == []; }
  }

  /** With unique flower ids, watering an existing flower keeps `totalXp` minus the flowers'
      xp sum constant: the bookkeeping of `totalXp` agrees with the flowers. */
  lemma WaterXpBookkeeping(gs: GameState, i: int, today: string, now: string)
    requires Keyed.UniqueKeys(gs.flowers, FlowerId)
    requires 0 <= i < |gs.flowers|
    ensures var r := WaterFlower(gs, gs.flowers[i].id, today, now);
      r.totalXp - SumXp(r.flowers) == gs.totalXp - SumXp(gs.flowers)
  {
    var r := WaterFlower(gs, gs.flowers[i].id, today, now);
    assert r.flowers == gs.flowers[i := r.flowers[i]];
    SumXpPoint(gs.flowers, i, r.flowers[i]);
  }

  /** Watering an id no flower carries still adds 10 to `totalXp` and changes no flower. */
  lemma WaterUnknownFlower(gs: GameState, flowerId: string, today: string, now: string)
    requires !Keyed.HasKey(gs.flowers, FlowerId, flowerId)
    ensures var r := WaterFlower(gs, flowerId, today, now);
      r.flowers == gs.flowers && r.totalXp == gs.totalXp + 10
  {
  }

  /** A flower at 45 xp watered once reaches 55 xp and level 2. */
  lemma WaterScenario(gs: GameState, today: string, now: string)
    requires |gs.flowers| == 1 && gs.flowers[0].xp == 45
    ensures var f := WaterFlower(gs, gs.flowers[0].id, today, now).flowers[0];
      f.xp == 55 && f.level == 2
  {
  }

  // ---------------------------------------------------------------------------
  // Coins and items

  /** `addGameCoins(amount)` on a present game state. */
  function AddGameCoins(gs: GameState, amount: int): (r: GameState)
    ensures r.coins - gs.coins == amount
    ensures r == gs.(coins := r.coins)
  {
    gs.(coins := gs.coins + amount)
  }

  function ItemId(i: GameItem): string { i.id }

  predicate InStock(i: GameItem) { i.quantity > 0 }

  /** Every inventory entry holds at least one item. */
  predicate ValidInventory(inv: seq<GameItem>) {
    forall i :: 0 <= i < |inv| ==> inv[i].quantity >= 1
  }

  function TakeOne(i: GameItem): GameItem { i.(quantity := i.quantity - 1) }

  /** A flower given `bonus` xp and re-levelled. */
  function Boosted(f: Flower, bonus: int): Flower {
    f.(xp := f.xp + bonus, level := FlowerLevel(f.xp + bonus))
  }

  /** `x` is an entry of `inv` after one item of id `k` is used: another id's entry, or a `k` entry less one. */
  predicate Used(inv: seq<GameItem>, k: string, x: GameItem) {
    (x in inv && x.id != k) || exists y :: y in inv && y.id == k && x == TakeOne(y)
  }

  /** Taking one from every entry with id `k` leaves exactly the entries `Used` describes. */
  lemma TakeOneMembers(inv: seq<GameItem>, k: string)
    ensures forall x :: x in MapWhere(inv, Keyed.KeyIs(ItemId, k), TakeOne) <==> Used(inv, k, x)
  {
    var p := Keyed.KeyIs(ItemId, k);
    forall y ensures p(y) <==> y.id == k {
      assert p(y) == (ItemId(y) == k);
    }
    var m := MapWhere(inv, p, TakeOne);
    forall x | Used(inv, k, x) ensures x in m {
      if x in inv && x.id != k {
        var i :| 0 <= i < |inv| && inv[i] == x;
        assert !p(inv[i]);
        assert m[i] == x;
      } else {
        var y :| y in inv && y.id == k && x == TakeOne(y);
        var i :| 0 <= i < |inv| && inv[i] == y;
        assert p(inv[i]);
        assert m[i] == x;
      }
    }
    forall x | x in m ensures Used(inv, k, x) {
      var i :| 0 <= i < |m| && m[i] == x;
      assert inv[i] in inv;
      if p(inv[i]) {
        assert inv[i].id == k && x == TakeOne(inv[i]);
      } else {
        assert inv[i].id != k && x == inv[i];
      }
    }
  }

  /** `useGameItem(itemId, flowerId)` on a present game state. */
  function UseGameItem(gs: GameState, itemId: string, flowerId: string): (r: GameState)
    ensures !Keyed.HasKey(gs.inventory, ItemId, itemId) ==> r == gs
    ensures Keyed.HasKey(gs.inventory, ItemId, itemId) ==>
      var item := Find(gs.inventory, Keyed.KeyIs(ItemId, itemId)).value;
      && r.totalXp == gs.totalXp + item.xpBonus
      && |r.flowers| == |gs.flowers|
      && (forall i :: 0 <= i < |gs.flowers| ==>
            r.flowers[i] == if gs.flowers[i].id == flowerId then Boosted(gs.flowers[i], item.xpBonus)
                            else gs.flowers[i])
      && (forall x :: x in r.inventory ==> x.quantity > 0)
      && (forall x :: x in r.inventory <==> x.quantity > 0 && Used(gs.inventory, itemId, x))
      && r == gs.(inventory := r.inventory, flowers := r.flowers, totalXp := r.totalXp)
  {
    match Find(gs.inventory, Keyed.KeyIs(ItemId, itemId))
    case None => gs
    case Some(item) =>
      TakeOneMembers(gs.inventory, itemId);
      var inventory := Filter(MapWhere(gs.inventory, Keyed.KeyIs(ItemId, itemId), TakeOne), InStock);
      var flowers := MapWhere(gs.flowers, Keyed.KeyIs(FlowerId, flowerId), f => Boosted(f, item.xpBonus));
      gs.(inventory := inventory, flowers := flowers, totalXp := gs.totalXp + item.xpBonus)
  }

  /** Using an item keeps every inventory quantity at one or more. */
  lemma UseKeepsInventoryValid(gs: GameState, itemId: string, flowerId: string)
    requires ValidInventory(gs.inventory)
    ensures ValidInventory(UseGameItem(gs, itemId, flowerId).inventory)
  {
    var r := UseGameItem(gs, itemId, flowerId);
    forall i | 0 <= i < |r.inventory| ensures r.inventory[i].quantity >= 1 {
      assert r.inventory[i] in r.inventory;
    }
  }

  /** Using an item keeps every flower's level in step with its xp. */
  lemma UseKeepsLevelled(gs: GameState, itemId: string, flowerId: string)
    requires AllLevelled(gs.flowers)
    ensures AllLevelled(UseGameItem(gs, itemId, flowerId).flowers)
  {
  }

  function SumQuantity(inv: seq<GameItem>): int {
    if |inv| == 0 then 0 else inv[0].quantity + SumQuantity(inv[1..])
  }

  /** Dropping empty entries does not change the number of items held. */
  lemma {:induction false} DropEmptyKeepsSum(inv: seq<GameItem>)
    requires forall i :: 0 <= i < |inv| ==> inv[i].quantity >= 0
    ensures SumQuantity(Filter(inv, InStock)) == SumQuantity(inv)
  {
    if |inv| > 0 {
      DropEmptyKeepsSum(inv[1..]);
      if InStock(inv[0]) {
        assert Filter(inv, InStock) == [inv[0]] + Filter(inv[1..], InStock);
        assert ([inv[0]] + Filter(inv[1..], InStock))[1..] == Filter(inv[1..], InStock);
      } else {
        assert Filter(inv, InStock) == Filter(inv[1..], InStock);
      }
    }
  }

  /** Taking one from the single entry with id `k` lowers the number of items held by one. */
  lemma {:induction false} TakeOneSum(inv: seq<GameItem>, k: string)
    requires Keyed.UniqueKeys(inv, ItemId) && Keyed.HasKey(inv, ItemId, k)
    ensures SumQuantity(MapWhere(inv, Keyed.KeyIs(ItemId, k), TakeOne)) == SumQuantity(inv) - 1
  {
    var m := MapWhere(inv, Keyed.KeyIs(ItemId, k), TakeOne);
    assert m[1..] == MapWhere(inv[1..], Keyed.KeyIs(ItemId, k), TakeOne);
    if inv[0].id == k {
      forall j | 0 <= j < |inv[1..]| ensures inv[1..][j].id != k {
        assert inv[j + 1].id != inv[0].id;
      }
      assert m[1..] == inv[1..];
    } else {
      var j :| 0 <= j < |inv| && inv[j].id == k;
      assert inv[1..][j - 1].id == k;
      assert Keyed.UniqueKeys(inv[1..], ItemId) by {
        forall a, b | 0 <= a < b < |inv[1..]| ensures inv[1..][a].id != inv[1..][b].id {
          assert inv[a + 1].id != inv[b + 1].id;
        }
      }
      TakeOneSum(inv[1..], k);
    }
  }

  /** With unique item ids, using a held item lowers the number of items held by exactly one. */
  lemma UseConsumesOne(gs: GameState, itemId: string, flowerId: string)
    requires ValidInventory(gs.inventory) && Keyed.UniqueKeys(gs.inventory, ItemId)
    requires Keyed.HasKey(gs.inventory, ItemId, itemId)
    ensures SumQuantity(UseGameItem(gs, itemId, flowerId).inventory) == SumQuantity(gs.inventory) - 1
  {
    var m := MapWhere(gs.inventory, Keyed.KeyIs(ItemId, itemId), TakeOne);
    TakeOneSum(gs.inventory, itemId);
    DropEmptyKeepsSum(m);
  }
}
