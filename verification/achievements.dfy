/**
  Achievement tiers of the achievements screen (app/achievements.tsx): the
  threshold lists per kind, the progress count (how many thresholds a value
  reaches) and the four badges, each unlocked once its first tier is reached.
 */
module Achievements {
  import opened Common
  import opened Types

  const ConsecutiveDaysTiers: seq<int> := [5, 15, 30, 50, 100]
  const TodosCompletedTiers: seq<int> := [10, 25, 50, 100, 500, 1000]
  const RecipesCreatedTiers: seq<int> := [2, 5, 7, 10, 15, 20]
  const ShoppingItemsTiers: seq<int> := [30, 80, 150, 200, 500]

  /** The keys of `achievementTiers`. */
  function KindOf(key: string): Option<AchievementKind> {
    if key == "consecutive_days" then Some(ConsecutiveDays)
    else if key == "todos_completed" then Some(TodosCompleted)
    else if key == "recipes_created" then Some(RecipesCreated)
    else if key == "shopping_items" then Some(ShoppingItems)
    else None
  }

  function TiersOf(kind: AchievementKind): (tiers: seq<int>)
    ensures 5 <= |tiers| <= 6
    ensures Sorted(tiers)
  {
    match kind
    case ConsecutiveDays => ConsecutiveDaysTiers
    case TodosCompleted => TodosCompletedTiers
    case RecipesCreated => RecipesCreatedTiers
    case ShoppingItems => ShoppingItemsTiers
  }

  /** `achievementTiers[type] || []`: an unknown key has no tiers. */
  function TiersFor(key: string): (tiers: seq<int>)
    ensures KindOf(key).None? ==> tiers == []
    ensures KindOf(key).Some? ==> tiers == TiersOf(KindOf(key).value)
  {
    match KindOf(key)
    case None => []
    case Some(k) => TiersOf(k)
  }

  predicate Sorted(tiers: seq<int>) {
    forall i, j :: 0 <= i < j < |tiers| ==> tiers[i] < tiers[j]
  }

  function Reached(value: int): int -> bool {
    tier => value >= tier
  }

  /** `getAchievementProgress(type, value)`: the number of thresholds the value reaches. */
  function Progress(key: string, value: int): (n: nat)
    ensures n <= |TiersFor(key)|
    ensures KindOf(key).None? ==> n == 0
  {
    |Filter(TiersFor(key), Reached(value))|
  }

  /** The same count for a known kind. */
  function ProgressOf(kind: AchievementKind, value: int): (n: nat)
    ensures n <= 6
  {
    |Filter(TiersOf(kind), Reached(value))|
  }

  /** The position of the first threshold above `value` (the length when there is none). */
  function FirstAbove(tiers: seq<int>, value: int): (k: nat)
    ensures k <= |tiers|
    ensures forall i :: 0 <= i < k ==> tiers[i] <= value
    ensures k < |tiers| ==> tiers[k] > value
  {
    if |tiers| == 0 then 0
    else if tiers[0] > value then 0
    else 1 + FirstAbove(tiers[1..], value)
  }

  /** On a sorted threshold list, counting the reached thresholds finds the first unreached one. */
  lemma {:induction false} CountIsFirstAbove(tiers: seq<int>, value: int)
    requires Sorted(tiers)
    ensures |Filter(tiers, Reached(value))| == FirstAbove(tiers, value)
  {
    if |tiers| > 0 {
      if tiers[0] > value {
        assert forall x :: x in tiers ==> !Reached(value)(x) by {
          forall x | x in tiers ensures !Reached(value)(x) {
            var i :| 0 <= i < |tiers| && tiers[i] == x;
            assert i == 0 || tiers[0] < tiers[i];
          }
        }
        NoneReached(tiers, value);
      } else {
        CountIsFirstAbove(tiers[1..], value);
      }
    }
  }

  lemma NoneReached(tiers: seq<int>, value: int)
    requires forall x :: x in tiers ==> !Reached(value)(x)
    ensures |Filter(tiers, Reached(value))| == 0
  {
  }

  /** Progress of a kind's tiers, read as the first unreached tier. */
  lemma ProgressIsFirstAbove(kind: AchievementKind, value: int)
    ensures ProgressOf(kind, value) == FirstAbove(TiersOf(kind), value)
  {
    CountIsFirstAbove(TiersOf(kind), value);
  }

  /** The key lookup and the kind agree; unknown keys never make progress. */
  lemma ProgressByKey(key: string, value: int)
    ensures KindOf(key).Some? ==> Progress(key, value) == ProgressOf(KindOf(key).value, value)
    ensures KindOf("consecutive_days") == Some(ConsecutiveDays)
    ensures KindOf("shopping_items") == Some(ShoppingItems)
    ensures KindOf("steps").None?
  {
  }

  /** A larger value never shows fewer tiers. */
  lemma ProgressMonotone(kind: AchievementKind, v1: int, v2: int)
    requires v1 <= v2
    ensures ProgressOf(kind, v1) <= ProgressOf(kind, v2)
  {
    FilterWeaker(TiersOf(kind), Reached(v1), Reached(v2));
  }

  lemma DaysExamples()
    ensures ProgressOf(ConsecutiveDays, 4) == 0 && ProgressOf(ConsecutiveDays, 5) == 1
  {
    ProgressIsFirstAbove(ConsecutiveDays, 4);
    ProgressIsFirstAbove(ConsecutiveDays, 5);
  }

  /** A badge is unlocked when its kind has made any progress ... */
  predicate Unlocked(kind: AchievementKind, value: int) {
    ProgressOf(kind, value) > 0
  }

  /** ... that is, exactly when the value reaches the first tier. */
  lemma UnlockedIffFirstTier(kind: AchievementKind, value: int)
    ensures Unlocked(kind, value) <==> value >= TiersOf(kind)[0]
  {
    ProgressIsFirstAbove(kind, value);
  }

  lemma DaysBadge(v: int)
    ensures Unlocked(ConsecutiveDays, v) <==> v >= 5
  {
    UnlockedIffFirstTier(ConsecutiveDays, v);
  }

  lemma TodosBadge(v: int)
    ensures Unlocked(TodosCompleted, v) <==> v >= 10
  {
    UnlockedIffFirstTier(TodosCompleted, v);
  }

  lemma RecipesBadge(v: int)
    ensures Unlocked(RecipesCreated, v) <==> v >= 2
  {
    UnlockedIffFirstTier(RecipesCreated, v);
  }

  lemma ItemsBadge(v: int)
    ensures Unlocked(ShoppingItems, v) <==> v >= 30
  {
    UnlockedIffFirstTier(ShoppingItems, v);
  }

  /** The four badge cards: five days in a row, ten to-dos, two recipes, thirty shopping items. */
  datatype Badges = Badges(days: bool, todos: bool, recipes: bool, items: bool)

  function BadgesOf(stats: UserStats): Badges {
    Badges(
      Unlocked(ConsecutiveDays, stats.consecutiveDays),
      Unlocked(TodosCompleted, stats.todosCompleted),
      Unlocked(RecipesCreated, stats.recipesCreated),
      Unlocked(ShoppingItems, stats.shoppingItemsAdded))
  }

  lemma BadgeThresholds(stats: UserStats)
    ensures BadgesOf(stats).days <==> stats.consecutiveDays >= 5
    ensures BadgesOf(stats).todos <==> stats.todosCompleted >= 10
    ensures BadgesOf(stats).recipes <==> stats.recipesCreated >= 2
    ensures BadgesOf(stats).items <==> stats.shoppingItemsAdded >= 30
  {
    DaysBadge(stats.consecutiveDays);
    TodosBadge(stats.todosCompleted);
    RecipesBadge(stats.recipesCreated);
    ItemsBadge(stats.shoppingItemsAdded);
  }
}
