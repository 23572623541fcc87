# PulsLog in Dafny

PulsLog is a React Native health diary: blood pressure and pulse entries, drinks, reminders, a small forum,
Samsung Health readings, to-do lists, shopping lists, notes and recipes, plus a flower-growing game with
coins, items and challenges, all held in one context object (`WidgetContext`) that the screens read and update.

This project models that core as pure functions over immutable values:

- **Store** (`store.dfy`) is the context object. Every store mutation is a function from the old store to the
  new one, and every query is a function of the store. Loading from storage is a function of a snapshot of
  the stored texts.
- **Keyed** (`keyed.dfy`) holds the collection updates the context repeats for every record type: append,
  replace by id, remove by id, and query by date. It also holds their laws: a remove undoes an append, and a
  replace restores.
- **Progression** (`progression.dfy`) holds user points and levels, flower watering, coins and item use.
- **FlowerGame** covers the game screen: the tier ladder, the shop, the level-up reward, creating flowers,
  watering and claiming challenges.
- **Health** covers the error logger's averaging pass and its warning rules.
- **Overview** covers the home-screen figures and the drink tracker.
- **Wearable** covers the Samsung Health screen and its helpers.
- **Achievements** covers the badge tiers.
- **Shopping**, **Todos**, **Recipes**, **Notes**, **Reminders**, **Settings**, **Onboarding**, **AddEntry**,
  **Forum** and **Calendar** cover one screen each. Each handler takes the store and the screen's own state
  and returns their new values, or a `Failure` carrying the alert the screen would show.
- **Sorting** models the comparator sorts the lists use.
- **Common** and **Types** hold the helpers and the record types.

The clock, fresh ids (`Date.now()`), `Math.random`, `parseInt`/`parseFloat`, `localeCompare` and the local
time zone are all parameters.

Where the documented design and the code disagree, the model follows the code. The design describes loading as falling back per key. In the code one `try` block covers every key, so the first malformed text ends the load (`Store.Load`).

## Model

| member | source | states |
|---|---|---|
| Store.Load | contexts/WidgetContext.tsx:290-441 | The first malformed text ends the load. A bad key at or before the stats leaves stats, settings and game null, and a bad profile leaves the whole store initial. |
| Store.FirstMalformedIsFirst | contexts/WidgetContext.tsx:290-441 | The position `Load` stops at is exactly the first key whose text fails to parse: some key up to position j is malformed iff that position is at most j. |
| Store.LoadFallThrough | contexts/WidgetContext.tsx:290-441 | Every key is loaded (a list, or an empty list when absent; a singleton, or its default when absent) exactly when no key up to and including it fails to parse. Otherwise it keeps its initial value: an empty list, or null. The profile is the stored one whenever present. |
| Store.LoadWellFormed | contexts/WidgetContext.tsx:290-441 | With every stored text well formed, the profile and each present singleton are the stored ones, and absent singletons are seeded with their defaults. Every one of the ten lists is the stored one, or empty when its key is absent. |
| Store.FirstStartDefaults | contexts/WidgetContext.tsx:354-433 | On a first start the seeded stats are 0 points at level 1. Security is off. The game holds 0 coins, one 0-xp flower at level 1 and three open challenges with targets 1, 7 and 1. |
| Store.MalformedStatsDisablesProgression | contexts/WidgetContext.tsx:436-440 | A malformed stats text leaves stats and game null, so a later `addPoints` is a no-op. |
| Store.UpdateUserProfile | contexts/WidgetContext.tsx:443-450 | The profile is replaced and nothing else changes. |
| Keyed.ReplaceById | contexts/WidgetContext.tsx:534 | `map(l => l.id === x.id ? x : l)`: same length; every position with that id holds the new record and every other position is unchanged. |
| Keyed.ReplaceRestores | contexts/WidgetContext.tsx:532-540 | With distinct ids, writing a record back over its updated version restores the list. |
| Store.AddHealthEntry | contexts/WidgetContext.tsx:452-460 | The entry is appended and nothing else changes. |
| Store.DeleteHealthEntry | contexts/WidgetContext.tsx:499-507 | Exactly the entries with another id remain, each with as many copies as before. |
| Keyed.RemoveById | contexts/WidgetContext.tsx:501 | `filter(x => x.id !== id)`: exactly the elements with another id remain, each with its multiplicity, and the list does not grow. |
| Common.FilterCount | contexts/WidgetContext.tsx:501 | Filtering keeps every copy of a selected element and drops every copy of the others. |
| Keyed.RemoveUndoesAppend | contexts/WidgetContext.tsx:452-507 | Deleting the id of an element just appended under a fresh id restores the list. |
| Store.EntriesByDate | contexts/WidgetContext.tsx:462-464 | Exactly the stored entries whose date equals the key, each with as many copies as stored. |
| Keyed.SelectByKey | contexts/WidgetContext.tsx:463 | `filter(x => x.date === date)`: exactly the elements with that date, each with its multiplicity. |
| Store.AddDrinkEntry | contexts/WidgetContext.tsx:466-474 | The drink is appended and nothing else changes. |
| Store.DrinkEntriesByDate | contexts/WidgetContext.tsx:476-478 | Exactly the drinks of that date, each with as many copies as stored. |
| Store.UpdateReminders | contexts/WidgetContext.tsx:480-487 | The reminder list is replaced wholesale. |
| Store.AddForumMessage | contexts/WidgetContext.tsx:489-497 | The message is appended at the end. |
| Store.UpdateSamsungHealthData | contexts/WidgetContext.tsx:509-516 | The wearable list is replaced wholesale. |
| Store.SamsungHealthDataByDate | contexts/WidgetContext.tsx:518-520 | The first record of that date, or none exactly when no record carries it. |
| Store.AddTodoList | contexts/WidgetContext.tsx:522-530 | The list is appended. |
| Store.UpdateTodoList | contexts/WidgetContext.tsx:532-540 | Every list with that id becomes the new one; the others and the order stay. |
| Store.DeleteTodoList | contexts/WidgetContext.tsx:542-550 | The lists with that id go, together with the tasks embedded in them; every other list keeps all its copies. |
| Store.DeleteTodoListCascades | contexts/WidgetContext.tsx:542-550 | After a delete, no remaining task is filed under the deleted id. |
| Store.AddShoppingList | contexts/WidgetContext.tsx:552-560 | The list is appended. |
| Store.UpdateShoppingList | contexts/WidgetContext.tsx:562-570 | Every list with that id becomes the new one. |
| Store.DeleteShoppingList | contexts/WidgetContext.tsx:572-580 | The lists with that id go; every other list keeps all its copies. |
| Store.AddNote | contexts/WidgetContext.tsx:582-590 | The note is appended. |
| Store.UpdateNote | contexts/WidgetContext.tsx:592-600 | Every note with that id becomes the new one. |
| Store.DeleteNote | contexts/WidgetContext.tsx:602-610 | The notes with that id go; every other note keeps all its copies. |
| Store.DeleteUndoesAddNote | contexts/WidgetContext.tsx:582-610 | Adding a note under a fresh id and deleting that id restores the store. |
| Store.AddAppointment | contexts/WidgetContext.tsx:612-620 | The appointment is appended. |
| Store.UpdateAppointment | contexts/WidgetContext.tsx:622-630 | Every appointment with that id becomes the new one. |
| Store.DeleteAppointment | contexts/WidgetContext.tsx:632-640 | The appointments with that id go; every other appointment keeps all its copies. |
| Store.AppointmentsByDate | contexts/WidgetContext.tsx:642-644 | Exactly the appointments of that date, each with as many copies as stored. |
| Store.AddRecipe | contexts/WidgetContext.tsx:646-655 | The recipe is appended. Null stats stay null; present stats become the full `addPoints` step for 50 points, with total, level and progress re-derived. |
| Store.UpdateRecipe | contexts/WidgetContext.tsx:657-665 | Every recipe with that id becomes the new one. |
| Store.DeleteRecipe | contexts/WidgetContext.tsx:667-675 | The recipes with that id go; every other recipe keeps all its copies. |
| Store.UpdateUserStats | contexts/WidgetContext.tsx:677-684 | The stats are replaced. |
| Store.AddPoints | contexts/WidgetContext.tsx:686-697 | Null stats are left alone. Otherwise the stats become the progression step of `addPoints`: the points are added and level and progress are re-derived from the new total. |
| Store.UpdateAppSettings | contexts/WidgetContext.tsx:699-706 | The settings are replaced. |
| Store.UpdateGameState | contexts/WidgetContext.tsx:708-715 | The game state is replaced. |
| Store.WaterFlower | contexts/WidgetContext.tsx:717-759 | A null game state is left alone. Otherwise the game becomes the watering step: total xp grows by 10, and coins and inventory stay. |
| Store.AddGameCoins | contexts/WidgetContext.tsx:761-770 | A null game state is left alone. Otherwise only the coins change, by the amount. |
| Store.UseGameItem | contexts/WidgetContext.tsx:772-809 | A null game state is left alone. Otherwise the game becomes the item-use step: coins stay, an unheld item changes nothing, and no empty entry remains. |
| Progression.LevelOf | contexts/WidgetContext.tsx:692-693 | The level is the one whose 500-point band holds the total: `(level-1)*500 <= total < level*500`. |
| Progression.ProgressOf | contexts/WidgetContext.tsx:694 | For a non-negative total, progress is in [0, 1): it is how far the total lies into its level band, over 500. |
| Common.JsRem | contexts/WidgetContext.tsx:694 | JavaScript's `%` for a positive divisor: for a non-negative dividend the Euclidean remainder, for a negative one a remainder in (−b, 0], with the dividend's sign. |
| Progression.AddPoints | contexts/WidgetContext.tsx:686-697 | The total grows by the points, level and progress agree with the new total, and the other stat fields stay. |
| Progression.LevelUnique | contexts/WidgetContext.tsx:692-693 | Any level whose band holds the total is the computed one. |
| Progression.LevelMonotone | contexts/WidgetContext.tsx:692-693 | More points never give a lower level. |
| Progression.AwardRaisesLevelByAtMostOne | contexts/WidgetContext.tsx:686-697 | An award of 0 to 500 points, to stats whose level matches their total, keeps them in step, never lowers the level and raises it by at most one. |
| Progression.LevelExamples | contexts/WidgetContext.tsx:692-694 | 0 and 499 points are level 1, 500 and 999 are level 2, and 1000 is level 3. 250 points are half-way, at progress 0.5. |
| Progression.PointsScenario | contexts/WidgetContext.tsx:686-697 | From fresh stats, +20, +5 and +50 give 75 points at level 1, with progress 0.15. |
| Progression.FlowerLevel | contexts/WidgetContext.tsx:725-726 | The stored flower level is the 50-xp band holding the xp. |
| Progression.FlowerLevelExamples | contexts/WidgetContext.tsx:725-726 | 0 and 49 xp are level 1, and 50 and 55 xp are level 2. |
| Progression.WaterFlower | contexts/WidgetContext.tsx:717-759 | The flowers with that id gain 10 xp, are re-levelled and are stamped as watered today; the others stay. Every daily open challenge is re-evaluated against the count watered today. Total xp grows by 10. |
| Progression.WaterKeepsLevelled | contexts/WidgetContext.tsx:720-737 | Watering keeps every stored level in step with the xp. |
| Progression.WaterChallengeRule | contexts/WidgetContext.tsx:739-749 | A daily open challenge becomes completed, with a time stamp, exactly when the watered count reaches its target. Completed, weekly and special challenges are untouched. |
| Progression.WaterXpBookkeeping | contexts/WidgetContext.tsx:720-756 | With distinct flower ids, watering an existing flower raises total xp and the flowers' xp sum by the same 10. |
| Progression.WaterUnknownFlower | contexts/WidgetContext.tsx:720-756 | Watering an id that no flower carries changes no flower but still adds 10 to total xp. |
| Progression.WaterScenario | contexts/WidgetContext.tsx:720-737 | A 45-xp flower watered once has 55 xp and level 2. |
| Progression.AddGameCoins | contexts/WidgetContext.tsx:761-770 | Only the coins change, by the amount. |
| Progression.UseGameItem | contexts/WidgetContext.tsx:772-809 | An unheld item changes nothing. Otherwise the flowers with that id gain the item's bonus and are re-levelled, and total xp grows by the bonus. The inventory holds exactly the in-stock entries among the other ids' entries and the used id's entries less one item: an entry at one item is dropped. |
| Progression.TakeOneMembers | contexts/WidgetContext.tsx:778-783 | Taking one item from the entries of an id leaves exactly the other ids' entries and those entries less one. |
| Progression.UseKeepsInventoryValid | contexts/WidgetContext.tsx:778-783 | Every inventory entry keeps a quantity of at least one. |
| Progression.UseKeepsLevelled | contexts/WidgetContext.tsx:785-799 | Item use keeps every stored level in step with the xp. |
| Progression.DropEmptyKeepsSum | contexts/WidgetContext.tsx:783 | Dropping the empty entries keeps the number of items held. |
| Progression.TakeOneSum | contexts/WidgetContext.tsx:778-782 | Taking one from the single entry with that id lowers the items held by one. |
| Progression.UseConsumesOne | contexts/WidgetContext.tsx:772-809 | With distinct item ids, using a held item lowers the items held by exactly one. |
| FlowerGame.TierOf | app/games/flower-simulator.tsx:54-61 | The tier shown is a ladder row whose threshold the xp reaches, and no reached row has a higher threshold. Negative xp shows the first row. |
| FlowerGame.TierMatchesThresholds | app/games/flower-simulator.tsx:11-17 | The scan agrees with the ladder written out as thresholds 0/50/120/250/500. |
| FlowerGame.TierMonotone | app/games/flower-simulator.tsx:54-61 | More xp never shows a lower tier. |
| FlowerGame.TierExamples | app/games/flower-simulator.tsx:11-17 | 49 xp shows the seedling, 50 the blossom, 120 the hibiscus, 250 the sunflower and 500 the sparkles. |
| FlowerGame.StoredLevelIsNotTier | app/games/flower-simulator.tsx:54-61 | At 100 xp the stored level is 3 but the shown tier is 2: the two scales differ. |
| FlowerGame.NextLevelXp | app/games/flower-simulator.tsx:63-70 | Below the top tier, the result is the next row's threshold, which lies above the xp. On the top tier it is 1000. |
| FlowerGame.AddOneOf | app/games/flower-simulator.tsx:119-142 | A held item's entry grows by one. Otherwise an entry of quantity 1 is appended. |
| FlowerGame.AddOneKeepsInventory | app/games/flower-simulator.tsx:119-142 | Adding one keeps every quantity at one or more and the ids distinct. |
| FlowerGame.AddOneCounts | app/games/flower-simulator.tsx:119-142 | Adding one raises the number of items held by exactly one. |
| FlowerGame.BuyItem | app/games/flower-simulator.tsx:119-142 | An unknown id does nothing. Too few coins raise the coins alert. Otherwise the price is paid and one of the item is added. |
| FlowerGame.BuyKeepsCoinsNonNegative | app/games/flower-simulator.tsx:119-142 | Buying never drives non-negative coins below zero. |
| FlowerGame.BuyExample | app/games/flower-simulator.tsx:19-23 | With 12 coins, a sunlamp (10) is bought, leaving 2 coins and one sunlamp held. Special water raises the coins alert, and an unknown id does nothing. |
| FlowerGame.ClaimReward | app/games/flower-simulator.tsx:88-117 | Xp adds 25 to the levelled-up flower and to the total, an item adds one of the randomly picked shop item, and coins add 50. The other parts of the state stay. |
| FlowerGame.XpRewardLeavesLevelStale | app/games/flower-simulator.tsx:95-101 | The xp reward does not re-level: at 40 + 25 xp the stored level stays 1. |
| FlowerGame.RewardKeepsLevelled | app/games/flower-simulator.tsx:102-113 | The item and coin rewards keep the flowers as they were. |
| FlowerGame.CreateFlower | app/games/flower-simulator.tsx:144-166 | A blank name raises the name alert. Otherwise a level-1, 0-xp, unwatered flower is appended. |
| FlowerGame.CreateKeepsLevelled | app/games/flower-simulator.tsx:144-166 | A created flower keeps every stored level in step with its xp. |
| FlowerGame.Payout | app/games/flower-simulator.tsx:168-180 | The challenge's reward is added to the coins, and the challenges with its id are stamped completed now. |
| FlowerGame.ClaimChallenge | app/games/flower-simulator.tsx:168-180 | As written: an unknown or completed challenge does nothing; otherwise it pays out. |
| FlowerGame.ClaimTwiceIsNoop | app/games/flower-simulator.tsx:168-180 | A second claim of the same challenge pays nothing. |
| FlowerGame.ClaimButtonNeverPays | app/games/flower-simulator.tsx:384-393 | Pressing a visible claim button (completed, no completion time) leaves the state unchanged. |
| FlowerGame.ClaimButtonShown | app/games/flower-simulator.tsx:384-393 | The claim button shows for a completed challenge without a completion time (a definition). |
| FlowerGame.ClaimButtonNeverPaysExample | app/games/flower-simulator.tsx:168-180 | A completed, unstamped 10-coin challenge shows its button and still pays 0. |
| FlowerGame.ClaimChallengeFixed | app/games/flower-simulator.tsx:384-393 | The intended claim: a challenge whose button shows (completed, no completion time) pays out and is stamped; an unknown id or any other challenge does nothing. It pays only next to `WaterFlowerFixed`. |
| FlowerGame.FixedClaimPays | app/games/flower-simulator.tsx:384-393 | With distinct challenge ids, a visible button pays exactly that challenge's reward. `FirstDailyPaidOnce` reaches such a button by watering. |
| FlowerGame.FixedClaimOnce | app/games/flower-simulator.tsx:168-180 | The intended claim stamps the challenge, so a second claim at any later time changes nothing. |
| FlowerGame.ClaimsStamped | app/games/flower-simulator.tsx:384-393 | Every completed challenge has a completion time, so none shows its button (a definition). |
| FlowerGame.Step | app/games/flower-simulator.tsx:72-180 | One writer of the game state as written: watering, coins, item use, purchase, level-up reward, new flower, challenge claim. An alert leaves the state as it was (a definition). |
| FlowerGame.Run | app/games/flower-simulator.tsx:72-180 | The events applied in order (a definition). |
| FlowerGame.StepKeepsStamped | contexts/WidgetContext.tsx:739-749 | Every writer keeps completed challenges stamped: watering sets both from the same test, the claim handler (flower-simulator.tsx:173-176) sets both together, and the other writers leave the challenges alone. |
| FlowerGame.RunKeepsStamped | contexts/WidgetContext.tsx:739-749 | Any sequence of writers keeps completed challenges stamped. |
| FlowerGame.DefaultStamped | contexts/WidgetContext.tsx:383-431 | The starter game has no completed challenge. |
| FlowerGame.ClaimButtonNeverShown | app/games/flower-simulator.tsx:384-393 | In every game reached from the starter game by any writers, no challenge shows its claim button. |
| FlowerGame.FixedClaimAloneNeverPays | app/games/flower-simulator.tsx:384-393 | Fixing the claim alone is not enough: in every reachable game it changes nothing. |
| FlowerGame.WaterFlowerFixed | contexts/WidgetContext.tsx:739-749 | The intended watering: flowers and total xp as in `waterFlower`; a daily open challenge gets the watered count and is completed when it reaches the target, without a completion time; other challenges stay. |
| FlowerGame.WaterThenClaimPays | app/games/flower-simulator.tsx:168-180 | With the intended flow, a daily open challenge that watering completes shows its button, and the claim pays exactly its reward. |
| FlowerGame.StarterWatered | contexts/WidgetContext.tsx:383-431 | The starter game has distinct challenge ids, `daily-1` has target 1, and watering its one flower makes the watered count 1. |
| FlowerGame.FirstDailyUnpaid | contexts/WidgetContext.tsx:739-749 | As written, watering the starter flower completes `daily-1` with a stamp: no button shows and a claim pays 0 coins. |
| FlowerGame.FirstDailyPaidOnce | app/games/flower-simulator.tsx:168-180 | With the intended flow, watering the starter flower shows the `daily-1` button, the claim pays its 10 coins, and a later second claim changes nothing. |
| FlowerGame.CurrentFlower | app/games/flower-simulator.tsx:36 | A non-empty selection finds the flower with that id, or none when no flower has it. With no selection the first flower is shown, or none when there are no flowers. |
| FlowerGame.UseItemPress | app/games/flower-simulator.tsx:38-48 | Without a shown flower nothing happens. Otherwise the item goes to the shown flower. |
| FlowerGame.UseItemBoostsSelected | app/games/flower-simulator.tsx:38-48 | With distinct flower ids, a held item raises the selected flower's xp by its bonus and changes no other flower. |
| FlowerGame.PressWaterAsWritten | app/games/flower-simulator.tsx:72-86 | The shown flower is watered. The modal flag is computed from the game state captured before watering. |
| FlowerGame.WaterNeverShowsLevelUp | app/games/flower-simulator.tsx:72-86 | As written the level-up modal never opens, whatever the state. |
| FlowerGame.PressWater | app/games/flower-simulator.tsx:72-86 | The corrected handler: the same watering, with the level read back from the watered state. |
| FlowerGame.WaterShowsLevelUp | app/games/flower-simulator.tsx:72-86 | With distinct ids, the corrected handler opens the modal for the selected flower exactly when the 10 xp cross into a higher tier. |
| FlowerGame.WaterLevelUpExample | app/games/flower-simulator.tsx:72-86 | A 45-xp flower reaches tier 2 at 55 xp. As written no modal opens; as corrected it opens for that flower. |
| Health.Reading | utils/errorLogger.ts:74-97 | An activity bucket reads the resting pulse only when the entry's activity level matches the bucket. |
| Health.Contributions | utils/errorLogger.ts:73-98 | The readings that count for a metric: at most one per entry, and never 0 (the falsy check). |
| Health.ContributionsStep | utils/errorLogger.ts:73-98 | One more entry extends a metric's contributions by its truthy reading only. |
| Health.Tally | utils/errorLogger.ts:74-97 | One step of the pass keeps total and count equal to the sum and number of contributions so far. |
| Health.CalculateAverageValues | utils/errorLogger.ts:47-108 | Each of the six averages is the rounded mean of its contributions, or 0 when there are none. An empty list gives all zeros. |
| Health.IgnoredReadingChangesNothing | utils/errorLogger.ts:74-97 | An entry with an absent or zero reading leaves that metric's average as it was. |
| Health.BucketsWithinPulse | utils/errorLogger.ts:78-88 | The three activity buckets together hold no more readings than the overall pulse. |
| Health.ContributionsExample | utils/errorLogger.ts:73-98 | Pulses 70, 75 and none contribute exactly 70 and 75. |
| Health.AverageExample | utils/errorLogger.ts:100-107 | Their average is round(72.5) = 73. |
| Health.Average | utils/errorLogger.ts:100-107 | A metric's reference average: 0 when nothing contributes, else the rounded mean of the contributions (a definition that CalculateAverageValues is proved to meet). |
| Common.RoundDiv | utils/errorLogger.ts:101-106 | `Math.round(sum / count)`: the integer nearest the mean, halves rounded up, as the bounds 2·sum − count < 2·count·r ≤ 2·sum + count. |
| Health.CheckHealthWarnings | utils/errorLogger.ts:110-130 | Each of the four warnings is raised iff its reading is truthy and beyond 1.3×/0.7× the pulse baseline or 1.2×/0.8× the systolic baseline. Warnings carry the reading and the baseline. |
| Health.Message | utils/errorLogger.ts:113-127 | The four warning texts with value and average and their units (a definition). |
| Health.WarningsInCheckOrder | utils/errorLogger.ts:110-130 | The warnings come in the order the source checks them: pulse high, pulse low, systolic high, systolic low. |
| Health.AtMostTwoWarnings | utils/errorLogger.ts:110-130 | With non-negative baselines a reading is never both high and low, so there are at most two warnings. |
| Health.DiastolicIgnored | utils/errorLogger.ts:110-130 | The diastolic reading never affects the warnings. |
| Health.WarningExamples | utils/errorLogger.ts:113-119 | Against a baseline of 70, a pulse of 92 is high, 48 is low, and 70 and 0 raise nothing. |
| Overview.Truthies | components/BodyScrollView.tsx:27-34 | The truthy readings in entry order. |
| Overview.PulsesAgree | components/BodyScrollView.tsx:27-34 | The home screen's filter-then-map yields the same pulses as the logger's pass. |
| Overview.AveragePulseAgrees | components/BodyScrollView.tsx:27-34 | The home screen's average pulse equals the logger's. |
| Overview.AveragePulse | components/BodyScrollView.tsx:27-34 | `calculateAveragePulse`: 0 for no entries or no truthy pulse, else the rounded mean; its contract is the agreement with the logger. |
| Overview.MedicationCount | components/BodyScrollView.tsx:36-38 | The number of entries naming a medication, at most the number of entries. |
| Overview.MedicationCountAppend | components/BodyScrollView.tsx:36-38 | The count grows by one exactly when the added entry names a medication. |
| Overview.MeanWithin | components/BodyScrollView.tsx:40-44 | A rounded mean of values in [lo, hi] stays in [lo, hi]. |
| Overview.AverageMoodIsMood | components/BodyScrollView.tsx:40-44 | With moods in 1..10, the average mood is in 1..10, or 0 when no entry has a mood. |
| Overview.AverageMood | components/BodyScrollView.tsx:40-44 | `getAverageMood`: the rounded mean of the truthy moods, or 0; its range is stated by the lemma above. |
| Overview.MoodBand | components/BodyScrollView.tsx:46-52 | The five faces: band 0 iff mood ≤ 2, 1 iff 2 < mood ≤ 4, 2 iff 4 < mood ≤ 6, 3 iff 6 < mood ≤ 8, and 4 iff mood > 8. |
| Overview.MoodBandMonotone | components/BodyScrollView.tsx:46-52 | A better mood never shows a lower band. |
| Overview.DailyOverview | components/BodyScrollView.tsx:24-56 | Today's average pulse is the logger's average over today's entries, the medication count is the count over today's entries (at most their number), and the mood is their average mood. |
| Overview.DrinkTotal | components/BodyScrollView.tsx:140 | The millilitres drunk that day: the sum of the drinks' amounts. |
| Overview.DrinkTotalConcat | components/BodyScrollView.tsx:140 | The day's total is additive over the drinks. |
| Overview.DrinkProgress | components/BodyScrollView.tsx:141-142 | Progress is capped at 100, reaches 100 iff the 2500 ml goal is met, and below the goal is total/25. |
| Overview.AddDrink | components/BodyScrollView.tsx:144-152 | One drink of the amount is appended for today. |
| Overview.AddDrinkRaisesToday | components/BodyScrollView.tsx:137-152 | A quick-add raises today's total by its amount and leaves every other day's total alone. |
| Wearable.Upsert | app/samsung-health.tsx:34-42 | The first record of the day is replaced in place, or the record is appended when the day has none. |
| Wearable.UpsertKeepsOtherDays | app/samsung-health.tsx:34-42 | The records of other days are exactly as before. |
| Wearable.UpsertKeepsOnePerDay | app/samsung-health.tsx:34-42 | At most one record per day is kept, and the new record is present. |
| Wearable.SimulateData | app/samsung-health.tsx:17-47 | The reading is filed under the selected day, growing the list by at most one. |
| Wearable.SimulateThenLookup | app/samsung-health.tsx:15 | After a simulation, the selected day's lookup finds the new reading. |
| Wearable.ClearData | app/samsung-health.tsx:49-65 | The confirmed clear empties the list, so no day finds a record. |
| Wearable.SleepQuality | utils/samsungHealthUtils.ts:31-46 | No data iff the duration is falsy. Otherwise the first band the night clears: excellent iff deep > 20% and REM > 15%; good iff not excellent and deep > 15%, REM > 10%; fair iff neither and deep > 10%, REM > 5%; poor iff none of the three. A falsy phase counts as 0%. |
| Wearable.SleepGradeLadder | utils/samsungHealthUtils.ts:37-45 | A recorded night reaches grade k (1 fair, 2 good, 3 excellent) exactly when its deep share exceeds 5 + 5k percent and its REM share exceeds 5k percent. |
| Wearable.PercentCrossMultiplied | utils/samsungHealthUtils.ts:34-35 | With a positive duration the percentage tests are the cross-multiplied comparisons. |
| Wearable.MoreDeepSleepNeverWorse | utils/samsungHealthUtils.ts:31-46 | More deep sleep in the same night never lowers the grade. |
| Wearable.SleepExamples | utils/samsungHealthUtils.ts:31-46 | In an 8 h night with 1.5 h REM, 2 h of deep sleep is excellent and no deep sleep is poor. A 0 h night is no data. |
| Wearable.CalculateHealthMetrics | utils/samsungHealthUtils.ts:20-29 | The mean heart rate is defined iff all three rates are present. Steps and sleep default to 0. The quality is the sleep grade. |
| Achievements.TiersOf | app/achievements.tsx:24-29 | Every kind has 5 or 6 tiers in ascending order. |
| Achievements.TiersFor | app/achievements.tsx:32 | An unknown key has no tiers. |
| Achievements.Progress | app/achievements.tsx:31-34 | The number of tiers reached, which is 0 for unknown keys. |
| Achievements.ProgressOf | app/achievements.tsx:31-34 | The number of tiers of a known kind the value reaches, at most six. |
| Achievements.FirstAbove | app/achievements.tsx:31-34 | The first unreached tier: everything before it is reached and it is not. |
| Achievements.CountIsFirstAbove | app/achievements.tsx:31-34 | On sorted tiers, counting the reached tiers finds the first unreached one. |
| Achievements.ProgressIsFirstAbove | app/achievements.tsx:31-34 | A kind's progress is the position of its first unreached tier. |
| Achievements.ProgressByKey | app/achievements.tsx:32 | The four keys name their kinds, and an unknown key such as "steps" has none. |
| Achievements.ProgressMonotone | app/achievements.tsx:31-34 | A larger value never shows fewer tiers. |
| Achievements.DaysExamples | app/achievements.tsx:25 | 4 days reach no tier and 5 days reach one. |
| Achievements.UnlockedIffFirstTier | app/achievements.tsx:124-180 | A badge is unlocked exactly when the value reaches the first tier. |
| Achievements.Unlocked | app/achievements.tsx:124-128 | A badge lights up when its kind has any progress (a definition; the previous row characterises it). |
| Achievements.DaysBadge | app/achievements.tsx:128 | The days badge unlocks at 5. |
| Achievements.TodosBadge | app/achievements.tsx:142 | The todos badge unlocks at 10. |
| Achievements.RecipesBadge | app/achievements.tsx:158 | The recipes badge unlocks at 2. |
| Achievements.ItemsBadge | app/achievements.tsx:172 | The shopping badge unlocks at 30. |
| Achievements.BadgeThresholds | app/achievements.tsx:124-180 | The four badges of a stats record unlock at 5, 10, 2 and 30. |
| Achievements.BadgesOf | app/achievements.tsx:124-180 | The four badge cards of a stats record (a definition; the previous row gives their thresholds). |
| Sorting.SortBy | app/other/shopping.tsx:132-137 | The sorted view is a permutation of the input. |
| Sorting.SortSorted | app/other/notes.tsx:113-115 | Under a total preorder the view is ordered. |
| Sorting.SortPartitioned | app/other/todos.tsx:143-149 | A comparator that puts one group first makes that group lead the view, even when it is not transitive. |
| Sorting.SortOfSorted | app/other/notes.tsx:113-115 | Sorting an already ordered collection changes nothing. |
| Sorting.InsertFilter | app/other/notes.tsx:113-115 | Inserting into an ordered view is, for the elements tied with any given one, the same as appending. |
| Sorting.SortStable | app/other/notes.tsx:113-115 | Under a total preorder the sort is stable: the elements tied with any given one keep their original order. |
| Shopping.SelectedList | app/other/shopping.tsx:28 | A list with the selected id, or none exactly when none carries it. |
| Shopping.CreateList | app/other/shopping.tsx:30-46 | A blank name raises the alert. Otherwise an empty list with the untrimmed name is appended. |
| Common.Blank | app/other/shopping.tsx:31 | `!s.trim()`: every character is white space in the sense of `Common.IsSpace` (a definition; the create and add operations use it for their alerts). |
| Shopping.CreateThenDeleteList | app/other/shopping.tsx:30-66 | Creating under a fresh id and deleting that id restores the store. |
| Shopping.DeleteList | app/other/shopping.tsx:48-66 | The list goes; the selection is cleared iff it was that list. |
| Shopping.DeleteOtherKeepsSelection | app/other/shopping.tsx:48-66 | Deleting another list leaves the shown list as it was. |
| Shopping.NewItem | app/other/shopping.tsx:74-81 | The new item is unchecked, filed under the list, keeps the name and category, and leaves out an empty quantity. |
| Shopping.AddItem | app/other/shopping.tsx:68-94 | A blank name or no selected list raises the alert. Otherwise one item is appended to the selected list, and present stats become the full `addPoints` step for 5 points. |
| Shopping.AddItemLevel | app/other/shopping.tsx:68-94 | For stats whose level matches their total, adding an item keeps level and total in step and raises the level by at most one. |
| Shopping.FlipChecked | app/other/shopping.tsx:99-101 | Exactly the items with that id flip `checked`. |
| Shopping.FlipTwice | app/other/shopping.tsx:99-101 | Flipping twice restores the items. |
| Shopping.ToggleItem | app/other/shopping.tsx:96-107 | Without a selected list nothing happens. Otherwise only that list's items flip. |
| Shopping.ToggleTwice | app/other/shopping.tsx:96-107 | With distinct list ids, ticking an item twice restores the store. |
| Shopping.DeleteItem | app/other/shopping.tsx:109-130 | The selected list keeps exactly its items with another id, each with as many copies as before. |
| Shopping.AddThenDeleteItem | app/other/shopping.tsx:68-130 | Adding under a fresh id and deleting it restores every list; the 5 points stay. |
| Shopping.CheckedCount | app/other/shopping.tsx:169 | The number of checked items, at most the number of items. |
| Shopping.CheckedCountParts | app/other/shopping.tsx:169-184 | Checked and unchecked items account for every item. |
| Shopping.CheckedCountAppend | app/other/shopping.tsx:169 | Appending unchecked items leaves the checked count alone. |
| Shopping.ItemOrderIsPreorder | app/other/shopping.tsx:132-137 | With a total preorder on categories, the item comparator is a total preorder. |
| Shopping.ItemBefore | app/other/shopping.tsx:133-136 | The comparator: unchecked before checked, then by category (a definition; its order is the previous row). |
| Shopping.SortedItems | app/other/shopping.tsx:132-137 | The sorted view (a definition; its contents and order are the next row). |
| Shopping.SortedItemsView | app/other/shopping.tsx:132-137 | The view holds the same items, unchecked ones on top, ordered when the category order is. |
| Todos.SelectedList | app/other/todos.tsx:26 | A list with the selected id, or none exactly when none carries it. |
| Todos.CreateList | app/other/todos.tsx:28-44 | A blank name raises the alert. Otherwise an empty list is appended. |
| Todos.CreateKeepsFiled | app/other/todos.tsx:28-44 | A new list keeps every task filed under its own list. |
| Todos.DeleteList | app/other/todos.tsx:46-64 | The list goes; the selection is cleared iff it was that list. |
| Todos.CreateThenDeleteList | app/other/todos.tsx:28-64 | Creating under a fresh id and deleting that id restores the store. |
| Todos.AddTask | app/other/todos.tsx:66-91 | A blank title or no selected list raises the alert. Otherwise one open task, filed under the list, is appended, and no points are given. |
| Todos.EditKeepsFiled | app/other/todos.tsx:66-127 | Updating a list through the selection keeps every task filed under its own list. |
| Todos.AddTaskKeepsFiled | app/other/todos.tsx:66-91 | Adding a task keeps every task filed under its own list. |
| Todos.FlipCompleted | app/other/todos.tsx:96-98 | Exactly the tasks with that id flip `completed`. |
| Todos.ToggleTask | app/other/todos.tsx:93-104 | Without a selected list nothing happens. Otherwise only that list's tasks flip. |
| Todos.ToggleTwice | app/other/todos.tsx:93-104 | With distinct list ids, completing a task twice restores the store. |
| Todos.DeleteTask | app/other/todos.tsx:106-127 | The selected list keeps exactly its tasks with another id, each with as many copies as before. |
| Todos.ToggleDeleteKeepFiled | app/other/todos.tsx:93-127 | Toggling and deleting keep every task filed under its own list. |
| Todos.OpenFirst | app/other/todos.tsx:143-149 | The comparator puts every open task before every completed one. |
| Todos.TaskBefore | app/other/todos.tsx:144-148 | The comparator: open before completed, then by due date when both have one, otherwise a tie (a definition). |
| Todos.SortedTasks | app/other/todos.tsx:143-149 | The sorted view (a definition; its contents and order are stated by Todos.SortedTasksView). |
| Todos.NotTransitive | app/other/todos.tsx:143-149 | An undated task ties with everything, so the comparator is not transitive. |
| Todos.SortedTasksView | app/other/todos.tsx:143-149 | The view holds the same tasks, with every open task above every completed one. |
| Recipes.AddIngredient | app/other/recipes.tsx:44-62 | A missing name or quantity raises the alert. Otherwise the ingredient is appended, with an empty unit stored as "unit". |
| Recipes.RemoveIngredient | app/other/recipes.tsx:64-66 | Exactly the ingredients with that id go; every other one keeps all its copies. |
| Recipes.AddThenRemoveIngredient | app/other/recipes.tsx:44-66 | Removing an ingredient just added under a fresh id restores the list. |
| Recipes.CreateRecipe | app/other/recipes.tsx:68-90 | A blank title, a blank instruction text or no ingredients raises the alert. Otherwise the recipe is stored, and present stats become the full `addPoints` step for 50 points. |
| Recipes.CreateRecipeLevel | app/other/recipes.tsx:68-90 | For stats whose level matches their total, creating a recipe keeps level and total in step and raises the level by at most one. |
| Recipes.CreatedRecipesHaveIngredients | app/other/recipes.tsx:68-90 | Every recipe created through the form has at least one ingredient. |
| Recipes.IngredientItem | app/other/recipes.tsx:121-128 | The item keeps the name, is unchecked, has category "Other" and is filed under the chosen list. |
| Recipes.ItemQuantityReadsBack | app/other/recipes.tsx:124 | A non-negative quantity is written as digits that read back as its ceiling. |
| Common.Ceil | app/other/recipes.tsx:124 | `Math.ceil`: the least integer not below the quantity. |
| Recipes.NewItems | app/other/recipes.tsx:121-128 | One item per ingredient, in order. |
| Recipes.SelectedRecipe | app/other/recipes.tsx:29 | A recipe with the selected id, or none exactly when none carries it. |
| Recipes.DeleteRecipe | app/other/recipes.tsx:92-110 | The recipe goes; the selection is cleared iff it was that recipe. |
| Recipes.DeleteRecipeView | app/other/recipes.tsx:92-110 | After a delete no recipe is shown if the shown one went, and the same one is shown otherwise. |
| Recipes.AddToShopping | app/other/recipes.tsx:112-137 | No recipe or no chosen list raises the alert. A vanished list is a silent no-op. Otherwise the list gains the ingredient items and the choice is cleared. |
| Recipes.AddToShoppingGrowsList | app/other/recipes.tsx:112-137 | The list grows by one item per ingredient, keeps its old items in front, and its checked count is unchanged. |
| Notes.CreateNote | app/other/notes.tsx:26-44 | A blank title or content raises the alert. Otherwise the note is appended. |
| Notes.UpdateNote | app/other/notes.tsx:46-63 | The edited note takes the form's fields and keeps its id and creation time. Without an edited note nothing happens. |
| Notes.UpdateThenFind | app/other/notes.tsx:46-63 | Looking up an edited note's id finds the edited note. |
| Notes.EditUnchangedRestores | app/other/notes.tsx:82-89 | Filling the form from a note and saving it unchanged restores the store. |
| Notes.UpdateIdempotent | app/other/notes.tsx:46-63 | Saving the same edit twice equals saving it once. |
| Notes.CreateThenDelete | app/other/notes.tsx:26-80 | Creating under a fresh id and deleting restores the store. |
| Notes.NewerFirstIsPreorder | app/other/notes.tsx:113-115 | Newest-first is a total preorder. |
| Notes.NewerFirst | app/other/notes.tsx:114 | The comparator: the later creation time first (a definition). |
| Notes.SortedNotes | app/other/notes.tsx:113-115 | The sorted view (a definition; stated by Notes.SortedNotesView). |
| Notes.SortedNotesView | app/other/notes.tsx:113-115 | The view holds exactly the stored notes, newest first. |
| Reminders.Push | app/formsheet.tsx:120-121 | The sheet's copy and the store get the same updated list. |
| Reminders.AddReminder | app/formsheet.tsx:143-154 | One enabled reminder at 09:00 on all seven weekdays is appended, with the copy and the store in sync. |
| Reminders.ToggleReminder | app/formsheet.tsx:135-141 | Exactly the reminders with that id flip `enabled`. |
| Reminders.ToggleTwice | app/formsheet.tsx:135-141 | Toggling twice restores the sheet and the store's reminders. |
| Reminders.DeleteReminder | app/formsheet.tsx:156-160 | Exactly the reminders with another id stay in the sheet and the store, each with as many copies as before. |
| Reminders.AddThenDelete | app/formsheet.tsx:143-160 | Deleting a reminder just added under a fresh id restores the sheet. |
| Reminders.FormatTime | app/formsheet.tsx:113-115 | The time is five characters, digits around a colon. |
| Reminders.Split | app/formsheet.tsx:127 | Splitting a string at ':' yields at least one piece. |
| Reminders.NumberOf | app/formsheet.tsx:127 | `Number` on the pieces a formatted time holds: digits give their value, the empty piece 0 (a definition). |
| Reminders.ParseTime | app/formsheet.tsx:127 | Hour and minute read back from the first two pieces; a missing piece is undefined (a definition; the round trip is the next row). |
| Reminders.TimeRoundTrip | app/formsheet.tsx:113-127 | Reading a written time back gives the picked hour and minute. |
| Reminders.DefaultTimeIsNine | app/formsheet.tsx:147 | The default time is nine o'clock. |
| Reminders.OpenTimeEditor | app/formsheet.tsx:126-133 | Opening the editor remembers the reminder and presets the picker from its time. |
| Reminders.ChangeTime | app/formsheet.tsx:108-124 | With a picked time and an edited reminder, that reminder gets the time and editing ends. Otherwise nothing changes. |
| Reminders.EditedTimeReadsBack | app/formsheet.tsx:108-133 | Opening the editor and picking a time: the reminder's time reads back as the picked one. |
| Reminders.SectionsPartition | app/formsheet.tsx:162-163 | Each reminder is in exactly one section. |
| Settings.ChangeTheme | app/settings.tsx:29-34 | Only the theme changes. |
| Settings.ChangeFontSize | app/settings.tsx:36-41 | Only the font size changes. |
| Settings.ThemeAndFontCommute | app/settings.tsx:29-41 | The two choices commute. |
| Settings.Open | app/settings.tsx:191 | Opening shows the dialog and changes nothing else. |
| Settings.Cancel | app/settings.tsx:236-242 | The close button hides the dialog and empties both inputs in the first phase. The back gesture (227-231) and the cancel button (278-283) do the same. |
| Settings.Type | app/settings.tsx:267-268 | The field edits the confirmation in the second phase and the code otherwise. |
| Settings.Submit | app/settings.tsx:43-72 | A blank code raises the alert. A first submit moves to confirmation. A mismatch clears both inputs and returns to the first phase. A match stores the code, enables security and closes the dialog. |
| Settings.ConsistentKept | app/settings.tsx:43-72 | Every step keeps "confirming implies a nonblank code". |
| Settings.SavedCodeNotBlank | app/settings.tsx:43-72 | The code the dialog saves is never blank, and only the code and the switch change. |
| Settings.SetCodeFlow | app/settings.tsx:43-72 | Code, Next, the same code again, Save: the code is stored and the dialog is closed. |
| Settings.MismatchFlow | app/settings.tsx:56-63 | A different confirmation stores nothing and returns to the first phase with empty inputs. |
| Onboarding.ProfileOf | app/onboarding.tsx:28-37 | The saved profile has the typed fields, baselines 70/120/80 and no language. |
| Onboarding.Next | app/onboarding.tsx:20-42 | Steps 0 and 1 advance only with a nonblank name or age. Step 2 always advances. Step 3 saves iff height and weight are nonblank. |
| Onboarding.Back | app/onboarding.tsx:44-48 | One step back, never below 0. |
| Onboarding.Apply | app/onboarding.tsx:20-48 | Only a Next press can save a profile. |
| Onboarding.ApplyKeepsStep | app/onboarding.tsx:20-48 | One event moves the step by at most one and keeps it in 0..3. |
| Onboarding.RunKeepsStep | app/onboarding.tsx:20-48 | Any run keeps the step in 0..3, and every saved profile carries the baselines. |
| Onboarding.SaveNeedsSteps | app/onboarding.tsx:20-42 | From the start, saving a profile needs at least three Next presses. |
| Onboarding.Finish | app/onboarding.tsx:27-39 | The last step's Next stores the profile; otherwise the store is unchanged. |
| AddEntry.ReadingOf | app/add-entry.tsx:39-47 | An empty input is absent; otherwise it is the parsed number. |
| AddEntry.EntryOf | app/add-entry.tsx:33-49 | The entry carries the id, date, time, medication and readings. Mood and activity are never set. |
| AddEntry.Save | app/add-entry.tsx:27-61 | It fails iff both resting pulse and systolic are empty. Otherwise the entry is stored, and warnings are computed only when a profile exists. |
| AddEntry.SavedEntryHasReading | app/add-entry.tsx:27-61 | The saved entry has a reading, and the day's entries gain exactly it. |
| AddEntry.WarningsNeedTypedReading | app/add-entry.tsx:51-56 | No pulse warning without a typed pulse, and no systolic warning without a typed systolic. |
| AddEntry.SaveThenDelete | app/add-entry.tsx:27-61 | Deleting the entry just saved under a fresh id restores the store. |
| Forum.Opened | app/modal.tsx:115-117 | The board starts as a copy of the stored messages with nothing typed. |
| Forum.AuthorOf | app/modal.tsx:127 | The profile name, or "Anonymous" when the profile or its name is missing. |
| Forum.Post | app/modal.tsx:119-137 | A blank text raises the alert. Otherwise the message is appended to the store, prepended to the board, and the input is cleared. |
| Forum.Like | app/modal.tsx:139-144 | Exactly the messages with that id gain one like, on the board only. |
| Forum.PostKeepsSameMessages | app/modal.tsx:119-137 | Posting keeps the board and the store holding the same messages. |
| Forum.PostOrder | app/modal.tsx:119-137 | A new post is first on the board and last in the store, with 0 likes. |
| Forum.LikeNotStored | app/modal.tsx:139-144 | Liking a shown message makes the board disagree with the store. |
| Forum.LikeCountsOnce | app/modal.tsx:139-144 | The likes on the board grow by the number of messages carrying the id. |
| Calendar.MonthLength | app/calendar.tsx:14-16 | The Gregorian month lengths, with February 29 in leap years. |
| Calendar.Make | app/calendar.tsx:22-32 | `new Date(y, m, d)` always gives a valid date. |
| Calendar.MakeValid | app/calendar.tsx:30-32 | A valid date normalises to itself. |
| Calendar.Weekday | app/calendar.tsx:18-20 | The weekday is in 0..6, with 0 for Sunday. |
| Calendar.WeekdayExamples | app/calendar.tsx:18-20 | 1970-01-01 was a Thursday, 2024-03-01 a Friday and 2000-02-29 a Tuesday. |
| Calendar.YearLength | app/calendar.tsx:14-20 | A year has 365 days, or 366 in a leap year. |
| Calendar.DaysInMonth | app/calendar.tsx:14-16 | Reading day 0 of the next month gives the month's Gregorian length. |
| Calendar.FirstDayOfMonth | app/calendar.tsx:18-20 | The weekday of the first of the month. |
| Calendar.Grid | app/calendar.tsx:34-44 | `firstDay` blanks, then the days 1..n in order. |
| Calendar.GridColumns | app/calendar.tsx:34-44 | Each day sits in its weekday's column. |
| Calendar.PrevMonth | app/calendar.tsx:22-24 | A valid first of the month, one month earlier (the year wraps). |
| Calendar.NextMonth | app/calendar.tsx:26-28 | A valid first of the month, one month later (the year wraps). |
| Calendar.PrevNextRoundTrip | app/calendar.tsx:22-28 | Next after previous, and previous after next, both return to the first of the selected month. |
| Calendar.NextMonthContinues | app/calendar.tsx:26-44 | The next month's grid starts in the column after this month's last day. |
| Calendar.SelectDay | app/calendar.tsx:30-32 | Selecting a grid day keeps year and month and sets the day. |
| Calendar.DateString | app/calendar.tsx:79-84 | "YYYY-MM-DD" with a zero-padded, one-based month. |
| Calendar.DateStringInjective | app/calendar.tsx:79-84 | Different dates have different keys. |
| Calendar.PrevDay | app/calendar.tsx:80-82 | The day before, one day number lower. |
| Calendar.CellKeyAsWritten | app/calendar.tsx:79-82 | The key as written: the UTC date of local midnight, which east of UTC is the previous day (a definition; the next rows state its effect). |
| Calendar.HighlightedAsWritten | app/calendar.tsx:79-84 | As written, a cell is highlighted when its shifted key has entries (a definition). |
| Calendar.CellKeyShiftedEastOfUtc | app/calendar.tsx:79-84 | As written, at UTC+1 the cell of 15 March 2024 gets key "2024-03-14". An entry of the 15th lights up the 16th and not the 15th. |
| Calendar.CellKey | app/calendar.tsx:79-82 | The intended key: the date string of the local day the cell shows (a definition). |
| Calendar.CellLook | app/calendar.tsx:84-95 | A cell is selected iff it is the selected day. It is marked iff it is another day with entries under its own date. |
| Calendar.CellShowsOwnDay | app/calendar.tsx:84-95 | Entries filed under another day never mark a cell. |
| Calendar.CellKeyExample | app/calendar.tsx:79-95 | With the intended key, the 15th is marked and the 16th is not. |
| Calendar.SelectedEntries | app/calendar.tsx:46-47 | Exactly the entries filed under the selected date. |

## Left out

- Reminders.NumberOf: `Number` is modelled only on runs of digits and the empty piece; a sign, decimal point, exponent or surrounding white space gives None here, because a time written by `FormatTime` never holds one.
- Storage I/O, JSON parsing and encoding, and `console` logging are left out. A stored key is modelled as absent, present with a value, or malformed.
- Concurrency is left out. Every handler's store update is applied at once, so racing updates of stale closures are not modelled. The one stale read that decides an outcome, in watering, is modelled as a finding.
- The clock, fresh ids, `Math.random`, `parseInt`/`parseFloat` (and their NaN results), `localeCompare` and the time zone are parameters. They become an abstract order or an integer offset.
- IEEE floating point: averages, rounding, the ×1.3/×0.7/×1.2/×0.8 thresholds and the percentages are computed exactly on integers or reals. A float result that differs exactly at a boundary is not modelled.
- The whitespace test of `trim()` (`Common.IsSpace`) covers space, tab, line feed, carriage return, vertical tab, form feed, no-break space (U+00A0), the byte-order mark (U+FEFF) and the line and paragraph separators (U+2028, U+2029); the other Unicode space separators (U+1680, U+2000 to U+200A, U+202F, U+205F, U+3000) are not modelled.
- `refreshWidget`, the widget bridge and `generateSimulatedHealthData` are left out. The simulated reading is a parameter.
- `formatHealthDataForDisplay` is left out; it is display text only.
- The appointments screen is left out because it is not part of this model. Only the store's appointment operations are modelled.
- Navigation, styling, translations, image picking, and the date and time pickers of the notes and todos screens are left out. They are user interface only.
- Overview.MoodBand: models the mood emoji as its band, because the emoji literals in the source are mis-encoded.
- Sorting.SortBy: models the sort as insertion. The source's engine sort agrees with it for consistent comparators. For the todo comparator, which is not transitive, only the open-before-completed grouping is stated.
- Shopping.SortedItemsView: does not model the comparator throwing on an item without a category.
- FlowerGame.ClaimReward: does not model the shop's `price` on items given as level-up rewards, which is never read.
- FlowerGame.ClaimButtonShown: treats `!challenge.completedAt` as "no completion time" only. JavaScript also counts an empty string as missing, but every writer stores either `toISOString()`, which is never empty, or `undefined`.
- Calendar.DateString: covers years 0..9999 only. JavaScript maps years 0-99 to 1900-1999 and writes other years in extended form.
- Calendar.SelectedEntries: uses the intended key. The source's `toISOString` of the selected date has the same time-zone shift as the cell key once a day is selected.
- Lookups by object key do not model prototype keys such as "constructor".

## Findings

| source | as written | input that shows it | evidently intended | confidence | as-written member | corrected member |
|---|---|---|---|---|---|---|
| app/games/flower-simulator.tsx:168-180 | The claim button (lines 384-393) shows only for a completed challenge without a completion time, but watering (contexts/WidgetContext.tsx:744-745) stamps the time whenever it completes a challenge, and the claim handler stamps it too and returns early for completed challenges. So the claim button never appears, and no challenge reward is ever paid. | The starter game: watering its one flower completes `daily-1` (target 1, reward 10) with a completion time, so no button shows and a claim pays 0 coins. | Watering completes the challenge and leaves the time unset; the button then shows, the claim pays the reward once and stamps the time. | not executed | FlowerGame.ClaimButtonNeverShown | FlowerGame.FirstDailyPaidOnce |
| app/calendar.tsx:79-84 | The cell key is the UTC date (`toISOString`) of local midnight, which east of UTC is the previous day. | At UTC+1, March 2024: the cell of the 15th is keyed "2024-03-14", so an entry of 2024-03-15 marks the 16th. | Each cell is keyed by the local date it shows. | not executed | Calendar.CellKeyShiftedEastOfUtc | Calendar.CellShowsOwnDay |
| app/games/flower-simulator.tsx:72-86 | After watering, the handler reads the flower back from the `gameState` captured at render time, so the new level always equals the old one. | One flower at 45 xp: watering gives 55 xp (tier 2), but the level-up modal stays closed. | The modal opens when watering lifts the flower into a higher tier. | not executed | FlowerGame.WaterNeverShowsLevelUp | FlowerGame.WaterShowsLevelUp |
