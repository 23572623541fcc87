/**
  The records of the health-tracking app's store, field for field as the
  context module declares them (contexts/WidgetContext.tsx:5-213).

  Optional TypeScript fields are `Option`s. Ids, dates ("YYYY-MM-DD"), times
  ("HH:MM") and ISO timestamps stay opaque strings. Vital signs, points, xp
  and coins are integers; sleep hours and ingredient quantities are exact
  rationals. A TypeScript field called `type` is called `kind` here.
 */
module Types {
  import opened Common

  datatype Gender = Male | Female | OtherGender
  datatype Language = En | De | Es | Fr

  datatype UserProfile = UserProfile(
    name: string, age: int, gender: Gender, height: int, weight: int,
    avgPulse: int, avgSystolic: int, avgDiastolic: int, language: Option<Language>)

  datatype Activity = Resting | Light | Sports

  datatype HealthEntry = HealthEntry(
    id: string, date: string, time: string,
    medication: Option<string>, medicationAmount: Option<string>,
    pulseResting: Option<int>, pulseSitting: Option<int>, pulseStanding: Option<int>,
    systolicResting: Option<int>, diastolicResting: Option<int>,
    systolicSitting: Option<int>, diastolicSitting: Option<int>,
    systolicStanding: Option<int>, diastolicStanding: Option<int>,
    notes: Option<string>, activityLevel: Option<Activity>, mood: Option<int>)

  datatype DrinkEntry = DrinkEntry(id: string, date: string, time: string, amount: int)

  datatype ReminderKind = PulseReminder | MedicationReminder

  datatype Reminder = Reminder(
    id: string, kind: ReminderKind, time: string, enabled: bool, days: Option<seq<string>>)

  datatype ForumMessage = ForumMessage(
    id: string, author: string, content: string, timestamp: string, likes: int)

  datatype SamsungHealthData = SamsungHealthData(
    id: string, date: string,
    heartRateResting: Option<int>, heartRateLight: Option<int>, heartRateSports: Option<int>,
    stepCount: Option<int>,
    sleepDuration: Option<real>, sleepLight: Option<real>, sleepDeep: Option<real>, sleepREM: Option<real>,
    lastSyncTime: Option<string>)

  datatype TodoTask = TodoTask(
    id: string, title: string, completed: bool,
    dueDate: Option<string>, dueTime: Option<string>, listId: string)

  datatype TodoList = TodoList(id: string, name: string, createdAt: string, tasks: seq<TodoTask>)

  datatype ShoppingItem = ShoppingItem(
    id: string, name: string, quantity: Option<string>, category: Option<string>,
    checked: bool, listId: string)

  datatype ShoppingList = ShoppingList(id: string, name: string, createdAt: string, items: seq<ShoppingItem>)

  datatype Note = Note(
    id: string, title: string, content: string, createdAt: string,
    date: Option<string>, time: Option<string>)

  datatype Appointment = Appointment(id: string, date: string, time: string, title: string, notes: string)

  datatype Ingredient = Ingredient(id: string, name: string, quantity: real, unit: string)

  datatype Recipe = Recipe(
    id: string, title: string, imageUri: Option<string>, ingredients: seq<Ingredient>,
    instructions: string, createdAt: string)

  datatype AchievementKind = ConsecutiveDays | TodosCompleted | RecipesCreated | ShoppingItems

  datatype Achievement = Achievement(id: string, kind: AchievementKind, tier: int, unlockedAt: Option<string>)

  datatype UserStats = UserStats(
    totalPoints: int, level: int, levelProgress: real, consecutiveDays: int,
    lastEntryDate: Option<string>, todosCompleted: int, recipesCreated: int,
    shoppingItemsAdded: int, achievements: seq<Achievement>)

  datatype Theme = LightTheme | DarkTheme | AutoTheme
  datatype FontSize = Small | Medium | Large

  datatype AppSettings = AppSettings(
    theme: Theme, fontSize: FontSize, securityCode: Option<string>,
    securityEnabled: bool, profileImageUri: Option<string>)

  datatype GameItem = GameItem(id: string, name: string, quantity: int, xpBonus: int)

  datatype Flower = Flower(
    id: string, name: string, level: int, xp: int, lastWateredDate: string,
    wateredToday: bool, rescuesUsed: int, createdAt: string)

  datatype ChallengeKind = Daily | Weekly | Special

  datatype GameChallenge = GameChallenge(
    id: string, kind: ChallengeKind, title: string, description: string, reward: int,
    completed: bool, completedAt: Option<string>, progress: int, target: int)

  datatype EventKind = XpBoost | FreeItems | SpecialEvent

  datatype GameEvent = GameEvent(
    id: string, title: string, description: string, kind: EventKind,
    xpMultiplier: Option<real>, startDate: string, endDate: string, active: bool)

  datatype GameState = GameState(
    coins: int, flowers: seq<Flower>, inventory: seq<GameItem>, challenges: seq<GameChallenge>,
    events: seq<GameEvent>, totalXp: int, lastDailyRewardDate: Option<string>)
}
