/**
  The app's single state store (contexts/WidgetContext.tsx:269-813) as an
  immutable value: fourteen collections and singletons, every mutation a
  function from the old store to the new one, every query a function of
  the store. Persistence to the key-value storage is not modelled; the
  in-memory value is what every screen reads.
 */
module Store {
  import opened Common
  import opened Types
  import Keyed
  import P = Progression

  datatype Store = Store(
    userProfile: Option<UserProfile>,
    healthEntries: seq<HealthEntry>,
    drinkEntries: seq<DrinkEntry>,
    reminders: seq<Reminder>,
    forumMessages: seq<ForumMessage>,
    samsungHealthData: seq<SamsungHealthData>,
    todoLists: seq<TodoList>,
    shoppingLists: seq<ShoppingList>,
    notes: seq<Note>,
    appointments: seq<Appointment>,
    recipes: seq<Recipe>,
    userStats: Option<UserStats>,
    appSettings: Option<AppSettings>,
    gameState: Option<GameState>)

  /** The store before loading: empty lists and null singletons (lines 270-283). */
  const Initial: Store :=
    Store(None, [], [], [], [], [], [], [], [], [], [], None, None, None)

  // Id and date projections, named so that generic operations and lemmas share them.
  function EntryDate(e: HealthEntry): string { e.date }
  function EntryId(e: HealthEntry): string { e.id }
  function DrinkDate(d: DrinkEntry): string { d.date }
  function WearableDate(d: SamsungHealthData): string { d.date }
  function TodoListId(l: TodoList): string { l.id }
  function ShoppingListId(l: ShoppingList): string { l.id }
  function NoteId(n: Note): string { n.id }
  function AppointmentId(a: Appointment): string { a.id }
  function AppointmentDate(a: Appointment): string { a.date }
  function RecipeId(r: Recipe): string { r.id }

  // ---------------------------------------------------------------------------
  // Loading

  /** What one storage key yields: nothing, a value, or text that JSON.parse rejects. */
  datatype Stored<+T> = Absent | Present(value: T) | Malformed

  /** The values under the fourteen storage keys, in the order `loadData` handles them. */
  datatype Snapshot = Snapshot(
    userProfile: Stored<UserProfile>,
    healthEntries: Stored<seq<HealthEntry>>,
    drinkEntries: Stored<seq<DrinkEntry>>,
    reminders: Stored<seq<Reminder>>,
    forumMessages: Stored<seq<ForumMessage>>,
    samsungHealthData: Stored<seq<SamsungHealthData>>,
    todoLists: Stored<seq<TodoList>>,
    shoppingLists: Stored<seq<ShoppingList>>,
    notes: Stored<seq<Note>>,
    appointments: Stored<seq<Appointment>>,
    recipes: Stored<seq<Recipe>>,
    userStats: Stored<UserStats>,
    appSettings: Stored<AppSettings>,
    gameState: Stored<GameState>)

  const DefaultStats: UserStats := UserStats(0, 1, 0.0, 0, None, 0, 0, 0, [])

  const DefaultSettings: AppSettings := AppSettings(AutoTheme, Medium, None, false, None)

  /** The starter game: one flower and three seed challenges (lines 383-432). */
  function DefaultGame(today: string, now: string): GameState {
    GameState(
      0,
      [Flower("1", "Bl\U{FC}te", 1, 0, today, false, 0, now)],
      [],
      [ GameChallenge("daily-1", Daily, "Gie\U{DF}e alle Blumen heute",
                      "Gie\U{DF}e alle deine Blumen heute", 10, false, None, 0, 1),
        GameChallenge("weekly-1", Weekly, "Pflege jede Blume 7 Tage hintereinander",
                      "Gie\U{DF}e deine Blumen 7 Tage hintereinander", 50, false, None, 0, 7),
        GameChallenge("special-1", Special, "Level 3 bei allen Blumen erreichen",
                      "Bringe alle deine Blumen auf Level 3", 100, false, None, 0, 1) ],
      [],
      0,
      None)
  }

  /** The position of the first key whose text does not parse; 14 when all parse. */
  function FirstMalformed(snap: Snapshot): (k: nat)
    ensures k <= 14
  {
    if snap.userProfile.Malformed? then 0
    else if snap.healthEntries.Malformed? then 1
    else if snap.drinkEntries.Malformed? then 2
    else if snap.reminders.Malformed? then 3
    else if snap.forumMessages.Malformed? then 4
    else if snap.samsungHealthData.Malformed? then 5
    else if snap.todoLists.Malformed? then 6
    else if snap.shoppingLists.Malformed? then 7
    else if snap.notes.Malformed? then 8
    else if snap.appointments.Malformed? then 9
    else if snap.recipes.Malformed? then 10
    else if snap.userStats.Malformed? then 11
    else if snap.appSettings.Malformed? then 12
    else if snap.gameState.Malformed? then 13
    else 14
  }

  /** A list key: the stored list, or the empty list when the key is absent. */
  function ListOr<T>(st: Stored<seq<T>>): seq<T> {
    if st.Present? then st.value else []
  }

  /** A singleton key: the stored record, or the default (seeded when absent). */
  function OrDefault<T>(st: Stored<T>, default: T): T {
    if st.Present? then st.value else default
  }

  /** `loadData`: keys are applied in order inside one try block, so the first text that
      fails to parse ends the load and every later key keeps its initial value. */
  function Load(snap: Snapshot, today: string, now: string): (r: Store)
    ensures FirstMalformed(snap) <= 11 ==> r.userStats.None? && r.appSettings.None? && r.gameState.None?
    ensures FirstMalformed(snap) == 0 ==> r == Initial
  {
    var k := FirstMalformed(snap);
    Store(
      if 0 < k && snap.userProfile.Present? then Some(snap.userProfile.value) else None,
      if 1 < k then ListOr(snap.healthEntries) else [],
      if 2 < k then ListOr(snap.drinkEntries) else [],
      if 3 < k then ListOr(snap.reminders) else [],
      if 4 < k then ListOr(snap.forumMessages) else [],
      if 5 < k then ListOr(snap.samsungHealthData) else [],
      if 6 < k then ListOr(snap.todoLists) else [],
      if 7 < k then ListOr(snap.shoppingLists) else [],
      if 8 < k then ListOr(snap.notes) else [],
      if 9 < k then ListOr(snap.appointments) else [],
      if 10 < k then ListOr(snap.recipes) else [],
      if 11 < k then Some(OrDefault(snap.userStats, DefaultStats)) else None,
      if 12 < k then Some(OrDefault(snap.appSettings, DefaultSettings)) else None,
      if 13 < k then Some(OrDefault(snap.gameState, DefaultGame(today, now))) else None)
  }

  /** With every stored text well formed, absent singletons are seeded with their defaults and
      each list is the stored one, or empty when its key is absent. */
  lemma LoadWellFormed(snap: Snapshot, today: string, now: string)
    requires FirstMalformed(snap) == 14
    ensures var r := Load(snap, today, now);
      && r.userStats.Some? && r.appSettings.Some? && r.gameState.Some?
      && (snap.userStats.Absent? ==> r.userStats == Some(DefaultStats))
      && (snap.appSettings.Absent? ==> r.appSettings == Some(DefaultSettings))
      && (snap.gameState.Absent? ==> r.gameState == Some(DefaultGame(today, now)))
      && (snap.userProfile.Present? <==> r.userProfile.Some?)
      && (snap.userProfile.Present? ==> r.userProfile == Some(snap.userProfile.value))
      && (snap.userStats.Present? ==> r.userStats == Some(snap.userStats.value))
      && (snap.appSettings.Present? ==> r.appSettings == Some(snap.appSettings.value))
      && (snap.gameState.Present? ==> r.gameState == Some(snap.gameState.value))
      && (snap.healthEntries.Present? ==> r.healthEntries == snap.healthEntries.value)
      && (snap.healthEntries.Absent? ==> r.healthEntries == [])
      && r.drinkEntries == ListOr(snap.drinkEntries)
      && r.reminders == ListOr(snap.reminders)
      && r.forumMessages == ListOr(snap.forumMessages)
      && r.samsungHealthData == ListOr(snap.samsungHealthData)
      && r.todoLists == ListOr(snap.todoLists)
      && r.shoppingLists == ListOr(snap.shoppingLists)
      && (snap.notes.Present? ==> r.notes == snap.notes.value)
      && (snap.notes.Absent? ==> r.notes == [])
      && r.appointments == ListOr(snap.appointments)
      && r.recipes == ListOr(snap.recipes)
  {
  }

  /** Whether the text under the key at position `i` of the load order fails to parse. */
  predicate KeyMalformed(snap: Snapshot, i: nat) {
    match i
    case 0 => snap.userProfile.Malformed?
    case 1 => snap.healthEntries.Malformed?
    case 2 => snap.drinkEntries.Malformed?
    case 3 => snap.reminders.Malformed?
    case 4 => snap.forumMessages.Malformed?
    case 5 => snap.samsungHealthData.Malformed?
    case 6 => snap.todoLists.Malformed?
    case 7 => snap.shoppingLists.Malformed?
    case 8 => snap.notes.Malformed?
    case 9 => snap.appointments.Malformed?
    case 10 => snap.recipes.Malformed?
    case 11 => snap.userStats.Malformed?
    case 12 => snap.appSettings.Malformed?
    case 13 => snap.gameState.Malformed?
    case _ => false
  }

  /** Some key at position `j` or earlier fails to parse, so the load stops before reaching past `j`. */
  predicate MalformedUpTo(snap: Snapshot, j: nat) {
    exists i :: 0 <= i <= j && KeyMalformed(snap, i)
  }

  /** `FirstMalformed` is the first position whose text fails to parse. */
  lemma FirstMalformedIsFirst(snap: Snapshot, j: nat)
    requires j < 14
    ensures MalformedUpTo(snap, j) <==> FirstMalformed(snap) <= j
  {
    var k := FirstMalformed(snap);
    if k <= j {
      assert KeyMalformed(snap, k);
    }
    if MalformedUpTo(snap, j) {
      var i :| 0 <= i <= j && KeyMalformed(snap, i);
      assert k <= i;
    }
  }

  /** Every key is loaded exactly when no key before it or at it fails to parse; otherwise it keeps
      its initial value (an empty list, or null for the stats, settings and game). */
  lemma LoadFallThrough(snap: Snapshot, today: string, now: string)
    ensures var r := Load(snap, today, now);
      && r.userProfile == (if snap.userProfile.Present? then Some(snap.userProfile.value) else None)
      && r.healthEntries == (if MalformedUpTo(snap, 1) then [] else ListOr(snap.healthEntries))
      && r.drinkEntries == (if MalformedUpTo(snap, 2) then [] else ListOr(snap.drinkEntries))
      && r.reminders == (if MalformedUpTo(snap, 3) then [] else ListOr(snap.reminders))
      && r.forumMessages == (if MalformedUpTo(snap, 4) then [] else ListOr(snap.forumMessages))
      && r.samsungHealthData == (if MalformedUpTo(snap, 5) then [] else ListOr(snap.samsungHealthData))
      && r.todoLists == (if MalformedUpTo(snap, 6) then [] else ListOr(snap.todoLists))
      && r.shoppingLists == (if MalformedUpTo(snap, 7) then [] else ListOr(snap.shoppingLists))
      && r.notes == (if MalformedUpTo(snap, 8) then [] else ListOr(snap.notes))
      && r.appointments == (if MalformedUpTo(snap, 9) then [] else ListOr(snap.appointments))
      && r.recipes == (if MalformedUpTo(snap, 10) then [] else ListOr(snap.recipes))
      && r.userStats == (if MalformedUpTo(snap, 11) then None else Some(OrDefault(snap.userStats, DefaultStats)))
      && r.appSettings == (if MalformedUpTo(snap, 12) then None else Some(OrDefault(snap.appSettings, DefaultSettings)))
      && r.gameState == (if MalformedUpTo(snap, 13) then None else Some(OrDefault(snap.gameState, DefaultGame(today, now))))
  {
    forall j: nat | j < 14 ensures MalformedUpTo(snap, j) <==> FirstMalformed(snap) <= j {
      FirstMalformedIsFirst(snap, j);
    }
  }

  /** On a first start (nothing stored) the seeded singletons have the documented shape. */
  lemma FirstStartDefaults(snap: Snapshot, today: string, now: string)
    requires snap == Snapshot(Absent, Absent, Absent, Absent, Absent, Absent, Absent,
                              Absent, Absent, Absent, Absent, Absent, Absent, Absent)
    ensures var r := Load(snap, today, now);
      && r.userProfile.None?
      && r.userStats.Some? && r.userStats.value.totalPoints == 0 && r.userStats.value.level == 1
      && r.userStats.value.levelProgress == 0.0 && r.userStats.value.achievements == []
      && r.appSettings.Some? && !r.appSettings.value.securityEnabled
      && r.gameState.Some? && r.gameState.value.coins == 0
      && |r.gameState.value.flowers| == 1
      && r.gameState.value.flowers[0].xp == 0 && r.gameState.value.flowers[0].level == 1
      && |r.gameState.value.challenges| == 3
      && (forall c :: c in r.gameState.value.challenges ==> !c.completed && c.progress == 0)
      && r.gameState.value.challenges[0].target == 1
      && r.gameState.value.challenges[1].target == 7
      && r.gameState.value.challenges[2].target == 1
  {
  }

  /** A malformed user-stats text leaves the stats, settings and game null, so that every
      later `addPoints`, `waterFlower` and `useGameItem` is skipped. */
  lemma MalformedStatsDisablesProgression(snap: Snapshot, today: string, now: string, points: int)
    requires snap.userStats.Malformed?
    ensures var r := Load(snap, today, now);
      && r.userStats.None? && r.gameState.None?
      && AddPoints(r, points) == r
  {
  }

  // ---------------------------------------------------------------------------
  // Profile, health entries, drinks, reminders, forum

  function UpdateUserProfile(s: Store, p: UserProfile): (r: Store)
    ensures r.userProfile == Some(p)
    ensures r == s.(userProfile := r.userProfile)
  {
    s.(userProfile := Some(p))
  }

  function AddHealthEntry(s: Store, e: HealthEntry): (r: Store)
    ensures r.healthEntries == s.healthEntries + [e]
    ensures r == s.(healthEntries := r.healthEntries)
  {
    s.(healthEntries := s.healthEntries + [e])
  }

  function DeleteHealthEntry(s: Store, id: string): (r: Store)
    ensures forall e :: e in r.healthEntries <==> e in s.healthEntries && e.id != id
    ensures forall e :: multiset(r.healthEntries)[e] == if e.id != id then multiset(s.healthEntries)[e] else 0
    ensures r == s.(healthEntries := r.healthEntries)
  {
    s.(healthEntries := Keyed.RemoveById(s.healthEntries, EntryId, id))
  }

  /** `getEntriesByDate(date)`. */
  function EntriesByDate(s: Store, date: string): (r: seq<HealthEntry>)
    ensures forall e :: e in r <==> e in s.healthEntries && e.date == date
    ensures forall e :: multiset(r)[e] == if e.date == date then multiset(s.healthEntries)[e] else 0
  {
    Keyed.SelectByKey(s.healthEntries, EntryDate, date)
  }

  function AddDrinkEntry(s: Store, d: DrinkEntry): (r: Store)
    ensures r.drinkEntries == s.drinkEntries + [d]
    ensures r == s.(drinkEntries := r.drinkEntries)
  {
    s.(drinkEntries := s.drinkEntries + [d])
  }

  /** `getDrinkEntriesByDate(date)`. */
  function DrinkEntriesByDate(s: Store, date: string): (r: seq<DrinkEntry>)
    ensures forall d :: d in r <==> d in s.drinkEntries && d.date == date
    ensures forall d :: multiset(r)[d] == if d.date == date then multiset(s.drinkEntries)[d] else 0
  {
    Keyed.SelectByKey(s.drinkEntries, DrinkDate, date)
  }

  function UpdateReminders(s: Store, rs: seq<Reminder>): (r: Store)
    ensures r.reminders == rs
    ensures r == s.(reminders := r.reminders)
  {
    s.(reminders := rs)
  }

  function AddForumMessage(s: Store, m: ForumMessage): (r: Store)
    ensures r.forumMessages == s.forumMessages + [m]
    ensures r == s.(forumMessages := r.forumMessages)
  {
    s.(forumMessages := s.forumMessages + [m])
  }

  // ---------------------------------------------------------------------------
  // Wearable data

  function UpdateSamsungHealthData(s: Store, data: seq<SamsungHealthData>): (r: Store)
    ensures r.samsungHealthData == data
    ensures r == s.(samsungHealthData := r.samsungHealthData)
  {
    s.(samsungHealthData := data)
  }

  /** `getSamsungHealthDataByDate(date)`: the first record of that date, if any. */
  function SamsungHealthDataByDate(s: Store, date: string): (r: Option<SamsungHealthData>)
    ensures r.Some? ==> r.value in s.samsungHealthData && r.value.date == date
    ensures r.None? <==> forall d :: d in s.samsungHealthData ==> d.date != date
    ensures r.Some? ==> exists i :: 0 <= i < |s.samsungHealthData| && s.samsungHealthData[i] == r.value &&
                                    forall j :: 0 <= j < i ==> s.samsungHealthData[j].date != date
  {
    Keyed.FindIndexByKey(s.samsungHealthData, WearableDate, date);
    match FindIndex(s.samsungHealthData, Keyed.KeyIs(WearableDate, date))
    case None => None
    case Some(k) => Some(s.samsungHealthData[k])
  }

  // ---------------------------------------------------------------------------
  // To-do lists, shopping lists, notes, appointments, recipes

  function AddTodoList(s: Store, l: TodoList): (r: Store)
    ensures r.todoLists == s.todoLists + [l]
    ensures r == s.(todoLists := r.todoLists)
  {
    s.(todoLists := s.todoLists + [l])
  }

  function UpdateTodoList(s: Store, l: TodoList): (r: Store)
    ensures |r.todoLists| == |s.todoLists|
    ensures forall i :: 0 <= i < |s.todoLists| ==>
      r.todoLists[i] == if s.todoLists[i].id == l.id then l else s.todoLists[i]
    ensures r == s.(todoLists := r.todoLists)
  {
    s.(todoLists := Keyed.ReplaceById(s.todoLists, TodoListId, l))
  }

  /** Deleting a list deletes the tasks embedded in it. */
  function DeleteTodoList(s: Store, id: string): (r: Store)
    ensures forall l :: l in r.todoLists <==> l in s.todoLists && l.id != id
    ensures forall l :: multiset(r.todoLists)[l] == if l.id != id then multiset(s.todoLists)[l] else 0
    ensures r == s.(todoLists := r.todoLists)
  {
    s.(todoLists := Keyed.RemoveById(s.todoLists, TodoListId, id))
  }

  /** Tasks are filed under the list that holds them. */
  predicate TasksFiled(lists: seq<TodoList>) {
    forall l, t :: l in lists && t in l.tasks ==> t.listId == l.id
  }

  /** Cascade: once a list is deleted, no remaining task refers to it. */
  lemma DeleteTodoListCascades(s: Store, id: string)
    requires TasksFiled(s.todoLists)
    ensures var r := DeleteTodoList(s, id);
      TasksFiled(r.todoLists) && forall l, t :: l in r.todoLists && t in l.tasks ==> t.listId != id
  {
  }

  function AddShoppingList(s: Store, l: ShoppingList): (r: Store)
    ensures r.shoppingLists == s.shoppingLists + [l]
    ensures r == s.(shoppingLists := r.shoppingLists)
  {
    s.(shoppingLists := s.shoppingLists + [l])
  }

  function UpdateShoppingList(s: Store, l: ShoppingList): (r: Store)
    ensures |r.shoppingLists| == |s.shoppingLists|
    ensures forall i :: 0 <= i < |s.shoppingLists| ==>
      r.shoppingLists[i] == if s.shoppingLists[i].id == l.id then l else s.shoppingLists[i]
    ensures r == s.(shoppingLists := r.shoppingLists)
  {
    s.(shoppingLists := Keyed.ReplaceById(s.shoppingLists, ShoppingListId, l))
  }

  function DeleteShoppingList(s: Store, id: string): (r: Store)
    ensures forall l :: l in r.shoppingLists <==> l in s.shoppingLists && l.id != id
    ensures forall l :: multiset(r.shoppingLists)[l] == if l.id != id then multiset(s.shoppingLists)[l] else 0
    ensures r == s.(shoppingLists := r.shoppingLists)
  {
    s.(shoppingLists := Keyed.RemoveById(s.shoppingLists, ShoppingListId, id))
  }

  function AddNote(s: Store, n: Note): (r: Store)
    ensures r.notes == s.notes + [n]
    ensures r == s.(notes := r.notes)
  {
    s.(notes := s.notes + [n])
  }

  function UpdateNote(s: Store, n: Note): (r: Store)
    ensures |r.notes| == |s.notes|
    ensures forall i :: 0 <= i < |s.notes| ==>
      r.notes[i] == if s.notes[i].id == n.id then n else s.notes[i]
    ensures r == s.(notes := r.notes)
  {
    s.(notes := Keyed.ReplaceById(s.notes, NoteId, n))
  }

  function DeleteNote(s: Store, id: string): (r: Store)
    ensures forall n :: n in r.notes <==> n in s.notes && n.id != id
    ensures forall n :: multiset(r.notes)[n] == if n.id != id then multiset(s.notes)[n] else 0
    ensures r == s.(notes := r.notes)
  {
    s.(notes := Keyed.RemoveById(s.notes, NoteId, id))
  }

  /** Adding a note under a fresh id and deleting that id restores the store. */
  lemma DeleteUndoesAddNote(s: Store, n: Note)
    requires forall m :: m in s.notes ==> m.id != n.id
    ensures DeleteNote(AddNote(s, n), n.id) == s
  {
    Keyed.RemoveUndoesAppend(s.notes, NoteId, n);
  }

  function AddAppointment(s: Store, a: Appointment): (r: Store)
    ensures r.appointments == s.appointments + [a]
    ensures r == s.(appointments := r.appointments)
  {
    s.(appointments := s.appointments + [a])
  }

  function UpdateAppointment(s: Store, a: Appointment): (r: Store)
    ensures |r.appointments| == |s.appointments|
    ensures forall i :: 0 <= i < |s.appointments| ==>
      r.appointments[i] == if s.appointments[i].id == a.id then a else s.appointments[i]
    ensures r == s.(appointments := r.appointments)
  {
    s.(appointments := Keyed.ReplaceById(s.appointments, AppointmentId, a))
  }

  function DeleteAppointment(s: Store, id: string): (r: Store)
    ensures forall a :: a in r.appointments <==> a in s.appointments && a.id != id
    ensures forall a :: multiset(r.appointments)[a] == if a.id != id then multiset(s.appointments)[a] else 0
    ensures r == s.(appointments := r.appointments)
  {
    s.(appointments := Keyed.RemoveById(s.appointments, AppointmentId, id))
  }

  /** `getAppointmentsByDate(date)`. */
  function AppointmentsByDate(s: Store, date: string): (r: seq<Appointment>)
    ensures forall a :: a in r <==> a in s.appointments && a.date == date
    ensures forall a :: multiset(r)[a] == if a.date == date then multiset(s.appointments)[a] else 0
  {
    Keyed.SelectByKey(s.appointments, AppointmentDate, date)
  }

  /** `addRecipe`: append the recipe, then award 50 points (skipped while stats are null). */
  function AddRecipe(s: Store, rc: Recipe): (r: Store)
    ensures r.recipes == s.recipes + [rc]
    ensures r.userStats.Some? <==> s.userStats.Some?
    ensures s.userStats.Some? ==> r.userStats.value.totalPoints == s.userStats.value.totalPoints + 50
    ensures s.userStats.Some? ==> r.userStats == Some(P.AddPoints(s.userStats.value, 50))
    ensures r == s.(recipes := r.recipes, userStats := r.userStats)
  {
    AddPoints(s.(recipes := s.recipes + [rc]), 50)
  }

  function UpdateRecipe(s: Store, rc: Recipe): (r: Store)
    ensures |r.recipes| == |s.recipes|
    ensures forall i :: 0 <= i < |s.recipes| ==>
      r.recipes[i] == if s.recipes[i].id == rc.id then rc else s.recipes[i]
    ensures r == s.(recipes := r.recipes)
  {
    s.(recipes := Keyed.ReplaceById(s.recipes, RecipeId, rc))
  }

  function DeleteRecipe(s: Store, id: string): (r: Store)
    ensures forall x :: x in r.recipes <==> x in s.recipes && x.id != id
    ensures forall x :: multiset(r.recipes)[x] == if x.id != id then multiset(s.recipes)[x] else 0
    ensures r == s.(recipes := r.recipes)
  {
    s.(recipes := Keyed.RemoveById(s.recipes, RecipeId, id))
  }

  // ---------------------------------------------------------------------------
  // Stats, settings and game

  function UpdateUserStats(s: Store, st: UserStats): (r: Store)
    ensures r.userStats == Some(st)
    ensures r == s.(userStats := r.userStats)
  {
    s.(userStats := Some(st))
  }

  /** `addPoints(points)`: a no-op while the stats are null. */
  function AddPoints(s: Store, points: int): (r: Store)
    ensures s.userStats.None? ==> r == s
    ensures s.userStats.Some? ==>
      && r.userStats.Some?
      && r.userStats.value.totalPoints == s.userStats.value.totalPoints + points
      && r.userStats.value.level == P.LevelOf(r.userStats.value.totalPoints)
      && r.userStats == Some(P.AddPoints(s.userStats.value, points))
    ensures r == s.(userStats := r.userStats)
  {
    match s.userStats
    case None => s
    case Some(st) => s.(userStats := Some(P.AddPoints(st, points)))
  }

  function UpdateAppSettings(s: Store, st: AppSettings): (r: Store)
    ensures r.appSettings == Some(st)
    ensures r == s.(appSettings := r.appSettings)
  {
    s.(appSettings := Some(st))
  }

  function UpdateGameState(s: Store, g: GameState): (r: Store)
    ensures r.gameState == Some(g)
    ensures r == s.(gameState := r.gameState)
  {
    s.(gameState := Some(g))
  }

  /** `waterFlower(flowerId)`: a no-op while the game state is null. */
  function WaterFlower(s: Store, flowerId: string, today: string, now: string): (r: Store)
    ensures s.gameState.None? ==> r == s
    ensures s.gameState.Some? ==>
      && r.gameState.Some?
      && r.gameState.value.totalXp == s.gameState.value.totalXp + 10
      && r.gameState.value.coins == s.gameState.value.coins
      && r.gameState.value.inventory == s.gameState.value.inventory
      && r.gameState == Some(P.WaterFlower(s.gameState.value, flowerId, today, now))
    ensures r == s.(gameState := r.gameState)
  {
    match s.gameState
    case None => s
    case Some(g) => s.(gameState := Some(P.WaterFlower(g, flowerId, today, now)))
  }

  /** `addGameCoins(amount)`: a no-op while the game state is null. */
  function AddGameCoins(s: Store, amount: int): (r: Store)
    ensures s.gameState.None? ==> r == s
    ensures s.gameState.Some? ==>
      && r.gameState.Some?
      && r.gameState.value.coins == s.gameState.value.coins + amount
      && r.gameState.value == s.gameState.value.(coins := r.gameState.value.coins)
    ensures r == s.(gameState := r.gameState)
  {
    match s.gameState
    case None => s
    case Some(g) => s.(gameState := Some(P.AddGameCoins(g, amount)))
  }

  /** `useGameItem(itemId, flowerId)`: a no-op while the game state is null. */
  function UseGameItem(s: Store, itemId: string, flowerId: string): (r: Store)
    ensures s.gameState.None? ==> r == s
    ensures s.gameState.Some? ==>
      && r.gameState.Some?
      && r.gameState.value.coins == s.gameState.value.coins
      && (!Keyed.HasKey(s.gameState.value.inventory, P.ItemId, itemId) ==> r == s)
      && (Keyed.HasKey(s.gameState.value.inventory, P.ItemId, itemId) ==>
            forall x :: x in r.gameState.value.inventory ==> x.quantity > 0)
      && r.gameState == Some(P.UseGameItem(s.gameState.value, itemId, flowerId))
    ensures r == s.(gameState := r.gameState)
  {
    match s.gameState
    case None => s
    case Some(g) => s.(gameState := Some(P.UseGameItem(g, itemId, flowerId)))
  }
}
