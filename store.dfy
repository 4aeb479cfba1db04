/**
 * The database and the endpoint handlers that change it. Each handler runs in one
 * transaction, so every error leaves the tables as they were; the caller's user id,
 * the clock and the sentiment service's answers are parameters.
 */
module Store {
  import opened Wrappers
  import opened Seqs
  import opened Schemas
  import Sentiment

  // ---------------------------------------------------------------------------
  // Rows

  datatype Task = Task(id: int, title: string, estimatedMinutes: int, completed: bool, userId: int, createdAt: int)

  datatype TaskStep = TaskStep(id: int, taskId: int, description: string, materials: Option<string>,
                               orderIndex: int, completed: bool)

  datatype Reflection = Reflection(id: int, taskId: int, emojiRating: int, reflectionText: string,
                                   sentiment: Sentiment.Sentiment, createdAt: int)

  /** A user's points; the column is nullable, and SQL `NULL + 15` is still `NULL`. */
  datatype Progress = Progress(kaibloomsPoints: Option<int>, updatedAt: int)

  datatype CollectibleType = CollectibleType(id: int, name: string, emoji: string, cost: int, description: string)

  datatype UserCollectible = UserCollectible(id: int, userId: int, collectibleTypeId: int, quantity: Option<int>,
                                             purchasedAt: int)

  datatype Settings = Settings(
    grade: Option<string>,
    classes: Option<seq<string>>,
    biggerText: Option<bool>,
    hapticBuzz: Option<bool>,
    kaibeatPlaylistUrl: Option<string>,
    notificationsEnabled: Option<bool>,
    breakRemindersEnabled: Option<bool>,
    breakReminderInterval: Option<int>,
    celebrationNotificationsEnabled: Option<bool>,
    dailyCheckinEnabled: Option<bool>,
    updatedAt: int)

  datatype TaskWithSteps = TaskWithSteps(task: Task, steps: seq<TaskStep>)

  datatype ClearOutput = ClearOutput(success: bool, message: string)

  /** An HTTP response: a status with a body, or a status with an error message. */
  datatype Reply<T> = Ok(status: int, value: T) | Err(status: int, error: string)

  // ---------------------------------------------------------------------------
  // Lookups and row edits

  /** `kaibloomsPoints ?? 0`. */
  function Balance(p: Progress): int {
    p.kaibloomsPoints.GetOr(0)
  }

  /** `WHERE id = id AND userId = userId`, first row. */
  function FindTask(tasks: seq<Task>, id: int, userId: int): (r: Option<Task>)
    ensures r.Some? ==> r.value in tasks && r.value.id == id && r.value.userId == userId
    ensures r.None? <==> forall k :: 0 <= k < |tasks| ==> !(tasks[k].id == id && tasks[k].userId == userId)
  {
    if tasks == [] then None
    else if tasks[0].id == id && tasks[0].userId == userId then Some(tasks[0])
    else
      assert forall k :: 1 <= k < |tasks| ==> tasks[k] == tasks[1..][k - 1];
      FindTask(tasks[1..], id, userId)
  }

  /** `SELECT ... FROM collectibleTypes WHERE id = id`, first row. */
  function FindCollectibleType(catalog: seq<CollectibleType>, id: int): (r: Option<CollectibleType>)
    ensures r.Some? ==> r.value in catalog && r.value.id == id
    ensures r.None? <==> forall k :: 0 <= k < |catalog| ==> catalog[k].id != id
  {
    if catalog == [] then None
    else if catalog[0].id == id then Some(catalog[0])
    else
      assert forall k :: 1 <= k < |catalog| ==> catalog[k] == catalog[1..][k - 1];
      FindCollectibleType(catalog[1..], id)
  }

  /** The ids of the tasks `userId` owns. */
  function OwnedTaskIds(tasks: seq<Task>, userId: int): set<int> {
    set t | t in tasks && t.userId == userId :: t.id
  }

  /** Adds 15 points to the caller's row: null stays null, and a missing row is not created. */
  function Award(progress: map<int, Progress>, userId: int): (r: map<int, Progress>)
    ensures r.Keys == progress.Keys
    ensures forall u :: u in progress && u != userId ==> r[u] == progress[u]
    ensures userId in progress ==>
              && r[userId].updatedAt == progress[userId].updatedAt
              && (progress[userId].kaibloomsPoints.None? ==> r[userId].kaibloomsPoints.None?)
              && (progress[userId].kaibloomsPoints.Some? ==>
                    r[userId].kaibloomsPoints == Some(progress[userId].kaibloomsPoints.value + 15))
  {
    if userId in progress then
      var p := progress[userId];
      var points := match p.kaibloomsPoints case Some(n) => Some(n + 15) case None => None;
      progress[userId := p.(kaibloomsPoints := points)]
    else progress
  }

  // ---------------------------------------------------------------------------
  // Purchase upsert

  /** `WHERE collectibleTypeId = typeId AND userId = userId`, position of the first row. */
  function FindOwnedCollectible(rows: seq<UserCollectible>, userId: int, typeId: int): (r: Option<nat>)
    ensures r.Some? ==> r.value < |rows| && rows[r.value].userId == userId && rows[r.value].collectibleTypeId == typeId
    ensures r.Some? ==> forall k :: 0 <= k < r.value ==> !(rows[k].userId == userId && rows[k].collectibleTypeId == typeId)
    ensures r.None? <==> forall k :: 0 <= k < |rows| ==> !(rows[k].userId == userId && rows[k].collectibleTypeId == typeId)
  {
    if rows == [] then None
    else if rows[0].userId == userId && rows[0].collectibleTypeId == typeId then Some(0)
    else
      assert forall k :: 1 <= k < |rows| ==> rows[k] == rows[1..][k - 1];
      match FindOwnedCollectible(rows[1..], userId, typeId)
      case Some(k) => Some(k + 1)
      case None => None
  }

  /** No two collection rows share an id. */
  predicate DistinctIds(rows: seq<UserCollectible>) {
    forall i, j :: 0 <= i < j < |rows| ==> rows[i].id != rows[j].id
  }

  /** `UPDATE userCollectibles SET quantity, purchasedAt WHERE id = id`. */
  function SetQuantity(rows: seq<UserCollectible>, id: int, quantity: int, now: int): (r: seq<UserCollectible>)
    ensures |r| == |rows|
    ensures forall k :: 0 <= k < |rows| ==> r[k].id == rows[k].id && r[k].userId == rows[k].userId
    ensures forall k :: 0 <= k < |rows| && rows[k].id == id ==>
              r[k].quantity == Some(quantity) && r[k].purchasedAt == now && r[k].collectibleTypeId == rows[k].collectibleTypeId
    ensures forall k :: 0 <= k < |rows| && rows[k].id != id ==> r[k] == rows[k]
  {
    seq(|rows|, k requires 0 <= k < |rows| =>
      if rows[k].id == id then rows[k].(quantity := Some(quantity), purchasedAt := now) else rows[k])
  }

  /** The upsert: raise the first (user, type) row's quantity by one, or add a row with quantity 1. */
  function AddToCollection(rows: seq<UserCollectible>, userId: int, typeId: int, now: int, freshId: int): (r: seq<UserCollectible>)
    ensures FindOwnedCollectible(rows, userId, typeId).Some? <==> |r| == |rows|
    ensures FindOwnedCollectible(rows, userId, typeId).None? <==> |r| == |rows| + 1
    ensures exists k :: 0 <= k < |r| && r[k].userId == userId && r[k].collectibleTypeId == typeId && r[k].purchasedAt == now
  {
    match FindOwnedCollectible(rows, userId, typeId)
    case Some(k) =>
      var r := SetQuantity(rows, rows[k].id, rows[k].quantity.GetOr(0) + 1, now);
      assert r[k].userId == userId && r[k].collectibleTypeId == typeId && r[k].purchasedAt == now;
      r
    case None =>
      var r := rows + [UserCollectible(freshId, userId, typeId, Some(1), now)];
      assert r[|rows|].userId == userId && r[|rows|].collectibleTypeId == typeId && r[|rows|].purchasedAt == now;
      r
  }

  /** An owned row's quantity rises by exactly one (null read as 0); no row is added and no other row changes. */
  lemma AddToCollectionIncrements(rows: seq<UserCollectible>, userId: int, typeId: int, now: int, freshId: int, k: nat)
    requires DistinctIds(rows)
    requires FindOwnedCollectible(rows, userId, typeId) == Some(k)
    ensures var r := AddToCollection(rows, userId, typeId, now, freshId);
      && |r| == |rows|
      && r[k] == rows[k].(quantity := Some(rows[k].quantity.GetOr(0) + 1), purchasedAt := now)
      && forall i :: 0 <= i < |rows| && i != k ==> r[i] == rows[i]
  {
  }

  /** Without an owned row, exactly one row with quantity 1 is appended. */
  lemma AddToCollectionInserts(rows: seq<UserCollectible>, userId: int, typeId: int, now: int, freshId: int)
    requires FindOwnedCollectible(rows, userId, typeId).None?
    ensures var r := AddToCollection(rows, userId, typeId, now, freshId);
      && |r| == |rows| + 1
      && r[..|rows|] == rows
      && r[|rows|] == UserCollectible(freshId, userId, typeId, Some(1), now)
  {
  }

  /** Other users' collection rows are never touched. */
  lemma AddToCollectionKeepsOthers(rows: seq<UserCollectible>, userId: int, typeId: int, now: int, freshId: int)
    requires DistinctIds(rows)
    ensures var r := AddToCollection(rows, userId, typeId, now, freshId);
      forall i :: 0 <= i < |rows| && rows[i].userId != userId ==> r[i] == rows[i]
  {
  }

  /** Drawing the next serial id keeps the collection's ids distinct and below the counter. */
  lemma AddToCollectionKeepsIdsValid(rows: seq<UserCollectible>, userId: int, typeId: int, now: int, freshId: int)
    requires DistinctIds(rows) && CollectionIdsBelow(rows, freshId) && 1 <= freshId
    ensures DistinctIds(AddToCollection(rows, userId, typeId, now, freshId))
    ensures CollectionIdsBelow(AddToCollection(rows, userId, typeId, now, freshId), freshId + 1)
  {
  }

  // ---------------------------------------------------------------------------
  // Task creation and update

  /** The step rows of a new task: the i-th input step becomes row i, open, with order index i. */
  function StepRows(steps: seq<StepInput>, taskId: int, firstId: int): (r: seq<TaskStep>)
    ensures |r| == |steps|
    ensures forall i :: 0 <= i < |steps| ==>
              r[i] == TaskStep(firstId + i, taskId, steps[i].description, steps[i].materials, i, false)
  {
    if steps == [] then []
    else
      var n := |steps| - 1;
      StepRows(steps[..n], taskId, firstId) + [TaskStep(firstId + n, taskId, steps[n].description, steps[n].materials, n, false)]
  }

  /** `UPDATE tasks SET completed WHERE id = id AND userId = userId`. */
  function SetTaskCompleted(tasks: seq<Task>, id: int, userId: int, completed: bool): (r: seq<Task>)
    ensures |r| == |tasks|
    ensures forall k :: 0 <= k < |tasks| ==> r[k].id == tasks[k].id && r[k].userId == tasks[k].userId
    ensures forall k :: 0 <= k < |tasks| && tasks[k].id == id && tasks[k].userId == userId ==>
              r[k].completed == completed && r[k].(completed := tasks[k].completed) == tasks[k]
    ensures forall k :: 0 <= k < |tasks| && !(tasks[k].id == id && tasks[k].userId == userId) ==> r[k] == tasks[k]
  {
    seq(|tasks|, k requires 0 <= k < |tasks| =>
      if tasks[k].id == id && tasks[k].userId == userId then tasks[k].(completed := completed) else tasks[k])
  }

  /** Setting a flag neither adds nor removes the caller's task. */
  lemma {:induction false} SetTaskCompletedKeepsOwnership(tasks: seq<Task>, id: int, userId: int, completed: bool)
    ensures FindTask(SetTaskCompleted(tasks, id, userId, completed), id, userId).None? <==> FindTask(tasks, id, userId).None?
    ensures FindTask(SetTaskCompleted(tasks, id, userId, completed), id, userId).Some? ==>
              FindTask(SetTaskCompleted(tasks, id, userId, completed), id, userId).value.completed == completed
  {
    var r := SetTaskCompleted(tasks, id, userId, completed);
    if tasks != [] {
      assert r[1..] == SetTaskCompleted(tasks[1..], id, userId, completed);
      SetTaskCompletedKeepsOwnership(tasks[1..], id, userId, completed);
    }
  }

  /** `UPDATE taskSteps SET completed WHERE id = id AND taskId = taskId`. */
  function SetStepCompleted(steps: seq<TaskStep>, id: int, taskId: int, completed: bool): (r: seq<TaskStep>)
    ensures |r| == |steps|
    ensures forall k :: 0 <= k < |steps| ==> r[k].id == steps[k].id
    ensures forall k :: 0 <= k < |steps| && steps[k].id == id && steps[k].taskId == taskId ==>
              r[k].completed == completed && r[k].(completed := steps[k].completed) == steps[k]
    ensures forall k :: 0 <= k < |steps| && !(steps[k].id == id && steps[k].taskId == taskId) ==> r[k] == steps[k]
  {
    seq(|steps|, k requires 0 <= k < |steps| =>
      if steps[k].id == id && steps[k].taskId == taskId then steps[k].(completed := completed) else steps[k])
  }

  /** The step updates applied one after another, in list order. */
  function ApplyStepUpdates(steps: seq<TaskStep>, updates: seq<StepUpdate>, taskId: int): (r: seq<TaskStep>)
    ensures |r| == |steps|
    ensures forall k :: 0 <= k < |steps| ==> r[k].id == steps[k].id
  {
    if updates == [] then steps
    else
      var last := updates[|updates| - 1];
      SetStepCompleted(ApplyStepUpdates(steps, updates[..|updates| - 1], taskId), last.id, taskId, last.completed)
  }

  /** The per-step `UPDATE` loop, one statement per list entry. */
  method UpdateSteps(steps: seq<TaskStep>, updates: seq<StepUpdate>, taskId: int) returns (r: seq<TaskStep>)
    ensures r == ApplyStepUpdates(steps, updates, taskId)
  {
    r := steps;
    for i := 0 to |updates|
      invariant r == ApplyStepUpdates(steps, updates[..i], taskId)
    {
      assert updates[..i + 1][..i] == updates[..i];
      r := SetStepCompleted(r, updates[i].id, taskId, updates[i].completed);
    }
    assert updates[..|updates|] == updates;
  }

  /** The position of the last update naming `id`, if any names it. */
  function LastUpdateFor(updates: seq<StepUpdate>, id: int): (r: Option<nat>)
    ensures r.None? <==> forall k :: 0 <= k < |updates| ==> updates[k].id != id
    ensures r.Some? ==> r.value < |updates| && updates[r.value].id == id
    ensures r.Some? ==> forall j :: r.value < j < |updates| ==> updates[j].id != id
  {
    if updates == [] then None
    else
      var n := |updates| - 1;
      if updates[n].id == id then Some(n)
      else
        assert forall k :: 0 <= k < n ==> updates[k] == updates[..n][k];
        LastUpdateFor(updates[..n], id)
  }

  /**
   * After the loop, a step of `taskId` carries the flag of the last update naming its
   * id; steps of other tasks and steps no update names are unchanged.
   */
  lemma {:induction false} LastUpdateWins(steps: seq<TaskStep>, updates: seq<StepUpdate>, taskId: int, i: int)
    requires 0 <= i < |steps|
    ensures ApplyStepUpdates(steps, updates, taskId)[i] ==
              if steps[i].taskId == taskId && LastUpdateFor(updates, steps[i].id).Some?
              then steps[i].(completed := updates[LastUpdateFor(updates, steps[i].id).value].completed)
              else steps[i]
  {
    if updates != [] {
      LastUpdateWins(steps, updates[..|updates| - 1], taskId, i);
    }
  }

  /** The rows of a task's steps, `ORDER BY orderIndex ASC`. */
  function OrderIndex(s: TaskStep): int {
    s.orderIndex
  }

  function StepsOf(steps: seq<TaskStep>, taskId: int): (r: seq<TaskStep>)
    ensures SortedBy(r, OrderIndex)
    ensures forall x :: multiset(r)[x] == if x.taskId == taskId then multiset(steps)[x] else 0
    ensures forall k :: 0 <= k < |r| ==> r[k].taskId == taskId && r[k] in steps
    ensures forall k :: 0 <= k < |steps| && steps[k].taskId == taskId ==> steps[k] in r
  {
    var f := Filter(steps, (s: TaskStep) => s.taskId == taskId);
    FilterCounts(steps, (s: TaskStep) => s.taskId == taskId);
    SortByMembers(f, OrderIndex);
    SortBy(f, OrderIndex)
  }

  // ---------------------------------------------------------------------------
  // Clearing a user's data

  /** The reflections left after deleting those of the given tasks. */
  function ReflectionsOutside(rows: seq<Reflection>, taskIds: set<int>): (r: seq<Reflection>)
    ensures forall k :: 0 <= k < |r| ==> r[k].taskId !in taskIds && r[k] in rows
    ensures forall k :: 0 <= k < |rows| && rows[k].taskId !in taskIds ==> rows[k] in r
    ensures SubsequenceOf(r, rows)
    ensures forall x :: multiset(r)[x] == if x.taskId !in taskIds then multiset(rows)[x] else 0
  {
    FilterIsSubsequence(rows, (x: Reflection) => x.taskId !in taskIds);
    FilterCounts(rows, (x: Reflection) => x.taskId !in taskIds);
    Filter(rows, (x: Reflection) => x.taskId !in taskIds)
  }

  /** The steps left after deleting those of the given tasks. */
  function StepsOutside(rows: seq<TaskStep>, taskIds: set<int>): (r: seq<TaskStep>)
    ensures forall k :: 0 <= k < |r| ==> r[k].taskId !in taskIds && r[k] in rows
    ensures forall k :: 0 <= k < |rows| && rows[k].taskId !in taskIds ==> rows[k] in r
    ensures SubsequenceOf(r, rows)
    ensures forall x :: multiset(r)[x] == if x.taskId !in taskIds then multiset(rows)[x] else 0
  {
    FilterIsSubsequence(rows, (x: TaskStep) => x.taskId !in taskIds);
    FilterCounts(rows, (x: TaskStep) => x.taskId !in taskIds);
    Filter(rows, (x: TaskStep) => x.taskId !in taskIds)
  }

  /** The tasks left after deleting those `userId` owns. */
  function TasksNotOwnedBy(rows: seq<Task>, userId: int): (r: seq<Task>)
    ensures forall k :: 0 <= k < |r| ==> r[k].userId != userId && r[k] in rows
    ensures forall k :: 0 <= k < |rows| && rows[k].userId != userId ==> rows[k] in r
    ensures SubsequenceOf(r, rows)
    ensures forall x :: multiset(r)[x] == if x.userId != userId then multiset(rows)[x] else 0
  {
    FilterIsSubsequence(rows, (x: Task) => x.userId != userId);
    FilterCounts(rows, (x: Task) => x.userId != userId);
    Filter(rows, (x: Task) => x.userId != userId)
  }

  /** `SET kaibloomsPoints = 0 WHERE userId = userId`: no row is created. */
  function ResetPoints(progress: map<int, Progress>, userId: int): (r: map<int, Progress>)
    ensures r.Keys == progress.Keys
    ensures forall u :: u in progress && u != userId ==> r[u] == progress[u]
    ensures userId in progress ==> r[userId].kaibloomsPoints == Some(0) && r[userId].updatedAt == progress[userId].updatedAt
  {
    if userId in progress then progress[userId := progress[userId].(kaibloomsPoints := Some(0))] else progress
  }

  // ---------------------------------------------------------------------------
  // Get-or-create rows

  /** The progress table after reading the caller's row, inserting `{points: 0}` if it is missing. */
  function EnsureProgress(progress: map<int, Progress>, userId: int, now: int): (r: map<int, Progress>)
    ensures userId in r && progress.Keys <= r.Keys
    ensures userId in progress ==> r == progress
    ensures userId !in progress ==> r == progress[userId := Progress(Some(0), now)]
  {
    if userId in progress then progress else progress[userId := Progress(Some(0), now)]
  }

  /** Reading twice inserts at most once, and the second read returns the first read's row. */
  lemma EnsureProgressIdempotent(progress: map<int, Progress>, userId: int, first: int, second: int)
    ensures EnsureProgress(EnsureProgress(progress, userId, first), userId, second) == EnsureProgress(progress, userId, first)
  {
  }

  /** The interval a settings row may hold: unset, or 15 to 60 minutes. */
  predicate ValidInterval(interval: Option<int>) {
    interval.Some? ==> 15 <= interval.value <= 60
  }

  /** The row `GET /settings` creates: no grade, classes or playlist, every toggle off, a 30-minute interval. */
  function DefaultSettings(now: int): (s: Settings)
    ensures s.grade.None? && s.classes.None? && s.kaibeatPlaylistUrl.None?
    ensures s.breakReminderInterval == Some(30) && ValidInterval(s.breakReminderInterval)
    ensures s.biggerText == s.hapticBuzz == s.notificationsEnabled == s.breakRemindersEnabled
         == s.celebrationNotificationsEnabled == s.dailyCheckinEnabled == Some(false)
  {
    Settings(None, None, Some(false), Some(false), None, Some(false), Some(false), Some(30), Some(false), Some(false), now)
  }

  /** The settings table after reading the caller's row, inserting the defaults if it is missing. */
  function EnsureSettings(settings: map<int, Settings>, userId: int, now: int): (r: map<int, Settings>)
    ensures userId in r && settings.Keys <= r.Keys
    ensures userId in settings ==> r == settings
    ensures userId !in settings ==> r == settings[userId := DefaultSettings(now)]
  {
    if userId in settings then settings else settings[userId := DefaultSettings(now)]
  }

  lemma EnsureSettingsIdempotent(settings: map<int, Settings>, userId: int, first: int, second: int)
    ensures EnsureSettings(EnsureSettings(settings, userId, first), userId, second) == EnsureSettings(settings, userId, first)
  {
  }

  // ---------------------------------------------------------------------------
  // Settings update

  /** One column of `SET ...input`: a present key overwrites (null included), an absent one keeps. */
  function Put<T>(f: Field<T>, current: Option<T>): (r: Option<T>)
    ensures f.Absent? ==> r == current
    ensures f.Present? ==> r == f.value
  {
    match f
    case Absent => current
    case Present(v) => v
  }

  /** The caller's row after a partial update; `updatedAt` is always refreshed. */
  function ApplyPatch(s: Settings, p: SettingsPatch, now: int): (r: Settings)
    ensures r.updatedAt == now
    ensures r.grade == Put(p.grade, s.grade) && r.classes == Put(p.classes, s.classes)
    ensures r.breakReminderInterval == Put(p.breakReminderInterval, s.breakReminderInterval)
  {
    Settings(
      Put(p.grade, s.grade),
      Put(p.classes, s.classes),
      Put(p.biggerText, s.biggerText),
      Put(p.hapticBuzz, s.hapticBuzz),
      Put(p.kaibeatPlaylistUrl, s.kaibeatPlaylistUrl),
      Put(p.notificationsEnabled, s.notificationsEnabled),
      Put(p.breakRemindersEnabled, s.breakRemindersEnabled),
      Put(p.breakReminderInterval, s.breakReminderInterval),
      Put(p.celebrationNotificationsEnabled, s.celebrationNotificationsEnabled),
      Put(p.dailyCheckinEnabled, s.dailyCheckinEnabled),
      now)
  }

  /** The update that names no field changes nothing but the timestamp. */
  lemma EmptyPatchOnlyTouchesTimestamp(s: Settings, now: int)
    ensures ApplyPatch(s, SettingsPatch(Absent, Absent, Absent, Absent, Absent, Absent, Absent, Absent, Absent, Absent), now)
         == s.(updatedAt := now)
  {
  }

  /** A validated update keeps the stored interval within 15..60 minutes. */
  lemma ApplyPatchKeepsIntervalValid(s: Settings, p: SettingsPatch, now: int)
    requires ValidInterval(s.breakReminderInterval) && ValidSettingsPatch(p)
    ensures ValidInterval(ApplyPatch(s, p, now).breakReminderInterval)
  {
  }

  // ---------------------------------------------------------------------------
  // Catalog

  /** The five plants seeded into an empty catalog, with consecutive fresh ids. */
  function SeedCatalog(firstId: int): (r: seq<CollectibleType>)
    ensures |r| == 5
    ensures forall k :: 0 <= k < 5 ==> r[k].id == firstId + k && r[k].cost == 50 * (k + 1)
  {
    [ CollectibleType(firstId, "Sprout", "\U{1F331}", 50, "A tiny green sprout."),
      CollectibleType(firstId + 1, "Sunflower", "\U{1F33B}", 100, "A bright, happy sunflower."),
      CollectibleType(firstId + 2, "Rose Bush", "\U{1F339}", 150, "A beautiful bush of red roses."),
      CollectibleType(firstId + 3, "Bonsai Tree", "\U{1F333}", 200, "A meticulously cared-for bonsai."),
      CollectibleType(firstId + 4, "Cherry Blossom", "\U{1F338}", 250, "A delicate cherry blossom branch.") ]
  }

  function Cost(c: CollectibleType): int {
    c.cost
  }

  /** A freshly seeded catalog, ordered by cost, comes back in seed order. */
  lemma {:induction false} SeededCatalogInSeedOrder(firstId: int)
    ensures SortBy(SeedCatalog(firstId), Cost) == SeedCatalog(firstId)
  {
    var s := SeedCatalog(firstId);
    assert SortedBy(s, Cost) by {
      forall i, j | 0 <= i < j < |s| ensures Cost(s[i]) <= Cost(s[j]) {
      }
    }
    SortBySorted(s, Cost);
  }

  // ---------------------------------------------------------------------------
  // The database

  // Table invariants: every serial id is positive and below the next one to be drawn.

  predicate TaskIdsBelow(rows: seq<Task>, bound: int) {
    forall k :: 0 <= k < |rows| ==> 1 <= rows[k].id < bound
  }

  predicate StepIdsBelow(rows: seq<TaskStep>, bound: int) {
    forall k :: 0 <= k < |rows| ==> 1 <= rows[k].id < bound
  }

  predicate ReflectionIdsBelow(rows: seq<Reflection>, bound: int) {
    forall k :: 0 <= k < |rows| ==> 1 <= rows[k].id < bound
  }

  predicate CatalogIdsBelow(rows: seq<CollectibleType>, bound: int) {
    forall k :: 0 <= k < |rows| ==> 1 <= rows[k].id < bound
  }

  predicate CollectionIdsBelow(rows: seq<UserCollectible>, bound: int) {
    forall k :: 0 <= k < |rows| ==> 1 <= rows[k].id < bound
  }

  /** Deleting reflections keeps every remaining id below the table's bound. */
  lemma ReflectionsOutsideKeepIds(rows: seq<Reflection>, taskIds: set<int>, bound: int)
    requires ReflectionIdsBelow(rows, bound)
    ensures ReflectionIdsBelow(ReflectionsOutside(rows, taskIds), bound)
  {
    var kept := ReflectionsOutside(rows, taskIds);
    forall k | 0 <= k < |kept| ensures 1 <= kept[k].id < bound {
      assert kept[k] in rows;
    }
  }

  /** Deleting steps keeps every remaining id below the table's bound. */
  lemma StepsOutsideKeepIds(rows: seq<TaskStep>, taskIds: set<int>, bound: int)
    requires StepIdsBelow(rows, bound)
    ensures StepIdsBelow(StepsOutside(rows, taskIds), bound)
  {
    var kept := StepsOutside(rows, taskIds);
    forall k | 0 <= k < |kept| ensures 1 <= kept[k].id < bound {
      assert kept[k] in rows;
    }
  }

  /** Deleting tasks keeps every remaining id below the table's bound. */
  lemma TasksNotOwnedByKeepIds(rows: seq<Task>, userId: int, bound: int)
    requires TaskIdsBelow(rows, bound)
    ensures TaskIdsBelow(TasksNotOwnedBy(rows, userId), bound)
  {
    var kept := TasksNotOwnedBy(rows, userId);
    forall k | 0 <= k < |kept| ensures 1 <= kept[k].id < bound {
      assert kept[k] in rows;
    }
  }

  /** No balance is ever negative. */
  predicate PointsNonNegative(progress: map<int, Progress>) {
    forall u :: u in progress ==> Balance(progress[u]) >= 0
  }

  /** Zeroing a balance keeps every balance non-negative. */
  lemma ResetKeepsPointsNonNegative(progress: map<int, Progress>, userId: int)
    requires PointsNonNegative(progress)
    ensures PointsNonNegative(ResetPoints(progress, userId))
  {
  }

  predicate IntervalsValid(settings: map<int, Settings>) {
    forall u :: u in settings ==> ValidInterval(settings[u].breakReminderInterval)
  }

  class Database {
    var tasks: seq<Task>
    var taskSteps: seq<TaskStep>
    var reflections: seq<Reflection>
    var userProgress: map<int, Progress>
    var collectibleTypes: seq<CollectibleType>
    var userCollectibles: seq<UserCollectible>
    var userSettings: map<int, Settings>
    /** The next serial id; every row id drawn so far is below it. */
    var nextId: int

    ghost predicate Valid()
      reads this
    {
      && 1 <= nextId
      && TaskIdsBelow(tasks, nextId)
      && StepIdsBelow(taskSteps, nextId)
      && ReflectionIdsBelow(reflections, nextId)
      && CatalogIdsBelow(collectibleTypes, nextId)
      && CollectionIdsBelow(userCollectibles, nextId)
      && DistinctIds(userCollectibles)
      && PointsNonNegative(userProgress)
      && IntervalsValid(userSettings)
    }

    constructor ()
      ensures Valid()
      ensures tasks == [] && taskSteps == [] && reflections == [] && collectibleTypes == [] && userCollectibles == []
      ensures userProgress == map[] && userSettings == map[]
    {
      tasks, taskSteps, reflections := [], [], [];
      userProgress, userSettings := map[], map[];
      collectibleTypes, userCollectibles := [], [];
      nextId := 1;
    }

    /**
     * POST /collectibles/purchase. Fails, changing nothing, for an unknown type, a
     * caller without a progress row, or a balance (null read as 0) below the cost;
     * otherwise deducts the cost and upserts the caller's collection row.
     */
    method Purchase(userId: int, collectibleTypeId: int, now: int) returns (r: Reply<PurchaseOutput>)
      requires Valid()
      modifies this
      ensures Valid()
      ensures r.Err? ==> r.status == 400 && unchanged(this)
      ensures FindCollectibleType(old(collectibleTypes), collectibleTypeId).None? ==>
                r == Err(400, "Collectible not found.")
      ensures FindCollectibleType(old(collectibleTypes), collectibleTypeId).Some? && userId !in old(userProgress) ==>
                r == Err(400, "User progress not found.")
      ensures var c := FindCollectibleType(old(collectibleTypes), collectibleTypeId);
              c.Some? && userId in old(userProgress) && Balance(old(userProgress[userId])) < c.value.cost ==>
                r == Err(400, "Insufficient Kaiblooms points.")
      ensures var c := FindCollectibleType(old(collectibleTypes), collectibleTypeId);
              r.Err? <==> (c.None? || userId !in old(userProgress) || Balance(old(userProgress[userId])) < c.value.cost)
      ensures r.Ok? ==>
                var c := FindCollectibleType(old(collectibleTypes), collectibleTypeId);
                && c.Some? && userId in old(userProgress)
                && r == Ok(200, PurchaseOutput(true, Balance(old(userProgress[userId])) - c.value.cost))
                && r.value.newPoints >= 0
                && userProgress == old(userProgress)[userId := Progress(Some(r.value.newPoints), now)]
                && userCollectibles == AddToCollection(old(userCollectibles), userId, collectibleTypeId, now, old(nextId))
                && nextId == old(nextId) + (|userCollectibles| - |old(userCollectibles)|)
                && tasks == old(tasks) && taskSteps == old(taskSteps) && reflections == old(reflections)
                && collectibleTypes == old(collectibleTypes) && userSettings == old(userSettings)
    {
      var collectible := FindCollectibleType(collectibleTypes, collectibleTypeId);
      if collectible.None? {
        return Err(400, "Collectible not found.");
      }
      if userId !in userProgress {
        return Err(400, "User progress not found.");
      }
      var userPoints := Balance(userProgress[userId]);
      var cost := collectible.value.cost;
      if userPoints < cost {
        return Err(400, "Insufficient Kaiblooms points.");
      }

      var newPoints := userPoints - cost;
      userProgress := userProgress[userId := Progress(Some(newPoints), now)];

      AddToCollectionKeepsIdsValid(userCollectibles, userId, collectibleTypeId, now, nextId);
      var existing := FindOwnedCollectible(userCollectibles, userId, collectibleTypeId);
      if existing.Some? {
        var row := userCollectibles[existing.value];
        userCollectibles := SetQuantity(userCollectibles, row.id, row.quantity.GetOr(0) + 1, now);
      } else {
        userCollectibles := userCollectibles + [UserCollectible(nextId, userId, collectibleTypeId, Some(1), now)];
        nextId := nextId + 1;
      }
      r := Ok(200, PurchaseOutput(true, newPoints));
    }

    /**
     * POST /tasks. Inserts an open task for the caller and its steps, the i-th step
     * with order index i; without steps nothing else is inserted.
     */
    method CreateTask(userId: int, input: TaskInput, now: int) returns (r: Reply<TaskWithSteps>)
      requires Valid()
      modifies this
      ensures Valid()
      ensures r.Ok? && r.status == 201
      ensures r.value.task == Task(old(nextId), input.title, input.estimatedMinutes, false, userId, now)
      ensures r.value.steps == StepRows(input.steps.GetOr([]), old(nextId), old(nextId) + 1)
      ensures tasks == old(tasks) + [r.value.task]
      ensures taskSteps == old(taskSteps) + r.value.steps
      ensures nextId == old(nextId) + 1 + |r.value.steps|
      ensures reflections == old(reflections) && userProgress == old(userProgress)
      ensures collectibleTypes == old(collectibleTypes) && userCollectibles == old(userCollectibles)
      ensures userSettings == old(userSettings)
    {
      var newTask := Task(nextId, input.title, input.estimatedMinutes, false, userId, now);
      tasks := tasks + [newTask];
      nextId := nextId + 1;
      var newSteps: seq<TaskStep> := [];
      if input.steps.Some? && |input.steps.value| > 0 {
        newSteps := StepRows(input.steps.value, newTask.id, nextId);
        taskSteps := taskSteps + newSteps;
        nextId := nextId + |newSteps|;
      }
      r := Ok(201, TaskWithSteps(newTask, newSteps));
    }

    /**
     * POST /tasks/update. Sets the caller's task flag (awarding 15 points on `true`),
     * applies the step updates in order, then reads the task back; a task that is
     * missing or not the caller's rolls every change back.
     */
    method UpdateTask(userId: int, input: TaskUpdate) returns (r: Reply<TaskWithSteps>)
      requires Valid()
      modifies this
      ensures Valid()
      ensures r.Err? <==> FindTask(old(tasks), input.taskId, userId).None?
      ensures r.Err? ==> r == Err(400, "Failed to update task: no result")
      ensures r.Err? ==> tasks == old(tasks) && taskSteps == old(taskSteps) && userProgress == old(userProgress)
      ensures reflections == old(reflections) && collectibleTypes == old(collectibleTypes)
      ensures userCollectibles == old(userCollectibles) && userSettings == old(userSettings) && nextId == old(nextId)
      ensures r.Ok? ==>
                && tasks == (if input.completed.Some? then SetTaskCompleted(old(tasks), input.taskId, userId, input.completed.value)
                             else old(tasks))
                && userProgress == (if input.completed == Some(true) then Award(old(userProgress), userId) else old(userProgress))
                && taskSteps == (if input.steps.Some? then ApplyStepUpdates(old(taskSteps), input.steps.value, input.taskId)
                                 else old(taskSteps))
                && r == Ok(200, TaskWithSteps(FindTask(tasks, input.taskId, userId).value, StepsOf(taskSteps, input.taskId)))
                && (input.completed.Some? ==> r.value.task.completed == input.completed.value)
    {
      var tasks0, steps0, progress0 := tasks, taskSteps, userProgress;
      if input.completed.Some? {
        SetCompletion(userId, input.taskId, input.completed.value);
        SetTaskCompletedKeepsOwnership(tasks0, input.taskId, userId, input.completed.value);
      }
      if input.steps.Some? && |input.steps.value| > 0 {
        SetStepFlags(input.taskId, input.steps.value);
      }

      var task := FindTask(tasks, input.taskId, userId);
      if task.None? {
        Restore(tasks0, steps0, progress0);
        return Err(400, "Failed to update task: no result");
      }
      r := Ok(200, TaskWithSteps(task.value, StepsOf(taskSteps, input.taskId)));
    }

    /** Step 1 of the task update: the caller's task flag, and 15 points when it is set to `true`. */
    method SetCompletion(userId: int, taskId: int, completed: bool)
      requires Valid()
      modifies this
      ensures Valid()
      ensures tasks == SetTaskCompleted(old(tasks), taskId, userId, completed)
      ensures userProgress == if completed then Award(old(userProgress), userId) else old(userProgress)
      ensures taskSteps == old(taskSteps) && reflections == old(reflections) && collectibleTypes == old(collectibleTypes)
      ensures userCollectibles == old(userCollectibles) && userSettings == old(userSettings) && nextId == old(nextId)
    {
      tasks := SetTaskCompleted(tasks, taskId, userId, completed);
      if completed {
        userProgress := Award(userProgress, userId);
      }
    }

    /** Step 2 of the task update: the listed step flags, in list order. */
    method SetStepFlags(taskId: int, updates: seq<StepUpdate>)
      requires Valid()
      modifies this
      ensures Valid()
      ensures taskSteps == ApplyStepUpdates(old(taskSteps), updates, taskId)
      ensures tasks == old(tasks) && userProgress == old(userProgress) && reflections == old(reflections)
      ensures collectibleTypes == old(collectibleTypes) && userCollectibles == old(userCollectibles)
      ensures userSettings == old(userSettings) && nextId == old(nextId)
    {
      taskSteps := UpdateSteps(taskSteps, updates, taskId);
    }

    /** The transaction's rollback: the three tables the update writes get their earlier contents back. */
    method Restore(tasks0: seq<Task>, steps0: seq<TaskStep>, progress0: map<int, Progress>)
      requires Valid()
      requires TaskIdsBelow(tasks0, nextId) && StepIdsBelow(steps0, nextId) && PointsNonNegative(progress0)
      modifies this
      ensures Valid()
      ensures tasks == tasks0 && taskSteps == steps0 && userProgress == progress0
      ensures reflections == old(reflections) && collectibleTypes == old(collectibleTypes)
      ensures userCollectibles == old(userCollectibles) && userSettings == old(userSettings) && nextId == old(nextId)
    {
      tasks, taskSteps, userProgress := tasks0, steps0, progress0;
    }

    /**
     * POST /reflections. The task must be the caller's; the reflection is stored with
     * the sentiment the classifier returns, and the caller earns 15 points if a
     * progress row exists.
     */
    method CreateReflection(userId: int, input: ReflectionInput, hasToken: bool, attempts: seq<Sentiment.Attempt>, now: int)
      returns (r: Reply<Reflection>)
      requires Valid()
      requires |attempts| == |Sentiment.Models|
      modifies this
      ensures Valid()
      ensures FindTask(old(tasks), input.taskId, userId).None? ==>
                r == Err(500, "Failed to create reflection: Task not found or access denied.") && unchanged(this)
      ensures FindTask(old(tasks), input.taskId, userId).Some? ==>
                var sentiment := if hasToken then Sentiment.ChainSentiment(input.reflectionText, attempts)
                                 else Sentiment.KeywordSentiment(input.reflectionText);
                && r == Ok(201, Reflection(old(nextId), input.taskId, input.emojiRating, input.reflectionText, sentiment, now))
                && reflections == old(reflections) + [r.value]
                && userProgress == Award(old(userProgress), userId)
                && nextId == old(nextId) + 1
                && tasks == old(tasks) && taskSteps == old(taskSteps) && collectibleTypes == old(collectibleTypes)
                && userCollectibles == old(userCollectibles) && userSettings == old(userSettings)
    {
      var task := FindTask(tasks, input.taskId, userId);
      if task.None? {
        return Err(500, "Failed to create reflection: Task not found or access denied.");
      }
      var sentiment := Sentiment.AnalyzeSentiment(input.reflectionText, hasToken, attempts);
      var newReflection := Reflection(nextId, input.taskId, input.emojiRating, input.reflectionText, sentiment, now);
      reflections := reflections + [newReflection];
      nextId := nextId + 1;
      userProgress := Award(userProgress, userId);
      r := Ok(201, newReflection);
    }

    /**
     * `clearUserData`: delete the reflections and steps of the caller's tasks, then the
     * tasks, and zero the caller's points; collection and settings stay.
     */
    method ClearUserData(userId: int)
      requires Valid()
      modifies this
      ensures Valid()
      ensures reflections == ReflectionsOutside(old(reflections), OwnedTaskIds(old(tasks), userId))
      ensures taskSteps == StepsOutside(old(taskSteps), OwnedTaskIds(old(tasks), userId))
      ensures tasks == TasksNotOwnedBy(old(tasks), userId)
      ensures userProgress == ResetPoints(old(userProgress), userId)
      ensures collectibleTypes == old(collectibleTypes) && userCollectibles == old(userCollectibles)
      ensures userSettings == old(userSettings) && nextId == old(nextId)
    {
      var owned := OwnedTaskIds(tasks, userId);
      DeleteReflections(owned);
      DeleteSteps(owned);
      DeleteTasks(userId);
      ResetBalance(userId);
    }

    /** Step 1 of the reset: the reflections of the given tasks. */
    method DeleteReflections(owned: set<int>)
      requires Valid()
      modifies this
      ensures Valid()
      ensures reflections == ReflectionsOutside(old(reflections), owned)
      ensures tasks == old(tasks) && taskSteps == old(taskSteps) && userProgress == old(userProgress)
      ensures collectibleTypes == old(collectibleTypes) && userCollectibles == old(userCollectibles)
      ensures userSettings == old(userSettings) && nextId == old(nextId)
    {
      ReflectionsOutsideKeepIds(reflections, owned, nextId);
      reflections := ReflectionsOutside(reflections, owned);
    }

    /** Step 2 of the reset: the steps of the given tasks. */
    method DeleteSteps(owned: set<int>)
      requires Valid()
      modifies this
      ensures Valid()
      ensures taskSteps == StepsOutside(old(taskSteps), owned)
      ensures tasks == old(tasks) && reflections == old(reflections) && userProgress == old(userProgress)
      ensures collectibleTypes == old(collectibleTypes) && userCollectibles == old(userCollectibles)
      ensures userSettings == old(userSettings) && nextId == old(nextId)
    {
      StepsOutsideKeepIds(taskSteps, owned, nextId);
      taskSteps := StepsOutside(taskSteps, owned);
    }

    /** Step 3 of the reset: the caller's tasks. */
    method DeleteTasks(userId: int)
      requires Valid()
      modifies this
      ensures Valid()
      ensures tasks == TasksNotOwnedBy(old(tasks), userId)
      ensures taskSteps == old(taskSteps) && reflections == old(reflections) && userProgress == old(userProgress)
      ensures collectibleTypes == old(collectibleTypes) && userCollectibles == old(userCollectibles)
      ensures userSettings == old(userSettings) && nextId == old(nextId)
    {
      TasksNotOwnedByKeepIds(tasks, userId, nextId);
      tasks := TasksNotOwnedBy(tasks, userId);
    }

    /** Step 4 of the reset: the caller's balance goes to zero. */
    method ResetBalance(userId: int)
      requires Valid()
      modifies this
      ensures Valid()
      ensures userProgress == ResetPoints(old(userProgress), userId)
      ensures tasks == old(tasks) && taskSteps == old(taskSteps) && reflections == old(reflections)
      ensures collectibleTypes == old(collectibleTypes) && userCollectibles == old(userCollectibles)
      ensures userSettings == old(userSettings) && nextId == old(nextId)
    {
      ResetKeepsPointsNonNegative(userProgress, userId);
      userProgress := ResetPoints(userProgress, userId);
    }

    /** POST /settings/clear-data: any other method is refused with 405 and no change. */
    method ClearData(httpMethod: string, userId: int) returns (r: Reply<ClearOutput>)
      requires Valid()
      modifies this
      ensures Valid()
      ensures httpMethod != "POST" ==> r == Err(405, "Method Not Allowed") && unchanged(this)
      ensures httpMethod == "POST" ==>
                && r == Ok(200, ClearOutput(true, "All user data has been cleared."))
                && reflections == ReflectionsOutside(old(reflections), OwnedTaskIds(old(tasks), userId))
                && taskSteps == StepsOutside(old(taskSteps), OwnedTaskIds(old(tasks), userId))
                && tasks == TasksNotOwnedBy(old(tasks), userId)
                && userProgress == ResetPoints(old(userProgress), userId)
                && collectibleTypes == old(collectibleTypes) && userCollectibles == old(userCollectibles)
                && userSettings == old(userSettings) && nextId == old(nextId)
    {
      if httpMethod != "POST" {
        return Err(405, "Method Not Allowed");
      }
      ClearUserData(userId);
      r := Ok(200, ClearOutput(true, "All user data has been cleared."));
    }

    /** GET /user-progress: the caller's row, created with 0 points if missing. */
    method GetProgress(userId: int, now: int) returns (r: Reply<Progress>)
      requires Valid()
      modifies this
      ensures Valid()
      ensures userProgress == EnsureProgress(old(userProgress), userId, now)
      ensures r == Ok(200, userProgress[userId])
      ensures userId in old(userProgress) ==> unchanged(this)
      ensures tasks == old(tasks) && taskSteps == old(taskSteps) && reflections == old(reflections)
      ensures collectibleTypes == old(collectibleTypes) && userCollectibles == old(userCollectibles)
      ensures userSettings == old(userSettings) && nextId == old(nextId)
    {
      var progress := if userId in userProgress then Some(userProgress[userId]) else None;
      if progress.None? {
        userProgress := userProgress[userId := Progress(Some(0), now)];
        progress := Some(userProgress[userId]);
      }
      r := Ok(200, progress.value);
    }

    /** GET /settings: the caller's row, created with the defaults if missing; other methods get 405. */
    method GetSettings(httpMethod: string, userId: int, now: int) returns (r: Reply<Settings>)
      requires Valid()
      modifies this
      ensures Valid()
      ensures httpMethod != "GET" ==> r == Err(405, "Method Not Allowed") && unchanged(this)
      ensures httpMethod == "GET" ==>
                && userSettings == EnsureSettings(old(userSettings), userId, now)
                && r == Ok(200, userSettings[userId])
      ensures userId in old(userSettings) ==> unchanged(this)
      ensures tasks == old(tasks) && taskSteps == old(taskSteps) && reflections == old(reflections)
      ensures collectibleTypes == old(collectibleTypes) && userCollectibles == old(userCollectibles)
      ensures userProgress == old(userProgress) && nextId == old(nextId)
    {
      if httpMethod != "GET" {
        return Err(405, "Method Not Allowed");
      }
      var settings := if userId in userSettings then Some(userSettings[userId]) else None;
      if settings.None? {
        userSettings := userSettings[userId := DefaultSettings(now)];
        settings := Some(userSettings[userId]);
      }
      r := Ok(200, settings.value);
    }

    /** POST /settings: overwrite the fields the caller sent; without a row, fail with 400. */
    method UpdateSettings(userId: int, patch: SettingsPatch, now: int) returns (r: Reply<Settings>)
      requires Valid()
      requires ValidSettingsPatch(patch)
      modifies this
      ensures Valid()
      ensures userId !in old(userSettings) ==> r == Err(400, "no result") && unchanged(this)
      ensures userId in old(userSettings) ==>
                && userSettings == old(userSettings)[userId := ApplyPatch(old(userSettings[userId]), patch, now)]
                && r == Ok(200, userSettings[userId])
      ensures tasks == old(tasks) && taskSteps == old(taskSteps) && reflections == old(reflections)
      ensures collectibleTypes == old(collectibleTypes) && userCollectibles == old(userCollectibles)
      ensures userProgress == old(userProgress) && nextId == old(nextId)
    {
      if userId !in userSettings {
        return Err(400, "no result");
      }
      ApplyPatchKeepsIntervalValid(userSettings[userId], patch, now);
      userSettings := userSettings[userId := ApplyPatch(userSettings[userId], patch, now)];
      r := Ok(200, userSettings[userId]);
    }

    /** `seedCollectibles`: insert the five plants into the empty catalog. */
    method Seed()
      requires Valid() && collectibleTypes == []
      modifies this
      ensures Valid()
      ensures collectibleTypes == SeedCatalog(old(nextId)) && nextId == old(nextId) + 5
      ensures tasks == old(tasks) && taskSteps == old(taskSteps) && reflections == old(reflections)
      ensures userProgress == old(userProgress) && userCollectibles == old(userCollectibles)
      ensures userSettings == old(userSettings)
    {
      collectibleTypes := SeedCatalog(nextId);
      nextId := nextId + 5;
    }

    /** GET /collectibles: seed the five plants into an empty catalog, then list it by cost. */
    method GetCollectibles() returns (r: Reply<seq<CollectibleType>>)
      requires Valid()
      modifies this
      ensures Valid()
      ensures collectibleTypes == if old(collectibleTypes) == [] then SeedCatalog(old(nextId)) else old(collectibleTypes)
      ensures nextId == old(nextId) + |collectibleTypes| - |old(collectibleTypes)|
      ensures r == Ok(200, SortBy(collectibleTypes, Cost))
      ensures collectibleTypes != []
      ensures tasks == old(tasks) && taskSteps == old(taskSteps) && reflections == old(reflections)
      ensures userProgress == old(userProgress) && userCollectibles == old(userCollectibles)
      ensures userSettings == old(userSettings)
    {
      var count := |collectibleTypes|;
      if count == 0 {
        Seed();
      }
      r := Ok(200, SortBy(collectibleTypes, Cost));
    }
  }
}
