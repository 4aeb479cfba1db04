/**
 * The read-side endpoints: the caller's tasks with their steps, the reflection log
 * joined with task titles, and the caller's collection joined with the catalog.
 * None of them changes a table.
 */
module Queries {
  import opened Wrappers
  import opened Seqs
  import opened Store
  import Sentiment

  // ---------------------------------------------------------------------------
  // GET /tasks

  /** `ORDER BY createdAt DESC` as an ascending key. */
  function NewestTaskFirst(t: Task): int {
    -t.createdAt
  }

  /** The caller's tasks, newest first. */
  function CallerTasks(tasks: seq<Task>, userId: int): (r: seq<Task>)
    ensures SortedBy(r, NewestTaskFirst)
    ensures forall t :: multiset(r)[t] == if t.userId == userId then multiset(tasks)[t] else 0
    ensures forall k :: 0 <= k < |r| ==> r[k].userId == userId && r[k] in tasks
    ensures forall k :: 0 <= k < |tasks| && tasks[k].userId == userId ==> tasks[k] in r
  {
    var owned := Filter(tasks, (t: Task) => t.userId == userId);
    FilterCounts(tasks, (t: Task) => t.userId == userId);
    SortByMembers(owned, NewestTaskFirst);
    SortBy(owned, NewestTaskFirst)
  }

  /** The steps joined with the caller's tasks, `ORDER BY orderIndex ASC`. */
  function CallerSteps(tasks: seq<Task>, steps: seq<TaskStep>, userId: int): (r: seq<TaskStep>)
    ensures SortedBy(r, OrderIndex)
    ensures forall s :: multiset(r)[s] == if s.taskId in OwnedTaskIds(tasks, userId) then multiset(steps)[s] else 0
    ensures forall k :: 0 <= k < |r| ==> r[k].taskId in OwnedTaskIds(tasks, userId) && r[k] in steps
    ensures forall k :: 0 <= k < |steps| && steps[k].taskId in OwnedTaskIds(tasks, userId) ==> steps[k] in r
  {
    var owned := OwnedTaskIds(tasks, userId);
    var joined := Filter(steps, (s: TaskStep) => s.taskId in owned);
    FilterCounts(steps, (s: TaskStep) => s.taskId in owned);
    SortByMembers(joined, OrderIndex);
    SortBy(joined, OrderIndex)
  }

  /** The steps of one task, in the order the grouping pass appends them. */
  function Bucket(steps: seq<TaskStep>, taskId: int): (r: seq<TaskStep>)
    ensures |r| <= |steps|
    ensures forall k :: 0 <= k < |r| ==> r[k].taskId == taskId && r[k] in steps
    ensures forall k :: 0 <= k < |steps| && steps[k].taskId == taskId ==> steps[k] in r
  {
    if steps == [] then []
    else
      var n := |steps| - 1;
      assert forall k :: 0 <= k < n ==> steps[k] == steps[..n][k];
      Bucket(steps[..n], taskId) + if steps[n].taskId == taskId then [steps[n]] else []
  }

  /**
   * A bucket is the order-preserving filter of the steps on their task id: the steps
   * of that task, in input order, each as often as it occurs.
   */
  lemma {:induction false} BucketIsFilter(steps: seq<TaskStep>, taskId: int)
    ensures Bucket(steps, taskId) == Filter(steps, (s: TaskStep) => s.taskId == taskId)
  {
    if steps != [] {
      var n := |steps| - 1;
      BucketIsFilter(steps[..n], taskId);
      FilterLast(steps, (s: TaskStep) => s.taskId == taskId);
    }
  }

  /** A bound on the order indexes of the steps bounds those of any bucket. */
  lemma {:induction false} BucketBounded(steps: seq<TaskStep>, taskId: int, bound: int)
    requires forall k :: 0 <= k < |steps| ==> OrderIndex(steps[k]) <= bound
    ensures forall k :: 0 <= k < |Bucket(steps, taskId)| ==> OrderIndex(Bucket(steps, taskId)[k]) <= bound
  {
    if steps != [] {
      var n := |steps| - 1;
      BucketBounded(steps[..n], taskId, bound);
    }
  }

  /** A bucket keeps the order of the steps it was filled from. */
  lemma {:induction false} BucketSorted(steps: seq<TaskStep>, taskId: int)
    requires SortedBy(steps, OrderIndex)
    ensures SortedBy(Bucket(steps, taskId), OrderIndex)
  {
    if steps != [] {
      var n := |steps| - 1;
      var prefix := steps[..n];
      assert SortedBy(prefix, OrderIndex);
      BucketSorted(prefix, taskId);
      BucketBounded(prefix, taskId, OrderIndex(steps[n]));
    }
  }

  /** A step lies in the bucket of its own task and in no other. */
  lemma BucketsAreDisjoint(steps: seq<TaskStep>, i: int, taskId: int)
    requires 0 <= i < |steps| && taskId != steps[i].taskId
    ensures steps[i] in Bucket(steps, steps[i].taskId)
    ensures steps[i] !in Bucket(steps, taskId)
  {
  }

  /** The buckets built by one pass over `steps`, skipping falsy task ids. */
  function Grouped(steps: seq<TaskStep>): (r: map<int, seq<TaskStep>>)
    ensures 0 !in r
    ensures forall id :: id in r ==> r[id] != [] && forall k :: 0 <= k < |r[id]| ==> r[id][k].taskId == id
  {
    if steps == [] then map[]
    else
      var n := |steps| - 1;
      var m := Grouped(steps[..n]);
      var id := steps[n].taskId;
      if id == 0 then m
      else m[id := (if id in m then m[id] else []) + [steps[n]]]
  }

  /** The pass puts every step with a truthy task id into exactly its own bucket. */
  lemma {:induction false} GroupedIsBuckets(steps: seq<TaskStep>)
    ensures forall id :: id in Grouped(steps) <==> id != 0 && Bucket(steps, id) != []
    ensures forall id :: id in Grouped(steps) ==> Grouped(steps)[id] == Bucket(steps, id)
  {
    if steps != [] {
      var n := |steps| - 1;
      GroupedIsBuckets(steps[..n]);
    }
  }

  /** The `stepsByTaskId` loop: one bucket per truthy task id, filled in input order. */
  method GroupStepsByTask(steps: seq<TaskStep>) returns (m: map<int, seq<TaskStep>>)
    ensures forall id :: id in m <==> id != 0 && Bucket(steps, id) != []
    ensures forall id :: id in m ==> m[id] == Bucket(steps, id)
  {
    m := map[];
    for i := 0 to |steps|
      invariant m == Grouped(steps[..i])
    {
      var step := steps[i];
      assert steps[..i + 1][..i] == steps[..i];
      if step.taskId != 0 {
        var bucket := if step.taskId in m then m[step.taskId] else [];
        m := m[step.taskId := bucket + [step]];
      }
    }
    assert steps[..|steps|] == steps;
    GroupedIsBuckets(steps);
  }

  /** What one listed task carries: exactly its own steps, ordered by index. */
  function StepsForTask(tasks: seq<Task>, steps: seq<TaskStep>, userId: int, taskId: int): (r: seq<TaskStep>)
    ensures SortedBy(r, OrderIndex)
    ensures forall s :: multiset(r)[s] ==
              if s.taskId == taskId && taskId in OwnedTaskIds(tasks, userId) then multiset(steps)[s] else 0
    ensures forall k :: 0 <= k < |r| ==> r[k].taskId == taskId && r[k] in steps
    ensures taskId in OwnedTaskIds(tasks, userId) ==>
              forall k :: 0 <= k < |steps| && steps[k].taskId == taskId ==> steps[k] in r
  {
    var joined := CallerSteps(tasks, steps, userId);
    BucketSorted(joined, taskId);
    BucketIsFilter(joined, taskId);
    FilterCounts(joined, (s: TaskStep) => s.taskId == taskId);
    Bucket(joined, taskId)
  }

  /** GET /tasks: the caller's tasks, newest first, each with its steps (none for a falsy id). */
  method ListTasks(tasks: seq<Task>, steps: seq<TaskStep>, userId: int) returns (r: seq<TaskWithSteps>)
    ensures |r| == |CallerTasks(tasks, userId)|
    ensures forall k :: 0 <= k < |r| ==> r[k].task == CallerTasks(tasks, userId)[k]
    ensures forall k :: 0 <= k < |r| ==>
              r[k].steps == if r[k].task.id == 0 then [] else StepsForTask(tasks, steps, userId, r[k].task.id)
  {
    var owned := CallerTasks(tasks, userId);
    var ownedSteps := CallerSteps(tasks, steps, userId);
    var byTask := GroupStepsByTask(ownedSteps);
    r := seq(|owned|, k requires 0 <= k < |owned| =>
           TaskWithSteps(owned[k], if owned[k].id in byTask then byTask[owned[k].id] else []));
    forall k | 0 <= k < |r| && r[k].task.id != 0
      ensures r[k].steps == StepsForTask(tasks, steps, userId, r[k].task.id)
    {
      ListedSteps(tasks, steps, userId, byTask, owned[k].id);
    }
  }

  /** What the grouping map holds for a truthy id is that task's steps (none when it has no bucket). */
  lemma ListedSteps(tasks: seq<Task>, steps: seq<TaskStep>, userId: int, byTask: map<int, seq<TaskStep>>, taskId: int)
    requires taskId != 0
    requires taskId in byTask <==> Bucket(CallerSteps(tasks, steps, userId), taskId) != []
    requires taskId in byTask ==> byTask[taskId] == Bucket(CallerSteps(tasks, steps, userId), taskId)
    ensures (if taskId in byTask then byTask[taskId] else []) == StepsForTask(tasks, steps, userId, taskId)
  {
  }

  // ---------------------------------------------------------------------------
  // GET /reflection-logs

  datatype ReflectionLog = ReflectionLog(id: int, createdAt: int, taskId: int, emojiRating: int,
                                         reflectionText: string, sentiment: Sentiment.Sentiment, taskTitle: string)

  /** A reflection's row in the log, next to its task's title. */
  function LogEntry(x: Reflection, title: string): ReflectionLog {
    ReflectionLog(x.id, x.createdAt, x.taskId, x.emojiRating, x.reflectionText, x.sentiment, title)
  }

  /** The reflection a log row was read from. */
  function LoggedReflection(e: ReflectionLog): Reflection {
    Reflection(e.id, e.taskId, e.emojiRating, e.reflectionText, e.sentiment, e.createdAt)
  }

  /** `reflections JOIN tasks ON tasks.id = taskId WHERE tasks.userId = userId`, in storage order. */
  function JoinTitles(reflections: seq<Reflection>, tasks: seq<Task>, userId: int): (r: seq<ReflectionLog>)
    ensures forall k :: 0 <= k < |r| ==>
              && LoggedReflection(r[k]) in reflections
              && FindTask(tasks, r[k].taskId, userId).Some?
              && r[k].taskTitle == FindTask(tasks, r[k].taskId, userId).value.title
    ensures forall k :: 0 <= k < |reflections| && FindTask(tasks, reflections[k].taskId, userId).Some? ==>
              LogEntry(reflections[k], FindTask(tasks, reflections[k].taskId, userId).value.title) in r
  {
    if reflections == [] then []
    else
      var n := |reflections| - 1;
      var x := reflections[n];
      assert forall k :: 0 <= k < n ==> reflections[k] == reflections[..n][k];
      JoinTitles(reflections[..n], tasks, userId) +
        match FindTask(tasks, x.taskId, userId)
        case Some(t) => [LogEntry(x, t.title)]
        case None => []
  }

  /** A reflection is logged when the caller owns its task. */
  function OnOwnedTask(tasks: seq<Task>, userId: int): Reflection -> bool {
    (x: Reflection) => FindTask(tasks, x.taskId, userId).Some?
  }

  /**
   * The join is the reflections on the caller's tasks, in storage order and each
   * once per occurrence, every one next to its task's title.
   */
  lemma {:induction false} JoinTitlesIsFilteredLog(reflections: seq<Reflection>, tasks: seq<Task>, userId: int)
    ensures var kept := Filter(reflections, OnOwnedTask(tasks, userId));
      && |JoinTitles(reflections, tasks, userId)| == |kept|
      && forall k :: 0 <= k < |kept| ==>
           JoinTitles(reflections, tasks, userId)[k] == LogEntry(kept[k], FindTask(tasks, kept[k].taskId, userId).value.title)
  {
    if reflections != [] {
      var n := |reflections| - 1;
      var p := OnOwnedTask(tasks, userId);
      var kept, front := Filter(reflections[..n], p), JoinTitles(reflections[..n], tasks, userId);
      JoinTitlesIsFilteredLog(reflections[..n], tasks, userId);
      FilterLast(reflections, p);
      JoinTitlesLast(reflections, tasks, userId);
      forall k | 0 <= k < |Filter(reflections, p)|
        ensures JoinTitles(reflections, tasks, userId)[k]
             == LogEntry(Filter(reflections, p)[k], FindTask(tasks, Filter(reflections, p)[k].taskId, userId).value.title)
      {
        if k < |kept| {
          assert Filter(reflections, p)[k] == kept[k];
          assert JoinTitles(reflections, tasks, userId)[k] == front[k];
        }
      }
    }
  }

  /** Unfolding the join at its last reflection. */
  lemma JoinTitlesLast(reflections: seq<Reflection>, tasks: seq<Task>, userId: int)
    requires reflections != []
    ensures var n := |reflections| - 1;
      JoinTitles(reflections, tasks, userId) ==
        JoinTitles(reflections[..n], tasks, userId)
        + if OnOwnedTask(tasks, userId)(reflections[n])
          then [LogEntry(reflections[n], FindTask(tasks, reflections[n].taskId, userId).value.title)]
          else []
  {
  }

  function NewestLogFirst(e: ReflectionLog): int {
    -e.createdAt
  }

  /**
   * GET /reflection-logs: every reflection on a task the caller owns, with that
   * task's title, newest first; reflections on other users' tasks are left out.
   */
  function ReflectionLogs(reflections: seq<Reflection>, tasks: seq<Task>, userId: int): (r: seq<ReflectionLog>)
    ensures SortedBy(r, NewestLogFirst)
    ensures multiset(r) == multiset(JoinTitles(reflections, tasks, userId))
    ensures forall k :: 0 <= k < |r| ==>
              && LoggedReflection(r[k]) in reflections
              && FindTask(tasks, r[k].taskId, userId).Some?
              && r[k].taskTitle == FindTask(tasks, r[k].taskId, userId).value.title
    ensures forall k :: 0 <= k < |reflections| && FindTask(tasks, reflections[k].taskId, userId).Some? ==>
              LogEntry(reflections[k], FindTask(tasks, reflections[k].taskId, userId).value.title) in r
  {
    var joined := JoinTitles(reflections, tasks, userId);
    SortByMembers(joined, NewestLogFirst);
    SortBy(joined, NewestLogFirst)
  }

  // ---------------------------------------------------------------------------
  // GET /collectibles/user-collection

  datatype CollectionEntry = CollectionEntry(userCollectibleId: int, quantity: Option<int>, purchasedAt: int,
                                             collectibleTypeId: int, name: string, description: string,
                                             emoji: string, cost: int)

  function Entry(row: UserCollectible, c: CollectibleType): CollectionEntry {
    CollectionEntry(row.id, row.quantity, row.purchasedAt, c.id, c.name, c.description, c.emoji, c.cost)
  }

  /** The collection row an entry was read from, given whose collection it is. */
  function CollectedRow(e: CollectionEntry, userId: int): UserCollectible {
    UserCollectible(e.userCollectibleId, userId, e.collectibleTypeId, e.quantity, e.purchasedAt)
  }

  /** `userCollectibles JOIN collectibleTypes ON collectibleTypes.id = collectibleTypeId WHERE userId = userId`. */
  function JoinCatalog(rows: seq<UserCollectible>, catalog: seq<CollectibleType>, userId: int): (r: seq<CollectionEntry>)
    ensures forall k :: 0 <= k < |r| ==>
              && CollectedRow(r[k], userId) in rows
              && FindCollectibleType(catalog, r[k].collectibleTypeId).Some?
              && r[k] == Entry(CollectedRow(r[k], userId), FindCollectibleType(catalog, r[k].collectibleTypeId).value)
    ensures forall k :: 0 <= k < |rows| && rows[k].userId == userId && FindCollectibleType(catalog, rows[k].collectibleTypeId).Some? ==>
              Entry(rows[k], FindCollectibleType(catalog, rows[k].collectibleTypeId).value) in r
  {
    if rows == [] then []
    else
      var n := |rows| - 1;
      var row := rows[n];
      assert forall k :: 0 <= k < n ==> rows[k] == rows[..n][k];
      JoinCatalog(rows[..n], catalog, userId) +
        if row.userId != userId then []
        else
          match FindCollectibleType(catalog, row.collectibleTypeId)
          case Some(c) => [Entry(row, c)]
          case None => []
  }

  /** A collection row is listed when it is the caller's and its type exists. */
  function InCallerCatalog(catalog: seq<CollectibleType>, userId: int): UserCollectible -> bool {
    (row: UserCollectible) => row.userId == userId && FindCollectibleType(catalog, row.collectibleTypeId).Some?
  }

  /**
   * The join is the caller's rows whose type exists, in storage order and each once
   * per occurrence, every one next to its type's fields.
   */
  lemma {:induction false} JoinCatalogIsFilteredRows(rows: seq<UserCollectible>, catalog: seq<CollectibleType>, userId: int)
    ensures var kept := Filter(rows, InCallerCatalog(catalog, userId));
      && |JoinCatalog(rows, catalog, userId)| == |kept|
      && forall k :: 0 <= k < |kept| ==>
           JoinCatalog(rows, catalog, userId)[k] == Entry(kept[k], FindCollectibleType(catalog, kept[k].collectibleTypeId).value)
  {
    if rows != [] {
      var n := |rows| - 1;
      var p := InCallerCatalog(catalog, userId);
      var kept, front := Filter(rows[..n], p), JoinCatalog(rows[..n], catalog, userId);
      JoinCatalogIsFilteredRows(rows[..n], catalog, userId);
      FilterLast(rows, p);
      JoinCatalogLast(rows, catalog, userId);
      forall k | 0 <= k < |Filter(rows, p)|
        ensures JoinCatalog(rows, catalog, userId)[k]
             == Entry(Filter(rows, p)[k], FindCollectibleType(catalog, Filter(rows, p)[k].collectibleTypeId).value)
      {
        if k < |kept| {
          assert Filter(rows, p)[k] == kept[k];
          assert JoinCatalog(rows, catalog, userId)[k] == front[k];
        }
      }
    }
  }

  /** Unfolding the join at its last row. */
  lemma JoinCatalogLast(rows: seq<UserCollectible>, catalog: seq<CollectibleType>, userId: int)
    requires rows != []
    ensures var n := |rows| - 1;
      JoinCatalog(rows, catalog, userId) ==
        JoinCatalog(rows[..n], catalog, userId)
        + if InCallerCatalog(catalog, userId)(rows[n])
          then [Entry(rows[n], FindCollectibleType(catalog, rows[n].collectibleTypeId).value)]
          else []
  {
  }

  function NewestPurchaseFirst(e: CollectionEntry): int {
    -e.purchasedAt
  }

  /**
   * GET /collectibles/user-collection: the caller's rows whose type exists, each with
   * the type's name, description, emoji and cost, most recently bought first.
   */
  function UserCollection(rows: seq<UserCollectible>, catalog: seq<CollectibleType>, userId: int): (r: seq<CollectionEntry>)
    ensures SortedBy(r, NewestPurchaseFirst)
    ensures multiset(r) == multiset(JoinCatalog(rows, catalog, userId))
    ensures forall k :: 0 <= k < |r| ==>
              && CollectedRow(r[k], userId) in rows
              && FindCollectibleType(catalog, r[k].collectibleTypeId).Some?
              && r[k] == Entry(CollectedRow(r[k], userId), FindCollectibleType(catalog, r[k].collectibleTypeId).value)
    ensures forall k :: 0 <= k < |rows| && rows[k].userId == userId && FindCollectibleType(catalog, rows[k].collectibleTypeId).Some? ==>
              Entry(rows[k], FindCollectibleType(catalog, rows[k].collectibleTypeId).value) in r
  {
    var joined := JoinCatalog(rows, catalog, userId);
    SortByMembers(joined, NewestPurchaseFirst);
    SortBy(joined, NewestPurchaseFirst)
  }

  // ---------------------------------------------------------------------------
  // Reads after a clear

  /** After clearing, the caller's task list and reflection log are empty. */
  lemma ClearedUserSeesNothing(tasks: seq<Task>, reflections: seq<Reflection>, userId: int)
    ensures CallerTasks(TasksNotOwnedBy(tasks, userId), userId) == []
    ensures ReflectionLogs(ReflectionsOutside(reflections, OwnedTaskIds(tasks, userId)), TasksNotOwnedBy(tasks, userId), userId) == []
  {
  }
}
