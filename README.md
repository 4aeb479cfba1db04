# KAIKOON task app: a verified model of its core

KAIKOON is a task-tracking web app for students. A user creates tasks with steps and ticks them off. Finishing a task or writing a reflection on it earns 15 Kaiblooms points. Points buy plants for a collection. Each reflection is tagged POSITIVE, NEGATIVE or NEUTRAL, by a chain of hosted sentiment models or, failing those, by a keyword rule.

This project models the logic behind that, in Dafny, and proves what it promises. It has four parts:

- `sentiment.dfy` (module `Sentiment`) is the reflection classifier:
  - the keyword rule, written as the source's two counting loops and proved equal to a recursive definition;
  - the normalisation of an inference response (unwrap one level of nesting, keep the valid `{label, score}` entries, take the top score with the later entry winning a tie, look up the lower-cased label);
  - the ordered chain of four models with its fallback, written as the source's indexed loop.
- `store.dfy` (module `Store`) is the database and every endpoint that changes it. `class Database` keeps one field per table. Each endpoint is a method taking the caller's user id and returning `Ok(status, value)` or `Err(status, message)`. The endpoints are:
  - purchase;
  - task create and task update;
  - reflection create;
  - clear-data;
  - get-or-create of progress and of settings;
  - the catalog with its lazy seed;
  - the partial settings update.

  Each endpoint runs in one transaction, so every error path is proved to leave the tables unchanged. A class invariant `Valid()` is kept by every method:
  - ids are positive and below the id counter;
  - collection row ids are distinct;
  - balances are never negative;
  - break intervals stay within 15 to 60 minutes.
- `queries.dfy` (module `Queries`) holds the read-side endpoints:
  - the caller's tasks with their steps, including the `stepsByTaskId` grouping loop;
  - the reflection log joined with task titles;
  - the collection joined with the catalog.
- `schemas.dfy` (module `Schemas`) holds the zod request schemas. Each is a parser from a JSON value to a typed input, with a round-trip lemma for the reflection, task-creation, task-update and settings bodies (the purchase body is a single positive id). The module also has the shared client call: validate first, then turn a failed response into the thrown message.
- `client.dfy` (module `Client`) holds the browser helpers:
  - `formatTimeAgo`;
  - the class picker's toggle;
  - the add-task dialog's step list and submission;
  - the first-run setup rule.
- Supporting modules:
  - `wrappers.dfy`: `Option`;
  - `json.dfy`: the JSON value;
  - `text.dfy`: ASCII lower-casing, substring search and trimming;
  - `seqs.dfy`: filter and a stable sort by an integer key, with their lemmas.

The network, the clock and the API token are parameters:
- Each sentiment model's outcome is given as `Failed` or `Payload(json)`.
- Timestamps are integers supplied by the caller.
- `hasToken` stands for the presence of the token.

The label table in `endpoints/reflections_POST.ts` (lines 152-206) maps `LABEL_0` to NEGATIVE, `LABEL_1` to POSITIVE and `LABEL_2` to NEUTRAL. The lookup at line 211 lower-cases the label first, so these upper-case keys are never reached, and a generic classifier's `LABEL_0` comes out NEUTRAL. The model keeps both the table and the lower-casing as written, and proves the consequence (`Sentiment.UpperCaseKeysUnreachable`, `Sentiment.GenericLabelsAreNeutral`).

## Model

| member | source | states |
|---|---|---|
| Sentiment.MatchCountIsOccurringWords | endpoints/reflections_POST.ts:38-44 | the count is the number of keywords that occur in the text; a keyword occurring many times counts once |
| Sentiment.MatchCount | endpoints/reflections_POST.ts:38-44 | the count is at most the number of keywords, and positive iff some keyword occurs in the text |
| Sentiment.KeywordSentimentCountsKeywords | endpoints/reflections_POST.ts:18-52 | the keyword answer is the verdict on how many positive and how many negative keywords the lower-cased text contains |
| Sentiment.Verdict | endpoints/reflections_POST.ts:46-52 | POSITIVE iff more positive keywords occur, NEGATIVE iff more negative ones, NEUTRAL iff the counts are equal |
| Sentiment.RuleBasedSentiment | endpoints/reflections_POST.ts:18-53 | the two counting loops over the keyword lists return the keyword verdict on the lower-cased text |
| Sentiment.KeywordSentimentIgnoresCase | endpoints/reflections_POST.ts:19 | the keyword rule gives a text and its lower-cased form the same answer |
| Sentiment.FunnyCountsFun | endpoints/reflections_POST.ts:38-40 | matching is by substring after lower-casing: "FUNNY" contains the keyword "fun" |
| Sentiment.AsClassification | endpoints/reflections_POST.ts:139-142 | an entry is kept iff it is an object with a string `label` and a numeric `score`, and it keeps those two values |
| Sentiment.ValidEntries | endpoints/reflections_POST.ts:139-142 | every kept entry comes from the response, and every valid entry of the response is kept |
| Sentiment.ValidEntriesInOrder | endpoints/reflections_POST.ts:139-142 | the kept entries are exactly the well-formed entries of the response, in response order and once per occurrence |
| Sentiment.TopIndex | endpoints/reflections_POST.ts:149 | the reduction keeps an entry of maximal score that every later entry scores strictly below |
| Sentiment.TopIndexIsLastMaximum | endpoints/reflections_POST.ts:149 | the entry chosen is exactly the last of the maximal entries |
| Sentiment.Unwrap | endpoints/reflections_POST.ts:131-135 | an array whose first element is an array is replaced by that element; anything else is kept |
| Sentiment.LookupLabel | endpoints/reflections_POST.ts:211 | a non-NEUTRAL answer is what the array table gives for the lower-cased label; a miss is NEUTRAL |
| Sentiment.LookupSingleLabel | endpoints/reflections_POST.ts:230 | a non-NEUTRAL answer is what the single-object table gives for the lower-cased label; a miss is NEUTRAL |
| Sentiment.SingleLabelMapping | endpoints/reflections_POST.ts:222-229 | POSITIVE, NEGATIVE and NEUTRAL exactly for their own names in upper or lower case, nothing for any other key |
| Sentiment.LabelTablesAgree | endpoints/reflections_POST.ts:152-206 | wherever the single-object table answers, the array table gives the same sentiment |
| Sentiment.LookupsAgree | endpoints/reflections_POST.ts:211-230 | for a sentiment name in any case, the array lookup and the single-object lookup agree |
| Sentiment.LookupIgnoresCase | endpoints/reflections_POST.ts:211-230 | a label and its lower-cased form get the same answer from both lookups |
| Sentiment.EntrySentiment | endpoints/reflections_POST.ts:209-215 | the winning entry reads as the lookup of its label; the guard for an empty label changes nothing |
| Sentiment.NormaliseCases | endpoints/reflections_POST.ts:130-239 | an array with valid entries reads as the label of the entry the reduction keeps; an object with a string label reads through the single-object table; anything else is NEUTRAL |
| Sentiment.NoValidEntryIsNeutral | endpoints/reflections_POST.ts:144-146 | an array response without a single valid entry is NEUTRAL |
| Sentiment.UpperCaseKeysUnreachable | endpoints/reflections_POST.ts:211 | a lower-cased label never equals `LABEL_0`, `LABEL_1`, `LABEL_2`, `POSITIVE`, `NEGATIVE` or `NEUTRAL` |
| Sentiment.GenericLabelsAreNeutral | endpoints/reflections_POST.ts:169-172 | `LABEL_0`, `LABEL_1` and `LABEL_2` all come out NEUTRAL |
| Sentiment.TwoValidEntries | endpoints/reflections_POST.ts:139-142 | both well-formed entries of a two-entry response are kept, in order |
| Sentiment.TwoEntryTop | endpoints/reflections_POST.ts:149 | of two entries the reduction keeps the second unless the first scores strictly higher |
| Sentiment.TwoEntryResponse | endpoints/reflections_POST.ts:137-215 | a two-entry response is decided by the second entry's label unless the first scores strictly higher |
| Sentiment.NestedResponse | endpoints/reflections_POST.ts:131-135 | a response wrapped in one extra array reads the same as the inner array |
| Sentiment.FiveStarsIsPositive | endpoints/reflections_POST.ts:130-162 | a nested star-rating response whose top entry is "5 stars" is POSITIVE |
| Sentiment.FiveStarsLabel | endpoints/reflections_POST.ts:162 | the label "5 stars" maps to POSITIVE |
| Sentiment.NegativeLabel | endpoints/reflections_POST.ts:174 | the label "negative" maps to NEGATIVE |
| Sentiment.TieGoesToLaterEntry | endpoints/reflections_POST.ts:149 | "positive" and "negative" with equal scores give NEGATIVE, the later entry |
| Sentiment.UnusableResponsesAreNeutral | endpoints/reflections_POST.ts:219-239 | a null, boolean, number or string response, an empty array, or an object without `label` is NEUTRAL |
| Sentiment.AnalyzeSentiment | endpoints/reflections_POST.ts:55-266 | without a token the answer is the keyword rule's; with one it is the first model's answer that arrived, else the keyword rule's |
| Sentiment.ChainAnswerSource | endpoints/reflections_POST.ts:114-266 | the answer is the keyword rule's or the normalised payload of some model that answered |
| Sentiment.AllFailedFallsBack | endpoints/reflections_POST.ts:114-121 | when every model fails the answer is the keyword rule's |
| Sentiment.FirstAnswerDecides | endpoints/reflections_POST.ts:124-242 | the first model that answers alone decides, even with an unusable payload, whatever the later models would say |
| Store.FindTask | endpoints/reflections_POST.ts:272-277 | finds a task with that id owned by that user; none iff no such task exists |
| Store.FindCollectibleType | endpoints/collectibles/purchase_POST.ts:16-20 | finds the catalog row with that id; none iff no row has it |
| Store.Award | endpoints/reflections_POST.ts:302-309 | the caller's points rise by exactly 15, null stays null, a missing row is not created, and other users' rows are unchanged |
| Store.FindOwnedCollectible | endpoints/collectibles/purchase_POST.ts:53-58 | the first collection row of that user and type; none iff there is none |
| Store.SetQuantity | endpoints/collectibles/purchase_POST.ts:60-69 | the row with that id gets the new quantity and purchase time and keeps its owner and type; every other row is unchanged |
| Store.AddToCollection | endpoints/collectibles/purchase_POST.ts:53-81 | the table keeps its length iff the user already owns that type, else grows by one; either way a row of that user and type carries the purchase time |
| Store.AddToCollectionIncrements | endpoints/collectibles/purchase_POST.ts:60-69 | an owned row's quantity rises by exactly one (null read as 0), no row is added and no other row changes |
| Store.AddToCollectionInserts | endpoints/collectibles/purchase_POST.ts:70-81 | without an owned row exactly one row with quantity 1 is appended |
| Store.AddToCollectionKeepsOthers | endpoints/collectibles/purchase_POST.ts:53-81 | other users' collection rows are never touched |
| Store.AddToCollectionKeepsIdsValid | endpoints/collectibles/purchase_POST.ts:72-80 | the upsert keeps collection ids distinct and below the next id |
| Store.StepRows | endpoints/tasks_POST.ts:35-41 | the i-th input step becomes an open step of the new task with order index i, in input order |
| Store.SetTaskCompleted | endpoints/tasks/update_POST.ts:19-24 | the table keeps its length, ids and owners; the rows with that id and owner take the new flag and keep every other column; all other rows are unchanged |
| Store.SetTaskCompletedKeepsOwnership | endpoints/tasks/update_POST.ts:19-56 | setting the flag neither adds nor removes the caller's task, and the task read back carries the new flag |
| Store.SetStepCompleted | endpoints/tasks/update_POST.ts:41-46 | the rows with that id on that task take the new flag and keep every other column; all other rows are unchanged |
| Store.ApplyStepUpdates | endpoints/tasks/update_POST.ts:40-47 | the updates applied in list order keep the length and every row's id |
| Store.UpdateSteps | endpoints/tasks/update_POST.ts:39-47 | the per-step update loop applies the updates in list order |
| Store.LastUpdateFor | endpoints/tasks/update_POST.ts:40-47 | the position of the last update naming an id, none iff no update names it |
| Store.LastUpdateWins | endpoints/tasks/update_POST.ts:40-47 | a step of the task carries the flag of the last update naming it; steps of other tasks and unnamed steps are unchanged |
| Store.StepsOf | endpoints/tasks/update_POST.ts:58-63 | the steps of the task, each as often as in the table, ordered by order index |
| Store.ReflectionsOutside | endpoints/settings/clear-data_POST.ts:10-17 | the reflections not on one of the given tasks, each as often as in the table and in table order |
| Store.StepsOutside | endpoints/settings/clear-data_POST.ts:20-27 | the steps not of one of the given tasks, each as often as in the table and in table order |
| Store.TasksNotOwnedBy | endpoints/settings/clear-data_POST.ts:30-33 | the tasks the caller does not own, each as often as in the table and in table order |
| Store.ResetPoints | endpoints/settings/clear-data_POST.ts:36-40 | the caller's points become 0 if a row exists; no row is created and other rows are unchanged |
| Store.EnsureProgress | endpoints/user-progress_GET.ts:12-28 | an existing row is kept; a missing one is inserted with 0 points; no other row changes |
| Store.EnsureProgressIdempotent | endpoints/user-progress_GET.ts:12-28 | a second read inserts nothing and returns the same row |
| Store.DefaultSettings | endpoints/settings_GET.ts:24-41 | no grade, classes or playlist, the six toggles off, a 30-minute interval |
| Store.EnsureSettings | endpoints/settings_GET.ts:16-42 | an existing row is kept; a missing one is inserted with the defaults |
| Store.EnsureSettingsIdempotent | endpoints/settings_GET.ts:16-42 | a second read inserts nothing |
| Store.Put | endpoints/settings_POST.ts:16-19 | an absent key keeps the stored value; a present key overwrites it, null included |
| Store.ApplyPatch | endpoints/settings_POST.ts:14-22 | the patched columns take the sent values, the rest keep theirs, and the timestamp is refreshed |
| Store.EmptyPatchOnlyTouchesTimestamp | endpoints/settings_POST.ts:16-19 | an update naming no field changes nothing but the timestamp |
| Store.ApplyPatchKeepsIntervalValid | endpoints/settings_POST.schema.ts:14 | a validated update keeps the stored interval within 15 to 60 minutes |
| Store.SeedCatalog | endpoints/collectibles_GET.ts:7-13 | five plants with consecutive fresh ids, costing 50, 100, 150, 200 and 250 |
| Store.SeededCatalogInSeedOrder | endpoints/collectibles_GET.ts:7-31 | a freshly seeded catalog ordered by cost comes back in seed order |
| Store.Database.Purchase | endpoints/collectibles/purchase_POST.ts:14-93 | status 400 with "Collectible not found.", "User progress not found." or "Insufficient Kaiblooms points." (null points read as 0), each changing nothing, and it fails for no other reason: a known type, an existing progress row and a balance at least the cost always succeed; then the points become exactly balance minus cost (never negative), `newPoints` equals them, and the collection is upserted; other tables are untouched |
| Store.Database.CreateTask | endpoints/tasks_POST.ts:16-58 | status 201; an open task owned by the caller with the given title and estimate, and its steps numbered 0.. in input order; without steps nothing else is inserted |
| Store.Database.UpdateTask | endpoints/tasks/update_POST.ts:16-75 | fails with status 400 and every change rolled back iff the task is missing or not the caller's; otherwise sets the flag, awards 15 points on `true`, applies the step updates in order, and returns the task with its steps by order index |
| Store.Database.SetCompletion | endpoints/tasks/update_POST.ts:18-35 | the caller's task flag is set, and 15 points are awarded only for `true` |
| Store.Database.SetStepFlags | endpoints/tasks/update_POST.ts:39-47 | the step table becomes the updates applied in order; nothing else changes |
| Store.Database.Restore | endpoints/tasks/update_POST.ts:16-66 | the transaction's rollback gives the three written tables their earlier contents |
| Store.Database.CreateReflection | endpoints/reflections_POST.ts:268-339 | status 500 with "Failed to create reflection: Task not found or access denied." and no change unless the caller owns the task; otherwise one reflection with the classifier's sentiment is appended (status 201) and 15 points are awarded if a progress row exists |
| Store.Database.ClearUserData | endpoints/settings/clear-data_POST.ts:8-41 | the caller's reflections, steps and tasks are deleted and the caller's points reset; collection, settings and catalog are untouched |
| Store.Database.DeleteReflections | endpoints/settings/clear-data_POST.ts:10-17 | the reflections of the given tasks are deleted; nothing else changes |
| Store.Database.DeleteSteps | endpoints/settings/clear-data_POST.ts:20-27 | the steps of the given tasks are deleted; nothing else changes |
| Store.Database.DeleteTasks | endpoints/settings/clear-data_POST.ts:30-33 | the caller's tasks are deleted; nothing else changes |
| Store.Database.ResetBalance | endpoints/settings/clear-data_POST.ts:36-40 | the caller's balance is zeroed; nothing else changes |
| Store.Database.ClearData | endpoints/settings/clear-data_POST.ts:43-57 | a method other than POST gets 405 "Method Not Allowed" and no change; POST clears the caller's data and reports success |
| Store.Database.GetProgress | endpoints/user-progress_GET.ts:12-28 | returns the caller's row, inserting one with 0 points if missing; with a row present nothing changes |
| Store.Database.GetSettings | endpoints/settings_GET.ts:7-44 | a method other than GET gets 405 and no change; otherwise returns the caller's row, inserting the defaults if missing |
| Store.Database.UpdateSettings | endpoints/settings_POST.ts:14-28 | without a row: status 400 and no change; otherwise only the caller's row is patched and returned |
| Store.Database.Seed | endpoints/collectibles_GET.ts:15-19 | an empty catalog receives exactly the five seed plants |
| Store.Database.GetCollectibles | endpoints/collectibles_GET.ts:23-32 | seeds only an empty catalog, returns the catalog sorted by cost, and leaves it non-empty, so a later call seeds nothing |
| Queries.CallerTasks | endpoints/tasks_GET.ts:14-18 | the caller's tasks, each as often as in the table, newest first |
| Queries.CallerSteps | endpoints/tasks_GET.ts:20-25 | the steps of the caller's tasks, each as often as in the table, by order index |
| Queries.Bucket | endpoints/tasks_GET.ts:29-36 | a bucket holds exactly the steps with its task id |
| Queries.BucketSorted | endpoints/tasks_GET.ts:29-36 | a bucket filled from steps already sorted by order index is itself sorted by order index |
| Queries.BucketIsFilter | endpoints/tasks_GET.ts:29-36 | a bucket is exactly the steps with its task id, in the order they were met |
| Queries.BucketsAreDisjoint | endpoints/tasks_GET.ts:29-36 | each step lies in its own task's bucket and in no other |
| Queries.GroupedIsBuckets | endpoints/tasks_GET.ts:28-36 | the pass builds a bucket for exactly the truthy task ids that occur, each holding that task's steps in order |
| Queries.Grouped | endpoints/tasks_GET.ts:28-36 | no bucket for the falsy id 0, no empty bucket, and every bucket holds only steps with its own task id |
| Queries.GroupStepsByTask | endpoints/tasks_GET.ts:28-36 | the grouping loop skips falsy task ids and fills one bucket per task in input order |
| Queries.StepsForTask | endpoints/tasks_GET.ts:20-41 | a listed task carries its own steps, each as often as in the table, ordered by order index |
| Queries.ListTasks | endpoints/tasks_GET.ts:14-42 | one entry per caller task (each as often as in the table), newest first, each carrying exactly its own steps by order index (a task with the falsy id 0 gets none) |
| Queries.JoinTitles | endpoints/reflection-logs_GET.ts:11-23 | every entry is a reflection on a task the caller owns, with that task's title, and every such reflection appears |
| Queries.JoinTitlesIsFilteredLog | endpoints/reflection-logs_GET.ts:11-23 | the join is exactly the reflections on the caller's tasks, in table order, each paired with its task's title |
| Queries.ReflectionLogs | endpoints/reflection-logs_GET.ts:11-25 | the joined log, each entry as often as the join gives it, newest first |
| Queries.JoinCatalog | endpoints/collectibles/user-collection_GET.ts:11-24 | every entry is one of the caller's rows whose type exists, with that type's fields, and every such row appears |
| Queries.JoinCatalogIsFilteredRows | endpoints/collectibles/user-collection_GET.ts:11-24 | the join is exactly the caller's rows whose type exists, in table order, each with that type's fields |
| Queries.UserCollection | endpoints/collectibles/user-collection_GET.ts:11-26 | the joined collection, each entry as often as the join gives it, most recently bought first |
| Queries.ClearedUserSeesNothing | endpoints/settings/clear-data_POST.ts:8-41 | after a clear the caller's task list and reflection log are empty |
| Schemas.AsInt | endpoints/tasks/update_POST.schema.ts:6 | accepts exactly the integral numbers |
| Schemas.AsNonEmptyString | endpoints/reflections_POST.schema.ts:9 | accepts exactly the strings of length at least one, white space included |
| Schemas.ParseReflectionInput | endpoints/reflections_POST.schema.ts:6-10 | a body is accepted iff its task id is a positive integer, its rating an integer from 1 to 5 and its text non-empty, extra keys ignored; the accepted values are read from the body |
| Schemas.ReflectionInputRoundTrip | endpoints/reflections_POST.schema.ts:6-10 | every valid input survives being sent and parsed again |
| Schemas.ParseMaterials | endpoints/tasks_POST.schema.ts:7 | materials are accepted iff absent, null or a string; absent and null give no materials, a string gives that string |
| Schemas.ParseStepInput | endpoints/tasks_POST.schema.ts:5-8 | a step is accepted iff its description is a non-empty string and its materials are accepted; both are read from the body |
| Schemas.ParseSteps | endpoints/tasks_POST.schema.ts:13 | a list is accepted iff every element is, and keeps their order |
| Schemas.ParseTaskInput | endpoints/tasks_POST.schema.ts:10-14 | a body is accepted iff its title is a non-empty string, its estimate a positive integer, and its steps absent or an array whose every element parses; the accepted values are read from the body, and the steps are that array's parse |
| Schemas.StepRoundTrip | endpoints/tasks_POST.schema.ts:5-8 | every valid step survives being sent and parsed again |
| Schemas.StepsRoundTrip | endpoints/tasks_POST.schema.ts:13 | every list of valid steps survives being sent and parsed again, in order |
| Schemas.TaskInputRoundTrip | endpoints/tasks_POST.schema.ts:10-14 | every valid task request survives being sent and parsed again |
| Schemas.ParseStepUpdate | endpoints/tasks/update_POST.schema.ts:5-8 | accepted iff `id` is an integral number and `completed` a boolean, and then exactly those two values |
| Schemas.ParseStepUpdates | endpoints/tasks/update_POST.schema.ts:13 | a list is accepted iff every element is, and keeps their order |
| Schemas.ParseTaskUpdate | endpoints/tasks/update_POST.schema.ts:10-14 | accepted iff the task id is an integral number, `completed` is absent or a boolean, and `steps` is absent or a list of valid updates; the parsed flag and steps are the body's |
| Schemas.NegativeTaskIdIsAccepted | endpoints/tasks/update_POST.schema.ts:11 | a negative task id passes, since only integrality is checked |
| Schemas.StepUpdatesRoundTrip | endpoints/tasks/update_POST.schema.ts:5-13 | every list of step updates survives being sent and parsed again, in order |
| Schemas.TaskUpdateRoundTrip | endpoints/tasks/update_POST.schema.ts:10-14 | every task update survives being sent and parsed again |
| Schemas.ParsePurchaseInput | endpoints/collectibles/purchase_POST.schema.ts:4-6 | accepted iff the type id is a positive integer |
| Schemas.StringField | endpoints/settings_POST.schema.ts:7 | absent iff the key is missing, null iff the value is null, the string iff it is a string; any other value rejects |
| Schemas.BoolField | endpoints/settings_POST.schema.ts:9 | absent iff the key is missing, null iff the value is null, the boolean iff it is a boolean; any other value rejects |
| Schemas.AllStrings | endpoints/settings_POST.schema.ts:8 | accepted iff every element is a string, keeping them in order |
| Schemas.ClassesField | endpoints/settings_POST.schema.ts:8 | absent iff the key is missing, null iff the value is null, the strings in order iff it is an array of strings; any other value rejects |
| Schemas.IntervalField | endpoints/settings_POST.schema.ts:14 | absent iff the key is missing, null iff the value is null, a present interval is the body's whole number from 15 to 60, and every other value rejects |
| Schemas.ParseSettingsPatch | endpoints/settings_POST.schema.ts:6-17 | accepted iff the body is an object and every field parses; each field of the patch is what its field reader gives; a set interval is 15 to 60 |
| Schemas.SettingsPatchRoundTrip | endpoints/settings_POST.schema.ts:6-17 | every patch the schema admits survives being sent and parsed again |
| Schemas.AllStringsRoundTrip | endpoints/settings_POST.schema.ts:8 | a list of strings sent as an array reads back unchanged |
| Schemas.EncodeSettingsPatch | endpoints/settings_POST.schema.ts:6-17 | the sent body is an object holding, under each field's key, that field's encoding: left out when absent, null when cleared |
| Schemas.EmptySettingsPatchIsValid | endpoints/settings_POST.schema.ts:6-17 | the empty object is a valid update that sets nothing |
| Schemas.IntervalOutOfRangeIsRejected | endpoints/settings_POST.schema.ts:14 | an interval below 15, above 60 or fractional rejects the update |
| Schemas.ErrorMessage | endpoints/reflections_POST.schema.ts:27-32 | the thrown message is the body's `error` if it is a string, else "An unknown error occurred" |
| Schemas.ErrorMessageRoundTrip | endpoints/reflections_POST.schema.ts:27-32 | a server's `{error}` message reaches the caller unchanged |
| Schemas.Call | endpoints/reflections_POST.schema.ts:16-34 | nothing is sent unless the input validates; a success yields the body, a failure the extracted message |
| Schemas.PostReflections | endpoints/reflections_POST.schema.ts:16-17 | the call stops before sending iff the input fails the schema |
| Schemas.PostTasks | endpoints/tasks_POST.schema.ts:20-21 | the call stops before sending iff the input fails the schema |
| Schemas.PostTasksUpdate | endpoints/tasks/update_POST.schema.ts:20-21 | the call stops before sending iff the input fails the schema |
| Schemas.PostCollectiblesPurchase | endpoints/collectibles/purchase_POST.schema.ts:15-16 | the call stops before sending iff the input fails the schema |
| Schemas.PostSettings | endpoints/settings_POST.schema.ts:23-24 | the call stops before sending iff the input fails the schema |
| Text.ToLower | endpoints/reflections_POST.ts:19 | same length, each character lower-cased |
| Text.ToLowerIdempotent | endpoints/reflections_POST.ts:19 | lower-casing twice is lower-casing once |
| Text.Contains | endpoints/reflections_POST.ts:39 | true iff the word occurs at some position of the text |
| Text.TrimEmptyIffBlank | components/AddTaskDialog.tsx:71-73 | the trimmed title is empty iff it is all white space, counting every character JavaScript's `trim` removes |
| Text.Trim | components/AddTaskDialog.tsx:71-73 | the result is a slice of the input with only white space around it, and neither starts nor ends with white space |
| Seqs.SortBy | endpoints/collectibles_GET.ts:31 | the result is sorted by the key and is a permutation of the input |
| Client.FormatTimeAgo | helpers/formatTimeAgo.tsx:7-31 | years beyond 31536000 s, months beyond 2592000, days beyond 86400, hours beyond 3600, minutes beyond 60, else "Just now"; the amount is the elapsed seconds divided by that unit, rounded down |
| Client.FormatTimeAgoBounds | helpers/formatTimeAgo.tsx:11-30 | every amount is at least 1, and below the next unit up: at most 60m, 24h, 30d or 12mo |
| Client.FormatTimeAgoIsStrict | helpers/formatTimeAgo.tsx:23-31 | exactly one hour reads "60m ago"; exactly one minute reads "Just now" |
| Client.FutureIsJustNow | helpers/formatTimeAgo.tsx:27-31 | a timestamp in the future reads "Just now" |
| Client.ToggleClass | components/ClassesSelector.tsx:24-28 | a selected class is removed everywhere with the rest kept in order; an unselected one is appended; every other class keeps its count |
| Client.ToggleClassTwice | components/ClassesSelector.tsx:25-27 | toggling an unselected class twice restores the list |
| Client.WithSelection | components/AddTaskDialog.tsx:85-88 | every generated step starts selected |
| Client.ToggleStep | components/AddTaskDialog.tsx:99-105 | the toggle keeps the list's length |
| Client.ChangeDescription | components/AddTaskDialog.tsx:107-115 | the edit keeps the list's length |
| Client.MaterialsOf | components/AddTaskDialog.tsx:121 | empty materials become null |
| Client.ChangeMaterials | components/AddTaskDialog.tsx:117-125 | the edit keeps the list's length |
| Client.ToggleStepTwice | components/AddTaskDialog.tsx:99-105 | a toggle flips one entry only, and a second toggle restores the list |
| Client.EditsTouchOneEntry | components/AddTaskDialog.tsx:107-125 | an edit changes only its entry's text and marks it edited; selection is kept |
| Client.SelectedSteps | components/AddTaskDialog.tsx:139-144 | the submitted steps are at most as many as the entries |
| Client.SelectedStepsAreSelectedEntries | components/AddTaskDialog.tsx:139-144 | the submitted steps are exactly the selected entries, in list order, each cut to its description and materials |
| Client.SelectedStepsEmptyIff | components/AddTaskDialog.tsx:146-149 | nothing is submitted iff nothing is selected |
| Client.SelectedStepsRoundTrip | components/AddTaskDialog.tsx:139-144 | submitting untouched suggestions sends them back exactly |
| Client.DeselectingDropsOneStep | components/AddTaskDialog.tsx:139-144 | unticking one suggestion submits all the others, in order |
| Client.ParseAddTaskForm | components/AddTaskDialog.tsx:43-49 | accepted iff the title is non-empty and the estimate a positive whole number |
| Client.TaskPayload | components/AddTaskDialog.tsx:137-149 | the form values, plus `steps` iff a step is selected, and then exactly the selected steps |
| Client.SubmittedTaskValidates | components/AddTaskDialog.tsx:137-151 | a valid form with non-empty selected descriptions passes the server's schema unchanged |
| Client.CanGenerateSteps | components/AddTaskDialog.tsx:173 | generation is allowed iff the title is not blank and no request is pending |
| Client.GenerateSteps | components/AddTaskDialog.tsx:70-96 | a blank title changes nothing; received suggestions replace the list, all selected, and are submitted back unchanged; a failed request leaves the list as it was |
| Client.NeedsSetup | helpers/useSetupFlow.tsx:31 | false before settings load; true when grade or classes is missing or empty; false when both are non-empty |
| Client.SetupPatch | helpers/useSetupFlow.tsx:20-24 | the setup update passes the settings schema |
| Client.CompleteSetup | helpers/useSetupFlow.tsx:13-29 | success reaches `onSuccess`; a failure hands `onError` the server's message |
| Client.CompletedSetupIsNotNeeded | helpers/useSetupFlow.tsx:20-31 | after the update with a grade and a class, setup is no longer needed and no other setting changed |

## Left out

- HTTP and JSON serialisation (superjson) and authentication are not modelled. Handlers take the caller's user id and an already parsed, typed input. Request parsing is modelled separately, by the parsers in `Schemas`.
- zod's own error messages are not modelled: a rejected body is `None` (or `Invalid` on the client), not a message.
- Logging and the token-prefix warning are left out, because they do not affect any result.
- The network calls to the sentiment service are not modelled. Each model's outcome is a parameter: `Failed` covers a non-OK status, a thrown fetch and an unparsable body.
- `toLowerCase` is modelled on ASCII letters only, because full Unicode case mapping has no counterpart in Dafny's strings.
- Label lookup treats only the table's own keys as hits. A label naming a JavaScript object prototype member (such as `constructor`) would read an inherited property in the source.
- Scores and numbers are Dafny reals, not IEEE doubles, so NaN, infinities and rounding are not modelled.
- The "n ago" text formatting is reduced to an amount and a unit.
- The insert-failure branches ("Task creation failed.", "Failed to create reflection record.", "Failed to find or create user progress record.") are left out, because an insert with `returningAll` returns its row.
- Concurrency is not modelled: each transaction is one atomic step, so races between concurrent purchases or seeds are out of scope.
- Row ids come from one shared counter (`nextId`) rather than one sequence per table. Only freshness and order matter to the properties.
- Rows with equal sort keys keep their storage order. SQL leaves the order of such ties unspecified.
- Inner joins on a primary key are written as a lookup of the first row with that id.
- The step-generation endpoint and its OpenAI call are not part of this model. `GenerateSteps` takes the suggestions as a parameter.
- Store.Database.UpdateSettings: requires a patch that passed the settings schema, as the handler only runs after `schema.parse` succeeds.
- Store.ApplyPatch: its contract names the timestamp, grade, classes and interval; the other seven columns follow `Store.Put` field by field in the body.
