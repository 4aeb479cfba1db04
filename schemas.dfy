/**
 * The request schemas of the POST endpoints, each written as a parser from a JSON
 * body to a typed input (`None` is a validation failure), together with the shared
 * client-side call: validate first, send only what validated, and turn an error
 * response into the message the caller sees.
 */
module Schemas {
  import opened Wrappers
  import opened Json

  // ---------------------------------------------------------------------------
  // Field readers

  /** `z.number().int()`: a number without fractional part. */
  function AsInt(v: Value): (r: Option<int>)
    ensures r.Some? <==> v.JNum? && IsInteger(v.n)
    ensures r.Some? ==> v == JNum(r.value as real)
  {
    if v.JNum? && IsInteger(v.n) then Some(v.n.Floor) else None
  }

  /** `z.string().min(1)`: a string of at least one character (white space counts). */
  function AsNonEmptyString(v: Value): (r: Option<string>)
    ensures r.Some? <==> v.JStr? && |v.s| >= 1
    ensures r.Some? ==> v == JStr(r.value)
  {
    if v.JStr? && |v.s| >= 1 then Some(v.s) else None
  }

  /** An object key that `.optional()` admits: absent, or present with a value. */
  datatype Field<T> = Absent | Present(value: Option<T>)

  // ---------------------------------------------------------------------------
  // reflections_POST.schema.ts

  datatype ReflectionInput = ReflectionInput(taskId: int, emojiRating: int, reflectionText: string)

  predicate ValidReflectionInput(x: ReflectionInput) {
    x.taskId > 0 && 1 <= x.emojiRating <= 5 && |x.reflectionText| >= 1
  }

  function EncodeReflectionInput(x: ReflectionInput): Value {
    JObj(map["taskId" := JNum(x.taskId as real), "emojiRating" := JNum(x.emojiRating as real),
             "reflectionText" := JStr(x.reflectionText)])
  }

  /** A positive integer task id, an integer rating from 1 to 5, and non-empty text. */
  function ParseReflectionInput(body: Value): (r: Option<ReflectionInput>)
    ensures r.Some? ==> ValidReflectionInput(r.value)
    ensures r.Some? ==> (&& Get(body, "taskId") == Some(JNum(r.value.taskId as real))
                         && Get(body, "emojiRating") == Some(JNum(r.value.emojiRating as real))
                         && Get(body, "reflectionText") == Some(JStr(r.value.reflectionText)))
    ensures r.Some? <==> (&& Get(body, "taskId").Some? && AsInt(Get(body, "taskId").value).Some?
                          && AsInt(Get(body, "taskId").value).value > 0
                          && Get(body, "emojiRating").Some? && AsInt(Get(body, "emojiRating").value).Some?
                          && 1 <= AsInt(Get(body, "emojiRating").value).value <= 5
                          && Get(body, "reflectionText").Some?
                          && AsNonEmptyString(Get(body, "reflectionText").value).Some?)
  {
    match (Get(body, "taskId"), Get(body, "emojiRating"), Get(body, "reflectionText"))
    case (Some(t), Some(e), Some(txt)) =>
      (match (AsInt(t), AsInt(e), AsNonEmptyString(txt))
       case (Some(taskId), Some(rating), Some(text)) =>
         if taskId > 0 && 1 <= rating <= 5 then Some(ReflectionInput(taskId, rating, text)) else None
       case _ => None)
    case _ => None
  }

  /** Every valid input survives being sent and parsed again. */
  lemma ReflectionInputRoundTrip(x: ReflectionInput)
    requires ValidReflectionInput(x)
    ensures ParseReflectionInput(EncodeReflectionInput(x)) == Some(x)
  {
  }

  // ---------------------------------------------------------------------------
  // tasks_POST.schema.ts

  datatype StepInput = StepInput(description: string, materials: Option<string>)
  datatype TaskInput = TaskInput(title: string, estimatedMinutes: int, steps: Option<seq<StepInput>>)

  predicate ValidStepInput(s: StepInput) {
    |s.description| >= 1
  }

  predicate ValidTaskInput(x: TaskInput) {
    && |x.title| >= 1
    && x.estimatedMinutes > 0
    && (x.steps.Some? ==> forall k :: 0 <= k < |x.steps.value| ==> ValidStepInput(x.steps.value[k]))
  }

  /** `materials: z.string().nullable().optional()`: absent and null both read as no materials. */
  function ParseMaterials(body: Value): (r: Option<Option<string>>)
    ensures r.Some? <==> (|| Get(body, "materials").None?
                          || Get(body, "materials") == Some(JNull)
                          || Get(body, "materials").value.JStr?)
    ensures r.Some? ==> r.value == (if Get(body, "materials").Some? && Get(body, "materials").value.JStr?
                                    then Some(Get(body, "materials").value.s) else None)
  {
    match Get(body, "materials")
    case None => Some(None)
    case Some(JNull) => Some(None)
    case Some(JStr(m)) => Some(Some(m))
    case Some(_) => None
  }

  /** `stepSchema`: a non-empty description and optional materials. */
  function ParseStepInput(v: Value): (r: Option<StepInput>)
    ensures r.Some? ==> ValidStepInput(r.value)
    ensures r.Some? ==> Get(v, "description") == Some(JStr(r.value.description))
    ensures r.Some? ==> ParseMaterials(v) == Some(r.value.materials)
    ensures r.Some? <==> (&& Get(v, "description").Some? && AsNonEmptyString(Get(v, "description").value).Some?
                          && ParseMaterials(v).Some?)
  {
    match (Get(v, "description"), ParseMaterials(v))
    case (Some(d), Some(m)) =>
      (match AsNonEmptyString(d)
       case Some(desc) => Some(StepInput(desc, m))
       case None => None)
    case _ => None
  }

  /** `z.array(stepSchema)`: every element must parse, and order is kept. */
  function ParseSteps(items: seq<Value>): (r: Option<seq<StepInput>>)
    ensures r.Some? ==> |r.value| == |items|
    ensures r.Some? ==> forall k :: 0 <= k < |items| ==> ParseStepInput(items[k]) == Some(r.value[k])
    ensures r.None? ==> exists k :: 0 <= k < |items| && ParseStepInput(items[k]).None?
  {
    if items == [] then Some([])
    else
      match (ParseStepInput(items[0]), ParseSteps(items[1..]))
      case (Some(s), Some(rest)) =>
        assert forall k :: 1 <= k < |items| ==> items[k] == items[1..][k - 1];
        Some([s] + rest)
      case (None, _) => None
      case (_, None) =>
        assert forall k :: 1 <= k < |items| ==> items[k] == items[1..][k - 1];
        None
  }

  /** A non-empty title, a positive integer estimate, and optionally a list of steps. */
  function ParseTaskInput(body: Value): (r: Option<TaskInput>)
    ensures r.Some? ==> ValidTaskInput(r.value)
    ensures r.Some? ==> (&& Get(body, "title") == Some(JStr(r.value.title))
                         && Get(body, "estimatedMinutes") == Some(JNum(r.value.estimatedMinutes as real)))
    ensures r.Some? ==> (r.value.steps.None? <==> Get(body, "steps").None?)
    ensures r.Some? && r.value.steps.Some? ==>
              Get(body, "steps").value.JArr? && ParseSteps(Get(body, "steps").value.items) == r.value.steps
    ensures r.Some? <==> (&& Get(body, "title").Some? && AsNonEmptyString(Get(body, "title").value).Some?
                          && Get(body, "estimatedMinutes").Some? && AsInt(Get(body, "estimatedMinutes").value).Some?
                          && AsInt(Get(body, "estimatedMinutes").value).value > 0
                          && (|| Get(body, "steps").None?
                              || (Get(body, "steps").value.JArr? && ParseSteps(Get(body, "steps").value.items).Some?)))
  {
    match (Get(body, "title"), Get(body, "estimatedMinutes"))
    case (Some(t), Some(m)) =>
      (match (AsNonEmptyString(t), AsInt(m))
       case (Some(title), Some(minutes)) =>
         if minutes <= 0 then None
         else
           (match Get(body, "steps")
            case None => Some(TaskInput(title, minutes, None))
            case Some(JArr(items)) =>
              (match ParseSteps(items)
               case Some(steps) => Some(TaskInput(title, minutes, Some(steps)))
               case None => None)
            case Some(_) => None)
       case _ => None)
    case _ => None
  }

  function EncodeStepInput(s: StepInput): Value {
    JObj(map["description" := JStr(s.description),
             "materials" := if s.materials.Some? then JStr(s.materials.value) else JNull])
  }

  function EncodeSteps(steps: seq<StepInput>): (items: seq<Value>)
    ensures |items| == |steps|
    ensures forall k :: 0 <= k < |steps| ==> items[k] == EncodeStepInput(steps[k])
  {
    if steps == [] then [] else [EncodeStepInput(steps[0])] + EncodeSteps(steps[1..])
  }

  function EncodeTaskInput(x: TaskInput): Value {
    var base := map["title" := JStr(x.title), "estimatedMinutes" := JNum(x.estimatedMinutes as real)];
    JObj(if x.steps.Some? then base["steps" := JArr(EncodeSteps(x.steps.value))]
         else base)
  }

  /** One valid step survives being sent and parsed again. */
  lemma StepRoundTrip(s: StepInput)
    requires ValidStepInput(s)
    ensures ParseStepInput(EncodeStepInput(s)) == Some(s)
  {
    var v := EncodeStepInput(s);
    assert Get(v, "description") == Some(JStr(s.description));
    assert Get(v, "materials") == Some(if s.materials.Some? then JStr(s.materials.value) else JNull);
  }

  /** A list of valid steps survives being sent and parsed again, in order. */
  lemma {:induction false} StepsRoundTrip(steps: seq<StepInput>)
    requires forall k :: 0 <= k < |steps| ==> ValidStepInput(steps[k])
    ensures ParseSteps(EncodeSteps(steps)) == Some(steps)
  {
    if steps != [] {
      var head, tail := steps[0], steps[1..];
      var items := EncodeSteps(steps);
      assert items == [EncodeStepInput(head)] + EncodeSteps(tail);
      assert items[1..] == EncodeSteps(tail);
      StepsRoundTrip(tail);
      StepRoundTrip(head);
      assert ParseSteps(items) == Some([head] + tail);
      assert steps == [head] + tail;
    }
  }

  /** Every valid task request survives being sent and parsed again. */
  lemma TaskInputRoundTrip(x: TaskInput)
    requires ValidTaskInput(x)
    ensures ParseTaskInput(EncodeTaskInput(x)) == Some(x)
  {
    var body := EncodeTaskInput(x);
    assert Get(body, "title") == Some(JStr(x.title));
    assert Get(body, "estimatedMinutes") == Some(JNum(x.estimatedMinutes as real));
    if x.steps.Some? {
      var steps := x.steps.value;
      assert Get(body, "steps") == Some(JArr(EncodeSteps(steps)));
      StepsRoundTrip(steps);
    } else {
      assert Get(body, "steps") == None;
    }
  }

  // ---------------------------------------------------------------------------
  // tasks/update_POST.schema.ts

  datatype StepUpdate = StepUpdate(id: int, completed: bool)
  datatype TaskUpdate = TaskUpdate(taskId: int, completed: Option<bool>, steps: Option<seq<StepUpdate>>)

  /** `stepUpdateSchema`: an integer id and a boolean. */
  function ParseStepUpdate(v: Value): (r: Option<StepUpdate>)
    ensures r.Some? <==> (&& Get(v, "id").Some? && AsInt(Get(v, "id").value).Some?
                          && Get(v, "completed").Some? && Get(v, "completed").value.JBool?)
    ensures r.Some? ==> Get(v, "id") == Some(JNum(r.value.id as real)) && Get(v, "completed") == Some(JBool(r.value.completed))
  {
    match (Get(v, "id"), Get(v, "completed"))
    case (Some(i), Some(JBool(c))) =>
      (match AsInt(i)
       case Some(id) => Some(StepUpdate(id, c))
       case None => None)
    case _ => None
  }

  function ParseStepUpdates(items: seq<Value>): (r: Option<seq<StepUpdate>>)
    ensures r.Some? ==> |r.value| == |items|
    ensures r.Some? ==> forall k :: 0 <= k < |items| ==> ParseStepUpdate(items[k]) == Some(r.value[k])
    ensures r.None? ==> exists k :: 0 <= k < |items| && ParseStepUpdate(items[k]).None?
  {
    if items == [] then Some([])
    else
      match (ParseStepUpdate(items[0]), ParseStepUpdates(items[1..]))
      case (Some(s), Some(rest)) =>
        assert forall k :: 1 <= k < |items| ==> items[k] == items[1..][k - 1];
        Some([s] + rest)
      case (None, _) => None
      case (_, None) =>
        assert forall k :: 1 <= k < |items| ==> items[k] == items[1..][k - 1];
        None
  }

  /** An integer task id (of any sign), an optional boolean, an optional list of step updates. */
  function ParseTaskUpdate(body: Value): (r: Option<TaskUpdate>)
    ensures r.Some? ==> Get(body, "taskId") == Some(JNum(r.value.taskId as real))
    ensures r.Some? ==> (r.value.completed.None? <==> Get(body, "completed").None?)
    ensures r.Some? && r.value.completed.Some? ==> Get(body, "completed") == Some(JBool(r.value.completed.value))
    ensures r.Some? ==> (r.value.steps.None? <==> Get(body, "steps").None?)
    ensures r.Some? && r.value.steps.Some? ==>
              Get(body, "steps").value.JArr? && ParseStepUpdates(Get(body, "steps").value.items) == r.value.steps
    ensures r.Some? <==> (&& Get(body, "taskId").Some? && AsInt(Get(body, "taskId").value).Some?
                          && (Get(body, "completed").None? || Get(body, "completed").value.JBool?)
                          && (|| Get(body, "steps").None?
                              || (Get(body, "steps").value.JArr? && ParseStepUpdates(Get(body, "steps").value.items).Some?)))
  {
    match Get(body, "taskId")
    case None => None
    case Some(t) =>
      match AsInt(t)
      case None => None
      case Some(taskId) =>
        var completed := match Get(body, "completed")
          case None => Some(None)
          case Some(JBool(c)) => Some(Some(c))
          case Some(_) => None;
        var steps := match Get(body, "steps")
          case None => Some(None)
          case Some(JArr(items)) => (match ParseStepUpdates(items) case Some(s) => Some(Some(s)) case None => None)
          case Some(_) => None;
        if completed.Some? && steps.Some? then Some(TaskUpdate(taskId, completed.value, steps.value)) else None
  }

  function EncodeStepUpdate(s: StepUpdate): Value {
    JObj(map["id" := JNum(s.id as real), "completed" := JBool(s.completed)])
  }

  function EncodeStepUpdates(steps: seq<StepUpdate>): (items: seq<Value>)
    ensures |items| == |steps|
    ensures forall k :: 0 <= k < |steps| ==> items[k] == EncodeStepUpdate(steps[k])
  {
    if steps == [] then [] else [EncodeStepUpdate(steps[0])] + EncodeStepUpdates(steps[1..])
  }

  /** The request body the client sends: `completed` and `steps` only when given. */
  function EncodeTaskUpdate(x: TaskUpdate): Value {
    var base := map["taskId" := JNum(x.taskId as real)];
    var withCompleted := if x.completed.Some? then base["completed" := JBool(x.completed.value)] else base;
    JObj(if x.steps.Some? then withCompleted["steps" := JArr(EncodeStepUpdates(x.steps.value))] else withCompleted)
  }

  /** A list of step updates survives being sent and parsed again, in order. */
  lemma {:induction false} StepUpdatesRoundTrip(steps: seq<StepUpdate>)
    ensures ParseStepUpdates(EncodeStepUpdates(steps)) == Some(steps)
  {
    if steps != [] {
      var head, tail := steps[0], steps[1..];
      var items := EncodeStepUpdates(steps);
      assert items[1..] == EncodeStepUpdates(tail);
      StepUpdatesRoundTrip(tail);
      var v := EncodeStepUpdate(head);
      assert Get(v, "id") == Some(JNum(head.id as real));
      assert Get(v, "completed") == Some(JBool(head.completed));
      assert ParseStepUpdates(items) == Some([head] + tail);
      assert steps == [head] + tail;
    }
  }

  /** Every task update (the schema puts no bound on its values) survives being sent and parsed again. */
  lemma TaskUpdateRoundTrip(x: TaskUpdate)
    ensures ParseTaskUpdate(EncodeTaskUpdate(x)) == Some(x)
  {
    var body := EncodeTaskUpdate(x);
    assert Get(body, "taskId") == Some(JNum(x.taskId as real));
    if x.completed.Some? {
      assert Get(body, "completed") == Some(JBool(x.completed.value));
    } else {
      assert Get(body, "completed") == None;
    }
    if x.steps.Some? {
      assert Get(body, "steps") == Some(JArr(EncodeStepUpdates(x.steps.value)));
      StepUpdatesRoundTrip(x.steps.value);
    } else {
      assert Get(body, "steps") == None;
    }
  }

  /** A negative task id passes validation: only integrality is checked. */
  lemma NegativeTaskIdIsAccepted()
    ensures ParseTaskUpdate(JObj(map["taskId" := JNum(-3.0)])) == Some(TaskUpdate(-3, None, None))
  {
  }

  // ---------------------------------------------------------------------------
  // collectibles/purchase_POST.schema.ts

  datatype PurchaseInput = PurchaseInput(collectibleTypeId: int)

  /** What a successful purchase returns: `{success: true, newPoints}`. */
  datatype PurchaseOutput = PurchaseOutput(success: bool, newPoints: int)

  /** A positive integer collectible type id. */
  function ParsePurchaseInput(body: Value): (r: Option<PurchaseInput>)
    ensures r.Some? ==> r.value.collectibleTypeId > 0
    ensures r.Some? ==> Get(body, "collectibleTypeId") == Some(JNum(r.value.collectibleTypeId as real))
    ensures r.None? ==> Get(body, "collectibleTypeId").None?
                        || AsInt(Get(body, "collectibleTypeId").value).None?
                        || AsInt(Get(body, "collectibleTypeId").value).value <= 0
  {
    match Get(body, "collectibleTypeId")
    case None => None
    case Some(v) =>
      match AsInt(v)
      case Some(id) => if id > 0 then Some(PurchaseInput(id)) else None
      case None => None
  }

  // ---------------------------------------------------------------------------
  // settings_POST.schema.ts

  /** A partial settings update: every field optional and nullable. */
  datatype SettingsPatch = SettingsPatch(
    grade: Field<string>,
    classes: Field<seq<string>>,
    biggerText: Field<bool>,
    hapticBuzz: Field<bool>,
    kaibeatPlaylistUrl: Field<string>,
    notificationsEnabled: Field<bool>,
    breakRemindersEnabled: Field<bool>,
    breakReminderInterval: Field<int>,
    celebrationNotificationsEnabled: Field<bool>,
    dailyCheckinEnabled: Field<bool>)

  /** `z.string().nullable().optional()`. */
  function StringField(body: Value, key: string): (r: Option<Field<string>>)
    ensures r == Some(Absent) <==> Get(body, key).None?
    ensures r == Some(Present(None)) <==> Get(body, key) == Some(JNull)
    ensures Get(body, key).Some? && Get(body, key).value.JStr? ==> r == Some(Present(Some(Get(body, key).value.s)))
    ensures r.None? <==> Get(body, key).Some? && !Get(body, key).value.JNull? && !Get(body, key).value.JStr?
  {
    match Get(body, key)
    case None => Some(Absent)
    case Some(JNull) => Some(Present(None))
    case Some(JStr(s)) => Some(Present(Some(s)))
    case Some(_) => None
  }

  /** `z.boolean().nullable().optional()`. */
  function BoolField(body: Value, key: string): (r: Option<Field<bool>>)
    ensures r == Some(Absent) <==> Get(body, key).None?
    ensures r == Some(Present(None)) <==> Get(body, key) == Some(JNull)
    ensures Get(body, key).Some? && Get(body, key).value.JBool? ==> r == Some(Present(Some(Get(body, key).value.b)))
    ensures r.None? <==> Get(body, key).Some? && !Get(body, key).value.JNull? && !Get(body, key).value.JBool?
  {
    match Get(body, key)
    case None => Some(Absent)
    case Some(JNull) => Some(Present(None))
    case Some(JBool(b)) => Some(Present(Some(b)))
    case Some(_) => None
  }

  /** Every element is a string. */
  function AllStrings(items: seq<Value>): (r: Option<seq<string>>)
    ensures r.Some? ==> |r.value| == |items| && forall k :: 0 <= k < |items| ==> items[k] == JStr(r.value[k])
    ensures r.None? ==> exists k :: 0 <= k < |items| && !items[k].JStr?
  {
    if items == [] then Some([])
    else if !items[0].JStr? then None
    else
      match AllStrings(items[1..])
      case Some(rest) =>
        assert forall k :: 1 <= k < |items| ==> items[k] == items[1..][k - 1];
        Some([items[0].s] + rest)
      case None =>
        assert forall k :: 1 <= k < |items| ==> items[k] == items[1..][k - 1];
        None
  }

  /** `z.array(z.string()).nullable().optional()`. */
  function ClassesField(body: Value, key: string): (r: Option<Field<seq<string>>>)
    ensures r == Some(Absent) <==> Get(body, key).None?
    ensures r == Some(Present(None)) <==> Get(body, key) == Some(JNull)
    ensures r.Some? && r.value.Present? && r.value.value.Some? ==>
              && Get(body, key).value.JArr?
              && |Get(body, key).value.items| == |r.value.value.value|
              && forall k :: 0 <= k < |r.value.value.value| ==> Get(body, key).value.items[k] == JStr(r.value.value.value[k])
    ensures r.None? <==> (&& Get(body, key).Some? && !Get(body, key).value.JNull?
                          && !(Get(body, key).value.JArr? && forall k :: 0 <= k < |Get(body, key).value.items| ==> Get(body, key).value.items[k].JStr?))
  {
    match Get(body, key)
    case None => Some(Absent)
    case Some(JNull) => Some(Present(None))
    case Some(JArr(items)) => (match AllStrings(items) case Some(cs) => Some(Present(Some(cs))) case None => None)
    case Some(_) => None
  }

  /** `z.number().int().min(15).max(60).nullable().optional()`. */
  function IntervalField(body: Value, key: string): (r: Option<Field<int>>)
    ensures r == Some(Absent) <==> Get(body, key).None?
    ensures r == Some(Present(None)) <==> Get(body, key) == Some(JNull)
    ensures r.Some? && r.value.Present? && r.value.value.Some? ==>
              15 <= r.value.value.value <= 60 && Get(body, key) == Some(JNum(r.value.value.value as real))
    ensures r.None? <==> (&& Get(body, key).Some? && !Get(body, key).value.JNull?
                          && !(AsInt(Get(body, key).value).Some? && 15 <= AsInt(Get(body, key).value).value <= 60))
  {
    match Get(body, key)
    case None => Some(Absent)
    case Some(JNull) => Some(Present(None))
    case Some(v) =>
      match AsInt(v)
      case Some(n) => if 15 <= n <= 60 then Some(Present(Some(n))) else None
      case None => None
  }

  predicate ValidSettingsPatch(p: SettingsPatch) {
    p.breakReminderInterval.Present? && p.breakReminderInterval.value.Some? ==>
      15 <= p.breakReminderInterval.value.value <= 60
  }

  /** The settings schema: every field optional and nullable, the interval between 15 and 60. */
  function ParseSettingsPatch(body: Value): (r: Option<SettingsPatch>)
    ensures r.Some? ==> ValidSettingsPatch(r.value)
    ensures r.Some? <==> (&& body.JObj?
                          && StringField(body, "grade").Some? && ClassesField(body, "classes").Some?
                          && BoolField(body, "biggerText").Some? && BoolField(body, "hapticBuzz").Some?
                          && StringField(body, "kaibeatPlaylistUrl").Some?
                          && BoolField(body, "notificationsEnabled").Some? && BoolField(body, "breakRemindersEnabled").Some?
                          && IntervalField(body, "breakReminderInterval").Some?
                          && BoolField(body, "celebrationNotificationsEnabled").Some? && BoolField(body, "dailyCheckinEnabled").Some?)
    ensures r.Some? ==> (&& Some(r.value.grade) == StringField(body, "grade")
                         && Some(r.value.classes) == ClassesField(body, "classes")
                         && Some(r.value.biggerText) == BoolField(body, "biggerText")
                         && Some(r.value.hapticBuzz) == BoolField(body, "hapticBuzz")
                         && Some(r.value.kaibeatPlaylistUrl) == StringField(body, "kaibeatPlaylistUrl")
                         && Some(r.value.notificationsEnabled) == BoolField(body, "notificationsEnabled")
                         && Some(r.value.breakRemindersEnabled) == BoolField(body, "breakRemindersEnabled")
                         && Some(r.value.breakReminderInterval) == IntervalField(body, "breakReminderInterval")
                         && Some(r.value.celebrationNotificationsEnabled) == BoolField(body, "celebrationNotificationsEnabled")
                         && Some(r.value.dailyCheckinEnabled) == BoolField(body, "dailyCheckinEnabled"))
  {
    if !body.JObj? then None
    else
      var grade := StringField(body, "grade");
      var classes := ClassesField(body, "classes");
      var biggerText := BoolField(body, "biggerText");
      var hapticBuzz := BoolField(body, "hapticBuzz");
      var playlist := StringField(body, "kaibeatPlaylistUrl");
      var notifications := BoolField(body, "notificationsEnabled");
      var breakReminders := BoolField(body, "breakRemindersEnabled");
      var interval := IntervalField(body, "breakReminderInterval");
      var celebration := BoolField(body, "celebrationNotificationsEnabled");
      var checkin := BoolField(body, "dailyCheckinEnabled");
      if grade.Some? && classes.Some? && biggerText.Some? && hapticBuzz.Some? && playlist.Some?
         && notifications.Some? && breakReminders.Some? && interval.Some? && celebration.Some? && checkin.Some?
      then Some(SettingsPatch(grade.value, classes.value, biggerText.value, hapticBuzz.value, playlist.value,
                              notifications.value, breakReminders.value, interval.value, celebration.value,
                              checkin.value))
      else None
  }

  /** How one field is sent: left out when absent, `null` when cleared, else the value. */
  function Encoded<T>(f: Field<T>, encode: T -> Value): (r: Option<Value>)
    ensures r.None? <==> f.Absent?
  {
    match f
    case Absent => None
    case Present(None) => Some(JNull)
    case Present(Some(v)) => Some(encode(v))
  }

  function StringValue(s: string): Value {
    JStr(s)
  }

  function BoolValue(b: bool): Value {
    JBool(b)
  }

  function IntValue(n: int): Value {
    JNum(n as real)
  }

  function StringsValue(cs: seq<string>): Value {
    JArr(seq(|cs|, k requires 0 <= k < |cs| => JStr(cs[k])))
  }

  const SettingsKeys: set<string> := {"grade", "classes", "biggerText", "hapticBuzz", "kaibeatPlaylistUrl",
    "notificationsEnabled", "breakRemindersEnabled", "breakReminderInterval", "celebrationNotificationsEnabled",
    "dailyCheckinEnabled"}

  /** The encoded value a patch sends under `key`, if any. */
  function Slot(p: SettingsPatch, key: string): Option<Value> {
    match key
    case "grade" => Encoded(p.grade, StringValue)
    case "classes" => Encoded(p.classes, StringsValue)
    case "biggerText" => Encoded(p.biggerText, BoolValue)
    case "hapticBuzz" => Encoded(p.hapticBuzz, BoolValue)
    case "kaibeatPlaylistUrl" => Encoded(p.kaibeatPlaylistUrl, StringValue)
    case "notificationsEnabled" => Encoded(p.notificationsEnabled, BoolValue)
    case "breakRemindersEnabled" => Encoded(p.breakRemindersEnabled, BoolValue)
    case "breakReminderInterval" => Encoded(p.breakReminderInterval, IntValue)
    case "celebrationNotificationsEnabled" => Encoded(p.celebrationNotificationsEnabled, BoolValue)
    case "dailyCheckinEnabled" => Encoded(p.dailyCheckinEnabled, BoolValue)
    case _ => None
  }

  /** The body the settings screen sends for a patch: one key per field that is present. */
  function EncodeSettingsPatch(p: SettingsPatch): (body: Value)
    ensures body.JObj?
    ensures forall key :: key in SettingsKeys ==> Get(body, key) == Slot(p, key)
  {
    JObj(map key | key in SettingsKeys && Slot(p, key).Some? :: Slot(p, key).value)
  }

  /** Every patch the schema admits survives being sent and parsed again. */
  lemma SettingsPatchRoundTrip(p: SettingsPatch)
    requires ValidSettingsPatch(p)
    ensures ParseSettingsPatch(EncodeSettingsPatch(p)) == Some(p)
  {
    var body := EncodeSettingsPatch(p);
    StringFieldRoundTrip(body, "grade", p.grade);
    ClassesFieldRoundTrip(body, "classes", p.classes);
    BoolFieldRoundTrip(body, "biggerText", p.biggerText);
    BoolFieldRoundTrip(body, "hapticBuzz", p.hapticBuzz);
    StringFieldRoundTrip(body, "kaibeatPlaylistUrl", p.kaibeatPlaylistUrl);
    BoolFieldRoundTrip(body, "notificationsEnabled", p.notificationsEnabled);
    BoolFieldRoundTrip(body, "breakRemindersEnabled", p.breakRemindersEnabled);
    IntervalFieldRoundTrip(body, "breakReminderInterval", p.breakReminderInterval);
    BoolFieldRoundTrip(body, "celebrationNotificationsEnabled", p.celebrationNotificationsEnabled);
    BoolFieldRoundTrip(body, "dailyCheckinEnabled", p.dailyCheckinEnabled);
  }

  lemma StringFieldRoundTrip(body: Value, key: string, f: Field<string>)
    requires Get(body, key) == Encoded(f, StringValue)
    ensures StringField(body, key) == Some(f)
  {
  }

  lemma BoolFieldRoundTrip(body: Value, key: string, f: Field<bool>)
    requires Get(body, key) == Encoded(f, BoolValue)
    ensures BoolField(body, key) == Some(f)
  {
  }

  lemma ClassesFieldRoundTrip(body: Value, key: string, f: Field<seq<string>>)
    requires Get(body, key) == Encoded(f, StringsValue)
    ensures ClassesField(body, key) == Some(f)
  {
    if f.Present? && f.value.Some? {
      AllStringsRoundTrip(f.value.value);
    }
  }

  lemma IntervalFieldRoundTrip(body: Value, key: string, f: Field<int>)
    requires Get(body, key) == Encoded(f, IntValue)
    requires f.Present? && f.value.Some? ==> 15 <= f.value.value <= 60
    ensures IntervalField(body, key) == Some(f)
  {
  }

  /** A list of strings survives being sent as a JSON array and read back. */
  lemma {:induction false} AllStringsRoundTrip(cs: seq<string>)
    ensures AllStrings(StringsValue(cs).items) == Some(cs)
  {
    if cs != [] {
      var items := StringsValue(cs).items;
      AllStringsRoundTrip(cs[1..]);
      assert items[1..] == StringsValue(cs[1..]).items;
      assert cs == [cs[0]] + cs[1..];
    }
  }

  /** The empty object is a valid update that sets nothing. */
  lemma EmptySettingsPatchIsValid()
    ensures ParseSettingsPatch(JObj(map[])) == Some(SettingsPatch(Absent, Absent, Absent, Absent, Absent,
                                                                   Absent, Absent, Absent, Absent, Absent))
  {
  }

  /** An interval outside 15..60, or not a whole number, rejects the whole update. */
  lemma IntervalOutOfRangeIsRejected(n: real)
    requires n < 15.0 || n > 60.0 || !IsInteger(n)
    ensures ParseSettingsPatch(JObj(map["breakReminderInterval" := JNum(n)])) == None
  {
    assert IntervalField(JObj(map["breakReminderInterval" := JNum(n)]), "breakReminderInterval") == None;
  }

  // ---------------------------------------------------------------------------
  // Client calls, shared by postReflections, postTasks, postTasksUpdate,
  // postCollectiblesPurchase and postSettings

  const UnknownError: string := "An unknown error occurred"

  /** The body every failing endpoint sends: `{error: message}`. */
  function ErrorBody(message: string): Value {
    JObj(map["error" := JStr(message)])
  }

  /** The message thrown for a non-OK response: the body's string `error`, else a default. */
  function ErrorMessage(body: Value): (m: string)
    ensures (body.JObj? && "error" in body.fields && body.fields["error"].JStr?) ==> m == body.fields["error"].s
    ensures !(body.JObj? && "error" in body.fields && body.fields["error"].JStr?) ==> m == UnknownError
  {
    match Get(body, "error")
    case Some(JStr(e)) => e
    case _ => UnknownError
  }

  /** The server's message reaches the caller unchanged. */
  lemma ErrorMessageRoundTrip(message: string)
    ensures ErrorMessage(ErrorBody(message)) == message
  {
  }

  /** The response a client sees: a parsed success body, or a failure with its error body. */
  datatype Response<T> = Success(value: T) | Failure(body: Value)

  /** What a client call ends in: validation rejected the input, a result, or a thrown message. */
  datatype ClientResult<T> = Invalid | Received(value: T) | Thrown(message: string)

  /**
   * Validate, then send: `respond` stands for the server and is consulted only with
   * an input that validated. A non-OK response becomes a thrown error message.
   */
  function Call<I, O>(input: Option<I>, respond: I -> Response<O>): (r: ClientResult<O>)
    ensures input.None? <==> r.Invalid?
    ensures input.Some? && respond(input.value).Success? ==> r == Received(respond(input.value).value)
    ensures input.Some? && respond(input.value).Failure? ==> r == Thrown(ErrorMessage(respond(input.value).body))
  {
    match input
    case None => Invalid
    case Some(x) =>
      match respond(x)
      case Success(v) => Received(v)
      case Failure(body) => Thrown(ErrorMessage(body))
  }

  function PostReflections<O>(body: Value, respond: ReflectionInput -> Response<O>): (r: ClientResult<O>)
    ensures r.Invalid? <==> ParseReflectionInput(body).None?
  {
    Call(ParseReflectionInput(body), respond)
  }

  function PostTasks<O>(body: Value, respond: TaskInput -> Response<O>): (r: ClientResult<O>)
    ensures r.Invalid? <==> ParseTaskInput(body).None?
  {
    Call(ParseTaskInput(body), respond)
  }

  function PostTasksUpdate<O>(body: Value, respond: TaskUpdate -> Response<O>): (r: ClientResult<O>)
    ensures r.Invalid? <==> ParseTaskUpdate(body).None?
  {
    Call(ParseTaskUpdate(body), respond)
  }

  function PostCollectiblesPurchase(body: Value, respond: PurchaseInput -> Response<PurchaseOutput>): (r: ClientResult<PurchaseOutput>)
    ensures r.Invalid? <==> ParsePurchaseInput(body).None?
  {
    Call(ParsePurchaseInput(body), respond)
  }

  function PostSettings<O>(body: Value, respond: SettingsPatch -> Response<O>): (r: ClientResult<O>)
    ensures r.Invalid? <==> ParseSettingsPatch(body).None?
  {
    Call(ParseSettingsPatch(body), respond)
  }
}
