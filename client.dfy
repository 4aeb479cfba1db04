/**
 * Client-side helpers: the relative timestamp, the class picker, the step list of
 * the add-task dialog and the first-run setup rule.
 */
module Client {
  import opened Wrappers
  import opened Seqs
  import opened Text
  import opened Json
  import opened Schemas
  import Store

  // ---------------------------------------------------------------------------
  // helpers/formatTimeAgo.tsx

  /** A relative time: "Just now", or a whole number of units followed by " ago". */
  datatype TimeAgo = JustNow | Ago(amount: int, unit: string)

  const Year := 31536000
  const Month := 2592000
  const Day := 86400
  const Hour := 3600
  const Minute := 60

  /** `Math.floor((now - timestamp) / 1000)`: Dafny's division rounds down for a positive divisor. */
  function ElapsedSeconds(now: int, timestamp: int): int {
    (now - timestamp) / 1000
  }

  /** The length in seconds of each unit the relative time is written in. */
  function UnitSeconds(unit: string): int {
    match unit
    case "y" => Year
    case "mo" => Month
    case "d" => Day
    case "h" => Hour
    case _ => Minute
  }

  /** The first unit the elapsed seconds strictly exceed decides; 60 seconds or less is "Just now". */
  function FormatTimeAgo(now: int, timestamp: int): (r: TimeAgo)
    ensures var s := ElapsedSeconds(now, timestamp);
      && (r.JustNow? <==> s <= Minute)
      && (r.Ago? && r.unit == "y" <==> s > Year)
      && (r.Ago? && r.unit == "mo" <==> Month < s <= Year)
      && (r.Ago? && r.unit == "d" <==> Day < s <= Month)
      && (r.Ago? && r.unit == "h" <==> Hour < s <= Day)
      && (r.Ago? && r.unit == "m" <==> Minute < s <= Hour)
      && (r.Ago? ==> r.amount == s / UnitSeconds(r.unit))
  {
    var seconds := ElapsedSeconds(now, timestamp);
    if seconds > Year then Ago(seconds / Year, "y")
    else if seconds > Month then Ago(seconds / Month, "mo")
    else if seconds > Day then Ago(seconds / Day, "d")
    else if seconds > Hour then Ago(seconds / Hour, "h")
    else if seconds > Minute then Ago(seconds / Minute, "m")
    else JustNow
  }

  /** Every unit but the year stays below the next unit up: at most 60m, 24h, 30d or 12mo, and at least 1. */
  lemma FormatTimeAgoBounds(now: int, timestamp: int)
    ensures var r := FormatTimeAgo(now, timestamp);
      && (r.Ago? ==> r.amount >= 1)
      && (r.Ago? && r.unit == "m" ==> r.amount <= 60)
      && (r.Ago? && r.unit == "h" ==> r.amount <= 24)
      && (r.Ago? && r.unit == "d" ==> r.amount <= 30)
      && (r.Ago? && r.unit == "mo" ==> r.amount <= 12)
  {
  }

  /** The comparisons are strict: exactly an hour reads "60m ago", exactly a minute "Just now". */
  lemma FormatTimeAgoIsStrict(now: int)
    ensures FormatTimeAgo(now, now - 3600000) == Ago(60, "m")
    ensures FormatTimeAgo(now, now - 60000) == JustNow
  {
  }

  /** A timestamp in the future reads "Just now". */
  lemma FutureIsJustNow(now: int, timestamp: int)
    requires timestamp >= now
    ensures FormatTimeAgo(now, timestamp) == JustNow
  {
  }

  // ---------------------------------------------------------------------------
  // components/ClassesSelector.tsx

  const AvailableClasses: seq<string> :=
    ["Math", "English", "Science", "History", "Art", "Music", "P.E.", "Foreign Language"]

  function Other(c: string): string -> bool {
    x => x != c
  }

  /** `handleClassToggle`: a selected class is removed (every copy), an unselected one appended. */
  function ToggleClass(selected: seq<string>, c: string): (r: seq<string>)
    ensures c in selected ==> c !in r
    ensures c !in selected ==> r == selected + [c]
    ensures forall x :: x != c ==> (x in r <==> x in selected)
    ensures c in selected ==> SubsequenceOf(r, selected)
    ensures forall x :: x != c ==> multiset(r)[x] == multiset(selected)[x]
  {
    if c in selected then
      FilterIsSubsequence(selected, Other(c));
      FilterCounts(selected, Other(c));
      Filter(selected, Other(c))
    else selected + [c]
  }

  /** Toggling an unselected class twice gives back the original list. */
  lemma {:induction false} ToggleClassTwice(selected: seq<string>, c: string)
    requires c !in selected
    ensures ToggleClass(ToggleClass(selected, c), c) == selected
  {
    FilterAppend(selected, [c], Other(c));
    FilterKeepsAll(selected, Other(c));
  }

  // ---------------------------------------------------------------------------
  // components/AddTaskDialog.tsx

  /** A suggested step in the dialog; `edited` is unset (false) until the user changes it. */
  datatype GeneratedStep = GeneratedStep(description: string, materials: Option<string>, selected: bool, edited: bool)

  /** The server's suggestions, every one pre-selected. */
  function WithSelection(steps: seq<StepInput>): (r: seq<GeneratedStep>)
    ensures |r| == |steps|
    ensures forall i :: 0 <= i < |r| ==> r[i].selected
  {
    seq(|steps|, i requires 0 <= i < |steps| => GeneratedStep(steps[i].description, steps[i].materials, true, false))
  }

  /** `handleStepToggle`: flips `selected` at `index`; an index outside the list changes nothing. */
  function ToggleStep(steps: seq<GeneratedStep>, index: int): (r: seq<GeneratedStep>)
    ensures |r| == |steps|
  {
    seq(|steps|, i requires 0 <= i < |steps| => if i == index then steps[i].(selected := !steps[i].selected) else steps[i])
  }

  /** `handleStepDescriptionChange`: a new description at `index`, marked as edited. */
  function ChangeDescription(steps: seq<GeneratedStep>, index: int, description: string): (r: seq<GeneratedStep>)
    ensures |r| == |steps|
  {
    seq(|steps|, i requires 0 <= i < |steps| =>
      if i == index then steps[i].(description := description, edited := true) else steps[i])
  }

  /** `newMaterials || null`: the empty string clears the materials. */
  function MaterialsOf(text: string): (m: Option<string>)
    ensures m.None? <==> text == ""
  {
    if text == "" then None else Some(text)
  }

  /** `handleStepMaterialsChange`: new materials at `index` (empty clears them), marked as edited. */
  function ChangeMaterials(steps: seq<GeneratedStep>, index: int, materials: string): (r: seq<GeneratedStep>)
    ensures |r| == |steps|
  {
    seq(|steps|, i requires 0 <= i < |steps| =>
      if i == index then steps[i].(materials := MaterialsOf(materials), edited := true) else steps[i])
  }

  /** A toggle touches one entry, and toggling it again restores the list. */
  lemma ToggleStepTwice(steps: seq<GeneratedStep>, index: int)
    ensures ToggleStep(ToggleStep(steps, index), index) == steps
    ensures forall i :: 0 <= i < |steps| && i != index ==> ToggleStep(steps, index)[i] == steps[i]
    ensures 0 <= index < |steps| ==> ToggleStep(steps, index)[index].selected == !steps[index].selected
  {
  }

  /** An edit changes only its entry's text and the `edited` mark; selection is kept. */
  lemma EditsTouchOneEntry(steps: seq<GeneratedStep>, index: int, text: string)
    ensures forall i :: 0 <= i < |steps| && i != index ==>
              ChangeDescription(steps, index, text)[i] == steps[i] && ChangeMaterials(steps, index, text)[i] == steps[i]
    ensures 0 <= index < |steps| ==>
              && ChangeDescription(steps, index, text)[index]
                   == GeneratedStep(text, steps[index].materials, steps[index].selected, true)
              && ChangeMaterials(steps, index, text)[index]
                   == GeneratedStep(steps[index].description, MaterialsOf(text), steps[index].selected, true)
  {
  }

  /** The submitted steps: the selected entries, in order, as `{description, materials}`. */
  function SelectedSteps(steps: seq<GeneratedStep>): (r: seq<StepInput>)
    ensures |r| <= |steps|
  {
    if steps == [] then []
    else
      var n := |steps| - 1;
      SelectedSteps(steps[..n]) + if steps[n].selected then [StepInput(steps[n].description, steps[n].materials)] else []
  }

  function IsSelected(g: GeneratedStep): bool {
    g.selected
  }

  /** The submitted steps are exactly the selected entries, in their order, each cut to `{description, materials}`. */
  lemma {:induction false} SelectedStepsAreSelectedEntries(steps: seq<GeneratedStep>)
    ensures var kept := Filter(steps, IsSelected);
      && |SelectedSteps(steps)| == |kept|
      && forall k :: 0 <= k < |kept| ==> SelectedSteps(steps)[k] == StepInput(kept[k].description, kept[k].materials)
  {
    if steps != [] {
      var n := |steps| - 1;
      var kept, front := Filter(steps[..n], IsSelected), SelectedSteps(steps[..n]);
      SelectedStepsAreSelectedEntries(steps[..n]);
      FilterLast(steps, IsSelected);
      SelectedStepsLast(steps);
      forall k | 0 <= k < |Filter(steps, IsSelected)|
        ensures SelectedSteps(steps)[k] == StepInput(Filter(steps, IsSelected)[k].description, Filter(steps, IsSelected)[k].materials)
      {
        if k < |kept| {
          assert Filter(steps, IsSelected)[k] == kept[k];
          assert SelectedSteps(steps)[k] == front[k];
        }
      }
    }
  }

  /** Unfolding the submitted list at its last entry. */
  lemma SelectedStepsLast(steps: seq<GeneratedStep>)
    requires steps != []
    ensures var n := |steps| - 1;
      SelectedSteps(steps) ==
        SelectedSteps(steps[..n]) + if IsSelected(steps[n]) then [StepInput(steps[n].description, steps[n].materials)] else []
  {
  }

  /** `generatedSteps.some(step => step.selected)`. */
  predicate HasSelectedSteps(steps: seq<GeneratedStep>) {
    exists i :: 0 <= i < |steps| && steps[i].selected
  }

  /** Something is submitted exactly when something is selected. */
  lemma {:induction false} SelectedStepsEmptyIff(steps: seq<GeneratedStep>)
    ensures SelectedSteps(steps) == [] <==> !HasSelectedSteps(steps)
  {
    if steps != [] {
      var n := |steps| - 1;
      SelectedStepsEmptyIff(steps[..n]);
      assert HasSelectedSteps(steps) <==> HasSelectedSteps(steps[..n]) || steps[n].selected by {
        if HasSelectedSteps(steps) && !steps[n].selected {
          var i :| 0 <= i < |steps| && steps[i].selected;
          assert steps[..n][i].selected;
        }
      }
    }
  }

  /** Submitting the untouched suggestions sends them back exactly. */
  lemma {:induction false} SelectedStepsRoundTrip(steps: seq<StepInput>)
    ensures SelectedSteps(WithSelection(steps)) == steps
  {
    if steps != [] {
      var n := |steps| - 1;
      assert WithSelection(steps)[..n] == WithSelection(steps[..n]);
      SelectedStepsRoundTrip(steps[..n]);
      assert steps == steps[..n] + [steps[n]];
    }
  }

  /** Unticking one untouched suggestion submits all the others, in order. */
  lemma {:induction false} DeselectingDropsOneStep(steps: seq<StepInput>, index: int)
    requires 0 <= index < |steps|
    ensures SelectedSteps(ToggleStep(WithSelection(steps), index)) == steps[..index] + steps[index + 1..]
  {
    var n := |steps| - 1;
    var toggled := ToggleStep(WithSelection(steps), index);
    if index == n {
      assert toggled[..n] == WithSelection(steps[..n]);
      SelectedStepsRoundTrip(steps[..n]);
      assert steps[index + 1..] == [];
    } else {
      assert toggled[..n] == ToggleStep(WithSelection(steps[..n]), index);
      DeselectingDropsOneStep(steps[..n], index);
      assert steps[..n][..index] == steps[..index];
      assert steps[index + 1..] == steps[..n][index + 1..] + [steps[n]];
    }
  }

  /** `addTaskSchema`: a non-empty title and a positive whole number of minutes. */
  function ParseAddTaskForm(title: string, estimatedMinutes: real): (r: Option<(string, int)>)
    ensures r.Some? <==> |title| >= 1 && IsInteger(estimatedMinutes) && estimatedMinutes > 0.0
    ensures r.Some? ==> r.value.0 == title && r.value.1 as real == estimatedMinutes && r.value.1 > 0
  {
    if |title| >= 1 && IsInteger(estimatedMinutes) && estimatedMinutes > 0.0
    then Some((title, estimatedMinutes.Floor)) else None
  }

  /** `onSubmit`: the form values, plus `steps` only when at least one is selected. */
  function TaskPayload(title: string, estimatedMinutes: int, steps: seq<GeneratedStep>): (r: TaskInput)
    ensures r.title == title && r.estimatedMinutes == estimatedMinutes
    ensures r.steps.Some? <==> HasSelectedSteps(steps)
    ensures r.steps.Some? ==> r.steps.value == SelectedSteps(steps)
  {
    var selected := SelectedSteps(steps);
    SelectedStepsEmptyIff(steps);
    TaskInput(title, estimatedMinutes, if |selected| > 0 then Some(selected) else None)
  }

  /** A valid form with non-empty selected descriptions is accepted by the server's schema unchanged. */
  lemma SubmittedTaskValidates(title: string, estimatedMinutes: real, steps: seq<GeneratedStep>)
    requires ParseAddTaskForm(title, estimatedMinutes).Some?
    requires forall i :: 0 <= i < |steps| && steps[i].selected ==> |steps[i].description| >= 1
    ensures var form := ParseAddTaskForm(title, estimatedMinutes).value;
      var payload := TaskPayload(form.0, form.1, steps);
      ParseTaskInput(EncodeTaskInput(payload)) == Some(payload)
  {
    var form := ParseAddTaskForm(title, estimatedMinutes).value;
    var payload := TaskPayload(form.0, form.1, steps);
    SelectedDescriptionsNonEmpty(steps);
    TaskInputRoundTrip(payload);
  }

  lemma {:induction false} SelectedDescriptionsNonEmpty(steps: seq<GeneratedStep>)
    requires forall i :: 0 <= i < |steps| && steps[i].selected ==> |steps[i].description| >= 1
    ensures forall k :: 0 <= k < |SelectedSteps(steps)| ==> ValidStepInput(SelectedSteps(steps)[k])
  {
    if steps != [] {
      SelectedDescriptionsNonEmpty(steps[..|steps| - 1]);
    }
  }

  /** `canGenerateSteps`: a title that is not blank, and no request already in flight. */
  function CanGenerateSteps(title: string, pending: bool): (b: bool)
    ensures b <==> !IsBlank(title) && !pending
  {
    TrimEmptyIffBlank(title);
    |Trim(title)| > 0 && !pending
  }

  /**
   * `handleGenerateSteps`: with a blank title nothing happens; otherwise the service's
   * suggestions (`None` when it failed) replace the list, all selected.
   */
  function GenerateSteps(title: string, current: seq<GeneratedStep>, suggestions: Option<seq<StepInput>>): (r: seq<GeneratedStep>)
    ensures IsBlank(title) ==> r == current
    ensures !IsBlank(title) && suggestions.Some? ==> r == WithSelection(suggestions.value) && SelectedSteps(r) == suggestions.value
    ensures !IsBlank(title) && suggestions.None? ==> r == current
  {
    TrimEmptyIffBlank(title);
    if Trim(title) == [] then current
    else
      match suggestions
      case Some(s) =>
        SelectedStepsRoundTrip(s);
        WithSelection(s)
      case None => current
  }

  // ---------------------------------------------------------------------------
  // helpers/useSetupFlow.tsx

  /**
   * `needsSetup`: only once settings have loaded, and then when the grade is missing or
   * empty, or the classes are missing or empty.
   */
  function NeedsSetup(settings: Option<Store.Settings>): (b: bool)
    ensures settings.None? ==> !b
    ensures (&& settings.Some? && settings.value.grade.Some? && settings.value.grade.value != ""
             && settings.value.classes.Some? && settings.value.classes.value != []) ==> !b
    ensures (&& settings.Some?
             && (|| settings.value.grade.None? || settings.value.grade.value == ""
                 || settings.value.classes.None? || settings.value.classes.value == [])) ==> b
  {
    match settings
    case None => false
    case Some(s) =>
      (s.grade.None? || s.grade.value == "") || s.classes.None? || |s.classes.value| == 0
  }

  datatype SetupData = SetupData(grade: string, classes: seq<string>)

  /** The update `completeSetup` sends: grade and classes, nothing else. */
  function SetupPatch(data: SetupData): (p: SettingsPatch)
    ensures ValidSettingsPatch(p)
  {
    SettingsPatch(Present(Some(data.grade)), Present(Some(data.classes)),
                  Absent, Absent, Absent, Absent, Absent, Absent, Absent, Absent)
  }

  datatype SetupOutcome = Succeeded | Failed(message: string)

  /** `completeSetup`: success calls `onSuccess`; a failure hands `onError` the thrown message. */
  function CompleteSetup<O>(data: SetupData, respond: SettingsPatch -> Response<O>): (r: SetupOutcome)
    ensures respond(SetupPatch(data)).Success? ==> r == Succeeded
    ensures respond(SetupPatch(data)).Failure? ==> r == Failed(ErrorMessage(respond(SetupPatch(data)).body))
  {
    match Call(Some(SetupPatch(data)), respond)
    case Received(_) => Succeeded
    case Thrown(m) => Failed(m)
    case Invalid => Failed(UnknownError)
  }

  /**
   * Once the server applies the setup update with a grade and at least one class,
   * setup is no longer needed, and no other setting has changed.
   */
  lemma CompletedSetupIsNotNeeded(s: Store.Settings, data: SetupData, now: int)
    requires data.grade != "" && data.classes != []
    ensures !NeedsSetup(Some(Store.ApplyPatch(s, SetupPatch(data), now)))
    ensures Store.ApplyPatch(s, SetupPatch(data), now)
         == s.(grade := Some(data.grade), classes := Some(data.classes), updatedAt := now)
  {
  }
}
