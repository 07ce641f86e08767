/**
 * What the two entry forms (src/components/DailyInput.tsx and the edit mode
 * of src/components/HistoryView.tsx) share: the `handleInputChange(field,
 * value, section)` update, and the relation between the typed time text and
 * the run time the entry holds.
 */
module EntryForms {
  import opened Types
  import opened TimeCodec

  /**
   * One `handleInputChange(field, value, section)` call, naming the field
   * and, for `run` and `additionalWorkout`, the section it lives in.
   */
  datatype FieldEdit =
    | SetWeight(weight: real)
    | SetCalories(calories: int)
    | SetRunTime(time: int)
    | SetRunDistance(distance: real)
    | SetRunCalories(runCalories: int)
    | SetRunPace(pace: string)
    | SetRunElevation(elevationGain: int)
    | SetRunHeartRate(runHeartRate: int)
    | SetWorkoutType(kind: WorkoutType)
    | SetWorkoutLength(length: int)
    | SetWorkoutCalories(workoutCalories: int)
    | SetWorkoutHeartRate(workoutHeartRate: int)

  /** The editable fields of an entry; the date is not among them. */
  datatype Field =
    | Weight | Calories
    | RunTime | RunDistance | RunCalories | RunPace | RunElevation | RunHeartRate
    | WorkoutKind | WorkoutLength | WorkoutCalories | WorkoutHeartRate

  /** The value held by one field. */
  datatype FieldValue = IntValue(i: int) | RealValue(r: real) | TextValue(t: string) | KindValue(k: WorkoutType)

  /** Read one field of an entry. */
  function Get(e: DailyEntry, f: Field): FieldValue
  {
    match f
    case Weight => RealValue(e.weight)
    case Calories => IntValue(e.calories)
    case RunTime => IntValue(e.run.time)
    case RunDistance => RealValue(e.run.distance)
    case RunCalories => IntValue(e.run.calories)
    case RunPace => TextValue(e.run.avgPacePerMile)
    case RunElevation => IntValue(e.run.elevationGain)
    case RunHeartRate => IntValue(e.run.avgHeartRate)
    case WorkoutKind => KindValue(e.additionalWorkout.kind)
    case WorkoutLength => IntValue(e.additionalWorkout.length)
    case WorkoutCalories => IntValue(e.additionalWorkout.calories)
    case WorkoutHeartRate => IntValue(e.additionalWorkout.avgHeartRate)
  }

  /** Reading every field and the date determines the entry. */
  lemma FieldsDetermineEntry(a: DailyEntry, b: DailyEntry)
    requires a.date == b.date
    requires forall f :: Get(a, f) == Get(b, f)
    ensures a == b
  {
    assert Get(a, Weight) == Get(b, Weight) && Get(a, Calories) == Get(b, Calories);
    assert Get(a, RunTime) == Get(b, RunTime) && Get(a, RunDistance) == Get(b, RunDistance);
    assert Get(a, RunCalories) == Get(b, RunCalories) && Get(a, RunPace) == Get(b, RunPace);
    assert Get(a, RunElevation) == Get(b, RunElevation) && Get(a, RunHeartRate) == Get(b, RunHeartRate);
    assert Get(a, WorkoutKind) == Get(b, WorkoutKind) && Get(a, WorkoutLength) == Get(b, WorkoutLength);
    assert Get(a, WorkoutCalories) == Get(b, WorkoutCalories) && Get(a, WorkoutHeartRate) == Get(b, WorkoutHeartRate);
    assert a.run == b.run && a.additionalWorkout == b.additionalWorkout;
  }

  function FieldOf(edit: FieldEdit): Field
  {
    match edit
    case SetWeight(_) => Weight
    case SetCalories(_) => Calories
    case SetRunTime(_) => RunTime
    case SetRunDistance(_) => RunDistance
    case SetRunCalories(_) => RunCalories
    case SetRunPace(_) => RunPace
    case SetRunElevation(_) => RunElevation
    case SetRunHeartRate(_) => RunHeartRate
    case SetWorkoutType(_) => WorkoutKind
    case SetWorkoutLength(_) => WorkoutLength
    case SetWorkoutCalories(_) => WorkoutCalories
    case SetWorkoutHeartRate(_) => WorkoutHeartRate
  }

  function ValueOf(edit: FieldEdit): FieldValue
  {
    match edit
    case SetWeight(x) => RealValue(x)
    case SetCalories(x) => IntValue(x)
    case SetRunTime(x) => IntValue(x)
    case SetRunDistance(x) => RealValue(x)
    case SetRunCalories(x) => IntValue(x)
    case SetRunPace(x) => TextValue(x)
    case SetRunElevation(x) => IntValue(x)
    case SetRunHeartRate(x) => IntValue(x)
    case SetWorkoutType(x) => KindValue(x)
    case SetWorkoutLength(x) => IntValue(x)
    case SetWorkoutCalories(x) => IntValue(x)
    case SetWorkoutHeartRate(x) => IntValue(x)
  }

  /**
   * `handleInputChange`: the spread `{ ...prev, [section]: { ...prev[section],
   * [field]: value } }` sets the named field to the value and leaves the
   * date and every other field as they were.
   */
  function ApplyEdit(e: DailyEntry, edit: FieldEdit): (r: DailyEntry)
    ensures r.date == e.date
    ensures Get(r, FieldOf(edit)) == ValueOf(edit)
    ensures forall f :: f != FieldOf(edit) ==> Get(r, f) == Get(e, f)
  {
    match edit
    case SetWeight(x) => e.(weight := x)
    case SetCalories(x) => e.(calories := x)
    case SetRunTime(x) => e.(run := e.run.(time := x))
    case SetRunDistance(x) => e.(run := e.run.(distance := x))
    case SetRunCalories(x) => e.(run := e.run.(calories := x))
    case SetRunPace(x) => e.(run := e.run.(avgPacePerMile := x))
    case SetRunElevation(x) => e.(run := e.run.(elevationGain := x))
    case SetRunHeartRate(x) => e.(run := e.run.(avgHeartRate := x))
    case SetWorkoutType(x) => e.(additionalWorkout := e.additionalWorkout.(kind := x))
    case SetWorkoutLength(x) => e.(additionalWorkout := e.additionalWorkout.(length := x))
    case SetWorkoutCalories(x) => e.(additionalWorkout := e.additionalWorkout.(calories := x))
    case SetWorkoutHeartRate(x) => e.(additionalWorkout := e.additionalWorkout.(avgHeartRate := x))
  }

  /** A later edit of the same field overwrites an earlier one. */
  lemma LastEditWins(e: DailyEntry, first: FieldEdit, second: FieldEdit)
    requires FieldOf(first) == FieldOf(second)
    ensures ApplyEdit(ApplyEdit(e, first), second) == ApplyEdit(e, second)
  {
    var a, b := ApplyEdit(ApplyEdit(e, first), second), ApplyEdit(e, second);
    forall f ensures Get(a, f) == Get(b, f) {
    }
    FieldsDetermineEntry(a, b);
  }

  /** Edits of different fields commute: the order of the keystrokes does not matter. */
  lemma EditsOfDifferentFieldsCommute(e: DailyEntry, first: FieldEdit, second: FieldEdit)
    requires FieldOf(first) != FieldOf(second)
    ensures ApplyEdit(ApplyEdit(e, first), second) == ApplyEdit(ApplyEdit(e, second), first)
  {
    var a, b := ApplyEdit(ApplyEdit(e, first), second), ApplyEdit(ApplyEdit(e, second), first);
    forall f ensures Get(a, f) == Get(b, f) {
    }
    FieldsDetermineEntry(a, b);
  }

  /**
   * The typed time text and the entry's run time agree wherever the save
   * gate looks: a valid text that reads as at least 20 minutes is exactly
   * the run time the entry holds.
   */
  ghost predicate TimeTextAgrees(e: DailyEntry, timeText: string)
  {
    ValidateTimeString(timeText) && TimeStringToSeconds(timeText) >= MinimumRunSeconds
    ==> e.run.time == TimeStringToSeconds(timeText)
  }

  /** The 20-minute minimum run, in seconds. */
  const MinimumRunSeconds := 1200

  /** Loading an entry shows its own time as text, and that text agrees with it. */
  lemma LoadedTimeAgrees(e: DailyEntry)
    ensures TimeTextAgrees(e, SecondsToTimeString(e.run.time))
  {
    if e.run.time >= 0 {
      RoundTrip(e.run.time);
    } else {
      NegativeEncodesAsZero(e.run.time);
    }
  }

  /** A time change copies a valid text's value into the entry and leaves it alone otherwise; both agree. */
  lemma TimeChangeAgrees(e: DailyEntry, timeText: string)
    ensures TimeTextAgrees(
              if ValidateTimeString(timeText) then ApplyEdit(e, SetRunTime(TimeStringToSeconds(timeText))) else e,
              timeText)
  {
  }

  /** Edits of fields other than the run time keep the agreement. */
  lemma OtherEditsKeepAgreement(e: DailyEntry, timeText: string, edit: FieldEdit)
    requires TimeTextAgrees(e, timeText) && FieldOf(edit) != RunTime
    ensures TimeTextAgrees(ApplyEdit(e, edit), timeText)
  {
    assert Get(ApplyEdit(e, edit), RunTime) == Get(e, RunTime);
  }

  /**
   * The stronger relation the time handlers keep once a non-negative run time
   * is loaded: whenever the text is valid, the run time is its value.
   */
  ghost predicate TimeTextSynced(e: DailyEntry, timeText: string)
  {
    ValidateTimeString(timeText) ==> e.run.time == TimeStringToSeconds(timeText)
  }

  /** Loading a non-negative run time shows text that is in sync with it. */
  lemma LoadedTimeSynced(e: DailyEntry)
    requires e.run.time >= 0
    ensures TimeTextSynced(e, SecondsToTimeString(e.run.time))
  {
    RoundTrip(e.run.time);
  }

  /** After a time change the text and the run time are in sync. */
  lemma TimeChangeSynced(e: DailyEntry, timeText: string)
    ensures TimeTextSynced(
              if ValidateTimeString(timeText) then ApplyEdit(e, SetRunTime(TimeStringToSeconds(timeText))) else e,
              timeText)
  {
  }

  /** Edits of fields other than the run time keep the text in sync. */
  lemma OtherEditsKeepSync(e: DailyEntry, timeText: string, edit: FieldEdit)
    requires TimeTextSynced(e, timeText) && FieldOf(edit) != RunTime
    ensures TimeTextSynced(ApplyEdit(e, edit), timeText)
  {
    assert Get(ApplyEdit(e, edit), RunTime) == Get(e, RunTime);
  }
}
