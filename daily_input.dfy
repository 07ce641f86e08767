/**
 * The daily log form (src/components/DailyInput.tsx): the entry being
 * filled in, its time text, the picked date, and the two checks a submit
 * passes through — the browser's constraint validation of the inputs, then
 * the handler's 20-minute gate.
 */
module DailyInput {
  import opened Wrappers
  import opened Types
  import opened TimeCodec
  import opened EntryForms

  /** The form's starting entry: today's date, zeros, pace "0:00", strength training. */
  function BlankEntry(today: Date): (e: DailyEntry)
    ensures e.date == today && e.run.time == 0 && e.additionalWorkout.kind == Strength
    ensures forall f :: f != RunPace && f != WorkoutKind && f != Weight && f != RunDistance ==> Get(e, f) == IntValue(0)
    ensures e.weight == 0.0 && e.run.distance == 0.0 && e.run.avgPacePerMile == "0:00"
  {
    DailyEntry(today, 0.0, 0,
      RunData(0, 0.0, 0, "0:00", 0, 0),
      AdditionalWorkoutData(Strength, 0, 0, 0))
  }

  /** The 20-minute check of `isTimeValid`: it reads the text, valid or not. */
  predicate TimeGate(timeText: string)
  {
    TimeStringToSeconds(timeText) >= MinimumRunSeconds
  }

  /**
   * What the browser checks before it fires `onSubmit`. A numeric input bound
   * to `x || ''` shows 0 as empty, which `required` refuses; the time text
   * must match `\d+:[0-5]\d`, and the workout length must be at least 20
   * (`min="20"`). The `step="0.1"` of weight and distance counts from the
   * input's `value` attribute, which React keeps equal to the value, so it
   * refuses nothing here.
   */
  predicate PassesConstraintValidation(e: DailyEntry, timeText: string)
  {
    e.weight != 0.0 && e.calories != 0
    && MatchesTimePattern(timeText)
    && e.run.distance != 0.0 && e.run.calories != 0
    && e.run.avgPacePerMile != "" && e.run.elevationGain != 0 && e.run.avgHeartRate != 0
    && e.additionalWorkout.length >= 20
    && e.additionalWorkout.calories != 0 && e.additionalWorkout.avgHeartRate != 0
  }

  /** A time text the browser lets through is one `validateTimeString` accepts. */
  lemma PatternPassesValidation(timeText: string)
    requires MatchesTimePattern(timeText)
    ensures ValidateTimeString(timeText)
  {
    PatternIffShape(timeText);
    ValidateIffShape(timeText);
  }

  class DailyInputForm {
    var entry: DailyEntry
    var timeInput: string
    var selectedDate: Date

    /** The time text never lets the 20-minute gate pass a run time the entry does not hold. */
    ghost predicate Valid()
      reads this
    {
      TimeTextAgrees(entry, timeInput)
    }

    /** A blank entry for `today`, the time text "0:00" and today picked. */
    constructor(today: Date)
      ensures entry == BlankEntry(today) && timeInput == "0:00" && selectedDate == today
      ensures Valid()
    {
      entry := BlankEntry(today);
      timeInput := "0:00";
      selectedDate := today;
      LoadedTimeAgrees(BlankEntry(today));
    }

    /** The effect on `existingEntry`: load it, its date and its time as text; nothing without one. */
    method LoadExistingEntry(existing: Option<DailyEntry>)
      modifies this
      ensures existing.None? ==> entry == old(entry) && timeInput == old(timeInput) && selectedDate == old(selectedDate)
      ensures existing.Some? ==>
                entry == existing.value && selectedDate == existing.value.date
                && timeInput == SecondsToTimeString(existing.value.run.time)
      ensures old(Valid()) ==> Valid()
      ensures existing.Some? ==> Valid()
    {
      if existing.Some? {
        entry := existing.value;
        selectedDate := existing.value.date;
        timeInput := SecondsToTimeString(existing.value.run.time);
        LoadedTimeAgrees(entry);
      }
    }

    /** `handleInputChange`: apply one field edit to the entry. */
    method HandleInputChange(edit: FieldEdit)
      modifies this
      ensures entry == ApplyEdit(old(entry), edit)
      ensures timeInput == old(timeInput) && selectedDate == old(selectedDate)
      ensures old(Valid()) && FieldOf(edit) != RunTime ==> Valid()
    {
      if Valid() && FieldOf(edit) != RunTime {
        OtherEditsKeepAgreement(entry, timeInput, edit);
      }
      entry := ApplyEdit(entry, edit);
    }

    /** `handleTimeInputChange`: show the text; copy its value into the run time only when it is valid. */
    method HandleTimeInputChange(timeText: string)
      modifies this
      ensures timeInput == timeText && selectedDate == old(selectedDate)
      ensures entry == if ValidateTimeString(timeText)
                       then ApplyEdit(old(entry), SetRunTime(TimeStringToSeconds(timeText)))
                       else old(entry)
      ensures Valid()
    {
      TimeChangeAgrees(entry, timeText);
      timeInput := timeText;
      if ValidateTimeString(timeText) {
        var seconds := TimeStringToSeconds(timeText);
        HandleInputChange(SetRunTime(seconds));
      }
    }

    /** `isTimeValid`: the time text reads as at least 20 minutes. */
    predicate IsTimeValid()
      reads this
    {
      TimeGate(timeInput)
    }

    /** `handleDateChange`: a picked date moves the entry to that day; clearing the picker does nothing. */
    method HandleDateChange(date: Option<Date>)
      modifies this
      ensures date.None? ==> entry == old(entry) && selectedDate == old(selectedDate)
      ensures date.Some? ==> selectedDate == date.value && entry == old(entry).(date := date.value)
      ensures timeInput == old(timeInput)
      ensures old(Valid()) ==> Valid()
    {
      if date.Some? {
        selectedDate := date.value;
        entry := entry.(date := date.value);
      }
    }

    /**
     * `handleSubmit`: the entry to hand to `onSave` when the time text reads
     * as at least 20 minutes, and nothing (the alert) otherwise. The handler
     * itself does not check that the text is valid.
     */
    method HandleSubmit() returns (saved: Option<DailyEntry>)
      ensures saved.Some? <==> TimeGate(timeInput)
      ensures saved.Some? ==> saved.value == entry
      ensures Valid() && ValidateTimeString(timeInput) && saved.Some? ==> saved.value.run.time >= MinimumRunSeconds
    {
      if !IsTimeValid() {
        return None;
      }
      return Some(entry);
    }

    /**
     * Pressing Save: the browser's constraint validation first, then
     * `handleSubmit`. What gets saved holds a run of at least 20 minutes and
     * a workout of at least 20 minutes.
     */
    method SubmitForm() returns (saved: Option<DailyEntry>)
      ensures saved.Some? <==> PassesConstraintValidation(entry, timeInput) && TimeGate(timeInput)
      ensures saved.Some? ==> saved.value == entry
      ensures Valid() && saved.Some? ==>
                saved.value.run.time >= MinimumRunSeconds && saved.value.additionalWorkout.length >= 20
    {
      if !PassesConstraintValidation(entry, timeInput) {
        return None;
      }
      PatternPassesValidation(timeInput);
      saved := HandleSubmit();
    }
  }

  /** The untouched form fails the 20-minute gate: "0:00" reads as 0 seconds. */
  lemma BlankFormFailsGate()
    ensures !TimeGate("0:00")
  {
    RoundTrip(0);
  }

  /**
   * Typing "20:75" into a fresh form: the text is invalid, so the run time
   * stays 0, but it reads as 1275 seconds, so `handleSubmit` alone would
   * save the blank entry with no run time. The browser refuses the text
   * first, so pressing Save saves nothing.
   */
  method InvalidTextScenario(today: Date) returns (handlerResult: Option<DailyEntry>, formResult: Option<DailyEntry>)
    ensures handlerResult == Some(BlankEntry(today)) && handlerResult.value.run.time == 0
    ensures formResult == None
  {
    var form := new DailyInputForm(today);
    DecodeInvalidExample();
    form.HandleTimeInputChange("20:75");
    handlerResult := form.HandleSubmit();
    PatternIffShape("20:75");
    ValidateIffShape("20:75");
    formResult := form.SubmitForm();
  }
}
