/**
 * The history screen (src/components/HistoryView.tsx): the searched and
 * sorted list of logged days, the day badge, and the edit mode with its
 * time text and 20-minute save gate.
 */
module HistoryView {
  import opened Wrappers
  import opened Types
  import opened Text
  import opened TimeCodec
  import opened EntryOrder
  import opened EntryForms
  import ChallengeStore

  /**
   * How the page renders the values it searches: the stored date text
   * (`entry.date`, "YYYY-MM-DD") and `Number#toString` of the weight.
   */
  datatype Formats = Formats(dateText: Date -> string, weightText: real -> string)

  /**
   * The search filter: the term occurs in the date text or the weight text
   * (case-sensitively), or, lower-cased, in the lower-cased workout type.
   */
  predicate MatchesSearch(e: DailyEntry, term: string, fmt: Formats)
  {
    Contains(fmt.dateText(e.date), term)
    || Contains(fmt.weightText(e.weight), term)
    || Contains(Lower(WorkoutTypeText(e.additionalWorkout.kind)), Lower(term))
  }

  /** The empty search term matches every entry. */
  lemma EmptyTermMatchesAll(e: DailyEntry, fmt: Formats)
    ensures MatchesSearch(e, "", fmt)
  {
    ContainsEmpty(fmt.dateText(e.date));
  }

  /** `Array#filter` with the search predicate, keeping the order. */
  function Filter(s: seq<DailyEntry>, term: string, fmt: Formats): (r: seq<DailyEntry>)
    ensures forall e :: e in r <==> e in s && MatchesSearch(e, term, fmt)
    ensures multiset(r) <= multiset(s)
    ensures forall e :: multiset(r)[e] == if MatchesSearch(e, term, fmt) then multiset(s)[e] else 0
    ensures term == "" ==> r == s
  {
    if s == [] then []
    else
      assert s == [s[0]] + s[1..];
      assert term == "" ==> MatchesSearch(s[0], term, fmt) by {
        if term == "" { EmptyTermMatchesAll(s[0], fmt); }
      }
      var rest := Filter(s[1..], term, fmt);
      if MatchesSearch(s[0], term, fmt) then [s[0]] + rest else rest
  }

  /** Filtering a concatenation filters each part, so the kept entries stay in their order. */
  lemma {:induction false} FilterAppend(a: seq<DailyEntry>, b: seq<DailyEntry>, term: string, fmt: Formats)
    ensures Filter(a + b, term, fmt) == Filter(a, term, fmt) + Filter(b, term, fmt)
  {
    if a != [] {
      assert (a + b)[0] == a[0] && (a + b)[1..] == a[1..] + b;
      FilterAppend(a[1..], b, term, fmt);
    } else {
      assert a + b == b;
    }
  }

  /**
   * `sortedEntries`: the matching logged entries, sorted in descending order
   * of the chosen key (newest, heaviest or highest intake first).
   */
  function SortedEntries(entries: map<Date, DailyEntry>, term: string, sortBy: SortKey, fmt: Formats): (r: seq<DailyEntry>)
    ensures SortedDesc(r, sortBy)
    ensures forall e :: e in r <==> e in entries.Values && MatchesSearch(e, term, fmt)
    ensures multiset(r) <= multiset(Values(entries))
    ensures forall e :: multiset(r)[e] == if MatchesSearch(e, term, fmt) then multiset(Values(entries))[e] else 0
  {
    var filtered := Filter(Values(entries), term, fmt);
    var r := SortDesc(filtered, sortBy);
    forall e ensures e in r <==> e in entries.Values && MatchesSearch(e, term, fmt) {
      assert e in r <==> e in multiset(filtered);
      if e in entries.Values {
        DateOfListedEntry(entries, e);
        var d :| d in entries && entries[d] == e;
        assert e in Values(entries);
      }
    }
    r
  }

  /** With no search term, the list is every logged entry, each once, only reordered. */
  lemma EmptySearchListsAll(entries: map<Date, DailyEntry>, sortBy: SortKey, fmt: Formats)
    ensures multiset(SortedEntries(entries, "", sortBy, fmt)) == multiset(Values(entries))
    ensures |SortedEntries(entries, "", sortBy, fmt)| == |entries|
  {
    var r := SortedEntries(entries, "", sortBy, fmt);
    assert |multiset(r)| == |multiset(Values(entries))|;
  }

  /** The workout search folds case: "STR" finds every strength day. */
  lemma WorkoutSearchIgnoresCase(e: DailyEntry, fmt: Formats)
    requires e.additionalWorkout.kind == Strength
    ensures MatchesSearch(e, "STR", fmt)
  {
    assert Lower("STR") == "str";
    assert StartsWith("strength", "str");
  }

  /**
   * `getDayNumber`: the days between the start and the entry's date, in
   * either direction, so the start day itself is day 0. Without a start
   * date the arithmetic is not a number, so there is no day.
   */
  function GetDayNumber(startDate: Option<Date>, date: Date): (day: Option<nat>)
    ensures day.None? <==> startDate.None?
    ensures day.Some? ==> day.value == ChallengeStore.Abs(date - startDate.value)
  {
    match startDate
    case None => None
    case Some(start) =>
      var diff := ChallengeStore.Abs(date * ChallengeStore.MsPerDay - start * ChallengeStore.MsPerDay);
      var days := ChallengeStore.Abs(date - start);
      assert diff == days * ChallengeStore.MsPerDay;
      Some(ChallengeStore.CeilDays(diff))
  }

  /** The edit mode: the entry being edited, if any, and the time text shown for it. */
  class HistoryEditor {
    var editingEntry: Option<DailyEntry>
    var editTimeInput: string

    /** The save gate passes only a run time the entry really holds. */
    ghost predicate Valid()
      reads this
    {
      editingEntry.Some? ==> TimeTextAgrees(editingEntry.value, editTimeInput)
    }

    /** While editing, a valid time text is exactly the edited run time. */
    ghost predicate Synced()
      reads this
    {
      editingEntry.Some? ==> TimeTextSynced(editingEntry.value, editTimeInput)
    }

    /** Nothing is being edited and the time text starts as "0:00". */
    constructor()
      ensures editingEntry == None && editTimeInput == "0:00"
      ensures Valid()
    {
      editingEntry := None;
      editTimeInput := "0:00";
    }

    /** `handleEditEntry`: edit a copy of the entry, showing its time as text. */
    method HandleEditEntry(entry: DailyEntry)
      modifies this
      ensures editingEntry == Some(entry)
      ensures editTimeInput == SecondsToTimeString(entry.run.time)
      ensures Valid()
      ensures entry.run.time >= 0 ==> Synced()
    {
      editingEntry := Some(entry);
      editTimeInput := SecondsToTimeString(entry.run.time);
      LoadedTimeAgrees(entry);
      if entry.run.time >= 0 {
        LoadedTimeSynced(entry);
      }
    }

    /**
     * `handleSaveEdit`: with an entry being edited, hand it to the parent
     * and leave edit mode when the time text is valid and at least 20:00;
     * otherwise (the alert) change nothing.
     */
    method HandleSaveEdit() returns (update: Option<DailyEntry>)
      modifies this
      ensures var accepted := old(editingEntry).Some? && ValidateTimeString(old(editTimeInput))
                              && TimeStringToSeconds(old(editTimeInput)) >= MinimumRunSeconds;
              if accepted then update == old(editingEntry) && editingEntry == None && editTimeInput == old(editTimeInput)
              else update == None && editingEntry == old(editingEntry) && editTimeInput == old(editTimeInput)
      ensures old(Valid()) && update.Some? ==> update.value.run.time >= MinimumRunSeconds
      ensures old(Valid()) ==> Valid()
    {
      update := None;
      if editingEntry.Some? {
        var seconds := TimeStringToSeconds(editTimeInput);
        if !ValidateTimeString(editTimeInput) || seconds < MinimumRunSeconds {
          return;
        }
        update := editingEntry;
        editingEntry := None;
      }
    }

    /** The Cancel button: leave edit mode without saving. */
    method Cancel()
      modifies this
      ensures editingEntry == None && editTimeInput == old(editTimeInput)
      ensures Valid()
    {
      editingEntry := None;
    }

    /**
     * `handleInputChange`: outside edit mode nothing happens; in it the edit
     * is applied to the entry being edited.
     */
    method HandleInputChange(edit: FieldEdit)
      modifies this
      ensures editingEntry == if old(editingEntry).None? then None else Some(ApplyEdit(old(editingEntry).value, edit))
      ensures editTimeInput == old(editTimeInput)
      ensures old(Valid()) && FieldOf(edit) != RunTime ==> Valid()
      ensures old(Synced()) && FieldOf(edit) != RunTime ==> Synced()
    {
      if editingEntry.None? {
        return;
      }
      var e := editingEntry.value;
      if Valid() && FieldOf(edit) != RunTime {
        OtherEditsKeepAgreement(e, editTimeInput, edit);
      }
      if Synced() && FieldOf(edit) != RunTime {
        OtherEditsKeepSync(e, editTimeInput, edit);
      }
      editingEntry := Some(ApplyEdit(e, edit));
    }

    /**
     * `handleEditTimeInputChange`: show the typed text and, when it is
     * valid, copy its value into the entry's run time.
     */
    method HandleEditTimeInputChange(timeText: string)
      modifies this
      ensures editTimeInput == timeText
      ensures editingEntry ==
                if ValidateTimeString(timeText) && old(editingEntry).Some?
                then Some(ApplyEdit(old(editingEntry).value, SetRunTime(TimeStringToSeconds(timeText))))
                else old(editingEntry)
      ensures Valid() && Synced()
    {
      editTimeInput := timeText;
      if ValidateTimeString(timeText) {
        var seconds := TimeStringToSeconds(timeText);
        HandleInputChange(SetRunTime(seconds));
      }
      if editingEntry.Some? {
        var before := if ValidateTimeString(timeText) then old(editingEntry).value else editingEntry.value;
        TimeChangeAgrees(before, timeText);
        TimeChangeSynced(before, timeText);
      }
    }

    /** `handleDeleteEntry`: the date to delete, only when the user confirms. */
    method HandleDeleteEntry(date: Date, confirmed: bool) returns (deleted: Option<Date>)
      ensures deleted.Some? <==> confirmed
      ensures deleted.Some? ==> deleted.value == date
    {
      deleted := if confirmed then Some(date) else None;
    }
  }

  /** Typing the invalid "20:75" over a 25-minute run leaves the entry as it was, and the save is refused. */
  method InvalidTextKeepsLastValidTime(entry: DailyEntry) returns (update: Option<DailyEntry>)
    requires entry.run.time == 1500
    ensures update == None
  {
    var editor := new HistoryEditor();
    editor.HandleEditEntry(entry);
    editor.HandleEditTimeInputChange("20:75");
    DecodeInvalidExample();
    assert editor.editingEntry == Some(entry);
    update := editor.HandleSaveEdit();
  }

  /** The save gate's boundary: a 19:59 run is refused and a 20:00 run is handed on. */
  method SaveGateBoundary(short: DailyEntry, enough: DailyEntry) returns (refused: Option<DailyEntry>, accepted: Option<DailyEntry>)
    requires short.run.time == 1199 && enough.run.time == 1200
    ensures refused == None
    ensures accepted == Some(enough)
  {
    var editor := new HistoryEditor();
    editor.HandleEditEntry(short);
    RoundTrip(1199);
    EncodeIsValid(1199);
    refused := editor.HandleSaveEdit();
    editor.HandleEditEntry(enough);
    RoundTrip(1200);
    EncodeIsValid(1200);
    accepted := editor.HandleSaveEdit();
  }
}
