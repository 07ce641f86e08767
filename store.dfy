/**
 * The pure rules of the top-level component (src/App.tsx): keyed upsert and
 * removal of entries, the elapsed-day counter, the one-shot minutes-to-seconds
 * migration and the flag-gated load sequence.
 */
module ChallengeStore {
  import opened Wrappers
  import opened Types

  /** `handleSaveEntry` and `handleUpdateEntry`: store the entry at its own date. */
  function Upsert(data: ChallengeData, entry: DailyEntry): (r: ChallengeData)
    ensures r.entries.Keys == data.entries.Keys + {entry.date}
    ensures entry.date in r.entries && r.entries[entry.date] == entry
    ensures forall d :: d in data.entries && d != entry.date ==> r.entries[d] == data.entries[d]
    ensures r.startDate == data.startDate && r.targetCalories == data.targetCalories
  {
    data.(entries := data.entries[entry.date := entry])
  }

  /** `handleDeleteEntry`: drop the entry at one date, if there is one. */
  function Remove(data: ChallengeData, date: Date): (r: ChallengeData)
    ensures r.entries.Keys == data.entries.Keys - {date}
    ensures forall d :: d in r.entries ==> r.entries[d] == data.entries[d]
    ensures r.startDate == data.startDate && r.targetCalories == data.targetCalories
    ensures date !in data.entries ==> r == data
  {
    data.(entries := data.entries - {date})
  }

  /** Upserting twice at the same date keeps only the second entry, once. */
  lemma UpsertSameDateTwice(data: ChallengeData, first: DailyEntry, second: DailyEntry)
    requires first.date == second.date
    ensures Upsert(Upsert(data, first), second) == Upsert(data, second)
    ensures |Upsert(Upsert(data, first), second).entries| == |Upsert(data, first).entries|
  {
    assert Upsert(Upsert(data, first), second).entries == Upsert(data, second).entries;
  }

  /** An upsert adds one entry exactly when the date was not yet present. */
  lemma UpsertSize(data: ChallengeData, entry: DailyEntry)
    ensures |Upsert(data, entry).entries| == |data.entries| + (if entry.date in data.entries then 0 else 1)
  {
    if entry.date in data.entries {
      assert Upsert(data, entry).entries.Keys == data.entries.Keys;
    } else {
      assert Upsert(data, entry).entries.Keys == data.entries.Keys + {entry.date};
    }
  }

  /** Deleting a freshly added date undoes the upsert. */
  lemma RemoveUndoesNewUpsert(data: ChallengeData, entry: DailyEntry)
    requires entry.date !in data.entries
    ensures Remove(Upsert(data, entry), entry.date) == data
  {
    assert Remove(Upsert(data, entry), entry.date).entries == data.entries;
  }

  /** Both mutations keep every key equal to its entry's date. */
  lemma MutationsKeepKeysMatchingDates(data: ChallengeData, entry: DailyEntry, date: Date)
    requires KeysMatchDates(data.entries)
    ensures KeysMatchDates(Upsert(data, entry).entries)
    ensures KeysMatchDates(Remove(data, date).entries)
  {
  }

  const MsPerDay := 86400000

  /** The number of whole or partial days in `ms` milliseconds: `Math.ceil(ms / day)`. */
  function CeilDays(ms: nat): (days: nat)
    ensures days * MsPerDay >= ms
    ensures days == 0 || (days - 1) * MsPerDay < ms
  {
    (ms + MsPerDay - 1) / MsPerDay
  }

  function Abs(x: int): nat { if x < 0 then -x else x }

  /**
   * `getCurrentDay`: 1 when there is no start date; otherwise the days, rounded
   * up, between the start (midnight UTC) and `nowMs` in either direction,
   * capped at 75. `nowMs` is the clock reading, in milliseconds since the epoch.
   */
  function CurrentDay(startDate: Option<Date>, nowMs: int): (day: int)
    ensures startDate.None? ==> day == 1
    ensures 0 <= day <= ChallengeLength
    ensures startDate.Some? ==>
              var elapsed := Abs(nowMs - startDate.value * MsPerDay);
              (day < ChallengeLength ==> day * MsPerDay >= elapsed && (day == 0 || (day - 1) * MsPerDay < elapsed))
              && (day == ChallengeLength ==> elapsed > (ChallengeLength - 1) * MsPerDay)
  {
    match startDate
    case None => 1
    case Some(start) =>
      var diffDays := CeilDays(Abs(nowMs - start * MsPerDay));
      if diffDays < ChallengeLength then diffDays else ChallengeLength
  }

  /** A clock reading exactly at the start counts as day 0; one millisecond later is day 1. */
  lemma CurrentDayAtStart(start: Date)
    ensures CurrentDay(Some(start), start * MsPerDay) == 0
    ensures CurrentDay(Some(start), start * MsPerDay + 1) == 1
  {
  }

  /** The migration treats `0 < time < 7200` as a value stored in minutes. */
  predicate LooksLikeMinutes(time: int) { 0 < time && time < 7200 }

  /** One entry after migration: its run time times 60 when it looks like minutes. */
  function MigrateEntry(entry: DailyEntry): DailyEntry
  {
    if LooksLikeMinutes(entry.run.time)
    then entry.(run := entry.run.(time := entry.run.time * 60))
    else entry
  }

  /** The whole document after `migrateTimeData`: every entry migrated, nothing else touched. */
  function Migrated(data: ChallengeData): ChallengeData
  {
    data.(entries := map d | d in data.entries :: MigrateEntry(data.entries[d]))
  }

  /** What the migration changes: only run times in (0, 7200), each multiplied by 60. */
  lemma MigratedFields(data: ChallengeData, d: Date)
    ensures Migrated(data).entries.Keys == data.entries.Keys
    ensures Migrated(data).startDate == data.startDate
    ensures Migrated(data).targetCalories == data.targetCalories
    ensures d in data.entries ==>
              var before, after := data.entries[d], Migrated(data).entries[d];
              && after.run.time == (if 0 < before.run.time < 7200 then before.run.time * 60 else before.run.time)
              && after == before.(run := before.run.(time := after.run.time))
  {
  }

  /** The migration keeps every key equal to its entry's date. */
  lemma MigratedKeepsKeysMatchingDates(data: ChallengeData)
    requires KeysMatchDates(data.entries)
    ensures KeysMatchDates(Migrated(data).entries)
  {
  }

  /** The migration is not idempotent: a 45 becomes 2700, then 162000. */
  lemma MigrationNotIdempotent(data: ChallengeData, d: Date)
    requires d in data.entries && data.entries[d].run.time == 45
    ensures Migrated(data).entries[d].run.time == 2700
    ensures Migrated(Migrated(data)).entries[d].run.time == 162000
    ensures Migrated(Migrated(data)) != Migrated(data)
  {
    assert Migrated(Migrated(data)).entries[d] != Migrated(data).entries[d];
  }

  /**
   * `migrateTimeData`: visit every key and rewrite the entries whose run time
   * looks like minutes.
   */
  method MigrateTimeData(data: ChallengeData) returns (migrated: ChallengeData)
    ensures migrated == Migrated(data)
  {
    var entries := data.entries;
    var pending := data.entries.Keys;
    while pending != {}
      invariant pending <= data.entries.Keys
      invariant entries.Keys == data.entries.Keys
      invariant forall d :: d in pending ==> entries[d] == data.entries[d]
      invariant forall d :: d in data.entries && d !in pending ==> entries[d] == MigrateEntry(data.entries[d])
      decreases pending
    {
      NonEmptyHasMember(pending);
      var key :| key in pending;
      var entry := entries[key];
      if entry.run.time > 0 && entry.run.time < 7200 {
        entries := entries[key := entry.(run := entry.run.(time := entry.run.time * 60))];
      }
      pending := pending - {key};
    }
    migrated := data.(entries := entries);
    assert forall d :: d in entries ==> entries[d] == Migrated(data).entries[d];
    assert migrated.entries == Migrated(data).entries;
  }

  /** The stored item under the data key: a document, or text that does not parse. */
  datatype Stored = Document(data: ChallengeData) | Malformed

  /**
   * The persisted state: the data item and the migration flag. `None` stands
   * for a missing item; the source treats an empty item the same way.
   */
  datatype Persisted = Persisted(saved: Option<Stored>, flag: Option<string>)

  const MigrationDoneFlag := "true"

  /** `!migrationComplete`: the flag is missing or empty. */
  predicate MigrationPending(flag: Option<string>)
  {
    flag.None? || flag.value == ""
  }

  /** The state a fresh session starts from before loading: today as start, no entries. */
  function DefaultData(today: Date): ChallengeData
  {
    ChallengeData(Some(today), map[], DefaultTargetCalories)
  }

  /**
   * The mount effect: with a parseable document, migrate and write back both the
   * data and the flag when the flag is pending, and adopt the document;
   * otherwise keep the current state and the store as they are.
   */
  function LoadOutcome(store: Persisted, current: ChallengeData): (r: (ChallengeData, Persisted))
  {
    match store.saved
    case Some(Document(d)) =>
      if MigrationPending(store.flag)
      then (Migrated(d), Persisted(Some(Document(Migrated(d))), Some(MigrationDoneFlag)))
      else (d, store)
    case _ => (current, store)
  }

  /** The migration runs only for a parseable document with a pending flag, and then sets the flag. */
  lemma LoadGate(store: Persisted, current: ChallengeData)
    ensures var (data, after) := LoadOutcome(store, current);
            && (store.saved.Some? && store.saved.value.Document? && MigrationPending(store.flag) ==>
                  data == Migrated(store.saved.value.data)
                  && after.saved == Some(Document(data)) && after.flag == Some("true"))
            && (store.saved.Some? && store.saved.value.Document? && !MigrationPending(store.flag) ==>
                  data == store.saved.value.data && after == store)
            && (store.saved.None? || store.saved.value.Malformed? ==> data == current && after == store)
  {
  }

  /**
   * Loading a store that a load has already written (a document it migrated
   * and flagged, or one it adopted under a set flag) adopts the same data and
   * writes nothing, whatever the second session started from. This says
   * nothing about a store the load left without a document: see
   * `SecondSessionMigratesAgain`.
   */
  lemma ReloadDoesNotMigrateAgain(store: Persisted, current: ChallengeData, later: ChallengeData)
    ensures var (data, after) := LoadOutcome(store, current);
            after.saved.Some? && after.saved.value.Document? ==> LoadOutcome(after, later) == (data, after)
  {
  }

  /**
   * The write-through effect on `challengeData`: the serialised state replaces
   * the data item, whatever it held; the flag is left as it is.
   */
  function SaveEffect(store: Persisted, data: ChallengeData): Persisted
  {
    Persisted(Some(Document(data)), store.flag)
  }

  /** A load with no data item writes nothing, so a pending flag stays pending. */
  lemma EmptyLoadLeavesFlagPending(flag: Option<string>, current: ChallengeData)
    requires MigrationPending(flag)
    ensures LoadOutcome(Persisted(None, flag), current) == (current, Persisted(None, flag))
    ensures MigrationPending(LoadOutcome(Persisted(None, flag), current).1.flag)
  {
  }

  /**
   * Two sessions on a fresh browser: the first finds no data, so the flag is
   * never set; the save effect writes the state (run time in seconds) under
   * the missing flag; the second session's load then migrates that document,
   * and a 25-minute run of 1500 seconds becomes 90000 seconds.
   */
  lemma SecondSessionMigratesAgain(today: Date, entry: DailyEntry, later: ChallengeData)
    requires entry.run.time == 1500
    ensures var (first, afterLoad) := LoadOutcome(Persisted(None, None), DefaultData(today));
            var saved := Upsert(first, entry);
            var stored := SaveEffect(SaveEffect(afterLoad, first), saved);
            var (second, afterSecond) := LoadOutcome(stored, later);
            && saved.entries[entry.date].run.time == 1500
            && MigrationPending(stored.flag)
            && second.entries[entry.date].run.time == 90000
            && afterSecond.saved == Some(Document(second))
  {
    var saved := Upsert(DefaultData(today), entry);
    MigratedFields(saved, entry.date);
  }

  /**
   * The gate as evidently intended: like `LoadOutcome`, but when there is no
   * parseable document there is nothing stored in minutes either, so a
   * pending flag is set right away.
   */
  function FlaggedLoadOutcome(store: Persisted, current: ChallengeData): (r: (ChallengeData, Persisted))
    ensures !MigrationPending(r.1.flag)
    ensures store.saved.Some? && store.saved.value.Document? ==> r == LoadOutcome(store, current)
    ensures !(store.saved.Some? && store.saved.value.Document?) ==> r.0 == current && r.1.saved == store.saved
  {
    match store.saved
    case Some(Document(_)) => LoadOutcome(store, current)
    case _ =>
      if MigrationPending(store.flag) then (current, store.(flag := Some(MigrationDoneFlag))) else (current, store)
  }

  /**
   * Sessions one after another under the intended gate: each session loads,
   * starting from its own fresh state, and the save effect then writes the
   * state the session ends with.
   */
  function FlaggedSessions(store: Persisted, sessions: seq<(ChallengeData, ChallengeData)>): Persisted
    decreases |sessions|
  {
    if sessions == [] then store
    else
      var (_, afterLoad) := FlaggedLoadOutcome(store, sessions[0].0);
      FlaggedSessions(SaveEffect(afterLoad, sessions[0].1), sessions[1..])
  }

  /**
   * Under the intended gate the migration applies at most once: after any
   * first session, every later load adopts exactly what the previous session
   * wrote, unmigrated, and writes nothing.
   */
  lemma {:induction false} FlaggedGateMigratesAtMostOnce(store: Persisted, sessions: seq<(ChallengeData, ChallengeData)>, later: ChallengeData)
    requires sessions != []
    decreases |sessions|
    ensures var after := FlaggedSessions(store, sessions);
            && !MigrationPending(after.flag)
            && after.saved == Some(Document(sessions[|sessions| - 1].1))
            && FlaggedLoadOutcome(after, later) == (sessions[|sessions| - 1].1, after)
  {
    var (_, afterLoad) := FlaggedLoadOutcome(store, sessions[0].0);
    var next := SaveEffect(afterLoad, sessions[0].1);
    if |sessions| > 1 {
      FlaggedGateMigratesAtMostOnce(next, sessions[1..], later);
      assert sessions[1..][|sessions[1..]| - 1] == sessions[|sessions| - 1];
    }
  }

  /** The intended gate on a fresh browser: the second session adopts the saved 1500 seconds unchanged. */
  lemma FlaggedSecondSessionKeepsSeconds(today: Date, entry: DailyEntry, later: ChallengeData)
    requires entry.run.time == 1500
    ensures var (first, afterLoad) := FlaggedLoadOutcome(Persisted(None, None), DefaultData(today));
            var saved := Upsert(first, entry);
            var (second, _) := FlaggedLoadOutcome(SaveEffect(afterLoad, saved), later);
            second.entries[entry.date].run.time == 1500
  {
    var (first, afterLoad) := FlaggedLoadOutcome(Persisted(None, None), DefaultData(today));
    FlaggedGateMigratesAtMostOnce(Persisted(None, None), [(DefaultData(today), Upsert(first, entry))], later);
  }

  /** A document that does not parse leaves the fresh default state untouched. */
  lemma MalformedKeepsDefault(flag: Option<string>, today: Date)
    ensures LoadOutcome(Persisted(Some(Malformed), flag), DefaultData(today)).0 == DefaultData(today)
    ensures LoadOutcome(Persisted(Some(Malformed), flag), DefaultData(today)).0.entries == map[]
  {
  }
}
