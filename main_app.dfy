/**
 * The top-level component of src/App.tsx as a state machine: the challenge
 * data it holds, the browser store it loads from on mount and writes back to
 * on every change, and the three handlers it passes down to the views.
 */
module MainApp {
  import opened Wrappers
  import opened Types
  import opened ChallengeStore

  /** Local storage, reduced to its two items: the data document and the migration flag. */
  class LocalStore {
    var saved: Option<Stored>
    var flag: Option<string>

    constructor (saved: Option<Stored>, flag: Option<string>)
      ensures this.saved == saved && this.flag == flag
    {
      this.saved := saved;
      this.flag := flag;
    }

    function State(): Persisted
      reads this
    {
      Persisted(saved, flag)
    }
  }

  class App {
    var challengeData: ChallengeData
    const store: LocalStore

    /** The initial state: today as start date, no entries, 2000 target calories. */
    constructor (store: LocalStore, today: Date)
      ensures this.store == store
      ensures challengeData == DefaultData(today)
    {
      this.store := store;
      challengeData := ChallengeData(Some(today), map[], 2000);
    }

    /**
     * The mount effect: read both items; with a parseable document, migrate it
     * and write back the data and the flag when the flag is missing, then adopt
     * it. A document that does not parse is logged and ignored.
     */
    method LoadOnMount()
      modifies this, store
      ensures (challengeData, store.State()) == LoadOutcome(old(store.State()), old(challengeData))
    {
      var savedData := store.saved;
      var migrationComplete := store.flag;
      if savedData.Some? {
        match savedData.value
        case Malformed =>
        case Document(parsed) =>
          var data := parsed;
          if migrationComplete.None? || migrationComplete.value == "" {
            data := MigrateTimeData(data);
            store.saved := Some(Document(data));
            store.flag := Some("true");
          }
          challengeData := data;
      }
    }

    /**
     * The write-through effect, run after mount and after every change of the
     * state: the state is saved under the data key, even over a document that
     * did not parse, and the flag is left as it is.
     */
    method SaveChallengeData()
      modifies store
      ensures store.State() == SaveEffect(old(store.State()), challengeData)
    {
      store.saved := Some(Document(challengeData));
    }

    method HandleSaveEntry(entry: DailyEntry)
      modifies this
      ensures challengeData == Upsert(old(challengeData), entry)
    {
      challengeData := challengeData.(entries := challengeData.entries[entry.date := entry]);
    }

    method HandleUpdateEntry(entry: DailyEntry)
      modifies this
      ensures challengeData == Upsert(old(challengeData), entry)
    {
      challengeData := challengeData.(entries := challengeData.entries[entry.date := entry]);
    }

    method HandleDeleteEntry(date: Date)
      modifies this
      ensures challengeData == Remove(old(challengeData), date)
    {
      var newEntries := challengeData.entries - {date};
      challengeData := challengeData.(entries := newEntries);
    }

    /** `getCurrentDay`, read against the clock value `nowMs`. */
    function GetCurrentDay(nowMs: int): (day: int)
      reads this
      ensures 0 <= day <= ChallengeLength
      ensures challengeData.startDate.None? ==> day == 1
    {
      CurrentDay(challengeData.startDate, nowMs)
    }
  }
}
