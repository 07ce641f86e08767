/**
 * src/components/App.tsx: an older copy of the top-level component that holds
 * the same migration and the same mount effect. The source keeps two separate
 * copies of that code, so each is written out again here, deliberately, and
 * proved against the same functions as the one of src/App.tsx, which shows
 * that the two copies behave alike. The rest of this copy is elided in the
 * source file itself.
 */
module ComponentsApp {
  import opened Wrappers
  import opened Types
  import Store = ChallengeStore
  import MainApp

  /** `migrateTimeData` of this copy. */
  method MigrateTimeData(data: ChallengeData) returns (migrated: ChallengeData)
    ensures migrated == Store.Migrated(data)
  {
    var entries := data.entries;
    var pending := data.entries.Keys;
    while pending != {}
      invariant pending <= data.entries.Keys
      invariant entries.Keys == data.entries.Keys
      invariant forall d :: d in pending ==> entries[d] == data.entries[d]
      invariant forall d :: d in data.entries && d !in pending ==> entries[d] == Store.MigrateEntry(data.entries[d])
      decreases pending
    {
      NonEmptyHasMember(pending);
      var key :| key in pending;
      var entry := entries[key];
      if entry.run.time > 0 && entry.run.time < 7200 {
        entries := entries[key := entry.(run := entry.run.(time := entry.run.time * 60))];
      }
      pending := pending - {key};
    }
    migrated := data.(entries := entries);
    assert forall d :: d in entries ==> entries[d] == Store.Migrated(data).entries[d];
    assert migrated.entries == Store.Migrated(data).entries;
  }

  class App {
    var challengeData: ChallengeData
    const store: MainApp.LocalStore

    constructor (store: MainApp.LocalStore, today: Date)
      ensures this.store == store
      ensures challengeData == Store.DefaultData(today)
    {
      this.store := store;
      challengeData := ChallengeData(Some(today), map[], 2000);
    }

    /** The mount effect of this copy: the same outcome as the one of src/App.tsx. */
    method LoadOnMount()
      modifies this, store
      ensures (challengeData, store.State()) == Store.LoadOutcome(old(store.State()), old(challengeData))
    {
      var savedData := store.saved;
      var migrationComplete := store.flag;
      if savedData.Some? && savedData.value.Document? {
        var data := savedData.value.data;
        if migrationComplete.None? || migrationComplete.value == "" {
          data := MigrateTimeData(data);
          store.saved := Some(Store.Document(data));
          store.flag := Some("true");
        }
        challengeData := data;
      }
    }
  }
}
