/**
 * The data model of the challenge (src/types/index.ts).
 *
 * A calendar date is a day number: the number of days since 1970-01-01 (UTC).
 * The source keys entries by the ISO text `YYYY-MM-DD` and orders them by
 * `new Date(text).getTime()`, which for such texts is the day number times
 * 86400000, so integer order on day numbers is the source's date order.
 */
module Types {
  import opened Wrappers

  type Date = int

  /** `additionalWorkout.type`: exactly the two values `'strength' | 'recovery'`. */
  datatype WorkoutType = Strength | Recovery

  /** `run`: `time` is in seconds, distance in miles, pace a free "MM:SS" text. */
  datatype RunData = RunData(
    time: int,
    distance: real,
    calories: int,
    avgPacePerMile: string,
    elevationGain: int,
    avgHeartRate: int)

  /** `additionalWorkout`: `length` is in minutes. */
  datatype AdditionalWorkoutData = AdditionalWorkoutData(
    kind: WorkoutType,
    length: int,
    calories: int,
    avgHeartRate: int)

  datatype DailyEntry = DailyEntry(
    date: Date,
    weight: real,
    calories: int,
    run: RunData,
    additionalWorkout: AdditionalWorkoutData)

  /**
   * The whole persisted document. `startDate` is `None` when the stored text
   * is empty; `targetCalories` defaults to 2000.
   */
  datatype ChallengeData = ChallengeData(
    startDate: Option<Date>,
    entries: map<Date, DailyEntry>,
    targetCalories: int)

  /** One point of the dashboard charts: `day` is mandatory, every metric may be absent. */
  datatype ChartDataPoint = ChartDataPoint(
    day: int,
    weight: Option<real>,
    calories: Option<int>,
    runTime: Option<real>,
    runDistance: Option<real>,
    workoutCalories: Option<int>,
    totalCalories: Option<int>)

  /** The text the source stores for a workout type. */
  function WorkoutTypeText(t: WorkoutType): string
  {
    match t
    case Strength => "strength"
    case Recovery => "recovery"
  }

  /** Every key of the entry map is its entry's own date. */
  ghost predicate KeysMatchDates(entries: map<Date, DailyEntry>)
  {
    forall d :: d in entries ==> entries[d].date == d
  }

  /** A non-empty set of dates has a member. */
  lemma NonEmptyHasMember(dates: set<Date>)
    requires dates != {}
    ensures exists d :: d in dates
  {
    if forall d :: d !in dates { assert false; }
  }

  /** An entry listed among a map's values is stored under some date. */
  lemma DateOfListedEntry(entries: map<Date, DailyEntry>, e: DailyEntry)
    requires e in entries.Values
    ensures exists d :: d in entries && entries[d] == e
  {
    if forall d :: d in entries ==> entries[d] != e { assert false; }
  }

  const DefaultTargetCalories := 2000
  const ChallengeLength := 75
}
