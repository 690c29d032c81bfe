/** The shapes exchanged with the core: the two persisted entities, the two
    write inputs, the two statistics rows, and the error kinds. Also the
    create-chicken input schema, the only input check the server performs. */
module Schema {
  import opened Dates

  /** A row of `chickens`. `createdAt` is a reading of the store's logical clock. */
  datatype Chicken = Chicken(id: int, name: string, createdAt: nat)

  /** A row of `egg_records`; `chickenId` references `chickens.id`. */
  datatype EggRecord = EggRecord(id: int, chickenId: int, laidDate: Date, createdAt: nat)

  datatype CreateChickenInput = CreateChickenInput(name: string)

  /** The record-egg schema accepts any number and any date: it checks nothing. */
  datatype RecordEggInput = RecordEggInput(chickenId: int, laidDate: Date)

  /** One row of the per-chicken statistics. */
  datatype ChickenEggStats = ChickenEggStats(chickenId: int, chickenName: string, totalEggs: nat)

  /** One row of the per-day statistics. */
  datatype DailyEggStats = DailyEggStats(date: Date, totalEggs: nat)

  /** `ValidationError` is raised by an input schema before any handler runs;
      `NotFound` is raised by the egg handler and names the missing chicken id. */
  datatype Error = ValidationError(message: string) | NotFound(chickenId: int)

  datatype Result<T> = Ok(value: T) | Err(error: Error)

  const NameRequired: string := "Chicken name is required"

  /** The minimum name length the create-chicken schema enforces. */
  const MinNameLength: nat := 1

  /** The create-chicken input schema: a name of at least one character,
      passed on exactly as given (no trimming). */
  function ParseCreateChickenInput(name: string): (r: Result<CreateChickenInput>)
    ensures r.Ok? <==> |name| >= MinNameLength
    ensures r.Ok? ==> r.value.name == name
    ensures r.Err? ==> r.error == ValidationError(NameRequired)
  {
    if |name| < MinNameLength then Err(ValidationError(NameRequired))
    else Ok(CreateChickenInput(name))
  }

  /** Only the empty name is refused; a name of spaces passes the server's schema. */
  lemma OnlyEmptyNameRejected()
    ensures ParseCreateChickenInput("") == Err(ValidationError(NameRequired))
    ensures ParseCreateChickenInput(" ") == Ok(CreateChickenInput(" "))
    ensures ParseCreateChickenInput("Henrietta").Ok?
  {
  }
}
