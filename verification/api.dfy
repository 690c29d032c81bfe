/** The five procedures as the router exposes them: an input schema, when a
    procedure has one, runs before its handler. Also the invariant every
    reachable store keeps and the properties that relate several calls. */
module Api {
  import opened Dates
  import opened Schema
  import opened Store
  import opened Aggregation

  /** What holds of every store reachable through the router: the table
      guarantees, plus non-empty names, which only the input schema enforces. */
  predicate Valid(s: Store)
  {
    && WellFormed(s)
    && forall i :: 0 <= i < |s.chickens| ==> |s.chickens[i].name| >= MinNameLength
  }

  /** The createChicken procedure: the input schema, then the handler. A
      refused name never reaches the handler, so nothing is written. */
  function CreateChicken(s: Store, name: string): (r: Step<Chicken>)
    ensures r.result.Err? <==> |name| == 0
    ensures r.result.Err? ==> r.store == s && r.result.error == ValidationError(NameRequired)
    ensures r.result.Ok? ==>
              && r.result.value.name == name
              && r.store.chickens == s.chickens + [r.result.value]
              && r.store.eggs == s.eggs
    ensures Valid(s) ==> Valid(r.store)
  {
    match ParseCreateChickenInput(name)
    case Err(e) => Step(s, Err(e))
    case Ok(input) => InsertChicken(s, input)
  }

  /** The recordEgg procedure is its handler (its schema accepts every input);
      it keeps the invariant whether it succeeds or fails. */
  lemma RecordEggPreservesValid(s: Store, input: RecordEggInput)
    requires Valid(s)
    ensures Valid(RecordEgg(s, input).store)
  {
  }

  // ---------------------------------------------------------------------------
  // Sequences of calls

  datatype Request = CreateChickenRequest(name: string) | RecordEggRequest(input: RecordEggInput)

  function Apply(s: Store, req: Request): Store
  {
    match req
    case CreateChickenRequest(name) => CreateChicken(s, name).store
    case RecordEggRequest(input) => RecordEgg(s, input).store
  }

  /** The store after the requests, issued one after the other. */
  function Run(s: Store, reqs: seq<Request>): Store
    decreases |reqs|
  {
    if |reqs| == 0 then s else Run(Apply(s, reqs[0]), reqs[1..])
  }

  /** Both tables are append-only: every call keeps what was there, in place. */
  lemma {:induction false} RunAppendsOnly(s: Store, reqs: seq<Request>)
    ensures s.chickens <= Run(s, reqs).chickens
    ensures s.eggs <= Run(s, reqs).eggs
    ensures s.clock <= Run(s, reqs).clock
    decreases |reqs|
  {
    if |reqs| > 0 {
      RunAppendsOnly(Apply(s, reqs[0]), reqs[1..]);
    }
  }

  lemma {:induction false} RunKeepsValid(s: Store, reqs: seq<Request>)
    requires Valid(s)
    ensures Valid(Run(s, reqs))
    decreases |reqs|
  {
    if |reqs| > 0 {
      if reqs[0].RecordEggRequest? {
        RecordEggPreservesValid(s, reqs[0].input);
      }
      RunKeepsValid(Apply(s, reqs[0]), reqs[1..]);
    }
  }

  /** In every store the procedures can produce from a fresh database, ids are
      unique and ascending in creation order, every record references a
      chicken, and names are non-empty. */
  lemma ReachableStoresAreValid(reqs: seq<Request>)
    ensures Valid(Run(Empty, reqs))
  {
    EmptyIsWellFormed();
    RunKeepsValid(Empty, reqs);
  }

  /** In every reachable store both statistics add up to the number of egg records. */
  lemma ReachableStatsAddUp(reqs: seq<Request>, s: Store)
    requires s == Run(Empty, reqs)
    ensures TotalEggs(GetChickenEggStats(s)) == |s.eggs|
    ensures DailyTotal(GetDailyEggStats(s)) == |s.eggs|
  {
    ReachableStoresAreValid(reqs);
    ChickenStatsTotalIsEggCount(s);
  }

  // ---------------------------------------------------------------------------
  // Properties of one or two calls

  /** Chicken ids grow from one successful creation to the next. */
  lemma ChickenIdsIncrease(s: Store, first: string, second: string)
    requires Valid(s)
    requires |first| > 0 && |second| > 0
    ensures var a := CreateChicken(s, first);
            var b := CreateChicken(a.store, second);
            a.result.Ok? && b.result.Ok? && 0 < a.result.value.id < b.result.value.id
  {
    var a := CreateChicken(s, first);
    assert a.store.chickens[|s.chickens|] == a.result.value;
  }

  /** Chicken names need not be unique: the same name twice gives two chickens. */
  lemma DuplicateNamesAllowed(s: Store, name: string)
    requires Valid(s) && |name| > 0
    ensures var a := CreateChicken(s, name);
            var b := CreateChicken(a.store, name);
            && a.result.Ok? && b.result.Ok?
            && a.result.value.id != b.result.value.id
            && |b.store.chickens| == |s.chickens| + 2
  {
    ChickenIdsIncrease(s, name, name);
  }

  /** Listing after a creation gives the earlier list followed by the new chicken. */
  lemma ListingFollowsInsertionOrder(s: Store, name: string)
    requires |name| > 0
    ensures var a := CreateChicken(s, name);
            a.result.Ok? && GetChickens(a.store) == GetChickens(s) + [a.result.value]
  {
  }

  /** An id no creation has handed out is always refused, with nothing written. */
  lemma UnknownChickenRejected(s: Store, input: RecordEggInput)
    requires WellFormed(s)
    requires input.chickenId <= 0 || input.chickenId >= s.nextChickenId
    ensures RecordEgg(s, input) == Step(s, Err(NotFound(input.chickenId)))
  {
  }

  /** A new chicken shows up in the per-chicken statistics with no eggs. */
  lemma NewChickenHasZeroRow(s: Store, name: string)
    requires WellFormed(s) && |name| > 0
    ensures var a := CreateChicken(s, name);
            a.result.Ok? && ChickenEggStats(a.result.value.id, name, 0) in GetChickenEggStats(a.store)
  {
    var a := CreateChicken(s, name);
    var c := a.result.value;
    forall i | 0 <= i < |s.eggs| ensures s.eggs[i].chickenId != c.id {
      var k :| 0 <= k < |s.chickens| && s.chickens[k].id == s.eggs[i].chickenId;
    }
    EggsOfUnreferenced(s.eggs, c.id);
    assert a.store.chickens[|s.chickens|] == c;
  }

  /** A recorded egg is counted once for its chicken and once for its date, and
      nowhere else. */
  lemma RecordEggCountsOnce(s: Store, input: RecordEggInput)
    requires HasChicken(s.chickens, input.chickenId)
    ensures var a := RecordEgg(s, input);
            && a.result.Ok?
            && (forall id :: EggsOf(a.store.eggs, id) == EggsOf(s.eggs, id) + (if id == input.chickenId then 1 else 0))
            && (forall d :: EggsOn(a.store.eggs, d) == EggsOn(s.eggs, d) + (if d == input.laidDate then 1 else 0))
  {
    var a := RecordEgg(s, input);
    forall id ensures EggsOf(a.store.eggs, id) == EggsOf(s.eggs, id) + (if id == input.chickenId then 1 else 0) {
      EggsOfAppend(s.eggs, a.result.value, id);
    }
    forall d ensures EggsOn(a.store.eggs, d) == EggsOn(s.eggs, d) + (if d == input.laidDate then 1 else 0) {
      EggsOnAppend(s.eggs, a.result.value, d);
    }
  }

  /** Recording the same (chicken, date) twice stores two records with distinct
      ids, and the day's count rises by two. */
  lemma DuplicateEggsBothCounted(s: Store, input: RecordEggInput)
    requires WellFormed(s) && HasChicken(s.chickens, input.chickenId)
    ensures var a := RecordEgg(s, input);
            var b := RecordEgg(a.store, input);
            && a.result.Ok? && b.result.Ok?
            && a.result.value.id != b.result.value.id
            && |b.store.eggs| == |s.eggs| + 2
            && EggsOn(b.store.eggs, input.laidDate) == EggsOn(s.eggs, input.laidDate) + 2
            && EggsOf(b.store.eggs, input.chickenId) == EggsOf(s.eggs, input.chickenId) + 2
  {
    var a := RecordEgg(s, input);
    RecordEggCountsOnce(s, input);
    RecordEggCountsOnce(a.store, input);
    assert a.store.eggs[|s.eggs|] == a.result.value;
  }

  // ---------------------------------------------------------------------------
  // Worked scenarios

  /** One chicken, one egg, then an egg for a chicken that does not exist. */
  lemma HenriettaScenario()
    ensures var s1 := CreateChicken(Empty, "Henrietta");
            var s2 := RecordEgg(s1.store, RecordEggInput(1, Date(2024, 1, 1)));
            && s1.result == Ok(Chicken(1, "Henrietta", 0))
            && s2.result == Ok(EggRecord(1, 1, Date(2024, 1, 1), 1))
            && GetChickenEggStats(s2.store) == [ChickenEggStats(1, "Henrietta", 1)]
            && GetDailyEggStats(s2.store) == [DailyEggStats(Date(2024, 1, 1), 1)]
            && RecordEgg(s2.store, RecordEggInput(999, Date(2024, 1, 1))) == Step(s2.store, Err(NotFound(999)))
  {
  }

  /** Statistics are ordered by name, not by creation. */
  lemma NameOrderScenario()
    ensures var s1 := CreateChicken(Empty, "Zara");
            var s2 := CreateChicken(s1.store, "Alice");
            GetChickenEggStats(s2.store) == [ChickenEggStats(2, "Alice", 0), ChickenEggStats(1, "Zara", 0)]
  {
  }
}
