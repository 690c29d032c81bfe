/** The entity store: the `chickens` and `egg_records` tables held as
    append-only sequences in insertion order, the two serial-id counters and a
    logical clock standing for `defaultNow()`. Each write returns the store
    after the call together with the caller's result. */
module Store {
  import opened Dates
  import opened Schema

  datatype Store = Store(
    chickens: seq<Chicken>,
    eggs: seq<EggRecord>,
    nextChickenId: int,
    nextEggId: int,
    clock: nat)

  /** The outcome of a write: the store afterwards and what the caller receives. */
  datatype Step<T> = Step(store: Store, result: Result<T>)

  /** A fresh database: both serial sequences start at 1. */
  const Empty: Store := Store([], [], 1, 1, 0)

  predicate HasChicken(cs: seq<Chicken>, id: int)
  {
    exists i :: 0 <= i < |cs| && cs[i].id == id
  }

  /** Serial ids grow with insertion order, hence are unique. */
  predicate ChickenIdsAscending(cs: seq<Chicken>)
  {
    forall i, j :: 0 <= i < j < |cs| ==> cs[i].id < cs[j].id
  }

  predicate EggIdsAscending(es: seq<EggRecord>)
  {
    forall i, j :: 0 <= i < j < |es| ==> es[i].id < es[j].id
  }

  /** Every egg record references an existing chicken (the foreign key). */
  predicate ReferencesResolve(cs: seq<Chicken>, es: seq<EggRecord>)
  {
    forall i :: 0 <= i < |es| ==> HasChicken(cs, es[i].chickenId)
  }

  /** What the table definitions guarantee of every database state: unique
      positive serial keys below the next value of their sequence, the foreign
      key, and timestamps taken before the current clock reading. */
  predicate WellFormed(s: Store)
  {
    && s.nextChickenId >= 1
    && s.nextEggId >= 1
    && ChickenIdsAscending(s.chickens)
    && EggIdsAscending(s.eggs)
    && (forall i :: 0 <= i < |s.chickens| ==> 0 < s.chickens[i].id < s.nextChickenId)
    && (forall i :: 0 <= i < |s.eggs| ==> 0 < s.eggs[i].id < s.nextEggId)
    && ReferencesResolve(s.chickens, s.eggs)
    && (forall i :: 0 <= i < |s.chickens| ==> s.chickens[i].createdAt < s.clock)
    && (forall i :: 0 <= i < |s.eggs| ==> s.eggs[i].createdAt < s.clock)
  }

  /** Appending chickens never breaks a reference that already resolved. */
  lemma ReferencesSurviveInsert(cs: seq<Chicken>, es: seq<EggRecord>, c: Chicken)
    ensures ReferencesResolve(cs, es) ==> ReferencesResolve(cs + [c], es)
  {
    forall i | 0 <= i < |es| && ReferencesResolve(cs, es)
      ensures HasChicken(cs + [c], es[i].chickenId)
    {
      var k :| 0 <= k < |cs| && cs[k].id == es[i].chickenId;
      assert (cs + [c])[k] == cs[k];
    }
  }

  lemma EmptyIsWellFormed()
    ensures WellFormed(Empty)
    ensures |Empty.chickens| == 0 && |Empty.eggs| == 0
  {
  }

  /** The create-chicken handler: inserts the name with the next serial id and
      the current time, and returns the inserted row. It checks nothing itself. */
  function InsertChicken(s: Store, input: CreateChickenInput): (r: Step<Chicken>)
    ensures r.result.Ok?
    ensures r.result.value.name == input.name
    ensures r.store.chickens == s.chickens + [r.result.value]
    ensures r.store.eggs == s.eggs
    ensures s.clock <= r.result.value.createdAt < r.store.clock
    ensures WellFormed(s) ==> r.result.value.id > 0 && !HasChicken(s.chickens, r.result.value.id)
    ensures WellFormed(s) ==> forall i :: 0 <= i < |s.chickens| ==> s.chickens[i].id < r.result.value.id
    ensures WellFormed(s) ==> WellFormed(r.store)
  {
    var c := Chicken(s.nextChickenId, input.name, s.clock);
    ReferencesSurviveInsert(s.chickens, s.eggs, c);
    Step(s.(chickens := s.chickens + [c], nextChickenId := s.nextChickenId + 1, clock := s.clock + 1), Ok(c))
  }

  /** The list-chickens handler: every chicken, in insertion order. */
  function GetChickens(s: Store): (r: seq<Chicken>)
    ensures |r| == |s.chickens|
    ensures forall c :: c in r <==> c in s.chickens
    ensures WellFormed(s) ==> ChickenIdsAscending(r)
  {
    s.chickens
  }

  /** The existence query of the egg handler: the first chicken with the given
      id, or the not-found error naming that id. */
  function FindChicken(cs: seq<Chicken>, id: int): (r: Result<Chicken>)
    ensures r.Ok? <==> HasChicken(cs, id)
    ensures r.Ok? ==> r.value.id == id && r.value in cs
    ensures r.Err? ==> r.error == NotFound(id)
    decreases |cs|
  {
    if |cs| == 0 then Err(NotFound(id))
    else if cs[0].id == id then Ok(cs[0])
    else
      var r := FindChicken(cs[1..], id);
      assert HasChicken(cs, id) ==> HasChicken(cs[1..], id) by {
        if HasChicken(cs, id) {
          var i :| 0 <= i < |cs| && cs[i].id == id;
          assert cs[1..][i - 1].id == id;
        }
      }
      r
  }

  /** The record-egg handler: look the chicken up, fail without writing when it
      is absent, otherwise insert the record with the next serial id and the
      current time. Nothing checks the pair (chicken, date) for duplicates. */
  function RecordEgg(s: Store, input: RecordEggInput): (r: Step<EggRecord>)
    ensures r.result.Err? <==> !HasChicken(s.chickens, input.chickenId)
    ensures r.result.Err? ==> r.store == s && r.result.error == NotFound(input.chickenId)
    ensures r.result.Ok? ==>
              && r.result.value.chickenId == input.chickenId
              && r.result.value.laidDate == input.laidDate
              && r.store.eggs == s.eggs + [r.result.value]
              && r.store.chickens == s.chickens
              && s.clock <= r.result.value.createdAt < r.store.clock
    ensures r.result.Ok? && WellFormed(s) ==>
              r.result.value.id > 0 && forall i :: 0 <= i < |s.eggs| ==> s.eggs[i].id < r.result.value.id
    ensures WellFormed(s) ==> WellFormed(r.store)
  {
    match FindChicken(s.chickens, input.chickenId)
    case Err(e) => Step(s, Err(e))
    case Ok(_) =>
      var e := EggRecord(s.nextEggId, input.chickenId, input.laidDate, s.clock);
      Step(s.(eggs := s.eggs + [e], nextEggId := s.nextEggId + 1, clock := s.clock + 1), Ok(e))
  }
}
