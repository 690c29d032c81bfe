/** The aggregation engine: the two read-side statistics, computed from a store
    and returning only rows, so neither can change the store.

    Per chicken: `chickens LEFT JOIN egg_records ON id = chicken_id GROUP BY id, name
    ORDER BY name`, modelled as the joined rows in store order followed by a sort
    on the name. Per day: `egg_records GROUP BY laid_date ORDER BY laid_date`,
    modelled as a fold that adds each record to an ascending list of day rows. */
module Aggregation {
  import opened Dates
  import opened Names
  import opened Schema
  import opened Store

  // ---------------------------------------------------------------------------
  // Counting egg records

  /** The number of egg records of one chicken. */
  function EggsOf(eggs: seq<EggRecord>, chickenId: int): (n: nat)
    ensures n <= |eggs|
    decreases |eggs|
  {
    if |eggs| == 0 then 0
    else (if eggs[0].chickenId == chickenId then 1 else 0) + EggsOf(eggs[1..], chickenId)
  }

  /** The number of egg records laid on one date. */
  function EggsOn(eggs: seq<EggRecord>, d: Date): (n: nat)
    ensures n <= |eggs|
    decreases |eggs|
  {
    if |eggs| == 0 then 0
    else (if eggs[0].laidDate == d then 1 else 0) + EggsOn(eggs[1..], d)
  }

  /** The dates that occur among the egg records. */
  function LaidDates(eggs: seq<EggRecord>): set<Date>
  {
    set i | 0 <= i < |eggs| :: eggs[i].laidDate
  }

  lemma {:induction false} EggsOfAppend(eggs: seq<EggRecord>, e: EggRecord, chickenId: int)
    ensures EggsOf(eggs + [e], chickenId) == EggsOf(eggs, chickenId) + (if e.chickenId == chickenId then 1 else 0)
    decreases |eggs|
  {
    if |eggs| > 0 {
      assert (eggs + [e])[1..] == eggs[1..] + [e];
      EggsOfAppend(eggs[1..], e, chickenId);
    }
  }

  lemma {:induction false} EggsOnAppend(eggs: seq<EggRecord>, e: EggRecord, d: Date)
    ensures EggsOn(eggs + [e], d) == EggsOn(eggs, d) + (if e.laidDate == d then 1 else 0)
    decreases |eggs|
  {
    if |eggs| > 0 {
      assert (eggs + [e])[1..] == eggs[1..] + [e];
      EggsOnAppend(eggs[1..], e, d);
    }
  }

  /** A chicken no record references has no eggs. */
  lemma {:induction false} EggsOfUnreferenced(eggs: seq<EggRecord>, chickenId: int)
    requires forall i :: 0 <= i < |eggs| ==> eggs[i].chickenId != chickenId
    ensures EggsOf(eggs, chickenId) == 0
    decreases |eggs|
  {
    if |eggs| > 0 {
      EggsOfUnreferenced(eggs[1..], chickenId);
    }
  }

  // ---------------------------------------------------------------------------
  // Per-chicken statistics

  /** The LEFT JOIN grouped by chicken, in store order: one row per chicken,
      counting its records, zero when it has none. */
  function JoinedRows(cs: seq<Chicken>, eggs: seq<EggRecord>): (rows: seq<ChickenEggStats>)
    ensures |rows| == |cs|
    ensures forall i :: 0 <= i < |cs| ==>
              rows[i] == ChickenEggStats(cs[i].id, cs[i].name, EggsOf(eggs, cs[i].id))
    decreases |cs|
  {
    if |cs| == 0 then []
    else [ChickenEggStats(cs[0].id, cs[0].name, EggsOf(eggs, cs[0].id))] + JoinedRows(cs[1..], eggs)
  }

  function TotalEggs(rows: seq<ChickenEggStats>): nat
    decreases |rows|
  {
    if |rows| == 0 then 0 else rows[0].totalEggs + TotalEggs(rows[1..])
  }

  predicate SortedByName(rows: seq<ChickenEggStats>)
  {
    forall i, j :: 0 <= i < j < |rows| ==> NameLe(rows[i].chickenName, rows[j].chickenName)
  }

  /** A row no greater than the head of a sorted list may be put in front of it. */
  lemma PrependSorted(row: ChickenEggStats, rows: seq<ChickenEggStats>)
    requires SortedByName(rows)
    requires |rows| > 0 ==> NameLe(row.chickenName, rows[0].chickenName)
    ensures SortedByName([row] + rows)
  {
    forall j | 0 <= j < |rows|
      ensures NameLe(row.chickenName, rows[j].chickenName)
    {
      if j > 0 {
        NameLeTransitive(row.chickenName, rows[0].chickenName, rows[j].chickenName);
      }
    }
  }

  /** A row no greater than every element of a sorted list may be put in front of it. */
  lemma PrependBelowAll(row: ChickenEggStats, rows: seq<ChickenEggStats>)
    requires SortedByName(rows)
    requires forall x :: x in multiset(rows) ==> NameLe(row.chickenName, x.chickenName)
    ensures SortedByName([row] + rows)
  {
    forall j | 0 <= j < |rows|
      ensures NameLe(row.chickenName, rows[j].chickenName)
    {
      assert rows[j] in multiset(rows);
    }
  }

  /** Rows whose names are all at least `head`'s, placed behind it, stay sorted. */
  lemma KeepHeadInFront(head: ChickenEggStats, row: ChickenEggStats, rest: seq<ChickenEggStats>, tail: seq<ChickenEggStats>)
    requires SortedByName([head] + rest)
    requires SortedByName(tail)
    requires NameLe(head.chickenName, row.chickenName)
    requires multiset(tail) == multiset(rest) + multiset{row}
    ensures SortedByName([head] + tail)
  {
    forall x | x in multiset(tail)
      ensures NameLe(head.chickenName, x.chickenName)
    {
      if x != row {
        assert x in multiset(rest);
        var k :| 0 <= k < |rest| && rest[k] == x;
        var all := [head] + rest;
        assert all[0] == head && all[k + 1] == x;
      }
    }
    PrependBelowAll(head, tail);
  }

  lemma TotalEggsCons(row: ChickenEggStats, rows: seq<ChickenEggStats>)
    ensures TotalEggs([row] + rows) == row.totalEggs + TotalEggs(rows)
  {
    assert ([row] + rows)[1..] == rows;
  }

  /** One step of insertion sort on the name. */
  function InsertByName(row: ChickenEggStats, rows: seq<ChickenEggStats>): (r: seq<ChickenEggStats>)
    requires SortedByName(rows)
    ensures SortedByName(r)
    ensures multiset(r) == multiset(rows) + multiset{row}
    ensures TotalEggs(r) == TotalEggs(rows) + row.totalEggs
    decreases |rows|
  {
    if |rows| == 0 then [row]
    else if NameLe(row.chickenName, rows[0].chickenName) then
      PrependSorted(row, rows);
      TotalEggsCons(row, rows);
      [row] + rows
    else
      var head := rows[0];
      var tail := InsertByName(row, rows[1..]);
      NameLeTotal(row.chickenName, head.chickenName);
      assert rows == [head] + rows[1..];
      KeepHeadInFront(head, row, rows[1..], tail);
      TotalEggsCons(head, tail);
      TotalEggsCons(head, rows[1..]);
      [head] + tail
  }

  /** `ORDER BY name`: a permutation of the rows with non-decreasing names. */
  function SortByName(rows: seq<ChickenEggStats>): (r: seq<ChickenEggStats>)
    ensures SortedByName(r)
    ensures multiset(r) == multiset(rows)
    ensures TotalEggs(r) == TotalEggs(rows)
    decreases |rows|
  {
    if |rows| == 0 then []
    else
      assert rows == [rows[0]] + rows[1..];
      InsertByName(rows[0], SortByName(rows[1..]))
  }

  /** The per-chicken statistics handler. */
  function GetChickenEggStats(s: Store): (r: seq<ChickenEggStats>)
    ensures |r| == |s.chickens|
    ensures multiset(r) == multiset(JoinedRows(s.chickens, s.eggs))
    ensures SortedByName(r)
    ensures forall i :: 0 <= i < |s.chickens| ==>
              ChickenEggStats(s.chickens[i].id, s.chickens[i].name, EggsOf(s.eggs, s.chickens[i].id)) in r
    ensures forall j :: 0 <= j < |r| ==>
              && r[j].totalEggs == EggsOf(s.eggs, r[j].chickenId)
              && exists i :: 0 <= i < |s.chickens| && s.chickens[i].id == r[j].chickenId
                                                   && s.chickens[i].name == r[j].chickenName
  {
    var joined := JoinedRows(s.chickens, s.eggs);
    var r := SortByName(joined);
    SameElements(r, joined);
    RowsComeFromChickens(s.chickens, s.eggs, r);
    r
  }

  /** Every row holding the same elements as the joined rows belongs to a chicken
      and carries that chicken's count. */
  lemma RowsComeFromChickens(cs: seq<Chicken>, eggs: seq<EggRecord>, r: seq<ChickenEggStats>)
    requires forall x :: x in r <==> x in JoinedRows(cs, eggs)
    ensures forall j :: 0 <= j < |r| ==>
              && r[j].totalEggs == EggsOf(eggs, r[j].chickenId)
              && exists i :: 0 <= i < |cs| && cs[i].id == r[j].chickenId && cs[i].name == r[j].chickenName
  {
    var joined := JoinedRows(cs, eggs);
    forall j | 0 <= j < |r|
      ensures r[j].totalEggs == EggsOf(eggs, r[j].chickenId)
      ensures exists i :: 0 <= i < |cs| && cs[i].id == r[j].chickenId && cs[i].name == r[j].chickenName
    {
      assert r[j] in joined;
      var i :| 0 <= i < |joined| && joined[i] == r[j];
      assert cs[i].id == r[j].chickenId;
    }
  }

  /** Two sequences with the same multiset have the same length and elements. */
  lemma SameElements<T>(a: seq<T>, b: seq<T>)
    requires multiset(a) == multiset(b)
    ensures |a| == |b|
    ensures forall x :: x in a <==> x in b
  {
    assert |multiset(a)| == |multiset(b)|;
    forall x ensures x in a <==> x in b {
      assert x in a <==> x in multiset(a);
      assert x in b <==> x in multiset(b);
    }
  }

  /** How many chickens carry an id. */
  function ChickensWithId(cs: seq<Chicken>, id: int): nat
    decreases |cs|
  {
    if |cs| == 0 then 0 else (if cs[0].id == id then 1 else 0) + ChickensWithId(cs[1..], id)
  }

  /** Under ascending ids, an id that occurs does so exactly once. */
  lemma {:induction false} ExistingIdMatchesOnce(cs: seq<Chicken>, id: int)
    requires ChickenIdsAscending(cs)
    ensures ChickensWithId(cs, id) == (if HasChicken(cs, id) then 1 else 0)
    decreases |cs|
  {
    if |cs| > 0 {
      ExistingIdMatchesOnce(cs[1..], id);
      if cs[0].id == id {
        forall k | 0 <= k < |cs[1..]|
          ensures cs[1..][k].id != id
        {
          assert cs[1..][k] == cs[k + 1];
        }
      } else {
        assert HasChicken(cs, id) <==> HasChicken(cs[1..], id) by {
          if HasChicken(cs, id) {
            var k :| 0 <= k < |cs| && cs[k].id == id;
            assert cs[1..][k - 1].id == id;
          }
          if HasChicken(cs[1..], id) {
            var k :| 0 <= k < |cs[1..]| && cs[1..][k].id == id;
            assert cs[k + 1].id == id;
          }
        }
      }
    }
  }

  /** Removing the first record lowers the joined total by the number of
      chickens it belongs to. */
  lemma {:induction false} JoinedTotalSplit(cs: seq<Chicken>, eggs: seq<EggRecord>)
    requires |eggs| > 0
    ensures TotalEggs(JoinedRows(cs, eggs)) == ChickensWithId(cs, eggs[0].chickenId) + TotalEggs(JoinedRows(cs, eggs[1..]))
    decreases |cs|
  {
    if |cs| > 0 {
      JoinedTotalSplit(cs[1..], eggs);
      assert JoinedRows(cs, eggs)[1..] == JoinedRows(cs[1..], eggs);
      assert JoinedRows(cs, eggs[1..])[1..] == JoinedRows(cs[1..], eggs[1..]);
    }
  }

  lemma {:induction false} JoinedTotalNoEggs(cs: seq<Chicken>, eggs: seq<EggRecord>)
    requires |eggs| == 0
    ensures TotalEggs(JoinedRows(cs, eggs)) == 0
    decreases |cs|
  {
    if |cs| > 0 {
      JoinedTotalNoEggs(cs[1..], eggs);
      assert JoinedRows(cs, eggs)[1..] == JoinedRows(cs[1..], eggs);
    }
  }

  /** With unique chicken ids and every record referencing a chicken, the
      joined counts add up to the number of records. */
  lemma {:induction false} JoinedTotalIsEggCount(cs: seq<Chicken>, eggs: seq<EggRecord>)
    requires ChickenIdsAscending(cs)
    requires ReferencesResolve(cs, eggs)
    ensures TotalEggs(JoinedRows(cs, eggs)) == |eggs|
    decreases |eggs|
  {
    if |eggs| == 0 {
      JoinedTotalNoEggs(cs, eggs);
    } else {
      JoinedTotalSplit(cs, eggs);
      ExistingIdMatchesOnce(cs, eggs[0].chickenId);
      assert ReferencesResolve(cs, eggs[1..]) by {
        forall i | 0 <= i < |eggs[1..]|
          ensures HasChicken(cs, eggs[1..][i].chickenId)
        {
          assert eggs[1..][i] == eggs[i + 1];
        }
      }
      JoinedTotalIsEggCount(cs, eggs[1..]);
    }
  }

  /** The per-chicken totals add up to the number of egg records: it takes
      only the keys and the foreign key, not the rest of `WellFormed`. */
  lemma ChickenStatsTotalIsEggCount(s: Store)
    requires ChickenIdsAscending(s.chickens)
    requires ReferencesResolve(s.chickens, s.eggs)
    ensures TotalEggs(GetChickenEggStats(s)) == |s.eggs|
  {
    JoinedTotalIsEggCount(s.chickens, s.eggs);
  }

  // ---------------------------------------------------------------------------
  // Per-day statistics

  /** The eggs the rows attribute to a date: the total of the rows carrying it. */
  function RowsOn(rows: seq<DailyEggStats>, d: Date): nat
    decreases |rows|
  {
    if |rows| == 0 then 0
    else (if rows[0].date == d then rows[0].totalEggs else 0) + RowsOn(rows[1..], d)
  }

  function DailyTotal(rows: seq<DailyEggStats>): nat
    decreases |rows|
  {
    if |rows| == 0 then 0 else rows[0].totalEggs + DailyTotal(rows[1..])
  }

  function RowDates(rows: seq<DailyEggStats>): set<Date>
  {
    set i | 0 <= i < |rows| :: rows[i].date
  }

  /** Strictly ascending dates, hence pairwise distinct. */
  predicate DatesAscending(rows: seq<DailyEggStats>)
  {
    forall i, j :: 0 <= i < j < |rows| ==> Before(rows[i].date, rows[j].date)
  }

  predicate AllPositive(rows: seq<DailyEggStats>)
  {
    forall i :: 0 <= i < |rows| ==> rows[i].totalEggs > 0
  }

  lemma RowDatesCons(row: DailyEggStats, rows: seq<DailyEggStats>)
    ensures RowDates([row] + rows) == {row.date} + RowDates(rows)
  {
    var r := [row] + rows;
    forall x | x in RowDates(r) ensures x in {row.date} + RowDates(rows) {
      var i :| 0 <= i < |r| && r[i].date == x;
      if i > 0 { assert rows[i - 1].date == x; }
    }
    forall x | x in RowDates(rows) ensures x in RowDates(r) {
      var i :| 0 <= i < |rows| && rows[i].date == x;
      assert r[i + 1].date == x;
    }
    assert r[0].date == row.date;
  }

  lemma RowsOnCons(row: DailyEggStats, rows: seq<DailyEggStats>)
    ensures forall x :: RowsOn([row] + rows, x) == (if row.date == x then row.totalEggs else 0) + RowsOn(rows, x)
    ensures DailyTotal([row] + rows) == row.totalEggs + DailyTotal(rows)
  {
    assert ([row] + rows)[1..] == rows;
  }

  /** The contract of `AddEgg`, stated once for use by each of its cases. */
  ghost predicate AddsEgg(rows: seq<DailyEggStats>, d: Date, r: seq<DailyEggStats>)
  {
    && DatesAscending(r)
    && RowDates(r) == RowDates(rows) + {d}
    && (forall x :: RowsOn(r, x) == RowsOn(rows, x) + (if x == d then 1 else 0))
    && DailyTotal(r) == DailyTotal(rows) + 1
    && (AllPositive(rows) ==> AllPositive(r))
  }

  /** Bumping the row that already holds `d`. */
  lemma AddEggBump(rows: seq<DailyEggStats>, d: Date)
    requires DatesAscending(rows) && |rows| > 0 && rows[0].date == d
    ensures AddsEgg(rows, d, [rows[0].(totalEggs := rows[0].totalEggs + 1)] + rows[1..])
  {
    var r := [rows[0].(totalEggs := rows[0].totalEggs + 1)] + rows[1..];
    RowsOnCons(r[0], rows[1..]);
    RowsOnCons(rows[0], rows[1..]);
    RowDatesCons(r[0], rows[1..]);
    RowDatesCons(rows[0], rows[1..]);
    assert rows == [rows[0]] + rows[1..];
  }

  /** A new row in front of all later dates. */
  lemma AddEggInsert(rows: seq<DailyEggStats>, d: Date)
    requires DatesAscending(rows) && (|rows| > 0 ==> Before(d, rows[0].date))
    ensures AddsEgg(rows, d, [DailyEggStats(d, 1)] + rows)
  {
    RowsOnCons(DailyEggStats(d, 1), rows);
    RowDatesCons(DailyEggStats(d, 1), rows);
  }

  /** A date before every date of the rows and before `d` stays before every
      date of the rows with `d` added. */
  lemma BeforeAllAdded(first: Date, rows: seq<DailyEggStats>, d: Date, tail: seq<DailyEggStats>)
    requires forall k :: 0 <= k < |rows| ==> Before(first, rows[k].date)
    requires Before(first, d)
    requires RowDates(tail) == RowDates(rows) + {d}
    ensures forall j :: 0 <= j < |tail| ==> Before(first, tail[j].date)
  {
    forall j | 0 <= j < |tail| ensures Before(first, tail[j].date) {
      assert tail[j].date in RowDates(tail);
      if tail[j].date != d {
        var k :| 0 <= k < |rows| && rows[k].date == tail[j].date;
      }
    }
  }

  /** Keeping the first row and adding the egg further on. */
  lemma AddEggSkip(rows: seq<DailyEggStats>, d: Date, tail: seq<DailyEggStats>)
    requires DatesAscending(rows) && |rows| > 0 && Before(rows[0].date, d)
    requires AddsEgg(rows[1..], d, tail)
    ensures AddsEgg(rows, d, [rows[0]] + tail)
  {
    RowsOnCons(rows[0], tail);
    RowsOnCons(rows[0], rows[1..]);
    RowDatesCons(rows[0], tail);
    RowDatesCons(rows[0], rows[1..]);
    assert rows == [rows[0]] + rows[1..];
    assert forall k :: 0 <= k < |rows[1..]| ==> Before(rows[0].date, rows[1..][k].date);
    BeforeAllAdded(rows[0].date, rows[1..], d, tail);
  }

  /** Counts one more egg laid on `d`: bumps that date's row, or inserts a
      row with one egg at its place in date order. */
  function AddEgg(rows: seq<DailyEggStats>, d: Date): (r: seq<DailyEggStats>)
    requires DatesAscending(rows)
    ensures DatesAscending(r)
    ensures RowDates(r) == RowDates(rows) + {d}
    ensures forall x :: RowsOn(r, x) == RowsOn(rows, x) + (if x == d then 1 else 0)
    ensures DailyTotal(r) == DailyTotal(rows) + 1
    ensures AllPositive(rows) ==> AllPositive(r)
    decreases |rows|
  {
    if |rows| == 0 || Before(d, rows[0].date) then
      AddEggInsert(rows, d);
      [DailyEggStats(d, 1)] + rows
    else if rows[0].date == d then
      AddEggBump(rows, d);
      [rows[0].(totalEggs := rows[0].totalEggs + 1)] + rows[1..]
    else
      var tail := AddEgg(rows[1..], d);
      AddEggSkip(rows, d, tail);
      [rows[0]] + tail
  }

  /** `GROUP BY laid_date ORDER BY laid_date` over a sequence of records. */
  function GroupByDate(eggs: seq<EggRecord>): (rows: seq<DailyEggStats>)
    ensures DatesAscending(rows)
    ensures AllPositive(rows)
    ensures RowDates(rows) == LaidDates(eggs)
    ensures forall x :: RowsOn(rows, x) == EggsOn(eggs, x)
    ensures DailyTotal(rows) == |eggs|
    decreases |eggs|
  {
    if |eggs| == 0 then []
    else
      var rest := GroupByDate(eggs[1..]);
      assert LaidDates(eggs) == LaidDates(eggs[1..]) + {eggs[0].laidDate} by {
        forall x | x in LaidDates(eggs) ensures x in LaidDates(eggs[1..]) + {eggs[0].laidDate} {
          var i :| 0 <= i < |eggs| && eggs[i].laidDate == x;
          if i > 0 { assert eggs[1..][i - 1].laidDate == x; }
        }
        forall x | x in LaidDates(eggs[1..]) ensures x in LaidDates(eggs) {
          var i :| 0 <= i < |eggs[1..]| && eggs[1..][i].laidDate == x;
          assert eggs[i + 1].laidDate == x;
        }
      }
      AddEgg(rest, eggs[0].laidDate)
  }

  /** In rows with distinct dates, the total attributed to a row's date is that row's total. */
  lemma {:induction false} RowsOnAscending(rows: seq<DailyEggStats>, i: int)
    requires DatesAscending(rows)
    requires 0 <= i < |rows|
    ensures RowsOn(rows, rows[i].date) == rows[i].totalEggs
    decreases |rows|
  {
    if i == 0 {
      RowsOnAbsent(rows[1..], rows[0].date);
    } else {
      RowsOnAscending(rows[1..], i - 1);
    }
  }

  lemma {:induction false} RowsOnAbsent(rows: seq<DailyEggStats>, d: Date)
    requires forall j :: 0 <= j < |rows| ==> rows[j].date != d
    ensures RowsOn(rows, d) == 0
    decreases |rows|
  {
    if |rows| > 0 {
      RowsOnAbsent(rows[1..], d);
    }
  }

  /** The per-day statistics handler. */
  function GetDailyEggStats(s: Store): (r: seq<DailyEggStats>)
    ensures DatesAscending(r)
    ensures forall j :: 0 <= j < |r| ==> r[j].totalEggs == EggsOn(s.eggs, r[j].date) && r[j].totalEggs > 0
    ensures forall i :: 0 <= i < |s.eggs| ==> exists j :: 0 <= j < |r| && r[j].date == s.eggs[i].laidDate
    ensures forall j :: 0 <= j < |r| ==> exists i :: 0 <= i < |s.eggs| && s.eggs[i].laidDate == r[j].date
    ensures DailyTotal(r) == |s.eggs|
    ensures |r| == 0 <==> |s.eggs| == 0
  {
    var r := GroupByDate(s.eggs);
    assert forall j :: 0 <= j < |r| ==> r[j].totalEggs == EggsOn(s.eggs, r[j].date) by {
      forall j | 0 <= j < |r| ensures r[j].totalEggs == EggsOn(s.eggs, r[j].date) {
        RowsOnAscending(r, j);
      }
    }
    assert forall i :: 0 <= i < |s.eggs| ==> s.eggs[i].laidDate in RowDates(r);
    assert forall j :: 0 <= j < |r| ==> r[j].date in LaidDates(s.eggs);
    r
  }
}
