/**
 * Menu option 'A' of the driver: the population change between consecutive
 * slots of the store. The driver prints one line per change; here the report is
 * the sequence of changes it prints, in order.
 */
module RunCrimeStats {
  import opened Wrappers
  import opened JavaLang
  import opened USCrimeStats
  import opened CrimeStats

  /** One printed line: the two years, the percent change and the absolute change. */
  datatype Change = Change(yearPrev: int, yearCurr: int, percent: Option<real>, absChange: int)

  /** The report is cut short by an uncaught `NullPointerException` at an empty slot. */
  datatype ReportError = NullSlot(index: nat)

  /**
   * The change from `(yearPrev, popPrev)` to `(yearCurr, popCurr)`. The difference is
   * a Java `int` subtraction; the percent divides it by the earlier population and
   * is `None` when that is 0, where Java's `double` division gives an infinity or NaN.
   */
  function ChangeBetween(yearPrev: int, popPrev: int, yearCurr: int, popCurr: int): (c: Change)
    ensures c.yearPrev == yearPrev && c.yearCurr == yearCurr
    ensures IsInt32(c.absChange) && (c.absChange - (popCurr - popPrev)) % 0x1_0000_0000 == 0
    ensures IsInt32(popCurr - popPrev) ==> c.absChange == popCurr - popPrev
    ensures c.percent.Some? <==> popPrev != 0
    ensures c.percent.Some? ==> c.percent.value * (popPrev as real) == (c.absChange as real) * 100.0
  {
    var change := Wrap32(popCurr - popPrev);
    Change(yearPrev, yearCurr,
           if popPrev == 0 then None else Some(change as real / popPrev as real * 100.0),
           change)
  }

  /** The change between two records, the earlier one first. */
  function RecordChange(prev: Record, curr: Record): Change {
    ChangeBetween(prev.year, prev.population, curr.year, curr.population)
  }

  /**
   * What the loop over records `recs` produces. Its state `year1` starts at the
   * sentinel -1 and then holds the year of the record before; a change is produced
   * for the pair (recs[k - 1], recs[k]) exactly when that year is not negative, so
   * the first record only seeds the state.
   */
  function ChangeReport(recs: seq<Record>): (r: seq<Change>)
    decreases |recs|
    ensures |r| <= if recs == [] then 0 else |recs| - 1
    ensures forall k :: 0 <= k < |r| ==> r[k].yearPrev >= 0
  {
    if |recs| <= 1 then []
    else
      var n := |recs|;
      ChangeReport(recs[..n - 1]) +
        (if recs[n - 2].year >= 0 then [RecordChange(recs[n - 2], recs[n - 1])] else [])
  }

  /** With no negative year, the report has one change per adjacent pair, in slot order. */
  lemma {:induction false} ReportIsAdjacentPairs(recs: seq<Record>)
    requires forall j :: 0 <= j < |recs| ==> recs[j].year >= 0
    decreases |recs|
    ensures |ChangeReport(recs)| == if recs == [] then 0 else |recs| - 1
    ensures forall k :: 0 <= k < |ChangeReport(recs)| ==> ChangeReport(recs)[k] == RecordChange(recs[k], recs[k + 1])
  {
    if |recs| > 1 {
      var n := |recs|;
      var init := recs[..n - 1];
      ReportIsAdjacentPairs(init);
      assert recs[n - 2].year >= 0;
      forall k | 0 <= k < n - 2 ensures ChangeReport(recs)[k] == RecordChange(recs[k], recs[k + 1]) {
        assert init[k] == recs[k] && init[k + 1] == recs[k + 1];
      }
    }
  }

  /**
   * Option 'A' over the store's slots: slots 1 to 20 are all read, so an empty slot
   * among them ends the report with an exception at the first such slot.
   */
  function ReportOf(slots: seq<Option<Record>>): (r: Result<seq<Change>, ReportError>)
    requires |slots| >= 1
    ensures r.Failure? <==> exists j :: 1 <= j < |slots| && slots[j].None?
    ensures r.Failure? ==>
      && 1 <= r.error.index < |slots| && slots[r.error.index].None?
      && forall j :: 1 <= j < r.error.index ==> slots[j].Some?
  {
    var n := FirstEmpty(slots, 1);
    if n < |slots| then Failure(NullSlot(n)) else Success(ChangeReport(Filled(slots)))
  }

  /** When the store holds records in all 20 slots, the report is the report of those records in slot order. */
  lemma ReportOfFullStore(slots: seq<Option<Record>>)
    requires |slots| >= 1 && forall j :: 1 <= j < |slots| ==> slots[j].Some?
    ensures ReportOf(slots) == Success(ChangeReport(seq(|slots| - 1, j requires 0 <= j < |slots| - 1 => slots[j + 1].value)))
  {
  }

  /** A loaded store yields a report only when the file had exactly 20 data lines: fewer leave an empty slot. */
  lemma ReportNeedsTwentyRows(lines: seq<string>, parse: RowParser)
    requires Load(lines, parse).Success?
    ensures ReportOf(Load(lines, parse).value).Success? <==> |lines| == SLOTS
  {
    var slots := Load(lines, parse).value;
    if |lines| < SLOTS {
      var j := if |lines| == 0 then 1 else |lines|;
      assert slots[j].None?;
    }
  }

  /**
   * `processMenuAction('A', crime)`: walks slots 1 to `getLength() - 1`, shifting
   * `(year1, pop1)` into `(year2, pop2)` and recording a change whenever `year1`
   * was not the sentinel.
   */
  method PopulationChanges(crime: CrimeStats) returns (r: Result<seq<Change>, ReportError>)
    requires crime.Valid()
    ensures r == ReportOf(crime.crimeArray[..])
  {
    var year1 := -1;
    var pop1 := -1;
    var year2: int;
    var pop2: int;
    var length := crime.GetLength();
    var s: seq<Change> := [];
    ghost var recs: seq<Record> := [];
    var i := 1;
    while i < length
      invariant 1 <= i <= length
      invariant |recs| == i - 1 && forall j :: 1 <= j < i ==> crime.crimeArray[j] == Some(recs[j - 1])
      invariant s == ChangeReport(recs)
      invariant i == 1 ==> year1 == -1
      invariant i > 1 ==> year1 == recs[i - 2].year && pop1 == recs[i - 2].population
    {
      if crime.crimeArray[i].None? {
        FilledPrefix(crime.crimeArray[..], recs, i);
        return Failure(NullSlot(i));  // uncaught NullPointerException
      }
      var current := crime.crimeArray[i].value;
      if year1 < 0 {
        year1 := current.year;
        pop1 := current.population;
      } else {
        year2 := year1;
        pop2 := pop1;
        year1 := current.year;
        pop1 := current.population;
        s := s + [ChangeBetween(year2, pop2, year1, pop1)];
      }
      assert (recs + [current])[..i - 1] == recs;
      recs := recs + [current];
      i := i + 1;
    }
    FilledPrefix(crime.crimeArray[..], recs, i);
    return Success(s);
  }

  /** The filled slots are slots 1 to n - 1, holding `recs`, when slot n is empty or the end. */
  lemma FilledPrefix(slots: seq<Option<Record>>, recs: seq<Record>, n: nat)
    requires 1 <= n <= |slots| && |recs| == n - 1
    requires forall j :: 1 <= j < n ==> slots[j] == Some(recs[j - 1])
    requires n < |slots| ==> slots[n].None?
    ensures FirstEmpty(slots, 1) == n && Filled(slots) == recs
  {
  }

  /** A record with the given year and population and zeros elsewhere. */
  function YearPopulation(year: int, population: int): Record {
    Record(year, population, 0, 0.0, 0, 0.0, 0, 0.0, 0, 0.0, 0, 0.0, 0, 0.0, 0, 0.0, 0, 0.0, 0, 0.0)
  }

  /**
   * The changes between three adjacent records with populations 100, 110 and 99:
   * +10% (+10), then -10% (-11). In a full store these are the report's entries for
   * those slots; a store with only three records has no report at all.
   */
  lemma ThreeYearExample()
    ensures ChangeReport([YearPopulation(2010, 100), YearPopulation(2011, 110), YearPopulation(2012, 99)]) ==
      [Change(2010, 2011, Some(10.0), 10), Change(2011, 2012, Some(-10.0), -11)]
  {
  }
}
