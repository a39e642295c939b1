/**
 * The statistics store: a fixed array of 21 record slots filled from the lines of
 * the data file, and the per-category highest and lowest rate queries over it.
 * Slot 0 is never filled (the header line is skipped without moving the slot
 * counter), so a full store holds 20 records, in slots 1 to 20.
 */
module CrimeStats {
  import opened Wrappers
  import opened USCrimeStats
  import opened RateScan
  import JavaLang

  /** The length of `crimeArray`. */
  const SLOTS: nat := 21

  // ---------------------------------------------------------------------------
  // Category names

  /** The `case` label under which the queries' `switch` selects a category. */
  function CategoryName(c: Category): string {
    match c
    case ViolentCrime => "Violent Crime"
    case Murder => "Murder"
    case Rape => "Rape"
    case Robbery => "Robbery"
    case Assault => "Assault"
    case PropertyCrime => "Property Crime"
    case Burglary => "Burglary"
    case Theft => "Theft"
    case VehicleTheft => "Vehicle"
  }

  /** The `switch (option)`: an exact, case-sensitive match against the nine labels. */
  function CategoryOf(option: string): (r: Option<Category>)
    ensures r.Some? ==> CategoryName(r.value) == option
    ensures r.None? ==> forall c :: CategoryName(c) != option
  {
    if option == "Violent Crime" then Some(ViolentCrime)
    else if option == "Murder" then Some(Murder)
    else if option == "Robbery" then Some(Robbery)
    else if option == "Rape" then Some(Rape)
    else if option == "Assault" then Some(Assault)
    else if option == "Property Crime" then Some(PropertyCrime)
    else if option == "Burglary" then Some(Burglary)
    else if option == "Theft" then Some(Theft)
    else if option == "Vehicle" then Some(VehicleTheft)
    else None
  }

  // ---------------------------------------------------------------------------
  // What the queries scan

  /** The first empty slot from `from` on, or the number of slots when there is none. */
  function FirstEmpty(slots: seq<Option<Record>>, from: nat): (n: nat)
    requires from <= |slots|
    decreases |slots| - from
    ensures from <= n <= |slots|
    ensures forall j :: from <= j < n ==> slots[j].Some?
    ensures n < |slots| ==> slots[n].None?
  {
    if from == |slots| || slots[from].None? then from else FirstEmpty(slots, from + 1)
  }

  /** The records of slots 1, 2, ... up to the first empty slot. */
  function Filled(slots: seq<Option<Record>>): (recs: seq<Record>)
    requires |slots| >= 1
    ensures |recs| == FirstEmpty(slots, 1) - 1
    ensures forall j :: 0 <= j < |recs| ==> slots[j + 1] == Some(recs[j])
  {
    var n := FirstEmpty(slots, 1);
    seq(n - 1, j requires 0 <= j < n - 1 => slots[j + 1].value)
  }

  /**
   * The values a query compares, slot 1 first. For a known category they are the
   * rates of the slots before the first empty one: reading a rate of an empty slot
   * throws the `NullPointerException` that ends the scan. For any other string
   * nothing is read, and every slot compares as 0.0.
   */
  function ScanValues(slots: seq<Option<Record>>, category: Option<Category>): (vals: seq<real>)
    requires |slots| >= 1
    ensures |vals| < |slots|
  {
    match category
    case None => seq(|slots| - 1, _ => 0.0)
    case Some(c) =>
      var n := FirstEmpty(slots, 1);
      seq(n - 1, j requires 0 <= j < n - 1 => slots[j + 1].value.Rate(c))
  }

  /** The slot `getMaxRate(option)` returns. */
  function MaxRateIndex(slots: seq<Option<Record>>, option: string): (k: nat)
    requires |slots| >= 1
    ensures k < |slots|
  {
    MaxScan(ScanValues(slots, CategoryOf(option))).index
  }

  /** The slot `getMinRate(option)` returns. */
  function MinRateIndex(slots: seq<Option<Record>>, option: string): (k: nat)
    requires |slots| >= 1
    ensures k < |slots| && k != 1
  {
    MinScan(ScanValues(slots, CategoryOf(option))).index
  }

  /** For a known category, the scan covers the filled slots 1 to n - 1 that precede the empty slot n (or the end). */
  lemma ScannedRates(slots: seq<Option<Record>>, option: string, c: Category, n: nat)
    requires 1 <= n <= |slots| && CategoryOf(option) == Some(c)
    requires forall j :: 1 <= j < n ==> slots[j].Some?
    requires n < |slots| ==> slots[n].None?
    ensures |ScanValues(slots, Some(c))| == n - 1
    ensures forall j :: 1 <= j < n ==> ScanValues(slots, Some(c))[j - 1] == slots[j].value.Rate(c)
  {
  }

  /**
   * `getMaxRate` for a known category, whose scan ends at the first empty slot n:
   * the result is the earliest slot before n with the highest rate (a tie keeps the
   * earlier slot), or slot 0 when no rate before n exceeds -1, which includes the
   * case of an empty store.
   */
  lemma MaxRateIsEarliestHighest(slots: seq<Option<Record>>, option: string, c: Category, n: nat)
    requires 1 <= n <= |slots| && CategoryOf(option) == Some(c)
    requires forall j :: 1 <= j < n ==> slots[j].Some?
    requires n < |slots| ==> slots[n].None?
    ensures MaxRateIndex(slots, option) < n
    ensures MaxRateIndex(slots, option) == 0 <==> forall j :: 1 <= j < n ==> slots[j].value.Rate(c) <= SENTINEL
    ensures MaxRateIndex(slots, option) > 0 ==>
      var k := MaxRateIndex(slots, option);
      && slots[k].Some?
      && (forall j :: 1 <= j < n ==> slots[j].value.Rate(c) <= slots[k].value.Rate(c))
      && (forall j :: 1 <= j < k ==> slots[j].value.Rate(c) < slots[k].value.Rate(c))
  {
    ScannedRates(slots, option, c, n);
    MaxScanOverSlots(slots, ScanValues(slots, Some(c)), c, n);
  }

  /** `MaxScan`'s characterisation, moved from value positions to slot numbers. */
  lemma MaxScanOverSlots(slots: seq<Option<Record>>, vals: seq<real>, c: Category, n: nat)
    requires 1 <= n <= |slots| && |vals| == n - 1
    requires forall j :: 1 <= j < n ==> slots[j].Some? && vals[j - 1] == slots[j].value.Rate(c)
    ensures MaxScan(vals).index < n
    ensures MaxScan(vals).index == 0 <==> forall j :: 1 <= j < n ==> slots[j].value.Rate(c) <= SENTINEL
    ensures MaxScan(vals).index > 0 ==>
      var k := MaxScan(vals).index;
      && slots[k].Some?
      && (forall j :: 1 <= j < n ==> slots[j].value.Rate(c) <= slots[k].value.Rate(c))
      && (forall j :: 1 <= j < k ==> slots[j].value.Rate(c) < slots[k].value.Rate(c))
  {
    var k := MaxScan(vals).index;
    if k == 0 {
      forall j | 1 <= j < n ensures slots[j].value.Rate(c) <= SENTINEL { assert vals[j - 1] <= SENTINEL; }
    } else {
      assert IsEarliestMax(vals, k);
      forall j | 1 <= j < n ensures slots[j].value.Rate(c) <= slots[k].value.Rate(c) { assert vals[j - 1] <= vals[k - 1]; }
      forall j | 1 <= j < k ensures slots[j].value.Rate(c) < slots[k].value.Rate(c) { assert vals[j - 1] < vals[k - 1]; }
    }
  }

  /** With all 20 slots filled and no negative rate, `getMaxRate` returns a record whose rate is at least every other one. */
  lemma MaxRateOfFullStore(slots: seq<Option<Record>>, option: string, c: Category)
    requires |slots| == SLOTS && CategoryOf(option) == Some(c)
    requires forall j :: 1 <= j < SLOTS ==> slots[j].Some? && slots[j].value.Rate(c) >= 0.0
    ensures MaxRateIndex(slots, option) >= 1
    ensures slots[MaxRateIndex(slots, option)].Some?
    ensures forall j :: 1 <= j < SLOTS ==> slots[j].value.Rate(c) <= slots[MaxRateIndex(slots, option)].value.Rate(c)
  {
    MaxRateIsEarliestHighest(slots, option, c, SLOTS);
    assert slots[1].value.Rate(c) > SENTINEL;
  }

  /**
   * `getMinRate` for a known category whose scanned rates never equal the sentinel
   * -1: the earliest slot before n with the lowest rate, except that when this is
   * slot 1 (which only seeds the running minimum) the result is slot 0.
   */
  lemma MinRateIsEarliestLowest(slots: seq<Option<Record>>, option: string, c: Category, n: nat)
    requires 2 <= n <= |slots| && CategoryOf(option) == Some(c)
    requires forall j :: 1 <= j < n ==> slots[j].Some? && slots[j].value.Rate(c) != SENTINEL
    requires n < |slots| ==> slots[n].None?
    ensures MinRateIndex(slots, option) < n
    ensures MinRateIndex(slots, option) == 0 ==>
      forall j :: 1 <= j < n ==> slots[1].value.Rate(c) <= slots[j].value.Rate(c)
    ensures MinRateIndex(slots, option) > 0 ==>
      var k := MinRateIndex(slots, option);
      && 2 <= k && slots[k].Some?
      && (forall j :: 1 <= j < n ==> slots[k].value.Rate(c) <= slots[j].value.Rate(c))
      && (forall j :: 1 <= j < k ==> slots[k].value.Rate(c) < slots[j].value.Rate(c))
  {
    ScannedRates(slots, option, c, n);
    MinScanOverSlots(slots, ScanValues(slots, Some(c)), c, n);
  }

  /** `MinScan`'s characterisation, moved from value positions to slot numbers. */
  lemma MinScanOverSlots(slots: seq<Option<Record>>, vals: seq<real>, c: Category, n: nat)
    requires 2 <= n <= |slots| && |vals| == n - 1
    requires forall j :: 1 <= j < n ==> slots[j].Some? && slots[j].value.Rate(c) != SENTINEL && vals[j - 1] == slots[j].value.Rate(c)
    ensures MinScan(vals).index < n
    ensures MinScan(vals).index == 0 ==>
      forall j :: 1 <= j < n ==> slots[1].value.Rate(c) <= slots[j].value.Rate(c)
    ensures MinScan(vals).index > 0 ==>
      var k := MinScan(vals).index;
      && 2 <= k && slots[k].Some?
      && (forall j :: 1 <= j < n ==> slots[k].value.Rate(c) <= slots[j].value.Rate(c))
      && (forall j :: 1 <= j < k ==> slots[k].value.Rate(c) < slots[j].value.Rate(c))
  {
    assert NoSentinel(vals) by {
      forall j | 0 <= j < |vals| ensures vals[j] != SENTINEL { assert vals[j] == slots[j + 1].value.Rate(c); }
    }
    MinScanIsEarliestMin(vals);
    var k := MinScan(vals).index;
    if k == 0 {
      assert IsEarliestMin(vals, 1);
      forall j | 1 <= j < n ensures slots[1].value.Rate(c) <= slots[j].value.Rate(c) { assert vals[0] <= vals[j - 1]; }
    } else {
      assert IsEarliestMin(vals, k);
      forall j | 1 <= j < n ensures slots[k].value.Rate(c) <= slots[j].value.Rate(c) { assert vals[k - 1] <= vals[j - 1]; }
      forall j | 1 <= j < k ensures slots[k].value.Rate(c) < slots[j].value.Rate(c) { assert vals[k - 1] < vals[j - 1]; }
    }
  }

  /** When slot 1 holds a lowest rate, `getMinRate` returns slot 0, which loading never fills. */
  lemma MinRateAtSlotOneReturnsSlotZero(slots: seq<Option<Record>>, option: string, c: Category, n: nat)
    requires 2 <= n <= |slots| && CategoryOf(option) == Some(c)
    requires forall j :: 1 <= j < n ==> slots[j].Some? && slots[j].value.Rate(c) != SENTINEL
    requires n < |slots| ==> slots[n].None?
    requires forall j :: 1 <= j < n ==> slots[1].value.Rate(c) <= slots[j].value.Rate(c)
    ensures MinRateIndex(slots, option) == 0
  {
    MinRateIsEarliestLowest(slots, option, c, n);
  }

  /**
   * A string that is none of the nine labels leaves the compared value at 0.0 for
   * every slot: `getMaxRate` then returns slot 1 and `getMinRate` slot 0, whatever
   * the slots hold.
   */
  lemma UnknownCategory(slots: seq<Option<Record>>, option: string)
    requires |slots| >= 2 && CategoryOf(option).None?
    ensures MaxRateIndex(slots, option) == 1
    ensures MinRateIndex(slots, option) == 0
  {
    var vals := ScanValues(slots, None);
    assert vals[0] == 0.0;
    MinScanIsEarliestMin(vals);
  }

  /**
   * On an empty store `getMinRate` returns slot 0, and `getMaxRate` returns slot 0
   * for a known category and slot 1 for an unknown one: both empty.
   */
  lemma EmptyStore(option: string)
    ensures MinRateIndex(seq(SLOTS, _ => None), option) == 0
    ensures MaxRateIndex(seq(SLOTS, _ => None), option) == if CategoryOf(option).Some? then 0 else 1
  {
    var slots: seq<Option<Record>> := seq(SLOTS, _ => None);
    match CategoryOf(option)
    case Some(c) => ScannedRates(slots, option, c, 1);
    case None => UnknownCategory(slots, option);
  }

  /** A record with the given year and murder rate and zeros elsewhere. */
  function MurderRecord(year: int, rate: real): Record {
    Record(year, 0, 0, 0.0, 0, rate, 0, 0.0, 0, 0.0, 0, 0.0, 0, 0.0, 0, 0.0, 0, 0.0, 0, 0.0)
  }

  /**
   * Three years with murder rates 4.5, 6.1 and 3.2 in slots 1 to 3: the highest is
   * 2011's (slot 2) and the lowest 2012's (slot 3); the scans stop at empty slot 4.
   */
  lemma MurderRateExample()
    ensures
      var slots := [None, Some(MurderRecord(2010, 4.5)), Some(MurderRecord(2011, 6.1)), Some(MurderRecord(2012, 3.2))]
                   + seq(SLOTS - 4, _ => None);
      MaxRateIndex(slots, "Murder") == 2 && MinRateIndex(slots, "Murder") == 3
  {
    var slots := [None, Some(MurderRecord(2010, 4.5)), Some(MurderRecord(2011, 6.1)), Some(MurderRecord(2012, 3.2))]
                 + seq(SLOTS - 4, _ => None);
    ScannedRates(slots, "Murder", Murder, 4);
    assert ScanValues(slots, Some(Murder)) == [4.5, 6.1, 3.2];
    var vals := [4.5, 6.1, 3.2];
    assert vals[..1] == [4.5] && vals[..2] == [4.5, 6.1] && vals[..3] == vals;
    MaxScanStep(vals, 0); MaxScanStep(vals, 1); MaxScanStep(vals, 2);
    MinScanStep(vals, 0); MinScanStep(vals, 1); MinScanStep(vals, 2);
  }

  // ---------------------------------------------------------------------------
  // Loading

  /** Why loading stops: the exception that ends `processFile`, with the 0-based line it was on. */
  datatype LoadError =
    | MalformedRow(line: nat, cause: ParseError)   // thrown while parsing the line
    | SlotOutOfBounds(line: nat)                   // ArrayIndexOutOfBoundsException storing it

  /**
   * The `USCrimeStats(String)` constructor as loading sees it. Loading is stated for
   * any row parser; `Open` runs it with `USCrimeStats.Parse`.
   */
  type RowParser = string -> Result<Record, ParseError>

  /** Data line k parses and its slot exists. */
  predicate RowFits(lines: seq<string>, parse: RowParser, k: nat)
    requires k < |lines|
  {
    parse(lines[k]).Success? && k < SLOTS
  }

  /** The first line from `from` on at which `processFile` throws. */
  function FirstBadRow(lines: seq<string>, parse: RowParser, from: nat): (r: Option<nat>)
    decreases |lines| - from
    ensures r.None? <==> forall k :: from <= k < |lines| ==> RowFits(lines, parse, k)
    ensures r.Some? ==>
      && from <= r.value < |lines|
      && !RowFits(lines, parse, r.value)
      && forall k :: from <= k < r.value ==> RowFits(lines, parse, k)
  {
    if from >= |lines| then None
    else if !RowFits(lines, parse, from) then Some(from)
    else FirstBadRow(lines, parse, from + 1)
  }

  /** The exception thrown at line k. The line is parsed before it is stored, so a bad line past the end fails as a bad line. */
  function RowError(lines: seq<string>, parse: RowParser, k: nat): (e: LoadError)
    requires k < |lines|
    ensures e.line == k
    ensures e.MalformedRow? <==> parse(lines[k]).Failure?
    ensures e.MalformedRow? ==> e.cause == parse(lines[k]).error
  {
    match parse(lines[k])
    case Failure(e) => MalformedRow(k, e)
    case Success(_) => SlotOutOfBounds(k)
  }

  /** The record a line parses to, or `None`. */
  function RowRecord(line: string, parse: RowParser): Option<Record> {
    match parse(line)
    case Success(r) => Some(r)
    case Failure(_) => None
  }

  /** The line at which `processFile` stops: the first bad one, or the end of the file. */
  function StopRow(lines: seq<string>, parse: RowParser): (n: nat)
    ensures n <= |lines|
  {
    match FirstBadRow(lines, parse, 1)
    case Some(k) => k
    case None => |lines|
  }

  /**
   * The slots that `processFile` leaves in a fresh store, or the exception that ends
   * it. Line 0 is never parsed; line k (k >= 1) goes into slot k; a file with more
   * than 20 data lines, or with a line that does not parse, fails.
   */
  function Load(lines: seq<string>, parse: RowParser): (r: Result<seq<Option<Record>>, LoadError>)
    ensures r.Success? <==>
      |lines| <= SLOTS && forall k :: 1 <= k < |lines| ==> parse(lines[k]).Success?
    ensures r.Success? ==>
      && |r.value| == SLOTS
      && r.value[0] == None
      && forall k :: 1 <= k < SLOTS ==>
           r.value[k] == if k < |lines| then Some(parse(lines[k]).value) else None
    ensures r.Failure? ==>
      && 1 <= r.error.line < |lines|
      && (forall k :: 1 <= k < r.error.line ==> RowFits(lines, parse, k))
      && r.error == match parse(lines[r.error.line])
                    case Failure(e) => MalformedRow(r.error.line, e)
                    case Success(_) => SlotOutOfBounds(SLOTS)
  {
    AllRowsFit(lines, parse);
    match FirstBadRow(lines, parse, 1)
    case Some(k) =>
      assert k > 1 ==> RowFits(lines, parse, k - 1);
      assert parse(lines[k]).Failure? || k >= SLOTS;
      Failure(RowError(lines, parse, k))
    case None =>
      Success(seq(SLOTS, k requires 0 <= k < SLOTS => if 1 <= k < |lines| then RowRecord(lines[k], parse) else None))
  }

  /** Every data line fits exactly when there are at most 20 of them and each parses. */
  lemma AllRowsFit(lines: seq<string>, parse: RowParser)
    ensures (forall k :: 1 <= k < |lines| ==> RowFits(lines, parse, k)) <==>
            (|lines| <= SLOTS && forall k :: 1 <= k < |lines| ==> parse(lines[k]).Success?)
  {
    assert SLOTS < |lines| ==> !RowFits(lines, parse, SLOTS);
    if forall k :: 1 <= k < |lines| ==> RowFits(lines, parse, k) {
      forall k | 1 <= k < |lines| ensures parse(lines[k]).Success? { assert RowFits(lines, parse, k); }
    }
  }

  /** The header line has no influence on loading. */
  lemma LoadIgnoresHeader(header1: string, header2: string, rows: seq<string>, parse: RowParser)
    ensures Load([header1] + rows, parse) == Load([header2] + rows, parse)
  {
    var a, b := [header1] + rows, [header2] + rows;
    assert forall k :: 1 <= k < |a| ==> a[k] == b[k];
    SameRowsSameFirstBad(a, b, parse, 1);
    if Load(a, parse).Success? {
      assert Load(a, parse).value == Load(b, parse).value by {
        forall k | 0 <= k < SLOTS ensures Load(a, parse).value[k] == Load(b, parse).value[k] {
          if 1 <= k < |a| { assert a[k] == b[k]; }
        }
      }
    }
  }

  lemma {:induction false} SameRowsSameFirstBad(a: seq<string>, b: seq<string>, parse: RowParser, from: nat)
    requires |a| == |b| && forall k :: from <= k < |a| ==> a[k] == b[k]
    decreases |a| - from
    ensures FirstBadRow(a, parse, from) == FirstBadRow(b, parse, from)
  {
    if from < |a| {
      SameRowsSameFirstBad(a, b, parse, from + 1);
    }
  }

  /** A 21st well-formed data line is parsed and then fails to be stored, at index 21. */
  lemma TwentyFirstRowOverflows(lines: seq<string>, parse: RowParser)
    requires |lines| > SLOTS
    requires forall k :: 1 <= k <= SLOTS ==> parse(lines[k]).Success?
    ensures Load(lines, parse) == Failure(SlotOutOfBounds(SLOTS))
  {
    var r := Load(lines, parse);
    assert !RowFits(lines, parse, SLOTS);
    assert r.Failure?;
    var k := r.error.line;
    if k < SLOTS {
      assert parse(lines[k]).Success?;
    }
  }

  // ---------------------------------------------------------------------------
  // The store

  class CrimeStats {
    var crimeArray: array<Option<Record>>
    var length: int

    ghost predicate Valid()
      reads this
    {
      crimeArray.Length == SLOTS && length == crimeArray.Length
    }

    /** The field initialisers: 21 empty slots, and `length` taken from the array. */
    constructor ()
      ensures Valid() && fresh(crimeArray)
      ensures forall k :: 0 <= k < SLOTS ==> crimeArray[k] == None
    {
      crimeArray := new Option<Record>[SLOTS](_ => None);
      length := SLOTS;
    }

    /** `getLength()`: the array length, 21 however many lines were read. */
    function GetLength(): (n: int)
      reads this
      requires Valid()
      ensures n == SLOTS && n == crimeArray.Length
    {
      length
    }

    /**
     * `processFile`, on the file's lines: skip line 0, store line k in slot k, and
     * stop at the first line that does not parse or has no slot. The slots already
     * written stay written; the caller never sees the store after a failure.
     */
    method ProcessFile(lines: seq<string>, parse: RowParser) returns (error: Option<LoadError>)
      requires Valid()
      modifies crimeArray
      ensures Valid()
      ensures error == if Load(lines, parse).Failure? then Some(Load(lines, parse).error) else None
      ensures forall k :: 0 <= k < SLOTS ==>
        crimeArray[k] == if 1 <= k < StopRow(lines, parse) then RowRecord(lines[k], parse) else old(crimeArray[k])
    {
      var index := 0;
      while index < |lines|
        invariant 0 <= index <= |lines|
        invariant forall k :: 1 <= k < index ==> RowFits(lines, parse, k)
        invariant forall k :: 0 <= k < SLOTS ==>
          crimeArray[k] == if 1 <= k < index then RowRecord(lines[k], parse) else old(crimeArray[k])
      {
        if index > 0 {
          var row := parse(lines[index]);
          if row.Failure? {
            assert !RowFits(lines, parse, index);
            return Some(MalformedRow(index, row.error));
          }
          if index >= crimeArray.Length {
            assert index > 1 ==> RowFits(lines, parse, index - 1);
            assert !RowFits(lines, parse, index);
            return Some(SlotOutOfBounds(index));
          }
          crimeArray[index] := Some(row.value);
        }
        index := index + 1;
      }
      return None;
    }

    /** `getMaxRate(option)`: the record in the slot with the highest rate scanned, as `MaxRateIndex` describes. */
    method GetMaxRate(option: string) returns (r: Option<Record>)
      requires Valid()
      ensures r == crimeArray[MaxRateIndex(crimeArray[..], option)]
    {
      var category := CategoryOf(option);
      ghost var vals := ScanValues(crimeArray[..], category);
      var compareOption := 0.0;
      var maxRate := SENTINEL;
      var returnIndex := 0;
      var i := 1;
      while i < length
        invariant 1 <= i <= length && i - 1 <= |vals|
        invariant MaxScan(vals[..i - 1]) == ScanState(maxRate, returnIndex)
        invariant category.None? ==> compareOption == 0.0 && |vals| == length - 1
      {
        if category.Some? {
          if crimeArray[i].None? {
            ScanStopsAtEmptySlot(crimeArray[..], category.value, i);
            break;  // the NullPointerException handler
          }
          ScanReadsSlot(crimeArray[..], category.value, i);
          compareOption := crimeArray[i].value.Rate(category.value);
        }
        MaxScanStep(vals, i - 1);
        if maxRate < compareOption {
          maxRate := compareOption;
          returnIndex := i;
        }
        i := i + 1;
      }
      assert vals[..i - 1] == vals;
      r := crimeArray[returnIndex];
    }

    /** `getMinRate(option)`: the record in the slot `MinRateIndex` describes. */
    method GetMinRate(option: string) returns (r: Option<Record>)
      requires Valid()
      ensures r == crimeArray[MinRateIndex(crimeArray[..], option)]
    {
      var category := CategoryOf(option);
      ghost var vals := ScanValues(crimeArray[..], category);
      var compareOption := 0.0;
      var minRate := SENTINEL;
      var returnIndex := 0;
      var i := 1;
      while i < length
        invariant 1 <= i <= length && i - 1 <= |vals|
        invariant MinScan(vals[..i - 1]) == ScanState(minRate, returnIndex)
        invariant category.None? ==> compareOption == 0.0 && |vals| == length - 1
      {
        if category.Some? {
          if crimeArray[i].None? {
            ScanStopsAtEmptySlot(crimeArray[..], category.value, i);
            break;  // the NullPointerException handler
          }
          ScanReadsSlot(crimeArray[..], category.value, i);
          compareOption := crimeArray[i].value.Rate(category.value);
        }
        MinScanStep(vals, i - 1);
        if minRate == SENTINEL {
          minRate := compareOption;
        } else if minRate > compareOption {
          minRate := compareOption;
          returnIndex := i;
        }
        i := i + 1;
      }
      assert vals[..i - 1] == vals;
      r := crimeArray[returnIndex];
    }
  }

  /** A known category's scan reads slot i when it is filled and the scan has come that far. */
  lemma ScanReadsSlot(slots: seq<Option<Record>>, c: Category, i: nat)
    requires 1 <= i < |slots| && slots[i].Some?
    requires i - 1 <= |ScanValues(slots, Some(c))|
    ensures i - 1 < |ScanValues(slots, Some(c))|
    ensures ScanValues(slots, Some(c))[i - 1] == slots[i].value.Rate(c)
  {
  }

  /** A known category's scan ends at an empty slot i it has reached. */
  lemma ScanStopsAtEmptySlot(slots: seq<Option<Record>>, c: Category, i: nat)
    requires 1 <= i < |slots| && slots[i].None?
    requires i - 1 <= |ScanValues(slots, Some(c))|
    ensures |ScanValues(slots, Some(c))| == i - 1
  {
  }

  /**
   * The `CrimeStats(String[])` constructor once the file name is known: a fresh
   * store loaded from the file's lines. A failure ends the program in Java, so no
   * store is returned then.
   */
  method Open(lines: seq<string>, parseRate: RateParser) returns (r: Result<CrimeStats, LoadError>)
    ensures r.Success? ==> fresh(r.value) && r.value.Valid()
    ensures r.Success? ==> Load(lines, LineParser(parseRate)).Success?
    ensures r.Success? ==> r.value.crimeArray[..] == Load(lines, LineParser(parseRate)).value
    ensures r.Failure? ==> Load(lines, LineParser(parseRate)) == Failure(r.error)
  {
    var store := new CrimeStats();
    var error := store.ProcessFile(lines, LineParser(parseRate));
    if error.Some? {
      return Failure(error.value);
    }
    assert store.crimeArray[..] == Load(lines, LineParser(parseRate)).value;
    return Success(store);
  }

  /** `new USCrimeStats(line)`: split on commas, then `parseArray`. */
  function LineParser(parseRate: RateParser): (parse: RowParser)
    ensures forall line :: parse(line).Success? <==> forall k :: 0 <= k < 20 ==> FieldOk(JavaLang.Split(line), parseRate, k)
  {
    line => Parse(line, parseRate)
  }
}
