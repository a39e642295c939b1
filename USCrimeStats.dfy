/**
 * One row of the U.S. crime statistics file: the record type and the row parser.
 * A record is a value: the Java class has no setters, so its twenty fields are
 * written once, while the row is parsed, and only read afterwards.
 */
module USCrimeStats {
  import opened Wrappers
  import opened JavaLang

  /** The nine crime categories, in the order their columns appear in a row. */
  datatype Category =
    | ViolentCrime | Murder | Rape | Robbery | Assault
    | PropertyCrime | Burglary | Theft | VehicleTheft

  /** Position of a category among the nine, 0 to 8. */
  function Ordinal(c: Category): nat {
    match c
    case ViolentCrime => 0
    case Murder => 1
    case Rape => 2
    case Robbery => 3
    case Assault => 4
    case PropertyCrime => 5
    case Burglary => 6
    case Theft => 7
    case VehicleTheft => 8
  }

  /** The column holding the category's count: the even columns 2 to 18. */
  function CountColumn(c: Category): (k: nat)
    ensures 2 <= k <= 18 && k % 2 == 0
  {
    2 + 2 * Ordinal(c)
  }

  /** The column holding the category's rate, right after its count: the odd columns 3 to 19. */
  function RateColumn(c: Category): (k: nat)
    ensures 3 <= k <= 19 && k % 2 == 1
    ensures k == CountColumn(c) + 1
  {
    CountColumn(c) + 1
  }

  /** Columns holding a rate; every other column below 20 holds a Java `int`. */
  predicate IsRateColumn(k: nat) {
    3 <= k && k % 2 == 1
  }

  /** `Double.parseDouble` is not modelled: it is this parameter, which returns `None` where Java throws. */
  type RateParser = string -> Option<real>

  /** A row's statistics; the getters of the Java class are the field selectors. */
  datatype Record = Record(
    year: int,
    population: int,
    violentCrime: int, violentCrimeRate: real,
    murder: int, murderRate: real,
    rape: int, rapeRate: real,
    robbery: int, robberyRate: real,
    assault: int, assaultRate: real,
    propertyCrime: int, propertyCrimeRate: real,
    burglary: int, burglaryRate: real,
    theft: int, theftRate: real,
    vehicleTheft: int, vehicleTheftRate: real)
  {
    /** The category's incident count. */
    function Count(c: Category): int {
      match c
      case ViolentCrime => violentCrime
      case Murder => murder
      case Rape => rape
      case Robbery => robbery
      case Assault => assault
      case PropertyCrime => propertyCrime
      case Burglary => burglary
      case Theft => theft
      case VehicleTheft => vehicleTheft
    }

    /** The category's rate, as the getter `get...Rate()` returns it. */
    function Rate(c: Category): real {
      match c
      case ViolentCrime => violentCrimeRate
      case Murder => murderRate
      case Rape => rapeRate
      case Robbery => robberyRate
      case Assault => assaultRate
      case PropertyCrime => propertyCrimeRate
      case Burglary => burglaryRate
      case Theft => theftRate
      case VehicleTheft => vehicleTheftRate
    }
  }

  /** Why a row does not parse: the exception `parseArray` would throw, with the column it was reading. */
  datatype ParseError =
    | MissingField(column: nat)   // ArrayIndexOutOfBoundsException: fewer fields than the column needs
    | BadNumber(column: nat)      // NumberFormatException

  /** Column `k` is present and holds text its parser accepts. */
  predicate FieldOk(fields: seq<string>, parseRate: RateParser, k: nat) {
    k < |fields| &&
    if IsRateColumn(k) then parseRate(fields[k]).Some? else ParseInt(fields[k]).Some?
  }

  /**
   * The first column, from `from` on, that `parseArray` would fail on, reading
   * the columns in order as it does.
   */
  function FirstBadColumn(fields: seq<string>, parseRate: RateParser, from: nat): (r: Option<nat>)
    requires from <= 20
    decreases 20 - from
    ensures r.None? <==> forall k :: from <= k < 20 ==> FieldOk(fields, parseRate, k)
    ensures r.Some? ==>
      && from <= r.value < 20
      && !FieldOk(fields, parseRate, r.value)
      && forall k :: from <= k < r.value ==> FieldOk(fields, parseRate, k)
  {
    if from == 20 then None
    else if !FieldOk(fields, parseRate, from) then Some(from)
    else FirstBadColumn(fields, parseRate, from + 1)
  }

  /** The exception `parseArray` throws at a column it cannot read. */
  function ColumnError(fields: seq<string>, k: nat): ParseError {
    if k < |fields| then BadNumber(k) else MissingField(k)
  }

  /** The `int` in column k, once known to parse. */
  function IntAt(fields: seq<string>, parseRate: RateParser, k: nat): int
    requires !IsRateColumn(k) && FieldOk(fields, parseRate, k)
  {
    ParseInt(fields[k]).value
  }

  /** The rate in column k, once known to parse. */
  function RateAt(fields: seq<string>, parseRate: RateParser, k: nat): real
    requires IsRateColumn(k) && FieldOk(fields, parseRate, k)
  {
    parseRate(fields[k]).value
  }

  /**
   * `parseArray`: reads columns 0 to 19 in order and throws at the first one that is
   * missing or does not parse; the Java fields are assigned in that same order, so
   * on success every field holds its column's value. Columns past 19 are never read.
   */
  function ParseFields(fields: seq<string>, parseRate: RateParser): (r: Result<Record, ParseError>)
    ensures r.Success? <==> forall k :: 0 <= k < 20 ==> FieldOk(fields, parseRate, k)
    ensures r.Failure? ==>
      && r.error.column < 20
      && !FieldOk(fields, parseRate, r.error.column)
      && (forall k :: 0 <= k < r.error.column ==> FieldOk(fields, parseRate, k))
      && r.error == (if r.error.column < |fields| then BadNumber(r.error.column) else MissingField(r.error.column))
    ensures r.Success? ==>
      && |fields| >= 20
      && ParseInt(fields[0]) == Some(r.value.year)
      && ParseInt(fields[1]) == Some(r.value.population)
      && (forall c :: ParseInt(fields[CountColumn(c)]) == Some(r.value.Count(c)))
      && (forall c :: parseRate(fields[RateColumn(c)]) == Some(r.value.Rate(c)))
  {
    match FirstBadColumn(fields, parseRate, 0)
    case Some(k) => Failure(ColumnError(fields, k))
    case None =>
      BuildRecordCounts(fields, parseRate);
      BuildRecordRates(fields, parseRate);
      Success(BuildRecord(fields, parseRate))
  }

  /** The twenty field assignments of `parseArray`, once every column is known to parse. */
  function BuildRecord(fields: seq<string>, parseRate: RateParser): (r: Record)
    requires forall k :: 0 <= k < 20 ==> FieldOk(fields, parseRate, k)
    ensures |fields| >= 20
  {
    assert FieldOk(fields, parseRate, 19);
    Record(
      IntAt(fields, parseRate, 0), IntAt(fields, parseRate, 1),
      IntAt(fields, parseRate, 2), RateAt(fields, parseRate, 3),
      IntAt(fields, parseRate, 4), RateAt(fields, parseRate, 5),
      IntAt(fields, parseRate, 6), RateAt(fields, parseRate, 7),
      IntAt(fields, parseRate, 8), RateAt(fields, parseRate, 9),
      IntAt(fields, parseRate, 10), RateAt(fields, parseRate, 11),
      IntAt(fields, parseRate, 12), RateAt(fields, parseRate, 13),
      IntAt(fields, parseRate, 14), RateAt(fields, parseRate, 15),
      IntAt(fields, parseRate, 16), RateAt(fields, parseRate, 17),
      IntAt(fields, parseRate, 18), RateAt(fields, parseRate, 19))
  }

  /** Each count field of the built record holds its column's `int`. */
  lemma BuildRecordCounts(fields: seq<string>, parseRate: RateParser)
    requires forall k :: 0 <= k < 20 ==> FieldOk(fields, parseRate, k)
    ensures |fields| >= 20
    ensures ParseInt(fields[0]) == Some(BuildRecord(fields, parseRate).year)
    ensures ParseInt(fields[1]) == Some(BuildRecord(fields, parseRate).population)
    ensures forall c :: ParseInt(fields[CountColumn(c)]) == Some(BuildRecord(fields, parseRate).Count(c))
  {
    var r := BuildRecord(fields, parseRate);
    assert FieldOk(fields, parseRate, 0) && FieldOk(fields, parseRate, 1);
    forall c ensures ParseInt(fields[CountColumn(c)]) == Some(r.Count(c)) {
      assert FieldOk(fields, parseRate, CountColumn(c));
    }
  }

  /** Each rate field of the built record holds its column's rate. */
  lemma BuildRecordRates(fields: seq<string>, parseRate: RateParser)
    requires forall k :: 0 <= k < 20 ==> FieldOk(fields, parseRate, k)
    ensures |fields| >= 20
    ensures forall c :: parseRate(fields[RateColumn(c)]) == Some(BuildRecord(fields, parseRate).Rate(c))
  {
    var r := BuildRecord(fields, parseRate);
    forall c ensures parseRate(fields[RateColumn(c)]) == Some(r.Rate(c)) {
      assert FieldOk(fields, parseRate, RateColumn(c));
    }
  }

  /** The `USCrimeStats(String)` constructor: split the line on commas, then `parseArray`. */
  function Parse(line: string, parseRate: RateParser): (r: Result<Record, ParseError>)
    ensures r.Success? <==> forall k :: 0 <= k < 20 ==> FieldOk(Split(line), parseRate, k)
    ensures r.Failure? ==> r.error.column < 20 && !FieldOk(Split(line), parseRate, r.error.column)
    ensures r.Success? ==> |Split(line)| >= 20 && ParseInt(Split(line)[0]) == Some(r.value.year)
  {
    ParseFields(Split(line), parseRate)
  }

  /** Fields after column 19 change nothing: there is no check of the field count. */
  lemma ExtraFieldsIgnored(fields: seq<string>, extra: seq<string>, parseRate: RateParser)
    requires |fields| == 20
    ensures ParseFields(fields + extra, parseRate) == ParseFields(fields, parseRate)
  {
    var longer := fields + extra;
    assert forall k :: 0 <= k < 20 ==> longer[k] == fields[k];
    assert forall k :: 0 <= k < 20 ==> (FieldOk(longer, parseRate, k) <==> FieldOk(fields, parseRate, k));
    SameColumnsSameFirstBad(longer, fields, parseRate, 0);
  }

  lemma {:induction false} SameColumnsSameFirstBad(a: seq<string>, b: seq<string>, parseRate: RateParser, from: nat)
    requires from <= 20 && |a| >= 20 && |b| >= 20
    requires forall k :: from <= k < 20 ==> a[k] == b[k]
    decreases 20 - from
    ensures FirstBadColumn(a, parseRate, from) == FirstBadColumn(b, parseRate, from)
  {
    if from < 20 {
      assert FieldOk(a, parseRate, from) == FieldOk(b, parseRate, from);
      SameColumnsSameFirstBad(a, b, parseRate, from + 1);
    }
  }

  /** 19 fields are one too few: the row fails at column 19, if it gets that far. */
  lemma TooFewFields(fields: seq<string>, parseRate: RateParser)
    requires |fields| < 20
    ensures ParseFields(fields, parseRate).Failure?
    ensures ParseFields(fields, parseRate).error.column <= |fields|
    ensures (forall k :: 0 <= k < |fields| ==> FieldOk(fields, parseRate, k)) ==>
              ParseFields(fields, parseRate).error == MissingField(|fields|)
  {
    assert !FieldOk(fields, parseRate, |fields|);
  }
}
