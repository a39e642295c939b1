# CrimeStats in Dafny

This project models the core of CrimeStats, a small Java program that reads a CSV file of U.S. crime statistics into a fixed 21-slot array and answers queries about it. The program has one row per year, with a year, a population and nine (count, rate) pairs.

The core has three parts in the model:

- **The row parser** (`USCrimeStats`). A line is split on `,` with Java's `String.split` semantics. `parseArray` then reads columns 0 to 19 in order:
  - column 0 is the year and column 1 the population, read by `Integer.parseInt`;
  - each even column 2 to 18 is a count, read by `Integer.parseInt`;
  - each odd column 3 to 19 is that count's rate, read by `Double.parseDouble`.

  The first column that is missing or does not parse decides the exception. The record is a value: the Java class has no setters.
- **The store** (`CrimeStats`). This is a class over `array<Option<Record>>` with 21 slots, where `None` is Java's `null`.
  - `ProcessFile` skips the header line and stores data line k in slot k. It stops at the first line that fails to parse or has no slot.
  - `GetMaxRate` and `GetMinRate` are the two linear scans over slots 1 to 20. Each keeps the `-1` sentinel, the `returnIndex` and the `NullPointerException` handler, which ends the scan at the first empty slot.
  - Both scans are proved equal to the folds `RateScan.MaxScan` and `RateScan.MinScan` over the values they compare. What the folds return is then characterised declaratively: the earliest greatest rate, and the earliest least rate with its slot-0 quirk.
- **The population report** (menu option `'A'` of `RunCrimeStats.processMenuAction`). `PopulationChanges` is the loop that shifts `(year1, pop1)` into `(year2, pop2)`. It is proved equal to `ReportOf`, whose properties are lemmas.

Modules:

- `Wrappers`: `Option` and `Result`.
- `JavaLang`: `Integer.parseInt`, `String.split(",")` and 32-bit wrap-around.
- `USCrimeStats`: the record and the row parser.
- `RateScan`: the two scans as folds over a sequence of values.
- `CrimeStats`: the store, loading and the queries.
- `RunCrimeStats`: option `'A'`.

Library calls the model cannot see are parameters:

- `Double.parseDouble` is a `RateParser`, a function from the text to `Option<real>`.
- Loading is stated for any `RowParser`. `CrimeStats.Open` instantiates it with `USCrimeStats.Parse`, which is `ParseFields(Split(line), parseRate)`.

The file itself is a sequence of lines.

Rates are `real`. The queries apply only `<`, `>` and `==` to them.

Exceptions are values:

- a parse or store failure is a `LoadError`;
- a `NullPointerException` caught inside a query is the loop's exit;
- the uncaught one in option `'A'` is `ReportError.NullSlot`.

## Behaviour worth knowing

The model keeps these behaviours of the code as they are.

- **No query errors.** The queries return no error for an empty store or an unknown category.
  - An unknown category string leaves the compared value at 0.0. `getMaxRate` then returns slot 1 and `getMinRate` returns slot 0, which is `null`.
  - On an empty store both queries return slot 0 for a known category. For an unknown one, `getMaxRate` returns slot 1, which is also empty.
  - The category labels are exact and case-sensitive. Vehicle theft is selected by `"Vehicle"`, not `"Vehicle Theft"`.
- **Minimum seeding.** The first value `getMinRate` compares seeds its running minimum. In the code:
  - seeding does not move `returnIndex`, so when slot 1 holds the lowest rate `getMinRate` returns slot 0, which is `null`;
  - the seeding rule fires whenever the running minimum equals -1, not only on the first slot.
- **Option `'A'` needs a full store.** The loop reads slots 1 to 20 unconditionally. An empty slot among them throws an uncaught `NullPointerException`, so the report exists only for a file with exactly 20 data lines.
  - The `year1 < 0` test is also applied to the data. A record with a negative year starts a new run instead of producing a change.
- **At least 20 fields.** A row needs at least 20 fields, and the code ignores the rest: there is no arity check.
  - A row with too few fields fails with an index error at the first missing column. This happens only if every earlier column parses.
  - `split` drops trailing empty pieces, so a row ending in `,,` has fewer fields than commas.

## Model

| member | source | states |
|---|---|---|
| JavaLang.Wrap32 | src/crimestats/RunCrimeStats.java:156 | Java `int` subtraction: the result is in the `int` range, congruent to the exact value modulo 2^32, and equal to it when it fits |
| JavaLang.ParseInt | src/crimestats/USCrimeStats.java:136-155 | `Integer.parseInt`: an accepted string is an optional leading sign followed only by decimal digits, ends in a digit (so a lone sign is rejected), and the value is in the `int` range |
| JavaLang.ParseIntToString | src/crimestats/USCrimeStats.java:136-137 | every `int` written in decimal parses back to itself: the parser accepts the whole `int` range, signs included |
| JavaLang.ParseIntSignedDigits | src/crimestats/USCrimeStats.java:136-155 | conversely, an optional sign followed by at least one digit parses exactly when its value is in the `int` range, and then to that value |
| JavaLang.ParseIntLeadingZeros | src/crimestats/USCrimeStats.java:136 | `"007"` parses to 7 and `"+12"` to 12 |
| JavaLang.DigitsOfTwoToThe31 | src/crimestats/USCrimeStats.java:136 | the digits `2147483648` have the value one past the largest `int` |
| JavaLang.ParseIntOutOfRange | src/crimestats/USCrimeStats.java:136 | `"2147483648"` and `"-2147483649"`, one past each end of the `int` range, are format errors |
| JavaLang.ParseIntSigns | src/crimestats/USCrimeStats.java:136 | `"+7"` and `"-0"` parse, and a lone `"-"` or `"+"` is a format error |
| JavaLang.ParseIntRejects | src/crimestats/USCrimeStats.java:136 | the empty string, a leading blank and a decimal point are format errors: nothing is trimmed |
| JavaLang.SplitAll | src/crimestats/USCrimeStats.java:41 | the pieces between commas contain no comma and join back, with commas, to the line |
| JavaLang.DropTrailingEmpty | src/crimestats/USCrimeStats.java:41 | the result is a prefix of the pieces, only empty pieces were removed, and it does not end in an empty piece |
| JavaLang.Split | src/crimestats/USCrimeStats.java:41 | `split(",")`: a line without a comma comes back whole; otherwise the result is the comma-separated pieces with exactly the trailing empty ones dropped |
| JavaLang.SplitDropsTrailingEmpty | src/crimestats/USCrimeStats.java:41 | `"a,,"` splits into the single field `"a"` |
| JavaLang.SplitKeepsLeadingEmpty | src/crimestats/USCrimeStats.java:41 | `",a"` keeps its leading empty field, and `","` yields no field |
| USCrimeStats.Parse | src/crimestats/USCrimeStats.java:39-46 | the `USCrimeStats(String)` constructor: the line succeeds exactly when its first 20 `split(",")` fields all parse; a failure names a column below 20 that does not; on success the year is the `Integer.parseInt` value of field 0 |
| USCrimeStats.CountColumn | src/crimestats/USCrimeStats.java:138-154 | counts sit in the even columns 2 to 18 |
| USCrimeStats.RateColumn | src/crimestats/USCrimeStats.java:139-155 | each rate sits in the odd column right after its count |
| USCrimeStats.FirstBadColumn | src/crimestats/USCrimeStats.java:135-157 | none exactly when all columns from the start to 19 parse; otherwise the first column that is missing or does not parse |
| USCrimeStats.ParseFields | src/crimestats/USCrimeStats.java:135-157 | `parseArray`: succeeds exactly when columns 0 to 19 all parse. A failure names the first bad column, as `BadNumber` if present and `MissingField` if not. On success, year, population, every count and every rate are the parsed values of their columns |
| USCrimeStats.BuildRecord | src/crimestats/USCrimeStats.java:135-157 | the twenty assignments need at least 20 fields |
| USCrimeStats.BuildRecordCounts | src/crimestats/USCrimeStats.java:136-154 | the built record's year, population and nine counts are the `Integer.parseInt` values of columns 0, 1 and 2 to 18 |
| USCrimeStats.BuildRecordRates | src/crimestats/USCrimeStats.java:139-155 | the built record's nine rates are the `Double.parseDouble` values of columns 3 to 19 |
| USCrimeStats.ExtraFieldsIgnored | src/crimestats/USCrimeStats.java:135-157 | fields after column 19 never change the outcome: there is no arity check |
| USCrimeStats.SameColumnsSameFirstBad | src/crimestats/USCrimeStats.java:135-157 | two field lists that agree on columns 0 to 19 fail, or succeed, at the same column |
| USCrimeStats.TooFewFields | src/crimestats/USCrimeStats.java:136-155 | fewer than 20 fields always fail, no later than the first missing column, and with `MissingField` at that column when all present columns parse |
| RateScan.MaxScan | src/crimestats/CrimeStats.java:119-175 | the max loop: the index is 0 exactly when no value exceeds -1; otherwise it is the earliest slot holding a greatest value, which the running maximum equals |
| RateScan.MinScan | src/crimestats/CrimeStats.java:189-247 | the min loop never reports slot 1 |
| RateScan.MaxScanStep | src/crimestats/CrimeStats.java:171-174 | one more comparison replaces the running maximum only on a strict `<` |
| RateScan.MinScanStep | src/crimestats/CrimeStats.java:241-246 | one more comparison re-seeds on the sentinel without moving the index, and otherwise replaces only on a strict `>` |
| RateScan.MinScanIsEarliestMin | src/crimestats/CrimeStats.java:192-194 | with no value equal to -1: the running minimum is a least value, and the index is the earliest slot holding it, except that slot 1 is reported as slot 0 |
| RateScan.MaxScanIndexUnique | src/crimestats/CrimeStats.java:171-174 | conversely, a slot that is the earliest greatest value and exceeds -1 is the index the max loop returns |
| RateScan.MinScanIndexUnique | src/crimestats/CrimeStats.java:241-246 | conversely, with no value equal to -1 the min loop returns the earliest least slot, or slot 0 when that is slot 1 |
| RateScan.MaxScanExamples | src/crimestats/CrimeStats.java:171-174 | a tie keeps the earlier slot; values at or below -1 are never chosen |
| RateScan.MinScanExamples | src/crimestats/CrimeStats.java:241-246 | slot 1 as minimum gives slot 0; a later strict minimum is found; a value equal to -1 re-seeds |
| CrimeStats.CategoryOf | src/crimestats/CrimeStats.java:132-169 | the `switch`: a string selects a category exactly when it equals that category's label, and no category otherwise |
| CrimeStats.FirstEmpty | src/crimestats/CrimeStats.java:176-179 | the slots before the result are filled, and the result is empty or the end of the array |
| CrimeStats.Filled | src/crimestats/RunCrimeStats.java:131-144 | the records of the filled slots 1, 2, ... up to the first empty slot, in slot order |
| CrimeStats.ScanValues | src/crimestats/CrimeStats.java:131-169 | a query compares at most one value per slot 1 to 20 |
| CrimeStats.MaxRateIndex | src/crimestats/CrimeStats.java:117-180 | `getMaxRate` returns an existing slot |
| CrimeStats.MinRateIndex | src/crimestats/CrimeStats.java:187-252 | `getMinRate` returns an existing slot, never slot 1 |
| CrimeStats.ScannedRates | src/crimestats/CrimeStats.java:131-179 | for a known category, the compared values are the category's rates in slots 1 to n-1, where n is the first empty slot |
| CrimeStats.MaxRateIsEarliestHighest | src/crimestats/CrimeStats.java:117-180 | `getMaxRate` returns slot 0 exactly when no scanned rate exceeds -1. Otherwise it returns the filled slot before the first empty one with the highest rate, and the earliest such slot on ties |
| CrimeStats.MaxScanOverSlots | src/crimestats/CrimeStats.java:131-175 | the fold's characterisation, restated over slot numbers |
| CrimeStats.MaxRateOfFullStore | src/crimestats/CrimeStats.java:122-174 | with all 20 slots filled and rates not negative, `getMaxRate` returns a record whose rate is at least every stored record's |
| CrimeStats.MinRateIsEarliestLowest | src/crimestats/CrimeStats.java:187-252 | `getMinRate` returns the earliest slot from 2 on holding the lowest scanned rate, or slot 0 when slot 1 holds a lowest rate |
| CrimeStats.MinScanOverSlots | src/crimestats/CrimeStats.java:202-247 | the fold's characterisation, restated over slot numbers |
| CrimeStats.MinRateAtSlotOneReturnsSlotZero | src/crimestats/CrimeStats.java:192-194 | when slot 1 holds a lowest rate, `getMinRate` returns slot 0 |
| CrimeStats.UnknownCategory | src/crimestats/CrimeStats.java:119-171 | a string that is none of the nine labels makes `getMaxRate` return slot 1 and `getMinRate` slot 0, whatever the slots hold |
| CrimeStats.EmptyStore | src/crimestats/CrimeStats.java:117-252 | on an empty store `getMinRate` returns slot 0; `getMaxRate` returns slot 0 for a known category and slot 1 for an unknown one |
| CrimeStats.MurderRateExample | src/crimestats/CrimeStats.java:117-252 | murder rates 4.5, 6.1 and 3.2 for 2010 to 2012: the maximum is 2011's slot and the minimum 2012's |
| CrimeStats.ScanReadsSlot | src/crimestats/CrimeStats.java:131-169 | a filled slot the scan reaches contributes its rate for the category |
| CrimeStats.ScanStopsAtEmptySlot | src/crimestats/CrimeStats.java:176-179 | an empty slot the scan reaches ends the compared values |
| CrimeStats.RowError | src/crimestats/CrimeStats.java:86 | the exception at line k comes from parsing when the line does not parse, with the parser's cause; only a line that parses can fail on the store, so the value is evaluated before the index is checked |
| CrimeStats.LineParser | src/crimestats/CrimeStats.java:86 | `new USCrimeStats(line)` as loading calls it: a line is accepted exactly when its first 20 `split(",")` fields all parse |
| CrimeStats.FirstBadRow | src/crimestats/CrimeStats.java:82-90 | none exactly when every line from the start parses and has a slot; otherwise the first line that does not |
| CrimeStats.StopRow | src/crimestats/CrimeStats.java:82-90 | loading stops within the file |
| CrimeStats.Load | src/crimestats/CrimeStats.java:66-97 | loading succeeds exactly when there are at most 20 data lines and each parses. Then slot 0 stays empty, slot k holds line k's record, and later slots stay empty. A failure is at the first data line that fails: a parse error, or an out-of-bounds store at index 21 |
| CrimeStats.AllRowsFit | src/crimestats/CrimeStats.java:17-86 | every data line fits exactly when there are at most 20 and each parses |
| CrimeStats.LoadIgnoresHeader | src/crimestats/CrimeStats.java:83-87 | the header line has no influence on loading |
| CrimeStats.SameRowsSameFirstBad | src/crimestats/CrimeStats.java:82-90 | two files agreeing from a line on first fail at the same line |
| CrimeStats.TwentyFirstRowOverflows | src/crimestats/CrimeStats.java:84-97 | a 21st well-formed data line fails to be stored at index 21 |
| CrimeStats.CrimeStats.constructor | src/crimestats/CrimeStats.java:17-18 | a fresh store has 21 empty slots and `length` 21 |
| CrimeStats.CrimeStats.GetLength | src/crimestats/CrimeStats.java:32-34 | always 21, the array length, whatever was loaded |
| CrimeStats.CrimeStats.ProcessFile | src/crimestats/CrimeStats.java:66-110 | the returned exception is `Load`'s. Slots 1 up to the stopping line hold the parsed records, and every other slot is unchanged |
| CrimeStats.CrimeStats.GetMaxRate | src/crimestats/CrimeStats.java:117-180 | the loop returns the slot `MaxRateIndex` names, stopping at the first empty slot for a known category |
| CrimeStats.CrimeStats.GetMinRate | src/crimestats/CrimeStats.java:187-252 | the loop returns the slot `MinRateIndex` names, stopping at the first empty slot for a known category |
| CrimeStats.Open | src/crimestats/CrimeStats.java:43-59 | the store is built exactly when `Load` succeeds, and then holds `Load`'s slots; otherwise the error is `Load`'s |
| RunCrimeStats.ChangeBetween | src/crimestats/RunCrimeStats.java:141-156 | the earlier year comes first. The absolute change is the Java `int` difference, later minus earlier. The percent exists exactly when the earlier population is not 0, and then times that population equals 100 times the change |
| RunCrimeStats.ChangeReport | src/crimestats/RunCrimeStats.java:131-161 | what the option `'A'` loop produces from the records it reads: at most one change per adjacent pair, and none that starts from a negative year, since `year1 < 0` re-seeds instead |
| RunCrimeStats.ReportIsAdjacentPairs | src/crimestats/RunCrimeStats.java:131-161 | with no negative year, m records give m-1 changes, the k-th between records k and k+1 |
| RunCrimeStats.ReportOf | src/crimestats/RunCrimeStats.java:125-144 | the report fails exactly when some slot 1 to 20 is empty, naming the first such slot |
| RunCrimeStats.ReportOfFullStore | src/crimestats/RunCrimeStats.java:131-161 | a store with all 20 slots filled gives the changes of its records in slot order |
| RunCrimeStats.ReportNeedsTwentyRows | src/crimestats/RunCrimeStats.java:125-144 | after a successful load, the report exists exactly when the file had 20 data lines |
| RunCrimeStats.PopulationChanges | src/crimestats/RunCrimeStats.java:114-163 | the option `'A'` loop yields `ReportOf` of the store's slots |
| RunCrimeStats.FilledPrefix | src/crimestats/RunCrimeStats.java:131-144 | the slots the loop has read are exactly the records before the first empty slot |
| RunCrimeStats.ThreeYearExample | src/crimestats/RunCrimeStats.java:141-156 | three adjacent records of a full store with populations 100, 110 and 99 give the changes +10% (+10), then -10% (-11); a store of only three records has no report |

## Left out

- The menu loop, `getMenuOption`, `displayMenu`, `displayWelcome`, `pauseMenu` and the printed text of every option, including options B to T. These are console I/O; option `'A'` returns its changes instead of printing them.
- Console messages of the store: the `"Error: no data "` line that both query handlers print, and the progress messages of `processFile`. They are output only and change no state.
- Runtime timing and `displayExit`: they depend on the clock.
- Command-line argument handling and the `System.exit` calls: the file name is not modelled.
- Opening, reading and closing the file with `BufferedReader`: the file is given as its sequence of lines, so `FileNotFoundException` and `IOException` do not arise.
- `getCrimeArray`: callers read the `crimeArray` field directly.
- `Double.parseDouble` is the `RateParser` parameter. Its accepted syntax and its rounding are not modelled.
- `String.format("%.4f", ...)`: the percent is an exact `real`, not a rounded double.
- IEEE floating point in general. Rates are exact reals and the percent is exact. `ChangeBetween` gives `None` for the percent where Java's division by a zero population gives an infinity or NaN.
- ParseInt: accepts only the ASCII digits `0` to `9`. Java's `Integer.parseInt` also accepts other Unicode decimal digits.
- After a failed load Java's uncaught exception ends the program. `Open` returns the error instead, and the partly filled store is dropped.
- MinRateIsEarliestLowest: requires that no scanned rate equals -1. The re-seeding on a -1 rate is part of `MinScan` and shown by `RateScan.MinScanExamples`, but it is not characterised for all inputs.
- MaxRateOfFullStore: requires rates that are not negative. `MaxRateIsEarliestHighest` covers negative rates.
- ReportIsAdjacentPairs: requires years that are not negative. `ChangeReport` models the re-seeding on a negative year, but it is not characterised for all inputs.
