/**
 * The running-extremum scans of `getMaxRate` and `getMinRate`, taken over the
 * sequence of values they compare. Value `vals[j]` belongs to array slot `j + 1`,
 * and a scan's index is the slot it would return, 0 standing for "never moved".
 * Both scans start from the sentinel -1; only `<`, `>` and `==` are applied to values.
 */
module RateScan {

  const SENTINEL: real := -1.0

  /** The running value and the running `returnIndex` of a scan. */
  datatype ScanState = ScanState(best: real, index: nat)

  /** Slot `p` holds a greatest value, and every earlier slot a strictly smaller one. */
  ghost predicate IsEarliestMax(vals: seq<real>, p: nat) {
    && 1 <= p <= |vals|
    && (forall j :: 0 <= j < |vals| ==> vals[j] <= vals[p - 1])
    && (forall j :: 0 <= j < p - 1 ==> vals[j] < vals[p - 1])
  }

  /** Slot `p` holds a least value, and every earlier slot a strictly greater one. */
  ghost predicate IsEarliestMin(vals: seq<real>, p: nat) {
    && 1 <= p <= |vals|
    && (forall j :: 0 <= j < |vals| ==> vals[p - 1] <= vals[j])
    && (forall j :: 0 <= j < p - 1 ==> vals[p - 1] < vals[j])
  }

  /**
   * The `getMaxRate` loop: replace the running maximum on a strict `<`. The result
   * is the earliest slot of the greatest value, or 0 when no value exceeds the
   * sentinel -1 (an empty scan included).
   */
  function MaxScan(vals: seq<real>): (s: ScanState)
    decreases |vals|
    ensures s.index <= |vals|
    ensures s.index == 0 <==> forall j :: 0 <= j < |vals| ==> vals[j] <= SENTINEL
    ensures s.index == 0 ==> s.best == SENTINEL
    ensures s.index > 0 ==> IsEarliestMax(vals, s.index) && s.best == vals[s.index - 1] && s.best > SENTINEL
  {
    if vals == [] then ScanState(SENTINEL, 0)
    else
      var before := MaxScan(vals[..|vals| - 1]);
      var v := vals[|vals| - 1];
      if before.best < v then ScanState(v, |vals|) else before
  }

  /**
   * The `getMinRate` loop: while the running minimum equals the sentinel, the next
   * value is taken as the minimum without moving the index; otherwise a strict `>`
   * replaces both.
   */
  function MinScan(vals: seq<real>): (s: ScanState)
    decreases |vals|
    ensures s.index <= |vals| && s.index != 1
  {
    if vals == [] then ScanState(SENTINEL, 0)
    else
      var before := MinScan(vals[..|vals| - 1]);
      var v := vals[|vals| - 1];
      if before.best == SENTINEL then ScanState(v, before.index)
      else if before.best > v then ScanState(v, |vals|)
      else before
  }

  /** One more iteration of the `getMaxRate` loop, on the prefixes the loop has seen. */
  lemma MaxScanStep(vals: seq<real>, n: nat)
    requires n < |vals|
    ensures MaxScan(vals[..n + 1]) ==
      if MaxScan(vals[..n]).best < vals[n] then ScanState(vals[n], n + 1) else MaxScan(vals[..n])
  {
  }

  /** One more iteration of the `getMinRate` loop, on the prefixes the loop has seen. */
  lemma MinScanStep(vals: seq<real>, n: nat)
    requires n < |vals|
    ensures MinScan(vals[..n + 1]) ==
      if MinScan(vals[..n]).best == SENTINEL then ScanState(vals[n], MinScan(vals[..n]).index)
      else if MinScan(vals[..n]).best > vals[n] then ScanState(vals[n], n + 1)
      else MinScan(vals[..n])
  {
    assert vals[..n + 1][..n] == vals[..n];
  }

  predicate NoSentinel(vals: seq<real>) {
    forall j :: 0 <= j < |vals| ==> vals[j] != SENTINEL
  }

  /**
   * When no value equals the sentinel, the first value seeds the minimum and the
   * index then moves only to a strictly smaller value: the result is the earliest
   * slot of the least value, except that slot 1 is reported as slot 0.
   */
  lemma {:induction false} MinScanIsEarliestMin(vals: seq<real>)
    requires NoSentinel(vals)
    ensures |vals| == 0 ==> MinScan(vals).index == 0
    ensures |vals| > 0 ==> MinScan(vals).best == vals[if MinScan(vals).index == 0 then 0 else MinScan(vals).index - 1]
    ensures |vals| > 0 ==> IsEarliestMin(vals, if MinScan(vals).index == 0 then 1 else MinScan(vals).index)
    decreases |vals|
  {
    if |vals| > 1 {
      var init := vals[..|vals| - 1];
      assert NoSentinel(init) by {
        forall j | 0 <= j < |init| ensures init[j] != SENTINEL { assert init[j] == vals[j]; }
      }
      MinScanIsEarliestMin(init);
    }
  }

  /** The characterisation of `MaxScan` determines its index: exactly one slot is the earliest greatest one. */
  lemma MaxScanIndexUnique(vals: seq<real>, p: nat)
    requires IsEarliestMax(vals, p) && vals[p - 1] > SENTINEL
    ensures MaxScan(vals).index == p
  {
  }

  /**
   * The characterisation of `MinScan` determines its index: the earliest least slot p,
   * reported as slot 0 when it is slot 1.
   */
  lemma MinScanIndexUnique(vals: seq<real>, p: nat)
    requires NoSentinel(vals) && IsEarliestMin(vals, p)
    ensures MinScan(vals).index == if p == 1 then 0 else p
  {
    MinScanIsEarliestMin(vals);
  }

  /** A tie keeps the earlier slot, and values at or below the sentinel are never chosen. */
  lemma MaxScanExamples()
    ensures MaxScan([2.0, 5.0, 5.0]).index == 2
    ensures MaxScan([-1.0, -3.0]).index == 0
  {
  }

  /** Slot 1 only seeds the minimum; a value equal to the sentinel re-seeds it. */
  lemma MinScanExamples()
    ensures MinScan([1.0, 3.0]).index == 0
    ensures MinScan([3.0, 1.0, 2.0]).index == 2
    ensures MinScan([-1.0, 5.0, 4.0]) == ScanState(4.0, 3)
  {
  }
}
