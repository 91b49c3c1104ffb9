/** The part of a Le device configuration the protocols read, and the
    scanning list both protocols build from it. Scan intervals enter only
    through their lengths (in any common unit); the delay values np.linspace
    would place in them are not modelled, only which point of which interval
    each list entry is. */
module Configuration {
  import opened Bytes

  datatype LeConfig = LeConfig(
    ampPort: string,
    nPoints: nat,
    integrationPeriods: int,
    useEma: bool,
    /** Lengths of `scan_intervals`; empty when the configuration gives none. */
    intervalLengths: seq<nat>)

  /** `scan_intervals or [Interval(lower=0.0, upper=1.0)]`. */
  function Intervals(c: LeConfig): (r: seq<nat>)
    ensures 1 <= |r|
    ensures c.intervalLengths != [] ==> r == c.intervalLengths
  {
    if c.intervalLengths == [] then [1] else c.intervalLengths
  }

  function Sum(xs: seq<int>): int
  {
    if xs == [] then 0 else Sum(xs[..|xs| - 1]) + xs[|xs| - 1]
  }

  lemma SumPrefix(xs: seq<int>, i: nat)
    requires i < |xs|
    ensures Sum(xs[..i + 1]) == Sum(xs[..i]) + xs[i]
  {
    assert xs[..i + 1][..i] == xs[..i];
  }

  lemma SumSnoc(xs: seq<int>, x: int)
    ensures Sum(xs + [x]) == Sum(xs) + x
  {
    assert (xs + [x])[..|xs|] == xs;
  }

  lemma SumNonNegative(xs: seq<nat>)
    ensures Sum(xs) >= 0
  {
    if xs != [] {
      SumNonNegative(xs[..|xs| - 1]);
    }
  }

  /** An interval of `length` out of `total`: its proportional share of `n`
      points, rounded down. */
  function FloorShare(n: nat, length: nat, total: nat): (r: nat)
    requires total > 0
    ensures total * r <= n * length < total * (r + 1)
  {
    n * length / total
  }

  /** Each interval's proportional share of `n` points, rounded down: the
      largest count whose points, spread over `total`, do not exceed the
      interval's exact share. Both protocol versions start from it. */
  function Floors(n: nat, lengths: seq<nat>, total: nat): (r: seq<nat>)
    requires total > 0
    ensures |r| == |lengths|
    ensures forall i :: 0 <= i < |r| ==> total * r[i] <= n * lengths[i] < total * (r[i] + 1)
  {
    seq(|lengths|, i requires 0 <= i < |lengths| => FloorShare(n, lengths[i], total))
  }

  /** The `index`-th of `count` evenly spaced delays over interval number
      `interval`; `endpoint` says whether the upper bound is included. */
  datatype SweepPoint = SweepPoint(interval: nat, index: nat, count: nat, endpoint: bool)

  /** `np.linspace(lower, upper, n, endpoint)` over interval `i`. */
  function Linspace(i: nat, n: nat, endpoint: bool): (r: seq<SweepPoint>)
    ensures |r| == n
    ensures forall j :: 0 <= j < n ==> r[j] == SweepPoint(i, j, n, endpoint)
  {
    seq(n, (j: nat) => SweepPoint(i, j, n, endpoint))
  }

  /** The linspace of each interval in turn, all with the same `endpoint`. */
  function SweepOf(counts: seq<nat>, endpoint: bool): (r: seq<SweepPoint>)
  {
    if counts == [] then []
    else SweepOf(counts[..|counts| - 1], endpoint) + Linspace(|counts| - 1, counts[|counts| - 1], endpoint)
  }

  /** The scanning list for the given per-interval counts: the upper bound
      of an interval is included only when there is a single interval. */
  function Sweep(counts: seq<nat>): seq<SweepPoint>
  {
    SweepOf(counts, |counts| == 1)
  }

  /** One entry per point: the list is as long as the counts add up to. */
  lemma {:induction false} SweepLength(counts: seq<nat>, endpoint: bool)
    ensures |SweepOf(counts, endpoint)| == Sum(counts)
  {
    if counts != [] {
      SweepLength(counts[..|counts| - 1], endpoint);
    }
  }

  /** Every entry of the list names an interval that exists and a position
      inside that interval's share of points. */
  lemma {:induction false} SweepEntriesInRange(counts: seq<nat>, endpoint: bool)
    ensures forall k :: 0 <= k < |SweepOf(counts, endpoint)| ==>
      var p := SweepOf(counts, endpoint)[k];
      p.interval < |counts| && p.index < p.count && p.count == counts[p.interval] && p.endpoint == endpoint
  {
    if counts != [] {
      SweepEntriesInRange(counts[..|counts| - 1], endpoint);
    }
  }

  /** The float32 form of each scanning-list delay, as `struct.pack("<f")`
      writes it; the conversion itself is supplied by the caller. */
  function Floats32(list: seq<SweepPoint>, float32: SweepPoint -> Word): (r: seq<Word>)
    ensures |r| == |list|
    ensures forall i :: 0 <= i < |list| ==> r[i] == float32(list[i])
  {
    seq(|list|, i requires 0 <= i < |list| => float32(list[i]))
  }
}
