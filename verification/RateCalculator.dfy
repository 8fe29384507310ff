// The rolling window of byte-counter samples and the two rates read from it: pkg/fwdmetrics/rate.go.
module RateCalculator {
  import opened Text
  import opened RingBuffers

  datatype Sample = Sample(timestamp: real, bytesIn: nat, bytesOut: nat)

  /** A counter at a moment: one direction of a sample. */
  datatype Point = Point(time: real, bytes: nat)

  function In(s: Sample): Point {
    Point(s.timestamp, s.bytesIn)
  }

  function Out(s: Sample): Point {
    Point(s.timestamp, s.bytesOut)
  }

  function Slope(p: Point, q: Point): real
    requires p.time < q.time
  {
    (q.bytes - p.bytes) as real / (q.time - p.time)
  }

  /** Both rates between two samples: none when time stood still or either counter was reset. */
  function Rates(prev: Sample, curr: Sample): (real, real) {
    if curr.timestamp <= prev.timestamp || curr.bytesIn < prev.bytesIn || curr.bytesOut < prev.bytesOut then (0.0, 0.0)
    else (Slope(In(prev), In(curr)), Slope(Out(prev), Out(curr)))
  }

  function Instant(stored: seq<Sample>): (real, real) {
    if |stored| < 2 then (0.0, 0.0) else Rates(stored[|stored| - 2], stored[|stored| - 1])
  }

  /** The samples an average over `window` seconds spans. */
  function Window(stored: seq<Sample>, window: nat): seq<Sample> {
    Tail(stored, Min(window + 1, |stored|))
  }

  function Average(stored: seq<Sample>, window: int): (real, real) {
    if |stored| < 2 || window <= 0 then (0.0, 0.0)
    else var span := Window(stored, window); Rates(span[0], span[|span| - 1])
  }

  const DEFAULT_MAX_SAMPLES := 60

  class Calculator {
    ghost var recorded: seq<Sample>
    var samples: seq<Sample>
    var currentIndex: nat
    const maxSamples: nat

    ghost predicate Valid()
      reads this
    {
      && maxSamples > 0
      && if |recorded| < maxSamples then samples == recorded && currentIndex == |samples|
         else |samples| == maxSamples && Holds(samples, currentIndex, maxSamples, recorded)
    }

    ghost function Stored(): seq<Sample>
      requires Valid()
      reads this
    {
      Tail(recorded, Min(|recorded|, maxSamples))
    }

    constructor (maxSamples: int)
      ensures Valid() && recorded == []
      ensures this.maxSamples == if maxSamples <= 0 then 60 else maxSamples
    {
      this.maxSamples := if maxSamples <= 0 then DEFAULT_MAX_SAMPLES else maxSamples;
      samples, currentIndex, recorded := [], 0, [];
    }

    method AddSample(sample: Sample)
      requires Valid()
      modifies this
      ensures Valid() && recorded == old(recorded) + [sample]
    {
      if |samples| < maxSamples {
        samples := samples + [sample];
      } else {
        WriteHolds(samples, currentIndex, maxSamples, recorded, sample);
        samples := samples[currentIndex := sample];
      }
      currentIndex := Next(currentIndex, maxSamples);
      recorded := recorded + [sample];
    }

    /** The i-th newest slot, whether or not the window has wrapped, holds the i-th newest sample. */
    lemma SampleAt(i: nat)
      requires Valid() && i < |samples|
      ensures |Stored()| == |samples| && currentIndex <= |samples|
      ensures samples[Slot(currentIndex, i, |samples|)] == Stored()[|samples| - 1 - i]
    {
    }

    lemma StoredSize()
      requires Valid()
      ensures |Stored()| == |samples|
    {
    }

    method GetInstantRate() returns (rateIn: real, rateOut: real)
      requires Valid()
      ensures (rateIn, rateOut) == Instant(Stored())
    {
      if |samples| < 2 {
        return 0.0, 0.0;
      }
      SampleAt(0);
      SampleAt(1);
      var curr, prev := samples[Slot(currentIndex, 0, |samples|)], samples[Slot(currentIndex, 1, |samples|)];
      rateIn, rateOut := Between(prev, curr);
    }

    method GetAverageRate(windowSeconds: int) returns (rateIn: real, rateOut: real)
      requires Valid()
      ensures (rateIn, rateOut) == Average(Stored(), windowSeconds)
    {
      StoredSize();
      if |samples| < 2 || windowSeconds <= 0 {
        return 0.0, 0.0;
      }
      hide Rates, Valid, Stored, Holds, Average;
      var needed := Min(windowSeconds + 1, |samples|);
      SampleAt(0);
      AverageSpans(Stored(), windowSeconds);
      SampleAt(needed - 1);
      var newest := samples[Slot(currentIndex, 0, |samples|)];
      var oldest := samples[Slot(currentIndex, needed - 1, |samples|)];
      rateIn, rateOut := Between(oldest, newest);
    }

    method GetHistory(count: int) returns (r: seq<Sample>)
      requires Valid()
      ensures r == if count <= 0 then [] else Tail(Stored(), Min(count, |Stored()|))
    {
      hide Valid, Stored, Holds, Slot;
      r := [];
      StoredSize();
      ghost var stored := Stored();
      if count <= 0 || |samples| == 0 {
        return;
      }
      var size := Min(count, |samples|);
      for i := 0 to size
        invariant r == stored[|samples| - size..|samples| - size + i]
      {
        SampleAt(size - 1 - i);
        var sample := samples[Slot(currentIndex, size - 1 - i, |samples|)];
        assert sample == stored[|samples| - size + i];
        r := r + [sample];
      }
    }
  }

  /** The arithmetic both readers repeat. */
  method Between(prev: Sample, curr: Sample) returns (rateIn: real, rateOut: real)
    ensures (rateIn, rateOut) == Rates(prev, curr)
  {
    var duration := curr.timestamp - prev.timestamp;
    if duration <= 0.0 {
      return 0.0, 0.0;
    }
    if curr.bytesIn < prev.bytesIn || curr.bytesOut < prev.bytesOut {
      return 0.0, 0.0;
    }
    rateIn := (curr.bytesIn - prev.bytesIn) as real / duration;
    rateOut := (curr.bytesOut - prev.bytesOut) as real / duration;
  }

  /** The rates are the two counters' own differences over the elapsed time, each in its place. */
  lemma RatesAre(prev: Sample, curr: Sample)
    ensures var elapsed := curr.timestamp - prev.timestamp;
            if elapsed > 0.0 && curr.bytesIn >= prev.bytesIn && curr.bytesOut >= prev.bytesOut then
              && Rates(prev, curr).0 * elapsed == (curr.bytesIn - prev.bytesIn) as real
              && Rates(prev, curr).1 * elapsed == (curr.bytesOut - prev.bytesOut) as real
            else Rates(prev, curr) == (0.0, 0.0)
  {
  }

  lemma AverageSpans(stored: seq<Sample>, window: int)
    requires |stored| >= 2 && window > 0
    ensures Average(stored, window) == Rates(stored[|stored| - Min(window + 1, |stored|)], stored[|stored| - 1])
  {
  }

  lemma AverageOverOneIsInstant(stored: seq<Sample>)
    ensures Average(stored, 1) == Instant(stored)
  {
    if |stored| >= 2 {
      assert Window(stored, 1) == stored[|stored| - 2..];
    }
  }

  // ---------- The average lies among the rates it averages ----------

  ghost predicate Increasing(s: seq<Sample>) {
    forall i, j :: 0 <= i < j < |s| ==>
      s[i].timestamp < s[j].timestamp && s[i].bytesIn <= s[j].bytesIn && s[i].bytesOut <= s[j].bytesOut
  }

  ghost predicate Rising(s: seq<Point>) {
    forall i, j :: 0 <= i < j < |s| ==> s[i].time < s[j].time
  }

  lemma SameSign(x: real, d: real)
    requires d > 0.0
    ensures x >= 0.0 <==> x * d >= 0.0
  {
  }

  /** A weighted mean lies between what it weighs. */
  lemma WeightedMean(a: real, b: real, c: real, d: real, e: real)
    requires d > 0.0 && e > 0.0 && c * (d + e) == a * d + b * e
    ensures a <= b ==> a <= c <= b
    ensures b <= a ==> b <= c <= a
  {
    assert (c - a) * (d + e) == (b - a) * e;
    assert (b - c) * (d + e) == (b - a) * d;
    assert (a - c) * (d + e) == (a - b) * e;
    assert (c - b) * (d + e) == (a - b) * d;
    SameSign(b - a, d);
    SameSign(b - a, e);
    SameSign(a - b, d);
    SameSign(a - b, e);
    SameSign(c - a, d + e);
    SameSign(b - c, d + e);
    SameSign(a - c, d + e);
    SameSign(c - b, d + e);
  }

  /** The slope over two spans lies between the slopes over each. */
  lemma SlopeBetween(p: Point, q: Point, r: Point)
    requires p.time < q.time < r.time
    ensures Slope(p, q) <= Slope(q, r) ==> Slope(p, q) <= Slope(p, r) <= Slope(q, r)
    ensures Slope(q, r) <= Slope(p, q) ==> Slope(q, r) <= Slope(p, r) <= Slope(p, q)
  {
    var d, e := q.time - p.time, r.time - q.time;
    var a, b, c := Slope(p, q), Slope(q, r), Slope(p, r);
    assert a * d == (q.bytes - p.bytes) as real && b * e == (r.bytes - q.bytes) as real;
    assert c * (d + e) == (r.bytes - p.bytes) as real by {
      assert d + e == r.time - p.time;
    }
    WeightedMean(a, b, c, d, e);
  }

  ghost predicate Brackets(s: seq<Point>, i: nat, j: nat, slope: real)
    requires Rising(s)
  {
    i + 1 < |s| && j + 1 < |s| && Slope(s[i], s[i + 1]) <= slope <= Slope(s[j], s[j + 1])
  }

  lemma {:induction false} SlopeBracketed(s: seq<Point>) returns (i: nat, j: nat)
    requires |s| >= 2 && Rising(s)
    ensures Brackets(s, i, j, Slope(s[0], s[|s| - 1]))
  {
    var n := |s|;
    i, j := n - 2, n - 2;
    if n > 2 {
      var i', j' := SlopeBracketed(s[..n - 1]);
      SlopeBetween(s[0], s[n - 2], s[n - 1]);
      if Slope(s[0], s[n - 2]) <= Slope(s[n - 2], s[n - 1]) {
        i := i';
      } else {
        j := j';
      }
    }
  }

  function InsOf(s: seq<Sample>): seq<Point> {
    seq(|s|, i requires 0 <= i < |s| => In(s[i]))
  }

  function OutsOf(s: seq<Sample>): seq<Point> {
    seq(|s|, i requires 0 <= i < |s| => Out(s[i]))
  }

  lemma RatesAreSlopes(s: seq<Sample>, i: nat, j: nat)
    requires Increasing(s) && i < j < |s|
    ensures Rising(InsOf(s)) && Rising(OutsOf(s))
    ensures Rates(s[i], s[j]) == (Slope(InsOf(s)[i], InsOf(s)[j]), Slope(OutsOf(s)[i], OutsOf(s)[j]))
  {
    hide Slope;
  }

  /** Between the ends of such a span, both rates lie between two of the consecutive ones. */
  lemma SpanIsBracketed(w: seq<Sample>) returns (i: nat, j: nat, k: nat, l: nat)
    requires |w| >= 2 && Increasing(w)
    ensures i + 1 < |w| && j + 1 < |w| && k + 1 < |w| && l + 1 < |w|
    ensures Rates(w[i], w[i + 1]).0 <= Rates(w[0], w[|w| - 1]).0 <= Rates(w[j], w[j + 1]).0
    ensures Rates(w[k], w[k + 1]).1 <= Rates(w[0], w[|w| - 1]).1 <= Rates(w[l], w[l + 1]).1
  {
    hide Slope, Rates, Increasing, Rising, In, Out;
    RatesAreSlopes(w, 0, |w| - 1);
    i, j := SlopeBracketed(InsOf(w));
    k, l := SlopeBracketed(OutsOf(w));
    RatesAreSlopes(w, i, i + 1);
    RatesAreSlopes(w, j, j + 1);
    RatesAreSlopes(w, k, k + 1);
    RatesAreSlopes(w, l, l + 1);
  }

  /** With a running clock and no reset, the average lies between two of the consecutive rates in its window. */
  lemma AverageIsBracketed(stored: seq<Sample>, window: int) returns (i: nat, j: nat, k: nat, l: nat)
    requires |stored| >= 2 && window > 0 && Increasing(Window(stored, window))
    ensures var w, avg := Window(stored, window), Average(stored, window);
            && i + 1 < |w| && j + 1 < |w| && k + 1 < |w| && l + 1 < |w|
            && Rates(w[i], w[i + 1]).0 <= avg.0 <= Rates(w[j], w[j + 1]).0
            && Rates(w[k], w[k + 1]).1 <= avg.1 <= Rates(w[l], w[l + 1]).1
  {
    hide Rates, Increasing;
    i, j, k, l := SpanIsBracketed(Window(stored, window));
  }

  /** So any bounds on the consecutive rates bound the average. */
  lemma BoundsCarryOver(stored: seq<Sample>, window: int, low: (real, real), high: (real, real))
    requires |stored| >= 2 && window > 0 && Increasing(Window(stored, window))
    requires var w := Window(stored, window);
             forall i :: 0 <= i < |w| - 1 ==>
                 low.0 <= Rates(w[i], w[i + 1]).0 <= high.0 && low.1 <= Rates(w[i], w[i + 1]).1 <= high.1
    ensures low.0 <= Average(stored, window).0 <= high.0 && low.1 <= Average(stored, window).1 <= high.1
  {
    var i, j, k, l := AverageIsBracketed(stored, window);
  }
}
