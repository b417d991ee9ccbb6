/** The statistics block of the ping client: loss percentage, received count,
    and, when at least one reply arrived, minimum, maximum and mean RTT and
    the jitter between consecutive recorded RTTs. RTTs are milliseconds as
    `real`; the source's rounding is not modelled. */
module Statistics {

  function Abs(x: real): (r: real)
    ensures r >= 0.0 && (r == x || r == -x)
  {
    if x < 0.0 then -x else x
  }

  function Sum(s: seq<real>): real
  {
    if s == [] then 0.0 else s[0] + Sum(s[1..])
  }

  /** The smallest recorded RTT. */
  function Min(s: seq<real>): (m: real)
    requires s != []
    ensures m in s
    ensures forall i :: 0 <= i < |s| ==> m <= s[i]
  {
    if |s| == 1 then s[0]
    else
      var rest := Min(s[1..]);
      if s[0] <= rest then s[0] else rest
  }

  /** The largest recorded RTT. */
  function Max(s: seq<real>): (m: real)
    requires s != []
    ensures m in s
    ensures forall i :: 0 <= i < |s| ==> s[i] <= m
  {
    if |s| == 1 then s[0]
    else
      var rest := Max(s[1..]);
      if s[0] >= rest then s[0] else rest
  }

  function Mean(s: seq<real>): real
    requires s != []
  {
    Sum(s) / |s| as real
  }

  /** Sum of |s[k] - s[k-1]| for k in 1 .. j-1: the jitter accumulator after
      the pairs that end before index j. */
  function JitterSumTo(s: seq<real>, j: nat): real
    requires 1 <= j <= |s|
  {
    if j == 1 then 0.0 else JitterSumTo(s, j - 1) + Abs(s[j - 1] - s[j - 2])
  }

  /** Mean absolute difference between consecutive recorded RTTs; 0 when
      only one RTT was recorded. */
  function Jitter(s: seq<real>): real
    requires s != []
  {
    if |s| == 1 then 0.0 else JitterSumTo(s, |s|) / (|s| - 1) as real
  }

  /** `(lost / count) * 100`; the source divides by `count`, so count 0 is
      excluded. */
  function LossPercent(lost: nat, count: int): (p: real)
    requires count != 0
    ensures 0 < count && lost <= count ==> 0.0 <= p <= 100.0
    ensures 0 < count ==> (p == 0.0 <==> lost == 0)
    ensures 0 < count ==> (p == 100.0 <==> lost == count)
  {
    (lost as real / count as real) * 100.0
  }

  /** The RTT part of the report: either the explicit "all packets lost"
      state or the four computed values. */
  datatype RttReport = AllLost | RttStats(minRtt: real, maxRtt: real, avgRtt: real, jitter: real)

  datatype Report = Report(sent: int, received: int, lost: nat, lossPercent: real, rtt: RttReport)

  /** The jitter loop: accumulates |rtts[j] - rtts[j-1]| for j in 1 .. |rtts|-1
      and divides by the number of pairs. */
  method ComputeJitter(rtts: seq<real>) returns (jitter: real)
    requires rtts != []
    ensures jitter == Jitter(rtts)
    ensures 0.0 <= jitter <= Max(rtts) - Min(rtts)
  {
    jitter := 0.0;
    if |rtts| > 1 {
      var jitterSum := 0.0;
      for j := 1 to |rtts|
        invariant jitterSum == JitterSumTo(rtts, j)
      {
        jitterSum := jitterSum + Abs(rtts[j] - rtts[j - 1]);
      }
      jitter := jitterSum / (|rtts| - 1) as real;
    }
    JitterBounds(rtts);
  }

  /** The statistics block. RTT statistics are produced only when at least one
      RTT was recorded; otherwise the report says that every packet was lost. */
  method Summarize(count: int, lost: nat, rtts: seq<real>) returns (report: Report)
    requires count != 0
    ensures report.sent == count && report.lost == lost && report.received == count - lost
    ensures report.lossPercent == LossPercent(lost, count)
    ensures report.rtt.AllLost? <==> rtts == []
    ensures rtts != [] ==> report.rtt == RttStats(Min(rtts), Max(rtts), Mean(rtts), Jitter(rtts))
    ensures report.rtt.RttStats? ==>
              report.rtt.minRtt in rtts && report.rtt.maxRtt in rtts &&
              report.rtt.minRtt <= report.rtt.avgRtt <= report.rtt.maxRtt &&
              0.0 <= report.rtt.jitter <= report.rtt.maxRtt - report.rtt.minRtt
  {
    var lossPercent := LossPercent(lost, count);
    var rtt: RttReport;
    if |rtts| > 0 {
      var minRtt := Min(rtts);
      var maxRtt := Max(rtts);
      var avgRtt := Sum(rtts) / |rtts| as real;
      var jitter := ComputeJitter(rtts);
      MeanBounds(rtts);
      rtt := RttStats(minRtt, maxRtt, avgRtt, jitter);
    } else {
      rtt := AllLost;
    }
    report := Report(count, count - lost, lost, lossPercent, rtt);
  }

  /** A sum of values at least `lo` is at least |s| * lo, and one of values at
      most `hi` is at most |s| * hi. */
  lemma {:induction false} SumBounds(s: seq<real>, lo: real, hi: real)
    requires forall i :: 0 <= i < |s| ==> lo <= s[i] <= hi
    ensures |s| as real * lo <= Sum(s) <= |s| as real * hi
  {
    if s != [] {
      SumBounds(s[1..], lo, hi);
      MulStep(|s| - 1, lo);
      MulStep(|s| - 1, hi);
    }
  }

  lemma MulStep(k: nat, d: real)
    ensures (k + 1) as real * d == k as real * d + d
  {
  }

  lemma DivBetween(x: real, n: real, lo: real, hi: real)
    requires n > 0.0 && n * lo <= x <= n * hi
    ensures lo <= x / n <= hi
  {
    assert x == (x / n) * n;
  }

  /** The mean lies between the minimum and the maximum. */
  lemma MeanBounds(s: seq<real>)
    requires s != []
    ensures Min(s) <= Mean(s) <= Max(s)
  {
    SumBounds(s, Min(s), Max(s));
    DivBetween(Sum(s), |s| as real, Min(s), Max(s));
  }

  /** When every RTT lies in [lo, hi], each accumulated difference is at most
      hi - lo. */
  lemma {:induction false} JitterSumBounds(s: seq<real>, j: nat, lo: real, hi: real)
    requires 1 <= j <= |s|
    requires forall i :: 0 <= i < |s| ==> lo <= s[i] <= hi
    ensures 0.0 <= JitterSumTo(s, j) <= (j - 1) as real * (hi - lo)
  {
    if j > 1 {
      var d := hi - lo;
      JitterSumBounds(s, j - 1, lo, hi);
      var prev, step := JitterSumTo(s, j - 1), Abs(s[j - 1] - s[j - 2]);
      assert lo <= s[j - 1] <= hi && lo <= s[j - 2] <= hi;
      assert 0.0 <= step <= d;
      MulStep(j - 2, d);
      var bound := (j - 1) as real * d;
      assert bound == (j - 2) as real * d + d;
      assert JitterSumTo(s, j) == prev + step;
      assert 0.0 <= prev + step <= bound;
    }
  }

  /** When every RTT lies in [lo, hi], the mean consecutive difference lies
      in [0, hi - lo]. */
  lemma JitterWithin(s: seq<real>, lo: real, hi: real)
    requires |s| > 1
    requires forall i :: 0 <= i < |s| ==> lo <= s[i] <= hi
    ensures 0.0 <= Jitter(s) <= hi - lo
  {
    var pairs, total := (|s| - 1) as real, JitterSumTo(s, |s|);
    JitterSumBounds(s, |s|, lo, hi);
    DivBetween(total, pairs, 0.0, hi - lo);
  }

  /** Jitter is non-negative and never exceeds the RTT range. */
  lemma JitterBounds(s: seq<real>)
    requires s != []
    ensures 0.0 <= Jitter(s) <= Max(s) - Min(s)
  {
    if |s| > 1 {
      JitterWithin(s, Min(s), Max(s));
    }
  }

  /** With a single recorded RTT there is no pair, so jitter is 0, and minimum,
      maximum and mean all equal that RTT. */
  lemma SingleRtt(r: real)
    ensures Min([r]) == Max([r]) == Mean([r]) == r && Jitter([r]) == 0.0
  {
    assert [r][1..] == [];
    assert Sum([r]) == r;
  }

  /** RTTs 10, 20, 15: minimum 10, maximum 20, mean 15, jitter (10 + 5) / 2. */
  lemma ExampleStatistics()
    ensures Min([10.0, 20.0, 15.0]) == 10.0 && Max([10.0, 20.0, 15.0]) == 20.0
    ensures Mean([10.0, 20.0, 15.0]) == 15.0
    ensures Jitter([10.0, 20.0, 15.0]) == 7.5
  {
    var s := [10.0, 20.0, 15.0];
    assert s[1..] == [20.0, 15.0] && s[1..][1..] == [15.0] && s[1..][1..][1..] == [];
    assert JitterSumTo(s, 2) == 10.0;
    assert JitterSumTo(s, 3) == 15.0;
  }

  /** Five probes with two lost: 40% loss. */
  lemma ExampleLossPercent()
    ensures LossPercent(2, 5) == 40.0
  {
  }
}
