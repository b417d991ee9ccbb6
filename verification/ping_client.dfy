/** `run_ping` without its I/O: the probe loop followed by the statistics
    block. Host resolution, the socket, the clock and the random base are
    replaced by parameters (`base`, `outcomes`). */
module PingClient {
  import opened Probes
  import opened Statistics

  /** One run: `count` probes, then the report. `seqNums` lists the sequence
      numbers built, one per iteration; a probe whose send failed still has
      its number there. */
  method RunPing(base: int, count: int, outcomes: seq<ProbeOutcome>)
    returns (seqNums: seq<int>, report: Report)
    requires BaseLow <= base <= BaseHigh
    requires count != 0
    requires |outcomes| == ProbeCount(count)
    ensures seqNums == SequenceNumbers(base, ProbeCount(count))
    ensures report.sent == count && report.lost == LostCount(outcomes)
    ensures report.lossPercent == LossPercent(report.lost, count)
    ensures count > 0 ==> report.received == |AnsweredRtts(outcomes)| && report.received + report.lost == count
    ensures count > 0 ==> 0.0 <= report.lossPercent <= 100.0
    ensures count > 0 ==> (report.lossPercent == 0.0 <==> forall i :: 0 <= i < |outcomes| ==> outcomes[i].Answered?)
    ensures count < 0 ==> seqNums == [] && report.received == count && report.lost == 0 && report.lossPercent == 0.0
    ensures report.rtt.AllLost? <==> forall i :: 0 <= i < |outcomes| ==> !outcomes[i].Answered?
    ensures report.rtt.AllLost? <==> report.lossPercent == 100.0 || count < 0
    ensures report.rtt.RttStats? ==>
              var rtts := AnsweredRtts(outcomes);
              rtts != [] && report.rtt == RttStats(Min(rtts), Max(rtts), Mean(rtts), Jitter(rtts))
  {
    var rtts, lost;
    seqNums, rtts, lost := RunProbes(base, count, outcomes);
    report := Summarize(count, lost, rtts);
    NoLossIffAllAnswered(outcomes);
    NoRttIffAllLost(outcomes);
  }

  /** Jitter pairs consecutive answered probes: a lost probe between two
      replies is skipped, not treated as a gap. */
  lemma JitterSkipsLostProbes()
    ensures AnsweredRtts([Answered(10.0), TimedOut, Answered(20.0), TransportError, Answered(15.0)])
              == [10.0, 20.0, 15.0]
    ensures Jitter(AnsweredRtts([Answered(10.0), TimedOut, Answered(20.0), TransportError, Answered(15.0)])) == 7.5
  {
    var outcomes := [Answered(10.0), TimedOut, Answered(20.0), TransportError, Answered(15.0)];
    assert outcomes[..4] == [Answered(10.0), TimedOut, Answered(20.0), TransportError];
    assert outcomes[..4][..3] == [Answered(10.0), TimedOut, Answered(20.0)];
    assert outcomes[..4][..3][..2] == [Answered(10.0), TimedOut];
    assert outcomes[..4][..3][..2][..1] == [Answered(10.0)];
    assert outcomes[..4][..3][..2][..1][..0] == [];
    assert AnsweredRtts(outcomes[..4][..3][..2][..1]) == [10.0];
    assert AnsweredRtts(outcomes[..4][..3][..2]) == [10.0];
    assert AnsweredRtts(outcomes[..4][..3]) == [10.0, 20.0];
    assert AnsweredRtts(outcomes[..4]) == [10.0, 20.0];
    ExampleStatistics();
  }
}
