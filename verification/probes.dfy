/** The probe loop of the ping client: one datagram per probe, each probe
    ending either Answered (its round-trip time is recorded) or lost.

    The socket is replaced by an oracle: the outcome of probe `i` is
    `outcomes[i]`, given as input. */
module Probes {

  /** Inclusive bounds of the random base sequence number. */
  const BaseLow: int := 40000
  const BaseHigh: int := 50000

  /** What the socket did for one probe: a reply arrived (with its RTT in
      milliseconds), the receive timed out, or some other exception was
      raised while sending or receiving. */
  datatype ProbeOutcome = Answered(rtt: real) | TimedOut | TransportError

  /** Number of iterations of `range(count)`: none when count is negative. */
  function ProbeCount(count: int): (n: nat)
    ensures count >= 0 ==> n == count
    ensures count <= 0 ==> n == 0
  {
    if count < 0 then 0 else count
  }

  /** The sequence numbers `base + i` for `i` in `0 .. n-1`. */
  function SequenceNumbers(base: int, n: nat): (s: seq<int>)
    ensures |s| == n
    ensures forall i :: 0 <= i < n ==> s[i] == base + i
  {
    seq(n, i => base + i)
  }

  /** The RTTs of the answered probes, in probe order. */
  function AnsweredRtts(outcomes: seq<ProbeOutcome>): (r: seq<real>)
    ensures |r| <= |outcomes|
  {
    if outcomes == [] then []
    else
      var prefix := AnsweredRtts(outcomes[..|outcomes| - 1]);
      match outcomes[|outcomes| - 1]
      case Answered(rtt) => prefix + [rtt]
      case _ => prefix
  }

  /** The number of probes that timed out or failed. */
  function LostCount(outcomes: seq<ProbeOutcome>): (n: nat)
    ensures n <= |outcomes|
  {
    if outcomes == [] then 0
    else LostCount(outcomes[..|outcomes| - 1]) + (if outcomes[|outcomes| - 1].Answered? then 0 else 1)
  }

  /** The probe loop. Builds one probe per iteration (its sequence number is
      appended to `seqNums`, whether or not its send succeeds), then appends the RTT to `rtts` when the probe is
      answered, or increments `lost` when it timed out or failed; either way
      the loop continues with the next sequence number. */
  method RunProbes(base: int, count: int, outcomes: seq<ProbeOutcome>)
    returns (seqNums: seq<int>, rtts: seq<real>, lost: nat)
    requires BaseLow <= base <= BaseHigh
    requires |outcomes| == ProbeCount(count)
    ensures seqNums == SequenceNumbers(base, ProbeCount(count))
    ensures rtts == AnsweredRtts(outcomes)
    ensures lost == LostCount(outcomes)
    ensures |rtts| + lost == ProbeCount(count)
  {
    var n := ProbeCount(count);
    seqNums, rtts, lost := [], [], 0;
    for i := 0 to n
      invariant seqNums == SequenceNumbers(base, i)
      invariant rtts == AnsweredRtts(outcomes[..i])
      invariant lost == LostCount(outcomes[..i])
      invariant |rtts| + lost == i
    {
      var seqNum := base + i;
      seqNums := seqNums + [seqNum];
      assert outcomes[..i + 1][..i] == outcomes[..i];
      match outcomes[i]
      case Answered(rtt) =>
        rtts := rtts + [rtt];
      case TimedOut =>
        lost := lost + 1;
      case TransportError =>
        lost := lost + 1;
    }
    assert outcomes[..n] == outcomes;
  }

  /** Every probe is accounted for exactly once: answered or lost. */
  lemma {:induction false} EveryProbeAccounted(outcomes: seq<ProbeOutcome>)
    ensures |AnsweredRtts(outcomes)| + LostCount(outcomes) == |outcomes|
  {
    if outcomes != [] {
      EveryProbeAccounted(outcomes[..|outcomes| - 1]);
    }
  }

  /** Splitting the probes splits both the recorded RTTs and the loss count. */
  lemma {:induction false} AnsweredRttsAppend(a: seq<ProbeOutcome>, b: seq<ProbeOutcome>)
    ensures AnsweredRtts(a + b) == AnsweredRtts(a) + AnsweredRtts(b)
    ensures LostCount(a + b) == LostCount(a) + LostCount(b)
    decreases |b|
  {
    if b != [] {
      var b' := b[..|b| - 1];
      assert (a + b)[..|a + b| - 1] == a + b';
      AnsweredRttsAppend(a, b');
    } else {
      assert a + b == a;
    }
  }

  /** Order: the RTT of the answered probe `i` sits in `rtts` at the position
      given by the number of answered probes before it. */
  lemma AnsweredRttAt(outcomes: seq<ProbeOutcome>, i: nat)
    requires i < |outcomes| && outcomes[i].Answered?
    ensures |AnsweredRtts(outcomes[..i])| < |AnsweredRtts(outcomes)|
    ensures AnsweredRtts(outcomes)[|AnsweredRtts(outcomes[..i])|] == outcomes[i].rtt
  {
    var pre, post := outcomes[..i], outcomes[i + 1..];
    assert outcomes == pre + ([outcomes[i]] + post);
    AnsweredRttsAppend(pre, [outcomes[i]] + post);
    AnsweredRttsAppend([outcomes[i]], post);
    assert AnsweredRtts([outcomes[i]]) == [outcomes[i].rtt] by {
      assert [outcomes[i]][..0] == [];
    }
  }

  /** `rtts` holds exactly the RTTs of answered probes. */
  lemma {:induction false} AnsweredRttsMembers(outcomes: seq<ProbeOutcome>, x: real)
    ensures x in AnsweredRtts(outcomes) <==> Answered(x) in outcomes
  {
    if outcomes != [] {
      var pre := outcomes[..|outcomes| - 1];
      AnsweredRttsMembers(pre, x);
      assert outcomes == pre + [outcomes[|outcomes| - 1]];
    }
  }

  /** Nothing is lost exactly when every probe is answered. */
  lemma {:induction false} NoLossIffAllAnswered(outcomes: seq<ProbeOutcome>)
    ensures LostCount(outcomes) == 0 <==> forall i :: 0 <= i < |outcomes| ==> outcomes[i].Answered?
  {
    if outcomes != [] {
      var pre := outcomes[..|outcomes| - 1];
      NoLossIffAllAnswered(pre);
      assert forall i :: 0 <= i < |pre| ==> pre[i] == outcomes[i];
    }
  }

  /** No RTT is recorded exactly when every probe is lost. */
  lemma {:induction false} NoRttIffAllLost(outcomes: seq<ProbeOutcome>)
    ensures AnsweredRtts(outcomes) == [] <==> LostCount(outcomes) == |outcomes|
    ensures AnsweredRtts(outcomes) == [] <==> forall i :: 0 <= i < |outcomes| ==> !outcomes[i].Answered?
  {
    EveryProbeAccounted(outcomes);
    if outcomes != [] {
      var pre := outcomes[..|outcomes| - 1];
      NoRttIffAllLost(pre);
      assert forall i :: 0 <= i < |pre| ==> pre[i] == outcomes[i];
    }
  }

  /** Sequence numbers are consecutive and strictly increasing, the first
      lies within [BaseLow, BaseHigh], and all lie within
      [BaseLow, BaseHigh + n - 1]. */
  lemma SequenceNumbersIncreasing(base: int, n: nat)
    requires BaseLow <= base <= BaseHigh
    ensures n > 0 ==> BaseLow <= SequenceNumbers(base, n)[0] <= BaseHigh
    ensures forall i, j :: 0 <= i < j < n ==> SequenceNumbers(base, n)[i] < SequenceNumbers(base, n)[j]
    ensures forall i :: 0 <= i < n - 1 ==> SequenceNumbers(base, n)[i + 1] == SequenceNumbers(base, n)[i] + 1
    ensures forall i :: 0 <= i < n ==> BaseLow <= SequenceNumbers(base, n)[i] <= BaseHigh + n - 1
  {
  }
}
