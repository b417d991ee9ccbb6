# UDP ping client: probe loop and statistics

A Dafny model of `run_ping` in the Simple UDP ping tool
(`udp_ping_client.py`). A run sends `count` probes with consecutive sequence
numbers `base + i`. Each probe is either answered, and its round-trip time
(RTT) is appended to `rtts`, or lost: a timeout or any other `Exception`
increments `lost`, and the run goes on with the next probe. After the loop
the client reports:

- the number sent, received (`count - lost`) and lost;
- the loss percentage `lost / count * 100`;
- when at least one RTT was recorded, the minimum, maximum and mean RTT and
  the jitter (the mean absolute difference between consecutive recorded RTTs);
- otherwise an explicit "all packets lost" state.

The socket is replaced by an oracle. The outcome of probe `i` is the input
`outcomes[i]`, one of `Answered(rtt)`, `TimedOut` or `TransportError`. The
random base is a parameter constrained to the range `randint(40000, 50000)`
draws from.

Modules:

- `Probes` (`probes.dfy`): the probe loop `RunProbes`. It is specified by the
  functions `SequenceNumbers`, `AnsweredRtts` and `LostCount` over the outcome
  sequence, with lemmas on accounting, order and loss.
- `Statistics` (`statistics.dfy`): `Min`, `Max`, `Mean`, `Jitter` and
  `LossPercent`. The imperative jitter accumulator is `ComputeJitter` and the
  statistics block is `Summarize`, with lemmas bounding the mean and the
  jitter.
- `PingClient` (`ping_client.dfy`): `RunPing`, the loop followed by the
  statistics, with the end-to-end guarantees.

Points where the code's behaviour is easy to misread, and which the model
follows exactly:

- `randint(40000, 50000)` includes both ends, so the base sequence number can
  be 50000 (`udp_ping_client.py:24`).
- Any datagram that arrives before the timeout is taken as the reply
  (`udp_ping_client.py:38`). A late echo of an earlier probe is therefore
  counted for the current one. The outcome oracle gives each probe's outcome
  as is and does not model which probe a reply belongs to.
- `count` is never checked. With a negative `count`, `range(count)` is empty
  and the report shows `Received = count`, zero loss (printed as -0.0%) and
  "all packets lost". The model reproduces this. A `count` of 0 raises an
  uncaught `ZeroDivisionError` at line 61, so the statistics require
  `count != 0`.

## Model

| member | source | states |
|---|---|---|
| `Probes.RunProbes` | udp_ping_client.py:24-54 | builds exactly one probe per iteration, with sequence numbers `base + i` for every `i` in `range(count)`, whatever the outcomes (a failed send still uses its number); `rtts` is the answered probes' RTTs in order and `lost` counts timeouts and other `Exception`s; `|rtts| + lost` equals the number of probes |
| `Probes.EveryProbeAccounted` | udp_ping_client.py:29-54 | each probe is counted exactly once: recorded RTTs plus lost probes equal the number of probes |
| `Probes.AnsweredRttsAppend` | udp_ping_client.py:43-54 | recorded RTTs and the loss count of a run split over consecutive stretches of probes: the loop's bookkeeping is per probe |
| `Probes.AnsweredRttAt` | udp_ping_client.py:43 | an answered probe's RTT sits in `rtts` at the index equal to the number of answered probes before it, so `rtts` keeps probe order |
| `Probes.AnsweredRttsMembers` | udp_ping_client.py:43 | a value is in `rtts` exactly when some probe was answered with that RTT |
| `Probes.NoLossIffAllAnswered` | udp_ping_client.py:49-54 | `lost` is 0 exactly when every probe was answered; timeouts and other failures both count as lost |
| `Probes.NoRttIffAllLost` | udp_ping_client.py:49-54 | `rtts` is empty exactly when `lost` equals the number of probes, i.e. when no probe was answered |
| `Probes.SequenceNumbersIncreasing` | udp_ping_client.py:24-30 | for any number of probes: the first sequence number lies within [40000, 50000], the numbers are consecutive and strictly increasing, and all lie within [40000, 50000 + n - 1] |
| `Statistics.Min` | udp_ping_client.py:68 | the minimum is one of the recorded RTTs and no recorded RTT is smaller |
| `Statistics.Max` | udp_ping_client.py:69 | the maximum is one of the recorded RTTs and no recorded RTT is larger |
| `Statistics.MeanBounds` | udp_ping_client.py:68-70 | the mean `sum(rtts) / len(rtts)` lies between the minimum and the maximum |
| `Statistics.SumBounds` | udp_ping_client.py:70 | a sum of values within [lo, hi] lies within [n * lo, n * hi] |
| `Statistics.LossPercent` | udp_ping_client.py:61 | for a positive count and `lost <= count`, the loss percentage lies in [0, 100]; it is 0 exactly when nothing is lost and 100 exactly when everything is lost |
| `Statistics.ComputeJitter` | udp_ping_client.py:74-79 | the accumulator loop yields the mean absolute difference of consecutive RTTs (0 for one RTT), and the result lies in [0, max - min] |
| `Statistics.JitterSumBounds` | udp_ping_client.py:76-78 | after the pairs ending before index `j`, `jitter_sum` is non-negative and at most `(j - 1) * (hi - lo)` |
| `Statistics.JitterWithin` | udp_ping_client.py:75-79 | with two or more RTTs within [lo, hi], the jitter lies in [0, hi - lo] |
| `Statistics.JitterBounds` | udp_ping_client.py:74-79 | jitter is non-negative and at most `max_rtt - min_rtt` |
| `Statistics.Summarize` | udp_ping_client.py:61-86 | reports sent `count`, received `count - lost` and the loss percentage; yields RTT statistics exactly when `rtts` is non-empty, else the all-lost state; when present, min and max are elements of `rtts`, `min <= avg <= max` and `0 <= jitter <= max - min` |
| `Statistics.SingleRtt` | udp_ping_client.py:74-75 | with one RTT, jitter is 0 and min, max and mean equal that RTT |
| `Statistics.ExampleStatistics` | udp_ping_client.py:67-79 | RTTs 10, 20, 15 give min 10, max 20, mean 15 and jitter 7.5 |
| `Statistics.ExampleLossPercent` | udp_ping_client.py:61 | 2 lost out of 5 gives 40% loss |
| `PingClient.RunPing` | udp_ping_client.py:24-86 | the loss percentage is `lost / count * 100` with `lost` the number of probes not answered (2 of 5 gives 40%); for a positive count, received equals the number of recorded RTTs and received plus lost equals count; loss is in [0, 100] and 0 exactly when every probe was answered; RTT statistics are absent exactly when no probe was answered (100% loss); otherwise they are computed over the answered RTTs in probe order; a negative count sends nothing and reports `received == count` |
| `PingClient.JitterSkipsLostProbes` | udp_ping_client.py:74-79 | jitter pairs consecutive answered probes and skips lost ones: outcomes 10, timeout, 20, failure, 15 give jitter 7.5 |

## Left out

- Host resolution with `gethostbyname` and its early return on `gaierror` (lines 12-17): a call into the resolver.
- Socket creation, `settimeout`, `sendto`, `recvfrom` and `close` (lines 21-22, 35, 38, 90): foreign I/O, replaced by the outcome sequence. Probe payload text (line 32) is not modelled; only its sequence number is, in `seqNums`.
- `time.time()`, `time.sleep(0.1)` and `total_time_ms` (lines 27, 31, 39, 47, 56, 62): wall clock and pacing. RTTs are inputs, and the total elapsed time is not reported by the model.
- `random.randint` (line 24): `base` is a parameter whose range is a precondition.
- `KeyboardInterrupt` and `SystemExit` (not caught by `except Exception` at line 52): an interrupt during a probe ends the run without statistics; the model has no such outcome.
- All printing and the argument parsing in `main` (lines 93-111): presentation and command-line plumbing.
- `udp_echo_server.py` is not part of this model: it is a socket echo loop with no state to verify.
- `Statistics.Summarize`: states the exact values of min, max, mean, jitter and loss percentage, whereas the source rounds them with `round(..., 2)` and `round(..., 1)` (lines 62-70, 79). Likewise `Probes.RunProbes` takes each RTT already rounded at line 42. Floating point is replaced by `real`.
- `Probes.RunProbes`: assumes the `print` at line 44 and the `sleep` at line 47 do not raise. If an `Exception` were raised there, after the append at line 43, the same probe would also be counted lost.
- `PingClient.RunPing`: requires `count != 0`, because the source crashes with `ZeroDivisionError` at line 61 for that input. The model does not represent the crash.
