/**
 * The "current compress ratio" delta engine of the cfs collector: a state
 * that is either absent or a baseline of the two byte counters, and a step
 * that emits a ratio only when both counters strictly grew since the
 * baseline, then overwrites the baseline with the current counters.
 */
module Engine {
  import opened Wrappers

  /** Sampling interval of the collector in seconds, five minutes. */
  const Interval: int := 5 * 60

  /** The single row of the activity query: bytes written, bytes scanned, files compressed, files scanned. */
  datatype Snapshot = Snapshot(writedBytes: int, scannedBytes: int, compressedFiles: int, scannedFiles: int)

  /** The previous cycle's byte counters. */
  datatype Baseline = Baseline(writedBytes: int, scannedBytes: int)

  /** No baseline before the first cycle, a baseline after it. */
  type EngineState = Option<Baseline>

  /** The baseline a snapshot leaves behind; the file counters play no part. */
  function BaselineOf(info: Snapshot): (b: Baseline)
    ensures b.writedBytes == info.writedBytes && b.scannedBytes == info.scannedBytes
  {
    Baseline(info.writedBytes, info.scannedBytes)
  }

  /** The emission guard: both byte counters strictly increased. */
  predicate Grew(prev: Baseline, info: Snapshot)
  {
    info.writedBytes > prev.writedBytes && info.scannedBytes > prev.scannedBytes
  }

  /**
   * The emitted ratio, written as the collector computes it: previous minus
   * current scanned bytes over previous minus current written bytes times
   * the interval. Under the guard both differences are negative, so the
   * divisor is never zero and the ratio is the scanned-bytes growth per
   * written-bytes growth per second of interval.
   */
  function CurrentRatio(prev: Baseline, info: Snapshot): (r: real)
    requires Grew(prev, info)
    ensures r > 0.0
    ensures r * ((info.writedBytes - prev.writedBytes) * Interval) as real
            == (info.scannedBytes - prev.scannedBytes) as real
  {
    var num := (prev.scannedBytes - info.scannedBytes) as real;
    var den := ((prev.writedBytes - info.writedBytes) * Interval) as real;
    assert num < 0.0 && den < 0.0;
    num / den
  }

  /** What one cycle of the engine produces: the optional ratio and the next state. */
  datatype StepResult = StepResult(emitted: Option<real>, state: EngineState)

  /** One cycle of the engine. */
  function Step(s: EngineState, info: Snapshot): (r: StepResult)
    ensures r.state == Some(BaselineOf(info))
    ensures r.emitted.Some? <==> s.Some? && Grew(s.value, info)
    ensures r.emitted.Some? ==> r.emitted.value > 0.0
    ensures r.emitted.Some? ==>
      r.emitted.value * ((info.writedBytes - s.value.writedBytes) * Interval) as real
        == (info.scannedBytes - s.value.scannedBytes) as real
  {
    var emitted :=
      if s.Some? && Grew(s.value, info) then Some(CurrentRatio(s.value, info)) else None;
    StepResult(emitted, Some(BaselineOf(info)))
  }

  /** The file counters never influence the engine. */
  lemma StepIgnoresFileCounters(s: EngineState, a: Snapshot, b: Snapshot)
    requires a.writedBytes == b.writedBytes && a.scannedBytes == b.scannedBytes
    ensures Step(s, a) == Step(s, b)
  {
  }

  /** What a run of cycles produces: one optional ratio per cycle and the final state. */
  datatype Trace = Trace(emitted: seq<Option<real>>, state: EngineState)

  /** The engine over successive cycles, threading the state from one to the next. */
  function Run(s: EngineState, infos: seq<Snapshot>): (t: Trace)
    ensures |t.emitted| == |infos|
    decreases |infos|
  {
    if infos == [] then Trace([], s)
    else
      var first := Step(s, infos[0]);
      var rest := Run(first.state, infos[1..]);
      Trace([first.emitted] + rest.emitted, rest.state)
  }

  /** The state cycle i compares against: the initial state for the first cycle, otherwise the previous snapshot. */
  function PrevState(s: EngineState, infos: seq<Snapshot>, i: nat): EngineState
    requires i < |infos|
  {
    if i == 0 then s else Some(BaselineOf(infos[i - 1]))
  }

  /** Zero cycles leave the state as it was. */
  lemma RunNothing(s: EngineState)
    ensures Run(s, []) == Trace([], s)
  {
  }

  /** After at least one cycle the baseline holds the last snapshot's byte counters. */
  lemma {:induction false} RunFinalBaseline(s: EngineState, infos: seq<Snapshot>)
    requires |infos| > 0
    ensures Run(s, infos).state == Some(BaselineOf(infos[|infos| - 1]))
    decreases |infos|
  {
    if |infos| > 1 {
      RunFinalBaseline(Step(s, infos[0]).state, infos[1..]);
      assert infos[1..][|infos[1..]| - 1] == infos[|infos| - 1];
    }
  }

  /** Once a baseline exists, no run of cycles takes it away. */
  lemma {:induction false} RunKeepsBaseline(s: EngineState, infos: seq<Snapshot>)
    requires s.Some?
    ensures Run(s, infos).state.Some?
    decreases |infos|
  {
    if infos != [] {
      RunKeepsBaseline(Step(s, infos[0]).state, infos[1..]);
    }
  }

  /**
   * Cycle by cycle, a run emits at cycle i exactly when the state before
   * cycle i is a baseline and both counters grew past it, and then emits
   * the ratio of the two growths.
   */
  lemma {:induction false} RunPointwise(s: EngineState, infos: seq<Snapshot>)
    ensures forall i :: 0 <= i < |infos| ==>
      Run(s, infos).emitted[i] == Step(PrevState(s, infos, i), infos[i]).emitted
    decreases |infos|
  {
    if infos != [] {
      var first := Step(s, infos[0]);
      RunPointwise(first.state, infos[1..]);
      forall i | 0 <= i < |infos|
        ensures Run(s, infos).emitted[i] == Step(PrevState(s, infos, i), infos[i]).emitted
      {
        if i > 0 {
          assert Run(s, infos).emitted[i] == Run(first.state, infos[1..]).emitted[i - 1];
          assert infos[1..][i - 1] == infos[i];
          if i > 1 {
            assert infos[1..][i - 2] == infos[i - 1];
          }
        }
      }
    }
  }

  /**
   * Starting without a baseline, cycle i emits exactly when i > 0 and both
   * byte counters grew strictly between cycles i-1 and i, and the value is
   * then the ratio computed from those two snapshots.
   */
  lemma ColdRunEmissions(infos: seq<Snapshot>, i: nat)
    requires i < |infos|
    ensures Run(None, infos).emitted[i].Some? <==> i > 0 && Grew(BaselineOf(infos[i - 1]), infos[i])
    ensures Run(None, infos).emitted[i].Some? ==>
      Run(None, infos).emitted[i].value == CurrentRatio(BaselineOf(infos[i - 1]), infos[i])
  {
    RunPointwise(None, infos);
  }

  /** The first cycle never emits and leaves a baseline of its own counters. */
  lemma FirstCycle(info: Snapshot)
    ensures Run(None, [info]) == Trace([None], Some(BaselineOf(info)))
  {
  }

  /**
   * A cycle without growth in either counter (an idle cycle or a counter
   * reset) suppresses the ratio but still moves the baseline, so the next
   * cycle is compared against this cycle's counters and not a stale one.
   */
  lemma ResetRefreshesBaseline(prev: Baseline, reset: Snapshot, next: Snapshot)
    requires !Grew(prev, reset)
    requires Grew(BaselineOf(reset), next)
    ensures Run(Some(prev), [reset, next]).emitted == [None, Some(CurrentRatio(BaselineOf(reset), next))]
    ensures Run(Some(prev), [reset, next]).state == Some(BaselineOf(next))
  {
    assert [reset, next][1..] == [next];
    RunFinalBaseline(Some(prev), [reset, next]);
  }
}
