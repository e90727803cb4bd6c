/**
 * One collection cycle of the cfs collector as the list of metric sends it
 * makes, in order, together with the engine state it leaves behind. A zero
 * summed compressed size raises at the total-ratio division and ends the
 * cycle there: the activity counters are neither sent nor recorded.
 */
module Cycle {
  import opened Wrappers
  import opened Aggregation
  import opened Engine

  /** What a send carries: a plain number, a counter the monitoring agent turns into a per-second speed, or the discovery list. */
  datatype Value = Number(x: real) | Speed(counter: int) | DiscoveryPayload(relations: seq<string>)

  /** One call of the monitoring agent's send. */
  datatype Send = Send(key: string, value: Value)

  /** How the cycle ended. */
  datatype Outcome = Completed | Raised(error: Error)

  /** Everything a cycle produces. */
  datatype CycleResult = CycleResult(sends: seq<Send>, state: EngineState, outcome: Outcome)

  /** The inputs of one cycle: the compression rows per database and the activity row. */
  datatype CycleInput = CycleInput(dbs: seq<Database>, info: Snapshot)

  const DiscoveryKey: string := "pgsql.cfs.discovery_compressed_relations[]"

  /** Key of the per-relation ratio item; it carries the relation name without the database prefix. */
  function RelationKey(name: string): string
  {
    "pgsql.cfs.relation[" + name + "]"
  }

  /** Key of one of the cluster-wide activity items. */
  function ActivityKey(metric: string): string
  {
    "pgsql.cfs.activity[" + metric + "]"
  }

  /** The per-relation ratio sends made while aggregating, one per row, in iteration order. */
  function RelationSends(es: seq<Entry>): (r: seq<Send>)
    ensures |r| == |es|
    ensures forall k :: 0 <= k < |es| ==> r[k] == Send(RelationKey(es[k].row.name), Number(es[k].row.ratio))
  {
    seq(|es|, k requires 0 <= k < |es| => Send(RelationKey(es[k].row.name), Number(es[k].row.ratio)))
  }

  /** The sends of the activity half of the cycle, the current ratio only when the engine emitted one. */
  function ActivitySends(info: Snapshot, emitted: Option<real>): seq<Send>
  {
    [Send(ActivityKey("writed_bytes"), Speed(info.writedBytes)),
     Send(ActivityKey("scanned_bytes"), Speed(info.scannedBytes))]
    + (if emitted.Some? then [Send(ActivityKey("current_compress_ratio"), Number(emitted.value))] else [])
    + [Send(ActivityKey("compressed_files"), Speed(info.compressedFiles)),
       Send(ActivityKey("scanned_files"), Speed(info.scannedFiles))]
  }

  /** One cycle of the collector. */
  function RunCycle(s: EngineState, input: CycleInput): (r: CycleResult)
    ensures r.outcome.Raised? <==> CompressedSize(Entries(input.dbs)) == 0
    ensures r.outcome.Raised? ==> r.state == s && |r.sends| == |Entries(input.dbs)| + 1
    ensures r.outcome.Completed? ==> r.state == Some(BaselineOf(input.info))
    ensures r.state == NextState(s, input)
  {
    var es := Entries(input.dbs);
    var head := RelationSends(es) + [Send(DiscoveryKey, DiscoveryPayload(RelationNames(es)))];
    match TotalRatio(CompressedSize(es), NonCompressedSize(es))
    case Failure(e) => CycleResult(head, s, Raised(e))
    case Success(total) =>
      var step := Step(s, input.info);
      CycleResult(
        head + [Send(ActivityKey("total_compress_ratio"), Number(total))] + ActivitySends(input.info, step.emitted),
        step.state, Completed)
  }

  /**
   * Whatever the outcome, a cycle first sends one ratio per row keyed by the
   * bare relation name, then the discovery list naming each row as
   * database-dot-relation.
   */
  lemma CycleStartsWithRelations(s: EngineState, input: CycleInput)
    ensures var es := Entries(input.dbs);
      var r := RunCycle(s, input);
      && |r.sends| > |es|
      && (forall k :: 0 <= k < |es| ==>
            r.sends[k] == Send(RelationKey(es[k].row.name), Number(es[k].row.ratio)))
      && r.sends[|es|].key == DiscoveryKey
      && r.sends[|es|].value.DiscoveryPayload?
      && |r.sends[|es|].value.relations| == |es|
      && (forall k :: 0 <= k < |es| ==>
            r.sends[|es|].value.relations[k] == QualifiedName(es[k].db, es[k].row.name))
  {
    RelationNamesPointwise(Entries(input.dbs));
  }

  /**
   * A cycle whose rows sum to a non-zero compressed size sends the total
   * ratio (uncompressed over compressed size), then the four counters
   * unchanged for the speed transform, with the current ratio between the
   * byte and the file counters exactly when the engine emits one.
   */
  lemma CycleCompletes(s: EngineState, input: CycleInput)
    requires CompressedSize(Entries(input.dbs)) != 0
    ensures var es := Entries(input.dbs);
      var r := RunCycle(s, input);
      var step := Step(s, input.info);
      && r.outcome == Completed
      && r.sends[..|es| + 1] == RelationSends(es) + [Send(DiscoveryKey, DiscoveryPayload(RelationNames(es)))]
      && r.sends[|es| + 1].key == ActivityKey("total_compress_ratio")
      && r.sends[|es| + 1].value.Number?
      && r.sends[|es| + 1].value.x * CompressedSize(es) as real == NonCompressedSize(es)
      && r.sends[|es| + 2..] == ActivitySends(input.info, step.emitted)
      && |r.sends| == |es| + (if step.emitted.Some? then 7 else 6)
  {
    var es := Entries(input.dbs);
    var r := RunCycle(s, input);
    var head := RelationSends(es) + [Send(DiscoveryKey, DiscoveryPayload(RelationNames(es)))];
    var total := NonCompressedSize(es) / CompressedSize(es) as real;
    var tail := ActivitySends(input.info, Step(s, input.info).emitted);
    assert r.sends == head + [Send(ActivityKey("total_compress_ratio"), Number(total))] + tail;
    assert r.sends[..|es| + 1] == head;
    assert r.sends[|es| + 2..] == tail;
  }

  /**
   * The four activity counters reach the monitoring agent unchanged, in source
   * order, and the current ratio sent between them is the engine's emitted value.
   */
  lemma ActivityCountersForwarded(info: Snapshot, emitted: Option<real>)
    ensures var a := ActivitySends(info, emitted);
      var n := |a|;
      && n == (if emitted.Some? then 5 else 4)
      && a[0] == Send(ActivityKey("writed_bytes"), Speed(info.writedBytes))
      && a[1] == Send(ActivityKey("scanned_bytes"), Speed(info.scannedBytes))
      && a[n - 2] == Send(ActivityKey("compressed_files"), Speed(info.compressedFiles))
      && a[n - 1] == Send(ActivityKey("scanned_files"), Speed(info.scannedFiles))
      && (emitted.Some? <==> a[2].key == ActivityKey("current_compress_ratio"))
      && (emitted.Some? ==> a[2] == Send(ActivityKey("current_compress_ratio"), Number(emitted.value)))
  {
  }

  /** Whether a cycle gets past the total-ratio division. */
  predicate Completes(input: CycleInput)
  {
    CompressedSize(Entries(input.dbs)) != 0
  }

  /** The engine state a cycle leaves behind: a raising cycle never reaches the engine. */
  function NextState(s: EngineState, input: CycleInput): (r: EngineState)
    ensures Completes(input) ==> r == Some(BaselineOf(input.info))
    ensures !Completes(input) ==> r == s
  {
    if Completes(input) then Step(s, input.info).state else s
  }

  /** Successive cycles, threading the engine state; a raising cycle leaves it untouched. */
  function RunCycles(s: EngineState, inputs: seq<CycleInput>): (r: EngineState)
    decreases |inputs|
  {
    if inputs == [] then s else RunCycles(NextState(s, inputs[0]), inputs[1..])
  }

  /** Once a baseline exists, no sequence of cycles, raising or not, takes it away. */
  lemma {:induction false} CyclesKeepBaseline(s: EngineState, inputs: seq<CycleInput>)
    requires s.Some?
    ensures RunCycles(s, inputs).Some?
    decreases |inputs|
  {
    if inputs != [] {
      CyclesKeepBaseline(NextState(s, inputs[0]), inputs[1..]);
    }
  }

  /** Cycles that all raise leave the state as it was. */
  lemma {:induction false} RaisingCyclesKeepState(s: EngineState, inputs: seq<CycleInput>)
    requires forall k :: 0 <= k < |inputs| ==> !Completes(inputs[k])
    ensures RunCycles(s, inputs) == s
    decreases |inputs|
  {
    if inputs != [] {
      assert !Completes(inputs[0]);
      assert forall k :: 0 <= k < |inputs[1..]| ==> inputs[1..][k] == inputs[k + 1];
      RaisingCyclesKeepState(s, inputs[1..]);
    }
  }

  /** After a sequence of cycles, the baseline is the activity row of the last cycle that completed. */
  lemma {:induction false} CyclesBaseline(s: EngineState, inputs: seq<CycleInput>, k: nat)
    requires k < |inputs| && Completes(inputs[k])
    requires forall j :: k < j < |inputs| ==> !Completes(inputs[j])
    ensures RunCycles(s, inputs) == Some(BaselineOf(inputs[k].info))
    decreases |inputs|
  {
    var next := NextState(s, inputs[0]);
    var tail := inputs[1..];
    assert RunCycles(s, inputs) == RunCycles(next, tail);
    if k == 0 {
      forall j | 0 <= j < |tail|
        ensures !Completes(tail[j])
      {
        assert tail[j] == inputs[j + 1];
      }
      RaisingCyclesKeepState(next, tail);
    } else {
      assert tail[k - 1] == inputs[k];
      forall j | k - 1 < j < |tail|
        ensures !Completes(tail[j])
      {
        assert tail[j] == inputs[j + 1];
      }
      CyclesBaseline(next, tail, k - 1);
    }

  }
}
