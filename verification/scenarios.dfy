/** Worked cycles of the cfs collector, stated over the model. */
module Scenarios {
  import opened Wrappers
  import opened Aggregation
  import opened Engine
  import opened Cycle

  /** One relation at ratio one half and 100 bytes: the total ratio is one half. */
  lemma SingleRelationTotal()
    ensures var es := Entries([Database("db1", [Row("public.t1", 0.5, 100)])]);
      && RelationNames(es) == ["db1.public.t1"]
      && TotalRatio(CompressedSize(es), NonCompressedSize(es)) == Success(0.5)
  {
    var d := Database("db1", [Row("public.t1", 0.5, 100)]);
    assert [d][..0] == [];
    var es := [Entry("db1", Row("public.t1", 0.5, 100))];
    assert Entries([d]) == es;
    assert es[1..] == [];
    assert QualifiedName("db1", "public.t1") == "db1.public.t1";
  }

  /** No compressed relation anywhere: the cycle raises after the discovery send and keeps its baseline. */
  lemma NoRelationsRaises(s: EngineState, info: Snapshot)
    ensures RunCycle(s, CycleInput([], info))
      == CycleResult([Send(DiscoveryKey, DiscoveryPayload([]))], s, Raised(ZeroDivisionError))
  {
  }

  /** Written bytes grew but scanned bytes fell: no current ratio, baseline moves. */
  lemma ScannedFellSuppresses()
    ensures Step(Some(Baseline(1000, 2000)), Snapshot(1500, 1800, 0, 0))
      == StepResult(None, Some(Baseline(1500, 1800)))
  {
  }

  /** Both grew: 400 scanned bytes over 200 written bytes over 300 seconds is 1/150. */
  lemma BothGrewEmits()
    ensures Step(Some(Baseline(1000, 2000)), Snapshot(1200, 2400, 0, 0))
      == StepResult(Some(1.0 / 150.0), Some(Baseline(1200, 2400)))
  {
  }
}
