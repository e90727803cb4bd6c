# cfs compression collector — Dafny model

A model of the metric derivation inside `Cfs.run` of mamonsu's cfs plugin
(`mamonsu/plugins/pgsql/cfs.py`), the collector that reports the state of
Postgres Pro Enterprise's compressed file system (CFS) to Zabbix every
`Interval = 5 * 60` seconds. Each cycle does two things:

* **Relation aggregation** (module `Aggregation`). The collector walks the
  compressed relations of every database, in database order and then in the
  order the query returned them. It adds one discovery entry
  `"<db>.<relation>"` per row and sums the compressed size and the
  uncompressed size (size × ratio). Then it reports
  `total_compress_ratio = uncompressed / compressed`. The method
  `Aggregate` mirrors the nested loop. Its contract ties the loop to
  recursive reference definitions of the discovery list and the two sums.
* **The current-compress-ratio engine** (module `Engine`). The class-level
  dict `prev` is modelled as an explicit `Option<Baseline>` state, and
  `Step` is a pure transition function. A ratio is emitted only when a
  baseline exists and both byte counters strictly grew. The baseline is
  overwritten with the current counters on every cycle. `Run` threads the
  state through a sequence of cycles. The lemmas about `Run` characterise
  every cycle's emission in terms of the previous cycle's snapshot alone.

Module `Cycle` puts the two halves together. `RunCycle` gives the ordered
list of `zbx.send` calls of one cycle and the engine state the cycle
leaves behind. `RunCycles` threads that state across many cycles.
Module `Scenarios` holds worked cycles.

Division at line 61 has no zero guard. A cycle whose rows sum to a zero
compressed size therefore raises `ZeroDivisionError`. This includes a
cycle with no compressed relation at all. In this model the raise is the
outcome `Raised(ZeroDivisionError)`. The sends made before the raise are
kept: the per-relation ratios and the discovery list. Nothing after the
raise happens. The activity query is not run. The four counters are not
sent. The baseline is not refreshed. A design that guards the division and
always runs the activity half would behave differently. This model follows
the code as written. The total ratio is the uncompressed size divided by
the compressed size (line 61).

Numbers are exact: ratios and derived metrics are `real`, counters and
sizes are unbounded integers. Sizes are `nat` because the query yields
non-negative byte counts. The `prev` dict only ever receives its two keys
together, so a state with one key and not the other cannot arise, and
`Option<Baseline>` covers every reachable state.

## Model

| member | source | states |
|---|---|---|
| `Aggregation.QualifiedName` | mamonsu/plugins/pgsql/cfs.py:55 | the discovery value is the database name, then one dot, then the relation name, and nothing else |
| `Aggregation.Aggregate` | mamonsu/plugins/pgsql/cfs.py:52-58 | the nested loop over databases and rows, starting from an empty list and two zero sums, yields exactly the reference discovery list, the sum of sizes and the sum of size × ratio, in iteration order |
| `Aggregation.AggregateRows` | mamonsu/plugins/pgsql/cfs.py:54-58 | the inner loop over one database's rows extends the running list and sums by exactly that database's entries, in the order returned |
| `Aggregation.EntriesLength` | mamonsu/plugins/pgsql/cfs.py:53-54 | iteration visits as many rows as all databases returned together |
| `Aggregation.RelationNamesPointwise` | mamonsu/plugins/pgsql/cfs.py:55-56 | the discovery list has one entry per row, and entry k is the qualified name of row k in iteration order |
| `Aggregation.TotalRatio` | mamonsu/plugins/pgsql/cfs.py:61 | the division fails exactly when the compressed size is zero; otherwise the ratio times the compressed size is the uncompressed size |
| `Aggregation.CompressedSizeZero` | mamonsu/plugins/pgsql/cfs.py:57 | the summed compressed size is zero exactly when every row has size zero, so an empty row set makes line 61 divide by zero |
| `Aggregation.NonCompressedSizeBounds` | mamonsu/plugins/pgsql/cfs.py:57-58 | when every ratio lies in [lo, hi], the uncompressed sum lies between lo and hi times the compressed sum |
| `Aggregation.TotalRatioWithinRowRatios` | mamonsu/plugins/pgsql/cfs.py:57-61 | the total ratio is a size-weighted mean: it lies within the range of the row ratios |
| `Engine.CurrentRatio` | mamonsu/plugins/pgsql/cfs.py:70-71 | under the growth guard the ratio is strictly positive and, times the written-bytes growth times `Interval` (300, line 9), equals the scanned-bytes growth; the divisor is never zero |
| `Engine.Step` | mamonsu/plugins/pgsql/cfs.py:69-74 | emits if and only if a baseline exists and both byte counters strictly grew; an emitted value is positive and satisfies the growth equation; the next state is always the current byte counters |
| `Engine.StepIgnoresFileCounters` | mamonsu/plugins/pgsql/cfs.py:73-74 | the file counters never influence the emission or the baseline |
| `Engine.RunNothing` | mamonsu/plugins/pgsql/cfs.py:45 | zero cycles emit nothing and leave the state, absent at start, as it was |
| `Engine.FirstCycle` | mamonsu/plugins/pgsql/cfs.py:69-74 | the first cycle without a baseline emits nothing and leaves a baseline of its own counters |
| `Engine.RunFinalBaseline` | mamonsu/plugins/pgsql/cfs.py:73-74 | after k ≥ 1 cycles the baseline holds the last snapshot's byte counters, whatever was emitted |
| `Engine.RunKeepsBaseline` | mamonsu/plugins/pgsql/cfs.py:73-74 | once a baseline exists it never becomes absent again |
| `Engine.RunPointwise` | mamonsu/plugins/pgsql/cfs.py:69-74 | cycle i of a run emits what one step from the previous cycle's snapshot emits (from the initial state for cycle 0) |
| `Engine.ColdRunEmissions` | mamonsu/plugins/pgsql/cfs.py:69-72 | from no baseline, cycle i emits if and only if i > 0 and both counters grew strictly between cycles i-1 and i, and the value is the ratio of those two snapshots |
| `Engine.ResetRefreshesBaseline` | mamonsu/plugins/pgsql/cfs.py:70-74 | a cycle without growth (idle or counter reset) emits nothing but moves the baseline, so the next cycle is compared against it and emits from it |
| `Cycle.RunCycle` | mamonsu/plugins/pgsql/cfs.py:52-77 | a cycle raises exactly when the compressed size sums to zero, and then keeps its state and has made only the relation and discovery sends; a completed cycle leaves the current byte counters as the baseline |
| `Cycle.CycleStartsWithRelations` | mamonsu/plugins/pgsql/cfs.py:55-60 | whatever its outcome, every cycle begins with one send per row in iteration order, keyed by the bare relation name without the database prefix and carrying the row's ratio, followed by the discovery payload naming row k as its database-dot-relation name |
| `Cycle.CycleCompletes` | mamonsu/plugins/pgsql/cfs.py:61-77 | with a non-zero compressed size the cycle then sends the total ratio (uncompressed over compressed), then the activity sends, 6 or 7 more sends in all depending on whether the engine emitted |
| `Cycle.ActivityCountersForwarded` | mamonsu/plugins/pgsql/cfs.py:65-77 | the four counters are sent unchanged for the speed transform, bytes first and files last; the current ratio is sent between them exactly when the engine emitted one, and carries the emitted value |
| `Cycle.NextState` | mamonsu/plugins/pgsql/cfs.py:61-74 | a cycle that gets past the total-ratio division leaves its byte counters as the baseline; one that raises leaves the state as it was |
| `Cycle.RaisingCyclesKeepState` | mamonsu/plugins/pgsql/cfs.py:61-74 | cycles that all raise at the total-ratio division leave the engine state untouched |
| `Cycle.CyclesBaseline` | mamonsu/plugins/pgsql/cfs.py:61-74 | after any sequence of cycles the baseline is the activity row of the last cycle that completed |
| `Cycle.CyclesKeepBaseline` | mamonsu/plugins/pgsql/cfs.py:73-74 | raising or not, no sequence of cycles takes an existing baseline away |
| `Scenarios.SingleRelationTotal` | mamonsu/plugins/pgsql/cfs.py:52-61 | one relation of ratio 0.5 and size 100 in db1 is discovered as `db1.public.t1` with total ratio 0.5 |
| `Scenarios.NoRelationsRaises` | mamonsu/plugins/pgsql/cfs.py:60-61 | with no relations the cycle sends an empty discovery list, then raises and keeps its baseline |
| `Scenarios.ScannedFellSuppresses` | mamonsu/plugins/pgsql/cfs.py:70-74 | counters (1000, 2000) then (1500, 1800): nothing is emitted and the baseline becomes (1500, 1800) |
| `Scenarios.BothGrewEmits` | mamonsu/plugins/pgsql/cfs.py:70-74 | counters (1000, 2000) then (1200, 2400): the emitted ratio is 1/150 |

## Left out

- The SQL text and what it computes (lines 13-43), including the pages × 8 × 1024 scaling. Query results are given inputs: the rows per database and the single activity row.
- The query on line 64 is assumed to return its one row. The activity SQL has no `FROM`, so an empty result, and the `IndexError` it would raise at `[0]`, is not modelled.
- `Pooler.databases`/`Pooler.query` I/O and the `zbx.send` transport. Sends are modelled as an ordered list of (key, value) pairs. The discovery payload is the list of names, not its JSON text.
- The per-second speed transform that the monitoring agent applies to the four counters (`DELTA_SPEED`, `only_positive_speed`). It lives outside this file, so the model only records that a counter is sent for that transform.
- The `force_enable` option and the `disable_and_exit_if_not_pgpro_ee` capability check (lines 49-50). That check is a call into code outside this file.
- `items`, `graphs` and `discovery_rules` (lines 79-150). They are static template metadata with no runtime behaviour.
- Floating-point rounding. Arithmetic is exact over `real`.
- Engine.CurrentRatio: models true division. Under Python 2, line 71 divides two integers and floors the quotient, which would usually give 0. Only the Python 3 meaning is modelled.
- Query errors propagating out of `run`. Only the division error raised inside the file is modelled.
- The sharing of the class-level `prev` dict between instances. The model uses one explicit state value per collector.
