# Long column-statistics merger

A Dafny model of the metastore's merger for integral ("long") column statistics. The merger folds
one partition's statistics record into a running aggregate record for the same column and changes
the aggregate in place:

- **Bounds.** Each bound is settled by a three-way table over which sides have it set. The
  aggregate takes the min (or max) of two set bounds, or the one bound that is set. When neither
  side has the bound, it returns early and writes nothing. An unset bound never counts as zero.
- **Null count.** The two null counts are added with Java `long` addition, which wraps around.
- **Distinct-value (NDV) count.** When either side has no NDV sketch, the count becomes the max of
  the two counts. When both sides have sketches and they can be merged, the incoming sketch is
  folded into the aggregate's sketch and the count is that sketch's estimate. When the two sketches
  are incompatible, the count becomes the max of the two counts and the aggregate keeps its own
  sketch.
- **Histogram.** The shared histogram rule of the merger base class decides it.

The record is the class `LongColumnStatsMerger.LongColumnStatsData`. Its abstract value is the
datatype `LongStats`. The methods `SetLowValue`, `SetHighValue` and `Merge` follow the branches of
the Java methods. Each is proved against the pure function `MergedLow`, `MergedHigh` or
`MergedStats`, which in turn is built from `MergedNdv`, `JavaLong.Add` and
`ColumnStatsMerger.MergeHistogramEstimator`. The sketches are opaque type parameters. Their
operations are passed in as total functions: `canMerge`, `mergeEstimators` and
`estimateNumDistinctValues` for NDV sketches, and `canMerge` and merge for histograms.

`Merge` does not require the two records to be different objects. Each field of the incoming
record is read before the same field of the aggregate is written, so the postcondition holds even
when they are the same object.

Some observations are proved as lemmas:

- The bounds stay ordered when each record has both bounds or neither. A record with only a low
  bound merged with a record with only a lower high bound gives crossed bounds
  (`OneSidedBoundsMayCross`).
- An aggregate with no NDV sketch never takes the incoming sketch.
- With incompatible sketches, the order of the two records decides which sketch survives.
- Null counts past the range of a `long` wrap around to negative values. A null count is meant
  to be non-negative, but the code does not keep it so once the sum overflows.

The module `Aggregation` states what repeated merging gives over any number of partitions:
- the low bound is the least of the low bounds that are set;
- the high bound is the greatest of the high bounds that are set;
- the null count is the wrapped grand total;
- with no sketch, the NDV count is the largest count.

The module `Scenarios` holds client methods that merge concrete records through `Merge`.

## Model

| member | source | states |
|---|---|---|
| `JavaLong.Add` | standalone-metastore/metastore-server/src/main/java/org/apache/hadoop/hive/metastore/columnstats/merge/LongColumnStatsMerger.java:43 | The null-count sum is exact within the `long` range, and beyond it wraps by 2^64 in the direction of the overflow |
| `JavaLong.Min` | standalone-metastore/metastore-server/src/main/java/org/apache/hadoop/hive/metastore/columnstats/merge/LongColumnStatsMerger.java:73 | `Math.min` returns one of its arguments, and the result is no larger than either |
| `JavaLong.Max` | standalone-metastore/metastore-server/src/main/java/org/apache/hadoop/hive/metastore/columnstats/merge/LongColumnStatsMerger.java:89 | `Math.max` returns one of its arguments, and the result is no smaller than either |
| `LongColumnStatsMerger.MergedLow` | standalone-metastore/metastore-server/src/main/java/org/apache/hadoop/hive/metastore/columnstats/merge/LongColumnStatsMerger.java:69-83 | The merged low bound is set iff at least one side's is. It is one of the two inputs and no larger than any set input, so it is the min of the set ones |
| `LongColumnStatsMerger.MergedHigh` | standalone-metastore/metastore-server/src/main/java/org/apache/hadoop/hive/metastore/columnstats/merge/LongColumnStatsMerger.java:85-99 | The merged high bound is set iff at least one side's is. It is one of the two inputs and no smaller than any set input |
| `LongColumnStatsMerger.MergedNdv` | standalone-metastore/metastore-server/src/main/java/org/apache/hadoop/hive/metastore/columnstats/merge/LongColumnStatsMerger.java:44-60 | The aggregate keeps a sketch iff it had one. With two compatible sketches, its sketch becomes their merge and the count is that merge's estimate. Otherwise its sketch is unchanged and the count is the larger of the two counts |
| `ColumnStatsMerger.MergeHistogramEstimator` | standalone-metastore/metastore-server/src/main/java/org/apache/hadoop/hive/metastore/columnstats/merge/LongColumnStatsMerger.java:62-64 | The result is absent only when both sides are. A lone sketch is kept whichever side has it. Two compatible sketches are merged. With incompatible sketches the aggregate's own is kept |
| `LongColumnStatsMerger.SetLowValue` | standalone-metastore/metastore-server/src/main/java/org/apache/hadoop/hive/metastore/columnstats/merge/LongColumnStatsMerger.java:69-83 | Only the aggregate's low bound may change, and it becomes `MergedLow` of the two old bounds. With neither set, nothing changes (the early return) |
| `LongColumnStatsMerger.SetHighValue` | standalone-metastore/metastore-server/src/main/java/org/apache/hadoop/hive/metastore/columnstats/merge/LongColumnStatsMerger.java:85-99 | Only the aggregate's high bound may change, and it becomes `MergedHigh` of the two old bounds. With neither set, nothing changes |
| `LongColumnStatsMerger.Merge` | standalone-metastore/metastore-server/src/main/java/org/apache/hadoop/hive/metastore/columnstats/merge/LongColumnStatsMerger.java:36-67 | Only the aggregate is modified, and its new contents are the merged record of the two old contents. A distinct incoming record is left unchanged |
| `LongMergeProperties.MergeAddsNullCounts` | standalone-metastore/metastore-server/src/main/java/org/apache/hadoop/hive/metastore/columnstats/merge/LongColumnStatsMerger.java:43 | The merged null count is the sum of the two null counts whenever that sum fits in a `long` |
| `LongMergeProperties.NullCountOverflowWraps` | standalone-metastore/metastore-server/src/main/java/org/apache/hadoop/hive/metastore/columnstats/merge/LongColumnStatsMerger.java:43 | Two null counts of `Long.MAX_VALUE` merge to -2 |
| `LongMergeProperties.MergeKeepsBoundsOrdered` | standalone-metastore/metastore-server/src/main/java/org/apache/hadoop/hive/metastore/columnstats/merge/LongColumnStatsMerger.java:72-73 | Take two records whose bounds are ordered and are either both set or both unset. The merged record is ordered and paired the same way |
| `LongMergeProperties.OneSidedBoundsMayCross` | standalone-metastore/metastore-server/src/main/java/org/apache/hadoop/hive/metastore/columnstats/merge/LongColumnStatsMerger.java:74-93 | Merge a record with only low = 50 and one with only high = 10. The result has low 50 above high 10 |
| `LongMergeProperties.NdvSketchNeverAdopted` | standalone-metastore/metastore-server/src/main/java/org/apache/hadoop/hive/metastore/columnstats/merge/LongColumnStatsMerger.java:44-45 | An aggregate without an NDV sketch stays without one, and its count becomes the max of the two counts |
| `LongMergeProperties.MergeCommutesWithoutSketchMerge` | standalone-metastore/metastore-server/src/main/java/org/apache/hadoop/hive/metastore/columnstats/merge/LongColumnStatsMerger.java:41-45 | When a sketch is missing on either side, swapping the two records changes neither the bounds, nor the null count, nor the distinct count |
| `LongMergeProperties.MergeCommutesWithLawfulSketches` | standalone-metastore/metastore-server/src/main/java/org/apache/hadoop/hive/metastore/columnstats/merge/LongColumnStatsMerger.java:41-64 | Suppose both sides have compatible NDV sketches and compatibility and merging are symmetric for them. Suppose also that, when both sides have histograms, those are compatible and merge symmetrically (a histogram may be missing on either side). Then the whole merged record does not depend on the order |
| `LongMergeProperties.IncompatibleSketchesDependOnOrder` | standalone-metastore/metastore-server/src/main/java/org/apache/hadoop/hive/metastore/columnstats/merge/LongColumnStatsMerger.java:54-59 | With two different, incompatible sketches each order keeps its own aggregate's sketch, so the two orders end with different sketches, while the counts agree |
| `LongMergeProperties.LoneHistogramKept` | standalone-metastore/metastore-server/src/main/java/org/apache/hadoop/hive/metastore/columnstats/merge/LongColumnStatsMerger.java:62-64 | A histogram present on exactly one side is the merged histogram |
| `Aggregation.FoldLowIsLeast` | standalone-metastore/metastore-server/src/main/java/org/apache/hadoop/hive/metastore/columnstats/merge/LongColumnStatsMerger.java:69-83 | Merge any sequence of records in turn. The low bound ends unset iff none is set, and otherwise it is the least of the set low bounds |
| `Aggregation.FoldHighIsGreatest` | standalone-metastore/metastore-server/src/main/java/org/apache/hadoop/hive/metastore/columnstats/merge/LongColumnStatsMerger.java:85-99 | Merge any sequence of records in turn. The high bound ends unset iff none is set, and otherwise it is the greatest of the set high bounds |
| `Aggregation.FoldNullCountIsWrappedSum` | standalone-metastore/metastore-server/src/main/java/org/apache/hadoop/hive/metastore/columnstats/merge/LongColumnStatsMerger.java:43 | After any number of merges, the null count is the exact total of all null counts, wrapped once to a `long` |
| `Aggregation.FoldNullCountIsSum` | standalone-metastore/metastore-server/src/main/java/org/apache/hadoop/hive/metastore/columnstats/merge/LongColumnStatsMerger.java:43 | When the total fits in a `long`, the null count after any number of merges is exactly that total |
| `Aggregation.FoldWithoutSketchTakesMaxNumDVs` | standalone-metastore/metastore-server/src/main/java/org/apache/hadoop/hive/metastore/columnstats/merge/LongColumnStatsMerger.java:44-45 | An aggregate that starts without an NDV sketch never gains one, and its count ends as the largest count among all records |

## Left out

- Debug logging is left out because it does not change behaviour.
- Building the record views from the Thrift statistics objects and writing the aggregate back are
  left out. That code is not part of this model, so the record class stands in for the view
  directly.
- The internals of the NDV and KLL sketches are left out. They are parameters (`NdvOps`,
  `HistOps`) with no laws assumed, so nothing is proved about the accuracy of an estimate.
- Sketch handles are modelled as values. Java merges into the aggregate's sketch object in place.
  Here the field gets the merged value instead. Aliasing between sketch objects is not captured,
  for example when the same sketch object is shared by two records.
- `ColumnStatsMerger.MergeHistogramEstimator`: the base-class method is not part of this model. It
  keeps a lone sketch, merges compatible sketches, and otherwise keeps the aggregate's own.
- The mergers for the other column categories are left out, and so is the dispatch between
  categories. Their code is not part of this model.
- The Thrift "is set" flags of the null and distinct counts are left out. The merger treats both
  counts as always set.
