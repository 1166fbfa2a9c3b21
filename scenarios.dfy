/**
 Clients of the merger: concrete merges whose outcomes follow from the contracts of
 `LongColumnStatsMerger.Merge` alone.
 */
module Scenarios {

  import opened Options
  import opened JavaLong
  import opened ColumnStatsMerger
  import opened LongColumnStatsMerger

  /** Sketch operations for records that carry no sketches; they are never consulted. */
  function NoNdvOps(): NdvOps<int> {
    NdvOps((x: int, y: int) => true, (x: int, y: int) => x, (x: int) => 0)
  }

  function NoHistOps(): HistOps<int> {
    HistOps((x: int, y: int) => true, (x: int, y: int) => x)
  }

  /** Both bounds set on both sides, no sketches: min, max, sum and max. */
  method BothBoundsSet() {
    var agg := new LongColumnStatsData(LongStats(Some(5), Some(20), 2, 10, None, None));
    var inc := new LongColumnStatsData(LongStats(Some(1), Some(15), 3, 8, None, None));
    Merge(NoNdvOps(), NoHistOps(), agg, inc);
    assert agg.Value() == LongStats(Some(1), Some(20), 5, 10, None, None);
    assert inc.Value() == LongStats(Some(1), Some(15), 3, 8, None, None);
  }

  /** Each side has only one bound: each merged bound is the one that is set. */
  method OneBoundEach() {
    var agg := new LongColumnStatsData(LongStats(None, Some(100), 0, 0, None, None));
    var inc := new LongColumnStatsData(LongStats(Some(-5), None, 0, 0, None, None));
    Merge(NoNdvOps(), NoHistOps(), agg, inc);
    assert agg.lowValue == Some(-5) && agg.highValue == Some(100);
  }

  /** A histogram on the aggregate only is kept as it is. */
  method HistogramOnAggregateOnly() {
    var agg := new LongColumnStatsData(LongStats(None, None, 0, 0, None, Some(7)));
    var inc := new LongColumnStatsData(LongStats(None, None, 0, 0, None, None));
    Merge(NoNdvOps(), NoHistOps(), agg, inc);
    assert agg.histogramEstimator == Some(7) && agg.lowValue.None? && agg.highValue.None?;
  }

  /**
   Compatible NDV sketches, here sets of hashed values whose estimate is their size: the count is
   read from the merged sketch, not from the larger of the two counts.
   */
  method CompatibleSketches() {
    var ops := NdvOps((x: set<int>, y: set<int>) => true, (x: set<int>, y: set<int>) => x + y,
                      (x: set<int>) => if |x| <= MaxLong then |x| else MaxLong);
    var agg := new LongColumnStatsData(LongStats(None, None, 0, 2, Some({1, 2}), None));
    var inc := new LongColumnStatsData(LongStats(None, None, 0, 1, Some({3}), None));
    Merge(ops, NoHistOps(), agg, inc);
    assert {1, 2} + {3} == {1, 2, 3};
    assert agg.numDVs == 3 && agg.ndvEstimator == Some({1, 2, 3});
  }
}
