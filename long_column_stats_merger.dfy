/**
 The merger for integral ("long") column statistics. It folds one partition's statistics record
 into a running aggregate record, changing the aggregate in place: the bounds by a three-way
 table over which sides are set, the null counts by addition, the distinct-value count through
 the NDV sketches when both sides carry compatible ones, and the histogram through the shared
 histogram rule.
 */
module LongColumnStatsMerger {

  import opened Options
  import opened JavaLong
  import opened ColumnStatsMerger

  /**
   The operations of a distinct-value (NDV) sketch, whose internals lie outside this model:
   `canMerge` says whether two sketches were built with matching parameters, `merge` is the
   first sketch after the second has been folded into it, `estimate` its distinct-value estimate.
   */
  datatype NdvOps<!E> = NdvOps(canMerge: (E, E) -> bool, merge: (E, E) -> E, estimate: E -> Long)

  /** The contents of a long statistics record at one moment. */
  datatype LongStats<E, H> = LongStats(
    lowValue: Option<Long>,
    highValue: Option<Long>,
    numNulls: Long,
    numDVs: Long,
    ndvEstimator: Option<E>,
    histogramEstimator: Option<H>)

  /**
   A long statistics record as the merger sees it: the bounds may be unset, the counts are always
   set, and each sketch handle may be absent.
   */
  class LongColumnStatsData<E, H> {
    var lowValue: Option<Long>
    var highValue: Option<Long>
    var numNulls: Long
    var numDVs: Long
    var ndvEstimator: Option<E>
    var histogramEstimator: Option<H>

    function Value(): LongStats<E, H>
      reads this
    {
      LongStats(lowValue, highValue, numNulls, numDVs, ndvEstimator, histogramEstimator)
    }

    constructor (s: LongStats<E, H>)
      ensures Value() == s
    {
      lowValue, highValue := s.lowValue, s.highValue;
      numNulls, numDVs := s.numNulls, s.numDVs;
      ndvEstimator, histogramEstimator := s.ndvEstimator, s.histogramEstimator;
    }
  }

  /**
   The merged lower bound: the least of the bounds that are set, and unset only when neither is.
   An unset bound never takes part in the comparison.
   */
  function MergedLow(agg: Option<Long>, inc: Option<Long>): (r: Option<Long>)
    ensures r.Some? <==> agg.Some? || inc.Some?
    ensures r.Some? && agg.Some? ==> r.value <= agg.value
    ensures r.Some? && inc.Some? ==> r.value <= inc.value
    ensures r == agg || r == inc
  {
    if agg.Some? && inc.Some? then Some(Min(agg.value, inc.value))
    else if agg.Some? then agg
    else inc
  }

  /**
   The merged upper bound: the greatest of the bounds that are set, and unset only when neither
   is.
   */
  function MergedHigh(agg: Option<Long>, inc: Option<Long>): (r: Option<Long>)
    ensures r.Some? <==> agg.Some? || inc.Some?
    ensures r.Some? && agg.Some? ==> r.value >= agg.value
    ensures r.Some? && inc.Some? ==> r.value >= inc.value
    ensures r == agg || r == inc
  {
    if agg.Some? && inc.Some? then Some(Max(agg.value, inc.value))
    else if agg.Some? then agg
    else inc
  }

  /** The aggregate's distinct-value count and NDV sketch after a merge. */
  datatype NdvMerge<E> = NdvMerge(numDVs: Long, estimator: Option<E>)

  /**
   The distinct-value rule. The aggregate keeps a sketch exactly when it had one (it never adopts
   the incoming sketch). Only when both sketches are present and compatible is the incoming one
   folded in, and the count is then read from the merged sketch; otherwise the aggregate's
   sketch is left as it was and the count is the larger of the two counts.
   */
  function MergedNdv<E>(ops: NdvOps<E>, aggEst: Option<E>, aggDVs: Long, incEst: Option<E>, incDVs: Long)
    : (r: NdvMerge<E>)
    ensures r.estimator.Some? <==> aggEst.Some?
    ensures aggEst.Some? && incEst.Some? && ops.canMerge(aggEst.value, incEst.value) ==>
              r.estimator == Some(ops.merge(aggEst.value, incEst.value)) &&
              r.numDVs == ops.estimate(r.estimator.value)
    ensures !(aggEst.Some? && incEst.Some? && ops.canMerge(aggEst.value, incEst.value)) ==>
              r.estimator == aggEst && r.numDVs >= aggDVs && r.numDVs >= incDVs &&
              (r.numDVs == aggDVs || r.numDVs == incDVs)
  {
    if aggEst.None? || incEst.None? then
      NdvMerge(Max(aggDVs, incDVs), aggEst)
    else if ops.canMerge(aggEst.value, incEst.value) then
      var merged := ops.merge(aggEst.value, incEst.value);
      NdvMerge(ops.estimate(merged), Some(merged))
    else
      NdvMerge(Max(aggDVs, incDVs), aggEst)
  }

  /** The whole aggregate record after the incoming record has been merged into it. */
  function MergedStats<E, H>(ndvOps: NdvOps<E>, histOps: HistOps<H>, agg: LongStats<E, H>, inc: LongStats<E, H>)
    : LongStats<E, H>
  {
    var ndv := MergedNdv(ndvOps, agg.ndvEstimator, agg.numDVs, inc.ndvEstimator, inc.numDVs);
    LongStats(
      MergedLow(agg.lowValue, inc.lowValue),
      MergedHigh(agg.highValue, inc.highValue),
      Add(agg.numNulls, inc.numNulls),
      ndv.numDVs,
      ndv.estimator,
      MergeHistogramEstimator(histOps, agg.histogramEstimator, inc.histogramEstimator))
  }

  /**
   Writes the merged lower bound into the aggregate; when neither side has one it returns early
   and writes nothing. Only the aggregate's lower bound may change.
   */
  method SetLowValue<E, H>(aggregateData: LongColumnStatsData<E, H>, newData: LongColumnStatsData<E, H>)
    modifies aggregateData`lowValue
    ensures aggregateData.lowValue == MergedLow(old(aggregateData.lowValue), old(newData.lowValue))
    ensures old(aggregateData.lowValue).None? && old(newData.lowValue).None? ==> unchanged(aggregateData)
  {
    var lowValue: Long;
    if aggregateData.lowValue.Some? && newData.lowValue.Some? {
      lowValue := Min(aggregateData.lowValue.value, newData.lowValue.value);
    } else if aggregateData.lowValue.Some? {
      lowValue := aggregateData.lowValue.value;
    } else if newData.lowValue.Some? {
      lowValue := newData.lowValue.value;
    } else {
      return;
    }
    aggregateData.lowValue := Some(lowValue);
  }

  /**
   Writes the merged upper bound into the aggregate; when neither side has one it returns early
   and writes nothing. Only the aggregate's upper bound may change.
   */
  method SetHighValue<E, H>(aggregateData: LongColumnStatsData<E, H>, newData: LongColumnStatsData<E, H>)
    modifies aggregateData`highValue
    ensures aggregateData.highValue == MergedHigh(old(aggregateData.highValue), old(newData.highValue))
    ensures old(aggregateData.highValue).None? && old(newData.highValue).None? ==> unchanged(aggregateData)
  {
    var highValue: Long;
    if aggregateData.highValue.Some? && newData.highValue.Some? {
      highValue := Max(aggregateData.highValue.value, newData.highValue.value);
    } else if aggregateData.highValue.Some? {
      highValue := aggregateData.highValue.value;
    } else if newData.highValue.Some? {
      highValue := newData.highValue.value;
    } else {
      return;
    }
    aggregateData.highValue := Some(highValue);
  }

  /**
   Merges the incoming record into the aggregate in place. The aggregate's new contents are the
   merged record of the two old contents; the incoming record is only read, so when it is a
   different object it is left exactly as it was. (When both arguments are the same object the
   postcondition still holds, because every field is read before it is written.)
   */
  method Merge<E, H>(ndvOps: NdvOps<E>, histOps: HistOps<H>,
                     aggregateData: LongColumnStatsData<E, H>, newData: LongColumnStatsData<E, H>)
    modifies aggregateData
    ensures aggregateData.Value() == MergedStats(ndvOps, histOps, old(aggregateData.Value()), old(newData.Value()))
    ensures aggregateData != newData ==> unchanged(newData)
  {
    SetLowValue(aggregateData, newData);
    SetHighValue(aggregateData, newData);
    aggregateData.numNulls := Add(aggregateData.numNulls, newData.numNulls);
    if aggregateData.ndvEstimator.None? || newData.ndvEstimator.None? {
      aggregateData.numDVs := Max(aggregateData.numDVs, newData.numDVs);
    } else {
      var oldEst := aggregateData.ndvEstimator.value;
      var newEst := newData.ndvEstimator.value;
      var ndv: Long;
      if ndvOps.canMerge(oldEst, newEst) {
        oldEst := ndvOps.merge(oldEst, newEst);
        ndv := ndvOps.estimate(oldEst);
        aggregateData.ndvEstimator := Some(oldEst);
      } else {
        ndv := Max(aggregateData.numDVs, newData.numDVs);
      }
      aggregateData.numDVs := ndv;
    }
    aggregateData.histogramEstimator :=
      MergeHistogramEstimator(histOps, aggregateData.histogramEstimator, newData.histogramEstimator);
  }
}
