/**
 The part of the abstract column-statistics merger that every typed merger shares and that the
 integral merger relies on: combining two optional histogram (quantile) sketches.
 */
module ColumnStatsMerger {

  import opened Options

  /**
   The operations of a mergeable histogram sketch, whose internals lie outside this model:
   `canMerge` says whether two sketches were built with matching parameters, `merge` is the
   sketch that results from folding the second into the first.
   */
  datatype HistOps<!H> = HistOps(canMerge: (H, H) -> bool, merge: (H, H) -> H)

  /**
   The histogram the aggregate keeps after a merge: whichever side is present when the other is
   absent, the merged sketch when both are present and compatible, and the aggregate's own sketch
   unchanged when they are incompatible.
   */
  function MergeHistogramEstimator<H>(ops: HistOps<H>, oldEst: Option<H>, newEst: Option<H>): (r: Option<H>)
    ensures r.None? <==> oldEst.None? && newEst.None?
    ensures oldEst.None? ==> r == newEst
    ensures newEst.None? ==> r == oldEst
    ensures oldEst.Some? && newEst.Some? && ops.canMerge(oldEst.value, newEst.value) ==>
              r == Some(ops.merge(oldEst.value, newEst.value))
    ensures oldEst.Some? && newEst.Some? && !ops.canMerge(oldEst.value, newEst.value) ==> r == oldEst
  {
    if oldEst.Some? && newEst.Some? then
      if ops.canMerge(oldEst.value, newEst.value) then Some(ops.merge(oldEst.value, newEst.value))
      else oldEst
    else if newEst.Some? then newEst
    else oldEst
  }
}
