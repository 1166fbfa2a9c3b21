/**
 Properties of one merge step of the long statistics merger: how counts and bounds combine,
 when the order of the two records matters, and what happens to the sketches.
 */
module LongMergeProperties {

  import opened Options
  import opened JavaLong
  import opened ColumnStatsMerger
  import opened LongColumnStatsMerger

  /** The bounds of a record are ordered whenever both are set. */
  predicate BoundsOrdered<E, H>(s: LongStats<E, H>) {
    s.lowValue.Some? && s.highValue.Some? ==> s.lowValue.value <= s.highValue.value
  }

  /** Both bounds of a record are set, or neither is. */
  predicate BoundsPaired<E, H>(s: LongStats<E, H>) {
    s.lowValue.Some? <==> s.highValue.Some?
  }

  /** The null counts add up exactly as long as their sum fits in a `long`. */
  lemma MergeAddsNullCounts<E, H>(ndvOps: NdvOps<E>, histOps: HistOps<H>, agg: LongStats<E, H>, inc: LongStats<E, H>)
    requires agg.numNulls + inc.numNulls <= MaxLong
    requires agg.numNulls + inc.numNulls >= MinLong
    ensures MergedStats(ndvOps, histOps, agg, inc).numNulls == agg.numNulls + inc.numNulls
  {
  }

  /** Beyond the range of a `long` the null count wraps around: two huge counts turn negative. */
  lemma NullCountOverflowWraps<E, H>(ndvOps: NdvOps<E>, histOps: HistOps<H>, agg: LongStats<E, H>, inc: LongStats<E, H>)
    requires agg.numNulls == MaxLong && inc.numNulls == MaxLong
    ensures MergedStats(ndvOps, histOps, agg, inc).numNulls == -2
  {
  }

  /**
   Merging keeps the bounds ordered when each record has both bounds or neither: the merged low
   is one record's low and the merged high is at least that record's high.
   */
  lemma MergeKeepsBoundsOrdered<E, H>(ndvOps: NdvOps<E>, histOps: HistOps<H>, agg: LongStats<E, H>, inc: LongStats<E, H>)
    requires BoundsOrdered(agg) && BoundsOrdered(inc)
    requires BoundsPaired(agg) && BoundsPaired(inc)
    ensures BoundsOrdered(MergedStats(ndvOps, histOps, agg, inc))
    ensures BoundsPaired(MergedStats(ndvOps, histOps, agg, inc))
  {
  }

  /**
   Without the pairing the order can be lost: a record with only a low bound merged with one
   with only a lower high bound gives crossed bounds.
   */
  lemma OneSidedBoundsMayCross<E, H>(ndvOps: NdvOps<E>, histOps: HistOps<H>, agg: LongStats<E, H>, inc: LongStats<E, H>)
    requires agg.lowValue == Some(50) && agg.highValue.None?
    requires inc.lowValue.None? && inc.highValue == Some(10)
    ensures BoundsOrdered(agg) && BoundsOrdered(inc)
    ensures !BoundsOrdered(MergedStats(ndvOps, histOps, agg, inc))
  {
  }

  /** The aggregate never takes over the incoming NDV sketch: without its own, it stays without. */
  lemma NdvSketchNeverAdopted<E, H>(ndvOps: NdvOps<E>, histOps: HistOps<H>, agg: LongStats<E, H>, inc: LongStats<E, H>)
    requires agg.ndvEstimator.None?
    ensures MergedStats(ndvOps, histOps, agg, inc).ndvEstimator.None?
    ensures MergedStats(ndvOps, histOps, agg, inc).numDVs == Max(agg.numDVs, inc.numDVs)
  {
  }

  /**
   The order of the two records does not matter for the bounds and the null count, nor for the
   distinct-value count when no sketch merge takes place in either order.
   */
  lemma MergeCommutesWithoutSketchMerge<E, H>(ndvOps: NdvOps<E>, histOps: HistOps<H>, a: LongStats<E, H>, b: LongStats<E, H>)
    requires a.ndvEstimator.None? || b.ndvEstimator.None?
    ensures var ab, ba := MergedStats(ndvOps, histOps, a, b), MergedStats(ndvOps, histOps, b, a);
      ab.lowValue == ba.lowValue && ab.highValue == ba.highValue &&
      ab.numNulls == ba.numNulls && ab.numDVs == ba.numDVs
  {
  }

  /**
   With two compatible NDV sketches the result does not depend on the order, provided the sketch
   algebra is itself symmetric for these two sketches; histograms may be absent on either side,
   and when both are present they must be compatible and merge symmetrically.
   */
  lemma MergeCommutesWithLawfulSketches<E, H>(ndvOps: NdvOps<E>, histOps: HistOps<H>, a: LongStats<E, H>, b: LongStats<E, H>)
    requires a.ndvEstimator.Some? && b.ndvEstimator.Some?
    requires ndvOps.canMerge(a.ndvEstimator.value, b.ndvEstimator.value)
    requires ndvOps.canMerge(b.ndvEstimator.value, a.ndvEstimator.value)
    requires ndvOps.merge(a.ndvEstimator.value, b.ndvEstimator.value) == ndvOps.merge(b.ndvEstimator.value, a.ndvEstimator.value)
    requires a.histogramEstimator.Some? && b.histogramEstimator.Some? ==>
               histOps.canMerge(a.histogramEstimator.value, b.histogramEstimator.value) &&
               histOps.canMerge(b.histogramEstimator.value, a.histogramEstimator.value) &&
               histOps.merge(a.histogramEstimator.value, b.histogramEstimator.value)
                 == histOps.merge(b.histogramEstimator.value, a.histogramEstimator.value)
    ensures MergedStats(ndvOps, histOps, a, b) == MergedStats(ndvOps, histOps, b, a)
  {
  }

  /**
   With incompatible sketches the order does matter: each order keeps its own aggregate's
   sketch, so the two results carry different sketches although their counts agree.
   */
  lemma IncompatibleSketchesDependOnOrder<E, H>(ndvOps: NdvOps<E>, histOps: HistOps<H>, a: LongStats<E, H>, b: LongStats<E, H>)
    requires a.ndvEstimator.Some? && b.ndvEstimator.Some? && a.ndvEstimator != b.ndvEstimator
    requires !ndvOps.canMerge(a.ndvEstimator.value, b.ndvEstimator.value)
    requires !ndvOps.canMerge(b.ndvEstimator.value, a.ndvEstimator.value)
    ensures MergedStats(ndvOps, histOps, a, b).ndvEstimator == a.ndvEstimator
    ensures MergedStats(ndvOps, histOps, b, a).ndvEstimator == b.ndvEstimator
    ensures MergedStats(ndvOps, histOps, a, b).ndvEstimator != MergedStats(ndvOps, histOps, b, a).ndvEstimator
    ensures MergedStats(ndvOps, histOps, a, b).numDVs == MergedStats(ndvOps, histOps, b, a).numDVs
  {
  }

  /** A histogram present on only one side survives the merge unchanged. */
  lemma LoneHistogramKept<E, H>(ndvOps: NdvOps<E>, histOps: HistOps<H>, agg: LongStats<E, H>, inc: LongStats<E, H>)
    requires agg.histogramEstimator.None? != inc.histogramEstimator.None?
    ensures MergedStats(ndvOps, histOps, agg, inc).histogramEstimator ==
              if agg.histogramEstimator.Some? then agg.histogramEstimator else inc.histogramEstimator
  {
  }
}
