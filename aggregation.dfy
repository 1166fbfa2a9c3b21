/**
 What repeated merging computes. The statistics driver folds the records of all partitions of a
 column, one at a time, into a running aggregate; these lemmas say what the merge rule makes of
 such a fold, whatever the number of partitions.
 */
module Aggregation {

  import opened Options
  import opened JavaLong
  import opened ColumnStatsMerger
  import opened LongColumnStatsMerger

  /** The aggregate after merging the records of `incoming` into `agg`, first to last. */
  function Fold<E, H>(ndvOps: NdvOps<E>, histOps: HistOps<H>, agg: LongStats<E, H>, incoming: seq<LongStats<E, H>>)
    : LongStats<E, H>
    decreases |incoming|
  {
    if incoming == [] then agg
    else Fold(ndvOps, histOps, MergedStats(ndvOps, histOps, agg, incoming[0]), incoming[1..])
  }

  /** The exact (unbounded) total of the null counts of some records. */
  function SumNulls<E, H>(records: seq<LongStats<E, H>>): int
  {
    if records == [] then 0 else records[0].numNulls + SumNulls(records[1..])
  }

  /**
   The folded low bound is the least of all low bounds that are set, and unset only when none
   is set.
   */
  lemma {:induction false} FoldLowIsLeast<E, H>(ndvOps: NdvOps<E>, histOps: HistOps<H>, agg: LongStats<E, H>, incoming: seq<LongStats<E, H>>)
    decreases |incoming|
    ensures var r := Fold(ndvOps, histOps, agg, incoming).lowValue;
      && (r.None? <==> agg.lowValue.None? && forall i :: 0 <= i < |incoming| ==> incoming[i].lowValue.None?)
      && (r.Some? && agg.lowValue.Some? ==> r.value <= agg.lowValue.value)
      && (forall i :: 0 <= i < |incoming| && r.Some? && incoming[i].lowValue.Some? ==> r.value <= incoming[i].lowValue.value)
      && (r == agg.lowValue || exists i :: 0 <= i < |incoming| && r == incoming[i].lowValue)
  {
    if incoming != [] {
      var next := MergedStats(ndvOps, histOps, agg, incoming[0]);
      var rest := incoming[1..];
      FoldLowIsLeast(ndvOps, histOps, next, rest);
      var r := Fold(ndvOps, histOps, agg, incoming).lowValue;
      assert r == Fold(ndvOps, histOps, next, rest).lowValue;
      forall i | 1 <= i < |incoming| ensures incoming[i] == rest[i - 1] { }
      if r != next.lowValue {
        var j :| 0 <= j < |rest| && r == rest[j].lowValue;
        assert r == incoming[j + 1].lowValue;
      }
    }
  }

  /**
   The folded high bound is the greatest of all high bounds that are set, and unset only when
   none is set.
   */
  lemma {:induction false} FoldHighIsGreatest<E, H>(ndvOps: NdvOps<E>, histOps: HistOps<H>, agg: LongStats<E, H>, incoming: seq<LongStats<E, H>>)
    decreases |incoming|
    ensures var r := Fold(ndvOps, histOps, agg, incoming).highValue;
      && (r.None? <==> agg.highValue.None? && forall i :: 0 <= i < |incoming| ==> incoming[i].highValue.None?)
      && (r.Some? && agg.highValue.Some? ==> r.value >= agg.highValue.value)
      && (forall i :: 0 <= i < |incoming| && r.Some? && incoming[i].highValue.Some? ==> r.value >= incoming[i].highValue.value)
      && (r == agg.highValue || exists i :: 0 <= i < |incoming| && r == incoming[i].highValue)
  {
    if incoming != [] {
      var next := MergedStats(ndvOps, histOps, agg, incoming[0]);
      var rest := incoming[1..];
      FoldHighIsGreatest(ndvOps, histOps, next, rest);
      var r := Fold(ndvOps, histOps, agg, incoming).highValue;
      assert r == Fold(ndvOps, histOps, next, rest).highValue;
      forall i | 1 <= i < |incoming| ensures incoming[i] == rest[i - 1] { }
      if r != next.highValue {
        var j :| 0 <= j < |rest| && r == rest[j].highValue;
        assert r == incoming[j + 1].highValue;
      }
    }
  }

  /**
   The folded null count is the total of all null counts, reduced to a `long` once at the end:
   the wrap-arounds of the individual additions do not accumulate any further error.
   */
  lemma {:induction false} FoldNullCountIsWrappedSum<E, H>(ndvOps: NdvOps<E>, histOps: HistOps<H>, agg: LongStats<E, H>, incoming: seq<LongStats<E, H>>)
    decreases |incoming|
    ensures Fold(ndvOps, histOps, agg, incoming).numNulls == Wrap(agg.numNulls + SumNulls(incoming))
  {
    if incoming != [] {
      var next := MergedStats(ndvOps, histOps, agg, incoming[0]);
      FoldNullCountIsWrappedSum(ndvOps, histOps, next, incoming[1..]);
      WrapOfWrapPlus(agg.numNulls + incoming[0].numNulls, SumNulls(incoming[1..]));
    }
  }

  /** When the grand total fits in a `long`, the folded null count is exactly that total. */
  lemma FoldNullCountIsSum<E, H>(ndvOps: NdvOps<E>, histOps: HistOps<H>, agg: LongStats<E, H>, incoming: seq<LongStats<E, H>>)
    requires MinLong <= agg.numNulls + SumNulls(incoming) <= MaxLong
    ensures Fold(ndvOps, histOps, agg, incoming).numNulls == agg.numNulls + SumNulls(incoming)
  {
    FoldNullCountIsWrappedSum(ndvOps, histOps, agg, incoming);
  }

  /**
   An aggregate that starts without an NDV sketch never gains one, and its distinct-value count
   ends as the largest count among all the records.
   */
  lemma {:induction false} FoldWithoutSketchTakesMaxNumDVs<E, H>(ndvOps: NdvOps<E>, histOps: HistOps<H>, agg: LongStats<E, H>, incoming: seq<LongStats<E, H>>)
    decreases |incoming|
    requires agg.ndvEstimator.None?
    ensures var r := Fold(ndvOps, histOps, agg, incoming);
      && r.ndvEstimator.None?
      && r.numDVs >= agg.numDVs
      && (forall i :: 0 <= i < |incoming| ==> r.numDVs >= incoming[i].numDVs)
      && (r.numDVs == agg.numDVs || exists i :: 0 <= i < |incoming| && r.numDVs == incoming[i].numDVs)
  {
    if incoming != [] {
      var next := MergedStats(ndvOps, histOps, agg, incoming[0]);
      var rest := incoming[1..];
      FoldWithoutSketchTakesMaxNumDVs(ndvOps, histOps, next, rest);
      var r := Fold(ndvOps, histOps, agg, incoming);
      assert r == Fold(ndvOps, histOps, next, rest);
      forall i | 1 <= i < |incoming| ensures incoming[i] == rest[i - 1] { }
      if r.numDVs != next.numDVs {
        var j :| 0 <= j < |rest| && r.numDVs == rest[j].numDVs;
        assert r.numDVs == incoming[j + 1].numDVs;
      }
    }
  }
}
