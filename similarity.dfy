/** The similarity manager (GMSimilarityManager): the selected files and the
    `compute` dispatch between measuring them and clearing the measures. The
    NCD measurement itself (GMSimilarity.createMeasures, compression, file
    reading) is not part of this model: its outcome is a parameter. */
module Similarity {
  import opened Wrappers
  import opened MetricStore
  import opened FileStore

  class SimilarityManager {
    /** The store of the similarity metric the manager drives. */
    const metric: Metric
    var selectedFiles: Option<seq<Path>>
    /** The file lists createMeasures has been called with, in order. */
    ghost var measured: seq<seq<Path>>

    constructor (metricName: string)
      ensures fresh(metric) && metric.Valid() && metric.name == metricName && metric.store == []
      ensures selectedFiles == None && measured == []
    {
      metric := new Metric(metricName);
      selectedFiles := None;
      measured := [];
    }

    function GetSelectedFiles(): (r: Option<seq<Path>>)
      reads this
      ensures r == selectedFiles
    {
      selectedFiles
    }

    /** setSelectedFiles: a later getSelectedFiles returns exactly this list. */
    method SetSelectedFiles(files: Option<seq<Path>>)
      modifies this
      ensures GetSelectedFiles() == files
      ensures measured == old(measured) && unchanged(metric)
    {
      selectedFiles := files;
    }

    /** hasSelectedFiles: the list is present and holds at least one file. */
    function HasSelectedFiles(): (b: bool)
      reads this
      ensures b <==> exists f :: selectedFiles.Some? && f in selectedFiles.value
    {
      assert selectedFiles.Some? && selectedFiles.value != [] ==> selectedFiles.value[0] in selectedFiles.value;
      selectedFiles.Some? && selectedFiles.value != []
    }

    /** clearMeasures: the metric's store becomes empty. */
    method ClearMeasures()
      requires metric.Valid()
      modifies metric
      ensures metric.Valid() && metric.store == [] && metric.initialized == old(metric.initialized)
    {
      metric.ClearMetrics();
    }

    /** createMeasures: on success the store is replaced by the measured values;
        a failure is thrown to the caller and leaves the store as it was. */
    method CreateMeasures(files: seq<Path>, measures: Result<seq<MetricValue>, string>) returns (error: Option<string>)
      requires metric.Valid()
      modifies this`measured, metric
      ensures metric.Valid() && metric.initialized == old(metric.initialized)
      ensures measured == old(measured) + [files]
      ensures measures.Ok? ==> error.None? && metric.store == PutAll([], measures.value)
      ensures measures.Err? ==> error == Some(measures.error) && metric.store == old(metric.store)
    {
      measured := measured + [files];
      if measures.Err? {
        return Some(measures.error);
      }
      metric.ClearMetrics();
      StoreMeasures(measures.value);
      error := None;
    }

    /** Put every measured value into the (cleared) store, in order. */
    method StoreMeasures(vs: seq<MetricValue>)
      requires metric.Valid() && metric.store == []
      modifies metric
      ensures metric.Valid() && metric.initialized == old(metric.initialized)
      ensures metric.store == PutAll([], vs)
    {
      var i := 0;
      while i < |vs|
        invariant 0 <= i <= |vs|
        invariant metric.Valid() && metric.initialized == old(metric.initialized)
        invariant metric.store == PutAll([], vs[..i])
      {
        var v := vs[i];
        ghost var done := vs[..i];
        PutAllSnoc([], done, v);
        assert vs[..i + 1] == done + [v];
        assert MetricValue(v.key, v.value) == v;
        metric.CreateMetricValue(v.key, v.value);
        assert metric.store == Put(PutAll([], done), v);
        i := i + 1;
      }
      assert vs[..i] == vs;
    }

    /** compute: with selected files, measure them and report (not propagate) a
        failure; without, clear the measures and measure nothing. The selected
        files never change. */
    method Compute(createMeasures: seq<Path> -> Result<seq<MetricValue>, string>) returns (reported: Option<string>)
      requires metric.Valid()
      modifies this, metric
      ensures metric.Valid() && selectedFiles == old(selectedFiles)
      ensures metric.initialized == old(metric.initialized)
      ensures !old(HasSelectedFiles()) ==> metric.store == [] && measured == old(measured) && reported.None?
      ensures old(HasSelectedFiles()) ==>
                var outcome := createMeasures(selectedFiles.value);
                && measured == old(measured) + [selectedFiles.value]
                && (outcome.Ok? ==> reported.None? && metric.store == PutAll([], outcome.value))
                && (outcome.Err? ==> reported == Some(outcome.error) && metric.store == old(metric.store))
    {
      if HasSelectedFiles() {
        reported := CreateMeasures(selectedFiles.value, createMeasures(selectedFiles.value));
      } else {
        ClearMeasures();
        reported := None;
      }
    }
  }
}
