/**
 * The page component of src/components/ContrastChecker.tsx: the four pieces
 * of state it keeps (`isLoading`, `error`, `result`, `selectedPair`) and the
 * two handlers that change them. The collaborators are the models of
 * chromeUtils and contrastUtils; what they cannot decide on their own (how
 * `encodeURIComponent` encodes, the time stamp, whether fetching the pairs
 * fails) comes in as parameters. Toasts and console output are left out.
 */
module ContrastCheckerView {
  import opened Wrappers
  import opened ContrastUtils
  import opened ChromeUtils
  import HeatmapGrid

  const NotAccessibleError := "The website is not accessible"
  const AnalyzeFailedError := "Failed to analyze the website"

  /** A collaborator the submit handler awaits, in the order it does. */
  datatype Step = CheckAccess | CaptureShot | Analyze

  class ContrastChecker {
    var isLoading: bool
    var error: Option<string>
    var result: Option<AnalysisResult>
    var selectedPair: Option<ColorPair>

    /**
     * A shown result carries the summary of its own pairs, and a selected
     * pair belongs to the shown result.
     */
    predicate Valid()
      reads this
    {
      && (result.Some? ==> ResultConsistent(result.value))
      && (selectedPair.Some? ==> result.Some? && selectedPair.value in result.value.colorPairs)
    }

    constructor ()
      ensures !isLoading && error.None? && result.None? && selectedPair.None?
      ensures Valid()
    {
      isLoading := false;
      error := None;
      result := None;
      selectedPair := None;
    }

    /** What every submission does first: loading, with no error, result or selection. */
    method BeginSubmission()
      modifies this
      ensures isLoading && error.None? && result.None? && selectedPair.None?
    {
      isLoading := true;
      error := None;
      result := None;
      selectedPair := None;
    }

    /**
     * `handleUrlSubmit`. An unreachable site stops after the reachability
     * check with its own error. Otherwise the screenshot is taken and the
     * pairs analysed; a failure there becomes the one error "Failed to analyze
     * the website" and no result, success shows the analysis and selects its
     * first pair when there is one. Loading ends on every path. `steps` lists
     * the collaborators called.
     */
    method HandleUrlSubmit(url: string, encode: string -> string, timestamp: string, fetched: Result<seq<ColorPair>>)
      returns (steps: seq<Step>)
      modifies this
      ensures !isLoading
      ensures Valid()
      ensures error.Some? <==> result.None?
      ensures !IsUrlAccessible(url) ==>
        steps == [CheckAccess] && error == Some(NotAccessibleError) && selectedPair.None?
      ensures IsUrlAccessible(url) ==> steps == [CheckAccess, CaptureShot, Analyze]
      ensures IsUrlAccessible(url) && fetched.Err? ==> error == Some(AnalyzeFailedError) && selectedPair.None?
      ensures IsUrlAccessible(url) && fetched.Ok? ==>
        && result == Some(AnalysisResult(url, CaptureScreenshot(url, encode), timestamp, fetched.value, SummaryOf(fetched.value)))
        && selectedPair == (if |fetched.value| > 0 then Some(fetched.value[0]) else None)
    {
      BeginSubmission();
      steps := [CheckAccess];
      if !IsUrlAccessible(url) {
        error := Some(NotAccessibleError);
        isLoading := false;
        return;
      }
      var screenshot := CaptureScreenshot(url, encode);
      steps := steps + [CaptureShot];
      var analysis := AnalyzeScreenshot(url, screenshot, timestamp, fetched);
      steps := steps + [Analyze];
      match analysis {
        case Err(_) =>
          error := Some(AnalyzeFailedError);
        case Ok(r) =>
          result := Some(r);
          if |r.colorPairs| > 0 {
            selectedPair := Some(r.colorPairs[0]);
          }
      }
      isLoading := false;
    }

    /** `handleAreaSelect`: the given pair becomes the selection; no other field is touched. */
    method HandleAreaSelect(pair: ColorPair)
      modifies this`selectedPair
      ensures selectedPair == Some(pair)
    {
      selectedPair := Some(pair);
    }

    /**
     * A click on the heatmap of the shown result, with `handleAreaSelect` as
     * its handler: the first pair whose rectangle holds the point becomes the
     * selection, and a click outside every rectangle keeps the old one. The
     * selection stays a pair of the result.
     */
    method ClickHeatmap(x: real, y: real)
      requires result.Some? && Valid()
      modifies this`selectedPair
      ensures Valid()
      ensures
        var hit := HeatmapGrid.HandleCanvasClick(true, true, result.value.colorPairs, x, y);
        selectedPair == if hit.Some? then hit else old(selectedPair)
    {
      var hit := HeatmapGrid.HandleCanvasClick(true, true, result.value.colorPairs, x, y);
      if hit.Some? {
        HandleAreaSelect(hit.value);
      }
    }
  }
}
