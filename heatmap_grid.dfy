/**
 * The logic of src/components/HeatmapGrid.tsx: which pair a click on the
 * canvas selects, and which fill and border each pair gets on the overlay.
 * Click coordinates arrive already scaled to image pixels; the image loading
 * and the drawing itself belong to the browser.
 */
module HeatmapGrid {
  import opened Wrappers
  import opened ContrastUtils

  /** A point lies in a rectangle, all four edges included. */
  predicate Contains(r: Rect, x: real, y: real) {
    r.x <= x <= r.x + r.width && r.y <= y <= r.y + r.height
  }

  /** The pair at index `i` is the first one, in list order, whose rectangle holds the point. */
  predicate FirstHitAt(pairs: seq<ColorPair>, x: real, y: real, i: nat) {
    i < |pairs| && Contains(pairs[i].location, x, y)
    && forall j :: 0 <= j < i ==> !Contains(pairs[j].location, x, y)
  }

  /**
   * `colorPairs.find(...)` with the rectangle test: the index of the first
   * pair whose rectangle holds the point, or `None` when no rectangle does.
   */
  function FindPairIndexAt(pairs: seq<ColorPair>, x: real, y: real): (found: Option<nat>)
    ensures found.Some? ==> FirstHitAt(pairs, x, y, found.value)
    ensures found.None? <==> forall i :: 0 <= i < |pairs| ==> !Contains(pairs[i].location, x, y)
  {
    if pairs == [] then None
    else if Contains(pairs[0].location, x, y) then Some(0)
    else
      var rest := FindPairIndexAt(pairs[1..], x, y);
      assert forall i :: 1 <= i < |pairs| ==> pairs[i] == pairs[1..][i - 1];
      if rest.None? then None else Some(rest.value + 1)
  }

  /**
   * `handleCanvasClick`: the pair handed to `onSelectArea`, or `None` when
   * the handler is not called, which happens when the canvas is not mounted,
   * when no handler was passed, or when no rectangle holds the point.
   */
  function HandleCanvasClick(mounted: bool, hasHandler: bool, pairs: seq<ColorPair>, x: real, y: real)
    : (selected: Option<ColorPair>)
    ensures !mounted || !hasHandler ==> selected.None?
    ensures selected.Some? ==> exists i: nat :: FirstHitAt(pairs, x, y, i) && pairs[i] == selected.value
    ensures mounted && hasHandler && (exists i :: 0 <= i < |pairs| && Contains(pairs[i].location, x, y))
            ==> selected.Some?
  {
    if !mounted || !hasHandler then None
    else
      match FindPairIndexAt(pairs, x, y)
      case None => None
      case Some(i) => Some(pairs[i])
  }

  /** One canvas call of the overlay. */
  datatype CanvasOp =
    | FillRect(fillStyle: string, rect: Rect)
    | StrokeRect(strokeStyle: string, lineWidth: nat, rect: Rect)

  const BorderStyle := "rgba(255, 255, 255, 0.5)"

  /**
   * The `forEach` that draws the overlay once the image has loaded: for each
   * pair, in list order, a fill of exactly its rectangle in its heatmap
   * colour, then a one-pixel border around the same rectangle.
   */
  method DrawOverlay(pairs: seq<ColorPair>) returns (ops: seq<CanvasOp>)
    ensures |ops| == 2 * |pairs|
    ensures forall i :: 0 <= i < |pairs| ==>
      ops[2 * i] == FillRect(HeatmapColor(pairs[i].ratio), pairs[i].location)
      && ops[2 * i + 1] == StrokeRect(BorderStyle, 1, pairs[i].location)
  {
    ops := [];
    for k := 0 to |pairs|
      invariant |ops| == 2 * k
      invariant forall i :: 0 <= i < k ==>
        ops[2 * i] == FillRect(HeatmapColor(pairs[i].ratio), pairs[i].location)
        && ops[2 * i + 1] == StrokeRect(BorderStyle, 1, pairs[i].location)
    {
      var r := pairs[k].location;
      ops := ops + [FillRect(HeatmapColor(pairs[k].ratio), r), StrokeRect(BorderStyle, 1, r)];
    }
  }
}
