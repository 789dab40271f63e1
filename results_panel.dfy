/**
 * The data the report panel of src/components/ResultsPanel.tsx derives from
 * an analysis result: the two pass rates, the pairs sorted by ratio, the
 * first five of them or all, the show-more control, and the clipboard list.
 * Layout, icons and text formatting (`toFixed`, `toLocaleString`) are left
 * to the browser.
 */
module ResultsPanel {
  import opened Wrappers
  import opened ContrastUtils

  // ---------------------------------------------------------------------------
  // Pass rates

  /** JavaScript's `Math.round`: the nearest integer, halves rounded up. */
  function JsRound(x: real): int {
    (x + 0.5).Floor
  }

  /**
   * `Math.round((passing / total) * 100)`. `None` stands for NaN, the value
   * of 0 / 0 for an empty analysis. Otherwise the rate is the integer
   * percentage rounded half up, which lies in [0, 100].
   */
  function PassRate(passing: nat, total: nat): (rate: Option<int>)
    requires passing <= total
    ensures rate.None? <==> total == 0
    ensures rate.Some? ==> 0 <= rate.value <= 100
    ensures rate.Some? ==> rate.value == (200 * passing + total) / (2 * total)
  {
    if total == 0 then None
    else
      RoundedRate(passing, total);
      Some(JsRound(passing as real / total as real * 100.0))
  }

  lemma RoundedRate(p: nat, t: nat)
    requires 0 < t && p <= t
    ensures JsRound(p as real / t as real * 100.0) == (200 * p + t) / (2 * t)
    ensures 0 <= (200 * p + t) / (2 * t) <= 100
  {
    var n, d := 200 * p + t, 2 * t;
    HalfUpAsQuotient(p as real, t as real);
    assert n as real == 200.0 * (p as real) + t as real;
    FloorOfQuotient(n, d);
    QuotientBelow(n, d, 101);
  }

  lemma HalfUpAsQuotient(p: real, t: real)
    requires t > 0.0
    ensures p / t * 100.0 + 0.5 == (200.0 * p + t) / (2.0 * t)
  {
    var lhs := p / t * 100.0 + 0.5;
    var rhs := (200.0 * p + t) / (2.0 * t);
    assert (p / t) * t == p;
    assert lhs * (2.0 * t) == 200.0 * p + t;
    assert rhs * (2.0 * t) == 200.0 * p + t;
    ZeroFactor(lhs - rhs, 2.0 * t);
  }

  lemma ZeroFactor(a: real, d: real)
    requires d > 0.0 && a * d == 0.0
    ensures a == 0.0
  {
  }

  /** The floor of a real quotient of integers is their integer quotient. */
  lemma FloorOfQuotient(n: int, d: int)
    requires d > 0
    ensures (n as real / d as real).Floor == n / d
  {
    var q := n / d;
    var v := n as real / d as real;
    assert v * d as real == n as real;
    assert (q as real) * (d as real) <= n as real;
    assert ((q + 1) as real) * (d as real) > n as real;
    LowerQuotient(q as real, v, d as real);
    UpperQuotient((q + 1) as real, v, d as real);
  }

  lemma LowerQuotient(q: real, v: real, d: real)
    requires d > 0.0 && q * d <= v * d
    ensures q <= v
  {
    assert (v - q) * d >= 0.0;
  }

  lemma UpperQuotient(q: real, v: real, d: real)
    requires d > 0.0 && q * d > v * d
    ensures v < q
  {
    assert (q - v) * d > 0.0;
  }

  lemma QuotientBelow(n: int, d: int, k: int)
    requires d > 0 && 0 <= n < k * d
    ensures n / d < k
  {
    var q := n / d;
    assert q * d <= n;
    assert (k - q) * d > 0;
  }

  // ---------------------------------------------------------------------------
  // Sorting by ratio

  /** Highest ratio first. */
  predicate ByRatioDescending(s: seq<ColorPair>) {
    forall i, j :: 0 <= i < j < |s| ==> s[i].ratio >= s[j].ratio
  }

  /**
   * `[...colorPairs].sort((a, b) => b.ratio - a.ratio)`: a fresh copy of the
   * list, sorted in place by non-increasing ratio. The caller's list is a
   * value here, so it is not reordered.
   */
  method SortByRatioDescending(pairs: seq<ColorPair>) returns (sorted: seq<ColorPair>)
    ensures ByRatioDescending(sorted)
    ensures multiset(sorted) == multiset(pairs)
  {
    if |pairs| == 0 {
      return [];
    }
    var copy := new ColorPair[|pairs|](i requires 0 <= i < |pairs| => pairs[i]);
    assert copy[..] == pairs;
    SortInPlace(copy);
    sorted := copy[..];
  }

  /** An insertion sort of the array by non-increasing ratio. */
  method SortInPlace(a: array<ColorPair>)
    modifies a
    ensures ByRatioDescending(a[..])
    ensures multiset(a[..]) == old(multiset(a[..]))
  {
    for i := 0 to a.Length
      invariant ByRatioDescending(a[..i])
      invariant multiset(a[..]) == old(multiset(a[..]))
    {
      var j := i;
      while j > 0 && a[j - 1].ratio < a[j].ratio
        invariant 0 <= j <= i
        invariant multiset(a[..]) == old(multiset(a[..]))
        invariant forall p, q :: 0 <= p < q <= i && p != j && q != j ==> a[p].ratio >= a[q].ratio
        invariant forall q :: j < q <= i ==> a[j].ratio > a[q].ratio
      {
        SwapDown(a, j);
        j := j - 1;
      }
    }
  }

  /** Exchanges `a[j - 1]` and `a[j]`, keeping the elements. */
  method SwapDown(a: array<ColorPair>, j: nat)
    requires 0 < j < a.Length
    modifies a
    ensures a[..] == old(a[..])[j - 1 := old(a[j])][j := old(a[j - 1])]
    ensures multiset(a[..]) == old(multiset(a[..]))
  {
    a[j - 1], a[j] := a[j], a[j - 1];
  }

  // ---------------------------------------------------------------------------
  // What is shown

  const InitialPairsCount: nat := 5

  /** `displayPairs`: all sorted pairs when expanded, otherwise the first five (or fewer). */
  function DisplayPairs(sorted: seq<ColorPair>, expanded: bool): (shown: seq<ColorPair>)
    ensures shown <= sorted
    ensures |shown| == if expanded || |sorted| <= InitialPairsCount then |sorted| else InitialPairsCount
  {
    if expanded then sorted else sorted[..if |sorted| < InitialPairsCount then |sorted| else InitialPairsCount]
  }

  /** The control under the list: absent, "Show Less", or "Show n More". */
  datatype ExpandControl = NoControl | ShowLess | ShowMore(count: nat)

  /**
   * The control appears exactly when there are more than five pairs; while
   * collapsed it offers the number of pairs that are not shown.
   */
  function ExpandControlFor(sorted: seq<ColorPair>, expanded: bool): (control: ExpandControl)
    ensures control.NoControl? <==> |sorted| <= InitialPairsCount
    ensures control.ShowMore? ==> !expanded && control.count == |sorted| - |DisplayPairs(sorted, false)| > 0
    ensures control.ShowLess? ==> expanded && DisplayPairs(sorted, expanded) == sorted
  {
    if |sorted| <= InitialPairsCount then NoControl
    else if expanded then ShowLess
    else ShowMore(|sorted| - InitialPairsCount)
  }

  /** What the clipboard text says about one pair. */
  datatype ClipboardLine = ClipboardLine(foreground: string, background: string, ratio: real, aa: bool, aaa: bool)

  /** The pairs section of the clipboard text: one entry per pair, in the analysis's own order. */
  function ClipboardLines(pairs: seq<ColorPair>): (lines: seq<ClipboardLine>)
    ensures |lines| == |pairs|
    ensures forall i :: 0 <= i < |pairs| ==>
      lines[i] == ClipboardLine(pairs[i].foreground, pairs[i].background, pairs[i].ratio, pairs[i].passes.aa, pairs[i].passes.aaa)
  {
    if pairs == [] then []
    else
      var p := pairs[0];
      [ClipboardLine(p.foreground, p.background, p.ratio, p.passes.aa, p.passes.aaa)] + ClipboardLines(pairs[1..])
  }

  /** Everything the panel derives from one result. */
  datatype PanelView = PanelView(
    passRateAA: Option<int>,
    passRateAAA: Option<int>,
    sortedPairs: seq<ColorPair>,
    displayPairs: seq<ColorPair>,
    control: ExpandControl,
    clipboard: seq<ClipboardLine>)

  /** The component with its one piece of state, whether the list is expanded. */
  class ResultsPanel {
    var expanded: bool

    constructor ()
      ensures !expanded
    {
      expanded := false;
    }

    /** Clicking the show-more/show-less control flips `expanded`. */
    method ToggleExpanded()
      modifies this
      ensures expanded == !old(expanded)
    {
      expanded := !expanded;
    }

    /**
     * The panel for a result: nothing without one; otherwise the pass rates of
     * its summary, its pairs sorted by ratio with the first five or all of
     * them shown, the control, and the clipboard list in the original order.
     */
    method Render(result: Option<AnalysisResult>) returns (view: Option<PanelView>)
      requires result.Some? ==> ResultConsistent(result.value)
      ensures view.None? <==> result.None?
      ensures view.Some? ==>
        var r, v := result.value, view.value;
        && v.passRateAA == PassRate(r.summary.passing.aa, r.summary.total)
        && v.passRateAAA == PassRate(r.summary.passing.aaa, r.summary.total)
        && ByRatioDescending(v.sortedPairs)
        && multiset(v.sortedPairs) == multiset(r.colorPairs)
        && v.displayPairs == DisplayPairs(v.sortedPairs, expanded)
        && v.control == ExpandControlFor(v.sortedPairs, expanded)
        && v.clipboard == ClipboardLines(r.colorPairs)
    {
      if result.None? {
        return None;
      }
      var r := result.value;
      assert r.summary.passing.Get(AA) + r.summary.failing.Get(AA) == r.summary.total;
      assert r.summary.passing.Get(AAA) + r.summary.failing.Get(AAA) == r.summary.total;
      var sorted := SortByRatioDescending(r.colorPairs);
      view := Some(PanelView(
        PassRate(r.summary.passing.aa, r.summary.total),
        PassRate(r.summary.passing.aaa, r.summary.total),
        sorted,
        DisplayPairs(sorted, expanded),
        ExpandControlFor(sorted, expanded),
        ClipboardLines(r.colorPairs)));
    }
  }

  /** Sorting keeps the number of pairs, so the control offers exactly the pairs a collapsed list hides. */
  lemma HiddenPairsOffered(pairs: seq<ColorPair>, sorted: seq<ColorPair>)
    requires multiset(sorted) == multiset(pairs)
    requires |pairs| > InitialPairsCount
    ensures ExpandControlFor(sorted, false) == ShowMore(|pairs| - InitialPairsCount)
    ensures |DisplayPairs(sorted, false)| == InitialPairsCount
  {
    assert |sorted| == |multiset(sorted)| == |multiset(pairs)| == |pairs|;
  }
}
