/**
 * WCAG compliance, heatmap buckets and the analysis summary
 * (`checkWcagCompliance`, `getHeatmapColor` and `analyzeScreenshot` in
 * src/utils/contrastUtils.ts).
 */
module ContrastUtils {
  import opened Wrappers

  // ---------------------------------------------------------------------------
  // Data model

  /** The four WCAG 2.1 conformance checks the program reports. */
  datatype Level = AA | AALarge | AAA | AAALarge

  /** The pass flags of one colour pair, one per level. */
  datatype Passes = Passes(aa: bool, aaLarge: bool, aaa: bool, aaaLarge: bool) {
    function Get(level: Level): bool {
      match level
      case AA => aa
      case AALarge => aaLarge
      case AAA => aaa
      case AAALarge => aaaLarge
    }
  }

  /** A region of the screenshot, in image pixels. */
  datatype Rect = Rect(x: real, y: real, width: real, height: real)

  /**
   * One measured region: its two colours as strings, its contrast ratio, the
   * pass flags and where it lies. The program stores `ratio` and `passes` as
   * given by whoever built the pair; nothing ties them together.
   */
  datatype ColorPair = ColorPair(foreground: string, background: string, ratio: real, passes: Passes, location: Rect)

  /** Per-level counters of the summary. */
  datatype LevelCounts = LevelCounts(aa: nat, aaLarge: nat, aaa: nat, aaaLarge: nat) {
    function Get(level: Level): nat {
      match level
      case AA => aa
      case AALarge => aaLarge
      case AAA => aaa
      case AAALarge => aaaLarge
    }
  }

  const NoCounts := LevelCounts(0, 0, 0, 0)

  datatype Summary = Summary(total: nat, passing: LevelCounts, failing: LevelCounts)

  datatype AnalysisResult = AnalysisResult(
    url: string,
    screenshot: string,
    timestamp: string,
    colorPairs: seq<ColorPair>,
    summary: Summary)

  // ---------------------------------------------------------------------------
  // Compliance

  /**
   * The minimum contrast ratio of each check: Success Criterion 1.4.3 of
   * WCAG 2.1 (Contrast, Minimum) asks for 4.5, or 3 for large text, and
   * Success Criterion 1.4.6 (Contrast, Enhanced) for 7, or 4.5 for large text.
   */
  function MinimumRatio(level: Level): real {
    match level
    case AA => 4.5
    case AALarge => 3.0
    case AAA => 7.0
    case AAALarge => 4.5
  }

  /**
   * `checkWcagCompliance`: AA and AAA large text share one threshold, and
   * the enhanced check implies the minimum one, which implies the large-text one.
   */
  function CheckWcagCompliance(ratio: real): (p: Passes)
    ensures p.aa == p.aaaLarge
    ensures p.aaa ==> p.aa
    ensures p.aa ==> p.aaLarge
  {
    Passes(ratio >= 4.5, ratio >= 3.0, ratio >= 7.0, ratio >= 4.5)
  }

  /** Each flag holds exactly when the ratio reaches its level's minimum, the boundary included. */
  lemma CheckWcagComplianceThresholds(ratio: real, level: Level)
    ensures CheckWcagCompliance(ratio).Get(level) <==> ratio >= MinimumRatio(level)
  {
  }

  /** Each flag is monotone in the ratio: raising the contrast never loses a pass. */
  lemma CheckWcagComplianceMonotone(r1: real, r2: real, level: Level)
    requires r1 <= r2
    ensures CheckWcagCompliance(r1).Get(level) ==> CheckWcagCompliance(r2).Get(level)
  {
    CheckWcagComplianceThresholds(r1, level);
    CheckWcagComplianceThresholds(r2, level);
  }

  // ---------------------------------------------------------------------------
  // Heatmap colours

  const StrongPassFill := "rgba(74, 222, 128, 0.8)"
  const PassFill := "rgba(74, 222, 128, 0.5)"
  const LargeTextPassFill := "rgba(250, 204, 21, 0.7)"
  const FailFill := "rgba(248, 113, 113, 0.7)"

  /**
   * `getHeatmapColor`: the first of 7, 4.5 and 3 that the ratio reaches picks
   * the bucket, so the buckets line up with the compliance flags.
   */
  function HeatmapColor(ratio: real): (fill: string)
    ensures var p := CheckWcagCompliance(ratio);
      && (fill == StrongPassFill <==> p.aaa)
      && (fill == PassFill <==> p.aa && !p.aaa)
      && (fill == LargeTextPassFill <==> p.aaLarge && !p.aa)
      && (fill == FailFill <==> !p.aaLarge)
  {
    if ratio >= 7.0 then StrongPassFill
    else if ratio >= 4.5 then PassFill
    else if ratio >= 3.0 then LargeTextPassFill
    else FailFill
  }

  // ---------------------------------------------------------------------------
  // The summary

  /** The number of pairs whose flag at `level` equals `outcome`. */
  function CountWhere(pairs: seq<ColorPair>, level: Level, outcome: bool): (n: nat)
    ensures n <= |pairs|
  {
    if pairs == [] then 0
    else CountWhere(pairs[..|pairs| - 1], level, outcome) + (if pairs[|pairs| - 1].passes.Get(level) == outcome then 1 else 0)
  }

  function CountsWhere(pairs: seq<ColorPair>, outcome: bool): LevelCounts {
    LevelCounts(CountWhere(pairs, AA, outcome), CountWhere(pairs, AALarge, outcome),
                CountWhere(pairs, AAA, outcome), CountWhere(pairs, AAALarge, outcome))
  }

  /**
   * The summary a list of pairs should get: the total, and per level how many
   * pairs pass and how many fail. Every pair is counted once on each level.
   */
  function SummaryOf(pairs: seq<ColorPair>): (s: Summary)
    ensures s.total == |pairs|
    ensures forall level :: s.passing.Get(level) + s.failing.Get(level) == s.total
    ensures pairs == [] ==> s == Summary(0, NoCounts, NoCounts)
  {
    forall level ensures CountWhere(pairs, level, true) + CountWhere(pairs, level, false) == |pairs| {
      PassingPlusFailing(pairs, level);
    }
    Summary(|pairs|, CountsWhere(pairs, true), CountsWhere(pairs, false))
  }

  /** Every pair either passes or fails a level. */
  lemma {:induction false} PassingPlusFailing(pairs: seq<ColorPair>, level: Level)
    ensures CountWhere(pairs, level, true) + CountWhere(pairs, level, false) == |pairs|
  {
    if pairs != [] {
      PassingPlusFailing(pairs[..|pairs| - 1], level);
    }
  }

  lemma {:induction false} CountWhereAppend(a: seq<ColorPair>, b: seq<ColorPair>, level: Level, outcome: bool)
    ensures CountWhere(a + b, level, outcome) == CountWhere(a, level, outcome) + CountWhere(b, level, outcome)
  {
    if b == [] {
      assert a + b == a;
    } else {
      assert (a + b)[..|a + b| - 1] == a + b[..|b| - 1];
      CountWhereAppend(a, b[..|b| - 1], level, outcome);
    }
  }

  /** Counting does not depend on the order of the pairs. */
  lemma {:induction false} CountWherePermutation(a: seq<ColorPair>, b: seq<ColorPair>, level: Level, outcome: bool)
    requires multiset(a) == multiset(b)
    ensures CountWhere(a, level, outcome) == CountWhere(b, level, outcome)
    decreases |a|
  {
    if a == [] {
      assert |b| == |multiset(b)| == 0;
    } else {
      var last := a[|a| - 1];
      var front := a[..|a| - 1];
      assert last in multiset(b);
      var i :| 0 <= i < |b| && b[i] == last;
      var rest := b[..i] + b[i + 1..];
      RemoveLast(a);
      RemoveAt(b, i);
      CountWherePermutation(front, rest, level, outcome);
      CountWhereRemoveAt(b, i, level, outcome);
    }
  }

  /** Taking one pair out of the list lowers the count by that pair's contribution. */
  lemma CountWhereRemoveAt(b: seq<ColorPair>, i: nat, level: Level, outcome: bool)
    requires i < |b|
    ensures CountWhere(b, level, outcome)
         == CountWhere(b[..i] + b[i + 1..], level, outcome) + (if b[i].passes.Get(level) == outcome then 1 else 0)
  {
    var x := b[i];
    assert b == (b[..i] + [x]) + b[i + 1..];
    CountWhereAppend(b[..i] + [x], b[i + 1..], level, outcome);
    CountWhereAppend(b[..i], [x], level, outcome);
    CountWhereAppend(b[..i], b[i + 1..], level, outcome);
    assert [x][..0] == [];
  }

  lemma RemoveLast<T>(a: seq<T>)
    requires a != []
    ensures multiset(a[..|a| - 1]) == multiset(a) - multiset{a[|a| - 1]}
  {
    assert a == a[..|a| - 1] + [a[|a| - 1]];
  }

  lemma RemoveAt<T>(b: seq<T>, i: nat)
    requires i < |b|
    ensures multiset(b[..i] + b[i + 1..]) == multiset(b) - multiset{b[i]}
  {
    assert b == b[..i] + [b[i]] + b[i + 1..];
  }

  /** The summary is the same for every ordering of the pairs. */
  lemma SummaryOfPermutation(a: seq<ColorPair>, b: seq<ColorPair>)
    requires multiset(a) == multiset(b)
    ensures SummaryOf(a) == SummaryOf(b)
  {
    assert |a| == |multiset(a)| == |multiset(b)| == |b|;
    forall level: Level, outcome: bool
      ensures CountWhere(a, level, outcome) == CountWhere(b, level, outcome)
    {
      CountWherePermutation(a, b, level, outcome);
    }
  }

  /**
   * The `reduce` inside `analyzeScreenshot`: one pass over the pairs that
   * bumps the total and, for each level, the passing or the failing counter.
   */
  method Summarize(pairs: seq<ColorPair>) returns (summary: Summary)
    ensures summary == SummaryOf(pairs)
  {
    var total: nat := 0;
    var passing, failing := NoCounts, NoCounts;
    for i := 0 to |pairs|
      invariant total == i
      invariant passing == CountsWhere(pairs[..i], true)
      invariant failing == CountsWhere(pairs[..i], false)
    {
      var pair := pairs[i];
      assert pairs[..i + 1][..i] == pairs[..i];
      total := total + 1;
      if pair.passes.aa { passing := passing.(aa := passing.aa + 1); }
      else { failing := failing.(aa := failing.aa + 1); }
      if pair.passes.aaLarge { passing := passing.(aaLarge := passing.aaLarge + 1); }
      else { failing := failing.(aaLarge := failing.aaLarge + 1); }
      if pair.passes.aaa { passing := passing.(aaa := passing.aaa + 1); }
      else { failing := failing.(aaa := failing.aaa + 1); }
      if pair.passes.aaaLarge { passing := passing.(aaaLarge := passing.aaaLarge + 1); }
      else { failing := failing.(aaaLarge := failing.aaaLarge + 1); }
    }
    assert pairs[..|pairs|] == pairs;
    summary := Summary(total, passing, failing);
  }

  const AnalysisFailed := "Failed to analyze screenshot"

  /** What every result of an analysis satisfies. */
  predicate ResultConsistent(result: AnalysisResult) {
    && result.summary == SummaryOf(result.colorPairs)
    && result.summary.total == |result.colorPairs|
    && forall level :: result.summary.passing.Get(level) + result.summary.failing.Get(level) == result.summary.total
  }

  /**
   * `analyzeScreenshot`, given the outcome of fetching the colour pairs and
   * the timestamp: a failure becomes the one error "Failed to analyze
   * screenshot" and no partial result; otherwise the pairs are kept as they
   * are, in their order, beside their summary.
   */
  method AnalyzeScreenshot(url: string, screenshot: string, timestamp: string, fetched: Result<seq<ColorPair>>)
    returns (res: Result<AnalysisResult>)
    ensures fetched.Err? <==> res.Err?
    ensures res.Err? ==> res.message == AnalysisFailed
    ensures res.Ok? ==> res.value == AnalysisResult(url, screenshot, timestamp, fetched.value, res.value.summary)
    ensures res.Ok? ==> ResultConsistent(res.value)
  {
    match fetched
    case Err(_) =>
      res := Err(AnalysisFailed);
    case Ok(pairs) =>
      var summary := Summarize(pairs);
      res := Ok(AnalysisResult(url, screenshot, timestamp, pairs, summary));
  }
}
