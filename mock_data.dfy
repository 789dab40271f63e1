/**
 * The fixture of supabase/functions/analyze-contrast/mockData.ts: five
 * colour pairs with stored ratios and flags, and the lookup that returns
 * them for any URL. The ratios are literals; they are not computed from the
 * colour strings, and the model does not equate them with ContrastRatio.
 */
module MockData {
  import opened ContrastUtils

  const DefaultPairs: seq<ColorPair> := [
    ColorPair("#FFFFFF", "#121212", 16.23, Passes(true, true, true, true), Rect(20.0, 30.0, 100.0, 50.0)),
    ColorPair("#FFD700", "#000000", 12.5, Passes(true, true, true, true), Rect(150.0, 80.0, 120.0, 40.0)),
    ColorPair("#CCCCCC", "#767676", 3.2, Passes(false, true, false, true), Rect(40.0, 150.0, 200.0, 30.0)),
    ColorPair("#336699", "#FFFFFF", 2.1, Passes(false, false, false, false), Rect(300.0, 220.0, 150.0, 60.0)),
    ColorPair("#FF0000", "#FFFFFF", 4.3, Passes(false, true, false, false), Rect(100.0, 300.0, 80.0, 40.0))
  ]

  /** `getColorPairsForUrl`: the argument is ignored and the default list comes back, five pairs in a fixed order. */
  function GetColorPairsForUrl(url: string): (pairs: seq<ColorPair>)
    ensures |pairs| == 5
    ensures pairs[0].foreground == "#FFFFFF" && pairs[4].foreground == "#FF0000"
  {
    DefaultPairs
  }

  /** The lookup ignores the URL: any two URLs get the same pairs. */
  lemma GetColorPairsForUrlIgnoresUrl(u1: string, u2: string)
    ensures GetColorPairsForUrl(u1) == GetColorPairsForUrl(u2)
  {
  }

  /** Every pair of the fixture lies at non-negative coordinates and has a positive size. */
  lemma FixtureLocationsWellFormed()
    ensures forall p :: p in DefaultPairs ==>
      p.location.x >= 0.0 && p.location.y >= 0.0 && p.location.width > 0.0 && p.location.height > 0.0
  {
  }

  /**
   * The stored flags agree with the stored ratio for the first, second,
   * fourth and fifth pair; the third (ratio 3.2) claims AAA for large text,
   * which needs 4.5.
   */
  lemma FixtureFlagsAgainstRatios()
    ensures forall i :: i in {0, 1, 3, 4} ==> DefaultPairs[i].passes == CheckWcagCompliance(DefaultPairs[i].ratio)
    ensures DefaultPairs[2].passes != CheckWcagCompliance(DefaultPairs[2].ratio)
    ensures DefaultPairs[2].passes.aaaLarge && DefaultPairs[2].ratio < MinimumRatio(AAALarge)
  {
  }

  /** Summarising the fixture gives total 5, passing 2/4/2/3 and failing 3/1/3/2 for AA/AA large/AAA/AAA large. */
  lemma FixtureSummary()
    ensures SummaryOf(DefaultPairs) == Summary(5, LevelCounts(2, 4, 2, 3), LevelCounts(3, 1, 3, 2))
  {
    var d := DefaultPairs;
    assert d[..1][..0] == [] && d[..2][..1] == d[..1] && d[..3][..2] == d[..2];
    assert d[..4][..3] == d[..3] && d[..4] == d[..|d| - 1];
    assert CountsWhere(d[..1], true) == LevelCounts(1, 1, 1, 1);
    assert CountsWhere(d[..1], false) == LevelCounts(0, 0, 0, 0);
    assert CountsWhere(d[..2], true) == LevelCounts(2, 2, 2, 2);
    assert CountsWhere(d[..2], false) == LevelCounts(0, 0, 0, 0);
    assert CountsWhere(d[..3], true) == LevelCounts(2, 3, 2, 3);
    assert CountsWhere(d[..3], false) == LevelCounts(1, 0, 1, 0);
    assert CountsWhere(d[..4], true) == LevelCounts(2, 3, 2, 3);
    assert CountsWhere(d[..4], false) == LevelCounts(2, 1, 2, 1);
    assert CountsWhere(d, true) == LevelCounts(2, 4, 2, 3);
    assert CountsWhere(d, false) == LevelCounts(3, 1, 3, 2);
  }

  /**
   * The end-to-end example of two pairs, white on near-black and blue on
   * white: one pass and one fail at every level.
   */
  lemma TwoPairExampleSummary()
    ensures SummaryOf([DefaultPairs[0], DefaultPairs[3]]) == Summary(2, LevelCounts(1, 1, 1, 1), LevelCounts(1, 1, 1, 1))
  {
    var d := [DefaultPairs[0], DefaultPairs[3]];
    assert d[..1] == [DefaultPairs[0]] && d[..1][..0] == [] && d[..|d| - 1] == d[..1];
    assert CountsWhere(d[..1], true) == LevelCounts(1, 1, 1, 1);
    assert CountsWhere(d[..1], false) == LevelCounts(0, 0, 0, 0);
  }
}
