# WCAG contrast checker — Dafny model

This project models the core of a web contrast checker. The checker takes a
URL, checks that the site is reachable, takes a (placeholder) screenshot, and
gets a list of foreground/background colour pairs. It rates each pair against
the four WCAG 2.1 contrast levels: AA and AAA (Success Criteria 1.4.3 and
1.4.6), each for normal and for large text. It then summarises the pass and
fail counts, draws a heatmap over the screenshot, and lists the pairs in a
report panel.

The modules follow the program's files:

| module | file | form |
|---|---|---|
| `JsText` | the white space `parseInt` skips and `trim` removes | functions |
| `HexColor` | `hexToRgb` in src/utils/contrastUtils.ts | functions. JavaScript `parseInt(…, 16)`, `>>` and `& 255` are written out. |
| `Luminance` | `calculateLuminance` and `calculateContrastRatio` | functions over exact reals. The `Math.pow(…, 2.4)` curve is a parameter. |
| `ContrastUtils` | thresholds, heatmap colour, summary fold, `analyzeScreenshot` | functions, plus a counting loop |
| `ChromeUtils` | src/utils/chromeUtils.ts | functions |
| `MockData` | supabase/functions/analyze-contrast/mockData.ts | constant table |
| `HeatmapGrid` | src/components/HeatmapGrid.tsx | function for the click hit-test, loop for the overlay |
| `ResultsPanel` | src/components/ResultsPanel.tsx | class with the `expanded` state. The copy is sorted in place in an array. |
| `UrlForm` | src/components/UrlForm.tsx | class with the `url` and `error` state |
| `ContrastCheckerView` | src/components/ContrastChecker.tsx | class with `isLoading`, `error`, `result` and `selectedPair` |

Each module models its collaborators in one of two ways:

- **Pure collaborators are called directly.** `isUrlAccessible`, `captureScreenshot` and the summary fold are examples.
- **Everything else is a parameter.** This covers:
  - the `URL` constructor;
  - `encodeURIComponent`;
  - the 2.4 power;
  - the time stamp;
  - whether fetching the pairs fails;
  - whether `onSubmit` rejects.

### The 2.4 power

`Luminance.IsPow24(pow)` is the only thing the proofs assume about the power. It asks for four properties:

- **Monotone:** the curve is non-decreasing on [0, 1].
- **Range:** it maps [0, 1] into [0, 1].
- **Fixed point:** it gives 1 at 1.
- **Continuity with the linear segment:** at the smallest channel on the power side (channel 11), it is at least the linear value of the largest channel on the linear side (channel 10).

The true curve `x^2.4` meets all four. For channel 11, the power side is about 0.003347 and the linear side is about 0.003035.

A stronger continuity requirement does not hold for the true curve: "at least 0.03928/12.92 everywhere above the threshold" fails just above 0.03928, where the power side is about 0.0030395 and the linear side is about 0.0030402. The model therefore uses the discrete statement at the channels.

`Luminance.Pow24Satisfiable` shows that `x*x` satisfies the predicate, so the requirement can be met.

## Model

| member | source | states |
|---|---|---|
| HexColor.HexPrefixLength | src/utils/contrastUtils.ts:55 | The hex digits `parseInt` reads form the longest all-hex prefix: every character before it is a hex digit, and the character after it is not. |
| HexColor.ParseInt16 | src/utils/contrastUtils.ts:55 | `parseInt(hex, 16)` is NaN exactly when no hex digit follows the leading white space, the optional sign and the optional `0x` prefix. |
| JsText.TrimStart | src/utils/contrastUtils.ts:55 | The white space `parseInt` skips: the result is no longer than the input and does not start with white space. |
| JsText.TrimStartDropsWhitespace | src/utils/contrastUtils.ts:55 | Skipping leading white space keeps a suffix of the input and drops only white-space characters. |
| HexColor.ToInt32 | src/utils/contrastUtils.ts:56-58 | The operand of `>>` and `&` is the 32-bit two's-complement value congruent to the parsed number modulo 2^32, and NaN becomes 0. |
| HexColor.HexToRgb | src/utils/contrastUtils.ts:50-61 | `hexToRgb` always returns a colour and never null, whatever the input. |
| HexColor.EncodeByte | src/utils/contrastUtils.ts:56-58 | Two hex digits whose value is the byte. |
| HexColor.EncodeHex | src/utils/contrastUtils.ts:50-61 | Six hex digits. |
| HexColor.HexValueSix | src/utils/contrastUtils.ts:55 | The value of six hex digits is the big-endian combination of the three digit pairs. |
| HexColor.ShiftedBytesOf24 | src/utils/contrastUtils.ts:56-58 | `>> 16 & 255`, `>> 8 & 255` and `& 255` recover the three bytes of a 24-bit value. |
| HexColor.HexToRgbSixDigits | src/utils/contrastUtils.ts:50-61 | For six hex digits, with or without one leading `#`, the result is the three big-endian bytes. |
| HexColor.ParseSixDigits | src/utils/contrastUtils.ts:52-58 | For six hex digits, `parseInt` reads all six, and the shifted bytes are the digit pairs. |
| HexColor.HexRoundTrip | src/utils/contrastUtils.ts:50-61 | Encoding any colour as six hex digits, with or without `#`, and parsing it gives the colour back. |
| HexColor.NoLeadingDigitIsBlack | src/utils/contrastUtils.ts:55-60 | Input with no leading hex digit, sign or white space after the optional `#` is NaN, and it is read as black (0, 0, 0). |
| HexColor.LeadingWhitespaceSkipped | src/utils/contrastUtils.ts:52-58 | White space after the `#` is skipped by `parseInt`: "# fff" reads like "#fff", and " fff" is read as (0, 15, 255). |
| HexColor.NonHexReadAsBlack | src/utils/contrastUtils.ts:55-60 | "zzzzzz" and "#zzzzzz" are read as black. |
| HexColor.ShorthandMisread | src/utils/contrastUtils.ts:52-58 | "fff" and "#fff" are read as 0x000FFF = (0, 15, 255), not as white. |
| HexColor.ParseHexColor | src/utils/contrastUtils.ts:50-61 | Corrected parser. It succeeds exactly on six hex digits with an optional `#`, and otherwise fails with "MalformedColor". On success it agrees with `hexToRgb`. |
| HexColor.ParseHexColorRoundTrip | src/utils/contrastUtils.ts:50-61 | The corrected parser inverts the six-digit encoding and rejects "#fff" and "zzzzzz". |
| Luminance.Pow24Satisfiable | src/utils/contrastUtils.ts:79 | The assumptions on the 2.4 power can be met (by `x*x`). |
| Luminance.ChannelLinear | src/utils/contrastUtils.ts:69-80 | The linearised channel lies in [0, 1]. It is `c/255/12.92` exactly for channels 0..10 and the power branch for channels 11..255. |
| Luminance.RelativeLuminance | src/utils/contrastUtils.ts:67-84 | The luminance lies in [0, 1], because the weights 0.2126, 0.7152 and 0.0722 sum to 1. |
| Luminance.LuminanceOfBlackAndWhite | src/utils/contrastUtils.ts:67-84 | Black has luminance 0 and white has luminance 1. |
| Luminance.ChannelLinearMonotone | src/utils/contrastUtils.ts:76-80 | The channel transform is non-decreasing across the `<= 0.03928` split. |
| Luminance.LuminanceMonotone | src/utils/contrastUtils.ts:76-83 | Luminance is non-decreasing in each channel. |
| Luminance.RatioOfLuminances | src/utils/contrastUtils.ts:99-102 | `(lighter + 0.05) / (darker + 0.05)` lies in [1, 21], equals 1 exactly when the luminances are equal, and equals 21 for 1 against 0. |
| Luminance.RatioBounds | src/utils/contrastUtils.ts:102 | The ratio of two luminances in [0, 1] lies in [1, 21] and is 1 only for equal luminances. |
| Luminance.ContrastRatio | src/utils/contrastUtils.ts:90-103 | The contrast ratio of any two strings lies in [1, 21]. |
| Luminance.ContrastRatioSymmetric | src/utils/contrastUtils.ts:96-102 | The ratio does not depend on the order of the two colours. |
| Luminance.ContrastRatioOfSameColor | src/utils/contrastUtils.ts:96-102 | Two strings that parse to the same colour have ratio 1. |
| Luminance.ParseWhiteAndBlack | src/utils/contrastUtils.ts:50-61 | "#FFFFFF" parses to white and "#000000" to black. |
| Luminance.ContrastRatioWhiteOnBlack | src/utils/contrastUtils.ts:90-103 | "#FFFFFF" against "#000000" has ratio exactly 21. |
| Luminance.ContrastRatioNeverFallsBack | src/utils/contrastUtils.ts:91-94 | Both colours always parse, so the ratio-1 fallback is never taken, and the ratio is the luminance quotient. |
| Luminance.ContrastRatioChecked | src/utils/contrastUtils.ts:90-103 | Corrected ratio. It succeeds exactly when both colours are six-digit hex, fails with "MalformedColor" otherwise, and agrees with the ratio on success. |
| ContrastUtils.CheckWcagCompliance | src/utils/contrastUtils.ts:108-120 | AA and AAA-large coincide, AAA implies AA, and AA implies AA-large. |
| ContrastUtils.CheckWcagComplianceThresholds | src/utils/contrastUtils.ts:114-119 | Each level passes exactly when the ratio reaches its inclusive threshold: 4.5, 3, 7 or 4.5. |
| ContrastUtils.CheckWcagComplianceMonotone | src/utils/contrastUtils.ts:114-119 | A level that passes at some ratio passes at every larger ratio. |
| ContrastUtils.HeatmapColor | src/utils/contrastUtils.ts:125-130 | The fill is strong green iff AAA passes, light green iff AA passes but not AAA, yellow iff only AA-large passes, and red iff AA-large fails. |
| ContrastUtils.CountWhere | src/utils/contrastUtils.ts:148-158 | The number of pairs with a given outcome at a level is at most the number of pairs. |
| ContrastUtils.SummaryOf | src/utils/contrastUtils.ts:145-167 | The summary's total is the number of pairs, passing plus failing is the total at every level, and an empty list gives all zeros. |
| ContrastUtils.PassingPlusFailing | src/utils/contrastUtils.ts:147-158 | At each level every pair is counted exactly once, as passing or failing. |
| ContrastUtils.CountWhereAppend | src/utils/contrastUtils.ts:145-167 | Counting is additive over concatenation. |
| ContrastUtils.CountWherePermutation | src/utils/contrastUtils.ts:145-167 | Counts do not depend on the order of the pairs. |
| ContrastUtils.CountWhereRemoveAt | src/utils/contrastUtils.ts:145-167 | Removing one pair lowers a count by that pair's contribution. |
| ContrastUtils.SummaryOfPermutation | src/utils/contrastUtils.ts:145-167 | The summary is invariant under permutation of the list. |
| ContrastUtils.Summarize | src/utils/contrastUtils.ts:145-167 | The in-place counting loop produces exactly the summary of the list. |
| ContrastUtils.AnalyzeScreenshot | src/utils/contrastUtils.ts:136-180 | A failure becomes the single error "Failed to analyze screenshot" with no partial result. Success keeps the URL, screenshot, time stamp and pairs, and carries their summary. |
| ChromeUtils.Includes | src/utils/chromeUtils.ts:44 | `includes` holds iff the substring occurs at some index. |
| ChromeUtils.IsUrlAccessible | src/utils/chromeUtils.ts:36-45 | A URL is inaccessible iff it contains "notfound" or "error". |
| ChromeUtils.TerrorHostRejected | src/utils/chromeUtils.ts:44 | The plain substring test rejects "https://terror.example". |
| ChromeUtils.IsValidUrl | src/utils/chromeUtils.ts:26-33 | Valid iff the URL parses with protocol exactly "http:" or "https:". A parse failure gives false. |
| ChromeUtils.ValidIffParsesWithScheme | src/utils/chromeUtils.ts:26-33 | For a URL with an explicit http(s) scheme, valid iff it parses. |
| ChromeUtils.CaptureScreenshot | src/utils/chromeUtils.ts:11-23 | The address is the fixed placehold.co prefix followed by the encoded URL. |
| ChromeUtils.ScreenshotDeterminesEncodedUrl | src/utils/chromeUtils.ts:22 | Equal addresses come from equally encoded URLs. |
| MockData.GetColorPairsForUrl | supabase/functions/analyze-contrast/mockData.ts:88-92 | Whatever the URL, the five default pairs in their fixed order. |
| MockData.GetColorPairsForUrlIgnoresUrl | supabase/functions/analyze-contrast/mockData.ts:88-92 | Any two URLs get the same list of pairs. |
| MockData.FixtureLocationsWellFormed | supabase/functions/analyze-contrast/mockData.ts:23-84 | Every location has x, y >= 0 and width, height > 0. |
| MockData.FixtureFlagsAgainstRatios | supabase/functions/analyze-contrast/mockData.ts:23-84 | Entries 1, 2, 4 and 5 carry the flags the thresholds give their ratio. Entry 3 (3.2) claims AAA-large although 3.2 < 4.5. |
| MockData.FixtureSummary | supabase/functions/analyze-contrast/mockData.ts:23-84 | The fixture summarises to total 5, passing 2/4/2/3 and failing 3/1/3/2. |
| MockData.TwoPairExampleSummary | supabase/functions/analyze-contrast/mockData.ts:24-71 | White on near-black plus blue on white: one pass and one fail at each level. |
| HeatmapGrid.FindPairIndexAt | src/components/HeatmapGrid.tsx:77-80 | The index of the first pair, in list order, whose closed rectangle holds the point. `None` iff no rectangle holds it. |
| HeatmapGrid.HandleCanvasClick | src/components/HeatmapGrid.tsx:68-85 | No selection without a canvas or handler. The selection is the first containing pair, and there is one whenever some rectangle holds the point. |
| HeatmapGrid.DrawOverlay | src/components/HeatmapGrid.tsx:39-50 | For each pair in list order: a fill of exactly its rectangle in its heatmap colour, then a 1-pixel white border. |
| ResultsPanel.PassRate | src/components/ResultsPanel.tsx:25-26 | `Math.round((passing / total) * 100)`, over exact reals, is NaN iff total = 0, and otherwise equals `(200 * passing + total) div (2 * total)` and lies in [0, 100]. |
| ResultsPanel.RoundedRate | src/components/ResultsPanel.tsx:25-26 | Half-up rounding of the exact real percentage `(passing / total) * 100` is the integer quotient. |
| ResultsPanel.SortByRatioDescending | src/components/ResultsPanel.tsx:29 | The sorted copy is ordered by non-increasing ratio and is a permutation of the pairs. |
| ResultsPanel.SortInPlace | src/components/ResultsPanel.tsx:29 | Sorting the array in place orders it by non-increasing ratio and keeps its elements. |
| ResultsPanel.DisplayPairs | src/components/ResultsPanel.tsx:32-33 | Collapsed, the first min(5, n) sorted pairs; expanded, all of them. |
| ResultsPanel.ExpandControlFor | src/components/ResultsPanel.tsx:173-191 | The control appears iff there are more than 5 pairs. Collapsed, it offers the number hidden; expanded, it offers "Show Less" over the full list. |
| ResultsPanel.ClipboardLines | src/components/ResultsPanel.tsx:47-52 | One clipboard entry per pair, in the original order, with its colours, ratio and AA/AAA verdicts. |
| ResultsPanel.ResultsPanel.constructor | src/components/ResultsPanel.tsx:18 | The panel starts collapsed. |
| ResultsPanel.ResultsPanel.ToggleExpanded | src/components/ResultsPanel.tsx:177 | The control flips `expanded`. |
| ResultsPanel.ResultsPanel.Render | src/components/ResultsPanel.tsx:17-53 | Nothing without a result. Otherwise the rates of its summary, a sorted permutation of its pairs, the shown slice and control for the current state, and the clipboard list in original order. |
| ResultsPanel.HiddenPairsOffered | src/components/ResultsPanel.tsx:173-188 | Sorting keeps the count, so "Show n More" offers exactly the n − 5 hidden pairs. |
| UrlForm.NormalizeUrl | src/components/UrlForm.tsx:30-33 | Every result starts with http:// or https://. Input already starting with a scheme is kept; any other input gets "https://" in front. |
| UrlForm.NormalizeUrlIdempotent | src/components/UrlForm.tsx:30-33 | Applying the prefix rule to its own output changes nothing. |
| UrlForm.NormalizeKeepsWhitespace | src/components/UrlForm.tsx:24-32 | Leading white space is not blank, and it survives into the prefixed URL. |
| UrlForm.UrlForm.constructor | src/components/UrlForm.tsx:14-15 | Empty input and no error. |
| UrlForm.UrlForm.SetUrl | src/components/UrlForm.tsx:14 | Typing replaces the URL and leaves the error alone. |
| UrlForm.UrlForm.HandleSubmit | src/components/UrlForm.tsx:17-46 | The error is cleared first. Blank input gives "Please enter a URL" and an invalid URL gives "Please enter a valid URL", and neither submits. A submitted URL is the normalised input and has an http(s) scheme. A rejected submission gives "Failed to analyze the URL". |
| UrlForm.SubmittedIffParses | src/components/UrlForm.tsx:30-38 | With a scheme-reading URL parser, the normalised input is valid iff it parses. |
| ContrastCheckerView.ContrastChecker.constructor | src/components/ContrastChecker.tsx:12-15 | Not loading, with no error, result or selection. |
| ContrastCheckerView.ContrastChecker.BeginSubmission | src/components/ContrastChecker.tsx:19-22 | Loading, with error, result and selection cleared. |
| ContrastCheckerView.ContrastChecker.HandleUrlSubmit | src/components/ContrastChecker.tsx:18-76 | An unreachable site gives "The website is not accessible" after only the reachability check. A failed analysis gives "Failed to analyze the website" and no result. Success shows the analysis of this URL and its screenshot, and selects its first pair if any. Loading is off on every path, and an error is shown iff no result is. |
| ContrastCheckerView.ContrastChecker.HandleAreaSelect | src/components/ContrastChecker.tsx:78-80 | The pair becomes the selection, and nothing else changes. |
| ContrastCheckerView.ContrastChecker.ClickHeatmap | src/components/ContrastChecker.tsx:102-106 | A heatmap click selects the first pair containing the point and otherwise keeps the selection. The selection stays a pair of the shown result. |

## Left out

- **IEEE doubles.** Ratios, luminances and pass rates are exact reals. The rounding of each double operation is not modelled, so a value that lands on a threshold or a rounding boundary in exact arithmetic may land on the other side of it in the program.
- ResultsPanel.PassRate: computed over exact reals. The program divides first and multiplies by 100 afterwards in doubles, and that can fall just below a half. For 23 passing of 40, `(23 / 40) * 100` is 57.49999999999999 in doubles, so the program shows 57 where the model gives 58. The same happens for 29 and 57 passing of 200.
- **The 2.4 power.** `Math.pow(x, 2.4)` is a parameter constrained by `IsPow24`. The model proves nothing that depends on its exact values.
- **Remaining `parseInt` rules.** Rounding of values above 2^53 is not modelled: more than 13 hex digits are read as an exact integer.
- **`analyzeScreenshot` pair source.** The function imports `getColorPairsForUrl` from chromeUtils dynamically. That module does not export it, so as written the call ends in the catch block. The model takes the outcome of fetching the pairs as a parameter (`fetched`) and the ISO time stamp as an opaque string.
- **Collaborator throws in `handleUrlSubmit`.** `isUrlAccessible` and `captureScreenshot` are taken to return normally. Only the analysis can fail, so a failure to encode the URL (a lone surrogate passed to `encodeURIComponent`) is not modelled.
- **Library functions.** The `URL` constructor and `encodeURIComponent` are parameters.
- **Browser side effects.** Timers (`setTimeout`), toasts, console output, the clipboard write and its alert, `window.open`, JSX layout and styling are not modelled, nor are image loading and the canvas error drawing. `HeatmapGrid.DrawOverlay` models the overlay as a list of canvas calls.
- **Click coordinates.** Scaling the mouse position to canvas pixels (src/components/HeatmapGrid.tsx:72-74) is not modelled; clicks arrive in image coordinates.
- **`toFixed` and `toLocaleString` formatting** in the report and clipboard text.
- ResultsPanel.SortByRatioDescending: stability of `Array.prototype.sort` is not stated, although ties decide which pairs make the collapsed top five. Only order and permutation are proved.
- ResultsPanel.SortInPlace: swaps only on a strict `<`, so it keeps equal ratios in input order, but that stability is not stated. Only order and permutation are proved.
- **`onSubmit` outcome.** In `UrlForm.UrlForm.HandleSubmit`, the outcome of the submission is a boolean parameter. The form and the page component are modelled separately rather than wired together.
- **Other files.** The HTTP handler in supabase/functions/analyze-contrast/index.ts, src/integrations/supabase/types.ts and src/pages/Index.tsx are not part of this model. The handler's summary reduce is the same fold as `ContrastUtils.SummaryOf`.
- **Code over specification.** Where the program's description and the code differ, the model follows the code:
  - `analyzeScreenshot` does not reject an empty pair list; it returns a result with all counts zero.
  - `hexToRgb` does not reject malformed colours (see Findings).

## Findings

| source | as written | input that shows it | evidently intended | confidence | as-written member | corrected member |
|---|---|---|---|---|---|---|
| src/utils/contrastUtils.ts:50-61, 94 | `hexToRgb` returns a colour for every string. As a result, the `!rgb1 \|\| !rgb2` fallback to ratio 1 is dead code, a three-digit shorthand is read as a six-digit number, and non-hex text is read as black. | "#fff" gives (0, 15, 255) rather than white. "zzzzzz" gives (0, 0, 0). | Reject anything that is not six hex digits (with an optional `#`), so that the ratio reports the malformed colour instead of rating it. | not executed | HexColor.ShorthandMisread, Luminance.ContrastRatioNeverFallsBack | HexColor.ParseHexColor, Luminance.ContrastRatioChecked |
