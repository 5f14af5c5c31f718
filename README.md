# Bar traces: binning sieve, bar geometry and text placement

A Dafny model of the core of plotly.js bar traces:

- **The binning sieve** (`src/traces/bar/sieve.js`). Stacking uses it to give each bar its base.
  - Every datum goes into a bin labelled by a sign prefix and by `Math.round(position / binWidth)`.
  - `put` adds the value to that bin's running total and returns the total the bin held before.
  - Over successive puts, these returned totals are the prefix sums that become the stack bases.
- **Drawing one bar trace** (`src/traces/bar/plot.js`). For each calculated point:
  - its position and size extents, mapped through the axes to a pixel rectangle;
  - the rule that drops degenerate or non-numeric rectangles;
  - the pixel snapping of the four edges (`roundWithLine`, `expandToVisible`);
  - the text, text position and font chosen for the bar;
  - the inside / outside / auto decision;
  - the scale, rotation and target centre of an inside or outside label;
  - the SVG transform built from them.

Modules, one per file:

| module | file | what it holds |
|---|---|---|
| `Wrappers` | wrappers.dfy | `Option` |
| `JsMath` | jsmath.dfy | the JavaScript arithmetic used, on unbounded reals, stated with its bounds |
| `BinSieve` | sieve.dfy | the `Sieve` class: a `map<Label, real>` field that `Put` updates in place |
| `BarTransform` | bar_transform.dfy | the transform datatype and its meaning on points, and `GetTransform` |
| `BarFit` | bar_fit.dfy | inside and outside fitting and placement |
| `BarTextNode` | bar_text.dfy | text, position and font resolution; `AppendBarText`, written step by step, proved equal to the declarative `BarText` |
| `BarPlot` | bar_plot.dfy | rectangle derivation, drop rule, snapping, and the per-point and per-trace drawing methods |

**Transforms.** A transform is the datatype `Transform(tx, ty, scale, rotateAbout)`, not a string.
- `Transform.Apply` gives its meaning on points: `rotate(-90)` about the text centre first, then the scale, then the translation, as an SVG transform list applies them.
- `ImageBox` is the box the text occupies once transformed. The four corner lemmas and `ImageBoxIsImage` prove that the corners of the measured box land on its corners.
- The inside and outside placement properties are stated about `ImageBox`, so they describe where the transformed text actually appears.

**Outside padding quirk.** `getTransformToMoveOutsideBar` sets `textpad` only when the bar is wider than 6 across its end (plot.js:384-389). Otherwise `textpad` stays undefined, and the target coordinate past the bar's end becomes NaN: `targetY` for a vertical bar (plot.js:447, 451), `targetX` for a horizontal one (plot.js:435, 439). The coordinate across the bar stays numeric, but the translate is then not a usable placement.
- The model makes this case explicit: `TransformToMoveOutsideBar` returns `None` exactly when the width is at most 6.
- An outside label is then still produced, with no placement (`transform == None`).
- The model does not substitute a padding of 0.

**An unreachable branch.** The "only rotation" branch of `getTransformToMoveOutsideBar` (plot.js:404-408) is never taken. Reaching it needs the text longer than the usable width and taller than it is long, so its height also exceeds the width and the final branch applies instead. `BarFit.OutsideFitNeverOnlyTurns` states this. The model keeps the branch as written.

**Inputs.** Foreign calls are parameters of the model:
- The axes' `c2p(v, true)` is a function `real -> Option<real>`, where `None` stands for a non-numeric pixel.
- `Drawing.bBox` is `measure: (string, Font) -> BBox`. It is deterministic: measuring the same string in the same font twice gives the same box.
- `Color.opacity(...)` of the marker colour is the per-point input `opacity`.
- The resolved marker line width `lw` is the per-point input `lineWidth`.

## Model

| member | source | states |
|---|---|---|
| BinSieve.Sieve.constructor | src/traces/bar/sieve.js:25-31 | a new sieve keeps the width and the base (present only when numeric) and starts with no bins |
| BinSieve.Sieve.BinLabel | src/traces/bar/sieve.js:72-76 | the label is "below" exactly when a base exists and the value is smaller than it (a value equal to the base is not below); its bin is position / binWidth rounded half-up |
| BinSieve.Sieve.Get | src/traces/bar/sieve.js:58-61 | the current total of the datum's bin, 0 for a bin never written; it only reads the sieve |
| BinSieve.Sieve.Put | src/traces/bar/sieve.js:41-48 | returns the bin's previous total (0 if new); afterwards Get gives previous + value; only that bin changes |
| BinSieve.Deposit | src/traces/bar/sieve.js:42-45 | the deposited bin's total grows by the value, every other bin's total is unchanged, and the key set gains exactly that label |
| BinSieve.Total | src/traces/bar/sieve.js:43 | a bin's total is its stored value, and 0 for a bin never written to |
| BinSieve.Bases | src/traces/bar/sieve.js:41-48 | one returned total per put, the first being the bin's total before any of them |
| BinSieve.DepositAll | src/traces/bar/sieve.js:41-48 | successive puts into one bin add exactly that bin to the written bins, and nothing when there are no puts |
| BinSieve.Sieve.PutAll | src/traces/bar/sieve.js:41-48 | successive calls of Put for data sharing one bin return exactly Bases of the starting bins, and leave the bins as DepositAll does |
| BinSieve.BasesArePrefixSums | src/traces/bar/sieve.js:41-48 | the k-th of successive puts into one bin returns the starting total plus the sum of the first k values |
| BinSieve.DepositAllTotals | src/traces/bar/sieve.js:41-48 | after successive puts the bin holds its old total plus their sum, and no other bin changes |
| BinSieve.Sieve.BinOfInterval | src/traces/bar/sieve.js:74 | bin k holds exactly the positions whose quotient by the width lies in [k - 0.5, k + 0.5) |
| BinSieve.Sieve.SharedBin | src/traces/bar/sieve.js:72-75 | two data with the same rounded quotient on the same side of the base share one label and one total |
| BinSieve.Sieve.SignsSplit | src/traces/bar/sieve.js:73 | with a base, a value below it and one at or above it at the same position go to different bins |
| BinSieve.StackCaseBases | test/jasmine/tests/bar_test.js:186-206 | the puts of the stack example return the bases [0,0,0], [2,1,2] and 4 |
| BinSieve.RelativeCaseBases | test/jasmine/tests/bar_test.js:250-268 | with base 0, negative values at positions 0 and 1 start at 0 and the one at position 2 stacks on -23 |
| JsMath.Abs | src/traces/bar/plot.js:216-217 | `Math.abs`, also at plot.js:98, 289-290, 373 and 378: non-negative and equal to x or -x |
| JsMath.Min | src/traces/bar/plot.js:319-328 | `Math.min` of the two scale ratios at plot.js:322 and 327: at most each argument and equal to one of them |
| JsMath.Round | src/traces/bar/sieve.js:74 | `Math.round`: an integer within (x - 0.5, x + 0.5], so halves round up |
| JsMath.Floor | src/traces/bar/plot.js:102 | `Math.floor`: the largest integer not above x |
| JsMath.Ceil | src/traces/bar/plot.js:102 | `Math.ceil`: the smallest integer not below x |
| JsMath.FracPart | src/traces/bar/plot.js:86 | JavaScript `x % 1`: in [0, 1) for x >= 0 and in (-1, 0] for x < 0, differing from x by an integer |
| JsMath.Round2 | src/traces/bar/plot.js:86 | `d3.round(x, 2)`: within 0.005 of x, on the 0.01 grid |
| JsMath.Round2Monotone | src/traces/bar/plot.js:92 | rounding to two decimals keeps order |
| BarPlot.PointExtents | src/traces/bar/plot.js:58-61 | p0 = p + offset, p1 = p0 + width, s0 = b, s1 = b + s, with the scalar or the i-th per-point entry; none when an array has no i-th entry or the size is undefined |
| BarPlot.PixelRect | src/traces/bar/plot.js:63-75 | a vertical bar's position extents go through the x axis and its size extents through the y axis, a horizontal bar's the other way round; the rectangle exists exactly when all four images are numeric |
| BarPlot.PixelRectTranspose | src/traces/bar/plot.js:63-75 | a vertical bar maps position on x and size on y; a horizontal bar is the same rectangle on exchanged axes, transposed; the rectangle is undefined exactly when an edge is non-numeric |
| BarPlot.Drawable | src/traces/bar/plot.js:79 | the test that a rectangle is kept: x0 differs from x1 and y0 from y1 |
| BarPlot.DropRule | src/traces/bar/plot.js:77-82 | a point draws no bar exactly when it has no extents, an edge is non-numeric, x0 == x1 or y0 == y1; in particular a point whose size is undefined draws none |
| BarPlot.LineOffset | src/traces/bar/plot.js:84-86 | the offset of a non-negative line width lies in [0, 1], on the 0.01 grid |
| BarPlot.RoundWithLine | src/traces/bar/plot.js:88-93 | the identity unless both gaps are 0; otherwise on the 0.01 grid and within (v - 1.505, v + 0.505] |
| BarPlot.RoundWithLineMonotone | src/traces/bar/plot.js:88-93 | rounding to the line keeps the order of edges |
| BarPlot.Gapless | src/traces/bar/plot.js:91 | the test for rounding edges to the line: `bargap` and `bargroupgap` both 0 |
| BarPlot.UsesRounding | src/traces/bar/plot.js:112-114 | the test for rounding mode: marker opacity below 1 or line width above 0.01 |
| BarPlot.FixPixel | src/traces/bar/plot.js:105-119 | a translucent or outlined bar rounds the edge to the line, which keeps it when there are gaps; otherwise an edge 2 or more from its partner is rounded, and a nearer one goes outward to the nearest whole pixel (ceil above its partner, floor otherwise) |
| BarPlot.SnappedRect | src/traces/bar/plot.js:105-119 | a static plot keeps the rectangle, and so does rounding mode with gaps; otherwise x0 and y0 are snapped against the raw x1 and y1, then x1 and y1 against the snapped x0 and y0 |
| BarPlot.ExpandToVisible | src/traces/bar/plot.js:95-103 | an edge 2 or more from its partner is rounded to the line; a nearer one goes to a whole pixel, outward, never toward its partner |
| BarPlot.ExpandKeepsEdgesApart | src/traces/bar/plot.js:95-103 | expanding two distinct edges, the second against the expanded first, keeps them distinct and in order |
| BarPlot.SnappedBarStaysVisible | src/traces/bar/plot.js:105-119 | in expand mode a drawable bar stays drawable, with both edge pairs in their order |
| BarPlot.RoundedBarKeepsOrder | src/traces/bar/plot.js:105-119 | in rounding mode each edge moves by less than 1.505, not at all when there are gaps, and edge pairs keep their weak order |
| BarPlot.DrawnBar | src/traces/bar/plot.js:53-128 | a drawn bar has extents and a numeric, drawable pixel rectangle; its rectangle is that one snapped, and its text node is placed on the snapped edges |
| BarPlot.DrawnBarIsVisible | src/traces/bar/plot.js:77-119 | a bar drawn in expand mode has width and height |
| BarPlot.PlotPoint | src/traces/bar/plot.js:53-128 | drawing one point step by step, with the edges snapped in turn, gives what DrawnBar specifies |
| BarPlot.PlotTrace | src/traces/bar/plot.js:40-129 | one outcome per point, in order, each the one DrawnBar specifies |
| BarTextNode.At | src/traces/bar/plot.js:144-147 | a scalar attribute applies to every point; an array entry exists exactly for indices inside the array |
| BarTextNode.ResolveText | src/traces/bar/plot.js:139-152 | the text shown is the i-th (or only) entry, and there is none when the attribute is unset, the index is past the end, or the entry is empty |
| BarTextNode.FontAt | src/traces/bar/plot.js:167-183 | a font entry exists exactly when the array has one at i and it is set |
| BarTextNode.FontOr | src/traces/bar/plot.js:171-183 | JavaScript's falsy fallback for fonts: the font when set, the fallback otherwise |
| BarTextNode.ResolveFonts | src/traces/bar/plot.js:167-183 | each of the inside and outside fonts is its own entry, else the text font's entry, else the layout font |
| BarTextNode.IsOutmost | src/traces/bar/plot.js:208-214 | in group and overlay modes every bar is outmost; in stack and relative modes exactly the bars marked outmost are |
| BarTextNode.AutoFits | src/traces/bar/plot.js:216-242 | the automatic test holds exactly when the text has an area and fits, at full scale and turned or not, the bar less TEXTPAD on each side |
| BarTextNode.PlacedInside | src/traces/bar/plot.js:224-252 | the inside decision: `'outside'` goes inside only on a bar that is not outmost, `'auto'` on such a bar or when the text fits, `'inside'` always |
| BarTextNode.HasSize | src/traces/bar/plot.js:237 | `textHasSize`, width and height both positive; its negation is the zero-size drop at plot.js:263 |
| BarTextNode.BarText | src/traces/bar/plot.js:136-281 | a text node shows the point's non-empty text at a position other than `'none'`, in one of the two resolved fonts, and has an area in that font; unset or empty text, or a position past the end of its array or `'none'`, gives no node |
| BarTextNode.PlacedLabel | src/traces/bar/plot.js:254-280 | the place is inside exactly as PlacedInside says, with the automatic test made in the inside font; the font follows the place; there is no node exactly when the text has no area in that font; inside text always has a transform |
| BarTextNode.DecidePosition | src/traces/bar/plot.js:208-252 | the position decided is inside or outside: inside exactly as PlacedInside says; a kept measurement is the inside-font box, with size |
| BarTextNode.PlaceText | src/traces/bar/plot.js:254-280 | measuring (unless already done) and moving the text gives what PlacedLabel specifies |
| BarTextNode.AppendBarText | src/traces/bar/plot.js:136-281 | the step-by-step text node equals the declarative BarText |
| BarTextNode.NoLabelCases | src/traces/bar/plot.js:139-266 | no node exactly when the text is unset, past the end or empty, the position is past the end or `'none'`, or the text measures with no area in its font |
| BarTextNode.OutsideOnlyForOutmost | src/traces/bar/plot.js:213-257 | text goes outside only on an outmost bar and only when `'outside'` or `'auto'` was asked |
| BarTextNode.PositionResolution | src/traces/bar/plot.js:213-257 | `'inside'` stays inside; a bar that is not outmost gets everything inside; `'outside'` stays outside on an outmost bar; `'auto'` goes inside exactly when the inside-font box has size and fits the padded bar, turned or not; the font follows the place |
| BarTextNode.InsideLabelFitsBar | src/traces/bar/plot.js:269-280 | an inside label is placed, never upscaled, and lies within the padded bar against its padded end |
| BarTextNode.OutsideLabelBeyondEnd | src/traces/bar/plot.js:269-280 | an outside label has a placement exactly when the bar is wider than 6 across its end; then it is never upscaled and lies TEXTPAD past the bar's end |
| BarTransform.BBox.Centre | src/traces/bar/plot.js:287-288 | `textX`/`textY` (also plot.js:417-418): equally far from left and right and from top and bottom, so inside a well-formed box |
| BarTransform.Transform.Apply | src/traces/bar/plot.js:469-477 | without a scale term a transform only turns (when asked) and translates; with none of either it is a pure translation |
| BarTransform.Turn | src/traces/bar/plot.js:469-470 | `rotate(-90 cx cy)` sends the offset (dx, dy) from the centre to (dy, -dx) and keeps the centre |
| BarTransform.FittedSize | src/traces/bar/plot.js:330-338 | with a scale in [0, 1], each fitted side lies between 0 and the full text side it comes from, the sides swapped when turned |
| BarTransform.ImageBox | src/traces/bar/plot.js:469-477 | the box is centred on the image of the text centre, twice the transformed half extents wide and high |
| BarTransform.GetTransform | src/traces/bar/plot.js:458-478 | the scale term is present exactly for a scale below 1, the factor used is min(scale, 1), the rotation is about the text centre when asked, and the text centre is sent to the target |
| BarTransform.TopLeftImage | src/traces/bar/plot.js:469-477 | the top-left corner of the text box lands on the top-left (unturned) or bottom-left (turned) corner of ImageBox |
| BarTransform.TopRightImage | src/traces/bar/plot.js:469-477 | the top-right corner lands on the top-right (unturned) or top-left (turned) corner of ImageBox |
| BarTransform.BottomLeftImage | src/traces/bar/plot.js:469-477 | the bottom-left corner lands on the bottom-left (unturned) or bottom-right (turned) corner of ImageBox |
| BarTransform.BottomRightImage | src/traces/bar/plot.js:469-477 | the bottom-right corner lands on the bottom-right (unturned) or top-right (turned) corner of ImageBox |
| BarTransform.ImageBoxIsImage | src/traces/bar/plot.js:469-477 | every corner of the text box lands in ImageBox, and two opposite corners span it |
| BarTransform.PlacedBox | src/traces/bar/plot.js:472-474 | the transformed text box has the fitted size and is centred on the target |
| BarFit.InsidePad | src/traces/bar/plot.js:297-303 | the padding is TEXTPAD exactly when both sides exceed 2 * TEXTPAD, and 0 otherwise; the padded sizes are never negative |
| BarFit.InsideFit | src/traces/bar/plot.js:305-328 | text that fits is neither turned nor scaled; text that fits only turned is turned at scale 1; the scale is in [0, 1] and equals 1 exactly when the text fits at full size either way |
| BarFit.InsideFitFits | src/traces/bar/plot.js:305-338 | the fitted (possibly turned) text size never exceeds the usable bar size |
| BarFit.InsideFitIsLargest | src/traces/bar/plot.js:319-328 | no scale up to 1 at which the text fits either way is larger than the one chosen |
| BarFit.InsideBarFit | src/traces/bar/plot.js:297-328 | the scale is in [0, 1], and text that fits the padded bar unturned is left as it is |
| BarFit.InsideTarget | src/traces/bar/plot.js:340-361 | the text centre is centred across the bar, half the fitted size in from the padded end: y1 - pad below, y1 + pad above, x1 + pad on the left, x1 - pad on the right |
| BarFit.TransformToMoveInsideBar | src/traces/bar/plot.js:283-364 | the transform's factor and rotation are those of the inside fit after padding |
| BarFit.InsideTextFitsBar | src/traces/bar/plot.js:340-363 | inside text lies within the bar less its padding, flush with the padded end (y1 - pad below, y1 + pad above, x1 + pad on the left, x1 - pad on the right), centred across the bar |
| BarFit.OutsideFit | src/traces/bar/plot.js:390-414 | no turn or scale when the text fits across the end; never turned when its along-end length is at least its height; scale in [0, 1]; the scaled extent across the end never exceeds the usable width; a turned label is also shrunk to exactly fit |
| BarFit.OutsideFitNeverOnlyTurns | src/traces/bar/plot.js:404-408 | outside text is never turned at full size, so this branch is unreachable |
| BarFit.AlongBarWidth | src/traces/bar/plot.js:372-381 | the bar's extent across its end, its width when vertical and its height when horizontal, is never negative |
| BarFit.OutsideBarFit | src/traces/bar/plot.js:372-414 | the scale is in [0, 1], and text whose extent along the bar's end fits the width (less 2 * TEXTPAD on a bar wider than 6) is left as it is |
| BarFit.OutsideTarget | src/traces/bar/plot.js:432-453 | the text centre is centred across the bar, half the fitted size past the end plus TEXTPAD: below, above, left or right as the end lies |
| BarFit.TransformToMoveOutsideBar | src/traces/bar/plot.js:366-456 | no placement exactly when the bar is at most 6 across its end; otherwise the factor and rotation are those of the outside fit |
| BarFit.OutsideTextBeyondBarEnd | src/traces/bar/plot.js:432-455 | outside text starts TEXTPAD past the bar's end (below, above, left or right as the end lies) and stays within the padded bar across it |

## Left out

- DOM and d3 work is not modelled: selections, appending and removing nodes, the path string, `Drawing.font`, `svgTextUtils.convertToTspans`, and `ErrorBars.plot`. A dropped bar is the result `None` and a text node is a `TextLabel` value.
- `arraysToCalcdata`, and the calc and setPositions steps, are not part of this model. Those steps cover stacking across traces, grouping, barnorm and axis expansion. The two worked stacking examples only check the sieve's running totals.
- The axis `c2p` functions, `Drawing.bBox` and `Color.opacity` are foreign calls, so their results are inputs.
- An index past the end of a per-point `poffset` or `barwidth` array, and a size `s` that the calculation left undefined, are taken to drop the bar (`PointExtents` gives no extents). In the source either makes an extent NaN (plot.js:58-61), `c2p` of NaN is non-numeric, and plot.js:77-82 removes the bar.
- The resolved line width `lw` (plot.js:84-85) is an input. The source computes it with a JavaScript truthiness chain over the point's and the trace's marker line widths, which is not modelled.
- Floating point is not modelled: coordinates are unbounded reals. `d3.round(x, 2)` is `Math.round(x * 100) / 100` computed exactly, and the NaN-producing outside-padding case is the explicit `None` described above.
- Per-point `textposition` entries are assumed to be one of the four values. Text entries are assumed to be strings, an empty string being the only falsy text. Undefined or non-string entries are not modelled.
- `src/traces/bar/attributes.js` only declares the schema. Its `textposition` enumeration is the `TextPosition` datatype.
- BinSieve.Sieve.constructor: it requires a non-zero bin width. With a width of 0 the source's `Math.round(position / 0)` is Infinity, -Infinity or NaN, so data go into the bins `^Infinity`, `^-Infinity` or `^NaN` (or their `v` forms). The model has no non-finite bin labels.
- BarPlot.Gapless, BarPlot.UsesRounding, BarPlot.Drawable, BarTextNode.HasSize and BarTextNode.PlacedInside: these are plain tests with no contract of their own. `BarPlot.SnappedRect`, `BarPlot.FixPixel`, `BarPlot.DropRule`, `BarTextNode.PlacedLabel`, `BarTextNode.NoLabelCases` and `BarTextNode.PositionResolution` state what follows from them.
- BarTextNode.InsideLabelFitsBar: it states that the label is flush with the padded end at y1 (x1 for a horizontal bar), on a side the ensures leaves open. `BarFit.InsideTextFitsBar` pins down which end for each orientation and direction.
- BarPlot.DrawnBarIsVisible: it covers expand mode only. In rounding mode a bar thinner than the rounding step can collapse to zero width. `BarPlot.RoundedBarKeepsOrder` states what rounding mode does keep.
