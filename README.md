# Alcohol consumption scrollytelling chart — a Dafny model

The page joins two tables into per-country series: a table of yearly alcohol
consumption by country and a table mapping each country to its World Bank
region. It then draws one line per country of the selected regions. The lines
of the "colored" regions are drawn last and are the only ones that react to
the mouse. Hovering one of their points mutes every other line and shows,
for the hovered country, its value in each year that has one and its name
wrapped to `margin.right - 16` (184). Four scenes set the annotations,
the colored regions and whether the legend is shown. Only while the legend
is shown do the user's checkboxes choose the regions on the chart; otherwise
every region is shown.

The model has six modules:

- `Wrappers` (`seqs.dfy`): `Option`, which stands for a value that may be
  `null` or `undefined`.
- `Seqs` (`seqs.dfy`): the array operations the code is built from, with
  their facts. These are `filter`, `map`, `d3.merge` and dropping
  `undefined`.
- `DataJoin` (`data_join.dfy`): the dataset join of `js/main.js` 9-40. It
  builds `countryCodeByRegion` with `d3.rollup`, the sorted `regions`,
  `regionByCountryCode` as a `Map`, and the series rollup, one value slot per
  year with `".."` read as `null`. The rows are records of strings, and
  number parsing is a parameter `parse`.
- `TextWrap` (`text_wrap.dfy`): `wrap` (`js/line-chart.js` 251-284), the
  greedy line breaker. `Wrap` and its loop `Lay` are methods. Each is proved
  against `Laid`, a predicate that says the words appear in order, a break
  happens only on overflow, every line but an overlong single word fits, and
  the `dy` of tspan `k` is `k * 1.1 + dy`. Text measurement
  (`getComputedTextLength`) is the parameter `measure`.
- `Chart` (`chart.dfy`): `LineChart`. The pipeline of `update`
  (visible series, colored series, points) is written as functions, with
  lemmas about them. The class `LineChart` holds the fields that `update`,
  `mouseentered`, `mousemoved` and `mouseleft` change. It also holds the
  mute classes of the lines and what the hovered layer shows.
- `Page` (`page.dfy`): `js/main.js` 56-168, covering the four scenes, the
  user's `selectedRegions`, `triggerScene` and the legend's change handler.
  The class `Page` drives a `LineChart` and a `LineLegend`.

The functions that compute what the code computes, and the lines they model:

- `DataJoin.CountryCodeByRegion`: `countryCodeByRegion` (`js/main.js` 9-13).
- `DataJoin.Regions`: the sorted `regions` (`js/main.js` 16).
- `DataJoin.SeriesByCode`: the `series` rollup (`js/main.js` 28-40).
- `Chart.Shown`: the selected regions of `data.regions` (`js/line-chart.js` 78).
- `Chart.ColoredLast`: the sort that puts colored regions last (`js/line-chart.js` 80-84).
- `Chart.VisibleSeries`: `visibleSeries` in `update` (`js/line-chart.js` 74-92).
- `Chart.ColoredSeries`: `coloredSeries` (`js/line-chart.js` 95-97).
- `Chart.Points`: `points` (`js/line-chart.js` 100-115).
- `Chart.Dots`: the dots of the hovered layer (`js/line-chart.js` 211-218).
- `Chart.MutedFor`: the lines given the `mute` class on hover (`js/line-chart.js` 203).
- `Chart.Renders`: whether `render` returns rather than throws (`js/line-chart.js` 175, 182).
- `Page.Intern`: how an ordinal scale's domain takes in names (`js/main.js` 50).
- `Page.ColorDomain`: `color.domain()` after the scene literals (`js/main.js` 50, 76-100).
- `Page.Check` and `Page.Uncheck`: the two branches of the legend handler (`js/main.js` 162, 164).

Their properties are the lemmas of the "## Model" table.

Points to note about the code. The model follows the code in each case.

- `update` does not reset `iHovered` or the hovered layer. `LineChart.Update`
  keeps both, so a hover index can outlive the points it was taken from
  until the next `mouseentered` or `mouseleft`.
- The lines are joined by name (`js/line-chart.js` 148-150). A line that stays
  visible keeps its `mute` class through `update`. For visible series with
  distinct names, `Update` therefore leaves
  `muted == old(muted) * Names(visibleSeries)`; it does not clear it.
- Unchecking a region and checking it again moves the region to the front of
  `selectedRegions`. The sequence is therefore not the same, but the set of
  selected regions and the visible series are (`UncheckThenCheck`).
- `color.domain()` is not just `data.regions`. The scene literals call
  `color("Middle East and North Africa")` and `color("Europe and Central
  Asia")` (`js/main.js` 76-100) before `selectedRegions` is read (line 131),
  and an ordinal scale appends every name it does not know to its domain.
  `ColorDomain` is therefore `data.regions` followed by whichever of the two
  names it lacks. The extra names have no codes, so they show no series
  (`ColorDomainVisible`).
- A checked region is prepended even if it is already selected. The handler
  itself does not guard against that, but the legend draws one checkbox per
  name of `color.domain()` and checks it iff the name is selected
  (`js/line-legend.js` 12-21). A change event therefore carries a name of
  the domain, and `checked` is true exactly when that name is not selected.
  `LegendChanged` requires both, and under them `Page.Valid` keeps
  `selectedRegions` duplicate-free and within the domain.
- `render` reads the series of every annotation's code and throws when there
  is none (`js/line-chart.js` 175, 182). It runs at the end of `update`, after
  every chart field is set and the lines are joined. `triggerScene` then
  skips the legend lines (`js/main.js` 155-156). When this happens in the
  first `triggerScene` (line 136), the `change` handlers are never
  registered. `LineChart.Update` and `Page.TriggerScene` return whether they
  completed, and `Page.listening` records whether the handlers exist.
- The data join keeps the table order of the country codes of each region.
  A country absent from the region table gets `region == None`, and no
  region lists it, so it is never visible.

## Model

| member | source | states |
|---|---|---|
| Seqs.FilterMembership | js/line-chart.js:78 | `filter` keeps exactly the elements that pass the test |
| Seqs.FilterIsSubsequence | js/line-chart.js:95-97 | `filter` keeps the survivors in their original order |
| Seqs.FlattenMembership | js/line-chart.js:74-91 | an element of `d3.merge(ss)` lies in one of the arrays of `ss`, and every element of every array is in the merge |
| Seqs.SomesMembership | js/line-chart.js:92 | dropping `undefined` keeps exactly the defined values |
| DataJoin.SelectMembership | js/main.js:9-13 | the rows of a rollup group are exactly the rows with that key |
| DataJoin.GroupIsSelect | js/main.js:9-13 | `d3.rollup` has one group per key value in the table, holding that key's rows in table order |
| DataJoin.CountryCodeByRegionSpec | js/main.js:9-13 | `countryCodeByRegion` has exactly the regions of the table as keys, and each maps to the codes of that region's rows in table order |
| DataJoin.CodesInMembership | js/main.js:9-13 | a code is listed under a region iff some row of the table pairs them |
| DataJoin.Distinct | js/main.js:16 | `Array.from(keys())` holds every key exactly once |
| DataJoin.LessTransitive | js/main.js:16 | the string order of `d3.ascending` is transitive |
| DataJoin.LessTotal | js/main.js:16 | two different strings are ordered one way or the other |
| DataJoin.Insert | js/main.js:16 | inserting adds exactly one occurrence of the element |
| DataJoin.InsertAscending | js/main.js:16 | inserting into an ascending sequence keeps it ascending |
| DataJoin.Sort | js/main.js:16 | the sort is a permutation and ascending |
| DataJoin.RegionsSpec | js/main.js:9-16 | `regions` is strictly ascending and duplicate-free, and holds exactly the region names of the table, which are exactly the keys of `countryCodeByRegion` |
| DataJoin.RegionByCountryCode | js/main.js:19-24 | `regionByCountryCode` has exactly the codes of the region table as keys |
| DataJoin.RegionByCountryCodeLastWins | js/main.js:19-24 | for a repeated code, the `Map` constructor keeps the region of its last row |
| DataJoin.MakeSeries | js/main.js:30-37 | a series takes its name and code from the row and has one value per year, in year order; a value is null iff the cell is `".."`, and otherwise it is the parsed cell |
| DataJoin.FirstSelected | js/main.js:31 | `v[0]` is the first row of the table with that code |
| DataJoin.SeriesByCodeSpec | js/main.js:28-40 | `series` has exactly the codes of the values table as keys; the series under a code has that code and is built from the first row with it |
| DataJoin.Join | js/main.js:27-47 | the joined data has the years `[2000, 2015, 2018]`, every region has its code list, and every series has one value slot per year |
| DataJoin.JoinSeriesRegion | js/main.js:34 | a series' region is `undefined` iff its code is absent from the region table, and is otherwise the region of the last row with that code |
| TextWrap.Split | js/line-chart.js:254 | `split(/\s+/)` yields at least one piece |
| TextWrap.SplitNoSpaces | js/line-chart.js:254 | no piece holds whitespace |
| TextWrap.SplitEmptyPieces | js/line-chart.js:254 | only the first and last pieces can be empty; the first is empty iff the text is empty or starts with whitespace |
| TextWrap.SplitKeepsLetters | js/line-chart.js:254 | the pieces together hold every non-whitespace character of the text, in order |
| TextWrap.SplitJoined | js/line-chart.js:254 | joining the pieces with single spaces gives the text with every whitespace run squeezed to one space, so the split cuts exactly at the whitespace runs |
| TextWrap.Consumed | js/line-chart.js:268 | `while ((word = words.pop()))` takes the words up to the first empty one |
| TextWrap.WithLastWords | js/line-chart.js:270 | rewriting the current tspan changes only the last tspan's words |
| TextWrap.ExtendLine | js/line-chart.js:269-270 | a word that still fits joins the current line, and the layout invariant holds |
| TextWrap.StartLine | js/line-chart.js:271-281 | a word that overflows starts a new tspan with `dy = k * 1.1 + dy`, and the invariant holds |
| TextWrap.Lay | js/line-chart.js:268-282 | the loop lays out the words it takes: each exactly once and in order, a new tspan only when adding its first word overflowed the line before, every line fitting unless it is one overlong word, tspan `k` at `k * 1.1 + dy`, and the first tspan empty iff the first word alone is too wide |
| TextWrap.Wrap | js/line-chart.js:251-284 | `wrap` writes at least one tspan, holding exactly the words taken, in order, with the breaks, widths, spacing and empty-first-tspan case as in `Lay` |
| Chart.ShownSpec | js/line-chart.js:76-78 | the shown regions are those of `data.regions` that are selected, in `data.regions` order |
| Chart.ColoredLastPermutation | js/line-chart.js:80-84 | sorting keeps every shown region, as often as before |
| Chart.ColoredLastOrdered | js/line-chart.js:79-84 | after the sort no colored region comes before a region that is not colored |
| Chart.ColoredLastStable | js/line-chart.js:79-84 | within each of the two blocks the regions keep `data.regions` order |
| Chart.VisibleSeriesBlocks | js/line-chart.js:74-92 | the visible series are those of the shown non-colored regions, then those of the shown colored regions, region by region, codes in table order |
| Chart.VisibleSeriesSource | js/line-chart.js:74-92 | every visible series is the series of a code listed under a region that is in `data.regions` and selected |
| Chart.VisibleSeriesComplete | js/line-chart.js:74-92 | every code with a series, listed under a region that is in `data.regions` and selected, contributes its series |
| Chart.VisibleSeriesMembership | js/line-chart.js:74-92 | both directions: a series is visible iff it belongs to a code of a region both known and selected |
| Chart.VisibleSeriesSelectionSet | js/line-chart.js:78 | the visible series depend only on which regions of `data.regions` are selected, not on the order or repetition in `selectedRegions` nor on other names in it |
| Chart.VisibleSeriesFitsYears | js/line-chart.js:74-92 | no visible series has more values than there are years |
| Chart.ColoredSeriesSpec | js/line-chart.js:95-97 | `coloredSeries` holds exactly the visible series of colored regions, in visible order |
| Chart.ColoredFitsYears | js/line-chart.js:95-97 | colored series have no more values than there are years |
| Chart.PointsMembership | js/line-chart.js:100-115 | a point exists iff some colored series has a non-null value at year index `i`; the point carries that series' name, region and back-reference, `years[i]` and the value |
| Chart.PointsBySeries | js/line-chart.js:100-115 | the points are the points of the colored series, series after series |
| Chart.SeriesPointsMembership | js/line-chart.js:102-115 | the points of one series are exactly its non-null values with their years |
| Chart.SeriesPointsYearsIncrease | js/line-chart.js:102-115 | the points of one series come in increasing year order |
| Chart.PointOrigin | js/line-chart.js:102-112 | every point has the name and region of its own series, which is a colored series, a year of `years` and a non-null value |
| Chart.DotsArePoints | js/line-chart.js:211-218 | the hovered layer's dots are exactly the hovered series' points as year-value pairs, in year order |
| Chart.HoveredSeries | js/line-chart.js:200-207 | a point's series `p.d` is a visible series of a colored region whose values fit the years, and the point has its name |
| Chart.DrawHovered | js/line-chart.js:205-239 | the hovered layer shows the dots of the series and its name wrapped to `margin.right - 16` with `dy` 0.35, in at least one tspan |
| Chart.LineChart.DerivedHoverable | js/line-chart.js:100-115 | every point that `update` derives can be hovered: its series is visible and colored |
| Chart.LineChart.constructor | js/line-chart.js:2-8 | the chart starts with the given data and selection, and nothing hovered or muted |
| Chart.LineChart.Update | js/line-chart.js:72-119 | the visible series and points become those derived from the current selection and colored regions; lines that stay visible keep their mute class; nothing else changes; it reports a throw of `render` exactly when an annotation's code has no series |
| Chart.LineChart.MouseEntered | js/line-chart.js:191-193 | only `iHovered` changes, to null |
| Chart.LineChart.MouseMoved | js/line-chart.js:195-240 | NaN, or the already hovered index, changes nothing. A new index becomes `iHovered`, mutes exactly the names of the visible lines other than its point's, and shows that point's series, which is visible and colored, with its name in at least one tspan |
| Chart.LineChart.MouseLeft | js/line-chart.js:242-246 | nothing hovered, the hovered layer empty and no line muted; nothing else changes |
| Page.InternSpec | js/main.js:50 | interning names into an ordinal domain keeps the old domain as a prefix, holds exactly its names and the new ones, and adds no duplicate |
| Page.InternFresh | js/main.js:50 | names not yet in the domain and distinct among themselves are appended in order |
| Page.ColorDomainSpec | js/main.js:50-100 | the color domain holds exactly the regions and the two scene regions, without duplicates, and starts with the regions |
| Page.ColorDomainVisible | js/main.js:131-151 | selecting the whole color domain shows exactly the series that selecting `data.regions` shows |
| Page.ToggleKeepsSelection | js/line-legend.js:12-21 | a checkbox change of a domain region that agrees with the checkbox state keeps the selection duplicate-free and within the domain |
| Page.SceneRenders | js/line-chart.js:175-182 | a scene's `render` returns exactly when the data has the series of its average row (`WLD`, `MEA`, `ECS`); the last scene always renders |
| Page.CheckSpec | js/main.js:162 | checking adds one occurrence of the region and keeps all the others |
| Page.UncheckSpec | js/main.js:164 | unchecking removes every occurrence of the region and keeps every other region, as often as before and in order |
| Page.CheckThenUncheck | js/main.js:161-165 | checking and then unchecking leaves what unchecking alone leaves |
| Page.UncheckThenCheck | js/main.js:160-168 | unchecking a selected region and checking it again restores the set of selected regions and the visible series exactly |
| Page.UncheckVisible | js/main.js:164-167 | after unchecking, the visible series are exactly those of the other selected regions |
| Page.CheckVisible | js/main.js:162-167 | after checking, the visible series are the ones visible before plus those of the region |
| Page.LineLegend.constructor | js/line-legend.js:2-7 | the legend keeps the selection it is given |
| Page.LineLegend.Update | js/line-legend.js:40-42 | the legend is hidden exactly when it is not to be shown |
| Page.Page.constructor | js/main.js:50-140 | the whole color domain (the regions followed by the scene regions they lack) starts selected, the chart and the legend get that selection, and the chart shows the checked scene; the legend shows it and the handlers are registered exactly when that scene renders, and otherwise the legend keeps its initial state |
| Page.Page.TriggerScene | js/main.js:142-157 | the chart gets the scene's annotations and colored regions, the user's selection if the legend is shown and the whole color domain otherwise, and is updated, so that with the legend hidden it shows the series of every region; it completes exactly when the scene renders, and only then is the legend shown iff the scene says so, otherwise it is left as it was |
| Page.Page.TriggerSceneTwice | js/main.js:142-157 | triggering the same scene twice leaves the page as triggering it once, whether or not it throws |
| Page.Page.LegendChanged | js/main.js:160-168 | the selection becomes the region prepended (checked) or filtered out (unchecked), stays duplicate-free and within the color domain, the chart's selection equals it, and the chart is updated; the handler exists only once the page is listening |

## Left out

- Loading the two CSV files (`d3.csv`, `Promise.all`) is I/O. The rows are values given to `Join`.
- The SVG and DOM are not modelled. This covers `init`, `render`, the axes, the line paths, the annotation paths and texts, `contentWrapper.html`, the legend checkboxes and the colours. The mute classes and the hovered layer are kept as values (`muted`, `hovered`).
- Scales, `d3.extent`, `.nice()`, the curve and the screen coordinates of the points are floating-point work in a library. A point keeps only its data.
- `d3.Delaunay.from` and `find` are not modelled. What `find` returns is the `found` argument of `MouseMoved`, an index into `points`, or `None` for NaN (what `find` returns with no points). Nearest-point minimality is not stated. The `-1` that `find` gives for NaN coordinates is not modelled.
- The `dy` of the tspans, `++lineNumber * lineHeight + dy` (`js/line-chart.js` 279), is computed in IEEE doubles by the code and exactly in reals by the model, so the model's `k * 1.1 + dy` can differ from the code's in the last bits (`2 * 1.1 + 0.35` gives `2.5500000000000003`). Nothing branches on the value.
- `getComputedTextLength` is the parameter `measure` on the words of a line, and `+d[year]` is the parameter `parse`. `toFixed(2)` is part of the SVG text and is not modelled.
- Chart.ColoredLastStable: the comparator at `js/line-chart.js` 80-84 is not a consistent ordering. `ColoredLast` fixes the order to the stable partition that V8's `Array.prototype.sort` yields for fewer than 64 regions; that this is what the engine does is not proved here. Of the three facts, only `ColoredLastPermutation` would hold for every sort algorithm.
- Chart.VisibleSeriesBlocks: the order of the blocks rests on the same V8 sort order as `Chart.ColoredLastStable`, and is not proved for other engines.
- DataJoin.Sort: `d3.ascending` on strings compares UTF-16 code units. The model compares characters as code points, which gives the same order outside surrogate pairs.
- Chart.CodesOf gives a region missing from `countryCodeByRegion` no codes, where the code would throw on `undefined.map`. `WellFormed` data, which `Join` always builds, never has such a region.
- `console.log(coloredSeries)` is output only.
- The `wrap` of the annotation texts in `render` is not modelled. It is the same `wrap` as for the hovered name.
- Chart.LineChart.Update: the mute classes are kept as a set of line names. When two visible series share a name, d3's keyed join (`js/line-chart.js` 148-153) gives the repeated one a fresh, unmuted path, which the model does not capture; its mute clause is exact only for visible series with distinct names.
- Page.Page.LegendChanged requires the event to come from a legend checkbox whose state matches the selection, as the legend draws them; events from elsewhere are not modelled.
- Page.Page.TriggerScene requires a scene index below four. The trigger inputs always give one, and any other index would throw.
- The `selectedRegions` array is never mutated in place, only reassigned. The model therefore copies the sequence instead of sharing the array between the page, the chart and the legend.
