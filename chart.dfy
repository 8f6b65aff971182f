/**
 * `LineChart` of `js/line-chart.js`: `update` (lines 72-119) derives the
 * visible series, the colored series and the hover points from the data and
 * the current selection, and `mouseentered`, `mousemoved` and `mouseleft`
 * (lines 191-246) keep the hover state.
 *
 * Screen coordinates, scales, the Delaunay index and the SVG are not part of
 * this model: a point keeps its data, and `delaunay.find` is the `found`
 * argument of `MouseMoved`.
 */
module Chart {
  import opened Wrappers
  import opened Seqs
  import opened DataJoin
  import opened TextWrap

  /** The right margin of the chart, where the labels are written. */
  const MARGIN_RIGHT: real := 200.0

  /** `this.margin.right - 16`: the width the name label is wrapped to. */
  const LABEL_WIDTH: real := MARGIN_RIGHT - 16.0

  /** `parseFloat("0.35em")`: the `dy` of the name label. */
  const LABEL_DY: real := 0.35

  /** A scene annotation: the code of the series it traces and its text. */
  datatype Annotation = Annotation(code: string, text: string)

  /** `render` reads `this.data.series.get(d.code).values` for every
      annotation (line-chart.js 175, 182), so it returns normally exactly when
      every annotation's code has a series, and throws a `TypeError` otherwise. */
  predicate Renders(data: Data, annotations: seq<Annotation>)
  {
    forall a :: a in annotations ==> a.code in data.series
  }

  // ---------------------------------------------------------------------
  // Region order (line-chart.js 76-84)
  // ---------------------------------------------------------------------

  /** `regions.filter((region) => selectedRegions.includes(region))` */
  function Shown(regions: seq<string>, selected: seq<string>): seq<string>
  {
    Filter(regions, x => x in selected)
  }

  /** The shown regions are the regions that are selected, in region order. */
  lemma ShownSpec(regions: seq<string>, selected: seq<string>)
    ensures forall x :: x in Shown(regions, selected) <==> x in regions && x in selected
    ensures IsSubsequence(Shown(regions, selected), regions)
  {
    FilterIsSubsequence(regions, x => x in selected);
    forall x {
      FilterMembership(regions, x => x in selected, x);
    }
  }

  /** The comparator of the `sort`: a colored first argument compares above,
      otherwise a colored second argument compares below. */
  function Compare(a: string, b: string, colored: seq<string>): int
  {
    if a in colored then 1 else if b in colored then -1 else 0
  }

  /** The order the `sort` leaves the shown regions in: the regions that are
      not colored, in their order, then the colored ones, in their order. This
      is what a binary insertion sort makes of the comparator. */
  function ColoredLast(rs: seq<string>, colored: seq<string>): seq<string>
  {
    Filter(rs, x => x !in colored) + Filter(rs, x => x in colored)
  }

  /** The sorted regions are a permutation of the shown ones. */
  lemma ColoredLastPermutation(rs: seq<string>, colored: seq<string>)
    ensures multiset(ColoredLast(rs, colored)) == multiset(rs)
  {
    var notC: string -> bool := x => x !in colored;
    var isC: string -> bool := x => x in colored;
    var r := Filter(rs, notC) + Filter(rs, isC);
    forall x ensures multiset(r)[x] == multiset(rs)[x] {
      FilterMultiset(rs, notC, x);
      FilterMultiset(rs, isC, x);
    }
    assert multiset(r) == multiset(rs);
  }

  /** No sorted region compares below one before it: every uncolored region
      comes before every colored one. */
  lemma ColoredLastOrdered(rs: seq<string>, colored: seq<string>)
    ensures var r := ColoredLast(rs, colored);
            forall i, j :: 0 <= i < j < |r| ==> Compare(r[j], r[i], colored) >= 0
  {
    var notC: string -> bool := x => x !in colored;
    var isC: string -> bool := x => x in colored;
    var plain, bright := Filter(rs, notC), Filter(rs, isC);
    var r := plain + bright;
    FilterPasses(rs, notC);
    FilterPasses(rs, isC);
    forall i, j | 0 <= i < j < |r| ensures Compare(r[j], r[i], colored) >= 0 {
      if j < |plain| {
        assert r[i] == plain[i] && r[j] == plain[j];
      } else {
        assert r[j] == bright[j - |plain|];
      }
    }
  }

  /** The uncolored and the colored regions each keep their relative order. */
  lemma ColoredLastStable(rs: seq<string>, colored: seq<string>)
    ensures Filter(ColoredLast(rs, colored), x => x !in colored) == Filter(rs, x => x !in colored)
    ensures Filter(ColoredLast(rs, colored), x => x in colored) == Filter(rs, x => x in colored)
  {
    var notC: string -> bool := x => x !in colored;
    var isC: string -> bool := x => x in colored;
    var plain, bright := Filter(rs, notC), Filter(rs, isC);
    FilterPasses(rs, notC);
    FilterPasses(rs, isC);
    FilterConcat(plain, bright, notC);
    FilterAll(plain, notC);
    FilterNone(bright, notC);
    FilterConcat(plain, bright, isC);
    FilterNone(plain, isC);
    FilterAll(bright, isC);
  }

  // ---------------------------------------------------------------------
  // Visible series (line-chart.js 74-92)
  // ---------------------------------------------------------------------

  /** `countryCodeByRegion.get(region)`; every region of a well-formed data
      set has a list, so the empty default does not arise there. */
  function CodesOf(data: Data, r: string): seq<string>
  {
    if r in data.countryCodeByRegion then data.countryCodeByRegion[r] else []
  }

  /** `series.get(countryCode)`, `None` standing for `undefined`. */
  function Lookup(data: Data, c: string): Option<Series>
  {
    if c in data.series then Some(data.series[c]) else None
  }

  function Lookups(data: Data, r: string): seq<Option<Series>>
  {
    Map(CodesOf(data, r), c => Lookup(data, c))
  }

  /** The series of the codes of one region, in table order, codes without a
      series dropped. */
  function RegionSeries(data: Data, r: string): seq<Series>
  {
    Somes(Lookups(data, r))
  }

  /** The series of the regions `rs`, region by region. */
  function SeriesOfRegions(data: Data, rs: seq<string>): seq<Series>
  {
    Flatten(Map(rs, r => RegionSeries(data, r)))
  }

  function RegionOrder(data: Data, selected: seq<string>, colored: seq<string>): seq<string>
  {
    ColoredLast(Shown(data.regions, selected), colored)
  }

  /** `this.visibleSeries` as `update` computes it. */
  function VisibleSeries(data: Data, selected: seq<string>, colored: seq<string>): seq<Series>
  {
    Somes(Flatten(Map(RegionOrder(data, selected, colored), r => Lookups(data, r))))
  }

  /** The visible series are the series of the shown regions that are not
      colored, region after region in the order of `data.regions`, followed by
      those of the shown colored regions in the same order. */
  lemma VisibleSeriesBlocks(data: Data, selected: seq<string>, colored: seq<string>)
    ensures var shown := Shown(data.regions, selected);
            VisibleSeries(data, selected, colored) ==
              SeriesOfRegions(data, Filter(shown, x => x !in colored)) +
              SeriesOfRegions(data, Filter(shown, x => x in colored))
  {
    var shown := Shown(data.regions, selected);
    var plain, bright := Filter(shown, x => x !in colored), Filter(shown, x => x in colored);
    var order := RegionOrder(data, selected, colored);
    assert order == plain + bright;
    var ss := Map(order, r => Lookups(data, r));
    SomesFlatten(ss);
    assert Map(ss, Somes) == Map(order, r => RegionSeries(data, r));
    MapConcat(plain, bright, r => RegionSeries(data, r));
    FlattenConcat(Map(plain, r => RegionSeries(data, r)), Map(bright, r => RegionSeries(data, r)));
  }

  /** A series is visible exactly when some code listed under a region that
      is both in `data.regions` and selected has it as its series. */
  lemma VisibleSeriesMembership(data: Data, selected: seq<string>, colored: seq<string>, s: Series)
    ensures s in VisibleSeries(data, selected, colored) <==>
            exists r, c :: r in data.regions && r in selected && c in CodesOf(data, r) &&
                           Lookup(data, c) == Some(s)
  {
    if s in VisibleSeries(data, selected, colored) {
      VisibleSeriesSource(data, selected, colored, s);
    }
    if exists r, c :: r in data.regions && r in selected && c in CodesOf(data, r) && Lookup(data, c) == Some(s) {
      var r, c :| r in data.regions && r in selected && c in CodesOf(data, r) && Lookup(data, c) == Some(s);
      VisibleSeriesComplete(data, selected, colored, r, c);
    }
  }

  lemma VisibleSeriesSource(data: Data, selected: seq<string>, colored: seq<string>, s: Series)
    requires s in VisibleSeries(data, selected, colored)
    ensures exists r, c :: r in data.regions && r in selected && c in CodesOf(data, r) &&
                           Lookup(data, c) == Some(s)
  {
    var order := RegionOrder(data, selected, colored);
    var ss := Map(order, r => Lookups(data, r));
    SomesMembership(Flatten(ss), s);
    FlattenMembership(ss, Some(s));
    var k :| 0 <= k < |ss| && Some(s) in ss[k];
    var r := order[k];
    ColoredLastPermutation(Shown(data.regions, selected), colored);
    ShownSpec(data.regions, selected);
    assert r in multiset(order);
    assert r in Shown(data.regions, selected);
    var j :| 0 <= j < |CodesOf(data, r)| && Lookups(data, r)[j] == Some(s);
    var c := CodesOf(data, r)[j];
    assert c in CodesOf(data, r) && Lookup(data, c) == Some(s);
  }

  lemma VisibleSeriesComplete(data: Data, selected: seq<string>, colored: seq<string>, r: string, c: string)
    requires r in data.regions && r in selected && c in CodesOf(data, r) && c in data.series
    ensures data.series[c] in VisibleSeries(data, selected, colored)
  {
    var s := data.series[c];
    var order := RegionOrder(data, selected, colored);
    var ss := Map(order, r => Lookups(data, r));
    ColoredLastPermutation(Shown(data.regions, selected), colored);
    ShownSpec(data.regions, selected);
    assert r in multiset(Shown(data.regions, selected));
    assert r in multiset(order);
    var k :| 0 <= k < |order| && order[k] == r;
    var j :| 0 <= j < |CodesOf(data, r)| && CodesOf(data, r)[j] == c;
    assert Lookups(data, r)[j] == Some(s);
    assert Some(s) in ss[k];
    FlattenMembership(ss, Some(s));
    SomesMembership(Flatten(ss), s);
  }

  /** Only which regions of `data.regions` are selected matters: not the
      order of the selection, its repetitions, or names that are not regions. */
  lemma VisibleSeriesSelectionSet(data: Data, selected: seq<string>, selected': seq<string>, colored: seq<string>)
    requires forall r :: r in data.regions ==> (r in selected <==> r in selected')
    ensures VisibleSeries(data, selected, colored) == VisibleSeries(data, selected', colored)
  {
    FilterExt(data.regions, x => x in selected, x => x in selected');
  }

  /** `values` is never longer than `years`, so each value has its year. */
  ghost predicate FitsYears(years: seq<int>, ss: seq<Series>)
  {
    forall s :: s in ss ==> |s.values| <= |years|
  }

  lemma VisibleSeriesFitsYears(data: Data, selected: seq<string>, colored: seq<string>)
    requires WellFormed(data)
    ensures FitsYears(data.years, VisibleSeries(data, selected, colored))
  {
    forall s | s in VisibleSeries(data, selected, colored) ensures |s.values| <= |data.years| {
      VisibleSeriesMembership(data, selected, colored, s);
    }
  }

  // ---------------------------------------------------------------------
  // Colored series and points (line-chart.js 95-115)
  // ---------------------------------------------------------------------

  /** `coloredRegions.includes(d.region)`; an `undefined` region is never included. */
  predicate InColored(s: Series, colored: seq<string>)
  {
    s.region.Some? && s.region.value in colored
  }

  /** `coloredSeries`: the visible series of colored regions, in visible order. */
  function ColoredSeries(visible: seq<Series>, colored: seq<string>): seq<Series>
  {
    Filter(visible, s => InColored(s, colored))
  }

  /** The colored series are exactly the visible series of colored regions,
      in visible order. */
  lemma ColoredSeriesSpec(visible: seq<Series>, colored: seq<string>)
    ensures forall s :: s in ColoredSeries(visible, colored) <==> s in visible && InColored(s, colored)
    ensures IsSubsequence(ColoredSeries(visible, colored), visible)
  {
    FilterIsSubsequence(visible, s => InColored(s, colored));
    forall s {
      FilterMembership(visible, s => InColored(s, colored), s);
    }
  }

  lemma ColoredFitsYears(years: seq<int>, visible: seq<Series>, colored: seq<string>)
    requires FitsYears(years, visible)
    ensures FitsYears(years, ColoredSeries(visible, colored))
  {
    ColoredSeriesSpec(visible, colored);
  }

  /** A hover point: the fields `update` attaches to it, `series` being the
      back-reference `d`. Its screen position is left out. */
  datatype Point = Point(name: string, region: Option<string>, year: int, value: Option<real>, series: Series)

  /** `d.values.map((value, i) => point)` for one series `d`. */
  function PointsOfSeries(years: seq<int>, s: Series): seq<Point>
    requires |s.values| <= |years|
  {
    seq(|s.values|, i requires 0 <= i < |s.values| => Point(s.name, s.region, years[i], s.values[i], s))
  }

  function NonNull(p: Point): bool { p.value.Some? }

  function YearOf(p: Point): int { p.year }

  /** The points of one series that survive the null filter. */
  function SeriesPoints(years: seq<int>, s: Series): seq<Point>
    requires |s.values| <= |years|
  {
    Filter(PointsOfSeries(years, s), NonNull)
  }

  /** `this.points`: the merged points of the colored series, nulls dropped. */
  function Points(years: seq<int>, colored: seq<Series>): seq<Point>
    requires FitsYears(years, colored)
  {
    Filter(Flatten(seq(|colored|, k requires 0 <= k < |colored| => PointsOfSeries(years, colored[k]))), NonNull)
  }

  /** There is exactly one point per colored series and year with a value:
      it carries that series' name, region, the year and the value. */
  lemma PointsMembership(years: seq<int>, colored: seq<Series>, p: Point)
    requires FitsYears(years, colored)
    ensures p in Points(years, colored) <==>
            exists k, i :: 0 <= k < |colored| && 0 <= i < |colored[k].values| && colored[k].values[i].Some? &&
                           p == Point(colored[k].name, colored[k].region, years[i], colored[k].values[i], colored[k])
  {
    var ss := seq(|colored|, k requires 0 <= k < |colored| => PointsOfSeries(years, colored[k]));
    FlattenMembership(ss, p);
    FilterMembership(Flatten(ss), NonNull, p);
    if p in Points(years, colored) {
      var k :| 0 <= k < |ss| && p in ss[k];
      var i :| 0 <= i < |ss[k]| && ss[k][i] == p;
    }
    if exists k, i :: 0 <= k < |colored| && 0 <= i < |colored[k].values| && colored[k].values[i].Some? &&
                      p == Point(colored[k].name, colored[k].region, years[i], colored[k].values[i], colored[k]) {
      var k, i :| 0 <= k < |colored| && 0 <= i < |colored[k].values| && colored[k].values[i].Some? &&
                  p == Point(colored[k].name, colored[k].region, years[i], colored[k].values[i], colored[k]);
      assert ss[k][i] == p;
      assert p in Flatten(ss);
    }
  }

  /** The points come series by series, in the order of the colored series,
      each series' points in year order. */
  lemma PointsBySeries(years: seq<int>, colored: seq<Series>)
    requires FitsYears(years, colored)
    ensures Points(years, colored) ==
            Flatten(seq(|colored|, k requires 0 <= k < |colored| => SeriesPoints(years, colored[k])))
  {
    var ss := seq(|colored|, k requires 0 <= k < |colored| => PointsOfSeries(years, colored[k]));
    FilterFlatten(ss, NonNull);
    assert Map(ss, s => Filter(s, NonNull)) ==
           seq(|colored|, k requires 0 <= k < |colored| => SeriesPoints(years, colored[k]));
  }

  /** Within one series, the points' years strictly increase when the years do. */
  lemma SeriesPointsYearsIncrease(years: seq<int>, s: Series)
    requires |s.values| <= |years|
    requires forall i, j :: 0 <= i < j < |years| ==> years[i] < years[j]
    ensures var ps := SeriesPoints(years, s);
            forall i, j :: 0 <= i < j < |ps| ==> ps[i].year < ps[j].year
  {
    var all := PointsOfSeries(years, s);
    assert forall i, j :: 0 <= i < j < |all| ==> all[i].year < all[j].year by {
      forall i, j | 0 <= i < j < |all| ensures all[i].year < all[j].year {
        assert all[i].year == years[i] && all[j].year == years[j];
      }
    }
    FilterIncreasing(all, YearOf, NonNull);
  }

  /** Which points of a colored series there are depends on that series only. */
  lemma SeriesPointsMembership(years: seq<int>, s: Series, p: Point)
    requires |s.values| <= |years|
    ensures p in SeriesPoints(years, s) <==>
            exists i :: 0 <= i < |s.values| && s.values[i].Some? &&
                        p == Point(s.name, s.region, years[i], s.values[i], s)
  {
    FilterMembership(PointsOfSeries(years, s), NonNull, p);
    if exists i :: 0 <= i < |s.values| && s.values[i].Some? && p == Point(s.name, s.region, years[i], s.values[i], s) {
      var i :| 0 <= i < |s.values| && s.values[i].Some? && p == Point(s.name, s.region, years[i], s.values[i], s);
      assert PointsOfSeries(years, s)[i] == p;
    }
  }

  // ---------------------------------------------------------------------
  // Hover labels (line-chart.js 203-239)
  // ---------------------------------------------------------------------

  /** A labelled dot of the hovered series: `{year, value}`. */
  datatype Dot = Dot(year: int, value: Option<real>)

  /** `s.values.map((d, i) => ({year: years[i], value: d})).filter(value !== null)` */
  function Dots(years: seq<int>, s: Series): seq<Dot>
    requires |s.values| <= |years|
  {
    Filter(seq(|s.values|, i requires 0 <= i < |s.values| => Dot(years[i], s.values[i])), HasValue)
  }

  function HasValue(d: Dot): bool { d.value.Some? }

  function DotOf(p: Point): Dot { Dot(p.year, p.value) }

  /** The labelled dots of a hovered series are exactly its points, as
      year-value pairs, in the same order. */
  lemma DotsArePoints(years: seq<int>, s: Series)
    requires |s.values| <= |years|
    ensures Dots(years, s) == Map(SeriesPoints(years, s), DotOf)
  {
    var ps := PointsOfSeries(years, s);
    var all := seq(|s.values|, i requires 0 <= i < |s.values| => Dot(years[i], s.values[i]));
    assert all == Map(ps, DotOf);
    FilterMap(ps, DotOf, HasValue, NonNull);
  }

  /** What `mousemoved` draws in the hovered layer: the dots with their
      values, and the series name wrapped into tspans. */
  datatype HoverLabel = HoverLabel(dots: seq<Dot>, name: string, nameLines: seq<Tspan>)

  /** The names of the line paths: `visibleSeries` keyed by `d.name`. */
  function Names(vs: seq<Series>): set<string>
  {
    set i | 0 <= i < |vs| :: vs[i].name
  }

  /** `linePath.classed("mute", (d) => d.name !== name)`: the muted lines. */
  function MutedFor(vs: seq<Series>, name: string): set<string>
  {
    set i | 0 <= i < |vs| && vs[i].name != name :: vs[i].name
  }

  /** The whole state of a chart, as one value. */
  datatype ChartState = ChartState(annotations: seq<Annotation>, coloredRegions: seq<string>,
                                   selectedRegions: seq<string>, visibleSeries: seq<Series>,
                                   points: seq<Point>, iHovered: Option<nat>, muted: set<string>,
                                   hovered: Option<HoverLabel>)

  class LineChart {
    const data: Data
    var annotations: seq<Annotation>
    var coloredRegions: seq<string>
    var selectedRegions: seq<string>
    var visibleSeries: seq<Series>
    var points: seq<Point>
    /** The index into `points` of the hovered point; `None` for null. */
    var iHovered: Option<nat>
    /** The names of the lines that carry the class `mute`. */
    var muted: set<string>
    /** The contents of the hovered layer, `None` when it is empty. */
    var hovered: Option<HoverLabel>

    ghost predicate Valid()
      reads this
    {
      WellFormed(data)
    }

    /** `visibleSeries` and `points` are what `update` derives from the
        current selection. */
    ghost predicate Derived()
      reads this
    {
      visibleSeries == VisibleSeries(data, selectedRegions, coloredRegions) &&
      FitsYears(data.years, visibleSeries) &&
      (ColoredFitsYears(data.years, visibleSeries, coloredRegions);
       points == Points(data.years, ColoredSeries(visibleSeries, coloredRegions)))
    }

    /** Every point is one a mouse can hover: it carries the name of a
        visible, colored series whose values fit the years. This is what
        `mousemoved` relies on; `Derived` implies it. */
    ghost predicate Hoverable()
      reads this
    {
      forall j :: 0 <= j < |points| ==> HoverTarget(points[j], visibleSeries, coloredRegions, data.years)
    }

    lemma DerivedHoverable()
      requires Derived()
      ensures Hoverable()
    {
      ColoredFitsYears(data.years, visibleSeries, coloredRegions);
      var cs := ColoredSeries(visibleSeries, coloredRegions);
      forall j | 0 <= j < |points|
        ensures HoverTarget(points[j], visibleSeries, coloredRegions, data.years)
      {
        HoveredSeries(data.years, visibleSeries, coloredRegions, cs, points, j);
      }
    }

    function State(): ChartState
      reads this
    {
      ChartState(annotations, coloredRegions, selectedRegions, visibleSeries, points, iHovered, muted, hovered)
    }

    constructor(data: Data, selectedRegions: seq<string>)
      ensures this.data == data && this.selectedRegions == selectedRegions
      ensures annotations == [] && coloredRegions == [] && visibleSeries == [] && points == []
      ensures iHovered == None && muted == {} && hovered == None
    {
      this.data := data;
      this.selectedRegions := selectedRegions;
      annotations := [];
      coloredRegions := [];
      visibleSeries := [];
      points := [];
      iHovered := None;
      muted := {};
      hovered := None;
    }

    /** `update`: the series and points are derived again; the line paths are
        joined by name, so a line that stays visible keeps its `mute` class.
        `render` runs last and joins the lines before it draws the
        annotations, so every field is set even when it throws on an
        annotation without a series; `rendered` is false exactly then. */
    method Update() returns (rendered: bool)
      requires Valid()
      modifies this
      ensures rendered == Renders(data, annotations)
      ensures Derived()
      ensures muted == old(muted) * Names(visibleSeries)
      ensures annotations == old(annotations) && coloredRegions == old(coloredRegions)
      ensures selectedRegions == old(selectedRegions)
      ensures iHovered == old(iHovered) && hovered == old(hovered)
    {
      var vs := VisibleSeries(data, selectedRegions, coloredRegions);
      VisibleSeriesFitsYears(data, selectedRegions, coloredRegions);
      var coloredSeries := ColoredSeries(vs, coloredRegions);
      ColoredFitsYears(data.years, vs, coloredRegions);
      var ps := Points(data.years, coloredSeries);
      visibleSeries, points, muted := vs, ps, muted * Names(vs);
      rendered := Renders(data, annotations);
    }

    /** `mouseentered` */
    method MouseEntered()
      modifies this
      ensures iHovered == None
      ensures State() == old(State()).(iHovered := None)
    {
      iHovered := None;
    }

    /** `mousemoved`, `found` being what `delaunay.find` returns for the
        mouse position (`None` for NaN). A new hovered point mutes every other line
        and labels its series, which is a visible series of a colored region. */
    method MouseMoved(found: Option<nat>, measure: seq<string> -> real)
      requires Hoverable()
      requires found.Some? ==> found.value < |points|
      modifies this
      ensures annotations == old(annotations) && coloredRegions == old(coloredRegions)
      ensures selectedRegions == old(selectedRegions)
      ensures visibleSeries == old(visibleSeries) && points == old(points)
      ensures found.None? || found == old(iHovered) ==> State() == old(State())
      ensures found.Some? && found != old(iHovered) ==>
                iHovered == found &&
                muted == Names(visibleSeries) - {points[found.value].name} &&
                points[found.value].series in visibleSeries &&
                InColored(points[found.value].series, coloredRegions) &&
                hovered.Some? && Labels(hovered.value, points[found.value].series, data.years, measure)
    {
      if found.None? {
        return;
      }
      if iHovered == found {
        return;
      }
      var p := points[found.value];
      assert HoverTarget(p, visibleSeries, coloredRegions, data.years);
      var h := DrawHovered(data.years, p.series, measure);
      iHovered, muted, hovered := found, MutedFor(visibleSeries, p.name), Some(h);
    }

    /** `mouseleft`: nothing hovered, the hovered layer emptied, no line muted. */
    method MouseLeft()
      modifies this
      ensures iHovered == None && hovered == None && muted == {}
      ensures State() == old(State()).(iHovered := None, hovered := None, muted := {})
    {
      iHovered := None;
      hovered := None;
      muted := {};
    }
  }

  /** `h` is what hovering a point of `s` draws: the dots of `s` and its
      name, wrapped to the label width into at least one tspan. */
  ghost predicate Labels(h: HoverLabel, s: Series, years: seq<int>, measure: seq<string> -> real)
  {
    |s.values| <= |years| &&
    h.name == s.name &&
    h.dots == Dots(years, s) &&
    h.nameLines != [] &&
    Flatten(WordsOf(h.nameLines)) == Consumed(Split(s.name)) &&
    Spaced(h.nameLines, LABEL_DY) &&
    LinesFit(h.nameLines, LABEL_WIDTH, measure) &&
    BreaksOnOverflow(h.nameLines, LABEL_WIDTH, measure)
  }

  /** The hovered layer `mousemoved` draws for the series `s`: a dot with
      its value for every year with a value, and the name label wrapped with
      `wrap`. */
  method DrawHovered(years: seq<int>, s: Series, measure: seq<string> -> real) returns (h: HoverLabel)
    requires |s.values| <= |years|
    ensures Labels(h, s, years, measure)
  {
    var nameLines := Wrap(s.name, LABEL_WIDTH, LABEL_DY, measure);
    h := HoverLabel(Dots(years, s), s.name, nameLines);
  }

  /** Hovering `p` can draw it: its series is visible and colored, fits
      the years and gives `p` its name. */
  ghost predicate HoverTarget(p: Point, visible: seq<Series>, colored: seq<string>, years: seq<int>)
  {
    p.series in visible && InColored(p.series, colored) && |p.series.values| <= |years| &&
    p.name == p.series.name
  }

  lemma HoveredSeries(years: seq<int>, visible: seq<Series>, colored: seq<string>, cs: seq<Series>,
                      ps: seq<Point>, j: nat)
    requires cs == ColoredSeries(visible, colored) && FitsYears(years, cs)
    requires ps == Points(years, cs) && j < |ps|
    ensures HoverTarget(ps[j], visible, colored, years)
  {
    PointOrigin(years, cs, j);
    ColoredSeriesSpec(visible, colored);
  }

  /** Every point carries the name and region of the series it belongs to,
      and that series is one of the given (colored) series. */
  lemma PointOrigin(years: seq<int>, colored: seq<Series>, j: nat)
    requires FitsYears(years, colored) && j < |Points(years, colored)|
    ensures var p := Points(years, colored)[j];
            p.name == p.series.name && p.region == p.series.region && p.series in colored &&
            p.year in years && p.value.Some?
  {
    PointsMembership(years, colored, Points(years, colored)[j]);
  }
}
