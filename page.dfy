/**
 * The page of `js/main.js`: the four scenes (lines 56-125), the user's
 * region selection (line 131), `triggerScene` (lines 142-157) and the legend
 * toggle (lines 160-168), driving a `LineChart` and a `LineLegend`.
 *
 * The scene texts, colours and the DOM are not part of this model; the scene
 * index and the toggled checkbox are parameters of the methods that handle
 * the page's `change` events.
 */
module Page {
  import opened Wrappers
  import opened Seqs
  import opened DataJoin
  import opened Chart

  /** A scene: its annotations, its colored regions and whether the legend
      (and so the user's selection) is shown. */
  datatype Scene = Scene(annotations: seq<Annotation>, coloredRegions: seq<string>, showLegend: bool)

  /** `scenes`, without their HTML content and annotation colours. */
  const SCENES: seq<Scene> := [
    // World Trend Overview
    Scene([Annotation("WLD", "World Average")], [], false),
    // Least Alcohol Consumption Region
    Scene([Annotation("MEA", "Middle East and North Africa Average")],
          ["Middle East and North Africa"], false),
    // Most Alcohol Consumption Region
    Scene([Annotation("ECS", "Europe and Central Asia Average")],
          ["Europe and Central Asia"], false),
    // Explore All Countries
    Scene([], ["East Asia and Pacific", "Europe and Central Asia", "Latin America and Caribbean",
               "Middle East and North Africa", "North America", "South Asia", "Sub-Saharan Africa"],
          true)
  ]

  /** Which data lets a scene's `render` return: the first three scenes need
      the series of their average row, the last one needs nothing. */
  lemma SceneRenders(data: Data, i: nat)
    requires i < |SCENES|
    ensures Renders(data, SCENES[i].annotations) <==> i == 3 || ["WLD", "MEA", "ECS"][i] in data.series
  {
  }

  // ---------------------------------------------------------------------
  // The color domain (main.js 50, 76-100, 131)
  // ---------------------------------------------------------------------

  /** The regions the scene literals pass to `color(...)` before the
      selection is set up, in call order (main.js 76-77, 83, 93-94, 100). */
  const SCENE_COLOR_CALLS: seq<string> := [
    "Middle East and North Africa", "Middle East and North Africa",
    "Europe and Central Asia", "Europe and Central Asia"
  ]

  /** An ordinal scale's domain after it meets `names` in order: a name it
      does not hold yet is appended, a name it holds is skipped. This is what
      `domain(names)` does, and what calling the scale on a value outside
      its domain does. */
  function Intern(domain: seq<string>, names: seq<string>): seq<string>
    decreases |names|
  {
    if names == [] then domain
    else Intern(if names[0] in domain then domain else domain + [names[0]], names[1..])
  }

  /** `color.domain()` from line 131 on: the domain set from `data.regions`,
      then met by the scene literals' calls. */
  function ColorDomain(regions: seq<string>): seq<string>
  {
    Intern([], regions + SCENE_COLOR_CALLS)
  }

  /** Interning holds exactly the names of the domain and of `names`, keeps
      the domain as its prefix and adds no duplicate. */
  lemma {:induction false} InternSpec(domain: seq<string>, names: seq<string>)
    ensures forall x :: x in Intern(domain, names) <==> x in domain || x in names
    ensures |domain| <= |Intern(domain, names)| && Intern(domain, names)[..|domain|] == domain
    ensures NoDuplicates(domain) ==> NoDuplicates(Intern(domain, names))
    decreases |names|
  {
    if names != [] {
      var next := if names[0] in domain then domain else domain + [names[0]];
      InternSpec(next, names[1..]);
      assert names == [names[0]] + names[1..];
      assert next[..|domain|] == domain;
      if NoDuplicates(domain) && names[0] !in domain {
        forall i, j | 0 <= i < j < |next| ensures next[i] != next[j] {
          if j == |domain| {
            assert next[i] == domain[i];
          }
        }
      }
    }
  }

  /** Interning distinct names that are all new appends them all. */
  lemma {:induction false} InternFresh(domain: seq<string>, names: seq<string>)
    requires NoDuplicates(domain + names)
    ensures Intern(domain, names) == domain + names
    decreases |names|
  {
    if names != [] {
      var d := domain + names;
      assert names[0] !in domain by {
        forall i | 0 <= i < |domain| ensures domain[i] != names[0] {
          assert d[i] == domain[i] && d[|domain|] == names[0];
        }
      }
      assert (domain + [names[0]]) + names[1..] == d;
      InternFresh(domain + [names[0]], names[1..]);
    }
  }

  lemma {:induction false} InternConcat(domain: seq<string>, a: seq<string>, b: seq<string>)
    ensures Intern(domain, a + b) == Intern(Intern(domain, a), b)
    decreases |a|
  {
    if a == [] {
      assert a + b == b;
    } else {
      assert (a + b)[0] == a[0] && (a + b)[1..] == a[1..] + b;
      InternConcat(if a[0] in domain then domain else domain + [a[0]], a[1..], b);
    }
  }

  /** The color domain holds every region and the scene regions, each once.
      For regions without repeats (as `Regions` builds them) they come first,
      in order, followed by the scene regions the table lacks. */
  lemma ColorDomainSpec(regions: seq<string>)
    ensures forall x :: x in ColorDomain(regions) <==> x in regions || x in SCENE_COLOR_CALLS
    ensures NoDuplicates(ColorDomain(regions))
    ensures NoDuplicates(regions) ==>
              ColorDomain(regions) == Intern(regions, SCENE_COLOR_CALLS) &&
              ColorDomain(regions)[..|regions|] == regions
  {
    InternSpec([], regions + SCENE_COLOR_CALLS);
    if NoDuplicates(regions) {
      InternConcat([], regions, SCENE_COLOR_CALLS);
      assert [] + regions == regions;
      InternFresh([], regions);
      InternSpec(regions, SCENE_COLOR_CALLS);
    }
  }

  /** Selecting the whole color domain shows the same series as selecting
      exactly `data.regions`: the scene regions it adds are only shown if they
      are regions. */
  lemma ColorDomainVisible(data: Data, colored: seq<string>)
    ensures VisibleSeries(data, ColorDomain(data.regions), colored) == VisibleSeries(data, data.regions, colored)
  {
    ColorDomainSpec(data.regions);
    VisibleSeriesSelectionSet(data, ColorDomain(data.regions), data.regions, colored);
  }

  // ---------------------------------------------------------------------
  // The legend toggle (main.js 161-165)
  // ---------------------------------------------------------------------

  /** `[region, ...selectedRegions]`: checking a legend item. */
  function Check(selected: seq<string>, region: string): seq<string>
  {
    [region] + selected
  }

  /** `selectedRegions.filter((d) => d !== region)`: unchecking a legend item. */
  function Uncheck(selected: seq<string>, region: string): seq<string>
  {
    Filter(selected, d => d != region)
  }

  /** Checking adds one occurrence of the region and keeps every other one. */
  lemma CheckSpec(selected: seq<string>, region: string)
    ensures multiset(Check(selected, region)) == multiset(selected) + multiset{region}
    ensures forall x :: x in Check(selected, region) <==> x == region || x in selected
  {
  }

  /** Unchecking removes every occurrence of the region and keeps the other
      regions as often as they were, in their order. */
  lemma UncheckSpec(selected: seq<string>, region: string)
    ensures forall x :: x in Uncheck(selected, region) <==> x in selected && x != region
    ensures multiset(Uncheck(selected, region)) == multiset(selected)[region := 0]
    ensures IsSubsequence(Uncheck(selected, region), selected)
  {
    var p: string -> bool := d => d != region;
    forall x ensures x in Uncheck(selected, region) <==> x in selected && x != region {
      FilterMembership(selected, p, x);
    }
    forall x ensures multiset(Uncheck(selected, region))[x] == multiset(selected)[region := 0][x] {
      FilterMultiset(selected, p, x);
    }
    FilterIsSubsequence(selected, p);
  }

  /** Checking a region and unchecking it again leaves the selection that
      unchecking alone leaves. */
  lemma CheckThenUncheck(selected: seq<string>, region: string)
    ensures Uncheck(Check(selected, region), region) == Uncheck(selected, region)
  {
  }

  /** Unchecking a selected region and checking it again restores the same
      set of selected regions, and so the same visible series. */
  lemma UncheckThenCheck(data: Data, selected: seq<string>, colored: seq<string>, region: string)
    requires region in selected
    ensures forall x :: x in Check(Uncheck(selected, region), region) <==> x in selected
    ensures VisibleSeries(data, Check(Uncheck(selected, region), region), colored) ==
            VisibleSeries(data, selected, colored)
  {
    UncheckSpec(selected, region);
    VisibleSeriesSelectionSet(data, Check(Uncheck(selected, region), region), selected, colored);
  }

  /** After unchecking a region, the visible series are those of the other
      selected regions. */
  lemma UncheckVisible(data: Data, selected: seq<string>, colored: seq<string>, region: string, s: Series)
    ensures s in VisibleSeries(data, Uncheck(selected, region), colored) <==>
            exists r, c :: r in data.regions && r in selected && r != region &&
                           c in CodesOf(data, r) && Lookup(data, c) == Some(s)
  {
    UncheckSpec(selected, region);
    VisibleSeriesMembership(data, Uncheck(selected, region), colored, s);
  }

  /** After checking a region, the visible series are those visible before
      and those of the region itself. */
  lemma CheckVisible(data: Data, selected: seq<string>, colored: seq<string>, region: string, s: Series)
    ensures s in VisibleSeries(data, Check(selected, region), colored) <==>
            s in VisibleSeries(data, selected, colored) ||
            (region in data.regions && exists c :: c in CodesOf(data, region) && Lookup(data, c) == Some(s))
  {
    VisibleSeriesMembership(data, Check(selected, region), colored, s);
    VisibleSeriesMembership(data, selected, colored, s);
  }

  /** The user's selection holds regions of the color domain, each once. */
  ghost predicate SelectionOk(selected: seq<string>, domain: seq<string>)
  {
    NoDuplicates(selected) && forall r :: r in selected ==> r in domain
  }

  /** A legend click keeps the selection within the domain and free of
      repeats: the checkboxes are the domain's regions (line-legend.js 12),
      and a click checks a box exactly when its region is not selected. */
  lemma ToggleKeepsSelection(selected: seq<string>, domain: seq<string>, region: string, checked: bool)
    requires SelectionOk(selected, domain) && region in domain
    requires checked == (region !in selected)
    ensures SelectionOk(if checked then Check(selected, region) else Uncheck(selected, region), domain)
  {
    if checked {
      ConsNoDuplicates(region, selected);
    } else {
      UncheckSpec(selected, region);
      FilterNoDuplicates(selected, d => d != region);
    }
  }

  // ---------------------------------------------------------------------
  // The legend and the page (main.js 131-168; line-legend.js 40-42)
  // ---------------------------------------------------------------------

  /** The part of `LineLegend` the scenes drive: `show`, and whether the
      legend wrapper is hidden (`display: none`). */
  class LineLegend {
    const selected: seq<string>
    var show: bool
    var hidden: bool

    /** `show` is `undefined` until the first scene sets it. */
    constructor(selected: seq<string>)
      ensures this.selected == selected && !show && !hidden
    {
      this.selected := selected;
      show := false;
      hidden := false;
    }

    /** `update`: the legend is hidden exactly when it is not to be shown. */
    method Update()
      modifies this
      ensures hidden == !show && show == old(show)
    {
      hidden := !show;
    }
  }

  /** What the page shows, as one value. */
  datatype PageState = PageState(selectedRegions: seq<string>, chart: ChartState, legendShown: bool,
                                 legendHidden: bool)

  class Page {
    /** `let selectedRegions`: the user's selection, kept while a scene
        without the legend forces every region onto the chart. */
    var selectedRegions: seq<string>
    /** `color.domain()`: every region and the scene regions. */
    const colorDomain: seq<string>
    const chart: LineChart
    const legend: LineLegend
    /** Whether the page's `change` handlers (main.js 138-140, 160-168) are
        registered: the setup registers them only after the first
        `triggerScene` returns, so a throw in it leaves the page without them. */
    var listening: bool

    ghost predicate Valid()
      reads this, chart
    {
      chart.Valid() && colorDomain == ColorDomain(chart.data.regions) &&
      SelectionOk(selectedRegions, colorDomain)
    }

    function State(): PageState
      reads this, chart, legend
    {
      PageState(selectedRegions, chart.State(), legend.show, legend.hidden)
    }

    /** The page set up: the whole color domain selected, the chart and the
        legend created over that selection, and the checked scene `initial`
        triggered. If that throws, the legend keeps its initial state and no
        handler is registered. */
    constructor(data: Data, initial: nat)
      requires WellFormed(data) && initial < |SCENES|
      ensures Valid() && fresh(chart) && fresh(legend)
      ensures colorDomain == ColorDomain(data.regions) && chart.data == data
      ensures selectedRegions == colorDomain && legend.selected == colorDomain
      ensures ChartShows(initial)
      ensures listening == Renders(data, SCENES[initial].annotations)
      ensures listening ==> LegendShows(initial)
      ensures !listening ==> !legend.show && !legend.hidden
      ensures chart.muted == {} && chart.iHovered == None && chart.hovered == None
    {
      var domain := ColorDomain(data.regions);
      ColorDomainSpec(data.regions);
      colorDomain := domain;
      selectedRegions := domain;
      chart := new LineChart(data, domain);
      legend := new LineLegend(domain);
      new;
      listening := TriggerScene(initial);
    }

    /** The chart shows scene `i`: its annotations and colored regions, the
        user's selection if the legend is shown and the whole color domain
        otherwise, with the series and points derived from them. */
    ghost predicate ChartShows(i: nat)
      requires i < |SCENES|
      reads this, chart
    {
      var scene := SCENES[i];
      chart.annotations == scene.annotations && chart.coloredRegions == scene.coloredRegions &&
      chart.selectedRegions == (if scene.showLegend then selectedRegions else colorDomain) &&
      chart.Derived()
    }

    /** The legend is shown, and displayed, exactly when scene `i` says so. */
    predicate LegendShows(i: nat)
      requires i < |SCENES|
      reads legend
    {
      legend.show == SCENES[i].showLegend && legend.hidden == !SCENES[i].showLegend
    }

    /** `triggerScene(i)`. `chart.update()` sets the whole chart and then
        throws if an annotation of the scene has no series; the legend lines
        are then skipped, and `completed` is false. The setup calls it once;
        afterwards only the trigger inputs' `change` handler calls it, and that
        handler is registered only when the page is `listening` (main.js
        136-140). The method does not require `listening` because the setup's
        own call comes before it is set. */
    method TriggerScene(i: nat) returns (completed: bool)
      requires Valid() && i < |SCENES|
      modifies chart, legend
      ensures completed == Renders(chart.data, SCENES[i].annotations)
      ensures Valid() && ChartShows(i)
      ensures completed ==> LegendShows(i)
      ensures !completed ==> legend.show == old(legend.show) && legend.hidden == old(legend.hidden)
      ensures !SCENES[i].showLegend ==>
                chart.visibleSeries == VisibleSeries(chart.data, chart.data.regions, chart.coloredRegions)
      ensures chart.muted == old(chart.muted) * Names(chart.visibleSeries)
      ensures chart.iHovered == old(chart.iHovered) && chart.hovered == old(chart.hovered)
    {
      var scene := SCENES[i];
      chart.annotations := scene.annotations;
      chart.coloredRegions := scene.coloredRegions;
      chart.selectedRegions := if scene.showLegend then selectedRegions else colorDomain;
      completed := chart.Update();
      ColorDomainVisible(chart.data, chart.coloredRegions);
      if completed {
        legend.show := scene.showLegend;
        legend.Update();
      }
    }

    /** Triggering the same scene twice leaves the page as triggering it once. */
    method TriggerSceneTwice(i: nat) returns (once: PageState, twice: PageState)
      requires Valid() && i < |SCENES|
      modifies chart, legend
      ensures once == twice && twice == State()
    {
      var _ := TriggerScene(i);
      once := State();
      var _ := TriggerScene(i);
      twice := State();
    }

    /** The legend's `change` handler for the item `region`, `checked` being
        the state of its checkbox after the click. The checkboxes are the
        color domain's regions, and each shows whether its region is selected
        (line-legend.js 12-21), so a click checks it exactly when the region is
        not selected. A throw in `chart.update()` ends the handler after the
        chart is set, with nothing left to skip. The handler exists only once
        the page is `listening`. */
    method LegendChanged(region: string, checked: bool)
      requires Valid() && listening && region in colorDomain && checked == (region !in selectedRegions)
      modifies this, chart
      ensures Valid() && listening
      ensures selectedRegions == if checked then Check(old(selectedRegions), region)
                                 else Uncheck(old(selectedRegions), region)
      ensures chart.selectedRegions == selectedRegions && chart.Derived()
      ensures chart.muted == old(chart.muted) * Names(chart.visibleSeries)
      ensures chart.annotations == old(chart.annotations) && chart.coloredRegions == old(chart.coloredRegions)
      ensures chart.iHovered == old(chart.iHovered) && chart.hovered == old(chart.hovered)
    {
      if checked {
        selectedRegions := Check(selectedRegions, region);
      } else {
        selectedRegions := Uncheck(selectedRegions, region);
      }
      ToggleKeepsSelection(old(selectedRegions), colorDomain, region, checked);
      chart.selectedRegions := selectedRegions;
      var _ := chart.Update();
    }
  }
}
