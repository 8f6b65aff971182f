/**
 * The dataset join of `js/main.js` (lines 9-40): the region table is grouped
 * into region -> country codes, the distinct regions are sorted, and the
 * values table becomes country code -> series, one value slot per year with
 * the missing-data marker `".."` read as `null`.
 */
module DataJoin {
  import opened Wrappers
  import opened Seqs

  /** A row of the region table: its `Code` and its
      `World Region according to the World Bank` column. */
  datatype RegionRow = RegionRow(code: string, region: string)

  /** A row of the values table: `Country Name`, `Country Code` and one text
      cell per year column. */
  datatype ValueRow = ValueRow(countryName: string, countryCode: string,
                               y2000: string, y2015: string, y2018: string)

  /** The fixed year list every series is aligned with. */
  const YEARS: seq<int> := [2000, 2015, 2018]

  /** The token the values table uses for a missing observation. */
  const MISSING: string := ".."

  /** One country's series: `values[i]` is the observation of `years[i]`,
      `None` standing for `null`; `region` is `None` for `undefined`. */
  datatype Series = Series(name: string, region: Option<string>, code: string,
                           values: seq<Option<real>>)

  /** The `data` object handed to the chart. */
  datatype Data = Data(countryCodeByRegion: map<string, seq<string>>,
                       regions: seq<string>,
                       years: seq<int>,
                       series: map<string, Series>)

  function RegionOf(d: RegionRow): string { d.region }
  function CodeOf(d: RegionRow): string { d.code }
  function CountryCodeOf(d: ValueRow): string { d.countryCode }

  /** `d[year]`: the text of the row's column for `year`. */
  function Cell(d: ValueRow, year: int): string
    requires year in YEARS
  {
    if year == 2000 then d.y2000 else if year == 2015 then d.y2015 else d.y2018
  }

  // ---------------------------------------------------------------------
  // Grouping (d3.group, the first half of d3.rollup)
  // ---------------------------------------------------------------------

  /** The keys that occur in `rows`. */
  ghost function KeySet<T>(rows: seq<T>, key: T -> string): set<string>
  {
    set i | 0 <= i < |rows| :: key(rows[i])
  }

  /** The rows whose key is `k`, in table order: the reference for a group. */
  function Select<T>(rows: seq<T>, key: T -> string, k: string): seq<T>
  {
    Filter(rows, x => key(x) == k)
  }

  lemma SelectMembership<T>(rows: seq<T>, key: T -> string, k: string, x: T)
    ensures x in Select(rows, key, k) <==> x in rows && key(x) == k
  {
    FilterMembership(rows, x => key(x) == k, x);
  }

  lemma SelectNonEmpty<T>(rows: seq<T>, key: T -> string, k: string)
    ensures Select(rows, key, k) != [] ==> k in KeySet(rows, key)
  {
    if Select(rows, key, k) != [] {
      var y := Select(rows, key, k)[0];
      SelectMembership(rows, key, k, y);
      var i :| 0 <= i < |rows| && rows[i] == y;
      assert key(rows[i]) == k;
    }
  }

  /** Grouping: rows are visited in table order and appended to their key's group. */
  function Group<T>(rows: seq<T>, key: T -> string): (m: map<string, seq<T>>)
    ensures forall k :: k in m ==> m[k] != []
  {
    if rows == [] then map[]
    else
      var m := Group(rows[..|rows| - 1], key);
      var x := rows[|rows| - 1];
      m[key(x) := (if key(x) in m then m[key(x)] else []) + [x]]
  }

  /** Every key of the table has a group, nothing else does, and each group
      holds exactly the rows with that key, in table order. */
  lemma {:induction false} GroupIsSelect<T>(rows: seq<T>, key: T -> string)
    ensures Group(rows, key).Keys == KeySet(rows, key)
    ensures forall k :: k in Group(rows, key) ==> Group(rows, key)[k] == Select(rows, key, k)
  {
    if rows != [] {
      var pre, x := rows[..|rows| - 1], rows[|rows| - 1];
      assert rows == pre + [x];
      GroupIsSelect(pre, key);
      forall k | k in Group(rows, key)
        ensures Group(rows, key)[k] == Select(rows, key, k)
      {
        FilterConcat(pre, [x], y => key(y) == k);
        SelectNonEmpty(pre, key, k);
      }
      assert KeySet(rows, key) == KeySet(pre, key) + {key(x)} by {
        forall k | k in KeySet(rows, key) ensures k in KeySet(pre, key) + {key(x)} {
          var i :| 0 <= i < |rows| && key(rows[i]) == k;
          if i < |pre| { assert pre[i] == rows[i]; }
        }
        forall k | k in KeySet(pre, key) ensures k in KeySet(rows, key) {
          var i :| 0 <= i < |pre| && key(pre[i]) == k;
          assert rows[i] == pre[i];
        }
      }
    }
  }

  // ---------------------------------------------------------------------
  // countryCodeByRegion and regions (main.js 9-16)
  // ---------------------------------------------------------------------

  /** `v.map((d) => d.Code)` */
  function Codes(v: seq<RegionRow>): seq<string> { Map(v, CodeOf) }

  /** `d3.rollup(regionsData, (v) => v.map((d) => d.Code), (d) => d[region])` */
  function CountryCodeByRegion(regionRows: seq<RegionRow>): map<string, seq<string>>
  {
    var groups := Group(regionRows, RegionOf);
    map r | r in groups :: Codes(groups[r])
  }

  /** The codes of the rows whose region is `r`, in table order. */
  function CodesIn(regionRows: seq<RegionRow>, r: string): seq<string>
  {
    Codes(Select(regionRows, RegionOf, r))
  }

  /** The region -> codes map has one entry per region of the table, listing
      exactly that region's codes in table order. */
  lemma CountryCodeByRegionSpec(regionRows: seq<RegionRow>)
    ensures CountryCodeByRegion(regionRows).Keys == KeySet(regionRows, RegionOf)
    ensures forall r :: r in CountryCodeByRegion(regionRows) ==>
              CountryCodeByRegion(regionRows)[r] == CodesIn(regionRows, r)
  {
    GroupIsSelect(regionRows, RegionOf);
  }

  /** Membership in a region's code list, stated on the rows directly. */
  lemma CodesInMembership(regionRows: seq<RegionRow>, r: string, c: string)
    ensures c in CodesIn(regionRows, r) <==>
            exists i :: 0 <= i < |regionRows| && regionRows[i] == RegionRow(c, r)
  {
    var sel := Select(regionRows, RegionOf, r);
    if c in CodesIn(regionRows, r) {
      var j :| 0 <= j < |sel| && sel[j].code == c;
      SelectMembership(regionRows, RegionOf, r, sel[j]);
      assert RegionOf(sel[j]) == r;
      var i :| 0 <= i < |regionRows| && regionRows[i] == sel[j];
      assert regionRows[i] == RegionRow(sel[j].code, sel[j].region);
    }
    if exists i :: 0 <= i < |regionRows| && regionRows[i] == RegionRow(c, r) {
      var i :| 0 <= i < |regionRows| && regionRows[i] == RegionRow(c, r);
      assert RegionOf(regionRows[i]) == r;
      SelectMembership(regionRows, RegionOf, r, RegionRow(c, r));
      assert RegionRow(c, r) in sel;
      var j :| 0 <= j < |sel| && sel[j] == RegionRow(c, r);
      assert Codes(sel)[j] == c;
    }
  }

  /** The keys of a map in insertion order: each first occurrence, in order. */
  function Distinct(ks: seq<string>): (r: seq<string>)
    ensures forall x :: x in r <==> x in ks
    ensures NoDuplicates(r)
  {
    if ks == [] then []
    else
      var d := Distinct(ks[..|ks| - 1]);
      var x := ks[|ks| - 1];
      assert ks == ks[..|ks| - 1] + [x];
      if x in d then d else d + [x]
  }

  /** `Array.from(countryCodeByRegion.keys())`: the regions in order of first appearance. */
  function RegionKeys(regionRows: seq<RegionRow>): seq<string>
  {
    Distinct(Map(regionRows, RegionOf))
  }

  // -- `sort(d3.ascending)`: JavaScript's `<` on strings, lexicographic --

  /** `a < b` on strings: lexicographic on characters, a proper prefix first. */
  predicate Less(a: string, b: string)
  {
    if a == [] then b != []
    else if b == [] then false
    else if a[0] == b[0] then Less(a[1..], b[1..])
    else a[0] < b[0]
  }

  lemma {:induction false} LessIrreflexive(a: string)
    ensures !Less(a, a)
  {
    if a != [] { LessIrreflexive(a[1..]); }
  }

  lemma {:induction false} LessTransitive(a: string, b: string, c: string)
    requires Less(a, b) && Less(b, c)
    ensures Less(a, c)
  {
    if a != [] && b != [] && c != [] && a[0] == b[0] && b[0] == c[0] {
      LessTransitive(a[1..], b[1..], c[1..]);
    }
  }

  lemma {:induction false} LessTotal(a: string, b: string)
    requires a != b
    ensures Less(a, b) || Less(b, a)
  {
    if a != [] && b != [] && a[0] == b[0] {
      assert a == [a[0]] + a[1..] && b == [b[0]] + b[1..];
      LessTotal(a[1..], b[1..]);
    }
  }

  /** No element is smaller than one before it. */
  predicate Ascending(s: seq<string>)
  {
    forall i, j :: 0 <= i < j < |s| ==> !Less(s[j], s[i])
  }

  /** Places `x` after the elements not greater than it. */
  function Insert(x: string, s: seq<string>): (r: seq<string>)
    ensures multiset(r) == multiset(s) + multiset{x}
    ensures forall i :: 0 <= i < |r| ==> r[i] == x || r[i] in s
  {
    if s == [] then [x]
    else if Less(x, s[0]) then [x] + s
    else
      assert s == [s[0]] + s[1..];
      [s[0]] + Insert(x, s[1..])
  }

  lemma {:induction false} InsertAscending(x: string, s: seq<string>)
    requires Ascending(s)
    ensures Ascending(Insert(x, s))
  {
    if s != [] {
      if Less(x, s[0]) {
        forall j | 0 <= j < |s| ensures !Less(s[j], x) {
          NotBelowAfterHead(x, s, j);
        }
        ConsAscending(x, s);
      } else {
        InsertAscending(x, s[1..]);
        var t := Insert(x, s[1..]);
        forall j | 0 <= j < |t| ensures !Less(t[j], s[0]) {
          if t[j] != x {
            var k :| 0 <= k < |s[1..]| && s[1..][k] == t[j];
            assert s[k + 1] == t[j];
          }
        }
        ConsAscending(s[0], t);
      }
    }
  }

  /** A head not above any later element keeps an ascending sequence ascending. */
  lemma ConsAscending(h: string, t: seq<string>)
    requires Ascending(t)
    requires forall j :: 0 <= j < |t| ==> !Less(t[j], h)
    ensures Ascending([h] + t)
  {
  }

  /** An element of an ascending sequence is not below a value below its head. */
  lemma NotBelowAfterHead(x: string, s: seq<string>, j: int)
    requires Ascending(s) && 0 <= j < |s| && Less(x, s[0])
    ensures !Less(s[j], x)
  {
    LessIrreflexive(s[0]);
    if Less(s[j], x) {
      LessTransitive(s[j], x, s[0]);
    }
  }

  /** The sort the source calls on the region names (with `d3.ascending`). */
  function Sort(s: seq<string>): (r: seq<string>)
    ensures multiset(r) == multiset(s)
    ensures Ascending(r)
  {
    if s == [] then []
    else
      assert s == [s[0]] + s[1..];
      InsertAscending(s[0], Sort(s[1..]));
      Insert(s[0], Sort(s[1..]))
  }

  /** `regions`: the sorted list of distinct region names. */
  function Regions(regionRows: seq<RegionRow>): seq<string>
  {
    Sort(RegionKeys(regionRows))
  }

  /** Each strictly smaller than the next. */
  predicate StrictlyAscending(s: seq<string>)
  {
    forall i, j :: 0 <= i < j < |s| ==> Less(s[i], s[j])
  }

  /** `regions` holds exactly the region names of the table, each once, in
      strictly ascending order (so without duplicates). */
  lemma RegionsSpec(regionRows: seq<RegionRow>)
    ensures StrictlyAscending(Regions(regionRows))
    ensures NoDuplicates(Regions(regionRows))
    ensures forall r :: r in Regions(regionRows) <==> r in KeySet(regionRows, RegionOf)
    ensures forall r :: r in Regions(regionRows) <==> r in CountryCodeByRegion(regionRows)
  {
    var keys := RegionKeys(regionRows);
    var r := Regions(regionRows);
    forall i, j | 0 <= i < j < |r| ensures r[i] != r[j] {
      DistinctCountOne(keys, r[i]);
      TwoOccurrences(r, i, j);
    }
    forall i, j | 0 <= i < j < |r| ensures Less(r[i], r[j]) {
      LessTotal(r[i], r[j]);
    }
    forall x ensures x in r <==> x in keys {
      assert x in r <==> x in multiset(r);
      assert x in keys <==> x in multiset(keys);
    }
    forall x ensures x in Map(regionRows, RegionOf) <==> x in KeySet(regionRows, RegionOf) {
      if x in KeySet(regionRows, RegionOf) {
        var i :| 0 <= i < |regionRows| && regionRows[i].region == x;
        assert Map(regionRows, RegionOf)[i] == x;
      }
    }
    CountryCodeByRegionSpec(regionRows);
  }

  lemma TwoOccurrences(s: seq<string>, i: int, j: int)
    requires 0 <= i < j < |s|
    ensures s[i] == s[j] ==> multiset(s)[s[i]] >= 2
  {
    assert s == s[..i] + [s[i]] + s[i+1..j] + [s[j]] + s[j+1..];
  }

  lemma {:induction false} DistinctCountOne(s: seq<string>, x: string)
    requires NoDuplicates(s)
    ensures multiset(s)[x] <= 1
  {
    if s != [] {
      assert s == [s[0]] + s[1..];
      DistinctCountOne(s[1..], x);
      if s[0] == x {
        assert x !in s[1..];
      }
    }
  }

  // ---------------------------------------------------------------------
  // regionByCountryCode (main.js 19-24)
  // ---------------------------------------------------------------------

  /** `new Map(regionsData.map((d) => [d.Code, d[region]]))`: entries are set
      in table order, so a later row overwrites an earlier one with its code. */
  function RegionByCountryCode(regionRows: seq<RegionRow>): (m: map<string, string>)
    ensures m.Keys == KeySet(regionRows, CodeOf)
  {
    if regionRows == [] then map[]
    else
      var pre := regionRows[..|regionRows| - 1];
      var d := regionRows[|regionRows| - 1];
      var m := RegionByCountryCode(pre);
      assert KeySet(regionRows, CodeOf) == KeySet(pre, CodeOf) + {d.code} by {
        forall c | c in KeySet(regionRows, CodeOf) ensures c in KeySet(pre, CodeOf) + {d.code} {
          var i :| 0 <= i < |regionRows| && regionRows[i].code == c;
          if i < |pre| { assert pre[i] == regionRows[i]; }
        }
        forall c | c in KeySet(pre, CodeOf) ensures c in KeySet(regionRows, CodeOf) {
          var i :| 0 <= i < |pre| && pre[i].code == c;
          assert regionRows[i] == pre[i];
        }
      }
      m[d.code := d.region]
  }

  /** The region stored for a code is that of the LAST row with that code. */
  lemma {:induction false} RegionByCountryCodeLastWins(regionRows: seq<RegionRow>, i: int)
    requires 0 <= i < |regionRows|
    requires forall j :: i < j < |regionRows| ==> regionRows[j].code != regionRows[i].code
    ensures RegionByCountryCode(regionRows)[regionRows[i].code] == regionRows[i].region
  {
    if i < |regionRows| - 1 {
      var pre := regionRows[..|regionRows| - 1];
      forall j | i < j < |pre| ensures pre[j].code != pre[i].code {
        assert pre[j] == regionRows[j];
      }
      RegionByCountryCodeLastWins(pre, i);
    }
  }

  // ---------------------------------------------------------------------
  // series (main.js 26-40)
  // ---------------------------------------------------------------------

  /** `d[year] === ".." ? null : +d[year]`, with `+` given as `parse`. */
  function CellValue(d: ValueRow, year: int, parse: string -> real): Option<real>
    requires year in YEARS
  {
    if Cell(d, year) == MISSING then None else Some(parse(Cell(d, year)))
  }

  /** The series record built from one row of the values table: one value
      slot per year, in year order, `".."` read as `None` and any other cell
      as the parsed number (never a default). */
  function MakeSeries(d: ValueRow, regionByCode: map<string, string>, parse: string -> real): (s: Series)
    ensures s.name == d.countryName && s.code == d.countryCode
    ensures |s.values| == |YEARS|
    ensures forall i :: 0 <= i < |YEARS| ==> (s.values[i] == None <==> Cell(d, YEARS[i]) == MISSING)
    ensures forall i :: 0 <= i < |YEARS| && Cell(d, YEARS[i]) != MISSING ==>
              s.values[i] == Some(parse(Cell(d, YEARS[i])))
  {
    Series(d.countryName,
           if d.countryCode in regionByCode then Some(regionByCode[d.countryCode]) else None,
           d.countryCode,
           seq(|YEARS|, i requires 0 <= i < |YEARS| => CellValue(d, YEARS[i], parse)))
  }

  /** `d3.rollup(alcoholData, (v) => record of v[0], (d) => d["Country Code"])` */
  function SeriesByCode(valueRows: seq<ValueRow>, regionByCode: map<string, string>,
                        parse: string -> real): map<string, Series>
  {
    var groups := Group(valueRows, CountryCodeOf);
    map c | c in groups :: MakeSeries(groups[c][0], regionByCode, parse)
  }

  /** `series` is keyed by the codes of the values table; the record of a code
      is built from the FIRST row with that code, and carries that code. */
  lemma SeriesByCodeSpec(valueRows: seq<ValueRow>, regionByCode: map<string, string>,
                         parse: string -> real, c: string)
    ensures c in SeriesByCode(valueRows, regionByCode, parse) <==>
            exists i :: 0 <= i < |valueRows| && valueRows[i].countryCode == c
    ensures c in SeriesByCode(valueRows, regionByCode, parse) ==>
              SeriesByCode(valueRows, regionByCode, parse)[c].code == c &&
              exists i :: 0 <= i < |valueRows| && valueRows[i].countryCode == c &&
                (forall j :: 0 <= j < i ==> valueRows[j].countryCode != c) &&
                SeriesByCode(valueRows, regionByCode, parse)[c] == MakeSeries(valueRows[i], regionByCode, parse)
  {
    GroupIsSelect(valueRows, CountryCodeOf);
    var groups := Group(valueRows, CountryCodeOf);
    assert c in groups <==> c in KeySet(valueRows, CountryCodeOf);
    if c in groups {
      var g := groups[c];
      assert g == Select(valueRows, CountryCodeOf, c);
      var i := FirstSelected(valueRows, c);
      assert g[0] == valueRows[i];
    }
  }

  function FirstSelected(valueRows: seq<ValueRow>, c: string): (i: nat)
    requires Select(valueRows, CountryCodeOf, c) != []
    ensures i < |valueRows| && valueRows[i].countryCode == c
    ensures forall j :: 0 <= j < i ==> valueRows[j].countryCode != c
    ensures Select(valueRows, CountryCodeOf, c)[0] == valueRows[i]
  {
    if valueRows[0].countryCode == c then 0
    else
      var i := FirstSelected(valueRows[1..], c);
      i + 1
  }

  // ---------------------------------------------------------------------
  // The whole join
  // ---------------------------------------------------------------------

  /** What the chart relies on: every listed region has a code list and every
      series has one value slot per year. */
  ghost predicate WellFormed(data: Data)
  {
    (forall r :: r in data.regions ==> r in data.countryCodeByRegion) &&
    (forall c :: c in data.series ==> |data.series[c].values| == |data.years|)
  }

  /** The `data` object of main.js 42-47. */
  function Join(valueRows: seq<ValueRow>, regionRows: seq<RegionRow>, parse: string -> real): (data: Data)
    ensures data.years == YEARS
    ensures WellFormed(data)
  {
    RegionsSpec(regionRows);
    var regionByCode := RegionByCountryCode(regionRows);
    Data(CountryCodeByRegion(regionRows), Regions(regionRows), YEARS,
         SeriesByCode(valueRows, regionByCode, parse))
  }

  /** A series' region is looked up by its code in the region table: the last
      row with that code decides, and a code missing there gives `None`. */
  lemma JoinSeriesRegion(valueRows: seq<ValueRow>, regionRows: seq<RegionRow>, parse: string -> real, c: string)
    requires c in Join(valueRows, regionRows, parse).series
    ensures var s := Join(valueRows, regionRows, parse).series[c];
            (s.region == None <==> forall i :: 0 <= i < |regionRows| ==> regionRows[i].code != c) &&
            (forall i :: 0 <= i < |regionRows| && regionRows[i].code == c &&
               (forall j :: i < j < |regionRows| ==> regionRows[j].code != c)
               ==> s.region == Some(regionRows[i].region))
  {
    var regionByCode := RegionByCountryCode(regionRows);
    SeriesByCodeSpec(valueRows, regionByCode, parse, c);
    forall i | 0 <= i < |regionRows| && regionRows[i].code == c &&
               (forall j :: i < j < |regionRows| ==> regionRows[j].code != c)
      ensures regionByCode[c] == regionRows[i].region
    {
      RegionByCountryCodeLastWins(regionRows, i);
    }
  }
}
