/** src/autocorrelation.py: the hex grid (`readHexGridGDF`), its left spatial join
    with the crash points (`getDB`), and `aggregation`: per-cell means and crash
    counts, the cells with crashes, their spatial lags under row-standardised KNN
    weights, and the hot/cold-spot label of each cell.

    The point-in-polygon join and the KNN neighbour search are computed by
    geopandas and pysal; here they are inputs (`matches`, `knn`). */
module Autocorrelation {
  import opened Wrappers
  import opened Stats
  import opened Grouping
  import opened Records
  import opened SpatialWeights

  datatype Point = Point(x: real, y: real)

  /** A hexagon's outline. */
  type Polygon = seq<Point>

  /** One row of the hex grid: its position in the grid file and its geometry. */
  datatype GridCell = GridCell(gridId: nat, geometry: Polygon)

  function GridIdOfCell(c: GridCell): nat { c.gridId }

  /** `readHexGridGDF`: `grid["grid_id"] = grid.index`, the row's position in the file. */
  function ReadHexGrid(polygons: seq<Polygon>): seq<GridCell>
  {
    seq(|polygons|, i requires 0 <= i < |polygons| => GridCell(i, polygons[i]))
  }

  /** Cell `i` of the grid has id `i` and its own outline, so no two cells share an id. */
  lemma ReadHexGridIds(polygons: seq<Polygon>)
    ensures var grid := ReadHexGrid(polygons);
      && |grid| == |polygons|
      && (forall i :: 0 <= i < |grid| ==> grid[i].gridId == i && grid[i].geometry == polygons[i])
      && NoDups(Map(grid, GridIdOfCell))
  {
  }

  /** The grid frame `readHexGridGDF` reads and then gives its `grid_id` column. */
  class HexGridFrame {
    var geometry: seq<Polygon>
    var gridId: seq<nat>

    /** `gpd.read_file(path)`: the file's outlines, no `grid_id` column yet. */
    constructor (polygons: seq<Polygon>)
      ensures geometry == polygons && gridId == []
    {
      geometry, gridId := polygons, [];
    }

    function Cells(): seq<GridCell>
      reads this
      requires |gridId| == |geometry|
    {
      var ids, outlines := gridId, geometry;
      seq(|outlines|, i requires 0 <= i < |outlines| => GridCell(ids[i], outlines[i]))
    }

    /** `grid["grid_id"] = grid.index`. */
    method AddGridId()
      modifies this
      ensures geometry == old(geometry)
      ensures |gridId| == |geometry| && forall i :: 0 <= i < |gridId| ==> gridId[i] == i
      ensures Cells() == ReadHexGrid(geometry)
    {
      var n := |geometry|;
      gridId := seq(n, i requires 0 <= i < n => i);
    }
  }

  /** One row of `hexgrid_gdf.sjoin(crashsite_gdf, how="left")`: the cell's columns,
      and the crash's columns or, for a cell no crash falls in, missing values. */
  datatype JoinedRow = JoinedRow(gridId: nat, geometry: Polygon, crash: Option<CrashRecord>)

  function GridIdOf(r: JoinedRow): nat { r.gridId }

  /** The joined rows of one cell; `matched` lists the crashes whose points the
      cell's polygon intersects. */
  function JoinCell(cell: GridCell, crashes: seq<CrashRecord>, matched: seq<nat>): (rows: seq<JoinedRow>)
    requires forall j :: 0 <= j < |matched| ==> matched[j] < |crashes|
    ensures |rows| > 0
    ensures forall r :: r in rows ==> r.gridId == cell.gridId && r.geometry == cell.geometry
  {
    if matched == [] then [JoinedRow(cell.gridId, cell.geometry, None)]
    else seq(|matched|, j requires 0 <= j < |matched| =>
           JoinedRow(cell.gridId, cell.geometry, Some(crashes[matched[j]])))
  }

  ghost predicate ValidMatches(grid: seq<GridCell>, crashes: seq<CrashRecord>, matches: seq<seq<nat>>)
  {
    |matches| == |grid|
    && forall g, j :: 0 <= g < |matches| && 0 <= j < |matches[g]| ==> matches[g][j] < |crashes|
  }

  /** Dropping the first cell keeps the matches valid, and the join of the rest is
      what follows the first cell's rows. */
  lemma LeftJoinTail(grid: seq<GridCell>, crashes: seq<CrashRecord>, matches: seq<seq<nat>>)
    requires ValidMatches(grid, crashes, matches) && |grid| > 0
    ensures ValidMatches(grid[1..], crashes, matches[1..])
    ensures LeftJoin(grid, crashes, matches)
         == JoinCell(grid[0], crashes, matches[0]) + LeftJoin(grid[1..], crashes, matches[1..])
  {
    forall g, j | 0 <= g < |matches[1..]| && 0 <= j < |matches[1..][g]|
      ensures matches[1..][g][j] < |crashes|
    {
      assert matches[1..][g] == matches[g + 1];
    }
  }

  /** `getDB`: the left spatial join, cell by cell; `matches[g]` are the crashes
      joined to cell `g` (a crash on a shared edge is joined to both cells). */
  function LeftJoin(grid: seq<GridCell>, crashes: seq<CrashRecord>, matches: seq<seq<nat>>): (rows: seq<JoinedRow>)
    requires ValidMatches(grid, crashes, matches)
  {
    if grid == [] then []
    else JoinCell(grid[0], crashes, matches[0]) + LeftJoin(grid[1..], crashes, matches[1..])
  }

  /** Every joined row carries the id of a cell of the grid. */
  lemma {:induction false} LeftJoinRowIds(grid: seq<GridCell>, crashes: seq<CrashRecord>, matches: seq<seq<nat>>)
    requires ValidMatches(grid, crashes, matches)
    ensures forall r :: r in LeftJoin(grid, crashes, matches) ==> r.gridId in Map(grid, GridIdOfCell)
  {
    if grid != [] {
      LeftJoinTail(grid, crashes, matches);
      LeftJoinRowIds(grid[1..], crashes, matches[1..]);
      assert Map(grid, GridIdOfCell)[1..] == Map(grid[1..], GridIdOfCell);
      assert grid[0].gridId == Map(grid, GridIdOfCell)[0];
    }
  }

  /** The metrics `aggregation` averages per cell. */
  datatype Metric = Fatality | TotalPersons | InjOrFatal | SeriousInjury

  function MetricOf(r: CrashRecord, m: Metric): real
  {
    match m
    case Fatality => r.fatality as real
    case TotalPersons => r.totalPersons as real
    case InjOrFatal => r.injOrFatal as real
    case SeriousInjury => r.seriousInjury as real
  }

  /** Metric `m` of the crashes `matched` lists, in their order. */
  function MatchedValues(crashes: seq<CrashRecord>, matched: seq<nat>, m: Metric): seq<real>
    requires forall j :: 0 <= j < |matched| ==> matched[j] < |crashes|
  {
    seq(|matched|, j requires 0 <= j < |matched| => MetricOf(crashes[matched[j]], m))
  }

  function JoinedValues(group: seq<JoinedRow>, m: Metric): (v: seq<Option<real>>)
    ensures |v| == |group|
  {
    seq(|group|, i requires 0 <= i < |group| =>
      match group[i].crash
      case None => None
      case Some(c) => Some(MetricOf(c, m)))
  }

  /** The values that are not missing. */
  function Present(xs: seq<Option<real>>): (p: seq<real>)
    ensures |p| <= |xs|
  {
    if xs == [] then []
    else (match xs[0] case Some(v) => [v] case None => []) + Present(xs[1..])
  }

  /** pandas' `mean`, which skips missing values and is missing when no value is left. */
  function MeanSkipNa(xs: seq<Option<real>>): Option<real>
  {
    var p := Present(xs);
    if p == [] then None else Some(Mean(p))
  }

  /** pandas' `count` of `index_right`: the rows that carry a crash. */
  function CrashCount(group: seq<JoinedRow>): nat
  {
    if group == [] then 0 else (if group[0].crash.Some? then 1 else 0) + CrashCount(group[1..])
  }

  /** One row of `agged`, after `index_right` is renamed to `count`. */
  datatype CellAggregate = CellAggregate(
    gridId: nat,
    fatality: Option<real>,
    totalPersons: Option<real>,
    injOrFatal: Option<real>,
    seriousInjury: Option<real>,
    geometry: Polygon,
    count: nat)
  {
    function Get(m: Metric): Option<real>
    {
      match m
      case Fatality => fatality
      case TotalPersons => totalPersons
      case InjOrFatal => injOrFatal
      case SeriousInjury => seriousInjury
    }

    /** No column is missing (the test `dropna` applies). */
    predicate Complete()
    {
      fatality.Some? && totalPersons.Some? && injOrFatal.Some? && seriousInjury.Some?
    }
  }

  /** The `agg` of one `grid_id` group (with `"geometry": "first"`). */
  function AggregateGroup(g: nat, group: seq<JoinedRow>): CellAggregate
    requires |group| > 0
  {
    CellAggregate(g,
      MeanSkipNa(JoinedValues(group, Fatality)),
      MeanSkipNa(JoinedValues(group, TotalPersons)),
      MeanSkipNa(JoinedValues(group, InjOrFatal)),
      MeanSkipNa(JoinedValues(group, SeriousInjury)),
      group[0].geometry,
      CrashCount(group))
  }

  /** `joined_gdf.groupby("grid_id").agg(...)`. */
  function Aggregate(joined: seq<JoinedRow>): (aggs: seq<CellAggregate>)
    ensures Map(aggs, CellIdOf) == GroupKeys(joined, GridIdOf)
    ensures forall i :: 0 <= i < |aggs| ==> |Where(joined, GridIdOf, aggs[i].gridId)| > 0
    ensures forall i :: 0 <= i < |aggs| ==>
      aggs[i] == AggregateGroup(aggs[i].gridId, Where(joined, GridIdOf, aggs[i].gridId))
  {
    var ks := GroupKeys(joined, GridIdOf);
    GroupKeysHaveRows(joined, GridIdOf);
    seq(|ks|, i requires 0 <= i < |ks| => AggregateGroup(ks[i], Where(joined, GridIdOf, ks[i])))
  }

  function IsComplete(a: CellAggregate): bool { a.Complete() }
  function HasCrashes(a: CellAggregate): bool { a.count > 0 }

  /** `agged.copy().dropna().query("count>0")`: the cells the weights are built on. */
  function Buffer(aggs: seq<CellAggregate>): seq<CellAggregate>
  {
    Filter(Filter(aggs, IsComplete), HasCrashes)
  }

  // ---------------------------------------------------------------------------
  // What the join and the group-by compute for each cell

  /** The `grid_id` group of cell `h` in the left join is exactly that cell's joined rows. */
  lemma {:induction false} LeftJoinGroup(grid: seq<GridCell>, crashes: seq<CrashRecord>, matches: seq<seq<nat>>, h: nat)
    requires ValidMatches(grid, crashes, matches) && NoDups(Map(grid, GridIdOfCell)) && h < |grid|
    ensures Where(LeftJoin(grid, crashes, matches), GridIdOf, grid[h].gridId)
         == JoinCell(grid[h], crashes, matches[h])
  {
    LeftJoinTail(grid, crashes, matches);
    var ids := Map(grid, GridIdOfCell);
    MapTail(grid, GridIdOfCell);
    NoDupsTail(ids);
    var block := JoinCell(grid[0], crashes, matches[0]);
    var rest := LeftJoin(grid[1..], crashes, matches[1..]);
    var g := grid[h].gridId;
    WhereConcat(block, rest, GridIdOf, g);
    if h == 0 {
      WhereAllMatch(block, GridIdOf, g);
      LeftJoinRowIds(grid[1..], crashes, matches[1..]);
      WhereNoneMatch(rest, GridIdOf, g);
      assert block + [] == block;
    } else {
      assert ids[0] == grid[0].gridId && ids[h] == g;
      WhereNoneMatch(block, GridIdOf, g);
      assert grid[1..][h - 1] == grid[h] && matches[1..][h - 1] == matches[h];
      LeftJoinGroup(grid[1..], crashes, matches[1..], h - 1);
      var cell := JoinCell(grid[h], crashes, matches[h]);
      assert [] + cell == cell;
    }
  }

  lemma {:induction false} CrashCountAllPresent(rows: seq<JoinedRow>)
    requires forall i :: 0 <= i < |rows| ==> rows[i].crash.Some?
    ensures CrashCount(rows) == |rows|
  {
    if rows != [] {
      CrashCountAllPresent(rows[1..]);
    }
  }

  /** With no value missing, `Present` keeps every value, in order. */
  lemma {:induction false} PresentOfSome(xs: seq<Option<real>>)
    requires forall i :: 0 <= i < |xs| ==> xs[i].Some?
    ensures Present(xs) == seq(|xs|, i requires 0 <= i < |xs| => xs[i].value)
  {
    if xs != [] {
      PresentOfSome(xs[1..]);
    }
  }

  /** The aggregate of one cell's joined rows: its `count` is the number of crashes
      joined to it (0 for a cell the left join kept with missing values), its
      geometry is the cell's own, no mean is missing exactly when that count is
      positive, and then each mean is the mean of that metric over the joined crashes. */
  lemma JoinCellAggregate(cell: GridCell, crashes: seq<CrashRecord>, matched: seq<nat>)
    requires forall j :: 0 <= j < |matched| ==> matched[j] < |crashes|
    ensures var a := AggregateGroup(cell.gridId, JoinCell(cell, crashes, matched));
      && a.count == |matched|
      && a.geometry == cell.geometry
      && (a.Complete() <==> a.count > 0)
      && (|matched| > 0 ==> forall m :: a.Get(m) == Some(Mean(MatchedValues(crashes, matched, m))))
  {
    var group := JoinCell(cell, crashes, matched);
    assert group[0] in group;
    if matched == [] {
      assert JoinedValues(group, Fatality) == [None];
      assert Present([None]) == [];
    } else {
      CrashCountAllPresent(group);
      forall m ensures Present(JoinedValues(group, m)) == MatchedValues(crashes, matched, m) {
        var xs := JoinedValues(group, m);
        PresentOfSome(xs);
        assert seq(|xs|, i requires 0 <= i < |xs| => xs[i].value) == MatchedValues(crashes, matched, m);
      }
    }
  }

  /** A cell's group in the left join is non-empty and aggregates as its joined rows do. */
  lemma CellAggregateOfJoin(grid: seq<GridCell>, crashes: seq<CrashRecord>, matches: seq<seq<nat>>, h: nat)
    requires ValidMatches(grid, crashes, matches) && NoDups(Map(grid, GridIdOfCell)) && h < |grid|
    ensures var group := Where(LeftJoin(grid, crashes, matches), GridIdOf, grid[h].gridId);
      && |group| > 0
      && var a := AggregateGroup(grid[h].gridId, group);
      && a.count == |matches[h]|
      && a.geometry == grid[h].geometry
      && (a.Complete() <==> a.count > 0)
      && (a.count > 0 ==> forall m :: a.Get(m) == Some(Mean(MatchedValues(crashes, matches[h], m))))
  {
    LeftJoinGroup(grid, crashes, matches, h);
    JoinCellAggregate(grid[h], crashes, matches[h]);
  }

  /** Every cell of the grid appears in the left join, and nothing else does. */
  lemma LeftJoinIds(grid: seq<GridCell>, crashes: seq<CrashRecord>, matches: seq<seq<nat>>)
    requires ValidMatches(grid, crashes, matches) && NoDups(Map(grid, GridIdOfCell))
    ensures var joined := LeftJoin(grid, crashes, matches);
      forall g :: g in GroupKeys(joined, GridIdOf) <==> g in Map(grid, GridIdOfCell)
  {
    var joined := LeftJoin(grid, crashes, matches);
    var ids := Map(grid, GridIdOfCell);
    forall g | g in ids ensures g in GroupKeys(joined, GridIdOf) {
      var h :| 0 <= h < |grid| && ids[h] == g;
      LeftJoinGroup(grid, crashes, matches, h);
      var w := Where(joined, GridIdOf, g);
      assert w[0] in w;
    }
    LeftJoinRowIds(grid, crashes, matches);
    forall g | g in GroupKeys(joined, GridIdOf) ensures g in ids {
      var j :| 0 <= j < |joined| && GridIdOf(joined[j]) == g;
      assert joined[j] in joined;
    }
  }

  /** The grid read from a file has ids 0, 1, ... in file order. */
  lemma HexGridIds(polygons: seq<Polygon>)
    ensures |ReadHexGrid(polygons)| == |polygons|
    ensures NoDups(Map(ReadHexGrid(polygons), GridIdOfCell))
    ensures forall g: nat :: g in Map(ReadHexGrid(polygons), GridIdOfCell) <==> g < |polygons|
  {
    var grid := ReadHexGrid(polygons);
    ReadHexGridIds(polygons);
    var ids := Map(grid, GridIdOfCell);
    forall g: nat | g < |polygons| ensures g in ids { assert ids[g] == g; }
  }

  /** Row `i` of the aggregate of the left join is the aggregate of grid cell
      `aggs[i].gridId`. */
  lemma AggregateRow(polygons: seq<Polygon>, crashes: seq<CrashRecord>, matches: seq<seq<nat>>, i: nat)
    requires ValidMatches(ReadHexGrid(polygons), crashes, matches)
    requires i < |Aggregate(LeftJoin(ReadHexGrid(polygons), crashes, matches))|
    ensures var a := Aggregate(LeftJoin(ReadHexGrid(polygons), crashes, matches))[i];
      && a.gridId < |polygons| == |matches|
      && a.count == |matches[a.gridId]|
      && a.geometry == polygons[a.gridId]
      && (a.Complete() <==> a.count > 0)
      && (a.count > 0 ==> forall m :: a.Get(m) == Some(Mean(MatchedValues(crashes, matches[a.gridId], m))))
  {
    var grid := ReadHexGrid(polygons);
    HexGridIds(polygons);
    ReadHexGridIds(polygons);
    var joined := LeftJoin(grid, crashes, matches);
    LeftJoinIds(grid, crashes, matches);
    var ks := GroupKeys(joined, GridIdOf);
    var aggs := Aggregate(joined);
    assert aggs[i].gridId == Map(aggs, CellIdOf)[i] == ks[i];
    assert ks[i] in ks;
    var g := ks[i];
    assert grid[g].gridId == g;
    CellAggregateOfJoin(grid, crashes, matches, g);
  }

  /** The aggregate of the left join of a grid (src/autocorrelation.py:35, 42-53):
      one row per grid cell, and each row is that cell's aggregate. */
  lemma AggregateOfLeftJoin(polygons: seq<Polygon>, crashes: seq<CrashRecord>, matches: seq<seq<nat>>)
    requires ValidMatches(ReadHexGrid(polygons), crashes, matches)
    ensures var aggs := Aggregate(LeftJoin(ReadHexGrid(polygons), crashes, matches));
      && (forall g: nat :: g in Map(aggs, CellIdOf) <==> g < |polygons|)
      && NoDups(Map(aggs, CellIdOf))
      && forall i :: 0 <= i < |aggs| ==>
           var g := aggs[i].gridId;
           && g < |polygons|
           && aggs[i].count == |matches[g]|
           && aggs[i].geometry == polygons[g]
           && (aggs[i].Complete() <==> aggs[i].count > 0)
           && (aggs[i].count > 0 ==>
                 forall m :: aggs[i].Get(m) == Some(Mean(MatchedValues(crashes, matches[g], m))))
  {
    var grid := ReadHexGrid(polygons);
    HexGridIds(polygons);
    var joined := LeftJoin(grid, crashes, matches);
    LeftJoinIds(grid, crashes, matches);
    var aggs := Aggregate(joined);
    forall i | 0 <= i < |aggs|
      ensures aggs[i].gridId < |polygons|
      ensures aggs[i].count == |matches[aggs[i].gridId]|
      ensures aggs[i].geometry == polygons[aggs[i].gridId]
      ensures aggs[i].Complete() <==> aggs[i].count > 0
      ensures aggs[i].count > 0 ==>
        forall m :: aggs[i].Get(m) == Some(Mean(MatchedValues(crashes, matches[aggs[i].gridId], m)))
    {
      AggregateRow(polygons, crashes, matches, i);
    }
  }

  function CellIdOf(a: CellAggregate): nat { a.gridId }

  /** src/autocorrelation.py:55: every cell that reaches the weights step has at
      least one crash and no missing mean, and every such cell of `agged` reaches it. */
  lemma BufferCells(aggs: seq<CellAggregate>)
    ensures forall a :: a in Buffer(aggs) <==> a in aggs && a.count >= 1 && a.Complete()
  {
  }

  // ---------------------------------------------------------------------------
  // Columns of the buffer and the hot/cold-spot rule

  function CountOf(a: CellAggregate): real { a.count as real }

  /** The `count` column. */
  function Counts(cells: seq<CellAggregate>): seq<real>
  {
    Map(cells, CountOf)
  }

  /** A metric column of cells that have no missing value. */
  function MetricColumn(cells: seq<CellAggregate>, m: Metric): (col: seq<real>)
    requires forall i :: 0 <= i < |cells| ==> cells[i].Complete()
    ensures |col| == |cells|
  {
    seq(|cells|, i requires 0 <= i < |cells| && cells[i].Complete() => cells[i].Get(m).value)
  }

  datatype Spot = HotSpot | ColdSpot | EmergingHotSpot | DecliningHotSpot

  /** `get_quantile`: the `if`/`elif` chain of src/autocorrelation.py:70-79. `None`
      is the `None` Python returns when no branch is taken. */
  function GetQuantile(count: real, countLag: real, qx: real, qy: real): (r: Option<Spot>)
    ensures r.Some?
    ensures r == Some(HotSpot) <==> count > qx && countLag > qy
    ensures r == Some(ColdSpot) <==> count <= qx && countLag <= qy
    ensures r == Some(EmergingHotSpot) <==> count > qx && countLag <= qy
    ensures r == Some(DecliningHotSpot) <==> count <= qx && countLag > qy
  {
    if count > qx && countLag > qy then Some(HotSpot)
    else if count <= qx && countLag <= qy then Some(ColdSpot)
    else if count > qx && countLag <= qy then Some(EmergingHotSpot)
    else if count <= qx && countLag > qy then Some(DecliningHotSpot)
    else None
  }

  /** `data_buffer.apply(get_quantile, axis=1)` with `qx`, `qy` the means of the
      buffer's `count` and `count_lag` columns. */
  function Classify(counts: seq<real>, countLag: seq<real>): (labels: seq<Option<Spot>>)
    requires |counts| == |countLag| > 0
    ensures |labels| == |counts|
    ensures forall i :: 0 <= i < |labels| ==> labels[i].Some?
    ensures forall i :: 0 <= i < |labels| ==>
      (labels[i] == Some(HotSpot) <==> counts[i] > Mean(counts) && countLag[i] > Mean(countLag))
    ensures forall i :: 0 <= i < |labels| ==>
      (labels[i] == Some(ColdSpot) <==> counts[i] <= Mean(counts) && countLag[i] <= Mean(countLag))
    ensures forall i :: 0 <= i < |labels| ==>
      (labels[i] == Some(EmergingHotSpot) <==> counts[i] > Mean(counts) && countLag[i] <= Mean(countLag))
    ensures forall i :: 0 <= i < |labels| ==>
      (labels[i] == Some(DecliningHotSpot) <==> counts[i] <= Mean(counts) && countLag[i] > Mean(countLag))
  {
    var qx, qy := Mean(counts), Mean(countLag);
    seq(|counts|, i requires 0 <= i < |counts| => GetQuantile(counts[i], countLag[i], qx, qy))
  }

  /** A cell with exactly the mean count and exactly the mean lag is a ColdSpot. */
  lemma TieIsColdSpot(qx: real, qy: real)
    ensures GetQuantile(qx, qy, qx, qy) == Some(ColdSpot)
  {
  }

  /** The thresholds are taken over the buffer alone, so the count threshold is at
      least 1 (over the whole grid, with its empty cells, it could be lower). */
  lemma CountThresholdAtLeastOne(aggs: seq<CellAggregate>)
    requires |Buffer(aggs)| > 0
    ensures Mean(Counts(Buffer(aggs))) >= 1.0
  {
    var cells := Buffer(aggs);
    var xs := Counts(cells);
    forall i | 0 <= i < |xs| ensures 1.0 <= xs[i] <= Max(xs) {
      assert cells[i] in cells;
    }
    MeanBetween(xs, 1.0, Max(xs));
  }

  /** Equal counts everywhere: every lag equals the shared count, no cell exceeds
      the mean, and every cell is a ColdSpot. */
  lemma UniformCountsAreColdSpots(cells: seq<CellAggregate>, w: Weights, c: nat)
    requires |cells| > 0 && RowStochastic(w, |cells|)
    requires forall i :: 0 <= i < |cells| ==> cells[i].count == c
    ensures forall i :: 0 <= i < |cells| ==> Lag(w, Counts(cells))[i] == c as real
    ensures forall i :: 0 <= i < |cells| ==> Classify(Counts(cells), Lag(w, Counts(cells)))[i] == Some(ColdSpot)
  {
    var xs := Counts(cells);
    LagOfConstant(w, xs, c as real);
    var lag := Lag(w, xs);
    MeanOfConstant(xs, c as real);
    MeanOfConstant(lag, c as real);
  }

  // ---------------------------------------------------------------------------
  // The data buffer `aggregation` updates in place

  /** The lag loop's column list, with `FATALITY` twice as in the source. */
  const LagColumns: seq<Metric> := [Fatality, TotalPersons, InjOrFatal, Fatality, SeriousInjury]

  const AllMetrics: set<Metric> := {Fatality, TotalPersons, InjOrFatal, SeriousInjury}

  /** The `<metric>_lag` columns: the spatial lag of every metric of the buffer. */
  function MetricLags(w: Weights, cells: seq<CellAggregate>): (lags: map<Metric, seq<real>>)
    requires forall i :: 0 <= i < |cells| ==> cells[i].Complete()
    requires RefersWithin(w, |cells|)
    ensures lags.Keys == AllMetrics
  {
    map m | m in AllMetrics :: Lag(w, MetricColumn(cells, m))
  }

  datatype AggregationError = InsufficientCells(cells: nat, k: nat)

  class DataBuffer {
    /** The rows with their `count` and metric columns. */
    var cells: seq<CellAggregate>
    /** `count_lag`. */
    var countLag: seq<real>
    /** The `<metric>_lag` columns added so far. */
    var lags: map<Metric, seq<real>>
    /** `count_id_quantile`. */
    var quantile: seq<Option<Spot>>

    ghost predicate Valid()
      reads this
    {
      forall i :: 0 <= i < |cells| ==> cells[i].count > 0 && cells[i].Complete()
    }

    /** `data_buffer = agged.copy().dropna().query("count>0")`. */
    constructor (aggs: seq<CellAggregate>)
      ensures Valid()
      ensures cells == Buffer(aggs) && countLag == [] && lags == map[] && quantile == []
    {
      cells := Buffer(aggs);
      countLag, lags, quantile := [], map[], [];
      new;
      forall i | 0 <= i < |cells| ensures cells[i].count > 0 && cells[i].Complete() {
        assert cells[i] in Buffer(aggs);
      }
    }

    /** src/autocorrelation.py:59-61. */
    method AddCountLag(w: Weights)
      requires RefersWithin(w, |cells|)
      modifies this
      ensures cells == old(cells) && lags == old(lags) && quantile == old(quantile)
      ensures countLag == Lag(w, Counts(cells))
    {
      countLag := Lag(w, Counts(cells));
    }

    /** src/autocorrelation.py:62-66: one `<metric>_lag` column per entry of the list;
        the repeated `FATALITY` writes the same column again. Nothing else changes. */
    method AddMetricLags(w: Weights)
      requires Valid() && RefersWithin(w, |cells|)
      modifies this
      ensures cells == old(cells) && countLag == old(countLag) && quantile == old(quantile)
      ensures lags == old(lags) + MetricLags(w, cells)
    {
      for i := 0 to |LagColumns|
        invariant cells == old(cells) && countLag == old(countLag) && quantile == old(quantile)
        invariant forall m :: m in lags <==> m in old(lags) || m in LagColumns[..i]
        invariant forall m :: m in LagColumns[..i] ==> lags[m] == Lag(w, MetricColumn(cells, m))
        invariant forall m :: m in old(lags) && m !in LagColumns[..i] ==> lags[m] == old(lags)[m]
      {
        var column := LagColumns[i];
        lags := lags[column := Lag(w, MetricColumn(cells, column))];
        assert LagColumns[..i + 1] == LagColumns[..i] + [column];
      }
      assert LagColumns[..|LagColumns|] == LagColumns;
      assert forall m :: m in LagColumns <==> m in AllMetrics by {
        assert LagColumns[0] == Fatality && LagColumns[1] == TotalPersons;
        assert LagColumns[2] == InjOrFatal && LagColumns[4] == SeriousInjury;
      }
      assert lags == old(lags) + MetricLags(w, cells);
    }

    /** src/autocorrelation.py:68-80. */
    method AddQuantiles()
      requires |cells| > 0 && |countLag| == |cells|
      modifies this
      ensures cells == old(cells) && countLag == old(countLag) && lags == old(lags)
      ensures quantile == Classify(Counts(cells), countLag)
      ensures forall i :: 0 <= i < |quantile| ==> quantile[i].Some?
    {
      quantile := Classify(Counts(cells), countLag);
    }
  }

  /** `aggregation(joined_gdf, k)`: the buffer with its lags and labels, or the
      configuration error the KNN construction raises when the buffer has no more
      than `k` cells. */
  method Aggregation(joined: seq<JoinedRow>, knn: seq<seq<nat>>, k: nat) returns (r: Result<DataBuffer, AggregationError>)
    requires k >= 1 && |Buffer(Aggregate(joined))| > k ==> IsKnn(knn, |Buffer(Aggregate(joined))|, k)
    ensures r.Failure? <==> k == 0 || |Buffer(Aggregate(joined))| <= k
    ensures r.Failure? ==> r.error == InsufficientCells(|Buffer(Aggregate(joined))|, k)
    ensures r.Success? ==> fresh(r.value)
    ensures r.Success? ==>
      var b, w := r.value, StandardisedKnn(knn);
      && b.Valid()
      && b.cells == Buffer(Aggregate(joined))
      && RowStochastic(w, |b.cells|)
      && b.countLag == Lag(w, Counts(b.cells))
      && b.lags == MetricLags(w, b.cells)
      && b.quantile == Classify(Counts(b.cells), b.countLag)
  {
    var buffer := new DataBuffer(Aggregate(joined));
    var n := |buffer.cells|;
    if k == 0 || n <= k {
      return Failure(InsufficientCells(n, k));
    }
    var w := StandardisedKnn(knn);
    StandardisedKnnIsRowStochastic(knn, n, k);
    buffer.AddCountLag(w);
    buffer.AddMetricLags(w);
    assert map[] + MetricLags(w, buffer.cells) == MetricLags(w, buffer.cells);
    buffer.AddQuantiles();
    r := Success(buffer);
  }
}
