# Road-crash dashboard: the record-transformation core

A Dafny model of the data logic of a Streamlit dashboard about road crashes in
Victoria. The dashboard hands most of its work to pandas, geopandas, pysal and
scikit-learn. Around those calls it has its own record transformations, and
those are what this project models and proves things about:

- **Hex-grid hot spots** (`src/autocorrelation.py`). The hexagonal grid gets its
  `grid_id` column. Crashes are left-joined to the cells. The join is grouped by
  cell into per-cell means and a crash count. Only cells with crashes and no
  missing mean are kept (the buffer). Row-standardised KNN weights give the
  spatial lag of the count and of each metric. Each cell is then labelled
  HotSpot, ColdSpot, EmergingHotSpot or DecliningHotSpot by comparing its count
  and its count lag with their means over the buffer.
- **Density clusters** (`main.py`). Crashes are kept if they fall in the date
  window ending at the latest crash. The form's distance in metres becomes
  DBSCAN's `eps` in radians. Labels are attached to the points and noise points
  (label -1) are dropped. The clustered crash rows are joined back, and the
  per-cluster summary table `cluster_info_df` is built.
- **Environmental clusters** (`pages/03_Environmental_Factor_Analysis.py`).
  Cluster ids get display labels (`"Cluster #<id>"`, with -1 shown as
  `"Noise"`). The per-label severity table is built: it is sorted by severity,
  gets a `count` column and loses its `"Noise"` row. A one-hot coefficient name
  is split into a (factor, level) pair.
- **Calendar columns and roll-ups** (`hello.py`). The year, year-month and month
  columns are derived from the crash date. The casualty columns are summed or
  averaged by year-month, month, accident type and road-management area, and
  the last two tables are sorted for the charts.

Numbers are exact `real`s. Where the source updates a frame in place, the model
is a class whose methods change its fields: `HexGridFrame`, `DataBuffer`,
`ClusterFrame`, `SeverityTable` and `CrashFrame`. The label column overwritten in
place is an `array`. Pure group-bys and classifiers are functions. The
libraries' results are inputs to the model: which crashes each cell's polygon
intersects, the KNN neighbour lists and the DBSCAN labels.

The modules follow the program. `Wrappers` holds Option and Result. `Stats`
holds column sums, means, minima and maxima. `Grouping` is pandas' `groupby`,
boolean filtering and `sort_values`, stated once over any row type. `Decimal` is
`str(int)` and zero-padded fields. `Records` holds crash records and dates.
`Calendar` and `Rollups` model `hello.py`. `SpatialWeights` holds the KNN
weights, their row standardisation and the lag. `Autocorrelation`,
`DensityClusters` and `EnvironmentalFactors` model the three analysis files.

The code calls `sjoin` with its default `intersects` predicate. That joins a crash lying
on an edge shared by two hexagons to both of them. The model follows the code:
`matches[g]` lists the crashes joined to cell `g`, and the lists may overlap.

## Model

| member | source | states |
|---|---|---|
| Autocorrelation.ReadHexGrid | src/autocorrelation.py:23-28 | `readHexGridGDF`: the grid cells, cell `i` being polygon `i` with `grid_id` `i` (properties in ReadHexGridIds and HexGridIds) |
| Autocorrelation.HexGridFrame.AddGridId | src/autocorrelation.py:23-28 | `grid["grid_id"] = grid.index` adds one id per polygon, equal to its position; the geometry is unchanged and the frame's cells are `ReadHexGrid` of the polygons |
| Autocorrelation.HexGridFrame.constructor | src/autocorrelation.py:24-26 | the frame `read_file` returns holds the polygons and no id column yet |
| Autocorrelation.ReadHexGridIds | src/autocorrelation.py:27 | the grid has one cell per polygon, cell `i` has id `i` and polygon `i`, and no id repeats |
| Autocorrelation.HexGridIds | src/autocorrelation.py:27 | the grid's ids are exactly 0 up to the number of polygons minus one, each once |
| Autocorrelation.JoinCell | src/autocorrelation.py:33-37 | a cell's rows in the left join are never empty (a cell with no crash keeps one row with no crash) and all carry the cell's id and geometry |
| Autocorrelation.LeftJoin | src/autocorrelation.py:33-37 | `getDB`: the left join, the rows of each cell in grid order (properties in LeftJoinRowIds, LeftJoinGroup and LeftJoinIds) |
| Autocorrelation.LeftJoinRowIds | src/autocorrelation.py:33-37 | every row of the left join carries the id of a cell of the grid |
| Autocorrelation.LeftJoinGroup | src/autocorrelation.py:35-43 | with distinct cell ids, the `grid_id` group of cell `h` is exactly that cell's joined rows |
| Autocorrelation.LeftJoinIds | src/autocorrelation.py:35-43 | the group keys of the left join are exactly the grid's cell ids, in both directions |
| Autocorrelation.MeanSkipNa | src/autocorrelation.py:44-49 | pandas' `mean` of one column of a group: the mean of its present values, missing when none is present |
| Autocorrelation.PresentOfSome | src/autocorrelation.py:44-49 | with no value missing, the values `mean` averages are all the column's values, in order |
| Autocorrelation.CrashCount | src/autocorrelation.py:50 | `"index_right": "count"`: the number of rows of a group that carry a crash |
| Autocorrelation.AggregateGroup | src/autocorrelation.py:42-53 | one row of `agged`: the group's key, the four skip-missing means, the first row's geometry and the crash count (properties in JoinCellAggregate) |
| Autocorrelation.Aggregate | src/autocorrelation.py:42-53 | `agged` has one row per distinct `grid_id` of the join; each row's group is non-empty and the row is the aggregate (means skipping missing values, `first` geometry, `index_right` count) of its group |
| Autocorrelation.JoinCellAggregate | src/autocorrelation.py:35-53 | a cell's aggregate counts exactly its joined crashes (0 for a cell with none), keeps its geometry, has all its means exactly when its count is positive, and then each of the four means is the mean of that metric over the crashes joined to it |
| Autocorrelation.CellAggregateOfJoin | src/autocorrelation.py:35-53 | the same, stated on the `grid_id` group of cell `h` taken from the whole left join: count, geometry, completeness, and each mean the mean of that metric over `matches[h]` |
| Autocorrelation.AggregateRow | src/autocorrelation.py:23-53 | for the grid read from file, row `i` of `agged` belongs to a cell of the grid, counts that cell's joined crashes, keeps its polygon, has all its means iff its count is positive, and then each mean is the mean of that metric over the crashes joined to that cell |
| Autocorrelation.AggregateOfLeftJoin | src/autocorrelation.py:23-53 | `agged` has exactly one row for each cell of the grid, and every row states its cell's count, geometry, completeness and four means as above |
| Autocorrelation.Buffer | src/autocorrelation.py:55 | `agged.copy().dropna().query("count>0")` as two filters, in row order (properties in BufferCells) |
| Autocorrelation.BufferCells | src/autocorrelation.py:55 | a cell is in `data_buffer` iff it is in `agged`, has count at least 1 and no missing mean |
| Autocorrelation.DataBuffer.constructor | src/autocorrelation.py:55 | `agged.copy().dropna().query("count>0")`: the buffer holds exactly those cells, and every row has a positive count and no missing metric |
| Autocorrelation.GetQuantile | src/autocorrelation.py:70-79 | `get_quantile` always returns a label; each of the four labels is returned exactly when its pair of comparisons holds (count > qx or <= qx, lag > qy or <= qy) |
| Autocorrelation.TieIsColdSpot | src/autocorrelation.py:74-75 | a cell exactly at both means is a ColdSpot |
| Autocorrelation.Classify | src/autocorrelation.py:68-80 | one label per cell, never missing; with qx and qy the means of `count` and `count_lag` over the buffer, each of the four labels is given exactly when its pair of comparisons holds |
| Autocorrelation.CountThresholdAtLeastOne | src/autocorrelation.py:55-68 | qx is taken over the buffer only, so it is at least 1 |
| Autocorrelation.UniformCountsAreColdSpots | src/autocorrelation.py:56-80 | with row-stochastic weights and the same count on every cell, every count lag equals that count and every cell is a ColdSpot |
| Autocorrelation.DataBuffer.AddCountLag | src/autocorrelation.py:59-61 | `count_lag` becomes `W @ count`; nothing else changes |
| Autocorrelation.DataBuffer.AddMetricLags | src/autocorrelation.py:62-66 | after the loop, the lag columns are the old ones updated with the lag of each of the four metrics; the repeated `FATALITY` entry rewrites the same value; cells, `count_lag` and labels are unchanged |
| Autocorrelation.MetricLags | src/autocorrelation.py:62-66 | the loop writes one `<metric>_lag` column for each distinct metric of its list, and no other |
| Autocorrelation.DataBuffer.AddQuantiles | src/autocorrelation.py:68-80 | `count_id_quantile` is the classification of every cell, never missing; nothing else changes |
| Autocorrelation.Aggregation | src/autocorrelation.py:40-81 | fails with the KNN configuration error exactly when k is 0 or the buffer has at most k cells; otherwise the buffer is `Buffer(Aggregate(joined))`, the weights are row-stochastic, and `count_lag`, the metric lags and the labels are as computed from them |
| SpatialWeights.KnnWeights | src/autocorrelation.py:56 | `weights.KNN.from_dataframe`: weight 1 for each of a cell's neighbours |
| SpatialWeights.RowStandardise | src/autocorrelation.py:57 | `w.transform = "R"`: each weight divided by its row total, a row of total 0 left as it is |
| SpatialWeights.StandardisedKnn | src/autocorrelation.py:56-57 | the KNN weights after row standardisation (properties in StandardisedKnnRow and StandardisedKnnIsRowStochastic) |
| SpatialWeights.RowLag | src/autocorrelation.py:59-61 | one entry of `lag_spatial`: the weighted sum of the values at a row's neighbours (properties in RowLagOfConstant and RowLagBounds) |
| SpatialWeights.StandardisedKnnRow | src/autocorrelation.py:56-57 | after `transform = "R"` a KNN row with k neighbours has k links of weight 1/k to those neighbours, summing to 1 |
| SpatialWeights.StandardisedKnnIsRowStochastic | src/autocorrelation.py:56-57 | row-standardised KNN weights over the buffer are non-negative, refer only to buffer cells and sum to 1 per row |
| SpatialWeights.RowSumOfScaled | src/autocorrelation.py:57 | dividing every weight of a row by `s` divides the row total by `s` |
| SpatialWeights.Lag | src/autocorrelation.py:59-66 | `lag_spatial` gives one value per cell |
| SpatialWeights.RowLagOfConstant | src/autocorrelation.py:59-66 | a row's lag of a value constant on its neighbours is that value times the row total |
| SpatialWeights.LagOfConstant | src/autocorrelation.py:56-66 | with rows summing to 1, a metric constant over the buffer has that constant as every lag |
| SpatialWeights.RowLagBounds | src/autocorrelation.py:59-66 | with non-negative weights, a row's lag lies between lo and hi times the row total when every neighbour value lies in [lo, hi] |
| SpatialWeights.LagRowBounds | src/autocorrelation.py:59-66 | with row-stochastic weights, a lag lies in any interval holding all of the cell's neighbour values |
| SpatialWeights.LagWithinNeighbours | src/autocorrelation.py:59-66 | each lag lies between the smallest and largest value of the metric among the cell's neighbours |
| DensityClusters.InWindow | main.py:27 | `last_year_selection` for one date: later than the cutoff and not later than the latest date |
| DensityClusters.DateWindow | main.py:23-29 | `get_data`'s `lat_long_df`: the windowed crashes' points, empty for an empty table (properties in DateWindowExact and LatestIsKept) |
| DensityClusters.Latest | main.py:25 | `ACCIDENT_DATE.max()` is the date of some crash, and no crash is later |
| DensityClusters.WindowFrom | main.py:27-28 | the scan from row `i` keeps exactly the rows from `i` on that fall in the window, as their (latitude, longitude) points, in row order |
| DensityClusters.DateWindowExact | main.py:25-28 | `lat_long_df` holds a row's point iff max - offset < date <= max, each point is its own row's, in the frame's order |
| DensityClusters.LatestIsKept | main.py:25-28 | with an offset of at least one year the latest crash is in the window; with offset 0 the window is empty |
| Records.MinusYears | main.py:26 | `pd.DateOffset(years=n)` subtracted: same month, year minus n; the day is kept when the target month has it, and otherwise becomes that month's last day |
| Records.MinusYearsIsEarlier | main.py:26 | the cutoff is strictly earlier than the latest date when n > 0 |
| DensityClusters.Eps | main.py:49-53 | `eps` times the earth radius 6371000 m is the distance in metres; eps is non-negative and 0 exactly when the distance is 0 |
| DensityClusters.EpsMonotone | main.py:52-53 | a larger distance never gives a smaller eps |
| DensityClusters.Params | main.py:49-55 | the parameter set carries that eps and the minimum occurrence, within the form's bounds |
| DensityClusters.Zip | main.py:67 | label `i` attaches to row `i`; the labelled frame has as many rows as points |
| DensityClusters.ClusterFrame.constructor | main.py:65 | `lat_long_df.copy()` holds the points and no cluster column yet |
| DensityClusters.ClusterFrame.AssignCluster | main.py:67 | the cluster column becomes the label sequence, of the same length as the rows; points unchanged |
| DensityClusters.NonNoise | main.py:68-69 | no kept row has label -1 |
| DensityClusters.NonNoiseKeepsMembers | main.py:67-69 | point `i` with its label survives iff its label is not -1, and every survivor is some point with its own label |
| DensityClusters.ClusterFrame.DropNoise | main.py:68-69 | the frame becomes its non-noise rows, in order, labels still aligned |
| DensityClusters.ClusteredCrashes | main.py:70-71 | `clusterd_crashsite_df` has one crash row per kept point |
| DensityClusters.DateWindowPoints | main.py:28 | every point of the window is the point of its own crash row |
| DensityClusters.NonNoiseRefersInto | main.py:70 | every kept point indexes a crash row |
| DensityClusters.ClusteredCrashMember | main.py:67-71 | the crash behind point `i`, with `i`'s label, is among the clustered crashes iff that label is not -1 |
| DensityClusters.ClusteredCrashOrigin | main.py:67-71 | every clustered crash row is the crash of some non-noise point, carrying that point's label, and none carries -1 |
| DensityClusters.ClusteredCrashesExact | main.py:25-71 | for the date window and its labels, the clustered crashes are exactly the non-noise points' crashes, each with its own label, none carries -1, and every clustered row is the crash of some non-noise point with that point's label |
| DensityClusters.InfoRow | main.py:73-83 | one row of `cluster_info_df`: the eight means of a cluster's members and its `ACCIDENT_NO` count |
| DensityClusters.ClusterSummary | main.py:72-85 | `cluster_info_df`: one `InfoRow` per cluster label of the clustered crashes (properties in ClusterSummaryKeys, ClusterSummaryRow, ClusterCountsTotal and ClusterMeansWithinRange) |
| DensityClusters.InfoTable | main.py:72-85 | one summary row per given key, in that order |
| DensityClusters.ClusterSummaryKeys | main.py:72 | `cluster_info_df` has each cluster label of the clustered crashes once, no other, and none is -1 when no crash carries -1 |
| DensityClusters.ClusterSummaryRow | main.py:72-85 | a row's `ACCIDENT_NO` count is its cluster's member count and each field is the mean of that field over the members |
| DensityClusters.InfoTableCounts | main.py:82 | the counts of the rows sum to the number of crashes carrying their keys |
| DensityClusters.ClusterCountsTotal | main.py:72-85 | the member counts sum to the number of clustered crashes |
| DensityClusters.ClusterMeansWithinRange | main.py:73-81 | each per-cluster mean (casualties, latitude, longitude) lies between that field's minimum and maximum over the cluster |
| Decimal.NatToString | pages/03_Environmental_Factor_Analysis.py:13 | `str` of a non-negative integer: non-empty, all decimal digits, `"0"` for zero and no leading zero otherwise (round trip in IntToStringRoundTrip) |
| Decimal.IntToString | pages/03_Environmental_Factor_Analysis.py:13 | `str(x)` is non-empty and starts with `-` exactly for negative x |
| Decimal.IntToStringRoundTrip | pages/03_Environmental_Factor_Analysis.py:13 | `int(str(x)) == x`: the text of `str` reads back as the integer |
| Decimal.IntToStringInjective | pages/03_Environmental_Factor_Analysis.py:13 | distinct integers have distinct `str` text |
| EnvironmentalFactors.RawLabel | pages/03_Environmental_Factor_Analysis.py:13 | the `apply(lambda x: "Cluster #" + str(x))` label of one id |
| EnvironmentalFactors.Relabel | pages/03_Environmental_Factor_Analysis.py:14 | the overwrite of one entry: `"Cluster #-1"` becomes `"Noise"`, anything else stays |
| EnvironmentalFactors.ClusterLabel | pages/03_Environmental_Factor_Analysis.py:13-14 | the final label of an id, the overwrite applied to the raw label (properties in ClusterLabelCases and ClusterLabelInjective) |
| EnvironmentalFactors.RawLabelOfNoise | pages/03_Environmental_Factor_Analysis.py:13-14 | `"Cluster #" + str(x)` is `"Cluster #-1"` exactly for x = -1 |
| EnvironmentalFactors.ClusterLabelCases | pages/03_Environmental_Factor_Analysis.py:13-14 | the label is `"Noise"` exactly for -1, and `"Cluster #"` followed by the decimal text of the id otherwise |
| EnvironmentalFactors.ClusterLabelInjective | pages/03_Environmental_Factor_Analysis.py:13-14 | distinct ids get distinct labels |
| EnvironmentalFactors.RelabelNoise | pages/03_Environmental_Factor_Analysis.py:14 | the slice overwrite turns every `"Cluster #-1"` entry into `"Noise"` and leaves every other entry as it was |
| EnvironmentalFactors.LoadLabels | pages/03_Environmental_Factor_Analysis.py:13-14 | the `labels` column is the cluster label of each id, in row order |
| EnvironmentalFactors.SeverityGroup | pages/03_Environmental_Factor_Analysis.py:24-31 | one row of the group-by: the label, the two means, the `ACCIDENT_DATE` count and the two shares, no `count` column yet (properties in SeverityGroupShares) |
| EnvironmentalFactors.SeverityGroups | pages/03_Environmental_Factor_Analysis.py:24-31 | the group-by has one row per distinct label, each with a non-empty group |
| EnvironmentalFactors.ZeroOneIndicator | pages/03_Environmental_Factor_Analysis.py:29-30 | the share of a group with a 0/1 property lies in [0, 1] |
| EnvironmentalFactors.SeverityGroupShares | pages/03_Environmental_Factor_Analysis.py:24-31 | a group's row carries its label, counts its crashes, and has its POLICE_ATTEND and SEVERITY shares in [0, 1] |
| EnvironmentalFactors.SeverityGroupRow | pages/03_Environmental_Factor_Analysis.py:24-31 | row `i` of the group-by describes its label: the label occurs in the frame, the `ACCIDENT_DATE` count is the number of its crashes (at least 1), TOTAL_PERSONS and INJ_OR_FATAL are the means over them, POLICE_ATTEND and SEVERITY are the shares of them the police attended and that were fatal, and both shares are in [0, 1] |
| EnvironmentalFactors.SeverityGroupsCover | pages/03_Environmental_Factor_Analysis.py:24 | every label of the frame has a row |
| EnvironmentalFactors.SeverityGroupsRows | pages/03_Environmental_Factor_Analysis.py:24-31 | every row describes its label's crashes (count, the two means and the two shares, as in SeverityGroupRow), and every label has a row |
| EnvironmentalFactors.SortedSeverityGroups | pages/03_Environmental_Factor_Analysis.py:24-33 | the group-by sorted by SEVERITY, largest first |
| EnvironmentalFactors.GroupedSeverity | pages/03_Environmental_Factor_Analysis.py:23-37 | the successful result of `getGroupedSeverityData`: sorted, counted, without the `"Noise"` row (properties in GroupedSeverityRows) |
| EnvironmentalFactors.SortedRowsDescribe | pages/03_Environmental_Factor_Analysis.py:33 | after sorting by SEVERITY every row still describes its label's crashes (count, means and shares), and every label still has a row |
| Grouping.Insert | pages/03_Environmental_Factor_Analysis.py:33 | putting a row into a sorted table keeps it sorted and adds exactly that row |
| Grouping.SortValues | pages/03_Environmental_Factor_Analysis.py:33 | `sort_values` returns a sorted permutation of its rows |
| EnvironmentalFactors.WithCount | pages/03_Environmental_Factor_Analysis.py:35 | adding `count` keeps the number of rows |
| EnvironmentalFactors.WithCountRows | pages/03_Environmental_Factor_Analysis.py:35 | adding `count` keeps the order by severity and the rows, each with `count` set |
| EnvironmentalFactors.SeverityTable.constructor | pages/03_Environmental_Factor_Analysis.py:24-33 | `grouped` holds the sorted group-by |
| EnvironmentalFactors.SeverityTable.AddCount | pages/03_Environmental_Factor_Analysis.py:35 | `grouped["count"] = grouped["ACCIDENT_DATE"].astype(int)` on every row |
| EnvironmentalFactors.SeverityTable.DropNoise | pages/03_Environmental_Factor_Analysis.py:36 | `drop("Noise", inplace=True)` fails with a KeyError iff no row is labelled `"Noise"`, leaving the table as it was; otherwise the table becomes its non-noise rows in their order |
| Grouping.FilterKeepsOrder | pages/03_Environmental_Factor_Analysis.py:36 | dropping rows from a sorted table keeps it sorted |
| Grouping.FilterDropsOne | pages/03_Environmental_Factor_Analysis.py:36 | dropping a row that is there makes the table shorter |
| EnvironmentalFactors.NoiseRowIffNoiseLabel | pages/03_Environmental_Factor_Analysis.py:24-36 | the table has a `"Noise"` row iff some crash is labelled `"Noise"` |
| EnvironmentalFactors.GetGroupedSeverityData | pages/03_Environmental_Factor_Analysis.py:23-37 | `getGroupedSeverityData` raises KeyError("Noise") exactly when no crash is labelled `"Noise"`, and otherwise returns the grouped, sorted, counted table without its `"Noise"` row |
| EnvironmentalFactors.GroupedSeverityRows | pages/03_Environmental_Factor_Analysis.py:23-37 | the returned table is sorted by severity, non-increasing; has no `"Noise"` row; has `count` equal to its `ACCIDENT_DATE` count; has a row for every other label; and has each row's count, TOTAL_PERSONS and INJ_OR_FATAL means and police and fatal shares those of its label's crashes |
| EnvironmentalFactors.LastIndexOf | pages/03_Environmental_Factor_Analysis.py:228 | the position of the last `_`: it holds `_`, and none follows |
| EnvironmentalFactors.Split | pages/03_Environmental_Factor_Analysis.py:228 | `split("_")` gives at least one part and no part contains `_` |
| EnvironmentalFactors.SplitAtLast | pages/03_Environmental_Factor_Analysis.py:228 | with an underscore, the parts are the parts of the text before the last `_`, then the text after it |
| EnvironmentalFactors.Join | pages/03_Environmental_Factor_Analysis.py:228 | `sep.join(parts)` |
| EnvironmentalFactors.JoinSplit | pages/03_Environmental_Factor_Analysis.py:228 | `"_".join(s.split("_")) == s` |
| EnvironmentalFactors.JoinSplitWithSpaces | pages/03_Environmental_Factor_Analysis.py:228 | `" ".join(s.split("_"))` is `s` with every `_` replaced by a space |
| EnvironmentalFactors.Spaced | pages/03_Environmental_Factor_Analysis.py:228 | the text with each `_` turned into a space and every other character kept |
| EnvironmentalFactors.Capitalize | pages/03_Environmental_Factor_Analysis.py:228 | `capitalize()`: same length, first character upper-cased, the rest lower-cased |
| EnvironmentalFactors.CoefficientIndex | pages/03_Environmental_Factor_Analysis.py:228 | the index tuple of one coefficient: the parts but the last joined with spaces and capitalised, and the last part (properties in CoefficientWithUnderscore, CoefficientWithoutUnderscore and CoefficientLevelHasNoUnderscore) |
| EnvironmentalFactors.CoefficientWithoutUnderscore | pages/03_Environmental_Factor_Analysis.py:228 | a name without `_` gives an empty factor and the whole name as level |
| EnvironmentalFactors.CoefficientWithUnderscore | pages/03_Environmental_Factor_Analysis.py:228 | a name with `_` is factor text, `_`, level; the level is the text after the last `_`; the factor is the text before it with `_` as spaces, capitalised |
| EnvironmentalFactors.CoefficientLevelHasNoUnderscore | pages/03_Environmental_Factor_Analysis.py:228 | the level never contains `_` |
| Calendar.YearText | hello.py:11 | the `%Y` field of `ACCIDENT_YEARMONTH`: the year zero-padded to four digits (properties in YearMonthLayout) |
| Calendar.MonthText | hello.py:12 | `strftime('%m')`: the month zero-padded to two digits |
| Calendar.YearMonthText | hello.py:11 | `strftime('%Y-%m')`: year text, a dash, month text (properties in YearMonthLayout and YearMonthKeyIff) |
| Calendar.CrashFrame.constructor | hello.py:8-9 | the loaded frame holds the crash rows and no derived columns yet |
| Calendar.CrashFrame.DeriveCalendarColumns | hello.py:10-12 | adds `ACCIDENT_YEAR`, `ACCIDENT_YEARMONTH` and `ACCIDENT_MONTH` to every row from its date; the rows are unchanged |
| Calendar.YearMonthLayout | hello.py:11-12 | `ACCIDENT_YEARMONTH` is "YYYY-MM": seven characters, a dash at position 4, digits that read back as the year and the month, the month part being `ACCIDENT_MONTH`, two digits from 01 to 12 |
| Calendar.YearMonthKeyIff | hello.py:11 | two crashes share a year-month key iff they have the same year and month |
| Calendar.CalendarColumnsAgree | hello.py:10-12 | in every row, `ACCIDENT_MONTH` is the last two characters of `ACCIDENT_YEARMONTH` and its first four read back as `ACCIDENT_YEAR` |
| Decimal.ZeroPadField | hello.py:11-12 | a zero-padded field of a value below 10^width has exactly `width` digits and reads back as the value |
| Grouping.GroupKeys | hello.py:53 | the group keys are the distinct keys of the rows, each once |
| Grouping.Where | hello.py:53 | the group of key `k` holds exactly the rows whose key is `k`, and no more rows than the table |
| Grouping.Filter | main.py:69 | a boolean mask keeps exactly the rows that satisfy it |
| Grouping.WhereConcat | hello.py:53-59 | the group of a key in two tables put together is the group in the first followed by the group in the second |
| Grouping.GroupSumsTotal | hello.py:53-59 | summing a column over all groups gives the column total |
| Rollups.SumRow | hello.py:53-59 | one row of a sum roll-up: the key and the five casualty sums of its group |
| Rollups.MeanRow | hello.py:80-86 | one row of a mean roll-up: the key and the five casualty means of its non-empty group |
| Rollups.GroupSums | hello.py:53-59 | `groupby([key]).agg(sum).reset_index()`: one `SumRow` per group key (properties in GroupSumsRows and GroupSumsTotal) |
| Rollups.GroupMeans | hello.py:80-86 | `groupby([key]).agg(mean).reset_index()`: one `MeanRow` per group key (properties in GroupMeansRows) |
| Rollups.ByYearMonth | hello.py:53-59 | the year-month sum roll-up (properties in ByYearMonthTotal) |
| Rollups.ByMonth | hello.py:80-86 | the month mean roll-up (properties in GroupMeansRows and ByMonthWithinRange) |
| Rollups.ByAccidentType | hello.py:106-115 | the accident-type sum roll-up sorted by TOTAL_PERSONS, largest first (properties in ChartOrders) |
| Rollups.ByRma | hello.py:141-151 | the road-management-area sum roll-up sorted by TOTAL_PERSONS, smallest first (properties in ChartOrders) |
| Rollups.GroupSumsRows | hello.py:53-59 | a sum roll-up has one row per distinct key and each column is the sum over that key's rows |
| Rollups.GroupMeansRows | hello.py:80-86 | a mean roll-up has one row per distinct key, each key's group is non-empty, and each column is the mean over that key's rows |
| Rollups.SumTableTotal | hello.py:53-59 | a column of a sum roll-up adds up to the sum of the keys' group sums |
| Rollups.GroupSumsTotal | hello.py:53-59 | for any key, a casualty column of the sum roll-up adds up to that column's total over all crashes |
| Rollups.ByYearMonthTotal | hello.py:53-59 | each column of the year-month roll-up sums to that column's total over all crashes |
| Rollups.ByMonthWithinRange | hello.py:80-86 | each per-month mean lies between the column's minimum and maximum within the month |
| Rollups.ChartOrders | hello.py:106-151 | the accident-type chart table is its roll-up sorted by TOTAL_PERSONS non-increasing, and the RMA table is its roll-up sorted non-decreasing, both as permutations |
| Stats.MeanBetween | hello.py:80-86 | a mean lies between any two bounds of its column |
| Stats.MeanBetweenMinMax | hello.py:80-86 | a mean lies between its column's minimum and maximum |
| Stats.SumBounds | hello.py:80-86 | n values in [lo, hi] sum to a value between n·lo and n·hi |
| Stats.SumOfOnes | main.py:82 | counting rows is summing a column of ones |

## Left out

- File reading (`read_csv`, `read_parquet`, `gpd.read_file`) is I/O: the loaded rows and polygons are inputs.
- The CRS reprojection (`to_crs`) and the point-in-polygon test of `sjoin` are floating-point geodesy inside geopandas: `matches[g]`, the crashes joined to cell `g`, is an input.
- The join's `index_right` column is not kept: a joined row holds the crash it matched, or nothing when the cell matched none, and `count` counts the rows holding a crash.
- DBSCAN (ball tree, haversine), the KNN neighbour search of `weights.KNN.from_dataframe`, t-SNE and `LinearRegression` are library numerics: the labels and the neighbour lists are inputs. `trainRegression` and the loop that fills `models` (pages/03_Environmental_Factor_Analysis.py:187-189) are left out with them.
- Autocorrelation.Aggregation: the KNN constructor's own error for too few cells is modelled as `InsufficientCells` when k is 0 or the buffer has at most k cells; which exception pysal raises, and its message, are not modelled.
- Plotting, Streamlit widgets and layout, `make_plot`, `map_center` (main.py:88, computed and never read), `pages/02_Spatial_Autocorrelation.py` and `pages/Profiling.py` are presentation.
- `st.cache_*` and the dask graph of `getResults` are caching and scheduling.
- Casualty counts (FATALITY, TOTAL_PERSONS, INJ_OR_FATAL, SERIOUSINJURY, OTHERINJURY, NONINJURED) are never missing in a crash record: they are `nat` fields. In pandas a matched crash with a missing metric is skipped by `mean`, so a cell's mean would be over fewer crashes than its count, and `dropna()` (src/autocorrelation.py:55) would drop a cell with a positive count only when every one of its matched crashes lacks that metric; so the completeness and mean facts of Autocorrelation.JoinCellAggregate, Autocorrelation.CellAggregateOfJoin, Autocorrelation.AggregateRow and Autocorrelation.AggregateOfLeftJoin ("all means exactly when the count is positive", each the mean over all joined crashes) hold only for data without missing casualty values. The means of main.py:72-85 and hello.py:80-86 likewise are over all rows of a group, not over its non-missing values.
- Floating point: every number is an exact `real`, so rounding in means, in the division by 6371 and in the weight standardisation is not modelled.
- Grouping.GroupKeys: pandas orders group keys by sorting them; the model lists them in order of first appearance. None of the proved properties depends on the order, and the hex-grid ids 0, 1, … come out in the same order either way.
- Grouping.SortValues: pandas' default sort does not promise an order for equal keys; the model's insertion sort keeps their original order, and the contracts only claim sortedness and permutation.
- NaN group keys (dropped by `groupby`) and date parse errors of `to_datetime` are not modelled: every crash has a label, a valid date and an id, so the `ACCIDENT_NO` count of main.py:82 is the number of rows.
- Records.IsTimestamp: dates are limited to the years 1677 to 2262 that a pandas `Timestamp` can hold; dates are modelled as year, month and day, without the time of day.
- EnvironmentalFactors.Capitalize: upper and lower case are mapped for ASCII letters only; Python's Unicode case mapping is not modelled.
- DensityClusters.ClusterFrame.AssignCluster: requires as many labels as rows; pandas raises a ValueError otherwise, and that error path is not modelled because DBSCAN always returns one label per point.
- The other columns a crash row carries but no modelled operation reads (for example the environmental conditions) are left out of `CrashRecord`.
- EnvironmentalFactors.RelabelNoise and EnvironmentalFactors.LoadLabels: the overwrite `df["labels"][mask] = "Noise"` (pages/03_Environmental_Factor_Analysis.py:14 and 20) is a chained assignment, which changes the frame only on pandas without copy-on-write; the model follows that behaviour. Under copy-on-write (pandas 3.0) nothing would be relabelled and the `drop("Noise")` of line 36 would always raise KeyError.
- `agged.rename(columns={"index_right": "count"}, inplace=True)` is a column name only: the aggregate's field is called `count` from the start.
