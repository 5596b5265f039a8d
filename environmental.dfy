/** pages/03_Environmental_Factor_Analysis.py: the display labels of the
    environmental clusters (`loadData`, `loadTsneData`), the per-label severity
    table (`getGroupedSeverityData`) and the (factor, level) split of a one-hot
    coefficient name. */
module EnvironmentalFactors {
  import opened Wrappers
  import opened Stats
  import opened Grouping
  import opened Records
  import opened Decimal

  // ---------------------------------------------------------------------------
  // Cluster labels (lines 13-14 and 19-20)

  /** `"Cluster #" + str(x)`. */
  function RawLabel(x: int): string
  {
    "Cluster #" + IntToString(x)
  }

  const NoiseLabel: string := "Noise"

  /** The label after the overwrite of `"Cluster #-1"`. */
  function Relabel(s: string): string
  {
    if s == "Cluster #-1" then NoiseLabel else s
  }

  function ClusterLabel(x: int): string
  {
    Relabel(RawLabel(x))
  }

  /** Only -1 renders as `"Cluster #-1"`. */
  lemma RawLabelOfNoise(x: int)
    ensures RawLabel(x) == "Cluster #-1" <==> x == -1
  {
    assert IntToString(-1) == "-1";
    IntToStringInjective(x, -1);
    var prefix := "Cluster #";
    if RawLabel(x) == "Cluster #-1" {
      assert IntToString(x) == RawLabel(x)[|prefix|..] == "-1";
    }
  }

  /** The label of `x` is `"Noise"` for -1 and `"Cluster #"` followed by the
      decimal digits of `x` otherwise. */
  lemma ClusterLabelCases(x: int)
    ensures ClusterLabel(x) == NoiseLabel <==> x == -1
    ensures x != -1 ==> ClusterLabel(x) == "Cluster #" + IntToString(x)
  {
    RawLabelOfNoise(x);
    if x != -1 {
      assert RawLabel(x)[0] == 'C';
    }
  }

  /** Distinct cluster ids get distinct labels. */
  lemma ClusterLabelInjective(x: int, y: int)
    ensures ClusterLabel(x) == ClusterLabel(y) <==> x == y
  {
    ClusterLabelCases(x);
    ClusterLabelCases(y);
    if x != -1 && y != -1 && ClusterLabel(x) == ClusterLabel(y) {
      var prefix := "Cluster #";
      assert IntToString(x) == ClusterLabel(x)[|prefix|..];
      assert IntToString(y) == ClusterLabel(y)[|prefix|..];
      IntToStringInjective(x, y);
    }
  }

  /** `labels[labels == "Cluster #-1"] = "Noise"`: overwrites the noise entries in place. */
  method RelabelNoise(labels: array<string>)
    modifies labels
    ensures forall i :: 0 <= i < labels.Length ==> labels[i] == Relabel(old(labels[i]))
  {
    for i := 0 to labels.Length
      invariant forall j :: 0 <= j < i ==> labels[j] == Relabel(old(labels[j]))
      invariant forall j :: i <= j < labels.Length ==> labels[j] == old(labels[j])
    {
      if labels[i] == "Cluster #-1" {
        labels[i] := NoiseLabel;
      }
    }
  }

  /** The `labels` column built from the cluster ids: the `apply` and then the overwrite. */
  method LoadLabels(ids: seq<int>) returns (labels: array<string>)
    ensures fresh(labels)
    ensures labels[..] == seq(|ids|, i requires 0 <= i < |ids| => ClusterLabel(ids[i]))
  {
    labels := new string[|ids|](i requires 0 <= i < |ids| => RawLabel(ids[i]));
    RelabelNoise(labels);
  }

  // ---------------------------------------------------------------------------
  // The severity table (lines 23-37)

  /** A crash of `crashsite_df` with its `labels` entry. */
  datatype LabelledCrash = LabelledCrash(crash: CrashRecord, labels: string)

  function LabelOf(r: LabelledCrash): string { r.labels }
  function TotalPersonsOf(r: LabelledCrash): real { r.crash.totalPersons as real }
  function InjOrFatalOf(r: LabelledCrash): real { r.crash.injOrFatal as real }

  /** 1 for a crash the police attended, else 0. */
  function PoliceAttended(r: LabelledCrash): real { if r.crash.policeAttend == "Yes" then 1.0 else 0.0 }

  /** 1 for a fatal crash, else 0. */
  function Fatal(r: LabelledCrash): real { if r.crash.severity == "Fatal accident" then 1.0 else 0.0 }

  /** `(x == v).sum() / len(x)`: the share of the group with the value, which is the
      mean of its 0/1 indicator. */
  function Fraction(group: seq<LabelledCrash>, indicator: LabelledCrash -> real): real
    requires |group| > 0
  {
    Mean(Map(group, indicator))
  }

  /** One row of `grouped`; `count` is `None` until line 35 adds the column. */
  datatype SeverityRow = SeverityRow(labels: string, totalPersons: real, injOrFatal: real,
                                     accidentDates: nat, policeAttend: real, severity: real,
                                     count: Option<int>)

  function SeverityOf(r: SeverityRow): real { r.severity }
  function RowLabelOf(r: SeverityRow): string { r.labels }

  function SeverityGroup(key: string, group: seq<LabelledCrash>): SeverityRow
    requires |group| > 0
  {
    SeverityRow(key, Mean(Map(group, TotalPersonsOf)), Mean(Map(group, InjOrFatalOf)), |group|,
                Fraction(group, PoliceAttended), Fraction(group, Fatal), None)
  }

  /** `crashsite_df.groupby("labels").agg(...)`. */
  function SeverityGroups(crashes: seq<LabelledCrash>): (t: seq<SeverityRow>)
    ensures Map(t, RowLabelOf) == GroupKeys(crashes, LabelOf)
    ensures forall i :: 0 <= i < |t| ==> |Where(crashes, LabelOf, t[i].labels)| > 0
  {
    var ks := GroupKeys(crashes, LabelOf);
    GroupKeysHaveRows(crashes, LabelOf);
    seq(|ks|, i requires 0 <= i < |ks| => SeverityGroup(ks[i], Where(crashes, LabelOf, ks[i])))
  }

  /** `.sort_values(by="SEVERITY", ascending=False)`. */
  function SortedSeverityGroups(crashes: seq<LabelledCrash>): seq<SeverityRow>
  {
    SortValues(SeverityGroups(crashes), SeverityOf, false)
  }

  /** A row with its `count` column. */
  function Counted(r: SeverityRow): SeverityRow
  {
    r.(count := Some(r.accidentDates as int))
  }

  /** The table after line 35 adds `count`. */
  function WithCount(rows: seq<SeverityRow>): (t: seq<SeverityRow>)
    ensures |t| == |rows|
  {
    seq(|rows|, i requires 0 <= i < |rows| => Counted(rows[i]))
  }

  function IsNotNoise(r: SeverityRow): bool { r.labels != NoiseLabel }

  /** What `getGroupedSeverityData` returns when the frame has a `"Noise"` label. */
  function GroupedSeverity(crashes: seq<LabelledCrash>): seq<SeverityRow>
  {
    Filter(WithCount(SortedSeverityGroups(crashes)), IsNotNoise)
  }

  lemma ZeroOneIndicator(group: seq<LabelledCrash>, indicator: LabelledCrash -> real)
    requires forall r :: 0.0 <= indicator(r) <= 1.0
    requires |group| > 0
    ensures 0.0 <= Fraction(group, indicator) <= 1.0
  {
    MeanBetween(Map(group, indicator), 0.0, 1.0);
  }

  /** What a row of the group-by says about its label's crashes: their number, the
      means of TOTAL_PERSONS and INJ_OR_FATAL over them, and the shares of them the
      police attended and that were fatal, each share in [0, 1]. */
  ghost predicate DescribesGroup(r: SeverityRow, crashes: seq<LabelledCrash>)
  {
    var group := Where(crashes, LabelOf, r.labels);
    && r.labels in Map(crashes, LabelOf)
    && r.accidentDates == |group| >= 1
    && r.totalPersons == Mean(Map(group, TotalPersonsOf))
    && r.injOrFatal == Mean(Map(group, InjOrFatalOf))
    && r.policeAttend == Fraction(group, PoliceAttended)
    && r.severity == Fraction(group, Fatal)
    && 0.0 <= r.policeAttend <= 1.0
    && 0.0 <= r.severity <= 1.0
  }

  /** Row `i` of the group-by describes the crashes of its label. */
  lemma SeverityGroupRow(crashes: seq<LabelledCrash>, i: nat)
    requires i < |SeverityGroups(crashes)|
    ensures DescribesGroup(SeverityGroups(crashes)[i], crashes)
  {
    var ks := GroupKeys(crashes, LabelOf);
    GroupKeysHaveRows(crashes, LabelOf);
    var k := ks[i];
    var group := Where(crashes, LabelOf, k);
    assert SeverityGroups(crashes)[i] == SeverityGroup(k, group);
    SeverityGroupShares(k, group);
    assert k in ks;
    var j :| 0 <= j < |crashes| && LabelOf(crashes[j]) == k;
    assert Map(crashes, LabelOf)[j] == k;
  }

  /** The row of a group counts it and has police and fatality shares in [0, 1]. */
  lemma SeverityGroupShares(key: string, group: seq<LabelledCrash>)
    requires |group| > 0
    ensures var r := SeverityGroup(key, group);
      && r.labels == key && r.accidentDates == |group|
      && 0.0 <= r.policeAttend <= 1.0 && 0.0 <= r.severity <= 1.0
  {
    ZeroOneIndicator(group, PoliceAttended);
    ZeroOneIndicator(group, Fatal);
  }

  /** Every label of the frame has its row. */
  lemma SeverityGroupsCover(crashes: seq<LabelledCrash>, k: string)
    requires k in Map(crashes, LabelOf)
    ensures exists r :: r in SeverityGroups(crashes) && r.labels == k
  {
    var g := SeverityGroups(crashes);
    var ks := GroupKeys(crashes, LabelOf);
    var j :| 0 <= j < |crashes| && Map(crashes, LabelOf)[j] == k;
    assert k in ks;
    var i :| 0 <= i < |ks| && ks[i] == k;
    assert Map(g, RowLabelOf)[i] == g[i].labels;
    assert g[i] in g;
  }

  /** Lines 24-31: one row per label, each describing its label's crashes. */
  lemma SeverityGroupsRows(crashes: seq<LabelledCrash>)
    ensures forall r :: r in SeverityGroups(crashes) ==> DescribesGroup(r, crashes)
    ensures forall k :: k in Map(crashes, LabelOf) ==> exists r :: r in SeverityGroups(crashes) && r.labels == k
  {
    var g := SeverityGroups(crashes);
    forall r | r in g ensures DescribesGroup(r, crashes) {
      var i :| 0 <= i < |g| && g[i] == r;
      SeverityGroupRow(crashes, i);
    }
    forall k | k in Map(crashes, LabelOf) ensures exists r :: r in g && r.labels == k {
      SeverityGroupsCover(crashes, k);
    }
  }

  /** Adding the `count` column keeps the rows, their order and their severity. */
  lemma WithCountRows(rows: seq<SeverityRow>)
    ensures SortedBy(rows, SeverityOf, false) ==> SortedBy(WithCount(rows), SeverityOf, false)
    ensures forall x :: x in WithCount(rows) ==> exists r :: r in rows && x == Counted(r)
    ensures forall r :: r in rows ==> Counted(r) in WithCount(rows)
  {
    var t := WithCount(rows);
    forall x | x in t ensures exists r :: r in rows && x == Counted(r) {
      var i :| 0 <= i < |t| && t[i] == x;
      assert rows[i] in rows;
    }
    forall r | r in rows ensures Counted(r) in t {
      var i :| 0 <= i < |rows| && rows[i] == r;
      assert t[i] == Counted(r);
    }
  }

  /** The sorted table has the group-by's rows, so each describes its label. */
  lemma SortedRowsDescribe(crashes: seq<LabelledCrash>)
    ensures forall r :: r in SortedSeverityGroups(crashes) ==> DescribesGroup(r, crashes)
    ensures forall k :: k in Map(crashes, LabelOf) ==> exists r :: r in SortedSeverityGroups(crashes) && r.labels == k
  {
    var g := SeverityGroups(crashes);
    var sorted := SortedSeverityGroups(crashes);
    SeverityGroupsRows(crashes);
    forall r | r in sorted ensures DescribesGroup(r, crashes) {
      assert r in multiset(sorted);
    }
    forall k | k in Map(crashes, LabelOf) ensures exists r :: r in sorted && r.labels == k {
      var r :| r in g && r.labels == k;
      assert r in multiset(g);
    }
  }

  /** Lines 24-37: the table is ordered by severity from highest to lowest, has no
      `"Noise"` row, carries `count` equal to the `ACCIDENT_DATE` count, has a row for
      every other label of the frame, and each row's count is the number of crashes
      with its label with police and severity shares in [0, 1]. */
  lemma GroupedSeverityRows(crashes: seq<LabelledCrash>)
    ensures var t := GroupedSeverity(crashes);
      && SortedBy(t, SeverityOf, false)
      && (forall x :: x in t ==> x.labels != NoiseLabel && x.count == Some(x.accidentDates as int))
      && (forall x :: x in t ==> DescribesGroup(x, crashes))
      && (forall k :: k in Map(crashes, LabelOf) && k != NoiseLabel ==> exists x :: x in t && x.labels == k)
  {
    var sorted := SortedSeverityGroups(crashes);
    var counted := WithCount(sorted);
    SortedRowsDescribe(crashes);
    WithCountRows(sorted);
    FilterKeepsOrder(counted, IsNotNoise, SeverityOf, false);
    var t := GroupedSeverity(crashes);
    forall x | x in t ensures x.count == Some(x.accidentDates as int) && DescribesGroup(x, crashes) {
      var r :| r in sorted && x == Counted(r);
    }
    forall k | k in Map(crashes, LabelOf) && k != NoiseLabel ensures exists x :: x in t && x.labels == k {
      var r :| r in sorted && r.labels == k;
      assert Counted(r) in counted;
      assert Counted(r) in t;
    }
  }

  /** Whether the frame has a `"Noise"` label decides whether the row is there to drop. */
  lemma NoiseRowIffNoiseLabel(crashes: seq<LabelledCrash>)
    ensures (exists x :: x in WithCount(SortedSeverityGroups(crashes)) && x.labels == NoiseLabel)
        <==> NoiseLabel in Map(crashes, LabelOf)
  {
    var sorted := SortedSeverityGroups(crashes);
    SortedRowsDescribe(crashes);
    WithCountRows(sorted);
    if NoiseLabel in Map(crashes, LabelOf) {
      var r :| r in sorted && r.labels == NoiseLabel;
      assert Counted(r) in WithCount(sorted);
    }
    if x :| x in WithCount(sorted) && x.labels == NoiseLabel {
      var r :| r in sorted && x == Counted(r);
      assert DescribesGroup(r, crashes);
    }
  }

  datatype DropError = KeyError(key: string)

  /** `grouped`, which the page updates in place. */
  class SeverityTable {
    var rows: seq<SeverityRow>

    constructor (grouped: seq<SeverityRow>)
      ensures rows == grouped
    {
      rows := grouped;
    }

    /** `grouped["count"] = grouped["ACCIDENT_DATE"].astype(int)`. */
    method AddCount()
      modifies this
      ensures rows == WithCount(old(rows))
    {
      rows := WithCount(rows);
    }

    /** `grouped.drop("Noise", inplace=True)`: the `"Noise"` row goes, or a KeyError
        when there is none and the table is left as it was. */
    method DropNoise() returns (r: Result<bool, DropError>)
      modifies this
      ensures r.Failure? <==> forall x :: x in old(rows) ==> x.labels != NoiseLabel
      ensures r.Failure? ==> r.error == KeyError(NoiseLabel) && rows == old(rows)
      ensures r.Success? ==> rows == Filter(old(rows), IsNotNoise)
    {
      var kept := Filter(rows, IsNotNoise);
      if |kept| == |rows| {
        forall x | x in rows ensures x.labels != NoiseLabel {
          if x.labels == NoiseLabel {
            FilterDropsOne(rows, IsNotNoise, x);
          }
        }
        return Failure(KeyError(NoiseLabel));
      }
      if forall x :: x in rows ==> IsNotNoise(x) {
        WhereAllMatch(rows, IsNotNoise, true);
      }
      rows := kept;
      r := Success(true);
    }
  }

  /** `getGroupedSeverityData()`: the sorted table with its `count` column and
      without the `"Noise"` row, or the KeyError `drop` raises when no crash is
      labelled `"Noise"`. */
  method GetGroupedSeverityData(crashes: seq<LabelledCrash>) returns (r: Result<seq<SeverityRow>, DropError>)
    ensures r.Failure? <==> NoiseLabel !in Map(crashes, LabelOf)
    ensures r.Failure? ==> r.error == KeyError(NoiseLabel)
    ensures r.Success? ==> r.value == GroupedSeverity(crashes)
  {
    var table := new SeverityTable(SortedSeverityGroups(crashes));
    table.AddCount();
    NoiseRowIffNoiseLabel(crashes);
    var dropped := table.DropNoise();
    if dropped.Failure? {
      return Failure(dropped.error);
    }
    r := Success(table.rows);
  }

  // ---------------------------------------------------------------------------
  // Coefficient names (line 228)

  /** The position of the last `c` in `s`. */
  function LastIndexOf(s: string, c: char): (i: nat)
    requires c in s
    ensures i < |s| && s[i] == c && c !in s[i + 1..]
  {
    if s[|s| - 1] == c then |s| - 1
    else
      assert c in s[..|s| - 1] by {
        var k :| 0 <= k < |s| && s[k] == c;
        assert s[..|s| - 1][k] == c;
      }
      var i := LastIndexOf(s[..|s| - 1], c);
      assert s[i + 1..] == s[..|s| - 1][i + 1..] + [s[|s| - 1]];
      i
  }

  /** `s.split("_")`. */
  function Split(s: string): (parts: seq<string>)
    ensures |parts| > 0
    ensures forall p :: p in parts ==> '_' !in p
    decreases |s|
  {
    if '_' !in s then [s]
    else
      var i := LastIndexOf(s, '_');
      Split(s[..i]) + [s[i + 1..]]
  }

  /** `sep.join(parts)`. */
  function Join(parts: seq<string>, sep: string): string
  {
    if parts == [] then ""
    else if |parts| == 1 then parts[0]
    else Join(parts[..|parts| - 1], sep) + sep + parts[|parts| - 1]
  }

  /** `s` with every `_` replaced by a space. */
  function Spaced(s: string): (t: string)
    ensures |t| == |s|
    ensures forall k :: 0 <= k < |s| ==> t[k] == (if s[k] == '_' then ' ' else s[k])
  {
    seq(|s|, k requires 0 <= k < |s| => if s[k] == '_' then ' ' else s[k])
  }

  /** Splitting at the last underscore: the parts before it, then the text after it. */
  lemma SplitAtLast(s: string, i: nat)
    requires '_' in s && i == LastIndexOf(s, '_')
    ensures var parts := Split(s);
      && |parts| >= 2
      && parts[..|parts| - 1] == Split(s[..i])
      && parts[|parts| - 1] == s[i + 1..]
  {
    var parts := Split(s);
    assert parts == Split(s[..i]) + [s[i + 1..]];
  }

  /** A string is its text before position `i`, the character there, and the rest. */
  lemma AroundIndex(s: string, i: nat)
    requires i < |s|
    ensures s == s[..i] + [s[i]] + s[i + 1..]
  {
    forall k | 0 <= k < |s| ensures s[k] == (s[..i] + [s[i]] + s[i + 1..])[k] {
    }
  }

  lemma {:induction false} JoinSplit(s: string)
    ensures Join(Split(s), "_") == s
    decreases |s|
  {
    if '_' in s {
      var i := LastIndexOf(s, '_');
      var parts := Split(s);
      SplitAtLast(s, i);
      assert Join(parts, "_") == Join(parts[..|parts| - 1], "_") + "_" + parts[|parts| - 1];
      JoinSplit(s[..i]);
      AroundIndex(s, i);
    }
  }

  /** With no underscore in `t`, `Spaced` leaves it as it is. */
  lemma SpacedNoUnderscore(t: string)
    requires '_' !in t
    ensures Spaced(t) == t
  {
    forall k | 0 <= k < |t| ensures Spaced(t)[k] == t[k] {
      assert t[k] in t;
    }
  }

  /** Replacing underscores around the last one. */
  lemma SpacedAtLast(s: string, i: nat)
    requires i < |s| && s[i] == '_' && '_' !in s[i + 1..]
    ensures Spaced(s) == Spaced(s[..i]) + " " + s[i + 1..]
  {
    var tail := s[i + 1..];
    SpacedNoUnderscore(tail);
    var t := Spaced(s[..i]) + " " + Spaced(tail);
    forall k | 0 <= k < |s| ensures Spaced(s)[k] == t[k] {
      if k > i {
        assert s[k] == tail[k - i - 1];
      }
    }
  }

  lemma {:induction false} JoinSplitWithSpaces(s: string)
    ensures Join(Split(s), " ") == Spaced(s)
    decreases |s|
  {
    if '_' in s {
      var i := LastIndexOf(s, '_');
      var pre, tail := s[..i], s[i + 1..];
      SplitAtLast(s, i);
      JoinSplitWithSpaces(pre);
      assert Join(Split(s), " ") == Join(Split(pre), " ") + " " + tail;
      SpacedAtLast(s, i);
    } else {
      SpacedNoUnderscore(s);
    }
  }

  function ToUpper(c: char): char
  {
    if 'a' <= c <= 'z' then (c as int - 'a' as int + 'A' as int) as char else c
  }

  function ToLower(c: char): char
  {
    if 'A' <= c <= 'Z' then (c as int - 'A' as int + 'a' as int) as char else c
  }

  /** `str.capitalize`: the first character upper case, the rest lower case. */
  function Capitalize(s: string): (t: string)
    ensures |t| == |s|
    ensures |s| > 0 ==> t[0] == ToUpper(s[0])
    ensures forall k :: 0 < k < |s| ==> t[k] == ToLower(s[k])
  {
    if s == [] then []
    else [ToUpper(s[0])] + seq(|s| - 1, k requires 0 <= k < |s| - 1 => ToLower(s[k + 1]))
  }

  /** The index pair of one coefficient: the capitalised factor name with spaces,
      and the level after the last underscore. */
  function CoefficientIndex(name: string): (string, string)
  {
    var parts := Split(name);
    (Capitalize(Join(parts[..|parts| - 1], " ")), parts[|parts| - 1])
  }

  /** A name without an underscore has an empty factor and is its own level. */
  lemma CoefficientWithoutUnderscore(name: string)
    requires '_' !in name
    ensures CoefficientIndex(name) == ("", name)
  {
    assert Split(name) == [name];
    assert Split(name)[..0] == [];
  }

  /** The name is the text before its last underscore, the underscore and the rest. */
  lemma AroundLastUnderscore(name: string)
    requires '_' in name
    ensures var i := LastIndexOf(name, '_');
      name == name[..i] + "_" + name[i + 1..]
  {
    var i := LastIndexOf(name, '_');
    assert name == name[..i] + [name[i]] + name[i + 1..];
  }

  /** The parts before the level, joined with spaces, are the text before the last
      underscore with its underscores as spaces. */
  lemma FactorText(name: string)
    requires '_' in name
    ensures var i := LastIndexOf(name, '_');
      var parts := Split(name);
      Join(parts[..|parts| - 1], " ") == Spaced(name[..i])
  {
    var i := LastIndexOf(name, '_');
    SplitAtLast(name, i);
    JoinSplitWithSpaces(name[..i]);
  }

  /** The level is the text after the last underscore, and the factor the text
      before it with underscores as spaces, capitalised. */
  lemma CoefficientWithUnderscore(name: string)
    requires '_' in name
    ensures var i := LastIndexOf(name, '_');
      && name == name[..i] + "_" + name[i + 1..]
      && CoefficientIndex(name).0 == Capitalize(Spaced(name[..i]))
      && CoefficientIndex(name).1 == name[i + 1..]
  {
    AroundLastUnderscore(name);
    FactorText(name);
    SplitAtLast(name, LastIndexOf(name, '_'));
  }

  /** The level never contains an underscore. */
  lemma CoefficientLevelHasNoUnderscore(name: string)
    ensures '_' !in CoefficientIndex(name).1
  {
    var parts := Split(name);
    assert parts[|parts| - 1] in parts;
  }
}
