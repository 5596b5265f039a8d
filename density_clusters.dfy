/** main.py: the date window of crashes fed to DBSCAN (`get_data`), the `eps`
    conversion of the form's distance, the removal of noise points from the
    labelled frame, and the per-cluster summary `cluster_info_df`.

    DBSCAN itself is a library call; its labels are an input here. */
module DensityClusters {
  import opened Stats
  import opened Grouping
  import opened Records

  // ---------------------------------------------------------------------------
  // The date window (main.py:23-29)

  /** The latest `ACCIDENT_DATE` of a non-empty table. */
  function Latest(rs: seq<CrashRecord>): (d: Timestamp)
    requires |rs| > 0
    ensures exists i :: 0 <= i < |rs| && rs[i].date == d
    ensures forall i :: 0 <= i < |rs| ==> AtOrBefore(rs[i].date, d)
  {
    if |rs| == 1 then rs[0].date
    else
      var m := Latest(rs[1..]);
      assert forall i :: 1 <= i < |rs| ==> rs[i] == rs[1..][i - 1];
      if Before(m, rs[0].date) then rs[0].date else m
  }

  /** `cutoff < date <= last`. */
  predicate InWindow(d: Date, cutoff: Date, last: Date)
  {
    Before(cutoff, d) && AtOrBefore(d, last)
  }

  /** One row of `lat_long_df`: the crash's position in the table and its coordinates. */
  datatype LatLong = LatLong(index: nat, latitude: real, longitude: real)

  function PointOf(rs: seq<CrashRecord>, i: nat): LatLong
    requires i < |rs|
  {
    LatLong(i, rs[i].latitude, rs[i].longitude)
  }

  /** The rows from position `i` on whose date lies in the window, in table order. */
  function WindowFrom(rs: seq<CrashRecord>, cutoff: Date, last: Date, i: nat): (w: seq<LatLong>)
    requires i <= |rs|
    ensures forall p :: p in w ==>
      i <= p.index < |rs| && p == PointOf(rs, p.index) && InWindow(rs[p.index].date, cutoff, last)
    ensures forall j :: i <= j < |rs| && InWindow(rs[j].date, cutoff, last) ==> PointOf(rs, j) in w
    ensures forall a, b :: 0 <= a < b < |w| ==> w[a].index < w[b].index
    decreases |rs| - i
  {
    if i == |rs| then []
    else
      var rest := WindowFrom(rs, cutoff, last, i + 1);
      (if InWindow(rs[i].date, cutoff, last) then [PointOf(rs, i)] else []) + rest
  }

  /** `get_data(num_years_offset)`: the coordinates of the crashes dated after the
      latest date less `yearsOffset` years, up to and including the latest date.
      On an empty table the latest date is missing and nothing is selected. */
  function DateWindow(rs: seq<CrashRecord>, yearsOffset: nat): seq<LatLong>
  {
    if rs == [] then []
    else WindowFrom(rs, MinusYears(Latest(rs), yearsOffset), Latest(rs), 0)
  }

  /** main.py:25-28: a crash is selected exactly when its date lies in the window,
      and the selection keeps the table's order. */
  lemma DateWindowExact(rs: seq<CrashRecord>, yearsOffset: nat)
    requires |rs| > 0
    ensures var last := Latest(rs);
      var cutoff := MinusYears(last, yearsOffset);
      var w := DateWindow(rs, yearsOffset);
      && (forall j :: 0 <= j < |rs| ==> (PointOf(rs, j) in w <==> Before(cutoff, rs[j].date) && AtOrBefore(rs[j].date, last)))
      && (forall p :: p in w ==> p.index < |rs| && p == PointOf(rs, p.index))
      && (forall a, b :: 0 <= a < b < |w| ==> w[a].index < w[b].index)
  {
  }

  /** With a positive offset the latest crash is always in the window; with a zero
      offset the window is empty. */
  lemma LatestIsKept(rs: seq<CrashRecord>, yearsOffset: nat)
    requires |rs| > 0
    ensures yearsOffset > 0 ==> exists j :: 0 <= j < |rs| && rs[j].date == Latest(rs) && PointOf(rs, j) in DateWindow(rs, yearsOffset)
    ensures yearsOffset == 0 ==> DateWindow(rs, yearsOffset) == []
  {
    var last := Latest(rs);
    MinusYearsIsEarlier(last, yearsOffset);
    var w := DateWindow(rs, yearsOffset);
    if yearsOffset > 0 {
      var j :| 0 <= j < |rs| && rs[j].date == last;
      assert InWindow(rs[j].date, MinusYears(last, yearsOffset), last);
    } else if w != [] {
      assert w[0] in w;
    }
  }

  // ---------------------------------------------------------------------------
  // DBSCAN parameters (main.py:49-55)

  /** Metres per radian on the sphere DBSCAN's haversine metric uses. */
  const EarthRadiusMetres: real := 6371000.0

  datatype DbscanParams = DbscanParams(eps: real, minSamples: nat)

  /** `(distance_in_meters/1000)/6371`: the distance as an angle in radians. */
  function Eps(distanceMetres: int): (e: real)
    requires 0 <= distanceMetres <= 1000
    ensures e * EarthRadiusMetres == distanceMetres as real
    ensures 0.0 <= e && (e == 0.0 <==> distanceMetres == 0)
  {
    (distanceMetres as real / 1000.0) / 6371.0
  }

  /** A longer distance never gives a smaller `eps`. */
  lemma EpsMonotone(a: int, b: int)
    requires 0 <= a <= b <= 1000
    ensures Eps(a) <= Eps(b)
  {
    assert (Eps(b) - Eps(a)) * EarthRadiusMetres == (b - a) as real;
  }

  /** `DBSCAN_params`, from the form's two inputs within their widget bounds. */
  function Params(distanceMetres: int, minOccurrence: int): (p: DbscanParams)
    requires 0 <= distanceMetres <= 1000 && 0 <= minOccurrence <= 10
    ensures p.eps * EarthRadiusMetres == distanceMetres as real
    ensures p.minSamples as int == minOccurrence <= 10
  {
    DbscanParams(Eps(distanceMetres), minOccurrence)
  }

  // ---------------------------------------------------------------------------
  // Noise removal (main.py:65-71)

  /** A row of `_lat_long_df` with its `cluster` label. */
  datatype Labelled = Labelled(point: LatLong, cluster: int)

  /** DBSCAN's label for noise. */
  const Noise: int := -1

  function IsClusterMember(r: Labelled): bool { r.cluster != Noise }

  /** Label `i` belongs to row `i`. */
  function Zip(points: seq<LatLong>, labels: seq<int>): (rows: seq<Labelled>)
    requires |labels| == |points|
    ensures |rows| == |points|
  {
    seq(|points|, i requires 0 <= i < |points| => Labelled(points[i], labels[i]))
  }

  /** `_lat_long_df.loc[_lat_long_df["cluster"] != -1]`. */
  function NonNoise(rows: seq<Labelled>): (kept: seq<Labelled>)
    ensures forall r :: r in kept ==> r.cluster != Noise
  {
    Filter(rows, IsClusterMember)
  }

  /** Row `i` survives with its own label exactly when that label is not noise. */
  lemma NonNoiseKeepsMembers(points: seq<LatLong>, labels: seq<int>)
    requires |labels| == |points|
    ensures forall i :: 0 <= i < |points| ==>
      (Labelled(points[i], labels[i]) in NonNoise(Zip(points, labels)) <==> labels[i] != Noise)
    ensures forall r :: r in NonNoise(Zip(points, labels)) ==>
      exists i :: 0 <= i < |points| && r == Labelled(points[i], labels[i]) && labels[i] != Noise
  {
    var z := Zip(points, labels);
    forall i | 0 <= i < |points| ensures Labelled(points[i], labels[i]) in z {
      assert z[i] == Labelled(points[i], labels[i]);
    }
  }

  /** `_lat_long_df`, which the script copies from `lat_long_df`, labels and filters. */
  class ClusterFrame {
    var points: seq<LatLong>
    var cluster: seq<int>

    /** `lat_long_df.copy()`: no `cluster` column yet. */
    constructor (src: seq<LatLong>)
      ensures points == src && cluster == []
    {
      points, cluster := src, [];
    }

    /** `_lat_long_df["cluster"] = clustering.labels_`: one label per row, by position. */
    method AssignCluster(labels: seq<int>)
      requires |labels| == |points|
      modifies this
      ensures points == old(points) && cluster == labels
    {
      cluster := labels;
    }

    /** `_lat_long_df = _lat_long_df.loc[non_outliner_selector]`. */
    method DropNoise()
      requires |cluster| == |points|
      modifies this
      ensures |cluster| == |points|
      ensures Zip(points, cluster) == NonNoise(old(Zip(points, cluster)))
    {
      var kept := NonNoise(Zip(points, cluster));
      points := seq(|kept|, i requires 0 <= i < |kept| => kept[i].point);
      cluster := seq(|kept|, i requires 0 <= i < |kept| => kept[i].cluster);
      assert Zip(points, cluster) == kept;
    }
  }

  /** A row of `clusterd_crashsite_df`: the crash and the label joined onto it. */
  datatype ClusteredCrash = ClusteredCrash(crash: CrashRecord, cluster: int)

  ghost predicate RefersInto(kept: seq<Labelled>, rs: seq<CrashRecord>)
  {
    forall i :: 0 <= i < |kept| ==> kept[i].point.index < |rs|
  }

  /** `crashsite_df.loc[cluster_index].join(_lat_long_df["cluster"])`. */
  function ClusteredCrashes(rs: seq<CrashRecord>, kept: seq<Labelled>): (c: seq<ClusteredCrash>)
    requires RefersInto(kept, rs)
    ensures |c| == |kept|
  {
    seq(|kept|, i requires 0 <= i < |kept| => ClusteredCrash(rs[kept[i].point.index], kept[i].cluster))
  }

  /** Every windowed point is the position and coordinates of a crash of the table. */
  lemma DateWindowPoints(rs: seq<CrashRecord>, yearsOffset: nat)
    ensures forall p :: p in DateWindow(rs, yearsOffset) ==> p.index < |rs| && p == PointOf(rs, p.index)
  {
  }

  /** The kept rows point into the table their points came from. */
  lemma NonNoiseRefersInto(rs: seq<CrashRecord>, points: seq<LatLong>, labels: seq<int>)
    requires |labels| == |points|
    requires forall p :: p in points ==> p.index < |rs|
    ensures RefersInto(NonNoise(Zip(points, labels)), rs)
  {
    var kept := NonNoise(Zip(points, labels));
    NonNoiseKeepsMembers(points, labels);
    forall i | 0 <= i < |kept| ensures kept[i].point.index < |rs| {
      assert kept[i] in kept;
      var j :| 0 <= j < |points| && kept[i] == Labelled(points[j], labels[j]) && labels[j] != Noise;
      assert points[j] in points;
    }
  }

  /** A point's crash is among the clustered crashes, with the point's label,
      exactly when that label is not noise. */
  lemma ClusteredCrashMember(rs: seq<CrashRecord>, points: seq<LatLong>, labels: seq<int>, i: nat)
    requires |labels| == |points| && i < |points|
    requires forall p :: p in points ==> p.index < |rs|
    ensures RefersInto(NonNoise(Zip(points, labels)), rs)
    ensures points[i].index < |rs|
    ensures ClusteredCrash(rs[points[i].index], labels[i]) in ClusteredCrashes(rs, NonNoise(Zip(points, labels)))
        <==> labels[i] != Noise
  {
    NonNoiseRefersInto(rs, points, labels);
    NonNoiseKeepsMembers(points, labels);
    assert points[i] in points;
    var kept := NonNoise(Zip(points, labels));
    var c := ClusteredCrashes(rs, kept);
    if labels[i] != Noise {
      var m :| 0 <= m < |kept| && kept[m] == Labelled(points[i], labels[i]);
      assert c[m] == ClusteredCrash(rs[points[i].index], labels[i]);
    }
  }

  /** Every clustered row is the crash of a non-noise point, with that point's label. */
  lemma ClusteredCrashOrigin(rs: seq<CrashRecord>, points: seq<LatLong>, labels: seq<int>)
    requires |labels| == |points|
    requires forall p :: p in points ==> p.index < |rs|
    requires RefersInto(NonNoise(Zip(points, labels)), rs)
    ensures forall x :: x in ClusteredCrashes(rs, NonNoise(Zip(points, labels))) ==>
      && x.cluster != Noise
      && exists i :: 0 <= i < |points| && labels[i] != Noise
                  && x == ClusteredCrash(rs[points[i].index], labels[i])
  {
    var kept := NonNoise(Zip(points, labels));
    var c := ClusteredCrashes(rs, kept);
    NonNoiseKeepsMembers(points, labels);
    forall x | x in c
      ensures x.cluster != Noise
      ensures exists i :: 0 <= i < |points| && labels[i] != Noise
                       && x == ClusteredCrash(rs[points[i].index], labels[i])
    {
      var m :| 0 <= m < |c| && c[m] == x;
      assert kept[m] in kept;
      var i :| 0 <= i < |points| && kept[m] == Labelled(points[i], labels[i]) && labels[i] != Noise;
      assert points[i] in points;
      assert x == ClusteredCrash(rs[points[i].index], labels[i]);
    }
  }

  /** main.py:63-71 end to end: the clustered crashes are exactly the windowed crashes
      whose label is not noise, each with its own label. */
  lemma ClusteredCrashesExact(rs: seq<CrashRecord>, yearsOffset: nat, labels: seq<int>)
    requires |labels| == |DateWindow(rs, yearsOffset)|
    ensures var points := DateWindow(rs, yearsOffset);
      var kept := NonNoise(Zip(points, labels));
      && RefersInto(kept, rs)
      && var c := ClusteredCrashes(rs, kept);
      && (forall i :: 0 <= i < |points| ==>
            (ClusteredCrash(rs[points[i].index], labels[i]) in c <==> labels[i] != Noise))
      && (forall x :: x in c ==> x.cluster != Noise)
      && (forall x :: x in c ==>
            exists i :: 0 <= i < |points| && labels[i] != Noise
                     && x == ClusteredCrash(rs[points[i].index], labels[i]))
  {
    var points := DateWindow(rs, yearsOffset);
    DateWindowPoints(rs, yearsOffset);
    NonNoiseRefersInto(rs, points, labels);
    var kept := NonNoise(Zip(points, labels));
    var c := ClusteredCrashes(rs, kept);
    forall i | 0 <= i < |points|
      ensures ClusteredCrash(rs[points[i].index], labels[i]) in c <==> labels[i] != Noise
    {
      ClusteredCrashMember(rs, points, labels, i);
    }
    ClusteredCrashOrigin(rs, points, labels);
  }

  // ---------------------------------------------------------------------------
  // The per-cluster summary (main.py:72-85)

  function ClusterOf(c: ClusteredCrash): int { c.cluster }

  /** The columns `cluster_info_df` averages. */
  datatype Field = TotalPersons | InjOrFatal | Fatality | SeriousInjury | OtherInjury
                 | NonInjured | Latitude | Longitude

  function FieldOf(f: Field): ClusteredCrash -> real
  {
    (c: ClusteredCrash) =>
      match f
      case TotalPersons => c.crash.totalPersons as real
      case InjOrFatal => c.crash.injOrFatal as real
      case Fatality => c.crash.fatality as real
      case SeriousInjury => c.crash.seriousInjury as real
      case OtherInjury => c.crash.otherInjury as real
      case NonInjured => c.crash.nonInjured as real
      case Latitude => c.crash.latitude
      case Longitude => c.crash.longitude
  }

  /** One row of `cluster_info_df`; `accidentCount` is the `ACCIDENT_NO` count. */
  datatype ClusterInfo = ClusterInfo(cluster: int, totalPersons: real, injOrFatal: real,
                                     fatality: real, seriousInjury: real, otherInjury: real,
                                     nonInjured: real, latitude: real, longitude: real,
                                     accidentCount: nat)
  {
    function Get(f: Field): real
    {
      match f
      case TotalPersons => totalPersons
      case InjOrFatal => injOrFatal
      case Fatality => fatality
      case SeriousInjury => seriousInjury
      case OtherInjury => otherInjury
      case NonInjured => nonInjured
      case Latitude => latitude
      case Longitude => longitude
    }
  }

  function InfoClusterOf(t: ClusterInfo): int { t.cluster }
  function AccidentCountOf(t: ClusterInfo): real { t.accidentCount as real }

  /** The `agg` of one cluster's members. */
  function InfoRow(k: int, group: seq<ClusteredCrash>): ClusterInfo
    requires |group| > 0
  {
    ClusterInfo(k, Mean(Map(group, FieldOf(TotalPersons))), Mean(Map(group, FieldOf(InjOrFatal))),
                Mean(Map(group, FieldOf(Fatality))), Mean(Map(group, FieldOf(SeriousInjury))),
                Mean(Map(group, FieldOf(OtherInjury))), Mean(Map(group, FieldOf(NonInjured))),
                Mean(Map(group, FieldOf(Latitude))), Mean(Map(group, FieldOf(Longitude))),
                |group|)
  }

  /** The summary rows of the clusters `ks`. */
  function InfoTable(ks: seq<int>, c: seq<ClusteredCrash>): (t: seq<ClusterInfo>)
    requires forall i :: 0 <= i < |ks| ==> |Where(c, ClusterOf, ks[i])| > 0
    ensures Map(t, InfoClusterOf) == ks
  {
    seq(|ks|, i requires 0 <= i < |ks| => InfoRow(ks[i], Where(c, ClusterOf, ks[i])))
  }

  /** `clusterd_crashsite_df.groupby("cluster").agg(...)`. */
  function ClusterSummary(c: seq<ClusteredCrash>): seq<ClusterInfo>
  {
    GroupKeysHaveRows(c, ClusterOf);
    InfoTable(GroupKeys(c, ClusterOf), c)
  }

  /** One summary row per distinct label, and none of them noise when no member is. */
  lemma ClusterSummaryKeys(c: seq<ClusteredCrash>)
    ensures var t := ClusterSummary(c);
      && NoDups(Map(t, InfoClusterOf))
      && (forall k :: k in Map(t, InfoClusterOf) <==> exists j :: 0 <= j < |c| && c[j].cluster == k)
      && ((forall x :: x in c ==> x.cluster != Noise) ==> forall i :: 0 <= i < |t| ==> t[i].cluster != Noise)
  {
    var ks := GroupKeys(c, ClusterOf);
    var t := ClusterSummary(c);
    assert Map(t, InfoClusterOf) == ks;
    if forall x :: x in c ==> x.cluster != Noise {
      forall i | 0 <= i < |t| ensures t[i].cluster != Noise {
        assert Map(t, InfoClusterOf)[i] == t[i].cluster;
        assert ks[i] in ks;
        var j :| 0 <= j < |c| && c[j].cluster == ks[i];
        assert c[j] in c;
      }
    }
  }

  /** Each summary row counts its cluster's members and holds the mean of each column. */
  lemma ClusterSummaryRow(c: seq<ClusteredCrash>, i: nat, f: Field)
    requires i < |ClusterSummary(c)|
    ensures var t := ClusterSummary(c);
      var group := Where(c, ClusterOf, t[i].cluster);
      && |group| > 0
      && t[i].accidentCount == |group|
      && t[i].Get(f) == Mean(Map(group, FieldOf(f)))
  {
    var ks := GroupKeys(c, ClusterOf);
    GroupKeysHaveRows(c, ClusterOf);
    var t := ClusterSummary(c);
    assert t[i] == InfoRow(ks[i], Where(c, ClusterOf, ks[i]));
  }

  lemma {:induction false} InfoTableCounts(ks: seq<int>, c: seq<ClusteredCrash>)
    requires forall i :: 0 <= i < |ks| ==> |Where(c, ClusterOf, ks[i])| > 0
    ensures Sum(Map(InfoTable(ks, c), AccidentCountOf)) == KeySums(ks, c, ClusterOf, One)
  {
    if ks != [] {
      var t := InfoTable(ks, c);
      assert t[1..] == InfoTable(ks[1..], c);
      InfoTableCounts(ks[1..], c);
      SumOfOnes(Where(c, ClusterOf, ks[0]));
    }
  }

  /** The `ACCIDENT_NO` counts add up to the number of clustered crashes. */
  lemma ClusterCountsTotal(c: seq<ClusteredCrash>)
    ensures Sum(Map(ClusterSummary(c), AccidentCountOf)) == |c| as real
  {
    GroupKeysHaveRows(c, ClusterOf);
    InfoTableCounts(GroupKeys(c, ClusterOf), c);
    GroupSumsTotal(c, ClusterOf, One);
    SumOfOnes(c);
  }

  /** main.py:73-81: every cluster mean lies between the smallest and largest value
      of that column among the cluster's members. */
  lemma ClusterMeansWithinRange(c: seq<ClusteredCrash>, i: nat, f: Field)
    requires i < |ClusterSummary(c)|
    ensures var t := ClusterSummary(c);
      var values := Map(Where(c, ClusterOf, t[i].cluster), FieldOf(f));
      |values| > 0 && Min(values) <= t[i].Get(f) <= Max(values)
  {
    ClusterSummaryRow(c, i, f);
    var t := ClusterSummary(c);
    MeanBetweenMinMax(Map(Where(c, ClusterOf, t[i].cluster), FieldOf(f)));
  }
}
