/** The casualty roll-ups of hello.py's `visualisation`: group-by sums per
    year-month, per accident type and per road-management area, and group-by
    means per calendar month. */
module Rollups {
  import opened Stats
  import opened Grouping
  import opened Records
  import Calendar

  /** The five casualty columns every roll-up aggregates. */
  datatype Casualty = TotalPersons | Fatality | SeriousInjury | OtherInjury | NonInjured

  function CasualtyOf(c: Casualty): CrashRecord -> real
  {
    (r: CrashRecord) =>
      match c
      case TotalPersons => r.totalPersons as real
      case Fatality => r.fatality as real
      case SeriousInjury => r.seriousInjury as real
      case OtherInjury => r.otherInjury as real
      case NonInjured => r.nonInjured as real
  }

  /** One row of a roll-up after `reset_index()`: the key and the five aggregates. */
  datatype Rollup<K> = Rollup(key: K, totalPersons: real, fatality: real,
                              seriousInjury: real, otherInjury: real, nonInjured: real)
  {
    function Get(c: Casualty): real
    {
      match c
      case TotalPersons => totalPersons
      case Fatality => fatality
      case SeriousInjury => seriousInjury
      case OtherInjury => otherInjury
      case NonInjured => nonInjured
    }
  }

  function RollupColumn<K>(c: Casualty): Rollup<K> -> real
  {
    (t: Rollup<K>) => t.Get(c)
  }

  function TotalPersonsOf<K>(t: Rollup<K>): real
  {
    t.totalPersons
  }

  /** `.agg({... : 'sum'})` over one group. */
  function SumRow<K>(k: K, group: seq<CrashRecord>): Rollup<K>
  {
    Rollup(k, Sum(Map(group, CasualtyOf(TotalPersons))), Sum(Map(group, CasualtyOf(Fatality))),
           Sum(Map(group, CasualtyOf(SeriousInjury))), Sum(Map(group, CasualtyOf(OtherInjury))),
           Sum(Map(group, CasualtyOf(NonInjured))))
  }

  /** `.agg({... : 'mean'})` over one (non-empty) group. */
  function MeanRow<K>(k: K, group: seq<CrashRecord>): Rollup<K>
    requires |group| > 0
  {
    Rollup(k, Mean(Map(group, CasualtyOf(TotalPersons))), Mean(Map(group, CasualtyOf(Fatality))),
           Mean(Map(group, CasualtyOf(SeriousInjury))), Mean(Map(group, CasualtyOf(OtherInjury))),
           Mean(Map(group, CasualtyOf(NonInjured))))
  }

  /** The rows of a group-by sum, one per key of `ks`. */
  function SumTable<K(==,!new)>(ks: seq<K>, rows: seq<CrashRecord>, key: CrashRecord -> K): seq<Rollup<K>>
  {
    seq(|ks|, i requires 0 <= i < |ks| => SumRow(ks[i], Where(rows, key, ks[i])))
  }

  /** The rows of a group-by mean, one per key of `ks`; every key must have rows. */
  function MeanTable<K(==,!new)>(ks: seq<K>, rows: seq<CrashRecord>, key: CrashRecord -> K): seq<Rollup<K>>
    requires forall i :: 0 <= i < |ks| ==> |Where(rows, key, ks[i])| > 0
  {
    seq(|ks|, i requires 0 <= i < |ks| => MeanRow(ks[i], Where(rows, key, ks[i])))
  }

  /** `df.groupby([key]).agg(sum of the five columns).reset_index()`. */
  function GroupSums<K(==,!new)>(rows: seq<CrashRecord>, key: CrashRecord -> K): seq<Rollup<K>>
  {
    SumTable(GroupKeys(rows, key), rows, key)
  }

  /** `df.groupby([key]).agg(mean of the five columns).reset_index()`. */
  function GroupMeans<K(==,!new)>(rows: seq<CrashRecord>, key: CrashRecord -> K): seq<Rollup<K>>
  {
    GroupKeysHaveRows(rows, key);
    MeanTable(GroupKeys(rows, key), rows, key)
  }

  function YearMonthKey(r: CrashRecord): string { Calendar.YearMonthText(r.date) }
  function MonthKey(r: CrashRecord): string { Calendar.MonthText(r.date) }
  function AccidentTypeKey(r: CrashRecord): string { r.accidentType }
  function RmaKey(r: CrashRecord): string { r.rmaAll }

  /** hello.py:53-59, casualty sums per `ACCIDENT_YEARMONTH`. */
  function ByYearMonth(rows: seq<CrashRecord>): seq<Rollup<string>>
  {
    GroupSums(rows, YearMonthKey)
  }

  /** hello.py:80-86, casualty means per `ACCIDENT_MONTH`. */
  function ByMonth(rows: seq<CrashRecord>): seq<Rollup<string>>
  {
    GroupMeans(rows, MonthKey)
  }

  /** hello.py:106-115, casualty sums per `ACCIDENT_TYPE`, charted by
      `TOTAL_PERSONS` from largest to smallest. */
  function ByAccidentType(rows: seq<CrashRecord>): seq<Rollup<string>>
  {
    SortValues(GroupSums(rows, AccidentTypeKey), TotalPersonsOf, false)
  }

  /** hello.py:141-151, casualty sums per `RMA_ALL`, charted by `TOTAL_PERSONS`
      from smallest to largest. */
  function ByRma(rows: seq<CrashRecord>): seq<Rollup<string>>
  {
    SortValues(GroupSums(rows, RmaKey), TotalPersonsOf, true)
  }

  function KeyOf<K>(t: Rollup<K>): K { t.key }

  /** A sum roll-up has exactly one row per distinct key of the frame, and each of
      its columns is that key's column sum. */
  lemma GroupSumsRows<K(!new)>(rows: seq<CrashRecord>, key: CrashRecord -> K)
    ensures var t := GroupSums(rows, key);
      && NoDups(Map(t, KeyOf))
      && (forall k :: k in Map(t, KeyOf) <==> k in Map(rows, key))
      && (forall i, c :: 0 <= i < |t| ==> t[i].Get(c) == Sum(Map(Where(rows, key, t[i].key), CasualtyOf(c))))
  {
    var ks := GroupKeys(rows, key);
    var t := GroupSums(rows, key);
    assert Map(t, KeyOf) == ks;
    forall k ensures k in Map(rows, key) <==> exists i :: 0 <= i < |rows| && key(rows[i]) == k {
      if k in Map(rows, key) {
        var i :| 0 <= i < |rows| && Map(rows, key)[i] == k;
      }
    }
  }

  /** A mean roll-up has exactly one row per distinct key of the frame, each key's
      group is non-empty, and each of its columns is that key's column mean. */
  lemma GroupMeansRows<K(!new)>(rows: seq<CrashRecord>, key: CrashRecord -> K)
    ensures var t := GroupMeans(rows, key);
      && NoDups(Map(t, KeyOf))
      && (forall k :: k in Map(t, KeyOf) <==> k in Map(rows, key))
      && (forall i :: 0 <= i < |t| ==> |Where(rows, key, t[i].key)| > 0)
      && (forall i, c :: 0 <= i < |t| ==> t[i].Get(c) == Mean(Map(Where(rows, key, t[i].key), CasualtyOf(c))))
  {
    var ks := GroupKeys(rows, key);
    GroupKeysHaveRows(rows, key);
    var t := GroupMeans(rows, key);
    assert Map(t, KeyOf) == ks;
    forall k ensures k in Map(rows, key) <==> exists i :: 0 <= i < |rows| && key(rows[i]) == k {
      if k in Map(rows, key) {
        var i :| 0 <= i < |rows| && Map(rows, key)[i] == k;
      }
    }
    forall i, c | 0 <= i < |t|
      ensures t[i].Get(c) == Mean(Map(Where(rows, key, t[i].key), CasualtyOf(c)))
    {
      MeanRowGet(ks[i], Where(rows, key, ks[i]), c);
    }
  }

  /** Column `c` of a mean row is the group's mean of `c`. */
  lemma MeanRowGet<K>(k: K, group: seq<CrashRecord>, c: Casualty)
    requires |group| > 0
    ensures MeanRow(k, group).Get(c) == Mean(Map(group, CasualtyOf(c)))
  {
  }

  /** Sums of a column over the key groups add up to that column's total: summing a
      sum roll-up's column gives the column total over all crashes. */
  lemma {:induction false} SumTableTotal<K(!new)>(ks: seq<K>, rows: seq<CrashRecord>, key: CrashRecord -> K, c: Casualty)
    ensures Sum(Map(SumTable(ks, rows, key), RollupColumn(c))) == KeySums(ks, rows, key, CasualtyOf(c))
  {
    if ks != [] {
      var t := SumTable(ks, rows, key);
      assert t[1..] == SumTable(ks[1..], rows, key);
      SumTableTotal(ks[1..], rows, key, c);
    }
  }

  lemma GroupSumsTotal(rows: seq<CrashRecord>, key: CrashRecord -> string, c: Casualty)
    ensures Sum(Map(GroupSums(rows, key), RollupColumn(c))) == Sum(Map(rows, CasualtyOf(c)))
  {
    SumTableTotal(GroupKeys(rows, key), rows, key, c);
    Grouping.GroupSumsTotal(rows, key, CasualtyOf(c));
  }

  /** hello.py:53-59: the year-month chart's bars add up to the casualty totals of
      the whole table. */
  lemma ByYearMonthTotal(rows: seq<CrashRecord>, c: Casualty)
    ensures Sum(Map(ByYearMonth(rows), RollupColumn(c))) == Sum(Map(rows, CasualtyOf(c)))
  {
    GroupSumsTotal(rows, YearMonthKey, c);
  }

  /** hello.py:80-86: each monthly mean lies between the smallest and largest value
      of that column among the month's crashes. */
  lemma ByMonthWithinRange(rows: seq<CrashRecord>, i: nat, c: Casualty)
    requires i < |ByMonth(rows)|
    ensures var t := ByMonth(rows);
      var group := Map(Where(rows, MonthKey, t[i].key), CasualtyOf(c));
      |group| > 0 && Min(group) <= t[i].Get(c) <= Max(group)
  {
    var ks := GroupKeys(rows, MonthKey);
    GroupKeysHaveRows(rows, MonthKey);
    var group := Map(Where(rows, MonthKey, ks[i]), CasualtyOf(c));
    MeanBetweenMinMax(group);
  }

  /** hello.py:115 and 151: the accident-type chart is its roll-up reordered by
      total persons from largest to smallest, the RMA chart from smallest to largest. */
  lemma ChartOrders(rows: seq<CrashRecord>)
    ensures SortedBy(ByAccidentType(rows), TotalPersonsOf, false)
    ensures multiset(ByAccidentType(rows)) == multiset(GroupSums(rows, AccidentTypeKey))
    ensures SortedBy(ByRma(rows), TotalPersonsOf, true)
    ensures multiset(ByRma(rows)) == multiset(GroupSums(rows, RmaKey))
  {
  }
}
