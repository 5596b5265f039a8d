/** pandas' `groupby(key).agg(...)` and `sort_values(by=..., ascending=...)`,
    stated once over any row type and used by every roll-up of the dashboard. */
module Grouping {
  import opened Stats

  /** No key occurs twice. */
  ghost predicate NoDups<K>(ks: seq<K>)
  {
    forall i, j :: 0 <= i < j < |ks| ==> ks[i] != ks[j]
  }

  /** The rows of one group, in their original order (`df[df[key] == k]`). */
  function Where<R(==,!new), K(==)>(rows: seq<R>, key: R -> K, k: K): (g: seq<R>)
    ensures |g| <= |rows|
    ensures forall x :: x in g <==> x in rows && key(x) == k
  {
    if rows == [] then []
    else (if key(rows[0]) == k then [rows[0]] else []) + Where(rows[1..], key, k)
  }

  /** The group keys: every key of `ks` once, in order of first appearance. */
  function Distinct<K(==,!new)>(ks: seq<K>): (r: seq<K>)
    ensures NoDups(r)
    ensures forall k :: k in r <==> k in ks
  {
    if ks == [] then []
    else
      var d := Distinct(ks[..|ks| - 1]);
      var last := ks[|ks| - 1];
      assert forall k :: k in ks <==> k in ks[..|ks| - 1] || k == last;
      if last in d then d else d + [last]
  }

  /** The column of all rows but the first is the column without its head. */
  lemma MapTail<R, K>(rows: seq<R>, key: R -> K)
    requires |rows| > 0
    ensures Map(rows, key)[1..] == Map(rows[1..], key)
  {
  }

  /** Without its head, a column with no repeats has none either and lacks its head. */
  lemma NoDupsTail<K>(ks: seq<K>)
    requires |ks| > 0 && NoDups(ks)
    ensures NoDups(ks[1..]) && ks[0] !in ks[1..]
  {
    var tail := ks[1..];
    forall i, j | 0 <= i < j < |tail| ensures tail[i] != tail[j] {
      assert tail[i] == ks[i + 1] && tail[j] == ks[j + 1];
    }
    forall i | 0 <= i < |tail| ensures tail[i] != ks[0] {
      assert tail[i] == ks[i + 1];
    }
  }

  /** The distinct keys of `rows`: the index of `groupby(key)`. */
  function GroupKeys<R, K(==,!new)>(rows: seq<R>, key: R -> K): (ks: seq<K>)
    ensures NoDups(ks)
    ensures forall k :: k in ks <==> exists i :: 0 <= i < |rows| && key(rows[i]) == k
  {
    var all := Map(rows, key);
    assert forall k :: k in all <==> exists i :: 0 <= i < |rows| && key(rows[i]) == k;
    Distinct(all)
  }

  /** Every group key of `rows` selects at least one row. */
  lemma GroupKeysHaveRows<R(!new), K(!new)>(rows: seq<R>, key: R -> K)
    ensures forall i :: 0 <= i < |GroupKeys(rows, key)| ==> |Where(rows, key, GroupKeys(rows, key)[i])| > 0
  {
    var ks := GroupKeys(rows, key);
    forall i | 0 <= i < |ks| ensures |Where(rows, key, ks[i])| > 0 {
      assert ks[i] in ks;
      var j :| 0 <= j < |rows| && key(rows[j]) == ks[i];
      assert rows[j] in Where(rows, key, ks[i]);
    }
  }

  /** Selecting a group distributes over concatenation. */
  lemma {:induction false} WhereConcat<R(!new), K>(a: seq<R>, b: seq<R>, key: R -> K, k: K)
    ensures Where(a + b, key, k) == Where(a, key, k) + Where(b, key, k)
  {
    if a == [] {
      assert a + b == b;
    } else {
      var c := a + b;
      assert c[0] == a[0] && c[1..] == a[1..] + b;
      WhereConcat(a[1..], b, key, k);
      var head := if key(a[0]) == k then [a[0]] else [];
      var wa, wb := Where(a[1..], key, k), Where(b, key, k);
      assert Where(c, key, k) == head + (wa + wb);
      assert Where(a, key, k) == head + wa;
      assert head + (wa + wb) == (head + wa) + wb;
    }
  }

  /** A frame whose rows all have key `k` is its own group. */
  lemma {:induction false} WhereAllMatch<R(!new), K>(rows: seq<R>, key: R -> K, k: K)
    requires forall r :: r in rows ==> key(r) == k
    ensures Where(rows, key, k) == rows
  {
    if rows != [] {
      assert forall r :: r in rows[1..] ==> r in rows;
      WhereAllMatch(rows[1..], key, k);
      assert rows == [rows[0]] + rows[1..];
    }
  }

  /** A key no row has selects nothing. */
  lemma WhereNoneMatch<R(!new), K>(rows: seq<R>, key: R -> K, k: K)
    requires forall r :: r in rows ==> key(r) != k
    ensures Where(rows, key, k) == []
  {
  }

  /** The rows satisfying `p`, in order (`df[mask]`, `df.query(...)`, `dropna()`). */
  function Filter<R(==,!new)>(rows: seq<R>, p: R -> bool): (r: seq<R>)
    ensures forall x :: x in r <==> x in rows && p(x)
  {
    Where(rows, p, true)
  }

  /** The sums of `f` over the groups of `ks`, added up. */
  function KeySums<R(==,!new), K(==)>(ks: seq<K>, rows: seq<R>, key: R -> K, f: R -> real): real
  {
    if ks == [] then 0.0
    else Sum(Map(Where(rows, key, ks[0]), f)) + KeySums(ks[1..], rows, key, f)
  }

  /** Adding one row to the front of a frame adds its value to its own group's sum. */
  lemma WhereConsSum<R(!new), K>(r: R, rest: seq<R>, key: R -> K, k: K, f: R -> real)
    ensures Sum(Map(Where([r] + rest, key, k), f))
         == (if key(r) == k then f(r) else 0.0) + Sum(Map(Where(rest, key, k), f))
  {
    var rows := [r] + rest;
    assert rows[0] == r && rows[1..] == rest;
    var w := Where(rest, key, k);
    if key(r) == k {
      assert Where(rows, key, k) == [r] + w;
      assert ([r] + w)[1..] == w;
    } else {
      assert Where(rows, key, k) == w;
    }
  }

  /** Adding one row to the front adds its value to exactly one group sum. */
  lemma {:induction false} KeySumsCons<R(!new), K>(ks: seq<K>, r: R, rest: seq<R>, key: R -> K, f: R -> real)
    requires NoDups(ks)
    ensures KeySums(ks, [r] + rest, key, f)
         == (if key(r) in ks then f(r) else 0.0) + KeySums(ks, rest, key, f)
  {
    if ks != [] {
      WhereConsSum(r, rest, key, ks[0], f);
      KeySumsCons(ks[1..], r, rest, key, f);
      assert key(r) == ks[0] ==> key(r) !in ks[1..];
      assert key(r) in ks <==> key(r) == ks[0] || key(r) in ks[1..];
    }
  }

  /** Group sums over keys that cover every row add up to the column total. */
  lemma {:induction false} KeySumsTotal<R(!new), K>(ks: seq<K>, rows: seq<R>, key: R -> K, f: R -> real)
    requires NoDups(ks)
    requires forall i :: 0 <= i < |rows| ==> key(rows[i]) in ks
    ensures KeySums(ks, rows, key, f) == Sum(Map(rows, f))
  {
    if rows == [] {
      KeySumsEmpty(ks, key, f);
    } else {
      assert rows == [rows[0]] + rows[1..];
      KeySumsCons(ks, rows[0], rows[1..], key, f);
      KeySumsTotal(ks, rows[1..], key, f);
    }
  }

  lemma {:induction false} KeySumsEmpty<R(!new), K>(ks: seq<K>, key: R -> K, f: R -> real)
    ensures KeySums(ks, [], key, f) == 0.0
  {
    if ks != [] {
      KeySumsEmpty(ks[1..], key, f);
    }
  }

  /** The sum of the group sums over the group keys of `rows` is the column total. */
  lemma GroupSumsTotal<R(!new), K(!new)>(rows: seq<R>, key: R -> K, f: R -> real)
    ensures KeySums(GroupKeys(rows, key), rows, key, f) == Sum(Map(rows, f))
  {
    var ks := GroupKeys(rows, key);
    forall i | 0 <= i < |rows| ensures key(rows[i]) in ks {
    }
    KeySumsTotal(ks, rows, key, f);
  }

  /** `a` comes no later than `b` in the order `sort_values` produces. */
  predicate Precedes<T>(a: T, b: T, key: T -> real, ascending: bool)
  {
    if ascending then key(a) <= key(b) else key(a) >= key(b)
  }

  predicate SortedBy<T>(xs: seq<T>, key: T -> real, ascending: bool)
  {
    forall i, j :: 0 <= i < j < |xs| ==> Precedes(xs[i], xs[j], key, ascending)
  }

  /** Puts `x` into a sorted sequence, before the first row it precedes. */
  function Insert<T>(x: T, xs: seq<T>, key: T -> real, ascending: bool): (r: seq<T>)
    requires SortedBy(xs, key, ascending)
    ensures SortedBy(r, key, ascending)
    ensures multiset(r) == multiset(xs) + multiset{x}
  {
    if xs == [] then [x]
    else if Precedes(x, xs[0], key, ascending) then
      BelowHead(x, xs, key, ascending);
      ConsSorted(x, xs, key, ascending);
      [x] + xs
    else
      SortedTail(xs, key, ascending);
      var tail := Insert(x, xs[1..], key, ascending);
      HeadPrecedesRest(xs, key, ascending);
      AboveHead(xs[0], x, xs[1..], tail, key, ascending);
      ConsSorted(xs[0], tail, key, ascending);
      assert xs == [xs[0]] + xs[1..];
      [xs[0]] + tail
  }

  /** The head of a sorted sequence precedes everything of the tail with `x` put in. */
  lemma AboveHead<T>(y: T, x: T, rest: seq<T>, tail: seq<T>, key: T -> real, ascending: bool)
    requires multiset(tail) == multiset(rest) + multiset{x}
    requires Precedes(y, x, key, ascending)
    requires forall z :: z in rest ==> Precedes(y, z, key, ascending)
    ensures forall z :: z in tail ==> Precedes(y, z, key, ascending)
  {
    forall z | z in tail ensures Precedes(y, z, key, ascending) {
      assert z in multiset(tail);
      if z != x {
        assert z in multiset(rest);
      }
    }
  }

  lemma SortedTail<T>(xs: seq<T>, key: T -> real, ascending: bool)
    requires |xs| > 0 && SortedBy(xs, key, ascending)
    ensures SortedBy(xs[1..], key, ascending)
  {
    var tail := xs[1..];
    forall i, j | 0 <= i < j < |tail| ensures Precedes(tail[i], tail[j], key, ascending) {
      assert tail[i] == xs[i + 1] && tail[j] == xs[j + 1];
    }
  }

  /** A row that precedes the head of a sorted sequence precedes all of it. */
  lemma BelowHead<T>(x: T, xs: seq<T>, key: T -> real, ascending: bool)
    requires |xs| > 0 && SortedBy(xs, key, ascending) && Precedes(x, xs[0], key, ascending)
    ensures forall z :: z in xs ==> Precedes(x, z, key, ascending)
  {
    forall z | z in xs ensures Precedes(x, z, key, ascending) {
      var m :| 0 <= m < |xs| && xs[m] == z;
      if m > 0 {
        assert Precedes(xs[0], xs[m], key, ascending);
      }
    }
  }

  lemma HeadPrecedesRest<T>(xs: seq<T>, key: T -> real, ascending: bool)
    requires |xs| > 0 && SortedBy(xs, key, ascending)
    ensures forall z :: z in xs[1..] ==> Precedes(xs[0], z, key, ascending)
  {
    forall z | z in xs[1..] ensures Precedes(xs[0], z, key, ascending) {
      var m :| 0 <= m < |xs[1..]| && xs[1..][m] == z;
      assert xs[m + 1] == z;
    }
  }

  lemma ConsSorted<T>(y: T, tail: seq<T>, key: T -> real, ascending: bool)
    requires SortedBy(tail, key, ascending)
    requires forall z :: z in tail ==> Precedes(y, z, key, ascending)
    ensures SortedBy([y] + tail, key, ascending)
  {
    var r := [y] + tail;
    forall i, j | 0 <= i < j < |r| ensures Precedes(r[i], r[j], key, ascending) {
      assert r[j] == tail[j - 1];
      if i > 0 {
        assert r[i] == tail[i - 1];
      }
    }
  }

  /** `sort_values(by=key, ascending=ascending)`: a sorted permutation of the rows
      (rows with equal keys keep their order; pandas' default sort leaves their
      order unspecified). */
  function SortValues<T>(xs: seq<T>, key: T -> real, ascending: bool): (r: seq<T>)
    ensures SortedBy(r, key, ascending)
    ensures multiset(r) == multiset(xs)
  {
    if xs == [] then []
    else
      assert xs == [xs[0]] + xs[1..];
      Insert(xs[0], SortValues(xs[1..], key, ascending), key, ascending)
  }

  /** Keeping some rows of a sorted table keeps it sorted. */
  lemma {:induction false} FilterKeepsOrder<T(!new)>(xs: seq<T>, p: T -> bool, key: T -> real, ascending: bool)
    requires SortedBy(xs, key, ascending)
    ensures SortedBy(Filter(xs, p), key, ascending)
  {
    if xs != [] {
      FilterKeepsOrder(xs[1..], p, key, ascending);
      var rest := Where(xs[1..], p, true);
      assert Filter(xs, p) == (if p(xs[0]) then [xs[0]] else []) + rest;
      forall y | y in rest ensures Precedes(xs[0], y, key, ascending) {
        var m :| 0 <= m < |xs[1..]| && xs[1..][m] == y;
        assert xs[m + 1] == y;
      }
    }
  }

  /** Filtering out a row that is there makes the table shorter. */
  lemma {:induction false} FilterDropsOne<T(!new)>(xs: seq<T>, p: T -> bool, x: T)
    requires x in xs && !p(x)
    ensures |Filter(xs, p)| < |xs|
  {
    if xs[0] != x {
      FilterDropsOne(xs[1..], p, x);
    } else {
      assert |Where(xs[1..], p, true)| <= |xs[1..]|;
    }
  }
}
