/** The "Top 10 por dimensão" ranking (streamlit_kpi_dashboard.py, lines
    113-119): rows are grouped by their group key (the tuple of ALL selected
    grouping columns), the metric is summed per group, the groups are sorted by
    descending sum and the first ten are kept.

    pandas' default `sort_values` is not stable, so groups with equal sums may
    come out in any order. As for the time ordering of the KPIs, the model takes
    the order the sort produced as a parameter, constrained by `RankOrdered`. */
module Ranking {
  import opened Rows
  import opened Multisets

  /** One line of the aggregated table: a group key and its summed metric. */
  datatype Entry<K> = Entry(key: K, sum: real)

  /** `.head(10)` */
  const TopN: nat := 10

  /** Some row of the table carries group key `k`. */
  ghost predicate KeyOccurs<K>(rows: seq<Row<K>>, k: K)
  {
    exists i :: 0 <= i < |rows| && rows[i].key == k
  }

  ghost predicate Distinct<T>(s: seq<T>)
  {
    forall i, j :: 0 <= i < j < |s| ==> s[i] != s[j]
  }

  ghost predicate DistinctKeys<K>(es: seq<Entry<K>>)
  {
    forall i, j :: 0 <= i < j < |es| ==> es[i].key != es[j].key
  }

  /** Some entry of `es` carries key `k`. */
  ghost predicate HasKey<K>(es: seq<Entry<K>>, k: K)
  {
    exists i :: 0 <= i < |es| && es[i].key == k
  }

  /** The rows of group `k`, in table order. */
  function GroupRows<K(==,!new)>(rows: seq<Row<K>>, k: K): seq<Row<K>>
  {
    if |rows| == 0 then []
    else
      var n := |rows|;
      GroupRows(rows[..n-1], k) + (if rows[n-1].key == k then [rows[n-1]] else [])
  }

  /** The rows of group `k` are exactly the table's rows with key `k`, each
      with its multiplicity. */
  lemma {:induction false} GroupRowsSelect<K(!new)>(rows: seq<Row<K>>, k: K)
    ensures forall x :: multiset(GroupRows(rows, k))[x] == if x.key == k then multiset(rows)[x] else 0
    decreases |rows|
  {
    if |rows| > 0 {
      var n := |rows|;
      assert rows == rows[..n-1] + [rows[n-1]];
      GroupRowsSelect(rows[..n-1], k);
    }
  }

  /** The summed metric of group `k`: `groupby(...)[value].sum()` for that key. */
  function GroupSum<K(==,!new)>(rows: seq<Row<K>>, k: K): (r: real)
    ensures !KeyOccurs(rows, k) ==> r == 0.0
    ensures (forall i :: 0 <= i < |rows| ==> rows[i].key == k) ==> r == Total(rows)
  {
    GroupRowsExtremes(rows, k);
    Total(GroupRows(rows, k))
  }

  /** A key absent from the table has no rows; a key carried by every row
      has them all. */
  lemma GroupRowsExtremes<K(!new)>(rows: seq<Row<K>>, k: K)
    ensures !KeyOccurs(rows, k) ==> GroupRows(rows, k) == []
    ensures (forall i :: 0 <= i < |rows| ==> rows[i].key == k) ==> GroupRows(rows, k) == rows
  {
    if !KeyOccurs(rows, k) {
      NoRowsOfAbsentKey(rows, k);
    }
    if forall i :: 0 <= i < |rows| ==> rows[i].key == k {
      OneKeyGroup(rows, k);
    }
  }

  /** A table whose rows all carry key `k` is one whole group. */
  lemma {:induction false} OneKeyGroup<K(!new)>(rows: seq<Row<K>>, k: K)
    requires forall i :: 0 <= i < |rows| ==> rows[i].key == k
    ensures GroupRows(rows, k) == rows
    decreases |rows|
  {
    if |rows| > 0 {
      var n := |rows|;
      OneKeyGroup(rows[..n-1], k);
      assert rows[..n-1] + [rows[n-1]] == rows;
    }
  }

  /** The distinct group keys of the table, in order of first appearance.
      `groupby` lists its keys sorted instead; the ranking re-sorts the groups
      and `RankOrdered` accepts any reordering, so the listing order does not
      matter. */
  function Keys<K(==,!new)>(rows: seq<Row<K>>): (ks: seq<K>)
    ensures Distinct(ks)
    ensures forall k :: k in ks <==> KeyOccurs(rows, k)
  {
    if |rows| == 0 then []
    else
      var n := |rows|;
      var ks := Keys(rows[..n-1]);
      assert forall k :: KeyOccurs(rows[..n-1], k) ==> KeyOccurs(rows, k) by {
        forall k | KeyOccurs(rows[..n-1], k) ensures KeyOccurs(rows, k) {
          var i :| 0 <= i < n - 1 && rows[..n-1][i].key == k;
          assert rows[i].key == k;
        }
      }
      assert forall k :: KeyOccurs(rows, k) ==> KeyOccurs(rows[..n-1], k) || k == rows[n-1].key by {
        forall k | KeyOccurs(rows, k) ensures KeyOccurs(rows[..n-1], k) || k == rows[n-1].key {
          var i :| 0 <= i < n && rows[i].key == k;
          if i < n - 1 {
            assert rows[..n-1][i].key == k;
          }
        }
      }
      if rows[n-1].key in ks then ks else ks + [rows[n-1].key]
  }

  /** One entry per key of `ks`, carrying that group's sum. */
  function GroupsOf<K(==,!new)>(rows: seq<Row<K>>, ks: seq<K>): seq<Entry<K>>
  {
    seq(|ks|, i requires 0 <= i < |ks| => Entry(ks[i], GroupSum(rows, ks[i])))
  }

  lemma GroupsOfMembers<K(!new)>(rows: seq<Row<K>>, ks: seq<K>)
    requires Distinct(ks)
    ensures DistinctKeys(GroupsOf(rows, ks))
    ensures forall e :: e in GroupsOf(rows, ks) <==> e.key in ks && e.sum == GroupSum(rows, e.key)
  {
    var g := GroupsOf(rows, ks);
    forall e | e in g ensures e.key in ks && e.sum == GroupSum(rows, e.key) {
      var i :| 0 <= i < |g| && g[i] == e;
    }
    forall e: Entry<K> | e.key in ks && e.sum == GroupSum(rows, e.key) ensures e in g {
      var i :| 0 <= i < |ks| && ks[i] == e.key;
      assert g[i] == e;
    }
  }

  /** `groupby(group_cols)[value_col].sum().reset_index()`: exactly one entry
      for every key present in the table, carrying that group's sum. */
  function Grouped<K(==,!new)>(rows: seq<Row<K>>): (g: seq<Entry<K>>)
    ensures DistinctKeys(g)
    ensures |g| == |Keys(rows)|
    ensures forall e :: e in g <==> KeyOccurs(rows, e.key) && e.sum == GroupSum(rows, e.key)
  {
    var ks := Keys(rows);
    GroupsOfMembers(rows, ks);
    GroupsOf(rows, ks)
  }

  ghost predicate SumDescending<K>(es: seq<Entry<K>>)
  {
    forall i, j :: 0 <= i < j < |es| ==> es[i].sum >= es[j].sum
  }

  /** `ordered` is a reordering of `groups` by non-increasing sum. */
  ghost predicate RankOrdered<K>(groups: seq<Entry<K>>, ordered: seq<Entry<K>>)
  {
    multiset(ordered) == multiset(groups) && SumDescending(ordered)
  }

  /** Inserts `e` into a sequence sorted by descending sum. */
  function InsertBySum<K>(e: Entry<K>, s: seq<Entry<K>>): (r: seq<Entry<K>>)
    requires SumDescending(s)
    ensures multiset(r) == multiset(s) + multiset{e}
    ensures SumDescending(r)
    ensures r[0] == e || (|s| > 0 && r[0] == s[0])
  {
    if |s| == 0 then [e]
    else if e.sum >= s[0].sum then [e] + s
    else
      var rest := InsertBySum(e, s[1..]);
      InsertAfterLargerHead(e, s, rest);
      [s[0]] + rest
  }

  /** Inserting `e` behind the head of `s`, which sums to more than `e`, keeps
      the insertion's contract. */
  lemma InsertAfterLargerHead<K>(e: Entry<K>, s: seq<Entry<K>>, rest: seq<Entry<K>>)
    requires |s| > 0 && SumDescending(s) && e.sum < s[0].sum
    requires multiset(rest) == multiset(s[1..]) + multiset{e} && SumDescending(rest)
    requires rest[0] == e || (|s| > 1 && rest[0] == s[1])
    ensures multiset([s[0]] + rest) == multiset(s) + multiset{e}
    ensures SumDescending([s[0]] + rest)
  {
    assert rest[0].sum <= s[0].sum;
    ConsSumDescending(s[0], rest);
    ConsHead(s, rest, e);
  }

  /** An entry summing to at least the head of a descending sequence can go in front. */
  lemma ConsSumDescending<K>(a: Entry<K>, t: seq<Entry<K>>)
    requires SumDescending(t) && (|t| > 0 ==> a.sum >= t[0].sum)
    ensures SumDescending([a] + t)
  {
  }

  /** One of the orders `sort_values(value_col, ascending=False)` may return. */
  function SortBySumDescending<K>(es: seq<Entry<K>>): (r: seq<Entry<K>>)
    ensures RankOrdered(es, r)
  {
    if |es| == 0 then []
    else
      assert es == es[..|es|-1] + [es[|es|-1]];
      InsertBySum(es[|es|-1], SortBySumDescending(es[..|es|-1]))
  }

  /** Every entry of a reordering of the grouped table is a group of the table
      with its sum. */
  lemma OrderedEntries<K(!new)>(rows: seq<Row<K>>, ordered: seq<Entry<K>>)
    requires multiset(ordered) == multiset(Grouped(rows))
    ensures |ordered| == |Grouped(rows)|
    ensures forall i :: 0 <= i < |ordered| ==>
      KeyOccurs(rows, ordered[i].key) && ordered[i].sum == GroupSum(rows, ordered[i].key)
  {
    var g := Grouped(rows);
    assert |ordered| == |multiset(ordered)| == |multiset(g)| == |g|;
    forall i | 0 <= i < |ordered|
      ensures KeyOccurs(rows, ordered[i].key) && ordered[i].sum == GroupSum(rows, ordered[i].key)
    {
      assert ordered[i] in multiset(g);
      assert ordered[i] in g;
    }
  }

  /** Reordering a sequence with distinct keys keeps the keys distinct, when
      equal keys can only come from equal entries. */
  lemma ReorderedKeysDistinct<K>(g: seq<Entry<K>>, ordered: seq<Entry<K>>)
    requires multiset(ordered) == multiset(g) && DistinctKeys(g)
    requires forall i, j :: 0 <= i < j < |ordered| && ordered[i].key == ordered[j].key ==> ordered[i] == ordered[j]
    ensures DistinctKeys(ordered)
  {
    forall i, j | 0 <= i < j < |ordered|
      ensures ordered[i].key != ordered[j].key
    {
      if ordered[i].key == ordered[j].key {
        // one entry listed twice, which `g` never does
        TwoPositions(ordered, i, j);
        var p := PositionOf(g, ordered[i]);
        OtherPosition(g, p);
        assert false;
      }
    }
  }

  /** Entry `i` of the grouped table is the `i`-th key with its group sum. */
  lemma GroupedAt<K(!new)>(rows: seq<Row<K>>, i: nat)
    requires i < |Keys(rows)|
    ensures |Grouped(rows)| == |Keys(rows)|
    ensures Grouped(rows)[i] == Entry(Keys(rows)[i], GroupSum(rows, Keys(rows)[i]))
  {
  }

  /** A reordering of the grouped table still has one entry per key. */
  lemma OrderedGroups<K(!new)>(rows: seq<Row<K>>, ordered: seq<Entry<K>>)
    requires RankOrdered(Grouped(rows), ordered)
    ensures |ordered| == |Grouped(rows)|
    ensures forall i :: 0 <= i < |ordered| ==>
      KeyOccurs(rows, ordered[i].key) && ordered[i].sum == GroupSum(rows, ordered[i].key)
    ensures DistinctKeys(ordered)
  {
    OrderedEntries(rows, ordered);
    ReorderedKeysDistinct(Grouped(rows), ordered);
  }

  /** Number of entries `.head(10)` keeps out of `n`. */
  function HeadCount(n: nat): (c: nat)
    ensures c <= TopN && c <= n
    ensures c == TopN || c == n
  {
    if n < TopN then n else TopN
  }

  /** A key left out of the first `HeadCount` entries sums to no more than
      the last entry kept. */
  lemma HeadIsComplete<K(!new)>(rows: seq<Row<K>>, ordered: seq<Entry<K>>, k: K)
    requires RankOrdered(Grouped(rows), ordered)
    requires KeyOccurs(rows, k)
    requires !HasKey(ordered[..HeadCount(|ordered|)], k)
    ensures 0 < HeadCount(|ordered|)
    ensures GroupSum(rows, k) <= ordered[HeadCount(|ordered|) - 1].sum
  {
    var c := HeadCount(|ordered|);
    AbsentFromPrefix(ordered, c, k);
    var e := Entry(k, GroupSum(rows, k));
    assert e in Grouped(rows);
    var p := PositionOf(ordered, e);
    assert c <= p;
  }

  /** Every group left out of `r` sums to no more than the last entry of `r`
      (so `r` holds the largest groups). */
  ghost predicate KeepsLargest<K(!new)>(rows: seq<Row<K>>, r: seq<Entry<K>>)
  {
    forall k :: KeyOccurs(rows, k) && !HasKey(r, k) ==> 0 < |r| && GroupSum(rows, k) <= r[|r|-1].sum
  }

  /** Every entry of `r` is a group of the table, with that group's sum. */
  ghost predicate AllGroups<K(!new)>(rows: seq<Row<K>>, r: seq<Entry<K>>)
  {
    forall i :: 0 <= i < |r| ==> KeyOccurs(rows, r[i].key) && r[i].sum == GroupSum(rows, r[i].key)
  }

  lemma HeadKeepsLargest<K(!new)>(rows: seq<Row<K>>, ordered: seq<Entry<K>>)
    requires RankOrdered(Grouped(rows), ordered)
    ensures KeepsLargest(rows, ordered[..HeadCount(|ordered|)])
  {
    var c := HeadCount(|ordered|);
    var r := ordered[..c];
    assert 0 < c ==> r[|r|-1] == ordered[c-1];
    forall k | KeyOccurs(rows, k) && !HasKey(r, k)
      ensures 0 < |r| && GroupSum(rows, k) <= r[|r|-1].sum
    {
      HeadIsComplete(rows, ordered, k);
    }
  }

  /** A key missing from a prefix is carried by none of its positions. */
  lemma AbsentFromPrefix<K>(es: seq<Entry<K>>, c: nat, k: K)
    requires c <= |es| && !HasKey(es[..c], k)
    ensures forall i :: 0 <= i < c ==> es[i].key != k
  {
    forall i | 0 <= i < c ensures es[i].key != k {
      assert es[..c][i] == es[i];
    }
  }

  lemma HeadAllGroups<K(!new)>(rows: seq<Row<K>>, ordered: seq<Entry<K>>)
    requires RankOrdered(Grouped(rows), ordered)
    ensures AllGroups(rows, ordered[..HeadCount(|ordered|)])
    ensures DistinctKeys(ordered[..HeadCount(|ordered|)])
    ensures |ordered| == |Grouped(rows)|
  {
    OrderedGroups(rows, ordered);
  }

  /** The ranking shown in the bar chart: the first `TopN` entries of the
      ordered grouped table. */
  function Top<K(==,!new)>(rows: seq<Row<K>>, ordered: seq<Entry<K>>): (r: seq<Entry<K>>)
    requires RankOrdered(Grouped(rows), ordered)
    ensures |r| <= TopN && |r| <= |Keys(rows)|
    ensures |r| == TopN || |r| == |Keys(rows)|
    ensures SumDescending(r)
    ensures DistinctKeys(r)
    ensures AllGroups(rows, r)
    ensures KeepsLargest(rows, r)
  {
    HeadAllGroups(rows, ordered);
    HeadKeepsLargest(rows, ordered);
    ordered[..HeadCount(|ordered|)]
  }

  /** With at most ten groups the ranking is the whole sorted table. */
  lemma ShortRankingIsWhole<K(!new)>(rows: seq<Row<K>>, ordered: seq<Entry<K>>)
    requires RankOrdered(Grouped(rows), ordered) && |ordered| <= TopN
    ensures Top(rows, ordered) == ordered
  {
    assert ordered[..|ordered|] == ordered;
  }

  /** With at most `TopN` groups nothing is cut: every group is ranked. */
  lemma SmallTableFullyRanked<K(!new)>(rows: seq<Row<K>>, ordered: seq<Entry<K>>, k: K)
    requires RankOrdered(Grouped(rows), ordered)
    requires |Grouped(rows)| <= TopN && KeyOccurs(rows, k)
    ensures HasKey(Top(rows, ordered), k)
  {
    var g := Grouped(rows);
    assert |ordered| == |multiset(ordered)| == |multiset(g)| == |g|;
    ShortRankingIsWhole(rows, ordered);
    var e := Entry(k, GroupSum(rows, k));
    assert e in multiset(ordered);
    var p := PositionOf(ordered, e);
    assert ordered[p].key == k;
  }


  /** Sum of the `sum` column of `es`. */
  function SumOf<K>(es: seq<Entry<K>>): real
  {
    if |es| == 0 then 0.0 else SumOf(es[..|es|-1]) + es[|es|-1].sum
  }

  lemma NoRowsOfAbsentKey<K(!new)>(rows: seq<Row<K>>, k: K)
    requires !KeyOccurs(rows, k)
    ensures GroupRows(rows, k) == []
  {
    var g := GroupRows(rows, k);
    if |g| > 0 {
      GroupRowsSelect(rows, k);
      assert false;
    }
  }

  /** The last row of the table adds its value to its own group only. */
  lemma GroupSumLast<K(!new)>(rows: seq<Row<K>>, k: K)
    requires |rows| > 0
    ensures GroupSum(rows, k) == GroupSum(rows[..|rows|-1], k) +
      (if rows[|rows|-1].key == k then rows[|rows|-1].value else 0.0)
  {
    var x := rows[|rows|-1];
    var g := GroupRows(rows[..|rows|-1], k);
    if x.key == k {
      TotalSnoc(g, x);
    } else {
      assert g + [] == g;
    }
  }

  /** The groups of `ks` sum to those of all keys but the last, plus the last key's group. */
  lemma SumOfLastKey<K(!new)>(rows: seq<Row<K>>, ks: seq<K>)
    requires |ks| > 0
    ensures SumOf(GroupsOf(rows, ks)) == SumOf(GroupsOf(rows, ks[..|ks|-1])) + GroupSum(rows, ks[|ks|-1])
  {
    assert GroupsOf(rows, ks)[..|ks|-1] == GroupsOf(rows, ks[..|ks|-1]);
  }

  /** A key of a distinct sequence is in it exactly when it is its last
      element or in the rest. */
  lemma InDistinct<K>(ks: seq<K>, k: K)
    requires |ks| > 0 && Distinct(ks)
    ensures Distinct(ks[..|ks|-1])
    ensures k == ks[|ks|-1] ==> k in ks && k !in ks[..|ks|-1]
    ensures k != ks[|ks|-1] ==> (k in ks <==> k in ks[..|ks|-1])
  {
    assert ks == ks[..|ks|-1] + [ks[|ks|-1]];
  }

  /** The last row of the table changes the groups of `ks` by its value,
      exactly when its key is one of them. */
  lemma {:induction false} GroupsOfLast<K(!new)>(rows: seq<Row<K>>, ks: seq<K>)
    requires |rows| > 0 && Distinct(ks)
    ensures SumOf(GroupsOf(rows, ks)) == SumOf(GroupsOf(rows[..|rows|-1], ks)) +
      (if rows[|rows|-1].key in ks then rows[|rows|-1].value else 0.0)
    decreases |ks|
  {
    if |ks| > 0 {
      var x := rows[|rows|-1];
      var k := ks[|ks|-1];
      var ks' := ks[..|ks|-1];
      SumOfLastKey(rows, ks);
      SumOfLastKey(rows[..|rows|-1], ks);
      InDistinct(ks, x.key);
      GroupsOfLast(rows, ks');
      GroupSumLast(rows, k);
    }
  }

  lemma GroupsOfAppendKey<K(!new)>(rows: seq<Row<K>>, ks: seq<K>, k: K)
    ensures SumOf(GroupsOf(rows, ks + [k])) == SumOf(GroupsOf(rows, ks)) + GroupSum(rows, k)
  {
    assert GroupsOf(rows, ks + [k])[..|ks|] == GroupsOf(rows, ks);
  }

  /** A last row whose key is new forms a group of its own. */
  lemma NewKeySum<K(!new)>(rows: seq<Row<K>>)
    requires |rows| > 0 && rows[|rows|-1].key !in Keys(rows[..|rows|-1])
    ensures GroupSum(rows, rows[|rows|-1].key) == rows[|rows|-1].value
  {
    GroupSumLast(rows, rows[|rows|-1].key);
    NoRowsOfAbsentKey(rows[..|rows|-1], rows[|rows|-1].key);
  }

  /** A last row with a known key leaves the key list alone. */
  lemma KeysOldLast<K(!new)>(rows: seq<Row<K>>)
    requires |rows| > 0 && rows[|rows|-1].key in Keys(rows[..|rows|-1])
    ensures Keys(rows) == Keys(rows[..|rows|-1])
  {
  }

  /** A last row with a new key appends it to the key list. */
  lemma KeysNewLast<K(!new)>(rows: seq<Row<K>>)
    requires |rows| > 0 && rows[|rows|-1].key !in Keys(rows[..|rows|-1])
    ensures Keys(rows) == Keys(rows[..|rows|-1]) + [rows[|rows|-1].key]
  {
  }

  /** The last row keeps the per-group sums equal to the total. */
  lemma KeyGroupsStep<K(!new)>(rows: seq<Row<K>>)
    requires |rows| > 0
    requires SumOf(GroupsOf(rows[..|rows|-1], Keys(rows[..|rows|-1]))) == Total(rows[..|rows|-1])
    ensures SumOf(GroupsOf(rows, Keys(rows))) == Total(rows)
  {
    var front, x := rows[..|rows|-1], rows[|rows|-1];
    var ks := Keys(front);
    var before := SumOf(GroupsOf(front, ks));
    assert Total(rows) == Total(front) + x.value;
    GroupsOfLast(rows, ks);
    if x.key in ks {
      KeysOldLast(rows);
      assert SumOf(GroupsOf(rows, ks)) == before + x.value;
    } else {
      KeysNewLast(rows);
      GroupsOfAppendKey(rows, ks, x.key);
      NewKeySum(rows);
      assert SumOf(GroupsOf(rows, ks)) == before;
      assert SumOf(GroupsOf(rows, ks + [x.key])) == before + x.value;
    }
  }

  /** The per-group sums add up to the table total: grouping neither loses nor
      double-counts a row. */
  lemma {:induction false} GroupsAddUpToTotal<K(!new)>(rows: seq<Row<K>>)
    ensures SumOf(Grouped(rows)) == Total(rows)
    decreases |rows|
  {
    if |rows| > 0 {
      GroupsAddUpToTotal(rows[..|rows|-1]);
      KeyGroupsStep(rows);
    }
  }
}
