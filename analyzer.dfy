/**
 * `find_gainers_and_losers`: the 24h-change sort key, and the three rows at
 * each end of the table ordered by it. Printing the two tables is left out;
 * the rows themselves are the result.
 */
module Analyzer {
  import opened Common
  import opened Text
  import opened Table

  /** How many rows each of the two lists shows (`head(3)`). */
  const TopCount: nat := 3

  /**
   * The `24h_num` value of one 24h cell: the cleaned number when the text has
   * a percent sign, zero otherwise. None when float raises on the cleaned text.
   */
  function ChangeKey(change: string, parse: Parser): Option<real>
  {
    if '%' in change then parse(CleanNumber(change)) else Some(0.0)
  }

  /** A row of the table together with its `24h_num` sort key. */
  datatype Ranked = Ranked(coin: Coin, key: real)

  /** Every row's 24h cell yields a key. */
  predicate AllKeyed(df: seq<Coin>, parse: Parser)
  {
    forall c :: c in df ==> ChangeKey(c.change24h, parse).Some?
  }

  /** The table with its `24h_num` column, or None when computing the column raises. */
  function RankAll(df: seq<Coin>, parse: Parser): (r: Option<seq<Ranked>>)
    ensures r.Some? <==> AllKeyed(df, parse)
    ensures r.Some? ==> |r.value| == |df|
    ensures r.Some? ==> forall k :: 0 <= k < |df| ==> r.value[k].coin == df[k] && ChangeKey(df[k].change24h, parse) == Some(r.value[k].key)
  {
    if df == [] then Some([])
    else
      assert forall c :: c in df <==> c == df[0] || c in df[1..];
      match (ChangeKey(df[0].change24h, parse), RankAll(df[1..], parse))
      case (Some(x), Some(rest)) => Some([Ranked(df[0], x)] + rest)
      case _ => None
  }

  /** x may stand before y: a key at least as large when descending, at most as large when ascending. */
  predicate Precedes(x: Ranked, y: Ranked, descending: bool)
  {
    if descending then x.key >= y.key else x.key <= y.key
  }

  predicate SortedBy(s: seq<Ranked>, descending: bool)
  {
    forall i, j :: 0 <= i < j < |s| ==> Precedes(s[i], s[j], descending)
  }

  /** x put into s before the first element it may precede. */
  function Insert(x: Ranked, s: seq<Ranked>, descending: bool): seq<Ranked>
  {
    if s == [] then [x]
    else if Precedes(x, s[0], descending) then [x] + s
    else [s[0]] + Insert(x, s[1..], descending)
  }

  /** Insert adds x and keeps every other element. */
  lemma {:induction false} InsertAdds(x: Ranked, s: seq<Ranked>, descending: bool)
    ensures |Insert(x, s, descending)| == |s| + 1
    ensures multiset(Insert(x, s, descending)) == multiset(s) + multiset{x}
    decreases |s|
  {
    if s != [] && !Precedes(x, s[0], descending) {
      InsertAdds(x, s[1..], descending);
      assert s == [s[0]] + s[1..];
    }
  }

  /** Every element of Insert(x, s) is x or an element of s. */
  lemma {:induction false} InsertMembers(x: Ranked, s: seq<Ranked>, descending: bool)
    ensures forall z :: z in Insert(x, s, descending) ==> z == x || z in s
    decreases |s|
  {
    if s != [] && !Precedes(x, s[0], descending) {
      InsertMembers(x, s[1..], descending);
      assert forall z :: z in s[1..] ==> z in s;
    }
  }

  /** The first element of a sorted sequence may precede each of its elements. */
  lemma HeadPrecedes(s: seq<Ranked>, descending: bool)
    requires SortedBy(s, descending) && s != []
    ensures forall z :: z in s ==> Precedes(s[0], z, descending)
  {
    forall z | z in s ensures Precedes(s[0], z, descending) {
      var i :| 0 <= i < |s| && s[i] == z;
      assert i == 0 || Precedes(s[0], s[i], descending);
    }
  }

  /** A sorted sequence stays sorted behind an element that may precede all of it. */
  lemma ConsSorted(y: Ranked, t: seq<Ranked>, descending: bool)
    requires SortedBy(t, descending)
    requires forall z :: z in t ==> Precedes(y, z, descending)
    ensures SortedBy([y] + t, descending)
  {
    var r := [y] + t;
    forall i, j | 0 <= i < j < |r| ensures Precedes(r[i], r[j], descending) {
      assert r[j] == t[j - 1];
      if i > 0 {
        assert r[i] == t[i - 1];
      }
    }
  }

  /** Insert into a sorted sequence leaves it sorted. */
  lemma {:induction false} InsertSorted(x: Ranked, s: seq<Ranked>, descending: bool)
    requires SortedBy(s, descending)
    ensures SortedBy(Insert(x, s, descending), descending)
    decreases |s|
  {
    if s != [] {
      HeadPrecedes(s, descending);
      if Precedes(x, s[0], descending) {
        ConsSorted(x, s, descending);
      } else {
        assert SortedBy(s[1..], descending);
        InsertSorted(x, s[1..], descending);
        InsertMembers(x, s[1..], descending);
        assert forall z :: z in s[1..] ==> z in s;
        ConsSorted(s[0], Insert(x, s[1..], descending), descending);
      }
    }
  }

  /**
   * `sort_values("24h_num", ascending=not descending)`: the same rows ordered
   * by key. pandas' `sort_values` leaves the order of equal keys open; this
   * sort is one admissible order.
   */
  function SortValues(s: seq<Ranked>, descending: bool): (r: seq<Ranked>)
    ensures |r| == |s|
    ensures SortedBy(r, descending)
    ensures multiset(r) == multiset(s)
  {
    if s == [] then []
    else
      var sorted := SortValues(s[1..], descending);
      InsertAdds(s[0], sorted, descending);
      InsertSorted(s[0], sorted, descending);
      assert s == [s[0]] + s[1..];
      Insert(s[0], sorted, descending)
  }

  /** In a sorted sequence, every element of a prefix may precede every element after it. */
  lemma PrefixPrecedesRest(s: seq<Ranked>, m: nat, descending: bool)
    requires SortedBy(s, descending) && m <= |s|
    ensures forall x, y :: x in multiset(s[m..]) && y in s[..m] ==> Precedes(y, x, descending)
  {
    forall x, y | x in multiset(s[m..]) && y in s[..m] ensures Precedes(y, x, descending) {
      var i :| 0 <= i < |s[m..]| && s[m..][i] == x;
      var j :| 0 <= j < m && s[..m][j] == y;
      assert s[m + i] == x && s[j] == y;
    }
  }

  /**
   * `sort_values(...).head(3)`: at most three rows of ranked, in order, and
   * every row left out may stand after every row kept.
   */
  function Top(ranked: seq<Ranked>, descending: bool): (top: seq<Ranked>)
    ensures |top| == Min(TopCount, |ranked|)
    ensures SortedBy(top, descending)
    ensures multiset(top) <= multiset(ranked)
    ensures forall x, y :: x in multiset(ranked) - multiset(top) && y in top ==> Precedes(y, x, descending)
  {
    var s := SortValues(ranked, descending);
    var m := Min(TopCount, |s|);
    PrefixPrecedesRest(s, m, descending);
    assert s == s[..m] + s[m..];
    assert multiset(ranked) - multiset(s[..m]) == multiset(s[m..]);
    s[..m]
  }

  /** The two lists the function prints. */
  datatype Report = Report(gainers: seq<Ranked>, losers: seq<Ranked>)

  /**
   * `find_gainers_and_losers(df)`: the three rows with the largest keys and
   * the three with the smallest; None when a 24h cell with a percent sign
   * does not parse, which `find_gainers_and_losers` does not catch.
   */
  function FindGainersAndLosers(df: seq<Coin>, parse: Parser): (r: Option<Report>)
    ensures r.Some? <==> AllKeyed(df, parse)
    ensures r.Some? ==> |r.value.gainers| == Min(TopCount, |df|) && |r.value.losers| == Min(TopCount, |df|)
    ensures r.Some? ==> forall g :: g in r.value.gainers ==> g.coin in df && ChangeKey(g.coin.change24h, parse) == Some(g.key)
    ensures r.Some? ==> forall g :: g in r.value.losers ==> g.coin in df && ChangeKey(g.coin.change24h, parse) == Some(g.key)
  {
    match RankAll(df, parse)
    case None => None
    case Some(ranked) =>
      var gainers, losers := Top(ranked, true), Top(ranked, false);
      RankedRowsComeFromTable(df, ranked, gainers, parse);
      RankedRowsComeFromTable(df, ranked, losers, parse);
      Some(Report(gainers, losers))
  }

  lemma RankedRowsComeFromTable(df: seq<Coin>, ranked: seq<Ranked>, top: seq<Ranked>, parse: Parser)
    requires RankAll(df, parse) == Some(ranked)
    requires multiset(top) <= multiset(ranked)
    ensures forall g :: g in top ==> g.coin in df && ChangeKey(g.coin.change24h, parse) == Some(g.key)
  {
    forall g | g in top ensures g.coin in df && ChangeKey(g.coin.change24h, parse) == Some(g.key) {
      assert g in multiset(ranked);
      var k :| 0 <= k < |ranked| && ranked[k] == g;
    }
  }

  /** The first row of a non-empty top list may precede every row of ranked. */
  lemma TopLeads(ranked: seq<Ranked>, descending: bool, x: Ranked)
    requires x in ranked
    ensures var top := Top(ranked, descending); Precedes(top[0], x, descending)
  {
    var top := Top(ranked, descending);
    assert top[0] in top;
    if x in top {
      var j :| 0 <= j < |top| && top[j] == x;
      assert j == 0 || Precedes(top[0], top[j], descending);
    } else {
      assert x in multiset(ranked) - multiset(top);
    }
  }

  /** A row of ranked that is not in the top list may stand after every row in it. */
  lemma OthersFollowTop(ranked: seq<Ranked>, descending: bool, x: Ranked, y: Ranked)
    requires x in ranked && x !in Top(ranked, descending) && y in Top(ranked, descending)
    ensures Precedes(y, x, descending)
  {
    assert x in multiset(ranked) - multiset(Top(ranked, descending));
  }

  /**
   * Gainers come in non-increasing key order, and no row of the table that is
   * not among them has a larger key than any of them; losers are symmetric.
   */
  lemma GainersAndLosersAreExtreme(df: seq<Coin>, parse: Parser)
    requires AllKeyed(df, parse)
    ensures var r := FindGainersAndLosers(df, parse).value; var ranked := RankAll(df, parse).value;
      && SortedBy(r.gainers, true) && SortedBy(r.losers, false)
      && (forall k, g :: 0 <= k < |df| && ranked[k] !in r.gainers && g in r.gainers ==> g.key >= ranked[k].key)
      && (forall k, l :: 0 <= k < |df| && ranked[k] !in r.losers && l in r.losers ==> l.key <= ranked[k].key)
  {
    var ranked := RankAll(df, parse).value;
    var r := FindGainersAndLosers(df, parse).value;
    forall k, g | 0 <= k < |df| && ranked[k] !in r.gainers && g in r.gainers ensures g.key >= ranked[k].key {
      OthersFollowTop(ranked, true, ranked[k], g);
    }
    forall k, l | 0 <= k < |df| && ranked[k] !in r.losers && l in r.losers ensures l.key <= ranked[k].key {
      OthersFollowTop(ranked, false, ranked[k], l);
    }
  }

  /** With rows in the table, the first gainer has the largest key and the first loser the smallest. */
  lemma LeadersAreMaxAndMin(df: seq<Coin>, parse: Parser)
    requires AllKeyed(df, parse) && df != []
    ensures var r := FindGainersAndLosers(df, parse).value;
      forall k :: 0 <= k < |df| ==> r.losers[0].key <= RankAll(df, parse).value[k].key <= r.gainers[0].key
  {
    var ranked := RankAll(df, parse).value;
    forall k | 0 <= k < |df| ensures Top(ranked, false)[0].key <= ranked[k].key <= Top(ranked, true)[0].key {
      TopLeads(ranked, true, ranked[k]);
      TopLeads(ranked, false, ranked[k]);
    }
  }

  /** With three rows or fewer, both lists hold every row of the table. */
  lemma FewRowsAllListed(df: seq<Coin>, parse: Parser)
    requires AllKeyed(df, parse) && |df| <= TopCount
    ensures var r := FindGainersAndLosers(df, parse).value; var ranked := RankAll(df, parse).value;
      multiset(r.gainers) == multiset(ranked) && multiset(r.losers) == multiset(ranked)
  {
    var ranked := RankAll(df, parse).value;
    var r := FindGainersAndLosers(df, parse).value;
    assert |multiset(r.gainers)| == |multiset(ranked)|;
    assert |multiset(r.losers)| == |multiset(ranked)|;
    SubMultisetSameSize(multiset(r.gainers), multiset(ranked));
    SubMultisetSameSize(multiset(r.losers), multiset(ranked));
  }

  /** A sub-multiset of the same size is the whole. */
  lemma SubMultisetSameSize<T>(a: multiset<T>, b: multiset<T>)
    requires a <= b && |a| == |b|
    ensures a == b
  {
    assert |b - a| == |b| - |a|;
    assert b - a == multiset{};
    assert b == a + (b - a);
  }
}
