/**
 * The data reshaping of visualize.py: each row's amount gets a sign from its
 * sell value, and each coin, in order of first appearance, gets the running
 * total of its signed amounts in table order, plotted against the row dates.
 * The figure itself is not modelled.
 */
module Visualize {

  import opened Ledger
  import opened Holdings

  /** `amount * (-1 if sell == 1 else 1)`: only sell == 1 counts as a sale. */
  function SignedAmount(r: Row): (s: real)
    ensures (r.sell == 0 || r.sell == 1) ==> s == Contribution(r, r.coinId, r.currency)
    ensures r.sell != 0 && r.sell != 1 ==> s == r.amount
  {
    r.amount * (if r.sell == 1 then -1.0 else 1.0)
  }

  /** Sum of the signed amounts of some rows. */
  function SumSigned(rows: seq<Row>): real
  {
    if rows == [] then 0.0 else SignedAmount(rows[0]) + SumSigned(rows[1..])
  }

  predicate NoDuplicates(xs: seq<string>)
  {
    forall i, j :: 0 <= i < j < |xs| ==> xs[i] != xs[j]
  }

  /** The index of the first occurrence of `x`. */
  function FirstIndex(xs: seq<string>, x: string): (k: nat)
    requires x in xs
    ensures k < |xs| && xs[k] == x
    ensures forall m :: 0 <= m < k ==> xs[m] != x
  {
    if xs[0] == x then 0 else 1 + FirstIndex(xs[1..], x)
  }

  /** pandas `unique()`: the distinct values, in order of first appearance. */
  function Distinct(xs: seq<string>): (d: seq<string>)
    ensures forall x :: x in d <==> x in xs
    ensures NoDuplicates(d)
  {
    if xs == [] then []
    else
      var prefix := Distinct(xs[..|xs| - 1]);
      if xs[|xs| - 1] in prefix then prefix else prefix + [xs[|xs| - 1]]
  }

  lemma FirstIndexOfPrefix(xs: seq<string>, m: nat, x: string)
    requires m <= |xs| && x in xs[..m]
    ensures x in xs && FirstIndex(xs, x) == FirstIndex(xs[..m], x)
  {
  }

  /** Distinct lists the values in the order in which they first appear. */
  lemma {:induction false} DistinctInFirstAppearanceOrder(xs: seq<string>)
    ensures forall i, j :: 0 <= i < j < |Distinct(xs)| ==>
              FirstIndex(xs, Distinct(xs)[i]) < FirstIndex(xs, Distinct(xs)[j])
  {
    if xs != [] {
      var n := |xs|;
      var pre := xs[..n - 1];
      var p := Distinct(pre);
      DistinctInFirstAppearanceOrder(pre);
      forall x | x in pre ensures x in xs && FirstIndex(xs, x) == FirstIndex(pre, x) {
        FirstIndexOfPrefix(xs, n - 1, x);
      }
      if xs[n - 1] !in p {
        var e := xs[n - 1];
        assert Distinct(xs) == p + [e];
      }
    }
  }

  function CoinColumn(rows: seq<Row>): seq<string>
  {
    seq(|rows|, i requires 0 <= i < |rows| => rows[i].coinId)
  }

  function CurrencyColumn(rows: seq<Row>): seq<string>
  {
    seq(|rows|, i requires 0 <= i < |rows| => rows[i].currency)
  }

  /** `df["coin_id"].unique()`: every coin of the table, once. */
  function CoinIds(rows: seq<Row>): (cs: seq<string>)
    ensures forall c :: c in cs <==> exists i :: 0 <= i < |rows| && rows[i].coinId == c
    ensures NoDuplicates(cs)
  {
    assert forall i :: 0 <= i < |rows| ==> CoinColumn(rows)[i] == rows[i].coinId;
    Distinct(CoinColumn(rows))
  }

  /** `df[df["coin_id"] == coin]`: the rows of one coin, of every currency, in table order. */
  function CoinRows(rows: seq<Row>, coinId: string): (cr: seq<Row>)
    ensures forall r :: r in cr <==> r in rows && r.coinId == coinId
  {
    if rows == [] then []
    else (if rows[0].coinId == coinId then [rows[0]] else []) + CoinRows(rows[1..], coinId)
  }

  lemma {:induction false} CoinRowsAppend(a: seq<Row>, b: seq<Row>, coinId: string)
    ensures CoinRows(a + b, coinId) == CoinRows(a, coinId) + CoinRows(b, coinId)
  {
    if a == [] {
      assert a + b == b;
    } else {
      assert (a + b)[1..] == a[1..] + b;
      CoinRowsAppend(a[1..], b, coinId);
    }
  }

  /** One plotted point: a row's date and the running total up to that row. */
  datatype Point = Point(date: string, total: real)

  /** One line of the figure. */
  datatype Series = Series(coinId: string, points: seq<Point>)

  /** `cumsum()` of the signed amounts, starting from `acc`, paired with the dates. */
  function RunningTotals(rows: seq<Row>, acc: real): (ps: seq<Point>)
    ensures |ps| == |rows|
    ensures forall i :: 0 <= i < |rows| ==> ps[i] == Point(rows[i].date, acc + SumSigned(rows[..i + 1]))
  {
    if rows == [] then []
    else
      var t := acc + SignedAmount(rows[0]);
      var rest := RunningTotals(rows[1..], t);
      assert forall i :: 0 < i < |rows| ==> rows[..i + 1][1..] == rows[1..][..i];
      [Point(rows[0].date, t)] + rest
  }

  /** The line of one coin: the running totals of its rows, from zero. */
  function CoinSeries(rows: seq<Row>, coinId: string): (s: Series)
    ensures s.coinId == coinId
    ensures |s.points| == |CoinRows(rows, coinId)|
  {
    Series(coinId, RunningTotals(CoinRows(rows, coinId), 0.0))
  }

  /** The plotting loop: one line per coin, in the order of `unique()`. */
  function Plot(rows: seq<Row>): (p: seq<Series>)
    ensures |p| == |CoinIds(rows)|
    ensures forall k :: 0 <= k < |p| ==> p[k] == CoinSeries(rows, CoinIds(rows)[k])
  {
    var coins := CoinIds(rows);
    seq(|coins|, k requires 0 <= k < |coins| => CoinSeries(rows, coins[k]))
  }

  /** There is a series for a coin exactly when the table has a row of it. */
  lemma PlotHasCoin(rows: seq<Row>, c: string)
    ensures (exists k :: 0 <= k < |Plot(rows)| && Plot(rows)[k].coinId == c)
        <==> (exists i :: 0 <= i < |rows| && rows[i].coinId == c)
  {
    var col := CoinColumn(rows);
    var coins := CoinIds(rows);
    var p := Plot(rows);
    if exists i :: 0 <= i < |rows| && rows[i].coinId == c {
      var i :| 0 <= i < |rows| && rows[i].coinId == c;
      assert col[i] == c;
      assert c in coins;
      var k :| 0 <= k < |coins| && coins[k] == c;
      assert p[k].coinId == c;
    }
    if exists k :: 0 <= k < |p| && p[k].coinId == c {
      var k :| 0 <= k < |p| && p[k].coinId == c;
      assert coins[k] in coins;
      assert c in col;
      var i :| 0 <= i < |col| && col[i] == c;
      assert rows[i].coinId == c;
    }
  }

  /** No coin has two series. */
  lemma PlotCoinsDistinct(rows: seq<Row>)
    ensures forall k, l :: 0 <= k < l < |Plot(rows)| ==> Plot(rows)[k].coinId != Plot(rows)[l].coinId
  {
    assert NoDuplicates(CoinIds(rows));
  }

  /** The series are ordered by each coin's first row. */
  lemma PlotInFirstAppearanceOrder(rows: seq<Row>)
    ensures forall k, l :: 0 <= k < l < |Plot(rows)| ==>
              FirstIndex(CoinColumn(rows), Plot(rows)[k].coinId) < FirstIndex(CoinColumn(rows), Plot(rows)[l].coinId)
  {
    DistinctInFirstAppearanceOrder(CoinColumn(rows));
  }

  /** A coin's series has one point per row of that coin, across all
      currencies and in table order, carrying the row's date; point i is the
      signed total of the coin's first i + 1 rows. */
  lemma CoinSeriesContents(rows: seq<Row>, c: string)
    ensures var s := CoinSeries(rows, c);
            var cr := CoinRows(rows, c);
            |s.points| == |cr|
            && forall i :: 0 <= i < |cr| ==> s.points[i].date == cr[i].date && s.points[i].total == SumSigned(cr[..i + 1])
  {
  }

  /** Σ over some currencies of the net holdings of one coin. */
  function NetOverCurrencies(rows: seq<Row>, coinId: string, curs: seq<string>): real
  {
    if curs == [] then 0.0 else NetHoldings(rows, coinId, curs[0]) + NetOverCurrencies(rows, coinId, curs[1..])
  }

  /** Σ of the contributions of the rows of one coin whose currency is among `curs`. */
  function CoinContribution(rows: seq<Row>, coinId: string, curs: seq<string>): real
  {
    if rows == [] then 0.0
    else (if rows[0].coinId == coinId && rows[0].currency in curs then Contribution(rows[0], coinId, rows[0].currency) else 0.0)
         + CoinContribution(rows[1..], coinId, curs)
  }

  lemma {:induction false} CoinContributionNoCurrency(rows: seq<Row>, coinId: string)
    ensures CoinContribution(rows, coinId, []) == 0.0
  {
    if rows != [] {
      CoinContributionNoCurrency(rows[1..], coinId);
    }
  }

  lemma {:induction false} CoinContributionAddCurrency(rows: seq<Row>, coinId: string, c: string, curs: seq<string>)
    requires c !in curs
    ensures SumContributions(rows, coinId, c) + CoinContribution(rows, coinId, curs)
         == CoinContribution(rows, coinId, [c] + curs)
  {
    if rows != [] {
      CoinContributionAddCurrency(rows[1..], coinId, c, curs);
    }
  }

  lemma {:induction false} NetOverCurrenciesIsCoinContribution(rows: seq<Row>, coinId: string, curs: seq<string>)
    requires NoDuplicates(curs)
    ensures NetOverCurrencies(rows, coinId, curs) == CoinContribution(rows, coinId, curs)
  {
    if curs == [] {
      CoinContributionNoCurrency(rows, coinId);
    } else {
      assert NoDuplicates(curs[1..]) by {
        forall i, j | 0 <= i < j < |curs[1..]| ensures curs[1..][i] != curs[1..][j] {
          assert curs[1..][i] == curs[i + 1] && curs[1..][j] == curs[j + 1];
        }
      }
      assert curs[0] !in curs[1..] by {
        forall j | 0 <= j < |curs[1..]| ensures curs[1..][j] != curs[0] {
          assert curs[1..][j] == curs[j + 1];
        }
      }
      NetOverCurrenciesIsCoinContribution(rows, coinId, curs[1..]);
      NetIsSumOfContributions(rows, coinId, curs[0]);
      CoinContributionAddCurrency(rows, coinId, curs[0], curs[1..]);
      assert [curs[0]] + curs[1..] == curs;
    }
  }

  lemma {:induction false} CoinContributionIsSignedSum(rows: seq<Row>, coinId: string, curs: seq<string>)
    requires forall i :: 0 <= i < |rows| ==> rows[i].sell == 0 || rows[i].sell == 1
    requires forall i :: 0 <= i < |rows| && rows[i].coinId == coinId ==> rows[i].currency in curs
    ensures CoinContribution(rows, coinId, curs) == SumSigned(CoinRows(rows, coinId))
  {
    if rows != [] {
      assert forall i :: 0 <= i < |rows[1..]| ==> rows[1..][i] == rows[i + 1];
      CoinContributionIsSignedSum(rows[1..], coinId, curs);
      var rest := CoinRows(rows[1..], coinId);
      if rows[0].coinId == coinId {
        assert ([rows[0]] + rest)[1..] == rest;
      } else {
        assert [] + rest == rest;
      }
    }
  }

  /** Every currency of a coin's rows is among that coin's distinct currencies. */
  lemma CoinCurrenciesCovered(rows: seq<Row>, c: string)
    ensures forall i :: 0 <= i < |rows| && rows[i].coinId == c ==>
              rows[i].currency in Distinct(CurrencyColumn(CoinRows(rows, c)))
  {
    var cr := CoinRows(rows, c);
    forall i | 0 <= i < |rows| && rows[i].coinId == c ensures rows[i].currency in CurrencyColumn(cr) {
      assert rows[i] in cr;
      var j :| 0 <= j < |cr| && cr[j] == rows[i];
      assert CurrencyColumn(cr)[j] == rows[i].currency;
    }
  }

  /** The last point of a non-empty series is the signed sum of all the coin's rows. */
  lemma CoinSeriesEnd(rows: seq<Row>, c: string)
    requires CoinRows(rows, c) != []
    ensures var ps := CoinSeries(rows, c).points;
            |ps| > 0 && ps[|ps| - 1].total == SumSigned(CoinRows(rows, c))
  {
    var cr := CoinRows(rows, c);
    assert cr[..|cr|] == cr;
  }

  /** When every sell value is 0 or 1, the signed sum of a coin's rows is its
      net holdings added up over its distinct currencies. */
  lemma SignedSumIsNetOverCurrencies(rows: seq<Row>, c: string)
    requires forall i :: 0 <= i < |rows| ==> rows[i].sell == 0 || rows[i].sell == 1
    ensures SumSigned(CoinRows(rows, c)) == NetOverCurrencies(rows, c, Distinct(CurrencyColumn(CoinRows(rows, c))))
  {
    var curs := Distinct(CurrencyColumn(CoinRows(rows, c)));
    CoinCurrenciesCovered(rows, c);
    NetOverCurrenciesIsCoinContribution(rows, c, curs);
    CoinContributionIsSignedSum(rows, c, curs);
  }

  /** When every sell value is 0 or 1, the last point of a coin's series is
      that coin's net holdings taken per currency and added up over the
      coin's currencies. */
  lemma SeriesEndIsNetHoldings(rows: seq<Row>, c: string)
    requires forall i :: 0 <= i < |rows| ==> rows[i].sell == 0 || rows[i].sell == 1
    requires exists i :: 0 <= i < |rows| && rows[i].coinId == c
    ensures var ps := CoinSeries(rows, c).points;
            |ps| > 0
            && ps[|ps| - 1].total == NetOverCurrencies(rows, c, Distinct(CurrencyColumn(CoinRows(rows, c))))
  {
    var i0 :| 0 <= i0 < |rows| && rows[i0].coinId == c;
    assert rows[i0] in CoinRows(rows, c);
    CoinSeriesEnd(rows, c);
    SignedSumIsNetOverCurrencies(rows, c);
  }

  /** On a sell value of 2 the two computations part: the chart counts the
      row as a buy, the holdings ignore it. */
  lemma SellTwoDisagreement(d: string)
    ensures var rows := [Row("bitcoin", "usd", 1.0, 2, d)];
            Plot(rows) == [Series("bitcoin", [Point(d, 1.0)])]
            && NetHoldings(rows, "bitcoin", "usd") == 0.0
  {
    var rows := [Row("bitcoin", "usd", 1.0, 2, d)];
    assert CoinColumn(rows) == ["bitcoin"];
    assert Distinct(["bitcoin"]) == ["bitcoin"] by {
      assert ["bitcoin"][..0] == [];
    }
    assert CoinRows(rows, "bitcoin") == rows;
    assert rows[..1] == rows;
    assert RunningTotals(rows, 0.0) == [Point(d, 1.0)];
  }
}
