/**
 * get_investment_value of main_2.py: the buys and the sells of one
 * (coin, currency) pair are selected from the ledger, their amounts summed,
 * and the difference valued at a price the caller supplies.
 */
module Holdings {

  import opened Ledger

  /** The WHERE clause `coin_id=? AND currency=? AND sell=?`. */
  predicate Matches(r: Row, coinId: string, currency: string, sell: int)
  {
    r.coinId == coinId && r.currency == currency && r.sell == sell
  }

  /** The rows the SELECT returns, in store order. */
  function Query(rows: seq<Row>, coinId: string, currency: string, sell: int): (q: seq<Row>)
    ensures forall r :: r in q <==> r in rows && Matches(r, coinId, currency, sell)
    ensures |q| <= |rows|
  {
    if rows == [] then []
    else (if Matches(rows[0], coinId, currency, sell) then [rows[0]] else [])
         + Query(rows[1..], coinId, currency, sell)
  }

  /** With no row of the given sell value, the selection is empty. */
  lemma {:induction false} QueryNoMatch(rows: seq<Row>, coinId: string, currency: string, sell: int)
    requires forall i :: 0 <= i < |rows| ==> rows[i].sell != sell
    ensures Query(rows, coinId, currency, sell) == []
  {
    if rows != [] {
      QueryNoMatch(rows[1..], coinId, currency, sell);
    }
  }

  /** `sum(row.amount for row in rows)`. */
  function Total(rows: seq<Row>): (t: real)
    ensures (forall i :: 0 <= i < |rows| ==> rows[i].amount >= 0.0) ==> t >= 0.0
  {
    if rows == [] then 0.0 else rows[0].amount + Total(rows[1..])
  }

  /** Buys minus sells for one pair; a ledger without sells and with
      non-negative amounts has non-negative net holdings. */
  function NetHoldings(rows: seq<Row>, coinId: string, currency: string): (n: real)
    ensures (forall i :: 0 <= i < |rows| ==> rows[i].amount >= 0.0 && rows[i].sell != 1) ==> n >= 0.0
  {
    var buys := Query(rows, coinId, currency, 0);
    var sells := Query(rows, coinId, currency, 1);
    assert (forall i :: 0 <= i < |rows| ==> rows[i].amount >= 0.0 && rows[i].sell != 1) ==>
             sells == [] && forall j :: 0 <= j < |buys| ==> buys[j].amount >= 0.0 by {
      if forall i :: 0 <= i < |rows| ==> rows[i].amount >= 0.0 && rows[i].sell != 1 {
        QueryNoMatch(rows, coinId, currency, 1);
        forall j | 0 <= j < |buys| ensures buys[j].amount >= 0.0 {
          assert buys[j] in buys;
        }
      }
    }
    Total(buys) - Total(sells)
  }

  /** What get_investment_value reports: the net amount and its value at `price`. */
  datatype Valuation = Valuation(net: real, value: real)

  function InvestmentValue(rows: seq<Row>, coinId: string, currency: string, price: real): (v: Valuation)
    ensures v.value == v.net * price
    ensures v.net == NetHoldings(rows, coinId, currency)
  {
    var net := NetHoldings(rows, coinId, currency);
    Valuation(net, net * price)
  }

  /** What one row adds to the net holdings of a pair: its amount for a
      matching buy (sell = 0), minus its amount for a matching sell
      (sell = 1), nothing otherwise. */
  function Contribution(r: Row, coinId: string, currency: string): real
  {
    if r.coinId == coinId && r.currency == currency && r.sell == 0 then r.amount
    else if r.coinId == coinId && r.currency == currency && r.sell == 1 then -r.amount
    else 0.0
  }

  /** The independent, row-by-row reading of the net holdings. */
  function SumContributions(rows: seq<Row>, coinId: string, currency: string): real
  {
    if rows == [] then 0.0 else Contribution(rows[0], coinId, currency) + SumContributions(rows[1..], coinId, currency)
  }

  lemma {:induction false} QueryAppend(a: seq<Row>, b: seq<Row>, coinId: string, currency: string, sell: int)
    ensures Query(a + b, coinId, currency, sell) == Query(a, coinId, currency, sell) + Query(b, coinId, currency, sell)
  {
    if a == [] {
      assert a + b == b;
    } else {
      assert (a + b)[1..] == a[1..] + b;
      QueryAppend(a[1..], b, coinId, currency, sell);
    }
  }

  lemma {:induction false} TotalAppend(a: seq<Row>, b: seq<Row>)
    ensures Total(a + b) == Total(a) + Total(b)
  {
    if a == [] {
      assert a + b == b;
    } else {
      assert (a + b)[1..] == a[1..] + b;
      TotalAppend(a[1..], b);
    }
  }

  /** The net holdings are the sum of the per-row contributions. */
  lemma {:induction false} NetIsSumOfContributions(rows: seq<Row>, coinId: string, currency: string)
    ensures NetHoldings(rows, coinId, currency) == SumContributions(rows, coinId, currency)
  {
    if rows != [] {
      var r := rows[0];
      assert rows == [r] + rows[1..];
      QueryAppend([r], rows[1..], coinId, currency, 0);
      QueryAppend([r], rows[1..], coinId, currency, 1);
      TotalAppend(Query([r], coinId, currency, 0), Query(rows[1..], coinId, currency, 0));
      TotalAppend(Query([r], coinId, currency, 1), Query(rows[1..], coinId, currency, 1));
      NetIsSumOfContributions(rows[1..], coinId, currency);
    }
  }

  /** The net holdings of a concatenation are the sum of the parts. */
  lemma NetAppend(a: seq<Row>, b: seq<Row>, coinId: string, currency: string)
    ensures NetHoldings(a + b, coinId, currency) == NetHoldings(a, coinId, currency) + NetHoldings(b, coinId, currency)
  {
    QueryAppend(a, b, coinId, currency, 0);
    QueryAppend(a, b, coinId, currency, 1);
    TotalAppend(Query(a, coinId, currency, 0), Query(b, coinId, currency, 0));
    TotalAppend(Query(a, coinId, currency, 1), Query(b, coinId, currency, 1));
  }

  /** A row of another coin, another currency, or with a sell value other
      than 0 and 1 contributes nothing, wherever it stands. */
  lemma IgnoredRow(a: seq<Row>, r: Row, b: seq<Row>, coinId: string, currency: string)
    requires r.coinId != coinId || r.currency != currency || (r.sell != 0 && r.sell != 1)
    ensures NetHoldings(a + [r] + b, coinId, currency) == NetHoldings(a + b, coinId, currency)
  {
    NetAppend(a + [r], b, coinId, currency);
    NetAppend(a, [r], coinId, currency);
    NetAppend(a, b, coinId, currency);
    NetIsSumOfContributions([r], coinId, currency);
  }

  /** Adding an investment moves the net holdings of its own pair by its
      amount (up for a buy, down for a sell) and leaves every other pair alone. */
  lemma AddMovesNet(rows: seq<Row>, coinId: string, currency: string, amount: real, sell: bool, now: string, c: string, cur: string)
    ensures NetHoldings(rows + [NewRow(coinId, currency, amount, sell, now)], c, cur)
         == NetHoldings(rows, c, cur) + (if c == coinId && cur == currency then (if sell then -amount else amount) else 0.0)
  {
    NetAppend(rows, [NewRow(coinId, currency, amount, sell, now)], c, cur);
    NetIsSumOfContributions([NewRow(coinId, currency, amount, sell, now)], c, cur);
  }

  /** Buying 2 and 1 and selling 0.5 bitcoin for usd, at a price of 50000,
      is a net position of 2.5 worth 125000. */
  lemma ValuationExample(d1: string, d2: string, d3: string)
    ensures InvestmentValue([Row("bitcoin", "usd", 2.0, 0, d1), Row("bitcoin", "usd", 1.0, 0, d2),
                             Row("bitcoin", "usd", 0.5, 1, d3)], "bitcoin", "usd", 50000.0)
         == Valuation(2.5, 125000.0)
  {
    var rows := [Row("bitcoin", "usd", 2.0, 0, d1), Row("bitcoin", "usd", 1.0, 0, d2), Row("bitcoin", "usd", 0.5, 1, d3)];
    NetIsSumOfContributions(rows, "bitcoin", "usd");
    assert SumContributions(rows[2..], "bitcoin", "usd") == -0.5 by {
      assert rows[2..][1..] == [];
    }
    assert rows[1..][1..] == rows[2..];
    assert SumContributions(rows[1..], "bitcoin", "usd") == 0.5;
  }
}
