/** The figures the dashboard computes from the table: units in stock, money
    invested, revenue, gross profit and the recovered balance. Each is a
    column-wise sum over the product table. Four of them are shown as metric
    cards; the revenue is computed but not displayed. */
module Metrics {
  import opened Ledger

  /** The money-valued columns summed over the table. `UnsoldCost` (the cost
      of the units still in stock) is not displayed; it explains the balance. */
  datatype Measure = Investment | Revenue | GrossProfit | UnsoldCost

  /** One record's contribution to a measure. */
  function Term(p: Product, m: Measure): real
  {
    match m
    case Investment => p.cost * ((p.stock + p.sold) as real)
    case Revenue => p.price * (p.sold as real)
    case GrossProfit => (p.price - p.cost) * (p.sold as real)
    case UnsoldCost => p.cost * (p.stock as real)
  }

  /** The column sum of a measure over the table. */
  function Total(t: Table, m: Measure): real
  {
    if |t| == 0 then 0.0 else Term(t[0], m) + Total(t[1..], m)
  }

  /** The sum of the stock column. */
  function StockTotal(t: Table): int
  {
    if |t| == 0 then 0 else t[0].stock + StockTotal(t[1..])
  }

  /** The computed figures: the four shown on the metric cards (stock,
      investment, gross profit, balance) and the revenue, which is computed
      but not displayed. */
  datatype Summary = Summary(stock: int, investment: real, revenue: real, grossProfit: real, balance: real)

  /** The metrics as the dashboard computes them: zero for an empty table,
      otherwise the column sums, with the balance the revenue less the
      investment. */
  function Summarize(t: Table): (s: Summary)
    ensures s.balance == s.revenue - s.investment
    ensures s.stock == StockTotal(t)
    ensures s.investment == Total(t, Investment)
    ensures s.revenue == Total(t, Revenue)
    ensures s.grossProfit == Total(t, GrossProfit)
    ensures |t| == 0 ==> s == Summary(0, 0.0, 0.0, 0.0, 0.0)
  {
    if |t| == 0 then Summary(0, 0.0, 0.0, 0.0, 0.0)
    else
      var invested := Total(t, Investment);
      var revenue := Total(t, Revenue);
      Summary(StockTotal(t), invested, revenue, Total(t, GrossProfit), revenue - invested)
  }

  // ---------------------------------------------------------------------
  // How the sums follow the table
  // ---------------------------------------------------------------------

  /** Sums split over concatenation. */
  lemma {:induction false} TotalAppend(t: Table, u: Table, m: Measure)
    ensures Total(t + u, m) == Total(t, m) + Total(u, m)
  {
    if |t| == 0 {
      assert t + u == u;
    } else {
      assert (t + u)[1..] == t[1..] + u;
      TotalAppend(t[1..], u, m);
    }
  }

  lemma {:induction false} StockTotalAppend(t: Table, u: Table)
    ensures StockTotal(t + u) == StockTotal(t) + StockTotal(u)
  {
    if |t| == 0 {
      assert t + u == u;
    } else {
      assert (t + u)[1..] == t[1..] + u;
      StockTotalAppend(t[1..], u);
    }
  }

  /** Replacing one record changes a sum by the difference of its terms. */
  lemma {:induction false} TotalUpdate(t: Table, i: nat, x: Product, m: Measure)
    requires i < |t|
    ensures Total(t[i := x], m) == Total(t, m) - Term(t[i], m) + Term(x, m)
  {
    if i > 0 {
      assert t[i := x][1..] == t[1..][i - 1 := x];
      TotalUpdate(t[1..], i - 1, x, m);
    }
  }

  lemma {:induction false} StockTotalUpdate(t: Table, i: nat, x: Product)
    requires i < |t|
    ensures StockTotal(t[i := x]) == StockTotal(t) - t[i].stock + x.stock
  {
    if i > 0 {
      assert t[i := x][1..] == t[1..][i - 1 := x];
      StockTotalUpdate(t[1..], i - 1, x);
    }
  }

  /** Splitting the table by a name splits every sum. */
  lemma {:induction false} TotalPartition(t: Table, name: string, m: Measure)
    ensures Total(t, m) == Total(Without(t, name), m) + Total(Named(t, name), m)
  {
    if |t| > 0 {
      TotalPartition(t[1..], name, m);
      if t[0].name == name {
        assert Named(t, name) == [t[0]] + Named(t[1..], name);
        TotalAppend([t[0]], Named(t[1..], name), m);
      } else {
        assert Without(t, name) == [t[0]] + Without(t[1..], name);
        TotalAppend([t[0]], Without(t[1..], name), m);
      }
    }
  }

  lemma {:induction false} StockTotalPartition(t: Table, name: string)
    ensures StockTotal(t) == StockTotal(Without(t, name)) + StockTotal(Named(t, name))
  {
    if |t| > 0 {
      StockTotalPartition(t[1..], name);
      if t[0].name == name {
        assert Named(t, name) == [t[0]] + Named(t[1..], name);
        StockTotalAppend([t[0]], Named(t[1..], name));
      } else {
        assert Without(t, name) == [t[0]] + Without(t[1..], name);
        StockTotalAppend([t[0]], Without(t[1..], name));
      }
    }
  }

  /** With no negative counts, no stock total is negative. */
  lemma {:induction false} StockTotalNonNegative(t: Table)
    requires CountsNonNegative(t)
    ensures StockTotal(t) >= 0
  {
    if |t| > 0 {
      StockTotalNonNegative(t[1..]);
    }
  }

  // ---------------------------------------------------------------------
  // What the figures mean
  // ---------------------------------------------------------------------

  /** Per record, revenue less investment is gross profit less the cost of the
      units still on the shelf. */
  lemma TermBalance(p: Product)
    ensures Term(p, Revenue) - Term(p, Investment) == Term(p, GrossProfit) - Term(p, UnsoldCost)
  {
    var s, k := p.stock as real, p.sold as real;
    assert (p.stock + p.sold) as real == s + k;
    assert p.cost * (s + k) == p.cost * s + p.cost * k;
    assert (p.price - p.cost) * k == p.price * k - p.cost * k;
  }

  /** The balance is break-even framed: it is the gross profit less the cost
      of the stock not yet sold, so it is negative until the sales have paid
      for every unit bought. */
  lemma {:induction false} BalanceIsProfitLessUnsoldCost(t: Table)
    ensures Summarize(t).balance == Summarize(t).grossProfit - Total(t, UnsoldCost)
  {
    if |t| > 0 {
      BalanceIsProfitLessUnsoldCost(t[1..]);
      TermBalance(t[0]);
    }
  }
}
