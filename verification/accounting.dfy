/** What each button does to the table and to the figures on the dashboard. */
module Accounting {
  import opened Ledger
  import opened Metrics

  // ---------------------------------------------------------------------
  // Selling
  // ---------------------------------------------------------------------

  /** The first record of a name is determined by the table. */
  lemma FirstMatchIsFirst(t: Table, name: string, i: int)
    requires IsFirst(t, name, i)
    ensures FirstMatch(t, name) == Some(i)
  {
    var m := FirstMatch(t, name);
    assert m.Some? by {
      assert t[i].name == name;
    }
  }

  /** When the first record of the name has stock, the sale moves one of its
      units from stock to sold, and every other record is left alone. */
  lemma SellFirstInStock(t: Table, name: string, i: int)
    requires IsFirst(t, name, i) && t[i].stock > 0
    ensures Sell(t, name) == t[i := SellOne(t[i])]
  {
    FirstMatchIsFirst(t, name, i);
  }

  /** When the first record of the name has no stock the sale is refused,
      whatever stock later records of the same name hold. */
  lemma SellFirstOutOfStock(t: Table, name: string, i: int)
    requires IsFirst(t, name, i) && t[i].stock <= 0
    ensures Sell(t, name) == t
  {
    FirstMatchIsFirst(t, name, i);
  }

  /** Selling a name that no record has changes nothing. */
  lemma SellAbsent(t: Table, name: string)
    requires Absent(t, name)
    ensures Sell(t, name) == t
  {
  }

  /** A sale never makes a count negative. */
  lemma SellKeepsCountsNonNegative(t: Table, name: string)
    requires CountsNonNegative(t)
    ensures CountsNonNegative(Sell(t, name))
  {
  }

  /** Per record, a sale leaves the investment where it was and adds one
      sale price to the revenue and one unit margin to the gross profit. */
  lemma SellOneTerms(p: Product)
    ensures Term(SellOne(p), Investment) == Term(p, Investment)
    ensures Term(SellOne(p), Revenue) == Term(p, Revenue) + p.price
    ensures Term(SellOne(p), GrossProfit) == Term(p, GrossProfit) + (p.price - p.cost)
  {
    var q := SellOne(p);
    assert q.stock + q.sold == p.stock + p.sold;
    assert (q.sold as real) == (p.sold as real) + 1.0;
  }

  /** Selling never changes the money invested: the unit only moves from the
      stock column to the sold column, both of which are bought at cost. */
  lemma SellKeepsInvestment(t: Table, name: string)
    ensures Summarize(Sell(t, name)).investment == Summarize(t).investment
  {
    if CanSell(t, name) {
      var i := FirstMatch(t, name).value;
      TotalUpdate(t, i, SellOne(t[i]), Investment);
      SellOneTerms(t[i]);
      assert Sell(t, name) == t[i := SellOne(t[i])];
    }
  }

  /** A successful sale removes one unit from stock, raises revenue and
      balance by the record's sale price and gross profit by its unit margin. */
  lemma SellMoves(t: Table, name: string, i: int)
    requires IsFirst(t, name, i) && t[i].stock > 0
    ensures Summarize(Sell(t, name)).stock == Summarize(t).stock - 1
    ensures Summarize(Sell(t, name)).investment == Summarize(t).investment
    ensures Summarize(Sell(t, name)).revenue == Summarize(t).revenue + t[i].price
    ensures Summarize(Sell(t, name)).grossProfit == Summarize(t).grossProfit + (t[i].price - t[i].cost)
    ensures Summarize(Sell(t, name)).balance == Summarize(t).balance + t[i].price
  {
    SellFirstInStock(t, name, i);
    var x := SellOne(t[i]);
    SellOneTerms(t[i]);
    StockTotalUpdate(t, i, x);
    TotalUpdate(t, i, x, Investment);
    TotalUpdate(t, i, x, Revenue);
    TotalUpdate(t, i, x, GrossProfit);
  }

  // ---------------------------------------------------------------------
  // Registering
  // ---------------------------------------------------------------------

  /** Registering a product adds its units to stock and their cost to the
      investment; nothing is sold, so revenue and gross profit stay, and the
      balance drops by the cost of the new units. */
  lemma AddMoves(t: Table, name: string, cost: real, margin: real, price: real, qty: nat)
    requires name != ""
    ensures Summarize(Add(t, name, cost, margin, price, qty)).stock == Summarize(t).stock + qty
    ensures Summarize(Add(t, name, cost, margin, price, qty)).investment == Summarize(t).investment + cost * (qty as real)
    ensures Summarize(Add(t, name, cost, margin, price, qty)).revenue == Summarize(t).revenue
    ensures Summarize(Add(t, name, cost, margin, price, qty)).grossProfit == Summarize(t).grossProfit
    ensures Summarize(Add(t, name, cost, margin, price, qty)).balance == Summarize(t).balance - cost * (qty as real)
  {
    var p := NewProduct(name, cost, margin, price, qty);
    assert Add(t, name, cost, margin, price, qty) == t + [p];
    StockTotalAppend(t, [p]);
    TotalAppend(t, [p], Investment);
    TotalAppend(t, [p], Revenue);
    TotalAppend(t, [p], GrossProfit);
  }

  /** A registered product starts with non-negative counts, so registering
      keeps every count non-negative. */
  lemma AddKeepsCountsNonNegative(t: Table, name: string, cost: real, margin: real, price: real, qty: nat)
    requires CountsNonNegative(t)
    ensures CountsNonNegative(Add(t, name, cost, margin, price, qty))
  {
  }

  // ---------------------------------------------------------------------
  // Deleting
  // ---------------------------------------------------------------------

  /** Filtering out a name works record by record, so the survivors keep
      their relative order. */
  lemma {:induction false} WithoutConcat(a: Table, b: Table, name: string)
    ensures Without(a + b, name) == Without(a, name) + Without(b, name)
  {
    if |a| == 0 {
      assert a + b == b;
    } else {
      assert (a + b)[1..] == a[1..] + b;
      WithoutConcat(a[1..], b, name);
    }
  }

  /** Deletion keeps each surviving record where it was relative to the
      others: it distributes over concatenation and keeps a single record
      exactly when the record is not the one selected. */
  lemma DeleteKeepsOrder(a: Table, b: Table, selection: string)
    ensures Delete(a + b, selection) == Delete(a, selection) + Delete(b, selection)
    ensures forall p: Product :: Delete([p], selection) == if selection != NoSelection && p.name == selection then [] else [p]
  {
    WithoutConcat(a, b, selection);
  }

  /** Deleting a name no record has changes nothing. */
  lemma {:induction false} WithoutAbsent(t: Table, name: string)
    requires Absent(t, name)
    ensures Without(t, name) == t
  {
    if |t| > 0 {
      WithoutAbsent(t[1..], name);
      assert t == [t[0]] + t[1..];
    }
  }

  lemma DeleteAbsent(t: Table, selection: string)
    requires Absent(t, selection)
    ensures Delete(t, selection) == t
  {
    WithoutAbsent(t, selection);
  }

  /** Deleting the same selection twice is the same as deleting it once. */
  lemma DeleteIdempotent(t: Table, selection: string)
    ensures Delete(Delete(t, selection), selection) == Delete(t, selection)
  {
    if selection != NoSelection {
      WithoutAbsent(Without(t, selection), selection);
    }
  }

  /** Deletion keeps every count non-negative. */
  lemma DeleteKeepsCountsNonNegative(t: Table, selection: string)
    requires CountsNonNegative(t)
    ensures CountsNonNegative(Delete(t, selection))
  {
    if selection != NoSelection {
      var r := Delete(t, selection);
      forall i | 0 <= i < |r|
        ensures r[i].stock >= 0 && r[i].sold >= 0
      {
        assert r[i] in multiset(r);
        assert r[i] in multiset(t);
      }
    }
  }

  /** Deleting a name takes exactly the deleted records' share out of each
      figure. */
  lemma DeleteMoves(t: Table, selection: string)
    requires selection != NoSelection
    ensures Summarize(Delete(t, selection)).stock == Summarize(t).stock - StockTotal(Named(t, selection))
    ensures Summarize(Delete(t, selection)).investment == Summarize(t).investment - Total(Named(t, selection), Investment)
    ensures Summarize(Delete(t, selection)).revenue == Summarize(t).revenue - Total(Named(t, selection), Revenue)
    ensures Summarize(Delete(t, selection)).grossProfit == Summarize(t).grossProfit - Total(Named(t, selection), GrossProfit)
  {
    StockTotalPartition(t, selection);
    TotalPartition(t, selection, Investment);
    TotalPartition(t, selection, Revenue);
    TotalPartition(t, selection, GrossProfit);
  }

  // ---------------------------------------------------------------------
  // A worked example
  // ---------------------------------------------------------------------

  /** Register one unit costing 10 with a 50% margin at its suggested price,
      then sell it: the suggested price is 15, the stock is empty, and the
      figures read invested 10, revenue 15, gross profit 5, balance 5. */
  lemma WidgetScenario()
    ensures var t := Add([], "Widget", 10.0, 50.0, SuggestedPrice(10.0, 50.0), 1);
      && t[0].suggestedPrice == 15.0
      && Sell(t, "Widget") == [t[0].(stock := 0, sold := 1)]
      && Summarize(Sell(t, "Widget")) == Summary(0, 10.0, 15.0, 5.0, 5.0)
  {
    var t := Add([], "Widget", 10.0, 50.0, SuggestedPrice(10.0, 50.0), 1);
    assert t == [Product("Widget", 10.0, 50.0, 15.0, 15.0, 1, 0)];
    SellFirstInStock(t, "Widget", 0);
    var s := Sell(t, "Widget");
    assert s == [Product("Widget", 10.0, 50.0, 15.0, 15.0, 0, 1)];
    assert s[1..] == [];
  }
}
