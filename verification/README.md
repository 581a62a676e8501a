# dashboard_estoque: the inventory table, in Dafny

The dashboard keeps its whole state in one spreadsheet: a table of products
with the columns `Produto`, `Custo`, `Margem_%`, `Preco_Sugerido`,
`Preco_Venda`, `Qtd_Estoque` and `Vendas_Realizadas`. Three buttons change
the table and four metric cards summarise it:

- **Salvar na Nuvem** registers a product by appending one row.
- **Excluir do Banco** deletes every row with the selected name.
- **Confirmar Venda (+1)** sells one unit of the first row with the selected name.
- The cards show stock, investment, gross profit and balance ("saldo").

This project models the table as an immutable `seq<Product>` and each
button as a pure function from the old table to the table written back.
It proves how each operation changes the table and the figures.

- `ledger.dfy` (module `Ledger`): the `Product` record and the operations
  `Add`, `Delete` and `Sell`, with their contracts.
- `metrics.dfy` (module `Metrics`): the column sums, the `Summary` of the
  computed figures (the four cards plus the revenue, which is computed but
  not displayed), and lemmas about how sums follow appends, in-place updates
  and splits by name.
- `accounting.dfy` (module `Accounting`): what each operation does to the
  figures, and the frame facts about selling and deleting.

Money is `real` and counts are `int`. The add form's quantity is a `nat`,
because its widget has a minimum of 0. The key invariant is
`Accounting.SellKeepsInvestment`: a sale moves a unit from the stock column
to the sold column, and both are valued at cost, so the investment does not
change. `Metrics.BalanceIsProfitLessUnsoldCost` explains the balance card.
The balance is the gross profit minus the cost of the units still in stock.

What `app.py` does, and so what the model does:
- Registration only rejects an empty name. A non-positive sale price is accepted.
- The sale price is whatever was entered. No margin is derived from a price.
- A stored row's stock is never forced to be non-negative. The sell button
  only requires the first matching row's stock to be greater than 0.
  Non-negativity is therefore proved as an invariant (`CountsNonNegative`)
  that every operation preserves. It is not built into the type.
- There is no sales journal. A sale only updates the two count columns.

## Model

| member | source | states |
|---|---|---|
| Ledger.Add | app.py:38-45 | An empty name leaves the table unchanged. Any other name appends exactly one row after the old table. That row has the entered name, cost, margin, sale price and quantity, the suggested price cost·(1+margin/100), and 0 units sold. |
| Ledger.NewProduct | app.py:40-44 | The new row copies the form's fields. Its suggested price exceeds the cost by exactly margin% of the cost. Its sold count is 0. |
| Ledger.SuggestedPriceMarkup | app.py:42 | The suggested price minus the cost is cost·margin/100. A non-negative cost and margin never suggest a price below cost. |
| Ledger.Without | app.py:54 | The filter keeps no row with the given name. Every other row keeps its multiplicity. |
| Ledger.Delete | app.py:52-54 | The sentinel "-" leaves the table unchanged. Any other selection leaves no row of that name and every other row with its multiplicity. The length drops by the number of rows with that name. |
| Ledger.FirstMatch | app.py:86-87 | Returns None exactly when no row has the name. Otherwise it returns the position of the first row with that name. |
| Ledger.FindFrom | app.py:87 | Finds the first position at or after `from` holding the name, or reports that none does. |
| Ledger.SellOne | app.py:89-90 | Moves one unit from stock to sold. Every other field of the row is unchanged. |
| Ledger.Sell | app.py:85-90 | The length never changes. If the first row with the name has stock, that row loses one unit of stock and gains one sale, and all other rows are unchanged. Otherwise the table is unchanged. |
| Metrics.Summarize | app.py:60-72 | Balance equals revenue minus investment. Stock, investment, revenue and gross profit are the column sums. Every figure is 0 for an empty table. |
| Metrics.TotalAppend | app.py:61-63 | A money column's sum over two concatenated tables is the sum of the two tables' sums. |
| Metrics.StockTotalAppend | app.py:72 | The stock sum over two concatenated tables is the sum of the two tables' stock sums. |
| Metrics.TotalUpdate | app.py:61-63 | Replacing one row changes a money sum by exactly the difference between the new row's term and the old row's term. |
| Metrics.StockTotalUpdate | app.py:72 | Replacing one row changes the stock sum by exactly the difference between the new and old stock. |
| Metrics.TotalPartition | app.py:54 | Each money sum equals the sum over the rows without the name plus the sum over the rows with it. |
| Metrics.StockTotalPartition | app.py:54 | The stock sum equals the sum over the rows without the name plus the sum over the rows with it. |
| Metrics.StockTotalNonNegative | app.py:72 | With no negative counts, the stock card is never negative. |
| Metrics.TermBalance | app.py:61-64 | For one row, revenue minus investment equals gross profit minus the cost of the unsold units. |
| Metrics.BalanceIsProfitLessUnsoldCost | app.py:61-64 | Over the whole table, the balance equals the gross profit minus the cost of the units still in stock. |
| Accounting.FirstMatchIsFirst | app.py:87 | The row the sell button picks is the unique first row with the name. |
| Accounting.SellFirstInStock | app.py:86-90 | If the first row with the name has stock, the sale replaces exactly that row with its one-unit-sold version. |
| Accounting.SellFirstOutOfStock | app.py:86-88 | If the first row with the name has no stock, the sale changes nothing. This holds even when a later row with the same name has stock. |
| Accounting.SellAbsent | app.py:86 | Selling a name that no row has changes nothing. |
| Accounting.SellKeepsCountsNonNegative | app.py:88-90 | If no count was negative before a sale, none is negative after it. |
| Accounting.SellOneTerms | app.py:61-63 | For one row, a sale keeps its investment term, raises its revenue term by its sale price, and raises its gross-profit term by the price minus the cost. |
| Accounting.SellKeepsInvestment | app.py:61 | No sale, successful or refused, changes the investment total. |
| Accounting.SellMoves | app.py:61-64 | A successful sale lowers stock by 1 and keeps the investment. It raises revenue and balance by the row's sale price, and gross profit by the sale price minus the cost. |
| Accounting.AddMoves | app.py:43 | Registering a product raises stock by the quantity and investment by cost·quantity. Revenue and gross profit are unchanged. The balance falls by cost·quantity. |
| Accounting.AddKeepsCountsNonNegative | app.py:43 | Registering keeps every count non-negative. |
| Accounting.WithoutConcat | app.py:54 | Filtering a concatenation is the concatenation of the filtered parts. |
| Accounting.DeleteKeepsOrder | app.py:53-54 | Deletion distributes over concatenation. It keeps a single row exactly when a real selection does not name it. Together these fix the survivors' relative order. |
| Accounting.WithoutAbsent | app.py:54 | Filtering out a name that no row has returns the table unchanged. |
| Accounting.DeleteAbsent | app.py:53-54 | Deleting a name that no row has changes nothing. |
| Accounting.DeleteIdempotent | app.py:53-54 | Deleting the same selection twice has the same result as deleting it once. |
| Accounting.DeleteKeepsCountsNonNegative | app.py:54 | Deletion keeps every count non-negative. |
| Accounting.DeleteMoves | app.py:54 | Deleting a name lowers each figure by exactly the deleted rows' share of it. |
| Accounting.WidgetScenario | app.py:40-45 | One unit costing 10 with a 50% margin, registered at its suggested price 15 and then sold, shows invested 10, revenue 15, gross profit 5 and balance 5, with no stock left. |

## Left out

- The spreadsheet connection (`conn.read` and `conn.update`): every operation returns the new table instead of writing it.
- Cache clearing, page reruns, toasts, styling, page configuration and every widget: they are user-interface control flow.
- The `int(...)` and `R$ {:.2f}` formatting of the metric cards: the model keeps exact sums, and no rounding is modelled.
- Floating-point arithmetic: money is `real`, so the model has no rounding error.
- Pandas details: column dtypes, NaN cells, index labels other than the default positional ones, and the order of `unique()` in the select lists. The sell and delete operations accept any name, not only names offered by a select list.
- The widget minimums for cost and margin (0.0): `Add` accepts any real cost and margin, because its behaviour does not depend on their sign.
- A sales journal and a margin derived from an entered price: `app.py` has neither.
