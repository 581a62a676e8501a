/** The product table of the stock dashboard and the three operations that
    change it: registering a product, deleting every record of a name, and
    selling one unit of the first record of a name. Each operation returns
    the table that the dashboard writes back to the spreadsheet. */
module Ledger {

  datatype Option<+T> = None | Some(value: T)

  /** The first option of the delete selector; it means "nothing selected". */
  const NoSelection: string := "-"

  /** One row of the inventory sheet; the sheet column is named beside each field. */
  datatype Product = Product(
    name: string,          // Produto
    cost: real,            // Custo
    marginPercent: real,   // Margem_%
    suggestedPrice: real,  // Preco_Sugerido
    price: real,           // Preco_Venda
    stock: int,            // Qtd_Estoque
    sold: int              // Vendas_Realizadas
  )

  /** The sheet, rows in positional order. */
  type Table = seq<Product>

  /** No record holds a negative stock or sold count. */
  predicate CountsNonNegative(t: Table)
  {
    forall i :: 0 <= i < |t| ==> t[i].stock >= 0 && t[i].sold >= 0
  }

  /** `i` is the position of the first record named `name`. */
  predicate IsFirst(t: Table, name: string, i: int)
  {
    && 0 <= i < |t|
    && t[i].name == name
    && forall j :: 0 <= j < i ==> t[j].name != name
  }

  /** `name` names no record of `t`. */
  predicate Absent(t: Table, name: string)
  {
    forall j :: 0 <= j < |t| ==> t[j].name != name
  }

  // ---------------------------------------------------------------------
  // Registering a product
  // ---------------------------------------------------------------------

  /** The cost marked up by `margin` percent. */
  function SuggestedPrice(cost: real, margin: real): real
  {
    cost * (1.0 + margin / 100.0)
  }

  /** The suggested price is the cost plus `margin` percent of the cost, so a
      non-negative margin never suggests selling below cost. */
  lemma SuggestedPriceMarkup(cost: real, margin: real)
    ensures SuggestedPrice(cost, margin) - cost == cost * margin / 100.0
    ensures 0.0 <= cost && 0.0 <= margin ==> cost <= SuggestedPrice(cost, margin)
  {
  }

  /** The row the form builds: the suggested price is derived from cost and
      margin, the sale price is whatever was entered, nothing is sold yet. */
  function NewProduct(name: string, cost: real, margin: real, price: real, qty: nat): (p: Product)
    ensures p.name == name && p.cost == cost && p.marginPercent == margin && p.price == price
    ensures p.suggestedPrice - cost == cost * margin / 100.0
    ensures p.stock == qty && p.sold == 0
  {
    SuggestedPriceMarkup(cost, margin);
    Product(name, cost, margin, SuggestedPrice(cost, margin), price, qty, 0)
  }

  /** Submitting the form: an empty name is ignored, any other name appends
      one new row after all existing ones. */
  function Add(t: Table, name: string, cost: real, margin: real, price: real, qty: nat): (r: Table)
    ensures name == "" ==> r == t
    ensures name != "" ==>
      && |r| == |t| + 1
      && r[..|t|] == t
      && r[|t|].name == name
      && r[|t|].cost == cost
      && r[|t|].marginPercent == margin
      && r[|t|].suggestedPrice == SuggestedPrice(cost, margin)
      && r[|t|].price == price
      && r[|t|].stock == qty
      && r[|t|].sold == 0
  {
    if name == "" then t
    else t + [NewProduct(name, cost, margin, price, qty)]
  }

  // ---------------------------------------------------------------------
  // Deleting by name
  // ---------------------------------------------------------------------

  /** The records of `t` not named `name`, in their original order. */
  function Without(t: Table, name: string): (r: Table)
    ensures |r| <= |t|
    ensures forall i :: 0 <= i < |r| ==> r[i].name != name
    ensures forall p: Product :: multiset(r)[p] == if p.name == name then 0 else multiset(t)[p]
  {
    if |t| == 0 then []
    else
      assert t == [t[0]] + t[1..];
      if t[0].name == name then Without(t[1..], name)
      else [t[0]] + Without(t[1..], name)
  }

  /** The records of `t` named `name`, in their original order. */
  function Named(t: Table, name: string): (r: Table)
    ensures |r| <= |t|
    ensures forall i :: 0 <= i < |r| ==> r[i].name == name
    ensures forall p: Product :: multiset(r)[p] == if p.name == name then multiset(t)[p] else 0
  {
    if |t| == 0 then []
    else
      assert t == [t[0]] + t[1..];
      if t[0].name == name then [t[0]] + Named(t[1..], name)
      else Named(t[1..], name)
  }

  /** The delete button: the sentinel selection changes nothing, any other
      selection removes every record of that name and keeps every other
      record, each as often as before. */
  function Delete(t: Table, selection: string): (r: Table)
    ensures selection == NoSelection ==> r == t
    ensures selection != NoSelection ==>
      && (forall i :: 0 <= i < |r| ==> r[i].name != selection)
      && (forall p: Product :: p.name != selection ==> multiset(r)[p] == multiset(t)[p])
      && |r| == |t| - |Named(t, selection)|
  {
    if selection == NoSelection then t
    else
      WithoutNamedSize(t, selection);
      Without(t, selection)
  }

  /** Every record goes to exactly one side of the split by name. */
  lemma {:induction false} WithoutNamedSize(t: Table, name: string)
    ensures |Without(t, name)| + |Named(t, name)| == |t|
  {
    if |t| > 0 {
      WithoutNamedSize(t[1..], name);
    }
  }

  // ---------------------------------------------------------------------
  // Selling one unit
  // ---------------------------------------------------------------------

  /** Position of the first record named `name` at or after `from`. */
  function FindFrom(t: Table, name: string, from: nat): (r: Option<nat>)
    requires from <= |t|
    ensures r.None? <==> forall j :: from <= j < |t| ==> t[j].name != name
    ensures r.Some? ==>
      && from <= r.value < |t|
      && t[r.value].name == name
      && forall j :: from <= j < r.value ==> t[j].name != name
    decreases |t| - from
  {
    if from == |t| then None
    else if t[from].name == name then Some(from)
    else FindFrom(t, name, from + 1)
  }

  /** The row label the sell button picks: the first match, if any. */
  function FirstMatch(t: Table, name: string): (r: Option<nat>)
    ensures r.None? <==> Absent(t, name)
    ensures r.Some? ==> IsFirst(t, name, r.value)
  {
    FindFrom(t, name, 0)
  }

  /** The sell button changes the table: the first record of the name has stock. */
  predicate CanSell(t: Table, name: string)
  {
    var m := FirstMatch(t, name);
    m.Some? && t[m.value].stock > 0
  }

  /** The record after one unit of it is sold. */
  function SellOne(p: Product): (q: Product)
    ensures q.stock == p.stock - 1 && q.sold == p.sold + 1
    ensures q.(stock := p.stock, sold := p.sold) == p
  {
    p.(stock := p.stock - 1, sold := p.sold + 1)
  }

  /** The sell button: only the first record of the name is looked at; when
      it has stock, one unit moves from stock to sold and nothing else
      changes; otherwise the table is returned as it was. */
  function Sell(t: Table, name: string): (r: Table)
    ensures |r| == |t|
    ensures !CanSell(t, name) ==> r == t
    ensures CanSell(t, name) ==>
      var i := FirstMatch(t, name).value;
      && r[i] == SellOne(t[i])
      && forall j :: 0 <= j < |t| && j != i ==> r[j] == t[j]
  {
    match FirstMatch(t, name)
    case None => t
    case Some(i) =>
      if t[i].stock > 0 then t[i := SellOne(t[i])] else t
  }
}
