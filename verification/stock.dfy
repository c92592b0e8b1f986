/** Stock adjustment: invoice lines debit stock when saved, give back the
    old quantity before re-debiting on an edit, and credit stock when
    deleted; a sale document debits (cash, cashless) or credits (return)
    every line's product. */
module Stock {
  import opened Base
  import opened Entities

  type Products = map<ProductId, Product>

  /** Adds `q` units to product `p` (a negative `q` takes them away). */
  function Credit(products: Products, p: ProductId, q: int): (r: Products)
    requires p in products
    ensures r.Keys == products.Keys
    ensures r[p] == products[p].(quantity := products[p].quantity + q)
    ensures forall x :: x in products && x != p ==> r[x] == products[x]
  {
    products[p := products[p].(quantity := products[p].quantity + q)]
  }

  /** No product is below zero. */
  predicate NonNegative(products: Products) {
    forall p :: p in products ==> products[p].quantity >= 0
  }

  /** Every line asks for no more than its product's current stock. */
  predicate WithinStock(products: Products, items: seq<Item>)
    requires ProductsKnown(products, items)
  {
    forall i :: 0 <= i < |items| ==> items[i].quantity <= products[items[i].product].quantity
  }

  /** `InvoiceItem.clean`: a line may not ask for more than the stock. */
  function CleanInvoiceItem(products: Products, item: Item): (r: Result<()>)
    requires item.product in products
    ensures r.Ok? <==> item.quantity <= products[item.product].quantity
    ensures r.Err? ==> r.error == InsufficientStock
  {
    if item.quantity > products[item.product].quantity then Err(InsufficientStock) else Ok(())
  }

  /** `InvoiceItem.save` as the source writes it. `stored` is the line as
      it is in the database (None for a new line). The line is first
      checked by `clean` against the current stock; for an edit the stored
      quantity is then added back to the line's (current) product, the
      new quantity is checked again and debited. */
  function SaveInvoiceItemAsWritten(products: Products, item: Item, stored: Option<Item>): (r: Result<Products>)
    requires item.product in products
    ensures r.Err? ==> r.error == InsufficientStock
    ensures stored.None? ==>
      (r.Ok? <==> item.quantity <= products[item.product].quantity)
    ensures stored.Some? ==>
      (r.Ok? <==> item.quantity <= products[item.product].quantity
                  && item.quantity <= products[item.product].quantity + stored.value.quantity)
    ensures r.Ok? ==> r.value == Credit(products, item.product, (if stored.Some? then stored.value.quantity else 0) - item.quantity)
  {
    if CleanInvoiceItem(products, item).Err? then Err(InsufficientStock)
    else
      var available := products[item.product].quantity + (if stored.Some? then stored.value.quantity else 0);
      if item.quantity > available then Err(InsufficientStock)
      else Ok(Credit(products, item.product, available - products[item.product].quantity - item.quantity))
  }

  /** `InvoiceItem.save` with the edit handled as a reversal followed by a
      fresh debit: the stored quantity goes back to the stored line's
      product, then the new quantity is checked and debited. */
  function SaveInvoiceItem(products: Products, item: Item, stored: Option<Item>): (r: Result<Products>)
    requires item.product in products
    requires stored.Some? ==> stored.value.product in products
    ensures r.Err? ==> r.error == InsufficientStock
    ensures r.Ok? <==> item.quantity <= Restock(products, stored)[item.product].quantity
    ensures r.Ok? ==> r.value.Keys == products.Keys
    ensures r.Ok? ==> forall p :: p in products ==>
      r.value[p].quantity == products[p].quantity + StoredQuantity(stored, p) - (if p == item.product then item.quantity else 0)
    ensures r.Ok? ==> forall p :: p in products ==> r.value[p].price == products[p].price
    ensures r.Ok? && NonNegative(products) && (stored.Some? ==> stored.value.quantity >= 0) ==> NonNegative(r.value)
  {
    var restocked := Restock(products, stored);
    if item.quantity > restocked[item.product].quantity then Err(InsufficientStock)
    else Ok(Credit(restocked, item.product, -item.quantity))
  }

  /** The quantity of product `p` held by the stored line, 0 if none. */
  function StoredQuantity(stored: Option<Item>, p: ProductId): int {
    if stored.Some? && stored.value.product == p then stored.value.quantity else 0
  }

  /** Gives the stored line's quantity back to its product. */
  function Restock(products: Products, stored: Option<Item>): (r: Products)
    requires stored.Some? ==> stored.value.product in products
    ensures r.Keys == products.Keys
    ensures forall p :: p in products ==> r[p] == products[p].(quantity := products[p].quantity + StoredQuantity(stored, p))
  {
    if stored.Some? then Credit(products, stored.value.product, stored.value.quantity) else products
  }

  /** `InvoiceItem.delete`: the line's quantity returns to stock. */
  function DeleteInvoiceItem(products: Products, item: Item): (r: Products)
    requires item.product in products
    ensures r.Keys == products.Keys
    ensures r[item.product].quantity == products[item.product].quantity + item.quantity
    ensures forall p :: p in products && p != item.product ==> r[p] == products[p]
  {
    Credit(products, item.product, item.quantity)
  }

  /** Saving a new line and deleting it again leaves the stock as it was. */
  lemma SaveThenDeleteRestoresStock(products: Products, item: Item)
    requires item.product in products
    requires SaveInvoiceItem(products, item, None).Ok?
    ensures DeleteInvoiceItem(SaveInvoiceItem(products, item, None).value, item) == products
  {
    var saved := SaveInvoiceItem(products, item, None).value;
    var back := DeleteInvoiceItem(saved, item);
    assert forall p :: p in products ==> back[p] == products[p];
  }

  /** For a new line the two versions of `save` agree. */
  lemma SaveVersionsAgreeOnNewLines(products: Products, item: Item)
    requires item.product in products
    ensures SaveInvoiceItemAsWritten(products, item, None) == SaveInvoiceItem(products, item, None)
  {
  }

  /** With the corrected `save`, editing a saved line to `edited` has the
      same effect on stock as saving `edited` as a fresh line. */
  lemma EditActsAsFreshSave(products: Products, line: Item, edited: Item)
    requires line.product in products && edited.product in products
    requires SaveInvoiceItem(products, line, None).Ok?
    ensures SaveInvoiceItem(SaveInvoiceItem(products, line, None).value, edited, Some(line))
            == SaveInvoiceItem(products, edited, None)
  {
    var saved := SaveInvoiceItem(products, line, None).value;
    assert Restock(saved, Some(line)) == products;
  }

  /** A line of 5 units is stored and the product's stock is now 0; editing
      it down to 3 fails in the source's `save`, because `clean` checks 3
      against the bare stock 0 before the 5 stored units are given back.
      The corrected `save` accepts it and leaves 2 in stock. */
  lemma EditBelowStoredQuantityRejected()
    ensures var products := map[1 := Product("Widget", 100, 0)];
      && SaveInvoiceItemAsWritten(products, Item(1, 3, 100), Some(Item(1, 5, 100))) == Err(InsufficientStock)
      && SaveInvoiceItem(products, Item(1, 3, 100), Some(Item(1, 5, 100))).Ok?
      && SaveInvoiceItem(products, Item(1, 3, 100), Some(Item(1, 5, 100))).value[1].quantity == 2
  {
  }

  /** A stored line of 3 units of product 1 is edited to 3 units of product
      2 (both at 5 in stock). The source's `save` gives the 3 units back to
      product 2 and takes them from product 2 again: stock stays 5 and 5.
      The corrected `save` returns them to product 1: 8 and 2. */
  lemma EditChangingProductMisplacesStock()
    ensures var products := map[1 := Product("Mouse", 100, 5), 2 := Product("Keyboard", 200, 5)];
      var asWritten := SaveInvoiceItemAsWritten(products, Item(2, 3, 200), Some(Item(1, 3, 100)));
      var corrected := SaveInvoiceItem(products, Item(2, 3, 200), Some(Item(1, 3, 100)));
      && asWritten.Ok? && asWritten.value[1].quantity == 5 && asWritten.value[2].quantity == 5
      && corrected.Ok? && corrected.value[1].quantity == 8 && corrected.value[2].quantity == 2
  {
  }

  /** The total quantity of product `p` over the lines. */
  function QuantityOf(items: seq<Item>, p: ProductId): int {
    if items == [] then 0
    else QuantityOf(items[..|items| - 1], p) + (if items[|items| - 1].product == p then items[|items| - 1].quantity else 0)
  }

  /** The stock change a document of type `t` makes for `q` units: a
      return brings them back, a sale takes them away. */
  function Signed(t: DocType, q: int): int {
    if t == Return then q else -q
  }

  /** `SaleDocument.update_product_quantities`: walks the lines in order;
      a return credits each line's product with the line's quantity, a
      cash or cashless sale debits it. */
  function UpdateProductQuantities(products: Products, typ: DocType, items: seq<Item>): (r: Products)
    requires ProductsKnown(products, items)
    ensures r.Keys == products.Keys
    ensures forall p :: p in products ==>
      r[p] == products[p].(quantity := products[p].quantity + Signed(typ, QuantityOf(items, p)))
  {
    if items == [] then products
    else
      var last := items[|items| - 1];
      var before := UpdateProductQuantities(products, typ, items[..|items| - 1]);
      Credit(before, last.product, Signed(typ, last.quantity))
  }

  lemma {:induction false} QuantityOfAbsent(items: seq<Item>, p: ProductId)
    requires forall i :: 0 <= i < |items| ==> items[i].product != p
    ensures QuantityOf(items, p) == 0
  {
    if items != [] {
      QuantityOfAbsent(items[..|items| - 1], p);
    }
  }

  /** A product on no line of the document keeps its stock. */
  lemma UntouchedProductsUnchanged(products: Products, typ: DocType, items: seq<Item>, p: ProductId)
    requires ProductsKnown(products, items) && p in products
    requires forall i :: 0 <= i < |items| ==> items[i].product != p
    ensures UpdateProductQuantities(products, typ, items)[p] == products[p]
  {
    QuantityOfAbsent(items, p);
  }

  /** A return of exactly the lines of a sale puts the stock back. */
  lemma ReturnUndoesSale(products: Products, saleType: DocType, items: seq<Item>)
    requires IsSale(saleType) && ProductsKnown(products, items)
    ensures UpdateProductQuantities(UpdateProductQuantities(products, saleType, items), Return, items) == products
  {
    var sold := UpdateProductQuantities(products, saleType, items);
    var back := UpdateProductQuantities(sold, Return, items);
    assert forall p :: p in products ==> back[p] == products[p];
  }

  /** Under the unique (document, product) constraint, a product's total
      quantity on the document is the quantity of its single line. */
  lemma {:induction false} QuantityOfUnique(items: seq<Item>, k: nat)
    requires UniqueProducts(items) && k < |items|
    ensures QuantityOf(items, items[k].product) == items[k].quantity
  {
    var p := items[k].product;
    var n := |items| - 1;
    if k == n {
      QuantityOfAbsent(items[..n], p);
    } else {
      QuantityOfUnique(items[..n], k);
    }
  }

  /** A sale whose every line is within stock, with one line per product,
      leaves no product below zero. */
  lemma SaleKeepsStockNonNegative(products: Products, typ: DocType, items: seq<Item>)
    requires IsSale(typ)
    requires ProductsKnown(products, items) && UniqueProducts(items)
    requires NonNegative(products) && WithinStock(products, items)
    ensures NonNegative(UpdateProductQuantities(products, typ, items))
  {
    var r := UpdateProductQuantities(products, typ, items);
    forall p | p in products
      ensures r[p].quantity >= 0
    {
      if k :| 0 <= k < |items| && items[k].product == p {
        QuantityOfUnique(items, k);
      } else {
        QuantityOfAbsent(items, p);
      }
    }
  }
}
