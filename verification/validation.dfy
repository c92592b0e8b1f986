/** The model-level `clean` rules of sale documents and their lines, and
    `can_create_return`. References the source follows through foreign
    keys (`self.invoice`, `self.original_sale`) are passed in already
    resolved: None stands for an empty link. */
module Validation {
  import opened Base
  import opened Entities
  import opened Selection
  import opened Stock

  /** The stock loop of `SaleDocument.clean`: the lines in order, failing at
      the first one that asks for more than its product's stock. */
  function CheckStock(products: Products, items: seq<Item>): (r: Result<()>)
    requires ProductsKnown(products, items)
    ensures r.Ok? <==> WithinStock(products, items)
    ensures r.Err? ==> r.error == InsufficientStock
  {
    if items == [] then Ok(())
    else if items[0].quantity > products[items[0].product].quantity then Err(InsufficientStock)
    else
      var rest := CheckStock(products, items[1..]);
      assert WithinStock(products, items) <==> WithinStock(products, items[1..]) by {
        assert forall i :: 1 <= i < |items| ==> items[i] == items[1..][i - 1];
      }
      rest
  }

  /** `SaleDocument.clean`, its checks in the source's order. */
  function CleanSaleDocument(products: Products, doc: SaleDocument, invoice: Option<Invoice>, original: Option<SaleDocument>): (r: Result<()>)
    requires ProductsKnown(products, doc.items)
    ensures r.Ok? <==>
      && (doc.typ == Cashless ==> invoice.Some? && invoice.value.isPaid)
      && (doc.typ == Return ==> original.Some? && original.value.typ != Return)
      && (doc.typ == Cash ==> doc.cashRegister != "")
      && (IsSale(doc.typ) ==> WithinStock(products, doc.items))
    ensures doc.typ == Cashless && invoice.None? ==> r == Err(MissingInvoice)
    ensures doc.typ == Cashless && invoice.Some? && !invoice.value.isPaid ==> r == Err(UnpaidInvoice)
    ensures doc.typ == Return && original.None? ==> r == Err(MissingOriginalSale)
    ensures doc.typ == Return && original.Some? && original.value.typ == Return ==> r == Err(ReturnOfReturn)
    ensures doc.typ == Cash && doc.cashRegister == "" ==> r == Err(MissingCashRegister)
    ensures r == Err(InsufficientStock) ==> IsSale(doc.typ) && !WithinStock(products, doc.items)
  {
    if doc.typ == Cashless && invoice.None? then Err(MissingInvoice)
    else if doc.typ == Cashless && !invoice.value.isPaid then Err(UnpaidInvoice)
    else if doc.typ == Return && original.None? then Err(MissingOriginalSale)
    else if doc.typ == Return && original.value.typ == Return then Err(ReturnOfReturn)
    else if doc.typ == Cash && doc.cashRegister == "" then Err(MissingCashRegister)
    else if IsSale(doc.typ) then CheckStock(products, doc.items)
    else Ok(())
  }

  /** `can_create_return`: a sale with no return against it yet. */
  function CanCreateReturn(doc: SaleDocument, docs: seq<SaleDocument>): (r: bool)
    ensures r <==> IsSale(doc.typ) && forall i :: 0 <= i < |docs| ==> docs[i].originalSale != Some(doc.id)
  {
    SelectMembership(docs, ReturnsOf(doc.id));
    if Select(docs, ReturnsOf(doc.id)) == [] then
      assert forall i :: 0 <= i < |docs| ==> docs[i] !in Select(docs, ReturnsOf(doc.id));
      IsSale(doc.typ)
    else
      assert Select(docs, ReturnsOf(doc.id))[0] in docs;
      false
  }

  /** Nothing on the save path asks `can_create_return`: a return against
      a sale that already has one passes `clean`, although the sale can no
      longer take a return. */
  lemma CleanAllowsSecondReturn(products: Products, docs: seq<SaleDocument>, sale: SaleDocument, ret: SaleDocument, k: nat)
    requires ProductsKnown(products, ret.items)
    requires sale.typ != Return && ret.typ == Return
    requires k < |docs| && docs[k].originalSale == Some(sale.id)
    ensures CleanSaleDocument(products, ret, None, Some(sale)) == Ok(())
    ensures !CanCreateReturn(sale, docs)
  {
  }

  /** `DocumentItem.clean`: a line of a return with an original sale must
      name a product of that sale, in no greater quantity than sold there. */
  function CleanDocumentItem(item: Item, document: SaleDocument, original: Option<SaleDocument>): (r: Result<()>)
    ensures document.typ != Return || original.None? ==> r == Ok(())
    ensures document.typ == Return && original.Some? ==>
      var line := FindItem(original.value.items, item.product);
      && (r == Err(ProductNotInOriginal) <==> forall i :: 0 <= i < |original.value.items| ==> original.value.items[i].product != item.product)
      && (r == Err(ReturnExceedsOriginal) <==> line.Some? && item.quantity > line.value.quantity)
      && (r.Ok? <==> line.Some? && item.quantity <= line.value.quantity)
  {
    if document.typ == Return && original.Some? then
      match FindItem(original.value.items, item.product)
      case None => Err(ProductNotInOriginal)
      case Some(line) => if item.quantity > line.quantity then Err(ReturnExceedsOriginal) else Ok(())
    else Ok(())
  }

  /** With one line per product (the database's unique constraint), the
      line `items.get` finds is the one at the product's position. */
  lemma {:induction false} FindItemUnique(items: seq<Item>, k: nat)
    requires UniqueProducts(items) && k < |items|
    ensures FindItem(items, items[k].product) == Some(items[k])
  {
    if k > 0 {
      assert items[0].product != items[k].product;
      assert UniqueProducts(items[1..]) by {
        forall i, j | 0 <= i < j < |items| - 1 ensures items[1..][i].product != items[1..][j].product {
          assert items[1..][i] == items[i + 1] && items[1..][j] == items[j + 1];
        }
      }
      FindItemUnique(items[1..], k - 1);
      assert items[1..][k - 1] == items[k];
    }
  }

  /** A line of a return is accepted exactly when the original sale has a
      line for the same product with at least as many units. */
  lemma ReturnLineWithinOriginal(item: Item, document: SaleDocument, original: SaleDocument)
    requires document.typ == Return && UniqueProducts(original.items)
    ensures CleanDocumentItem(item, document, Some(original)).Ok? <==>
      exists i :: 0 <= i < |original.items| && original.items[i].product == item.product
                  && item.quantity <= original.items[i].quantity
  {
    if exists i :: 0 <= i < |original.items| && original.items[i].product == item.product {
      var i :| 0 <= i < |original.items| && original.items[i].product == item.product;
      FindItemUnique(original.items, i);
      forall j | 0 <= j < |original.items| && original.items[j].product == item.product
        ensures j == i
      {
      }
    }
  }

  /** The units a set of lines moves for product `p` are not negative when
      no line is. */
  lemma {:induction false} QuantityOfNonNegative(items: seq<Item>, p: ProductId)
    requires forall i :: 0 <= i < |items| ==> items[i].quantity >= 0
    ensures QuantityOf(items, p) >= 0
  {
    if items != [] {
      QuantityOfNonNegative(items[..|items| - 1], p);
    }
  }

  /** A document that passes `clean`, with one line per product and no
      negative quantity, leaves no product's stock below zero when its
      stock moves are applied. */
  lemma CleanDocumentKeepsStock(products: Products, doc: SaleDocument, invoice: Option<Invoice>, original: Option<SaleDocument>)
    requires ProductsKnown(products, doc.items) && UniqueProducts(doc.items)
    requires forall i :: 0 <= i < |doc.items| ==> doc.items[i].quantity >= 0
    requires NonNegative(products)
    requires CleanSaleDocument(products, doc, invoice, original).Ok?
    ensures NonNegative(UpdateProductQuantities(products, doc.typ, doc.items))
  {
    if IsSale(doc.typ) {
      SaleKeepsStockNonNegative(products, doc.typ, doc.items);
    } else {
      forall p | p in products ensures UpdateProductQuantities(products, doc.typ, doc.items)[p].quantity >= 0 {
        QuantityOfNonNegative(doc.items, p);
      }
    }
  }
}
