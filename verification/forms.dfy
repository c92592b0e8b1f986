/** The form-level rules: the report form's date-range check, a line
    form's quantity check, the sale document form's cross-field checks and
    the choice lists the forms offer. */
module Forms {
  import opened Base
  import opened Entities
  import opened Selection
  import opened Stock
  import opened Validation

  /** A date field of a request: absent or empty, present but not a
      `%Y-%m-%d` date, or a date. The journal swallows the malformed case
      (its `ValueError`); the report form's `DateField` refuses it. */
  datatype DateParam = NoDate | Malformed | OnDate(day: Date)

  /** The date a parsed field holds, None for an absent one. */
  function DateOf(p: DateParam): Option<Date> {
    if p.OnDate? then Some(p.day) else None
  }

  /** `SalesReportForm.report_type`: the empty choice selects every type,
      the three type keys select their type, any other text is refused. */
  function ReportChoice(key: string): (r: Option<Option<DocType>>)
    ensures r == Some(None) <==> key == ""
    ensures forall t :: r == Some(Some(t)) <==> TypeKey(t) == key
    ensures r.None? <==> key != "" && forall t :: TypeKey(t) != key
  {
    if key == "" then Some(None)
    else if key == TypeKey(Cash) then Some(Some(Cash))
    else if key == TypeKey(Cashless) then Some(Some(Cashless))
    else if key == TypeKey(Return) then Some(Some(Return))
    else None
  }

  /** `SalesReportForm.clean`: only an inverted pair of bounds is refused;
      a missing bound always passes. */
  function CleanReportForm(start: Option<Date>, end: Option<Date>): (r: Result<()>)
    ensures r.Err? <==> start.Some? && end.Some? && start.value > end.value
    ensures r.Err? ==> r.error == DateRangeInverted
  {
    match (start, end)
    case (Some(s), Some(e)) => if s > e then Err(DateRangeInverted) else Ok(())
    case _ => Ok(())
  }

  /** `DocumentItemForm.clean_quantity`. `product` is the chosen product
      (None when the product field did not validate), `document` the form's
      document and `original` that document's original sale. An accepted
      quantity comes back unchanged. */
  function CleanQuantity(products: Products, quantity: int, product: Option<ProductId>,
                         document: Option<SaleDocument>, original: Option<SaleDocument>): (r: Result<int>)
    requires product.Some? ==> product.value in products
    ensures r.Ok? ==> r.value == quantity
    ensures product.None? || document.None? ==> r == Ok(quantity)
    ensures product.Some? && document.Some? && IsSale(document.value.typ) ==>
      (r.Ok? <==> quantity <= products[product.value].quantity)
    ensures product.Some? && document.Some? && document.value.typ == Return && original.Some? ==>
      var line := FindItem(original.value.items, product.value);
      && (r == Err(ProductNotInOriginal) <==> line.None?)
      && (r.Ok? <==> line.Some? && quantity <= line.value.quantity)
    ensures product.Some? && document.Some? && document.value.typ == Return && original.None? ==> r == Ok(quantity)
    ensures r.Err? ==> r.error in {InsufficientStock, ProductNotInOriginal, ReturnExceedsOriginal}
  {
    if product.None? || document.None? then Ok(quantity)
    else
      var p, doc := product.value, document.value;
      if IsSale(doc.typ) && quantity > products[p].quantity then Err(InsufficientStock)
      else if doc.typ == Return && original.Some? then
        match FindItem(original.value.items, p)
        case None => Err(ProductNotInOriginal)
        case Some(line) => if quantity > line.quantity then Err(ReturnExceedsOriginal) else Ok(quantity)
      else Ok(quantity)
  }

  /** On a return the form's quantity check and the line's model-level
      `clean` accept and refuse the same lines. */
  lemma QuantityCheckMatchesLineClean(products: Products, item: Item, document: SaleDocument, original: Option<SaleDocument>)
    requires item.product in products && document.typ == Return
    ensures CleanQuantity(products, item.quantity, Some(item.product), Some(document), original).Ok?
            <==> CleanDocumentItem(item, document, original).Ok?
  {
  }

  /** On a sale the form's quantity check agrees with the stock check of
      `SaleDocument.clean` on a one-line document. */
  lemma QuantityCheckMatchesStockCheck(products: Products, item: Item, document: SaleDocument)
    requires item.product in products && IsSale(document.typ)
    ensures CleanQuantity(products, item.quantity, Some(item.product), Some(document), None).Ok?
            <==> CheckStock(products, [item]).Ok?
  {
    assert [item][0] == item;
    assert WithinStock(products, [item]) <==> item.quantity <= products[item.product].quantity;
  }

  /** `SaleDocumentForm.clean`. `docType` is the form's type, falling back to
      the instance's (None when neither is set: then nothing is checked);
      `invoice`, `original` and `customer` are the cleaned fields, None
      when missing. */
  function CleanSaleDocumentForm(docType: Option<DocType>, invoice: Option<Invoice>,
                                 original: Option<SaleDocument>, customer: Option<CustomerId>): (r: Result<()>)
    ensures r.Ok? <==>
      && (docType == Some(Cashless) && invoice.Some? ==> invoice.value.isPaid)
      && (docType == Some(Return) && original.Some? ==> customer == Some(original.value.customer))
    ensures r.Err? ==> (r.error == UnpaidInvoice <==> docType == Some(Cashless))
    ensures r.Err? ==> (r.error == CustomerMismatch <==> docType == Some(Return))
    ensures docType.None? || docType == Some(Cash) ==> r == Ok(())
  {
    if docType == Some(Cashless) && invoice.Some? && !invoice.value.isPaid then Err(UnpaidInvoice)
    else if docType == Some(Return) && original.Some? && customer != Some(original.value.customer) then Err(CustomerMismatch)
    else Ok(())
  }

  /** The invoices a cashless sale form offers: the paid ones. */
  function PaidInvoices(invoices: seq<Invoice>): (r: seq<Invoice>)
    ensures |r| <= |invoices|
    ensures forall v :: v in r <==> v in invoices && v.isPaid
  {
    if invoices == [] then []
    else
      var init, last := invoices[..|invoices| - 1], invoices[|invoices| - 1];
      assert invoices == init + [last];
      PaidInvoices(init) + (if last.isPaid then [last] else [])
  }

  /** The documents a return form offers as original sale: cash and
      cashless sales. */
  function OriginalSaleChoices(docs: seq<SaleDocument>): (r: seq<SaleDocument>)
    ensures forall d :: d in r <==> d in docs && IsSale(d.typ)
  {
    SelectMembership(docs, NotOfKind(Return));
    Select(docs, NotOfKind(Return))
  }

  /** The customers an invoice form offers: companies. */
  function CompanyCustomers(customers: seq<Customer>): (r: seq<Customer>)
    ensures |r| <= |customers|
    ensures forall c :: c in r <==> c in customers && c.isCompany
  {
    if customers == [] then []
    else
      var init, last := customers[..|customers| - 1], customers[|customers| - 1];
      assert customers == init + [last];
      CompanyCustomers(init) + (if last.isCompany then [last] else [])
  }

  /** An invoice picked from the cashless form's choices passes both the
      form's check and the invoice checks of `SaleDocument.clean`. */
  lemma ChosenInvoicePassesChecks(invoices: seq<Invoice>, invoice: Invoice, products: Products, doc: SaleDocument)
    requires invoice in PaidInvoices(invoices)
    requires doc.typ == Cashless && ProductsKnown(products, doc.items) && WithinStock(products, doc.items)
    ensures CleanSaleDocumentForm(Some(Cashless), Some(invoice), None, None).Ok?
    ensures CleanSaleDocument(products, doc, Some(invoice), None).Ok?
  {
  }

  /** A sale picked from the return form's choices passes the original-sale
      checks of `SaleDocument.clean`. */
  lemma ChosenOriginalPassesChecks(docs: seq<SaleDocument>, original: SaleDocument, products: Products, doc: SaleDocument)
    requires original in OriginalSaleChoices(docs)
    requires doc.typ == Return && ProductsKnown(products, doc.items)
    ensures CleanSaleDocument(products, doc, None, Some(original)).Ok?
  {
  }
}
