/** Saving invoices and marking them paid. A paid invoice gets exactly one
    cashless sale document linked to it. */
module Invoices {
  import opened Base
  import opened Entities
  import opened Selection
  import opened Numbering

  /** Writes an invoice to the store: the stored invoice with the same id is
      replaced, or the invoice is added after the others. */
  function PutInvoice(invoices: seq<Invoice>, inv: Invoice): (r: seq<Invoice>)
    ensures FindInvoice(r, inv.id) == Some(inv)
    ensures forall x :: x != inv.id ==> FindInvoice(r, x) == FindInvoice(invoices, x)
    ensures |r| == |invoices| + (if FindInvoice(invoices, inv.id).None? then 1 else 0)
  {
    if invoices == [] then [inv]
    else if invoices[0].id == inv.id then [inv] + invoices[1..]
    else
      var rest := PutInvoice(invoices[1..], inv);
      assert ([invoices[0]] + rest)[1..] == rest;
      assert (invoices[0 := inv])[1..] == invoices[1..];
      [invoices[0]] + rest
  }

  /** Whether a sale document is already linked to the invoice (the
      reverse one-to-one `sale_document`). */
  function HasSale(docs: seq<SaleDocument>, id: InvoiceId): (r: bool)
    ensures r <==> exists i :: 0 <= i < |docs| && docs[i].invoice == Some(id)
  {
    SelectMembership(docs, ForInvoice(id));
    if Select(docs, ForInvoice(id)) == [] then
      assert forall i :: 0 <= i < |docs| ==> docs[i] !in Select(docs, ForInvoice(id));
      false
    else
      assert Select(docs, ForInvoice(id))[0] in docs;
      true
  }

  /** The cashless sale the paid hook creates: the invoice's customer and
      total, no lines, dated `today`, numbered on save. */
  function PaidSale(inv: Invoice, today: Date): SaleDocument {
    SaleDocument(0, Cashless, "", today, inv.total, inv.customer, Some(inv.id), "", None, "", [])
  }

  /** `Invoice.number` is `unique=True`: an invoice other than `id` holds
      `number` (the invoice's own row is updated, not inserted). */
  predicate InvoiceNumberTaken(invoices: seq<Invoice>, id: InvoiceId, number: string) {
    exists i :: 0 <= i < |invoices| && invoices[i].id != id && invoices[i].number == number
  }

  /** `Invoice.save`: a new invoice without a number is numbered in the
      invoice series; a paid invoice without a linked sale gets one, created
      before the invoice row is written, so a refused sale number stops the
      save first; then the invoice is written, and a number another invoice
      holds is refused. */
  function SaveInvoice(store: Store, inv: Invoice, today: Date): (r: Result<Store>)
    ensures inv.number != "" && (!inv.isPaid || HasSale(store.docs, inv.id)) ==>
      (r.Ok? <==> !InvoiceNumberTaken(store.invoices, inv.id, inv.number))
    ensures inv.number == "" && NextInvoiceNumber(store.invoices).Err? ==> r == Err(MalformedNumber)
    ensures r.Err? ==> r.error in {MalformedNumber, DuplicateNumber}
    ensures r == Err(MalformedNumber) ==>
      || (inv.number == "" && NextInvoiceNumber(store.invoices).Err?)
      || (inv.isPaid && !HasSale(store.docs, inv.id) && NextSaleNumber(store.docs, Cashless).Err?)
    ensures r.Ok? ==> r.value.products == store.products && r.value.customers == store.customers
    ensures r.Ok? ==> FindInvoice(r.value.invoices, inv.id).Some?
    ensures r.Ok? ==> FindInvoice(r.value.invoices, inv.id).value
                      == inv.(number := if inv.number == "" then NextInvoiceNumber(store.invoices).value else inv.number)
    ensures r.Ok? ==> forall x :: x != inv.id ==> FindInvoice(r.value.invoices, x) == FindInvoice(store.invoices, x)
    ensures r.Ok? ==> !InvoiceNumberTaken(store.invoices, inv.id, FindInvoice(r.value.invoices, inv.id).value.number)
    ensures r.Ok? && (!inv.isPaid || HasSale(store.docs, inv.id)) ==> r.value.docs == store.docs
    ensures r.Ok? && inv.isPaid ==> HasSale(r.value.docs, inv.id)
    ensures r.Ok? && inv.isPaid && !HasSale(store.docs, inv.id) ==>
      && |r.value.docs| == |store.docs| + 1
      && r.value.docs[..|store.docs|] == store.docs
      && var sale := r.value.docs[|store.docs|];
         sale.typ == Cashless && sale.invoice == Some(inv.id) && sale.customer == inv.customer
         && sale.total == inv.total && sale.items == [] && sale.id == NextDocId(store.docs)
         && !NumberHeld(store.docs, sale.number)
  {
    var number :- if inv.number == "" then NextInvoiceNumber(store.invoices) else Ok(inv.number);
    var saved := inv.(number := number);
    var docs :- if saved.isPaid && !HasSale(store.docs, saved.id)
                then CreateDocument(store.docs, PaidSale(saved, today))
                else Ok(store.docs);
    if InvoiceNumberTaken(store.invoices, saved.id, number) then Err(DuplicateNumber)
    else Ok(store.(invoices := PutInvoice(store.invoices, saved), docs := docs))
  }

  /** Saving an invoice keeps sale document numbers unique: the sale a paid
      invoice gets is created under the unique constraint. */
  lemma SaveKeepsNumbersDistinct(store: Store, inv: Invoice, today: Date)
    requires NumbersDistinct(store.docs) && SaveInvoice(store, inv, today).Ok?
    ensures NumbersDistinct(SaveInvoice(store, inv, today).value.docs)
  {
    var number := if inv.number == "" then NextInvoiceNumber(store.invoices).value else inv.number;
    var saved := inv.(number := number);
    if saved.isPaid && !HasSale(store.docs, saved.id) {
      CreateKeepsNumbersDistinct(store.docs, PaidSale(saved, today));
    }
  }

  /** After a successful save no other invoice shares the saved invoice's
      number: the unique constraint on `Invoice.number` holds for it. */
  lemma SavedInvoiceNumberUnique(store: Store, inv: Invoice, today: Date, other: InvoiceId)
    requires SaveInvoice(store, inv, today).Ok? && other != inv.id
    requires FindInvoice(SaveInvoice(store, inv, today).value.invoices, other).Some?
    ensures var invoices := SaveInvoice(store, inv, today).value.invoices;
            FindInvoice(invoices, other).value.number != FindInvoice(invoices, inv.id).value.number
  {
    var invoices := SaveInvoice(store, inv, today).value.invoices;
    var o := FindInvoice(store.invoices, other).value;
    var k :| 0 <= k < |store.invoices| && store.invoices[k] == o;
  }

  /** `mark_invoice_paid`: an unknown id is not found; an unpaid invoice is
      set paid and saved; a paid one is left alone. */
  function MarkInvoicePaid(store: Store, id: InvoiceId, today: Date): (r: Result<Store>)
    ensures FindInvoice(store.invoices, id).None? <==> r == Err(NotFound)
    ensures FindInvoice(store.invoices, id).Some? && FindInvoice(store.invoices, id).value.isPaid ==> r == Ok(store)
    ensures r.Ok? ==> FindInvoice(r.value.invoices, id).Some? && FindInvoice(r.value.invoices, id).value.isPaid
    ensures r.Ok? ==> HasSale(r.value.docs, id) || r == Ok(store)
    ensures r.Ok? ==> r.value.products == store.products
  {
    match FindInvoice(store.invoices, id)
    case None => Err(NotFound)
    case Some(inv) =>
      if inv.isPaid then Ok(store)
      else
        var r := SaveInvoice(store, inv.(isPaid := true), today);
        if r.Err? then Err(r.error) else r
  }

  /** Marking an invoice paid a second time changes nothing. */
  lemma MarkPaidIdempotent(store: Store, id: InvoiceId, today: Date, later: Date)
    requires MarkInvoicePaid(store, id, today).Ok?
    ensures var once := MarkInvoicePaid(store, id, today).value;
            MarkInvoicePaid(once, id, later) == Ok(once)
  {
  }

  /** Appending a cashless sale linked to an invoice that had none leaves
      exactly one sale linked to it. */
  lemma AppendLinkedSale(docs: seq<SaleDocument>, sale: SaleDocument, id: InvoiceId)
    requires !HasSale(docs, id) && sale.invoice == Some(id) && sale.typ == Cashless
    ensures |Select(docs + [sale], ForInvoice(id))| == 1
    ensures OfType(docs + [sale], Cashless) == OfType(docs, Cashless) + [sale]
  {
    SelectConcat(docs, [sale], ForInvoice(id));
    SelectConcat(docs, [sale], OfKind(Cashless));
    SelectKeepsNone(docs, ForInvoice(id));
    assert [sale][..0] == [];
    assert Select([sale], ForInvoice(id)) == [sale];
    assert Select([sale], OfKind(Cashless)) == [sale];
  }

  /** Saving a paid invoice with no linked sale links exactly one: the
      new cashless sale, appended to its series. */
  lemma SavePaidLinksOneSale(store: Store, inv: Invoice, today: Date)
    requires inv.isPaid && !HasSale(store.docs, inv.id)
    requires SaveInvoice(store, inv, today).Ok?
    ensures var saved := SaveInvoice(store, inv, today).value;
            |Select(saved.docs, ForInvoice(inv.id))| == 1
            && OfType(saved.docs, Cashless) == OfType(store.docs, Cashless) + [saved.docs[|store.docs|]]
  {
    var docs := SaveInvoice(store, inv, today).value.docs;
    var sale := docs[|store.docs|];
    assert docs == store.docs + [sale];
    AppendLinkedSale(store.docs, sale, inv.id);
  }

  /** Marking a stored, unpaid invoice with no linked sale paid links
      exactly one cashless sale to it; marking it again (see
      `MarkPaidIdempotent`) keeps exactly one. */
  lemma MarkPaidLinksOneSale(store: Store, id: InvoiceId, today: Date)
    requires FindInvoice(store.invoices, id).Some? && !FindInvoice(store.invoices, id).value.isPaid
    requires !HasSale(store.docs, id)
    requires MarkInvoicePaid(store, id, today).Ok?
    ensures |Select(MarkInvoicePaid(store, id, today).value.docs, ForInvoice(id))| == 1
  {
    var inv := FindInvoice(store.invoices, id).value;
    assert MarkInvoicePaid(store, id, today) == SaveInvoice(store, inv.(isPaid := true), today);
    SavePaidLinksOneSale(store, inv.(isPaid := true), today);
  }
}
