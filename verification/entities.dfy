/** The store's records: products with their stock, customers, invoices
    and sale documents with their line items. Money is held in kopecks so
    that the two-decimal arithmetic of the store stays exact; dates are day
    numbers, so `date - 7` is "a week earlier". */
module Entities {
  import opened Base

  type ProductId = nat
  type CustomerId = nat
  type InvoiceId = nat
  type DocId = nat

  /** An amount in kopecks (hundredths of a rouble). */
  type Money = int

  /** A calendar day, counted in days. */
  type Date = int

  /** The three kinds of sale document. */
  datatype DocType = Cashless | Cash | Return

  /** Cash and cashless documents sell goods; a return takes them back. */
  predicate IsSale(t: DocType) {
    t == Cash || t == Cashless
  }

  /** The stored type key of a document. */
  function TypeKey(t: DocType): string {
    match t
    case Cashless => "cashless"
    case Cash => "cash"
    case Return => "return"
  }

  /** Position of a type key in ascending string order:
      "cash" < "cashless" < "return". */
  function TypeRank(t: DocType): nat {
    match t
    case Cash => 0
    case Cashless => 1
    case Return => 2
  }

  /** The number prefix of each document series. */
  function Prefix(t: DocType): string {
    match t
    case Cashless => "БН"
    case Cash => "ТЧ"
    case Return => "ВР"
  }

  /** The number prefix of invoices, which form a single series. */
  const InvoicePrefix: string := "СЧ"

  datatype Product = Product(name: string, price: Money, quantity: int)

  datatype Customer = Customer(id: CustomerId, name: string, isCompany: bool)

  /** A line item of an invoice or a sale document: a product, how many,
      and the unit price captured on the line. */
  datatype Item = Item(product: ProductId, quantity: int, price: Money)

  datatype Invoice = Invoice(
    id: InvoiceId,
    number: string,
    date: Date,
    customer: CustomerId,
    isPaid: bool,
    total: Money,
    items: seq<Item>)

  /** A cash sale, cashless sale or return. `invoice` is used by cashless
      sales, `cashRegister` by cash sales, `originalSale` and `reason` by
      returns; the other kinds leave them empty. */
  datatype SaleDocument = SaleDocument(
    id: DocId,
    typ: DocType,
    number: string,
    date: Date,
    total: Money,
    customer: CustomerId,
    invoice: Option<InvoiceId>,
    cashRegister: string,
    originalSale: Option<DocId>,
    reason: string,
    items: seq<Item>)

  /** The whole back office. Invoices and documents are held in id order,
      as the database's auto-increment ids assign them. */
  datatype Store = Store(
    products: map<ProductId, Product>,
    customers: seq<Customer>,
    invoices: seq<Invoice>,
    docs: seq<SaleDocument>)

  /** A line's amount, price times quantity. */
  function ItemTotal(item: Item): Money {
    item.price * item.quantity
  }

  /** The sum of the line amounts, 0 for no lines. */
  function ItemsTotal(items: seq<Item>): Money {
    if items == [] then 0 else ItemsTotal(items[..|items| - 1]) + ItemTotal(items[|items| - 1])
  }

  /** The sum of the documents' totals, 0 for none. */
  function SumTotals(docs: seq<SaleDocument>): Money {
    if docs == [] then 0 else SumTotals(docs[..|docs| - 1]) + docs[|docs| - 1].total
  }

  /** One more document adds its total. */
  lemma {:induction false} SumTotalsAppend(a: seq<SaleDocument>, d: SaleDocument)
    ensures SumTotals(a + [d]) == SumTotals(a) + d.total
  {
    assert (a + [d])[..|a|] == a;
  }

  /** The database's unique (document, product) constraint on line items. */
  predicate UniqueProducts(items: seq<Item>) {
    forall i, j :: 0 <= i < j < |items| ==> items[i].product != items[j].product
  }

  /** Every line refers to a product that exists. */
  predicate ProductsKnown(products: map<ProductId, Product>, items: seq<Item>) {
    forall i :: 0 <= i < |items| ==> items[i].product in products
  }

  /** The ORM's `items.get(product=p)`: the line for product `p`, if any. */
  function FindItem(items: seq<Item>, p: ProductId): (r: Option<Item>)
    ensures r.Some? ==> r.value in items && r.value.product == p
    ensures r.None? <==> forall i :: 0 <= i < |items| ==> items[i].product != p
  {
    if items == [] then None
    else if items[0].product == p then Some(items[0])
    else FindItem(items[1..], p)
  }

  /** Looking a document up by id. */
  function FindDoc(docs: seq<SaleDocument>, id: DocId): (r: Option<SaleDocument>)
    ensures r.Some? ==> r.value in docs && r.value.id == id
    ensures r.None? <==> forall i :: 0 <= i < |docs| ==> docs[i].id != id
  {
    if docs == [] then None
    else if docs[0].id == id then Some(docs[0])
    else FindDoc(docs[1..], id)
  }

  /** Looking an invoice up by id. */
  function FindInvoice(invoices: seq<Invoice>, id: InvoiceId): (r: Option<Invoice>)
    ensures r.Some? ==> r.value in invoices && r.value.id == id
    ensures r.None? <==> forall i :: 0 <= i < |invoices| ==> invoices[i].id != id
  {
    if invoices == [] then None
    else if invoices[0].id == id then Some(invoices[0])
    else FindInvoice(invoices[1..], id)
  }

  /** Looking a customer up by id. */
  function FindCustomer(customers: seq<Customer>, id: CustomerId): (r: Option<Customer>)
    ensures r.Some? ==> r.value in customers && r.value.id == id
    ensures r.None? <==> forall i :: 0 <= i < |customers| ==> customers[i].id != id
  {
    if customers == [] then None
    else if customers[0].id == id then Some(customers[0])
    else FindCustomer(customers[1..], id)
  }
}

/** Query filters over documents, the model of the ORM's
    `filter`/`exclude` chains: a selector says which documents a filter
    keeps, and `Select` keeps them in their stored order. */
module Selection {
  import opened Base
  import opened Entities
  import opened Text

  datatype Selector =
    | OfKind(t: DocType)          // type == t
    | NotOfKind(t: DocType)       // exclude(type == t)
    | OnDay(day: Date)            // date == day
    | From(start: Date)           // date >= start
    | Until(end: Date)            // date <= end
    | Survives(removed: set<DocId>)  // not among the rows a delete removes
    | ForInvoice(inv: InvoiceId)  // invoice == inv
    | ReturnsOf(sale: DocId)      // original_sale == sale
    | KeyIs(key: string)          // type == key, the raw request text
    | NameHas(customers: seq<Customer>, text: string)  // customer__name__icontains=text
    | Both(a: Selector, b: Selector)
    | Anything

  predicate Selects(sel: Selector, d: SaleDocument) {
    match sel
    case OfKind(t) => d.typ == t
    case NotOfKind(t) => d.typ != t
    case OnDay(day) => d.date == day
    case From(start) => d.date >= start
    case Until(end) => d.date <= end
    case Survives(removed) => d.id !in removed
    case ForInvoice(inv) => d.invoice == Some(inv)
    case ReturnsOf(sale) => d.originalSale == Some(sale)
    case KeyIs(key) => TypeKey(d.typ) == key
    case NameHas(customers, text) => NameMatches(customers, text, d.customer)
    case Both(a, b) => Selects(a, d) && Selects(b, d)
    case Anything => true
  }

  /** The customer is known and the searched text occurs in their name,
      ignoring case. */
  predicate NameMatches(customers: seq<Customer>, text: string, id: CustomerId) {
    var c := FindCustomer(customers, id);
    c.Some? && IContains(c.value.name, text)
  }

  /** The documents `sel` keeps, in their stored order. */
  function Select(docs: seq<SaleDocument>, sel: Selector): (r: seq<SaleDocument>)
    ensures |r| <= |docs|
  {
    if docs == [] then []
    else Select(docs[..|docs| - 1], sel) + (if Selects(sel, docs[|docs| - 1]) then [docs[|docs| - 1]] else [])
  }

  /** A document is selected exactly when it is stored and `sel` keeps it. */
  lemma {:induction false} SelectMembership(docs: seq<SaleDocument>, sel: Selector)
    ensures forall d :: d in Select(docs, sel) <==> d in docs && Selects(sel, d)
    decreases |docs|
  {
    if docs != [] {
      var init := docs[..|docs| - 1];
      SelectMembership(init, sel);
      assert docs == init + [docs[|docs| - 1]];
    }
  }

  /** The documents of type `t`, in their stored order. */
  function OfType(docs: seq<SaleDocument>, t: DocType): seq<SaleDocument> {
    Select(docs, OfKind(t))
  }

  lemma {:induction false} SelectConcat(a: seq<SaleDocument>, b: seq<SaleDocument>, sel: Selector)
    ensures Select(a + b, sel) == Select(a, sel) + Select(b, sel)
    decreases |b|
  {
    if b == [] {
      assert a + b == a;
    } else {
      var b', x := b[..|b| - 1], b[|b| - 1];
      var tail := if Selects(sel, x) then [x] else [];
      SelectConcat(a, b', sel);
      assert (a + b)[..|a + b| - 1] == a + b';
      assert (a + b)[|a + b| - 1] == x;
      assert Select(a + b, sel) == Select(a + b', sel) + tail;
      assert Select(b, sel) == Select(b', sel) + tail;
    }
  }

  lemma BothSelects(a: Selector, b: Selector, d: SaleDocument)
    ensures Selects(Both(a, b), d) == (Selects(a, d) && Selects(b, d))
  {
  }

  /** Chained filters: filtering by `a` and then by `b` is filtering by both. */
  lemma {:induction false} SelectTwice(docs: seq<SaleDocument>, a: Selector, b: Selector)
    ensures Select(Select(docs, a), b) == Select(docs, Both(a, b))
    decreases |docs|
  {
    if docs != [] {
      var init, x := docs[..|docs| - 1], docs[|docs| - 1];
      SelectTwice(init, a, b);
      var kept := Select(init, a);
      if Selects(a, x) {
        assert Select(docs, a) == kept + [x];
        SelectConcat(kept, [x], b);
        assert Select([x], b) == if Selects(b, x) then [x] else [];
      } else {
        assert Select(docs, a) == kept + [] == kept;
      }
      BothSelects(a, b, x);
      assert Select(docs, Both(a, b)) == Select(init, Both(a, b)) + if Selects(Both(a, b), x) then [x] else [];
    }
  }

  /** The order of two chained filters does not matter. */
  lemma SelectCommutes(docs: seq<SaleDocument>, a: Selector, b: Selector)
    ensures Select(Select(docs, a), b) == Select(Select(docs, b), a)
  {
    SelectTwice(docs, a, b);
    SelectTwice(docs, b, a);
    SelectSameSelection(docs, Both(a, b), Both(b, a));
  }

  /** Selectors that keep the same documents select the same sequence. */
  lemma {:induction false} SelectSameSelection(docs: seq<SaleDocument>, a: Selector, b: Selector)
    requires forall i :: 0 <= i < |docs| ==> (Selects(a, docs[i]) <==> Selects(b, docs[i]))
    ensures Select(docs, a) == Select(docs, b)
    decreases |docs|
  {
    if docs != [] {
      SelectSameSelection(docs[..|docs| - 1], a, b);
    }
  }

  /** A filter that keeps every document changes nothing. */
  lemma {:induction false} SelectKeepsAll(docs: seq<SaleDocument>, sel: Selector)
    requires forall i :: 0 <= i < |docs| ==> Selects(sel, docs[i])
    ensures Select(docs, sel) == docs
    decreases |docs|
  {
    if docs != [] {
      var init, x := docs[..|docs| - 1], docs[|docs| - 1];
      forall i | 0 <= i < |init| ensures Selects(sel, init[i]) {
        assert init[i] == docs[i];
      }
      SelectKeepsAll(init, sel);
      assert Select(docs, sel) == init + [x];
    }
  }

  /** A filter that keeps no document leaves nothing. */
  lemma {:induction false} SelectKeepsNone(docs: seq<SaleDocument>, sel: Selector)
    requires forall i :: 0 <= i < |docs| ==> !Selects(sel, docs[i])
    ensures Select(docs, sel) == []
    decreases |docs|
  {
    if docs != [] {
      SelectKeepsNone(docs[..|docs| - 1], sel);
    }
  }

  /** Every selected document is one the selector keeps. */
  lemma {:induction false} SelectedAreKept(docs: seq<SaleDocument>, sel: Selector)
    ensures forall i :: 0 <= i < |Select(docs, sel)| ==> Selects(sel, Select(docs, sel)[i])
    decreases |docs|
  {
    if docs != [] {
      SelectedAreKept(docs[..|docs| - 1], sel);
    }
  }

  /** Filtering by type after one more document. */
  lemma {:induction false} OfTypeAppend(init: seq<SaleDocument>, x: SaleDocument, t: DocType)
    ensures OfType(init + [x], t) == OfType(init, t) + (if x.typ == t then [x] else [])
  {
    assert (init + [x])[..|init|] == init;
  }
}
