/** Total recalculation: a document's total is the sum of price times
    quantity over its current lines, recomputed after every change. */
module Totals {
  import opened Base
  import opened Entities

  /** The recomputed total of a run of lines: the sum of their amounts, 0
      for none, and for every line that line's amount plus the others'. */
  function Retotal(items: seq<Item>): (total: Money)
    ensures total == ItemsTotal(items)
    ensures items == [] ==> total == 0
    ensures forall k :: 0 <= k < |items| ==> total == ItemsTotal(items[..k] + items[k + 1..]) + ItemTotal(items[k])
  {
    forall k | 0 <= k < |items| {
      ItemsTotalWithout(items, k);
    }
    ItemsTotal(items)
  }

  /** `Invoice.update_total`: the invoice total becomes the sum of its lines
      (0.00 without lines); nothing else about the invoice changes. */
  function UpdateInvoiceTotal(inv: Invoice): (r: Invoice)
    ensures r.items == inv.items && r.(total := inv.total) == inv
    ensures r.total == ItemsTotal(inv.items)
    ensures inv.items == [] ==> r.total == 0
    ensures forall k :: 0 <= k < |inv.items| ==> r.total == ItemsTotal(inv.items[..k] + inv.items[k + 1..]) + ItemTotal(inv.items[k])
  {
    inv.(total := Retotal(inv.items))
  }

  /** `SaleDocument.update_total`: as for invoices. */
  function UpdateDocumentTotal(doc: SaleDocument): (r: SaleDocument)
    ensures r.items == doc.items && r.(total := doc.total) == doc
    ensures r.total == ItemsTotal(doc.items)
    ensures doc.items == [] ==> r.total == 0
    ensures forall k :: 0 <= k < |doc.items| ==> r.total == ItemsTotal(doc.items[..k] + doc.items[k + 1..]) + ItemTotal(doc.items[k])
  {
    doc.(total := Retotal(doc.items))
  }

  /** Recomputing a total a second time changes nothing. */
  lemma UpdateTotalIdempotent(doc: SaleDocument, inv: Invoice)
    ensures UpdateDocumentTotal(UpdateDocumentTotal(doc)) == UpdateDocumentTotal(doc)
    ensures UpdateInvoiceTotal(UpdateInvoiceTotal(inv)) == UpdateInvoiceTotal(inv)
  {
  }

  /** The total of two runs of lines is the sum of their totals. */
  lemma {:induction false} ItemsTotalConcat(a: seq<Item>, b: seq<Item>)
    ensures ItemsTotal(a + b) == ItemsTotal(a) + ItemsTotal(b)
    decreases |b|
  {
    if b == [] {
      assert a + b == a;
    } else {
      var b' := b[..|b| - 1];
      ItemsTotalConcat(a, b');
      assert (a + b)[..|a + b| - 1] == a + b';
    }
  }

  /** Dropping line `k` lowers the total by exactly that line's amount. */
  lemma ItemsTotalWithout(items: seq<Item>, k: nat)
    requires k < |items|
    ensures ItemsTotal(items) == ItemsTotal(items[..k] + items[k + 1..]) + ItemTotal(items[k])
  {
    var before, x, after := items[..k], items[k], items[k + 1..];
    assert items == before + [x] + after;
    LineBetween(before, x, after);
  }

  lemma LineBetween(p: seq<Item>, x: Item, q: seq<Item>)
    ensures ItemsTotal(p + [x] + q) == ItemsTotal(p + q) + ItemTotal(x)
  {
    ItemsTotalConcat(p + [x], q);
    ItemsTotalConcat(p, q);
    assert (p + [x])[..|p|] == p;
  }

  /** Adding a line raises the recomputed total by that line's amount. */
  lemma TotalAfterAdd(doc: SaleDocument, item: Item)
    ensures UpdateDocumentTotal(doc.(items := doc.items + [item])).total
         == UpdateDocumentTotal(doc).total + ItemTotal(item)
  {
    assert (doc.items + [item])[..|doc.items|] == doc.items;
  }

  /** Editing line `k` changes the recomputed total by the difference of
      the new and old line amounts. */
  lemma TotalAfterEdit(doc: SaleDocument, k: nat, item: Item)
    requires k < |doc.items|
    ensures UpdateDocumentTotal(doc.(items := doc.items[k := item])).total
         == UpdateDocumentTotal(doc).total - ItemTotal(doc.items[k]) + ItemTotal(item)
  {
    var edited := doc.items[k := item];
    ItemsTotalWithout(doc.items, k);
    ItemsTotalWithout(edited, k);
    assert edited[..k] + edited[k + 1..] == doc.items[..k] + doc.items[k + 1..];
  }

  /** The total does not depend on the order of the lines: any
      rearrangement of the same lines has the same total. */
  lemma {:induction false} ItemsTotalPermutation(a: seq<Item>, b: seq<Item>)
    requires multiset(a) == multiset(b)
    ensures ItemsTotal(a) == ItemsTotal(b)
    decreases |a|
  {
    if a != [] {
      var last := a[|a| - 1];
      var a' := a[..|a| - 1];
      assert last in multiset(b);
      var k :| 0 <= k < |b| && b[k] == last;
      var b' := b[..k] + b[k + 1..];
      DropLastMultiset(a);
      RemoveAtMultiset(b, k);
      ItemsTotalPermutation(a', b');
      ItemsTotalWithout(b, k);
    } else {
      assert |multiset(b)| == 0;
    }
  }
}
