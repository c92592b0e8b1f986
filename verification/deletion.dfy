/** Deleting a sale document from the store, with the stock effect the
    source's renumbering has. Each renumbered document is written back
    with `doc.save(update_fields=['number'])`, and `SaleDocument.save`
    always ends with `update_product_quantities`, so every renumbered
    document moves the stock of its lines once more. */
module Deletion {
  import opened Base
  import opened Entities
  import opened Selection
  import opened Stock
  import opened Numbering
  import opened Sorting

  /** Every line of every stored document refers to a known product. */
  predicate LinesKnown(products: Products, docs: seq<SaleDocument>) {
    forall i :: 0 <= i < |docs| ==> ProductsKnown(products, docs[i].items)
  }

  /** The stock moves made by re-saving every document the delete
      renumbers, in the order the walk visits them. */
  function ReapplyRenumbered(products: Products, docs: seq<SaleDocument>, t: DocType, deleted: nat): (r: Products)
    requires LinesKnown(products, docs)
    ensures r.Keys == products.Keys
    ensures (forall i :: 0 <= i < |docs| ==> !Renumbers(docs[i], t, deleted)) ==> r == products
  {
    if docs == [] then products
    else
      var init, last := docs[..|docs| - 1], docs[|docs| - 1];
      var before := ReapplyRenumbered(products, init, t, deleted);
      if Renumbers(last, t, deleted) then UpdateProductQuantities(before, last.typ, last.items) else before
  }

  /** `SaleDocument.delete` as the source's code behaves: the documents as
      the one-at-a-time walk leaves them, and the stock moved once more for
      each renumbered document. A rename refused by the unique number rolls
      everything back. */
  function DeleteDocumentAsWritten(store: Store, id: DocId): (r: Result<Store>)
    requires LinesKnown(store.products, store.docs)
    ensures r.Ok? <==> DeleteDocumentWalk(store.docs, id).Ok?
    ensures r.Ok? ==> r.value.docs == DeleteDocumentWalk(store.docs, id).value
    ensures r.Err? ==> r.error == DeleteDocumentWalk(store.docs, id).error
  {
    match DeleteDocumentWalk(store.docs, id)
    case Err(e) => Err(e)
    case Ok(docs) =>
      var target := FindDoc(store.docs, id).value;
      var remaining := Select(store.docs, Survives(Cascade(store.docs, id)));
      var visit := Sort(Newest, remaining);
      SelectMembership(store.docs, Survives(Cascade(store.docs, id)));
      assert LinesKnown(store.products, visit) by {
        forall i | 0 <= i < |visit| ensures ProductsKnown(store.products, visit[i].items) {
          assert visit[i] in multiset(visit);
          assert visit[i] in store.docs;
        }
      }
      match TrailingNumber(target.number)
      case None => Ok(store.(docs := docs))
      case Some(k) => Ok(store.(docs := docs, products := ReapplyRenumbered(store.products, visit, target.typ, k)))
  }

  /** Deleting a sale document as intended: the documents change as
      `DeleteDocument` says and the stock is left alone, since renumbering
      moves no goods. */
  function DeleteFromStore(store: Store, id: DocId): (r: Result<Store>)
    ensures r.Ok? <==> DeleteDocument(store.docs, id).Ok?
    ensures r.Ok? ==> r.value.docs == DeleteDocument(store.docs, id).value
    ensures r.Ok? ==> r.value.products == store.products && r.value.invoices == store.invoices
                      && r.value.customers == store.customers
    ensures r.Err? ==> r.error == DeleteDocument(store.docs, id).error
  {
    match DeleteDocument(store.docs, id)
    case Err(e) => Err(e)
    case Ok(docs) => Ok(store.(docs := docs))
  }

  /** Two cash sales ТЧ-1 (2 units) and ТЧ-2 (3 units) of one product. */
  function SampleDocs(): seq<SaleDocument> {
    [ SaleDocument(1, Cash, FormatNumber(Prefix(Cash), 1), 0, 1000, 1, None, "1", None, "", [Item(1, 2, 500)]),
      SaleDocument(2, Cash, FormatNumber(Prefix(Cash), 2), 0, 1500, 1, None, "1", None, "", [Item(1, 3, 500)]) ]
  }

  /** The product of the sample with 10 units in stock. */
  function SampleStore(): Store {
    Store(map[1 := Product("Widget", 500, 10)], [], [], SampleDocs())
  }

  /** Deleting ТЧ-1 of the sample renumbers ТЧ-2 to ТЧ-1. */
  lemma SampleDeleteRenumbers()
    ensures DeleteDocument(SampleDocs(), 1) == Ok([SampleDocs()[1].(number := FormatNumber(Prefix(Cash), 1))])
  {
    var docs := SampleDocs();
    var second := docs[1];
    TrailingNumberOfFormat(Prefix(Cash), 1);
    SampleSurvivors();
    FormattedIsReadable(second, Cash, 2);
    var r := DeleteDocument(docs, 1);
    var remaining := Select(docs, Survives(Cascade(docs, 1)));
    assert remaining == [second];
    assert r.Ok? && |r.value| == 1;
    assert r.value[0] == second.(number := r.value[0].number);
    assert r.value[0].number == FormatNumber(Prefix(Cash), 1);
    assert r.value == [r.value[0]];
  }

  /** Deleting ТЧ-1 of the sample leaves ТЧ-2 alone among the survivors. */
  lemma SampleSurvivors()
    ensures FindDoc(SampleDocs(), 1) == Some(SampleDocs()[0])
    ensures Cascade(SampleDocs(), 1) == {1}
    ensures Select(SampleDocs(), Survives(Cascade(SampleDocs(), 1))) == [SampleDocs()[1]]
  {
    var docs := SampleDocs();
    CascadeAlone(docs, 1);
    assert docs[..1] == [docs[0]];
  }

  /** In the sample, the re-save of the renumbered ТЧ-2 debits its 3 units a
      second time: stock falls from 10 to 7. */
  lemma DeleteDebitsRenumberedSales()
    ensures DeleteDocumentAsWritten(SampleStore(), 1).Ok?
    ensures DeleteDocumentAsWritten(SampleStore(), 1).value.products[1].quantity == 7
  {
    SampleDeleteFacts();
    SampleLinesKnown();
    AsWrittenLoneSurvivor(SampleStore(), 1, SampleDocs()[1], 1);
    SampleRedebit();
  }

  /** The sample's lines name its one product. */
  lemma SampleLinesKnown()
    ensures LinesKnown(SampleStore().products, SampleStore().docs)
    ensures ProductsKnown(SampleStore().products, SampleDocs()[1].items)
  {
  }

  /** What the lone-survivor lemma needs of the sample. */
  lemma SampleDeleteFacts()
    ensures FindDoc(SampleStore().docs, 1) == Some(SampleDocs()[0])
    ensures TrailingNumber(SampleDocs()[0].number) == Some(1)
    ensures Select(SampleStore().docs, Survives(Cascade(SampleStore().docs, 1))) == [SampleDocs()[1]]
    ensures Renumbers(SampleDocs()[1], Cash, 1)
    ensures DeleteDocumentWalk(SampleStore().docs, 1).Ok?
  {
    SampleWalk();
    SampleSurvivors();
    TrailingNumberOfFormat(Prefix(Cash), 1);
  }

  /** A delete that leaves one renumbered survivor re-saves it once. */
  lemma AsWrittenLoneSurvivor(store: Store, id: DocId, d: SaleDocument, k: nat)
    requires LinesKnown(store.products, store.docs)
    requires FindDoc(store.docs, id).Some? && TrailingNumber(FindDoc(store.docs, id).value.number) == Some(k)
    requires Select(store.docs, Survives(Cascade(store.docs, id))) == [d] && Renumbers(d, FindDoc(store.docs, id).value.typ, k)
    requires DeleteDocumentWalk(store.docs, id).Ok? && ProductsKnown(store.products, d.items)
    ensures DeleteDocumentAsWritten(store, id).Ok?
    ensures DeleteDocumentAsWritten(store, id).value.products == UpdateProductQuantities(store.products, d.typ, d.items)
  {
    AsWrittenProducts(store, id, k);
    SortSingle(Newest, d);
    ReapplyOne(store.products, d, FindDoc(store.docs, id).value.typ, k);
  }

  /** The stock a successful delete leaves: every document of the walk
      re-saved once. */
  lemma AsWrittenProducts(store: Store, id: DocId, k: nat)
    requires LinesKnown(store.products, store.docs)
    requires DeleteDocumentWalk(store.docs, id).Ok?
    requires FindDoc(store.docs, id).Some? && TrailingNumber(FindDoc(store.docs, id).value.number) == Some(k)
    ensures LinesKnown(store.products, Sort(Newest, Select(store.docs, Survives(Cascade(store.docs, id)))))
    ensures DeleteDocumentAsWritten(store, id).value.products ==
      ReapplyRenumbered(store.products, Sort(Newest, Select(store.docs, Survives(Cascade(store.docs, id)))), FindDoc(store.docs, id).value.typ, k)
  {
    var visit := Sort(Newest, Select(store.docs, Survives(Cascade(store.docs, id))));
    SelectMembership(store.docs, Survives(Cascade(store.docs, id)));
    forall i | 0 <= i < |visit| ensures ProductsKnown(store.products, visit[i].items) {
      assert visit[i] in multiset(visit);
      assert visit[i] in store.docs;
    }
  }

  /** The walk of the sample renames ТЧ-2 alone, which no other row holds
      the new number of. */
  lemma SampleWalk()
    ensures Renumbers(SampleDocs()[1], Cash, 1)
    ensures DeleteDocumentWalk(SampleDocs(), 1).Ok?
  {
    var docs := SampleDocs();
    SampleSurvivors();
    TrailingNumberOfFormat(Prefix(Cash), 1);
    FormattedPieces(Cash, 2);
    assert Renumbers(docs[1], Cash, 1);
    DeleteWalkLone(docs, 1, docs[0], 1, docs[1]);
  }

  /** Debiting ТЧ-2's line again takes 3 of the 10 units. */
  lemma SampleRedebit()
    ensures 1 in SampleStore().products
    ensures UpdateProductQuantities(SampleStore().products, Cash, SampleDocs()[1].items)[1].quantity == 7
  {
    assert [Item(1, 3, 500)][..0] == [];
  }

  /** Re-saving a single renumbered document moves its lines' stock once. */
  lemma ReapplyOne(products: Products, d: SaleDocument, t: DocType, deleted: nat)
    requires ProductsKnown(products, d.items) && Renumbers(d, t, deleted)
    ensures LinesKnown(products, [d])
    ensures ReapplyRenumbered(products, [d], t, deleted) == UpdateProductQuantities(products, d.typ, d.items)
  {
    assert [d][..0] == [];
  }

  /** The intended delete of the same document leaves the 10 units alone. */
  lemma DeleteKeepsSampleStock()
    ensures DeleteFromStore(SampleStore(), 1).Ok?
    ensures DeleteFromStore(SampleStore(), 1).value.products[1].quantity == 10
  {
    SampleDeleteRenumbers();
  }
}
