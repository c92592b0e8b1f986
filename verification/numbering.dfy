/** Document numbering. A new invoice or sale document is numbered
    `<prefix>-<n + 1>`, where `n` is the trailing integer of the number of
    the last document (by id) in its series; deleting a sale document
    shifts the later numbers of its series down by one. */
module Numbering {
  import opened Base
  import opened Text
  import opened Entities
  import opened Selection
  import opened Sorting

  /** `f"{prefix}-{n}"`. */
  function FormatNumber(prefix: string, n: nat): (r: string)
    ensures StartsWith(r, prefix)
  {
    prefix + "-" + NatToString(n)
  }

  /** `int(number.split('-')[-1])`: the integer after the last dash, or
      None when that text is not an integer (Python's `ValueError`). The
      text after the last dash has no minus sign, so the value is never
      negative. */
  function TrailingNumber(number: string): (r: Option<nat>)
    ensures r.Some? ==> ParseInt(LastPiece(number, '-')) == Some(r.value as int)
    ensures r.None? ==> ParseInt(LastPiece(number, '-')).None?
  {
    var v := ParseInt(LastPiece(number, '-'));
    if v.Some? then Some(v.value as nat) else None
  }

  /** With a dash-free tail, the text after the last dash is the tail, and
      there are at least two pieces. */
  lemma {:induction false} LastPieceAfterSeparator(head: string, sep: char, tail: string)
    requires sep !in tail
    ensures |Split(head + [sep] + tail, sep)| >= 2
    ensures LastPiece(head + [sep] + tail, sep) == tail
    decreases |head|
  {
    var whole := head + [sep] + tail;
    if head == [] {
      assert whole == [sep] + tail;
      assert whole[1..] == tail;
      SplitWithoutSeparator(tail, sep);
    } else {
      assert whole[1..] == head[1..] + [sep] + tail;
      LastPieceAfterSeparator(head[1..], sep, tail);
    }
  }

  /** A formatted number reads back: the trailing integer of
      `f"{prefix}-{n}"` is `n`, whatever the prefix. */
  lemma TrailingNumberOfFormat(prefix: string, n: nat)
    ensures TrailingNumber(FormatNumber(prefix, n)) == Some(n)
  {
    LastPieceAfterSeparator(prefix, '-', NatToString(n));
    ParseIntOfNatToString(n);
  }

  /** The last document (by id) of type `t`: `filter(type=t).order_by('-id').first()`. */
  function LastOfType(docs: seq<SaleDocument>, t: DocType): Option<SaleDocument> {
    var series := OfType(docs, t);
    if series == [] then None else Some(series[|series| - 1])
  }

  /** The number `SaleDocument.save` gives a new document of type `t`:
      one more than the trailing integer of the last number in the
      series, or 1 for an empty series. An unreadable last number makes
      `int()` raise, and the save fails. */
  function NextSaleNumber(docs: seq<SaleDocument>, t: DocType): (r: Result<string>)
    ensures LastOfType(docs, t).None? ==> r == Ok(FormatNumber(Prefix(t), 1))
    ensures LastOfType(docs, t).Some? ==>
      (r.Ok? <==> TrailingNumber(LastOfType(docs, t).value.number).Some?)
    ensures r.Err? ==> r.error == MalformedNumber
    ensures r.Ok? ==> StartsWith(r.value, Prefix(t))
    ensures r.Ok? ==> TrailingNumber(r.value) == Some(1 + PreviousNumber(LastOfType(docs, t)))
  {
    var last := LastOfType(docs, t);
    var previous := if last.None? then Some(0) else TrailingNumber(last.value.number);
    if previous.None? then Err(MalformedNumber)
    else
      TrailingNumberOfFormat(Prefix(t), previous.value + 1);
      Ok(FormatNumber(Prefix(t), previous.value + 1))
  }

  /** The trailing integer of the previous document's number, 0 when there
      is none or it does not read. */
  function PreviousNumber(last: Option<SaleDocument>): nat {
    if last.Some? && TrailingNumber(last.value.number).Some? then TrailingNumber(last.value.number).value else 0
  }

  /** The number `Invoice.save` gives a new invoice: invoices form one
      series, so the last invoice by id is the last one stored. */
  function NextInvoiceNumber(invoices: seq<Invoice>): (r: Result<string>)
    ensures invoices == [] ==> r == Ok(FormatNumber(InvoicePrefix, 1))
    ensures invoices != [] ==>
      (r.Ok? <==> TrailingNumber(invoices[|invoices| - 1].number).Some?)
    ensures r.Err? ==> r.error == MalformedNumber
    ensures r.Ok? ==> StartsWith(r.value, InvoicePrefix)
    ensures r.Ok? && invoices != [] ==>
      TrailingNumber(r.value) == Some(1 + TrailingNumber(invoices[|invoices| - 1].number).value)
    ensures r.Ok? && invoices == [] ==> TrailingNumber(r.value) == Some(1)
  {
    var previous := if invoices == [] then Some(0) else TrailingNumber(invoices[|invoices| - 1].number);
    if previous.None? then Err(MalformedNumber)
    else
      TrailingNumberOfFormat(InvoicePrefix, previous.value + 1);
      Ok(FormatNumber(InvoicePrefix, previous.value + 1))
  }

  /** The id the database gives the next document: one past the last. */
  function NextDocId(docs: seq<SaleDocument>): (r: DocId)
    ensures forall i :: 0 <= i < |docs| && IdsIncreasing(docs) ==> docs[i].id < r
  {
    if docs == [] then 1 else docs[|docs| - 1].id + 1
  }

  /** Stored documents are in strictly increasing id order. */
  predicate IdsIncreasing(docs: seq<SaleDocument>) {
    forall i, j :: 0 <= i < j < |docs| ==> docs[i].id < docs[j].id
  }

  /** `number` is `unique=True`: some stored document already holds it. */
  predicate NumberHeld(docs: seq<SaleDocument>, number: string) {
    exists i :: 0 <= i < |docs| && docs[i].number == number
  }

  /** No two stored documents share a number. */
  predicate NumbersDistinct(docs: seq<SaleDocument>) {
    forall i, j :: 0 <= i < j < |docs| ==> docs[i].number != docs[j].number
  }

  /** Saving a new document: a document without a number is numbered in
      its series, and the document is stored under the next id. A number
      another document already holds is refused by the unique constraint
      (`IntegrityError` from the insert). */
  function CreateDocument(docs: seq<SaleDocument>, doc: SaleDocument): (r: Result<seq<SaleDocument>>)
    ensures doc.number != "" ==> (r.Ok? <==> !NumberHeld(docs, doc.number))
    ensures doc.number != "" && r.Ok? ==> r.value == docs + [doc.(id := NextDocId(docs))]
    ensures doc.number == "" ==>
      (r.Ok? <==> NextSaleNumber(docs, doc.typ).Ok? && !NumberHeld(docs, NextSaleNumber(docs, doc.typ).value))
    ensures r.Err? ==> r.error in {MalformedNumber, DuplicateNumber}
    ensures r == Err(MalformedNumber) <==> doc.number == "" && NextSaleNumber(docs, doc.typ).Err?
    ensures r.Ok? ==> |r.value| == |docs| + 1 && r.value[..|docs|] == docs
    ensures r.Ok? ==> r.value[|docs|] == doc.(id := NextDocId(docs), number := r.value[|docs|].number)
    ensures r.Ok? ==> !NumberHeld(docs, r.value[|docs|].number)
    ensures r.Ok? && doc.number == "" ==> r.value[|docs|].number == NextSaleNumber(docs, doc.typ).value
    ensures r.Ok? && IdsIncreasing(docs) ==> IdsIncreasing(r.value)
  {
    var number :- if doc.number == "" then NextSaleNumber(docs, doc.typ) else Ok(doc.number);
    if NumberHeld(docs, number) then Err(DuplicateNumber)
    else Ok(docs + [doc.(id := NextDocId(docs), number := number)])
  }

  /** The unique constraint is kept: a successful create leaves no two
      documents with one number, whichever way the number was chosen. */
  lemma CreateKeepsNumbersDistinct(docs: seq<SaleDocument>, doc: SaleDocument)
    requires NumbersDistinct(docs) && CreateDocument(docs, doc).Ok?
    ensures NumbersDistinct(CreateDocument(docs, doc).value)
  {
    var r := CreateDocument(docs, doc).value;
    forall i, j | 0 <= i < j < |r| ensures r[i].number != r[j].number {
      if j == |docs| {
        assert r[i] == docs[i];
      } else {
        assert r[i] == docs[i] && r[j] == docs[j];
      }
    }
  }

  /** Cash sales ТЧ-2 (id 1) and ТЧ-1 (id 2): numbers entered out of order. */
  function OutOfOrderSales(): seq<SaleDocument> {
    [ SaleDocument(1, Cash, FormatNumber(Prefix(Cash), 2), 0, 0, 1, None, "1", None, "", []),
      SaleDocument(2, Cash, FormatNumber(Prefix(Cash), 1), 0, 0, 1, None, "1", None, "", []) ]
  }

  /** Numbering follows the last document by id, not the largest number:
      after ТЧ-2 (id 1) and ТЧ-1 (id 2) the next cash sale is numbered ТЧ-2
      again, and the unique constraint refuses it. */
  lemma AutoNumberCollides(doc: SaleDocument)
    requires doc.typ == Cash && doc.number == ""
    ensures NextSaleNumber(OutOfOrderSales(), Cash) == Ok(OutOfOrderSales()[0].number)
    ensures CreateDocument(OutOfOrderSales(), doc) == Err(DuplicateNumber)
  {
    var docs := OutOfOrderSales();
    SelectKeepsAll(docs, OfKind(Cash));
    assert LastOfType(docs, Cash) == Some(docs[1]);
    TrailingNumberOfFormat(Prefix(Cash), 1);
    assert NumberHeld(docs, docs[0].number);
  }

  /** The series of type `t` is numbered `1 .. n` in id order. */
  predicate Contiguous(docs: seq<SaleDocument>, t: DocType, n: nat) {
    var series := OfType(docs, t);
    |series| == n && forall i :: 0 <= i < n ==> series[i].number == FormatNumber(Prefix(t), i + 1)
  }

  /** Creating documents one after another keeps a series numbered
      `1 .. n`: the next document of a `1 .. n` series gets `n + 1`, and
      the other series are untouched. */
  lemma CreateExtendsSeries(docs: seq<SaleDocument>, doc: SaleDocument, n: nat)
    requires doc.number == "" && Contiguous(docs, doc.typ, n)
    requires !NumberHeld(docs, FormatNumber(Prefix(doc.typ), n + 1))
    ensures CreateDocument(docs, doc).Ok?
    ensures Contiguous(CreateDocument(docs, doc).value, doc.typ, n + 1)
    ensures forall u :: u != doc.typ ==> OfType(CreateDocument(docs, doc).value, u) == OfType(docs, u)
  {
    var t := doc.typ;
    var series := OfType(docs, t);
    var number := FormatNumber(Prefix(t), n + 1);
    assert NextSaleNumber(docs, t) == Ok(number) by {
      if n > 0 {
        assert LastOfType(docs, t) == Some(series[n - 1]);
        TrailingNumberOfFormat(Prefix(t), n);
      }
    }
    var x := doc.(id := NextDocId(docs), number := number);
    assert CreateDocument(docs, doc) == Ok(docs + [x]);
    forall u | true ensures OfType(docs + [x], u) == OfType(docs, u) + (if u == t then [x] else []) {
      OfTypeAppend(docs, x, u);
    }
    var after := OfType(docs + [x], t);
    assert after == series + [x];
    forall i | 0 <= i < n + 1 ensures after[i].number == FormatNumber(Prefix(t), i + 1) {
      if i < n {
        assert after[i] == series[i];
      }
    }
  }

  // ----- Deleting a sale document -----

  /** The pieces of a stored number around its dashes. */
  function Pieces(number: string): seq<string> {
    Split(number, '-')
  }

  /** A later document of the series that the delete renumbers: same type,
      number starting with the series prefix, exactly `<text>-<integer>`,
      and an integer above the deleted one's. */
  predicate Renumbers(d: SaleDocument, t: DocType, deleted: nat) {
    && d.typ == t
    && StartsWith(d.number, Prefix(t))
    && |Pieces(d.number)| == 2
    && ParseInt(Pieces(d.number)[1]).Some?
    && ParseInt(Pieces(d.number)[1]).value > deleted
  }

  /** A document of the series whose second piece is missing or is not an
      integer: the filtering comprehension raises on it. */
  predicate Unreadable(d: SaleDocument, t: DocType) {
    && d.typ == t
    && StartsWith(d.number, Prefix(t))
    && (|Pieces(d.number)| < 2 || ParseInt(Pieces(d.number)[1]).None?)
  }

  /** `f"{prefix}-{num - 1}"` for a document the delete renumbers. */
  function Renumbered(d: SaleDocument, t: DocType, deleted: nat): (r: SaleDocument)
    ensures r.(number := d.number) == d
  {
    if Renumbers(d, t, deleted) then
      var pieces := Pieces(d.number);
      d.(number := pieces[0] + "-" + NatToString(ParseInt(pieces[1]).value - 1))
    else d
  }

  /** The documents whose original sale is among `removed`: the rows the
      `original_sale` cascade reaches in one step. */
  function ReturnsOfAny(docs: seq<SaleDocument>, removed: set<DocId>): set<DocId> {
    set i | 0 <= i < |docs| && docs[i].originalSale.Some? && docs[i].originalSale.value in removed :: docs[i].id
  }

  /** A set of rows the cascade cannot leave: every document whose original
      sale is in it is in it too. */
  predicate CascadeClosed(docs: seq<SaleDocument>, removed: set<DocId>) {
    ReturnsOfAny(docs, removed) <= removed
  }

  /** The ids of the stored documents. */
  function StoredIds(docs: seq<SaleDocument>): set<DocId> {
    set i | 0 <= i < |docs| :: docs[i].id
  }

  /** Adding at least one stored id leaves fewer stored ids outside. */
  lemma FewerOutside(all: set<DocId>, a: set<DocId>, b: set<DocId>)
    requires a <= b && b - a <= all && b != a
    ensures |all - b| < |all - a|
  {
    assert b - a != {};
    var x :| x in b - a;
    var inner, outer := all - b, (all - a) - {x};
    assert inner <= outer;
    assert outer == inner + (outer - inner) && inner * (outer - inner) == {};
  }

  /** The rows `on_delete=CASCADE` on `original_sale` removes together with
      `removed`: the least set holding `removed` that the cascade cannot
      leave, reached by adding one step of returns at a time. */
  function CascadeFrom(docs: seq<SaleDocument>, removed: set<DocId>): (r: set<DocId>)
    ensures removed <= r && CascadeClosed(docs, r)
    ensures forall s :: removed <= s && CascadeClosed(docs, s) ==> r <= s
    decreases |StoredIds(docs) - removed|
  {
    var next := removed + ReturnsOfAny(docs, removed);
    if next == removed then removed
    else
      FewerOutside(StoredIds(docs), removed, next);
      CascadeFrom(docs, next)
  }

  /** The rows deleting document `id` removes: it, its returns, their
      returns, and so on. */
  function Cascade(docs: seq<SaleDocument>, id: DocId): (r: set<DocId>)
    ensures id in r && CascadeClosed(docs, r)
    ensures forall s :: id in s && CascadeClosed(docs, s) ==> r <= s
  {
    CascadeFrom(docs, {id})
  }

  /** A document nothing names as its original sale is removed alone. */
  lemma CascadeAlone(docs: seq<SaleDocument>, id: DocId)
    requires forall i :: 0 <= i < |docs| ==> docs[i].originalSale != Some(id)
    ensures Cascade(docs, id) == {id}
  {
    assert CascadeClosed(docs, {id});
  }

  /** `SaleDocument.delete` as intended. The document goes, and with it every
      row `Cascade` names: its returns, their returns, and so on, since each
      `original_sale` link cascades in turn. If the deleted
      number's trailing integer `k` reads, every document of the same
      series whose number is `<text>-<m>` with `m > k` becomes
      `<text>-<m - 1>`, all at once; a series number whose second piece
      does not read makes the whole delete fail and roll back. Stock is not
      touched. DeleteDocumentWalk is the one-at-a-time renaming the code
      performs. */
  function DeleteDocument(docs: seq<SaleDocument>, id: DocId): (r: Result<seq<SaleDocument>>)
    ensures r == Err(NotFound) <==> FindDoc(docs, id).None?
    ensures r.Err? ==> r.error in {NotFound, MalformedNumber}
    ensures FindDoc(docs, id).Some? ==>
      var target := FindDoc(docs, id).value;
      var remaining := Select(docs, Survives(Cascade(docs, id)));
      && (TrailingNumber(target.number).None? ==> r == Ok(remaining))
      && (r.Ok? ==> |r.value| == |remaining|)
      && (r.Ok? ==> forall i :: 0 <= i < |remaining| ==> r.value[i] == remaining[i].(number := r.value[i].number))
      && (r.Ok? ==> forall i :: 0 <= i < |remaining| && remaining[i].typ != target.typ ==> r.value[i] == remaining[i])
      && (TrailingNumber(target.number).Some? ==>
            (r.Ok? <==> forall i :: 0 <= i < |remaining| ==> !Unreadable(remaining[i], target.typ)))
      && (r.Ok? && TrailingNumber(target.number).Some? ==>
            forall i, m: nat ::
              (0 <= i < |remaining| && remaining[i].number == FormatNumber(Prefix(target.typ), m)
               && remaining[i].typ == target.typ) ==>
              r.value[i].number == FormatNumber(Prefix(target.typ), if m > TrailingNumber(target.number).value then m - 1 else m))
  {
    match FindDoc(docs, id)
    case None => Err(NotFound)
    case Some(target) =>
      var remaining := Select(docs, Survives(Cascade(docs, id)));
      var t := target.typ;
      match TrailingNumber(target.number)
      case None => Ok(remaining)
      case Some(k) =>
        if exists i :: 0 <= i < |remaining| && Unreadable(remaining[i], t) then Err(MalformedNumber)
        else
          var renumbered := RenumberAll(remaining, t, k);
          RenumberFormatted(remaining, t, k, renumbered);
          Ok(renumbered)
  }

  /** Every original sale a document names is a stored document. */
  predicate OriginalsStored(docs: seq<SaleDocument>) {
    forall i :: 0 <= i < |docs| && docs[i].originalSale.Some? ==> docs[i].originalSale.value in StoredIds(docs)
  }

  /** The cascade keeps the `original_sale` links whole: after a delete,
      every original sale a remaining document names is still stored. */
  lemma DeleteKeepsOriginalsStored(docs: seq<SaleDocument>, id: DocId)
    requires OriginalsStored(docs) && DeleteDocument(docs, id).Ok?
    ensures OriginalsStored(DeleteDocument(docs, id).value)
  {
    var remaining := Select(docs, Survives(Cascade(docs, id)));
    SurvivorsKeepOriginals(docs, Cascade(docs, id), remaining);
    RenamingKeepsOriginals(remaining, DeleteDocument(docs, id).value);
  }

  /** The rows outside a set the cascade cannot leave name only stored
      original sales among themselves. */
  lemma SurvivorsKeepOriginals(docs: seq<SaleDocument>, removed: set<DocId>, remaining: seq<SaleDocument>)
    requires OriginalsStored(docs) && CascadeClosed(docs, removed)
    requires remaining == Select(docs, Survives(removed))
    ensures OriginalsStored(remaining)
  {
    SelectMembership(docs, Survives(removed));
    forall i | 0 <= i < |remaining| && remaining[i].originalSale.Some?
      ensures remaining[i].originalSale.value in StoredIds(remaining)
    {
      var d := remaining[i];
      assert d in docs;
      var q :| 0 <= q < |docs| && docs[q] == d;
      var o := d.originalSale.value;
      assert o in StoredIds(docs);
      var p :| 0 <= p < |docs| && docs[p].id == o;
      assert o !in removed;
      assert docs[p] in remaining;
      var m :| 0 <= m < |remaining| && remaining[m] == docs[p];
      assert remaining[m].id == o;
    }
  }

  /** Renaming rows keeps their ids and links. */
  lemma RenamingKeepsOriginals(before: seq<SaleDocument>, after: seq<SaleDocument>)
    requires |after| == |before| && forall i :: 0 <= i < |before| ==> after[i] == before[i].(number := after[i].number)
    requires OriginalsStored(before)
    ensures OriginalsStored(after)
  {
    assert StoredIds(after) == StoredIds(before) by {
      forall x | x in StoredIds(before) ensures x in StoredIds(after) {
        var i :| 0 <= i < |before| && before[i].id == x;
        assert after[i].id == x;
      }
    }
    forall i | 0 <= i < |after| && after[i].originalSale.Some?
      ensures after[i].originalSale.value in StoredIds(after)
    {
      assert after[i].originalSale == before[i].originalSale;
    }
  }

  /** A document whose original sale the cascade removes is removed too. */
  lemma CascadeStep(docs: seq<SaleDocument>, removed: set<DocId>, i: nat)
    requires CascadeClosed(docs, removed) && i < |docs|
    requires docs[i].originalSale.Some? && docs[i].originalSale.value in removed
    ensures docs[i].id in removed
  {
    assert docs[i].id in ReturnsOfAny(docs, removed);
  }

  /** The cascade removes only the document itself and stored documents. */
  lemma CascadeStored(docs: seq<SaleDocument>, id: DocId)
    ensures Cascade(docs, id) <= StoredIds(docs) + {id}
  {
    assert CascadeClosed(docs, StoredIds(docs) + {id});
  }

  /** A delete whose cascade takes every document leaves none. */
  lemma DeleteEverything(docs: seq<SaleDocument>, id: DocId, target: SaleDocument, k: nat)
    requires FindDoc(docs, id) == Some(target) && TrailingNumber(target.number) == Some(k)
    requires Select(docs, Survives(Cascade(docs, id))) == []
    ensures DeleteDocument(docs, id) == Ok([])
  {
    DeleteRenumbersAll(docs, id, target, k);
  }

  /** A sale ТЧ-1 (id 1), its return ВР-1 (id 2), and a return ВР-2 (id 3)
      filed against ВР-1. */
  function ChainedReturns(): seq<SaleDocument> {
    [ SaleDocument(1, Cash, FormatNumber(Prefix(Cash), 1), 0, 0, 1, None, "1", None, "", []),
      SaleDocument(2, Return, FormatNumber(Prefix(Return), 1), 0, 0, 1, None, "1", Some(1), "", []),
      SaleDocument(3, Return, FormatNumber(Prefix(Return), 2), 0, 0, 1, None, "1", Some(2), "", []) ]
  }

  /** The cascade is transitive: deleting a sale also deletes its return
      and a return filed against that return, leaving nothing. */
  lemma DeleteWholeChain(docs: seq<SaleDocument>)
    requires |docs| == 3 && docs[1].originalSale == Some(docs[0].id) && docs[2].originalSale == Some(docs[1].id)
    requires FindDoc(docs, docs[0].id) == Some(docs[0]) && TrailingNumber(docs[0].number).Some?
    ensures Cascade(docs, docs[0].id) == {docs[0].id, docs[1].id, docs[2].id}
    ensures DeleteDocument(docs, docs[0].id) == Ok([])
  {
    ChainRemoved(docs);
    StoredIdsOfThree(docs);
    NothingSurvives(docs, Cascade(docs, docs[0].id));
    DeleteEverything(docs, docs[0].id, docs[0], TrailingNumber(docs[0].number).value);
  }

  /** When every stored id is removed, no document survives. */
  lemma NothingSurvives(docs: seq<SaleDocument>, removed: set<DocId>)
    requires StoredIds(docs) <= removed
    ensures Select(docs, Survives(removed)) == []
  {
    forall i | 0 <= i < |docs| ensures !Selects(Survives(removed), docs[i]) {
      assert docs[i].id in StoredIds(docs);
    }
    SelectKeepsNone(docs, Survives(removed));
  }

  /** The rows a delete of the chain's sale removes: all three. */
  lemma ChainRemoved(docs: seq<SaleDocument>)
    requires |docs| == 3 && docs[1].originalSale == Some(docs[0].id) && docs[2].originalSale == Some(docs[1].id)
    ensures Cascade(docs, docs[0].id) == {docs[0].id, docs[1].id, docs[2].id}
  {
    var removed := Cascade(docs, docs[0].id);
    CascadeStep(docs, removed, 1);
    CascadeStep(docs, removed, 2);
    CascadeStored(docs, docs[0].id);
    StoredIdsOfThree(docs);
  }

  /** The stored ids of three documents. */
  lemma StoredIdsOfThree(docs: seq<SaleDocument>)
    requires |docs| == 3
    ensures StoredIds(docs) == {docs[0].id, docs[1].id, docs[2].id}
  {
    forall x | x in StoredIds(docs) ensures x in {docs[0].id, docs[1].id, docs[2].id} {
      var i :| 0 <= i < |docs| && docs[i].id == x;
      if i == 0 { } else if i == 1 { } else { assert i == 2; }
    }
    assert docs[0].id in StoredIds(docs) && docs[1].id in StoredIds(docs) && docs[2].id in StoredIds(docs);
  }

  /** Deleting ТЧ-1 removes its return ВР-1 and, through it, ВР-2. */
  lemma ChainedReturnsCascade()
    ensures Cascade(ChainedReturns(), 1) == {1, 2, 3}
    ensures DeleteDocument(ChainedReturns(), 1) == Ok([])
  {
    var docs := ChainedReturns();
    TrailingNumberOfFormat(Prefix(Cash), 1);
    assert FindDoc(docs, 1) == Some(docs[0]);
    DeleteWholeChain(docs);
  }

  /** Applies the delete's renumbering to every document. */
  function RenumberAll(docs: seq<SaleDocument>, t: DocType, deleted: nat): (r: seq<SaleDocument>)
    ensures |r| == |docs|
    ensures forall i :: 0 <= i < |docs| ==> r[i] == Renumbered(docs[i], t, deleted)
  {
    seq(|docs|, i requires 0 <= i < |docs| => Renumbered(docs[i], t, deleted))
  }

  /** Renumbering never changes a document's type, so it commutes with
      selecting a series. */
  lemma {:induction false} RenumberAllOfType(docs: seq<SaleDocument>, t: DocType, deleted: nat, u: DocType)
    ensures OfType(RenumberAll(docs, t, deleted), u) == RenumberAll(OfType(docs, u), t, deleted)
    decreases |docs|
  {
    if docs != [] {
      var init, x := docs[..|docs| - 1], docs[|docs| - 1];
      var all := RenumberAll(docs, t, deleted);
      RenumberAllOfType(init, t, deleted, u);
      assert all[..|all| - 1] == RenumberAll(init, t, deleted);
      if x.typ == u {
        assert OfType(docs, u) == OfType(init, u) + [x];
        assert RenumberAll(OfType(docs, u), t, deleted)
            == RenumberAll(OfType(init, u), t, deleted) + [Renumbered(x, t, deleted)];
      } else {
        assert OfType(docs, u) == OfType(init, u);
      }
    }
  }

  /** Ids are unique, so looking up a stored document's id finds it. */
  lemma {:induction false} FindStoredDoc(docs: seq<SaleDocument>, j: nat)
    requires IdsIncreasing(docs) && j < |docs|
    ensures FindDoc(docs, docs[j].id) == Some(docs[j])
    decreases |docs|
  {
    if j > 0 {
      assert docs[0].id < docs[j].id;
      FindStoredDoc(docs[1..], j - 1);
    }
  }

  /** Selecting keeps ids increasing. */
  lemma {:induction false} SelectIdsIncreasing(docs: seq<SaleDocument>, sel: Selector)
    requires IdsIncreasing(docs)
    ensures IdsIncreasing(Select(docs, sel))
    decreases |docs|
  {
    if docs != [] {
      var init, x := docs[..|docs| - 1], docs[|docs| - 1];
      SelectIdsIncreasing(init, sel);
      SelectMembership(init, sel);
      var before := Select(init, sel);
      forall i | 0 <= i < |before|
        ensures before[i].id < x.id
      {
        assert before[i] in init;
      }
    }
  }

  /** The position of a stored document in its series. */
  lemma PositionInSeries(docs: seq<SaleDocument>, j: nat) returns (idx: nat)
    requires j < |docs|
    ensures idx < |OfType(docs, docs[j].typ)| && OfType(docs, docs[j].typ)[idx] == docs[j]
  {
    SelectMembership(docs, OfKind(docs[j].typ));
    assert docs[j] in OfType(docs, docs[j].typ);
    idx :| 0 <= idx < |OfType(docs, docs[j].typ)| && OfType(docs, docs[j].typ)[idx] == docs[j];
  }

  /** Deleting a document drops exactly it from its series, when no other
      document of the series cascades with it. */
  lemma SeriesAfterDelete(docs: seq<SaleDocument>, j: nat, idx: nat)
    requires IdsIncreasing(docs) && j < |docs|
    requires idx < |OfType(docs, docs[j].typ)| && OfType(docs, docs[j].typ)[idx] == docs[j]
    requires forall i :: 0 <= i < |docs| && docs[i].typ == docs[j].typ && docs[i].id != docs[j].id ==>
      docs[i].id !in Cascade(docs, docs[j].id)
    ensures var series := OfType(docs, docs[j].typ);
      OfType(Select(docs, Survives(Cascade(docs, docs[j].id))), docs[j].typ) == series[..idx] + series[idx + 1..]
  {
    var id, t := docs[j].id, docs[j].typ;
    var removed := Cascade(docs, id);
    var series := OfType(docs, t);
    SelectIdsIncreasing(docs, OfKind(t));
    SelectMembership(docs, OfKind(t));
    forall i | 0 <= i < |series| && i != idx
      ensures Selects(Survives(removed), series[i])
    {
      assert series[i] in docs;
      var q :| 0 <= q < |docs| && docs[q] == series[i];
      if i < idx { assert series[i].id < series[idx].id; } else { assert series[idx].id < series[i].id; }
    }
    DropOne(series, idx, removed);
    SelectCommutes(docs, Survives(removed), OfKind(t));
  }

  /** When every document but the one at `idx` survives the delete, the
      survivors are all the others. */
  lemma {:induction false} DropOne(series: seq<SaleDocument>, idx: nat, removed: set<DocId>)
    requires idx < |series| && series[idx].id in removed
    requires forall i :: 0 <= i < |series| && i != idx ==> Selects(Survives(removed), series[i])
    ensures Select(series, Survives(removed)) == series[..idx] + series[idx + 1..]
    decreases |series|
  {
    var init, x := series[..|series| - 1], series[|series| - 1];
    if idx == |series| - 1 {
      SelectKeepsAll(init, Survives(removed));
      assert series[idx + 1..] == [];
    } else {
      DropOne(init, idx, removed);
      assert series[..idx] + series[idx + 1..] == init[..idx] + init[idx + 1..] + [x];
    }
  }

  /** Renumbering the series `1 .. n` without its `k`-th document gives
      `1 .. n - 1`. */
  lemma RenumberClosesGap(series: seq<SaleDocument>, t: DocType, idx: nat)
    requires idx < |series|
    requires forall i :: 0 <= i < |series| ==> series[i].typ == t && series[i].number == FormatNumber(Prefix(t), i + 1)
    ensures var after := RenumberAll(series[..idx] + series[idx + 1..], t, idx + 1);
      forall p :: 0 <= p < |after| ==> after[p].number == FormatNumber(Prefix(t), p + 1)
  {
    var rest := series[..idx] + series[idx + 1..];
    var after := RenumberAll(rest, t, idx + 1);
    RenumberFormatted(rest, t, idx + 1, after);
    forall p | 0 <= p < |after|
      ensures after[p].number == FormatNumber(Prefix(t), p + 1)
    {
      if p < idx {
        assert rest[p] == series[p];
      } else {
        assert rest[p] == series[p + 1];
      }
    }
  }

  /** Deleting the document numbered `k` from a series numbered `1 .. n`
      leaves it numbered `1 .. n - 1`: the documents after it move down
      by one. (No other document of the series may cascade with the
      deleted one, which would remove it too.) */
  lemma DeleteShrinksSeries(docs: seq<SaleDocument>, j: nat, n: nat)
    requires IdsIncreasing(docs) && j < |docs|
    requires Contiguous(docs, docs[j].typ, n)
    requires forall i :: 0 <= i < |docs| && docs[i].typ == docs[j].typ && docs[i].id != docs[j].id ==>
      docs[i].id !in Cascade(docs, docs[j].id)
    ensures DeleteDocument(docs, docs[j].id).Ok?
    ensures n >= 1 && Contiguous(DeleteDocument(docs, docs[j].id).value, docs[j].typ, n - 1)
  {
    var idx := DeletedPosition(docs, j, n);
    ShrinkSurvivors(Select(docs, Survives(Cascade(docs, docs[j].id))), OfType(docs, docs[j].typ), docs[j].typ, idx);
    DeleteRenumbersAll(docs, docs[j].id, docs[j], idx + 1);
  }

  /** The deleted document's side of the shrink: it is found, it is the
      `idx`-th of its series `1 .. n` and numbered `idx + 1`, and its
      series loses exactly it. */
  lemma DeletedPosition(docs: seq<SaleDocument>, j: nat, n: nat) returns (idx: nat)
    requires IdsIncreasing(docs) && j < |docs|
    requires Contiguous(docs, docs[j].typ, n)
    requires forall i :: 0 <= i < |docs| && docs[i].typ == docs[j].typ && docs[i].id != docs[j].id ==>
      docs[i].id !in Cascade(docs, docs[j].id)
    ensures FindDoc(docs, docs[j].id) == Some(docs[j]) && TrailingNumber(docs[j].number) == Some(idx + 1)
    ensures var series := OfType(docs, docs[j].typ);
      && idx < |series| == n
      && (forall i :: 0 <= i < |series| ==> series[i].typ == docs[j].typ && series[i].number == FormatNumber(Prefix(docs[j].typ), i + 1))
      && OfType(Select(docs, Survives(Cascade(docs, docs[j].id))), docs[j].typ) == series[..idx] + series[idx + 1..]
  {
    FindStoredDoc(docs, j);
    idx := PositionInSeries(docs, j);
    TrailingNumberOfFormat(Prefix(docs[j].typ), idx + 1);
    SeriesAfterDelete(docs, j, idx);
    SelectedAreKept(docs, OfKind(docs[j].typ));
  }

  /** The survivors' side of the shrink: documents whose series is
      `1 .. n` without its `idx`-th document read in full, and renumber to
      a series `1 .. n - 1`. */
  lemma ShrinkSurvivors(remaining: seq<SaleDocument>, series: seq<SaleDocument>, t: DocType, idx: nat)
    requires idx < |series|
    requires forall i :: 0 <= i < |series| ==> series[i].typ == t && series[i].number == FormatNumber(Prefix(t), i + 1)
    requires OfType(remaining, t) == series[..idx] + series[idx + 1..]
    ensures forall i :: 0 <= i < |remaining| ==> !Unreadable(remaining[i], t)
    ensures Contiguous(RenumberAll(remaining, t, idx + 1), t, |series| - 1)
  {
    var rest := series[..idx] + series[idx + 1..];
    forall p | 0 <= p < |rest|
      ensures rest[p].number == FormatNumber(Prefix(t), if p < idx then p + 1 else p + 2)
    {
      if p < idx { assert rest[p] == series[p]; } else { assert rest[p] == series[p + 1]; }
    }
    ReadableWhenFormatted(remaining, t, rest, idx);
    RenumberAllOfType(remaining, t, idx + 1, t);
    RenumberClosesGap(series, t, idx);
  }

  /** A delete whose series reads in full renumbers every survivor. */
  lemma DeleteRenumbersAll(docs: seq<SaleDocument>, id: DocId, target: SaleDocument, k: nat)
    requires FindDoc(docs, id) == Some(target) && TrailingNumber(target.number) == Some(k)
    requires forall i :: 0 <= i < |Select(docs, Survives(Cascade(docs, id)))| ==> !Unreadable(Select(docs, Survives(Cascade(docs, id)))[i], target.typ)
    ensures DeleteDocument(docs, id) == Ok(RenumberAll(Select(docs, Survives(Cascade(docs, id))), target.typ, k))
  {
  }

  /** When a series is formatted, the delete's readability check passes. */
  lemma ReadableWhenFormatted(remaining: seq<SaleDocument>, t: DocType, rest: seq<SaleDocument>, idx: nat)
    requires OfType(remaining, t) == rest
    requires forall p :: 0 <= p < |rest| ==> rest[p].number == FormatNumber(Prefix(t), if p < idx then p + 1 else p + 2)
    ensures forall i :: 0 <= i < |remaining| ==> !Unreadable(remaining[i], t)
  {
    SelectMembership(remaining, OfKind(t));
    forall i | 0 <= i < |remaining| && remaining[i].typ == t
      ensures !Unreadable(remaining[i], t)
    {
      assert remaining[i] in rest;
      var p :| 0 <= p < |rest| && rest[p] == remaining[i];
      FormattedIsReadable(remaining[i], t, if p < idx then p + 1 else p + 2);
    }
  }

  /** On a formatted number `<prefix>-<m>` the renumbering is exactly
      "m - 1 when m is above the deleted number". */
  lemma RenumberFormatted(remaining: seq<SaleDocument>, t: DocType, k: nat, renumbered: seq<SaleDocument>)
    requires |renumbered| == |remaining|
    requires forall i :: 0 <= i < |remaining| ==> renumbered[i] == Renumbered(remaining[i], t, k)
    ensures forall i, m: nat ::
              (0 <= i < |remaining| && remaining[i].number == FormatNumber(Prefix(t), m) && remaining[i].typ == t) ==>
              renumbered[i].number == FormatNumber(Prefix(t), if m > k then m - 1 else m)
  {
    forall i, m: nat | 0 <= i < |remaining| && remaining[i].number == FormatNumber(Prefix(t), m) && remaining[i].typ == t
      ensures renumbered[i].number == FormatNumber(Prefix(t), if m > k then m - 1 else m)
    {
      FormattedPieces(t, m);
    }
  }

  /** `f"{prefix}-{m}".split('-') == [prefix, str(m)]` for a series prefix. */
  lemma FormattedPieces(t: DocType, m: nat)
    ensures Pieces(FormatNumber(Prefix(t), m)) == [Prefix(t), NatToString(m)]
    ensures ParseInt(NatToString(m)) == Some(m)
  {
    assert '-' !in Prefix(t);
    SplitPair(Prefix(t), '-', NatToString(m));
    ParseIntOfNatToString(m);
  }

  /** A formatted number of the series is never unreadable. */
  lemma FormattedIsReadable(d: SaleDocument, t: DocType, m: nat)
    requires d.number == FormatNumber(Prefix(t), m)
    ensures !Unreadable(d, t)
  {
    FormattedPieces(t, m);
  }

  // ----- The renaming walk as the code performs it -----

  /** The rows after `doc.save(update_fields=['number'])`: the document with
      id `id` gets the new number, every other row is unchanged. */
  function SetNumber(docs: seq<SaleDocument>, id: DocId, number: string): (r: seq<SaleDocument>)
    ensures |r| == |docs|
    ensures forall i :: 0 <= i < |docs| ==> r[i] == if docs[i].id == id then docs[i].(number := number) else docs[i]
  {
    seq(|docs|, i requires 0 <= i < |docs| => if docs[i].id == id then docs[i].(number := number) else docs[i])
  }

  /** `number` is `unique=True`: a row other than `id` already holds it. */
  predicate NumberTaken(docs: seq<SaleDocument>, id: DocId, number: string) {
    exists i :: 0 <= i < |docs| && docs[i].id != id && docs[i].number == number
  }

  /** The loop over `docs_to_update`: the documents are visited in `visit`
      order with the numbers they were read with, and each one the delete
      renumbers is written back on its own. A write whose new number is
      still held by another row, in the rows as they stand at that moment,
      raises `IntegrityError`, which nothing in the loop catches. */
  function RenameWalk(current: seq<SaleDocument>, visit: seq<SaleDocument>, t: DocType, deleted: nat): (r: Result<seq<SaleDocument>>)
    ensures r.Err? ==> r.error == DuplicateNumber
    ensures r.Ok? ==> |r.value| == |current|
    ensures r.Ok? ==> forall i :: 0 <= i < |current| ==> r.value[i] == current[i].(number := r.value[i].number)
    ensures (forall j :: 0 <= j < |visit| ==> !Renumbers(visit[j], t, deleted)) ==> r == Ok(current)
    decreases |visit|
  {
    if visit == [] then Ok(current)
    else
      var d := visit[0];
      if !Renumbers(d, t, deleted) then
        RenameWalk(current, visit[1..], t, deleted)
      else
        var number := Renumbered(d, t, deleted).number;
        if NumberTaken(current, d.id, number) then Err(DuplicateNumber)
        else RenameWalk(SetNumber(current, d.id, number), visit[1..], t, deleted)
  }

  /** `SaleDocument.delete` as the code behaves: the checks of
      DeleteDocument, then the later documents renamed one at a time in the
      default ordering, newest first. A failed rename rolls the whole delete
      back. */
  function DeleteDocumentWalk(docs: seq<SaleDocument>, id: DocId): (r: Result<seq<SaleDocument>>)
    ensures r == Err(NotFound) <==> FindDoc(docs, id).None?
    ensures r.Err? ==> r.error in {NotFound, MalformedNumber, DuplicateNumber}
    ensures DeleteDocument(docs, id).Err? ==> r == DeleteDocument(docs, id)
    ensures r.Err? && r.error != DuplicateNumber ==> r == DeleteDocument(docs, id)
    ensures r.Ok? ==> DeleteDocument(docs, id).Ok? && |r.value| == |DeleteDocument(docs, id).value|
    ensures r.Ok? ==> forall i :: 0 <= i < |r.value| ==>
      r.value[i] == DeleteDocument(docs, id).value[i].(number := r.value[i].number)
  {
    match FindDoc(docs, id)
    case None => Err(NotFound)
    case Some(target) =>
      var remaining := Select(docs, Survives(Cascade(docs, id)));
      var t := target.typ;
      match TrailingNumber(target.number)
      case None => Ok(remaining)
      case Some(k) =>
        if exists i :: 0 <= i < |remaining| && Unreadable(remaining[i], t) then Err(MalformedNumber)
        else RenameWalk(remaining, Sort(Newest, remaining), t, k)
  }

  /** A walk over a single row renames it: no other row can hold the new
      number. */
  lemma LoneRename(d: SaleDocument, t: DocType, k: nat)
    requires Renumbers(d, t, k)
    ensures RenameWalk([d], [d], t, k) == Ok([Renumbered(d, t, k)])
  {
    var number := Renumbered(d, t, k).number;
    assert !NumberTaken([d], d.id, number);
    assert SetNumber([d], d.id, number) == [Renumbered(d, t, k)];
    assert [d][1..] == [];
  }

  /** Whenever the code's delete succeeds, it leaves the documents exactly
      as the intended simultaneous renumbering does. */
  lemma DeleteWalkAgrees(docs: seq<SaleDocument>, id: DocId)
    requires IdsIncreasing(docs)
    ensures DeleteDocumentWalk(docs, id).Ok? ==> DeleteDocumentWalk(docs, id) == DeleteDocument(docs, id)
  {
    if FindDoc(docs, id).Some? && DeleteDocumentWalk(docs, id).Ok? {
      var target := FindDoc(docs, id).value;
      var remaining := Select(docs, Survives(Cascade(docs, id)));
      if TrailingNumber(target.number).Some? {
        var k := TrailingNumber(target.number).value;
        var visit := Sort(Newest, remaining);
        SelectIdsIncreasing(docs, Survives(Cascade(docs, id)));
        forall i | 0 <= i < |remaining| ensures remaining[i] in visit {
          assert remaining[i] in multiset(remaining);
        }
        forall j | 0 <= j < |visit| ensures visit[j] in remaining {
          assert visit[j] in multiset(visit);
        }
        WalkRenumbersAll(remaining, remaining, visit, target.typ, k);
      }
    }
  }

  /** The walk's bookkeeping: every row is either as stored or already
      renamed, every row not left to visit is renamed, and every visited
      document is a stored row. Then a walk that succeeds renames every
      row. */
  lemma {:induction false} WalkRenumbersAll(base: seq<SaleDocument>, current: seq<SaleDocument>, visit: seq<SaleDocument>, t: DocType, k: nat)
    requires IdsIncreasing(base) && |current| == |base|
    requires forall i :: 0 <= i < |base| ==> current[i] == base[i] || current[i] == Renumbered(base[i], t, k)
    requires forall i :: 0 <= i < |base| && base[i] !in visit ==> current[i] == Renumbered(base[i], t, k)
    requires forall j :: 0 <= j < |visit| ==> visit[j] in base
    ensures RenameWalk(current, visit, t, k).Ok? ==> RenameWalk(current, visit, t, k).value == RenumberAll(base, t, k)
    decreases |visit|
  {
    if visit == [] {
      assert current == RenumberAll(base, t, k);
    } else {
      var d := visit[0];
      var rest := visit[1..];
      assert visit == [d] + rest;
      var j :| 0 <= j < |base| && base[j] == d;
      var number := Renumbered(d, t, k).number;
      if !Renumbers(d, t, k) {
        assert Renumbered(d, t, k) == d;
        forall i | 0 <= i < |base| && base[i] !in rest ensures current[i] == Renumbered(base[i], t, k) {
          if base[i] in visit {
            assert base[i] == d;
          }
        }
        WalkRenumbersAll(base, current, rest, t, k);
      } else if !NumberTaken(current, d.id, number) {
        var next := SetNumber(current, d.id, number);
        assert Renumbered(d, t, k) == d.(number := number);
        forall i | 0 <= i < |base| ensures next[i] == base[i] || next[i] == Renumbered(base[i], t, k)
        {
          RenamedRow(base, current, next, d, j, i, t, k);
        }
        forall i | 0 <= i < |base| && base[i] !in rest ensures next[i] == Renumbered(base[i], t, k) {
          RenamedRow(base, current, next, d, j, i, t, k);
          if base[i] in visit {
            assert base[i] == d;
          }
        }
        WalkRenumbersAll(base, next, rest, t, k);
      }
    }
  }

  /** One step of the walk on one row: the visited document's own row takes
      its renamed number, every other row keeps what it had. */
  lemma RenamedRow(base: seq<SaleDocument>, current: seq<SaleDocument>, next: seq<SaleDocument>, d: SaleDocument, j: nat, i: nat, t: DocType, k: nat)
    requires IdsIncreasing(base) && |current| == |base| == |next|
    requires j < |base| && i < |base| && base[j] == d
    requires current[i] == base[i] || current[i] == Renumbered(base[i], t, k)
    requires next == SetNumber(current, d.id, Renumbered(d, t, k).number)
    ensures i == j ==> next[i] == Renumbered(base[i], t, k)
    ensures i != j ==> next[i] == current[i]
  {
    assert current[i].id == base[i].id;
    if i != j {
      assert base[i].id != base[j].id by {
        if i < j {} else {}
      }
    }
  }

  /** Three cash sales of one day, ТЧ-1, ТЧ-2 and ТЧ-3, with ids 1 to 3. */
  function SameDaySales(): seq<SaleDocument> {
    [ SaleDocument(1, Cash, FormatNumber(Prefix(Cash), 1), 0, 0, 1, None, "1", None, "", []),
      SaleDocument(2, Cash, FormatNumber(Prefix(Cash), 2), 0, 0, 1, None, "1", None, "", []),
      SaleDocument(3, Cash, FormatNumber(Prefix(Cash), 3), 0, 0, 1, None, "1", None, "", []) ]
  }

  /** Deleting ТЧ-1 of three same-day sales: the walk visits ТЧ-3 first and
      its new number ТЧ-2 is still held, so the code's delete fails, while
      the intended renumbering leaves ТЧ-1 and ТЧ-2. */
  lemma SameDayDeleteCollides()
    ensures DeleteDocumentWalk(SameDaySales(), 1) == Err(DuplicateNumber)
    ensures DeleteDocument(SameDaySales(), 1).Ok?
    ensures Contiguous(DeleteDocument(SameDaySales(), 1).value, Cash, 2)
  {
    SameDayWalk();
    SameDayShrinks();
  }

  /** The intended delete of ТЧ-1 leaves a series of two. */
  lemma SameDayShrinks()
    ensures DeleteDocument(SameDaySales(), 1).Ok?
    ensures Contiguous(DeleteDocument(SameDaySales(), 1).value, Cash, 2)
  {
    var docs := SameDaySales();
    SameDaySeries();
    SameDaySurvivors();
    LoneCascadeSpares(docs, 0);
    DeleteShrinksSeries(docs, 0, 3);
  }

  /** A document removed alone takes no other document with it. */
  lemma LoneCascadeSpares(docs: seq<SaleDocument>, j: nat)
    requires j < |docs| && Cascade(docs, docs[j].id) == {docs[j].id}
    ensures forall i :: 0 <= i < |docs| && docs[i].typ == docs[j].typ && docs[i].id != docs[j].id ==>
      docs[i].id !in Cascade(docs, docs[j].id)
  {
  }

  /** The code's delete of ТЧ-1 reaches the walk, whose first rename fails. */
  lemma SameDayWalk()
    ensures DeleteDocumentWalk(SameDaySales(), 1) == Err(DuplicateNumber)
  {
    var docs := SameDaySales();
    var remaining := [docs[1], docs[2]];
    SameDaySurvivors();
    TrailingNumberOfFormat(Prefix(Cash), 1);
    SameDayReadable();
    SameDayOrder();
    SameDayFirstRenameTaken();
    DeleteWalkFailsFirst(docs, 1, docs[0], 1, remaining);
  }

  /** Both survivors carry formatted numbers. */
  lemma SameDayReadable()
    ensures forall i :: 0 <= i < 2 ==> !Unreadable([SameDaySales()[1], SameDaySales()[2]][i], Cash)
  {
    FormattedIsReadable(SameDaySales()[1], Cash, 2);
    FormattedIsReadable(SameDaySales()[2], Cash, 3);
  }

  /** A delete whose walk cannot rename the first document it visits fails
      as a whole. */
  lemma DeleteWalkFailsFirst(docs: seq<SaleDocument>, id: DocId, target: SaleDocument, k: nat, remaining: seq<SaleDocument>)
    requires FindDoc(docs, id) == Some(target) && TrailingNumber(target.number) == Some(k)
    requires Select(docs, Survives(Cascade(docs, id))) == remaining
    requires forall i :: 0 <= i < |remaining| ==> !Unreadable(remaining[i], target.typ)
    requires Sort(Newest, remaining) != [] && Renumbers(Sort(Newest, remaining)[0], target.typ, k)
    requires NumberTaken(remaining, Sort(Newest, remaining)[0].id, Renumbered(Sort(Newest, remaining)[0], target.typ, k).number)
    ensures DeleteDocumentWalk(docs, id) == Err(DuplicateNumber)
  {
    FirstRenameFails(remaining, Sort(Newest, remaining), target.typ, k);
  }

  /** A delete that leaves one document of the series after the deleted one
      renames it, whatever the ordering. */
  lemma DeleteWalkLone(docs: seq<SaleDocument>, id: DocId, target: SaleDocument, k: nat, d: SaleDocument)
    requires FindDoc(docs, id) == Some(target) && TrailingNumber(target.number) == Some(k)
    requires Select(docs, Survives(Cascade(docs, id))) == [d] && Renumbers(d, target.typ, k)
    ensures DeleteDocumentWalk(docs, id) == Ok([Renumbered(d, target.typ, k)])
  {
    assert !Unreadable(d, target.typ);
    SortSingle(Newest, d);
    LoneRename(d, target.typ, k);
  }

  /** A walk whose first visited document cannot take its new number fails. */
  lemma FirstRenameFails(current: seq<SaleDocument>, visit: seq<SaleDocument>, t: DocType, k: nat)
    requires visit != [] && Renumbers(visit[0], t, k)
    requires NumberTaken(current, visit[0].id, Renumbered(visit[0], t, k).number)
    ensures RenameWalk(current, visit, t, k) == Err(DuplicateNumber)
  {
  }

  /** ТЧ-1 is found, and ТЧ-2 and ТЧ-3 survive its delete. */
  lemma SameDaySurvivors()
    ensures FindDoc(SameDaySales(), 1) == Some(SameDaySales()[0])
    ensures Cascade(SameDaySales(), 1) == {1}
    ensures Select(SameDaySales(), Survives(Cascade(SameDaySales(), 1))) == [SameDaySales()[1], SameDaySales()[2]]
  {
    var docs := SameDaySales();
    CascadeAlone(docs, 1);
    var a, b := docs[0], docs[1];
    assert docs[..1] == [a];
    assert docs[..2] == [a, b];
    assert [a, b][..1] == [a];
    assert [a][..0] == [];
    assert Select([a], Survives({1})) == [];
    assert Select([a, b], Survives({1})) == [b];
  }

  /** Newest first: on one day, ТЧ-3 (id 3) comes before ТЧ-2 (id 2). */
  lemma SameDayOrder()
    ensures Sort(Newest, [SameDaySales()[1], SameDaySales()[2]]) == [SameDaySales()[2], SameDaySales()[1]]
  {
    var b, c := SameDaySales()[1], SameDaySales()[2];
    assert !Le(Newest, b, c);
    SortPair(Newest, b, c);
  }

  /** Two documents sort in swapped order when the second comes first. */
  lemma SortPair(o: Ordering, b: SaleDocument, c: SaleDocument)
    requires !Le(o, b, c)
    ensures Sort(o, [b, c]) == [c, b]
  {
    assert [b, c][..1] == [b];
    assert [b][..0] == [];
    assert Sort(o, [b]) == [b];
  }

  /** ТЧ-3 is renamed ТЧ-2 while ТЧ-2 still holds that number. */
  lemma SameDayFirstRenameTaken()
    ensures Renumbers(SameDaySales()[2], Cash, 1)
    ensures NumberTaken([SameDaySales()[1], SameDaySales()[2]], 3, Renumbered(SameDaySales()[2], Cash, 1).number)
  {
    var b, c := SameDaySales()[1], SameDaySales()[2];
    FormattedPieces(Cash, 3);
    assert Renumbered(c, Cash, 1).number == b.number;
    assert [b, c][0].id != 3 && [b, c][0].number == b.number;
  }

  /** The three sales form the cash series ТЧ-1 .. ТЧ-3. */
  lemma SameDaySeries()
    ensures IdsIncreasing(SameDaySales())
    ensures Contiguous(SameDaySales(), Cash, 3)
  {
    var docs := SameDaySales();
    SelectKeepsAll(docs, OfKind(Cash));
  }

  /** The series shrinks by one whenever the code's delete goes through. */
  lemma DeleteWalkShrinksSeries(docs: seq<SaleDocument>, j: nat, n: nat)
    requires IdsIncreasing(docs) && j < |docs|
    requires Contiguous(docs, docs[j].typ, n)
    requires forall i :: 0 <= i < |docs| && docs[i].typ == docs[j].typ && docs[i].id != docs[j].id ==>
      docs[i].id !in Cascade(docs, docs[j].id)
    requires DeleteDocumentWalk(docs, docs[j].id).Ok?
    ensures n >= 1 && Contiguous(DeleteDocumentWalk(docs, docs[j].id).value, docs[j].typ, n - 1)
  {
    DeleteWalkAgrees(docs, docs[j].id);
    DeleteShrinksSeries(docs, j, n);
  }
}
