/** The dashboard of `home`: sales figures over three windows ending today
    and all time, counting cash and cashless documents only, and the
    all-time total of returns. An empty sum is 0. */
module Dashboard {
  import opened Entities
  import opened Selection

  datatype Stats = Stats(salesToday: Money, salesWeek: Money, salesMonth: Money, salesAll: Money, returnsAll: Money)

  /** `SaleDocument.objects.exclude(type='return')`. */
  const Sales: Selector := NotOfKind(Return)

  /** `filter(...).aggregate(Sum('total'))['total'] or 0`, accumulated
      document by document: the total of each document `sel` keeps. */
  function SumOf(docs: seq<SaleDocument>, sel: Selector): Money {
    if docs == [] then 0
    else
      var last := docs[|docs| - 1];
      SumOf(docs[..|docs| - 1], sel) + if Selects(sel, last) then last.total else 0
  }

  /** The aggregate is the total of the filtered documents. */
  lemma {:induction false} SumOfSelection(docs: seq<SaleDocument>, sel: Selector)
    ensures SumOf(docs, sel) == SumTotals(Select(docs, sel))
  {
    if docs != [] {
      var init, x := docs[..|docs| - 1], docs[|docs| - 1];
      var before := Select(init, sel);
      var step := if Selects(sel, x) then x.total else 0;
      assert SumTotals(Select(docs, sel)) == SumTotals(before) + step by {
        if Selects(sel, x) {
          assert Select(docs, sel) == before + [x];
          SumTotalsAppend(before, x);
        } else {
          assert Select(docs, sel) == before + [];
          assert before + [] == before;
        }
      }
      assert SumOf(docs, sel) == SumOf(init, sel) + step;
      SumOfSelection(init, sel);
    }
  }

  /** `home`: the five figures for the day `today`. */
  function Home(docs: seq<SaleDocument>, today: Date): (r: Stats)
    ensures r.salesAll + r.returnsAll == SumTotals(docs)
  {
    SplitByKind(docs, Return);
    Stats(
      SumOf(docs, Both(Sales, OnDay(today))),
      SumOf(docs, Both(Sales, From(today - 7))),
      SumOf(docs, Both(Sales, From(today - 30))),
      SumOf(docs, Sales),
      SumOf(docs, OfKind(Return)))
  }

  /** A filter's sum after one more document: it grows by that document's
      total exactly when the filter keeps it. */
  lemma SumOfAppend(docs: seq<SaleDocument>, d: SaleDocument, sel: Selector)
    ensures SumOf(docs + [d], sel) == SumOf(docs, sel) + if Selects(sel, d) then d.total else 0
  {
    assert (docs + [d])[..|docs|] == docs;
  }

  /** Every document is of kind `t` or not: the two sums make up the whole. */
  lemma {:induction false} SplitByKind(docs: seq<SaleDocument>, t: DocType)
    ensures SumTotals(docs) == SumOf(docs, OfKind(t)) + SumOf(docs, NotOfKind(t))
  {
    if docs != [] {
      var init, x := docs[..|docs| - 1], docs[|docs| - 1];
      assert docs == init + [x];
      SplitByKind(init, t);
      SumOfAppend(init, x, OfKind(t));
      SumOfAppend(init, x, NotOfKind(t));
    }
  }

  /** A wider filter sums at least as much when the documents only it keeps
      have non-negative totals. */
  lemma {:induction false} SumOfWider(docs: seq<SaleDocument>, narrow: Selector, wide: Selector)
    requires forall i :: 0 <= i < |docs| ==> Selects(narrow, docs[i]) ==> Selects(wide, docs[i])
    requires forall i :: 0 <= i < |docs| ==> Selects(wide, docs[i]) && !Selects(narrow, docs[i]) ==> docs[i].total >= 0
    ensures SumOf(docs, narrow) <= SumOf(docs, wide)
  {
    if docs != [] {
      var init, x := docs[..|docs| - 1], docs[|docs| - 1];
      assert docs == init + [x];
      SumOfWider(init, narrow, wide);
      SumOfAppend(init, x, narrow);
      SumOfAppend(init, x, wide);
    }
  }

  /** With no negative sale totals, the windows are nested: today, the
      week, the month and all time sum to ever larger figures. */
  lemma WindowsNested(docs: seq<SaleDocument>, today: Date)
    requires forall i :: 0 <= i < |docs| ==> docs[i].typ != Return ==> docs[i].total >= 0
    ensures var r := Home(docs, today);
      r.salesToday <= r.salesWeek <= r.salesMonth <= r.salesAll
  {
    SumOfWider(docs, Both(Sales, OnDay(today)), Both(Sales, From(today - 7)));
    SumOfWider(docs, Both(Sales, From(today - 7)), Both(Sales, From(today - 30)));
    SumOfWider(docs, Both(Sales, From(today - 30)), Sales);
  }

  /** One more document changes exactly the figures it belongs to: a return
      only the returns total, a sale the all-time sales and each window
      holding its date. */
  lemma HomeStep(docs: seq<SaleDocument>, d: SaleDocument, today: Date)
    ensures var before, after := Home(docs, today), Home(docs + [d], today);
      var sale := d.typ != Return;
      && after.salesToday == before.salesToday + (if sale && d.date == today then d.total else 0)
      && after.salesWeek == before.salesWeek + (if sale && d.date >= today - 7 then d.total else 0)
      && after.salesMonth == before.salesMonth + (if sale && d.date >= today - 30 then d.total else 0)
      && after.salesAll == before.salesAll + (if sale then d.total else 0)
      && after.returnsAll == before.returnsAll + (if sale then 0 else d.total)
  {
    SumOfAppend(docs, d, Both(Sales, OnDay(today)));
    SumOfAppend(docs, d, Both(Sales, From(today - 7)));
    SumOfAppend(docs, d, Both(Sales, From(today - 30)));
    SumOfAppend(docs, d, Sales);
    SumOfAppend(docs, d, OfKind(Return));
  }
}
