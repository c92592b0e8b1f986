/** `SalesReport.generate_report_data`: the documents of a date range
    (optionally of one type) walked in date and id order, summed into a
    section per type with entries per date, a grand total and a total per
    date; then laid out as rows. */
module FormattedReport {
  import opened Base
  import opened Entities
  import opened Selection
  import opened Sorting
  import opened Buckets

  /** One type's part of the report data: its total and its date entries. */
  datatype Section = Section(total: Money, byDate: seq<Bucket>)

  datatype ReportRow =
    | Header(start: Date, end: Date)
    | GroupHeader(typ: DocType)
    | GroupTotal(typ: DocType, total: Money)
    | DateHeader(typ: DocType, date: Date, total: Money)
    // A document's line carries its number, date and total; the customer
    // collected with it into the grouped data is not emitted.
    | DocumentLine(typ: DocType, number: string, date: Date, total: Money)
    | GrandTotal(total: Money)
    | DateTotal(date: Date, total: Money)

  /** `date__range=[start, end]` and, unless the report is of all types,
      `type=report_type`. */
  function RangeSelector(start: Date, end: Date, reportType: Option<DocType>): Selector {
    Both(Both(From(start), Until(end)), if reportType.Some? then OfKind(reportType.value) else Anything)
  }

  /** A type's section as the documents of that type alone determine it. */
  function SectionOf(s: seq<SaleDocument>, t: DocType): Section {
    Section(SumTotals(OfType(s, t)), BucketsOf(OfType(s, t)))
  }

  function DocRows(t: DocType, docs: seq<SaleDocument>): (r: seq<ReportRow>)
    ensures |r| == |docs|
    ensures forall i :: 0 <= i < |docs| ==> r[i] == DocumentLine(t, docs[i].number, docs[i].date, docs[i].total)
  {
    seq(|docs|, i requires 0 <= i < |docs| => DocumentLine(t, docs[i].number, docs[i].date, docs[i].total))
  }

  /** A date header per entry, followed by its documents. */
  function DateRows(t: DocType, buckets: seq<Bucket>): seq<ReportRow> {
    if buckets == [] then []
    else
      var b := buckets[|buckets| - 1];
      DateRows(t, buckets[..|buckets| - 1]) + [DateHeader(t, b.date, b.total)] + DocRows(t, b.docs)
  }

  /** A section's rows: nothing unless its total is positive. */
  function SectionRows(t: DocType, sec: Section): seq<ReportRow> {
    if sec.total > 0 then [GroupHeader(t), GroupTotal(t, sec.total)] + DateRows(t, sec.byDate) else []
  }

  function DayTotalRows(buckets: seq<Bucket>): (r: seq<ReportRow>)
    ensures |r| == |buckets|
    ensures forall i :: 0 <= i < |buckets| ==> r[i] == DateTotal(buckets[i].date, buckets[i].total)
  {
    seq(|buckets|, i requires 0 <= i < |buckets| => DateTotal(buckets[i].date, buckets[i].total))
  }

  /** The formatting half of `generate_report_data`: the header, the
      sections with a positive total in the order cashless, cash, return,
      the grand total, then the total of every date. */
  function Assemble(start: Date, end: Date, cashless: Section, cash: Section, refunds: Section,
                    grand: Money, byDateTotal: seq<Bucket>): seq<ReportRow> {
    [Header(start, end)]
    + SectionRows(Cashless, cashless) + SectionRows(Cash, cash) + SectionRows(Return, refunds)
    + [GrandTotal(grand)]
    + DayTotalRows(byDateTotal)
  }

  /** The rows for documents `s` (already in report order), stated per type
      and per date independently of the walk that builds them. */
  function Layout(start: Date, end: Date, s: seq<SaleDocument>): seq<ReportRow> {
    Assemble(start, end, SectionOf(s, Cashless), SectionOf(s, Cash), SectionOf(s, Return), SumTotals(s), BucketsOf(s))
  }

  /** The documents of the report in `order_by('date', 'id')`. */
  function RangeDocs(docs: seq<SaleDocument>, start: Date, end: Date, reportType: Option<DocType>): seq<SaleDocument> {
    Sort(ByDateThenId, Select(docs, RangeSelector(start, end, reportType)))
  }

  lemma {:induction false} PrefixStep(s: seq<SaleDocument>, i: nat, t: DocType)
    requires i < |s|
    ensures s[..i + 1] == s[..i] + [s[i]]
    ensures OfType(s[..i + 1], t) == OfType(s[..i], t) + (if s[i].typ == t then [s[i]] else [])
    ensures BucketsOf(s[..i + 1]) == AddToBuckets(BucketsOf(s[..i]), s[i])
    ensures SumTotals(s[..i + 1]) == SumTotals(s[..i]) + s[i].total
  {
    assert s[..i + 1][..i] == s[..i];
  }

  /** One document added to the section it belongs to. */
  function AddToSection(sec: Section, d: SaleDocument): Section {
    Section(sec.total + d.total, AddToBuckets(sec.byDate, d))
  }

  /** The section of type `t` after one more document. */
  lemma SectionStep(s: seq<SaleDocument>, i: nat, t: DocType)
    requires i < |s|
    ensures SectionOf(s[..i + 1], t) == if s[i].typ == t then AddToSection(SectionOf(s[..i], t), s[i]) else SectionOf(s[..i], t)
  {
    var before, after := OfType(s[..i], t), OfType(s[..i + 1], t);
    assert after == before + (if s[i].typ == t then [s[i]] else []) by {
      PrefixStep(s, i, t);
    }
    if s[i].typ == t {
      SeriesStep(before, s[i]);
      assert SectionOf(s[..i + 1], t) == Section(SumTotals(before + [s[i]]), BucketsOf(before + [s[i]]));
    } else {
      assert after == before;
    }
  }

  /** The accumulation loop of `generate_report_data` over documents
      already in report order: the three sections, the per-date totals
      and the grand total. */
  method Accumulate(ordered: seq<SaleDocument>)
    returns (cashless: Section, cash: Section, refunds: Section, byDateTotal: seq<Bucket>, grand: Money)
    ensures cashless == SectionOf(ordered, Cashless)
    ensures cash == SectionOf(ordered, Cash)
    ensures refunds == SectionOf(ordered, Return)
    ensures byDateTotal == BucketsOf(ordered)
    ensures grand == SumTotals(ordered)
  {
    cashless, cash, refunds := Section(0, []), Section(0, []), Section(0, []);
    byDateTotal := [];
    grand := 0;
    var i := 0;
    assert ordered[..i] == [];
    while i < |ordered|
      invariant 0 <= i <= |ordered|
      invariant cashless == SectionOf(ordered[..i], Cashless)
      invariant cash == SectionOf(ordered[..i], Cash)
      invariant refunds == SectionOf(ordered[..i], Return)
      invariant byDateTotal == BucketsOf(ordered[..i])
      invariant grand == SumTotals(ordered[..i])
    {
      var d := ordered[i];
      SectionStep(ordered, i, Cashless);
      SectionStep(ordered, i, Cash);
      SectionStep(ordered, i, Return);
      PrefixStep(ordered, i, d.typ);
      if d.typ == Cashless {
        cashless := AddToSection(cashless, d);
      } else if d.typ == Cash {
        cash := AddToSection(cash, d);
      } else {
        refunds := AddToSection(refunds, d);
      }
      byDateTotal := AddToBuckets(byDateTotal, d);
      grand := grand + d.total;
      i := i + 1;
    }
    assert ordered[..i] == ordered;
  }

  /** `generate_report_data`: the rows of the report for the documents of
      the range and type, walked in date and id order. */
  method GenerateReportData(docs: seq<SaleDocument>, start: Date, end: Date, reportType: Option<DocType>)
    returns (rows: seq<ReportRow>)
    ensures rows == Layout(start, end, RangeDocs(docs, start, end, reportType))
  {
    var ordered := RangeDocs(docs, start, end, reportType);
    var cashless, cash, refunds, byDateTotal, grand := Accumulate(ordered);
    rows := Assemble(start, end, cashless, cash, refunds, grand, byDateTotal);
  }

  // ----- Properties of the report -----

  /** The grand total is the sum of the three section totals. */
  lemma {:induction false} GrandTotalSplits(s: seq<SaleDocument>)
    ensures SumTotals(s) == SumTotals(OfType(s, Cashless)) + SumTotals(OfType(s, Cash)) + SumTotals(OfType(s, Return))
  {
    if s != [] {
      var init, x := s[..|s| - 1], s[|s| - 1];
      assert s == init + [x];
      GrandTotalSplits(init);
      SumTotalsAppend(init, x);
      SeriesTotalStep(init, x, Cashless);
      SeriesTotalStep(init, x, Cash);
      SeriesTotalStep(init, x, Return);
    }
  }

  lemma SeriesTotalStep(init: seq<SaleDocument>, x: SaleDocument, t: DocType)
    ensures SumTotals(OfType(init + [x], t)) == SumTotals(OfType(init, t)) + if x.typ == t then x.total else 0
  {
    OfTypeAppend(init, x, t);
    if x.typ == t {
      SumTotalsAppend(OfType(init, t), x);
    } else {
      assert OfType(init, t) + [] == OfType(init, t);
    }
  }

  /** The report's totals agree: the grand total is the sum of the
      sections and also of the per-date totals; within a section every
      date entry's total is the sum of its documents. */
  lemma TotalsAgree(s: seq<SaleDocument>)
    ensures SumTotals(s) == SectionOf(s, Cashless).total + SectionOf(s, Cash).total + SectionOf(s, Return).total
    ensures SumTotals(s) == SumBuckets(BucketsOf(s))
    ensures forall t, k :: 0 <= k < |SectionOf(s, t).byDate| ==>
      SectionOf(s, t).byDate[k].total == SumTotals(SectionOf(s, t).byDate[k].docs)
  {
    GrandTotalSplits(s);
    BucketsOfSpec(s);
    forall t ensures Faithful(OfType(s, t), BucketsOf(OfType(s, t))) {
      BucketsOfSpec(OfType(s, t));
    }
  }

  /** Rows that belong to a type section. */
  predicate SectionRow(r: ReportRow) {
    r.GroupHeader? || r.GroupTotal? || r.DateHeader? || r.DocumentLine?
  }

  lemma {:induction false} DateRowsKinds(t: DocType, buckets: seq<Bucket>)
    ensures forall i :: 0 <= i < |DateRows(t, buckets)| ==>
      DateRows(t, buckets)[i].DateHeader? || DateRows(t, buckets)[i].DocumentLine?
  {
    if buckets != [] {
      DateRowsKinds(t, buckets[..|buckets| - 1]);
    }
  }

  lemma SectionRowsKinds(t: DocType, sec: Section)
    ensures forall i :: 0 <= i < |SectionRows(t, sec)| ==> SectionRow(SectionRows(t, sec)[i])
  {
    DateRowsKinds(t, sec.byDate);
  }

  lemma FrameShape(h: ReportRow, sections: seq<ReportRow>, g: ReportRow, days: seq<ReportRow>)
    requires forall i :: 0 <= i < |sections| ==> SectionRow(sections[i])
    requires forall i :: 0 <= i < |days| ==> days[i].DateTotal?
    ensures var rows := [h] + sections + [g] + days;
      var p := |rows| - |days| - 1;
      && p == |sections| + 1 && rows[0] == h && rows[p] == g
      && (forall i :: 0 < i < p ==> SectionRow(rows[i]))
      && (forall i :: p < i < |rows| ==> rows[i].DateTotal?)
  {
    var rows := [h] + sections + [g] + days;
    forall i | 0 < i < |sections| + 1 ensures SectionRow(rows[i]) {
      assert rows[i] == sections[i - 1];
    }
    forall i | |sections| + 1 < i < |rows| ensures rows[i].DateTotal? {
      assert rows[i] == days[i - |sections| - 2];
    }
  }

  /** The frame of any assembled report: the header first, then only
      section rows, then the grand total, then one row per date entry. */
  lemma AssembleFrame(start: Date, end: Date, a: Section, b: Section, c: Section, grand: Money, days: seq<Bucket>)
    ensures var rows := Assemble(start, end, a, b, c, grand, days);
      var p := |rows| - |days| - 1;
      && 0 < p < |rows|
      && rows[0] == Header(start, end)
      && (forall i :: 0 < i < p ==> SectionRow(rows[i]))
      && rows[p] == GrandTotal(grand)
      && (forall i :: p < i < |rows| ==> rows[i].DateTotal?)
  {
    var ra, rb, rc := SectionRows(Cashless, a), SectionRows(Cash, b), SectionRows(Return, c);
    SectionRowsKinds(Cashless, a);
    SectionRowsKinds(Cash, b);
    SectionRowsKinds(Return, c);
    var sections := ra + rb + rc;
    forall i | 0 <= i < |sections| ensures SectionRow(sections[i]) {
      if i < |ra| { assert sections[i] == ra[i]; }
      else if i < |ra| + |rb| { assert sections[i] == rb[i - |ra|]; }
      else { assert sections[i] == rc[i - |ra| - |rb|]; }
    }
    FrameShape(Header(start, end), sections, GrandTotal(grand), DayTotalRows(days));
    assert Assemble(start, end, a, b, c, grand, days) == [Header(start, end)] + sections + [GrandTotal(grand)] + DayTotalRows(days);
  }

  /** The frame of the report on documents `s`: the row before the date
      totals is the grand total of all of `s`, and there is one date total
      per date of `s`. */
  lemma LayoutFrame(start: Date, end: Date, s: seq<SaleDocument>)
    ensures var rows := Layout(start, end, s);
      var p := |rows| - |BucketsOf(s)| - 1;
      && 0 < p < |rows|
      && rows[0] == Header(start, end)
      && (forall i :: 0 < i < p ==> SectionRow(rows[i]))
      && rows[p] == GrandTotal(SumTotals(s))
      && (forall i :: p < i < |rows| ==> rows[i] == DateTotal(BucketsOf(s)[i - p - 1].date, BucketsOf(s)[i - p - 1].total))
  {
    var days := BucketsOf(s);
    AssembleFrame(start, end, SectionOf(s, Cashless), SectionOf(s, Cash), SectionOf(s, Return), SumTotals(s), days);
    var rows := Layout(start, end, s);
    var p := |rows| - |days| - 1;
    assert rows[p + 1..] == DayTotalRows(days);
  }

  /** The types whose group header appears, in order of appearance. */
  function GroupOrder(rows: seq<ReportRow>): seq<DocType> {
    if rows == [] then []
    else
      var last := rows[|rows| - 1];
      GroupOrder(rows[..|rows| - 1]) + (if last.GroupHeader? then [last.typ] else [])
  }

  lemma {:induction false} GroupOrderConcat(a: seq<ReportRow>, b: seq<ReportRow>)
    ensures GroupOrder(a + b) == GroupOrder(a) + GroupOrder(b)
    decreases |b|
  {
    if b == [] {
      assert a + b == a;
    } else {
      var init := b[..|b| - 1];
      assert (a + b)[..|a + b| - 1] == a + init;
      GroupOrderConcat(a, init);
    }
  }

  lemma GroupOrderConcat5(a: seq<ReportRow>, b: seq<ReportRow>, c: seq<ReportRow>, d: seq<ReportRow>, e: seq<ReportRow>)
    ensures GroupOrder(a + b + c + d + e) == GroupOrder(a) + GroupOrder(b) + GroupOrder(c) + GroupOrder(d) + GroupOrder(e)
  {
    GroupOrderConcat(a, b);
    GroupOrderConcat(a + b, c);
    GroupOrderConcat(a + b + c, d);
    GroupOrderConcat(a + b + c + d, e);
  }

  lemma {:induction false} GroupOrderNone(rows: seq<ReportRow>)
    requires forall i :: 0 <= i < |rows| ==> !rows[i].GroupHeader?
    ensures GroupOrder(rows) == []
  {
    if rows != [] {
      GroupOrderNone(rows[..|rows| - 1]);
    }
  }

  lemma GroupOrderOfSection(t: DocType, sec: Section)
    ensures GroupOrder(SectionRows(t, sec)) == if sec.total > 0 then [t] else []
  {
    DateRowsKinds(t, sec.byDate);
    GroupOrderNone(DateRows(t, sec.byDate));
    if sec.total > 0 {
      var head := [GroupHeader(t), GroupTotal(t, sec.total)];
      GroupOrderConcat(head, DateRows(t, sec.byDate));
      assert head[..1] == [GroupHeader(t)];
      assert [GroupHeader(t)][..0] == [];
      assert GroupOrder([GroupHeader(t)]) == [t];
      assert GroupOrder(head) == [t];
    } else {
      assert SectionRows(t, sec) == [];
    }
  }

  /** Only sections with a positive total appear, always in the order
      cashless, cash, return. */
  lemma SectionsInFixedOrder(start: Date, end: Date, a: Section, b: Section, c: Section, grand: Money, days: seq<Bucket>)
    ensures GroupOrder(Assemble(start, end, a, b, c, grand, days)) ==
      (if a.total > 0 then [Cashless] else []) + (if b.total > 0 then [Cash] else []) + (if c.total > 0 then [Return] else [])
  {
    var ra, rb, rc := SectionRows(Cashless, a), SectionRows(Cash, b), SectionRows(Return, c);
    GroupOrderOfSection(Cashless, a);
    GroupOrderOfSection(Cash, b);
    GroupOrderOfSection(Return, c);
    FrameHasNoGroups(start, end, grand, days);
    GroupOrderOfFrame([Header(start, end)], ra, rb, rc, [GrandTotal(grand)], DayTotalRows(days),
                      GroupOrder(ra), GroupOrder(rb), GroupOrder(rc));
  }

  /** The rows around the sections carry no group header. */
  lemma FrameHasNoGroups(start: Date, end: Date, grand: Money, days: seq<Bucket>)
    ensures GroupOrder([Header(start, end)]) == []
    ensures GroupOrder([GrandTotal(grand)]) == []
    ensures GroupOrder(DayTotalRows(days)) == []
  {
    GroupOrderNone([Header(start, end)]);
    GroupOrderNone([GrandTotal(grand)]);
    GroupOrderNone(DayTotalRows(days));
  }

  /** Group headers only inside the three sections: the order is theirs. */
  lemma GroupOrderOfFrame(h: seq<ReportRow>, ra: seq<ReportRow>, rb: seq<ReportRow>, rc: seq<ReportRow>,
                          g: seq<ReportRow>, dd: seq<ReportRow>, oa: seq<DocType>, ob: seq<DocType>, oc: seq<DocType>)
    requires GroupOrder(h) == [] && GroupOrder(g) == [] && GroupOrder(dd) == []
    requires GroupOrder(ra) == oa && GroupOrder(rb) == ob && GroupOrder(rc) == oc
    ensures GroupOrder(h + ra + rb + rc + g + dd) == oa + ob + oc
  {
    GroupOrderConcat5(h, ra, rb, rc, g);
    GroupOrderConcat(h + ra + rb + rc + g, dd);
    assert [] + oa + ob + oc + [] + [] == oa + ob + oc;
  }

  /** In report order the dates of every section, and of the per-date
      totals, ascend. */
  lemma DatesAscend(docs: seq<SaleDocument>, start: Date, end: Date, reportType: Option<DocType>, t: DocType)
    ensures var s := RangeDocs(docs, start, end, reportType);
      Ascending(BucketsOf(s)) && Ascending(SectionOf(s, t).byDate)
  {
    var s := RangeDocs(docs, start, end, reportType);
    assert forall i, j :: 0 <= i < j < |s| ==> Le(ByDateThenId, s[i], s[j]);
    BucketsAscend(s);
    SelectSorted(ByDateThenId, s, OfKind(t));
    var mine := OfType(s, t);
    assert forall i, j :: 0 <= i < j < |mine| ==> Le(ByDateThenId, mine[i], mine[j]);
    BucketsAscend(mine);
  }
}
