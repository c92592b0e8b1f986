/** The `sales_report` view: the documents the form's filters select,
    ordered by type then date, grouped by type and then by date, with a
    total per date, per type and overall. */
module SalesView {
  import opened Base
  import opened Entities
  import opened Selection
  import opened Sorting
  import opened Buckets
  import opened Forms

  /** One type's entry: its total and its dates' entries. */
  datatype TypeGroup = TypeGroup(typ: DocType, total: Money, dates: seq<Bucket>)

  /** The page's data: the type groups in dictionary order and the
      overall total. */
  datatype SalesReport = SalesReport(groups: seq<TypeGroup>, overall: Money)

  /** The cleaned form: a type (None for all), and optional bounds. */
  datatype ReportQuery = ReportQuery(reportType: Option<DocType>, start: Option<Date>, end: Option<Date>)

  /** The query string of a report request: none at all, so that
      `request.GET or None` leaves the form unbound, or the three raw
      fields, each date already read as absent, malformed or a date. */
  datatype ReportRequest = NoQuery | Query(typeKey: string, start: DateParam, end: DateParam)

  /** The form's field cleaning: an unbound form, a `report_type` outside
      its choices or a date that does not parse leaves nothing (None);
      otherwise the cleaned fields, with an empty field as no filter. */
  function ReportFields(req: ReportRequest): (r: Option<ReportQuery>)
    ensures req.NoQuery? ==> r.None?
    ensures req.Query? ==>
      (r.Some? <==> ReportChoice(req.typeKey).Some? && !req.start.Malformed? && !req.end.Malformed?)
    ensures r.Some? ==> forall t :: r.value.reportType == Some(t) <==> TypeKey(t) == req.typeKey
    ensures r.Some? ==> (r.value.reportType.None? <==> req.typeKey == "")
    ensures r.Some? ==> r.value.start == DateOf(req.start) && r.value.end == DateOf(req.end)
  {
    match req
    case NoQuery => None
    case Query(key, start, end) =>
      match ReportChoice(key)
      case None => None
      case Some(t) =>
        if start.Malformed? || end.Malformed? then None
        else Some(ReportQuery(t, DateOf(start), DateOf(end)))
  }

  /** `sales_report` for a request: an unbound form or one whose fields do
      not clean shows an empty report with total 0, exactly as one whose
      dates are inverted does; otherwise the report of the cleaned fields. */
  function SalesReportPage(docs: seq<SaleDocument>, req: ReportRequest): (r: SalesReport)
    ensures req.NoQuery? ==> r == SalesReport([], 0)
    ensures ReportFields(req).None? ==> r == SalesReport([], 0)
    ensures ReportFields(req).Some? ==> r == SalesReportView(docs, ReportFields(req).value)
    ensures ReportFields(req).Some? && CleanReportForm(ReportFields(req).value.start, ReportFields(req).value.end).Ok? ==>
      r.overall == SumTotals(Select(docs, QuerySelector(ReportFields(req).value)))
  {
    match ReportFields(req)
    case None => SalesReport([], 0)
    case Some(q) => SalesReportView(docs, q)
  }

  /** The first visit, without a query string, shows nothing; the same
      form submitted with every field empty shows every document. */
  lemma BlankFormShowsAll(docs: seq<SaleDocument>)
    ensures SalesReportPage(docs, NoQuery) == SalesReport([], 0)
    ensures SalesReportPage(docs, Query("", NoDate, NoDate)).overall == SumTotals(docs)
  {
    var q := ReportQuery(None, None, None);
    assert ReportFields(Query("", NoDate, NoDate)) == Some(q);
    forall i | 0 <= i < |docs| ensures Selects(QuerySelector(q), docs[i]) {
      BothSelects(Anything, Both(Anything, Anything), docs[i]);
      BothSelects(Anything, Anything, docs[i]);
    }
    SelectKeepsAll(docs, QuerySelector(q));
  }

  function GroupIndex(groups: seq<TypeGroup>, t: DocType): (r: Option<nat>)
    ensures r.Some? ==> r.value < |groups| && groups[r.value].typ == t
    ensures r.None? <==> forall k :: 0 <= k < |groups| ==> groups[k].typ != t
  {
    if groups == [] then None
    else
      var last := |groups| - 1;
      if groups[last].typ == t then Some(last)
      else
        var r := GroupIndex(groups[..last], t);
        assert forall k :: 0 <= k < last ==> groups[..last][k] == groups[k];
        r
  }

  /** `raw_report_data[doc.type]` and its date's entry, updated for one
      document. */
  function AddToGroups(groups: seq<TypeGroup>, d: SaleDocument): seq<TypeGroup> {
    match GroupIndex(groups, d.typ)
    case None => groups + [TypeGroup(d.typ, d.total, AddToBuckets([], d))]
    case Some(k) => groups[k := TypeGroup(d.typ, groups[k].total + d.total, AddToBuckets(groups[k].dates, d))]
  }

  function GroupsOf(s: seq<SaleDocument>): seq<TypeGroup> {
    if s == [] then [] else AddToGroups(GroupsOf(s[..|s| - 1]), s[|s| - 1])
  }

  /** The filter chain of the view: each given bound or type narrows. */
  function QuerySelector(q: ReportQuery): Selector {
    Both(if q.reportType.Some? then OfKind(q.reportType.value) else Anything,
         Both(if q.start.Some? then From(q.start.value) else Anything,
              if q.end.Some? then Until(q.end.value) else Anything))
  }

  /** Whether a document passes the form's filters. */
  predicate Matches(q: ReportQuery, d: SaleDocument) {
    && (q.reportType.Some? ==> d.typ == q.reportType.value)
    && (q.start.Some? ==> q.start.value <= d.date)
    && (q.end.Some? ==> d.date <= q.end.value)
  }

  /** The documents the view walks through, in the query's order. */
  function ReportDocs(docs: seq<SaleDocument>, q: ReportQuery): (r: seq<SaleDocument>)
    ensures forall d :: d in r <==> d in docs && Matches(q, d)
    ensures multiset(r) == multiset(Select(docs, QuerySelector(q)))
    ensures Sorted(ByTypeThenDate, r)
  {
    var selected := Select(docs, QuerySelector(q));
    SelectMembership(docs, QuerySelector(q));
    forall d ensures Selects(QuerySelector(q), d) <==> Matches(q, d) {
      QuerySelects(q, d);
    }
    var r := Sort(ByTypeThenDate, selected);
    assert forall d :: d in r <==> d in multiset(r);
    assert forall d :: d in selected <==> d in multiset(selected);
    r
  }

  /** The filter chain selects exactly the matching documents. */
  lemma QuerySelects(q: ReportQuery, d: SaleDocument)
    ensures Selects(QuerySelector(q), d) <==> Matches(q, d)
  {
    var bounds := QuerySelector(q).b;
    assert Selects(QuerySelector(q), d) <==> Selects(QuerySelector(q).a, d) && Selects(bounds, d);
    assert Selects(bounds, d) <==> Selects(bounds.a, d) && Selects(bounds.b, d);
  }

  /** `sales_report`. A form that does not validate (the bounds inverted)
      leaves the report empty. */
  function SalesReportView(docs: seq<SaleDocument>, q: ReportQuery): (r: SalesReport)
    ensures CleanReportForm(q.start, q.end).Err? ==> r == SalesReport([], 0)
    ensures CleanReportForm(q.start, q.end).Ok? ==> r.overall == SumTotals(Select(docs, QuerySelector(q)))
  {
    if CleanReportForm(q.start, q.end).Err? then SalesReport([], 0)
    else
      var ordered := ReportDocs(docs, q);
      SumOfPermutation(ordered, Select(docs, QuerySelector(q)));
      SalesReport(GroupsOf(ordered), SumTotals(ordered))
  }

  /** The sum of the type totals. */
  function SumGroups(groups: seq<TypeGroup>): Money {
    if groups == [] then 0 else SumGroups(groups[..|groups| - 1]) + groups[|groups| - 1].total
  }

  // ----- Properties of the grouping -----

  /** The sum of totals depends only on which documents there are. */
  lemma {:induction false} SumOfPermutation(a: seq<SaleDocument>, b: seq<SaleDocument>)
    requires multiset(a) == multiset(b)
    ensures SumTotals(a) == SumTotals(b)
    decreases |a|
  {
    if a != [] {
      var init, x := a[..|a| - 1], a[|a| - 1];
      assert x in multiset(b);
      var i :| 0 <= i < |b| && b[i] == x;
      var rest := b[..i] + b[i + 1..];
      DropLastMultiset(a);
      RemoveAtMultiset(b, i);
      SumOfPermutation(init, rest);
      SumRemoveAt(b, i);
    }
  }

  /** Removing the document at position `i` removes its total from the sum. */
  lemma {:induction false} SumRemoveAt(b: seq<SaleDocument>, i: nat)
    requires i < |b|
    ensures SumTotals(b[..i] + b[i + 1..]) == SumTotals(b) - b[i].total
  {
    var last := |b| - 1;
    if i < last {
      assert b[..i] + b[i + 1..] == (b[..last][..i] + b[..last][i + 1..]) + [b[last]];
      SumRemoveAt(b[..last], i);
      SumTotalsAppend(b[..last][..i] + b[..last][i + 1..], b[last]);
    } else {
      assert b[..i] + b[i + 1..] == b[..last];
    }
  }

  /** Each group holds what the type's documents alone would give: its
      dates are those documents' date entries and its total is theirs;
      no type has two groups. */
  predicate GroupsFaithful(s: seq<SaleDocument>, groups: seq<TypeGroup>) {
    && (forall k :: 0 <= k < |groups| ==>
          groups[k].dates == BucketsOf(OfType(s, groups[k].typ)) && groups[k].total == SumTotals(OfType(s, groups[k].typ)))
    && (forall k, l :: 0 <= k < l < |groups| ==> groups[k].typ != groups[l].typ)
    && (forall i {:trigger GroupIndex(groups, s[i].typ)} :: 0 <= i < |s| ==> GroupIndex(groups, s[i].typ).Some?)
  }

  lemma GroupStepAt(init: seq<SaleDocument>, x: SaleDocument, g: seq<TypeGroup>, k: nat)
    requires GroupsFaithful(init, g) && k < |AddToGroups(g, x)|
    ensures var r := AddToGroups(g, x);
      r[k].dates == BucketsOf(OfType(init + [x], r[k].typ)) && r[k].total == SumTotals(OfType(init + [x], r[k].typ))
  {
    if k < |g| && g[k].typ != x.typ {
      OtherGroupUnchanged(init, x, g, k);
    } else if k < |g| {
      assert GroupIndex(g, x.typ) == Some(k);
      OwnGroupExtended(init, x, g, k);
    } else {
      NewGroup(init, x, g);
    }
  }

  lemma OtherGroupUnchanged(init: seq<SaleDocument>, x: SaleDocument, g: seq<TypeGroup>, k: nat)
    requires GroupsFaithful(init, g) && k < |g| && g[k].typ != x.typ
    ensures var r := AddToGroups(g, x);
      r[k].dates == BucketsOf(OfType(init + [x], r[k].typ)) && r[k].total == SumTotals(OfType(init + [x], r[k].typ))
  {
    var r := AddToGroups(g, x);
    assert r[k] == g[k];
    OfTypeAppend(init, x, g[k].typ);
    assert OfType(init + [x], g[k].typ) == OfType(init, g[k].typ);
  }

  lemma OwnGroupExtended(init: seq<SaleDocument>, x: SaleDocument, g: seq<TypeGroup>, k: nat)
    requires GroupsFaithful(init, g) && GroupIndex(g, x.typ) == Some(k)
    ensures var r := AddToGroups(g, x);
      r[k].dates == BucketsOf(OfType(init + [x], r[k].typ)) && r[k].total == SumTotals(OfType(init + [x], r[k].typ))
  {
    var r := AddToGroups(g, x);
    var before := OfType(init, x.typ);
    assert g[k].dates == BucketsOf(before) && g[k].total == SumTotals(before);
    assert r[k] == TypeGroup(x.typ, g[k].total + x.total, AddToBuckets(g[k].dates, x));
    OfTypeAppend(init, x, x.typ);
    SeriesStep(before, x);
  }

  lemma NewGroup(init: seq<SaleDocument>, x: SaleDocument, g: seq<TypeGroup>)
    requires GroupsFaithful(init, g) && GroupIndex(g, x.typ).None?
    ensures var r := AddToGroups(g, x);
      r[|g|].dates == BucketsOf(OfType(init + [x], x.typ)) && r[|g|].total == SumTotals(OfType(init + [x], x.typ))
  {
    forall i | 0 <= i < |init| ensures !Selects(OfKind(x.typ), init[i]) {
      assert GroupIndex(g, init[i].typ).Some?;
    }
    SelectKeepsNone(init, OfKind(x.typ));
    OfTypeAppend(init, x, x.typ);
    assert [] + [x] == [x] && [x][..0] == [];
    SumTotalsAppend([], x);
  }

  lemma GroupStepFiled(init: seq<SaleDocument>, x: SaleDocument, g: seq<TypeGroup>)
    requires forall i {:trigger GroupIndex(g, init[i].typ)} :: 0 <= i < |init| ==> GroupIndex(g, init[i].typ).Some?
    requires forall k, l :: 0 <= k < l < |g| ==> g[k].typ != g[l].typ
    ensures var r := AddToGroups(g, x);
      && (forall k :: 0 <= k < |g| ==> r[k].typ == g[k].typ)
      && (forall i :: 0 <= i < |init + [x]| ==> GroupIndex(r, (init + [x])[i].typ).Some?)
      && (forall k, l :: 0 <= k < l < |r| ==> r[k].typ != r[l].typ)
  {
    var r := AddToGroups(g, x);
    var s := init + [x];
    assert |r| == |g| || (|r| == |g| + 1 && GroupIndex(g, x.typ).None? && r[|g|].typ == x.typ);
    forall k, l | 0 <= k < l < |r| ensures r[k].typ != r[l].typ {
      assert r[k].typ == g[k].typ;
    }
    forall i | 0 <= i < |s| ensures GroupIndex(r, s[i].typ).Some? {
      if i < |init| {
        var k := GroupIndex(g, init[i].typ).value;
        assert r[k].typ == s[i].typ;
      } else {
        var k := if GroupIndex(g, x.typ).Some? then GroupIndex(g, x.typ).value else |g|;
        assert r[k].typ == x.typ;
      }
    }
  }

  lemma GroupStep(s: seq<SaleDocument>, init: seq<SaleDocument>, x: SaleDocument, g: seq<TypeGroup>, r: seq<TypeGroup>)
    requires s == init + [x] && r == AddToGroups(g, x)
    requires GroupsFaithful(init, g)
    ensures GroupsFaithful(s, r)
  {
    forall k | 0 <= k < |r|
      ensures r[k].dates == BucketsOf(OfType(s, r[k].typ)) && r[k].total == SumTotals(OfType(s, r[k].typ))
    {
      GroupStepAt(init, x, g, k);
    }
    GroupStepFiled(init, x, g);
  }

  /** The grouping, for any processing order. */
  lemma {:induction false} GroupsOfFaithful(s: seq<SaleDocument>)
    ensures GroupsFaithful(s, GroupsOf(s))
  {
    if s != [] {
      GroupsOfFaithful(s[..|s| - 1]);
      GroupsOfStep(s);
    }
  }

  /** The grouping of a sequence extends its prefix's grouping faithfully. */
  lemma GroupsOfStep(s: seq<SaleDocument>)
    requires s != [] && GroupsFaithful(s[..|s| - 1], GroupsOf(s[..|s| - 1]))
    ensures GroupsFaithful(s, GroupsOf(s))
  {
    SplitLast(s);
    GroupStep(s, s[..|s| - 1], s[|s| - 1], GroupsOf(s[..|s| - 1]), GroupsOf(s));
  }

  lemma {:induction false} GroupsSum(s: seq<SaleDocument>)
    ensures SumGroups(GroupsOf(s)) == SumTotals(s)
  {
    if s != [] {
      var init, x := s[..|s| - 1], s[|s| - 1];
      GroupsSum(init);
      var g := GroupsOf(init);
      match GroupIndex(g, x.typ)
      case None =>
        var ng := TypeGroup(x.typ, x.total, AddToBuckets([], x));
        assert (g + [ng])[..|g|] == g;
      case Some(k) =>
        SumGroupsUpdate(g, k, GroupsOf(s)[k]);
    }
  }

  lemma {:induction false} SumGroupsUpdate(g: seq<TypeGroup>, k: nat, ng: TypeGroup)
    requires k < |g|
    ensures SumGroups(g[k := ng]) == SumGroups(g) - g[k].total + ng.total
  {
    var last := |g| - 1;
    if k < last {
      assert g[k := ng][..last] == g[..last][k := ng];
      SumGroupsUpdate(g[..last], k, ng);
    } else {
      assert g[k := ng][..last] == g[..last];
    }
  }

  /** Adding a document creates no group but its own type's. */
  lemma AddToGroupsTypes(g: seq<TypeGroup>, x: SaleDocument, t: DocType)
    ensures GroupIndex(AddToGroups(g, x), t).Some? ==> t == x.typ || GroupIndex(g, t).Some?
  {
    var r := AddToGroups(g, x);
    if GroupIndex(r, t).Some? && t != x.typ {
      var k := GroupIndex(r, t).value;
      assert k < |g| && r[k].typ == g[k].typ;
    }
  }

  /** A group exists only for a type some document has. */
  lemma {:induction false} GroupsOfPresentTypes(s: seq<SaleDocument>, t: DocType)
    requires GroupIndex(GroupsOf(s), t).Some?
    ensures exists i :: 0 <= i < |s| && s[i].typ == t
  {
    if s != [] {
      var init, x := s[..|s| - 1], s[|s| - 1];
      AddToGroupsTypes(GroupsOf(init), x, t);
      if x.typ != t {
        GroupsOfPresentTypes(init, t);
        var i :| 0 <= i < |init| && init[i].typ == t;
        assert s[i] == init[i];
      } else {
        assert s[|s| - 1].typ == t;
      }
    }
  }

  /** Group types never rank above a bound all the documents respect. */
  lemma {:induction false} GroupRanksBounded(s: seq<SaleDocument>, bound: int)
    requires forall i :: 0 <= i < |s| ==> TypeRank(s[i].typ) <= bound
    ensures forall k :: 0 <= k < |GroupsOf(s)| ==> TypeRank(GroupsOf(s)[k].typ) <= bound
  {
    if s != [] {
      GroupRanksBounded(s[..|s| - 1], bound);
    }
  }

  /** Processing documents ordered by type yields groups in ascending
      type order. */
  lemma {:induction false} GroupsAscend(s: seq<SaleDocument>)
    requires forall i, j :: 0 <= i < j < |s| ==> TypeRank(s[i].typ) <= TypeRank(s[j].typ)
    ensures forall k, l :: 0 <= k < l < |GroupsOf(s)| ==> TypeRank(GroupsOf(s)[k].typ) < TypeRank(GroupsOf(s)[l].typ)
  {
    if s != [] {
      var init, x := s[..|s| - 1], s[|s| - 1];
      forall i, j | 0 <= i < j < |init| ensures TypeRank(init[i].typ) <= TypeRank(init[j].typ) {
        assert init[i] == s[i] && init[j] == s[j];
      }
      forall i | 0 <= i < |init| ensures TypeRank(init[i].typ) <= TypeRank(x.typ) {
        assert init[i] == s[i];
      }
      GroupsAscend(init);
      GroupRanksBounded(init, TypeRank(x.typ));
      AscendStep(GroupsOf(init), x);
    }
  }

  /** Adding a document whose type ranks at least as high as every group
      keeps the groups in strictly ascending type order. */
  lemma AscendStep(g: seq<TypeGroup>, x: SaleDocument)
    requires forall k, l :: 0 <= k < l < |g| ==> TypeRank(g[k].typ) < TypeRank(g[l].typ)
    requires forall k :: 0 <= k < |g| ==> TypeRank(g[k].typ) <= TypeRank(x.typ)
    ensures forall k, l :: 0 <= k < l < |AddToGroups(g, x)| ==>
      TypeRank(AddToGroups(g, x)[k].typ) < TypeRank(AddToGroups(g, x)[l].typ)
  {
    var r := AddToGroups(g, x);
    forall k, l | 0 <= k < l < |r| ensures TypeRank(r[k].typ) < TypeRank(r[l].typ) {
      if l < |g| {
        assert r[k].typ == g[k].typ && r[l].typ == g[l].typ;
      } else {
        assert GroupIndex(g, x.typ).None? && r[l].typ == x.typ && r[k] == g[k];
      }
    }
  }

  // ----- The report's promises -----

  /** The overall total is the sum of the type totals, each type total the
      sum of its date totals, each date total the sum of its documents. */
  lemma ReportTotalsAddUp(docs: seq<SaleDocument>, q: ReportQuery)
    ensures var r := SalesReportView(docs, q);
      && r.overall == SumGroups(r.groups)
      && (forall k :: 0 <= k < |r.groups| ==> r.groups[k].total == SumBuckets(r.groups[k].dates))
      && (forall k, j :: 0 <= k < |r.groups| && 0 <= j < |r.groups[k].dates| ==>
            r.groups[k].dates[j].total == SumTotals(r.groups[k].dates[j].docs))
  {
    if CleanReportForm(q.start, q.end).Ok? {
      var ordered := ReportDocs(docs, q);
      var g := GroupsOf(ordered);
      GroupsSum(ordered);
      GroupsOfFaithful(ordered);
      forall k | 0 <= k < |g|
        ensures g[k].total == SumBuckets(g[k].dates)
        ensures forall j :: 0 <= j < |g[k].dates| ==> g[k].dates[j].total == SumTotals(g[k].dates[j].docs)
      {
        BucketsOfSpec(OfType(ordered, g[k].typ));
      }
    }
  }

  /** The entry for type `t` and date `date` holds, in query order, the
      selected documents of that type and date, and as a multiset exactly
      the stored documents that pass the filters and have that type and
      date: each appears once, in its own entry. */
  lemma EntryHoldsItsDocuments(docs: seq<SaleDocument>, q: ReportQuery, k: nat, j: nat)
    requires CleanReportForm(q.start, q.end).Ok?
    requires k < |SalesReportView(docs, q).groups|
    requires j < |SalesReportView(docs, q).groups[k].dates|
    ensures var g := SalesReportView(docs, q).groups[k];
      var cell := Both(OfKind(g.typ), OnDay(g.dates[j].date));
      && g.dates[j].docs == Select(ReportDocs(docs, q), cell)
      && multiset(g.dates[j].docs) == multiset(Select(docs, Both(QuerySelector(q), cell)))
  {
    var ordered := ReportDocs(docs, q);
    var g := GroupsOf(ordered)[k];
    var cell := Both(OfKind(g.typ), OnDay(g.dates[j].date));
    GroupsOfFaithful(ordered);
    BucketsOfSpec(OfType(ordered, g.typ));
    SelectTwice(ordered, OfKind(g.typ), OnDay(g.dates[j].date));
    SelectOfPermutation(ordered, Select(docs, QuerySelector(q)), cell);
    SelectTwice(docs, QuerySelector(q), cell);
  }

  /** A processed document sits in its date's entry. */
  lemma FiledUnderItsDate(s: seq<SaleDocument>, d: SaleDocument)
    requires d in s
    ensures IndexOf(BucketsOf(s), d.date).Some?
    ensures d in BucketsOf(s)[IndexOf(BucketsOf(s), d.date).value].docs
  {
    BucketsOfSpec(s);
    var i :| 0 <= i < |s| && s[i] == d;
    assert IndexOf(BucketsOf(s), s[i].date).Some?;
    SelectMembership(s, OnDay(d.date));
  }

  /** Every document that passes the filters is filed under its type and,
      within it, its date. */
  lemma IncludedDocumentIsFiled(docs: seq<SaleDocument>, q: ReportQuery, d: SaleDocument)
    requires CleanReportForm(q.start, q.end).Ok?
    requires d in docs && Matches(q, d)
    ensures var groups := SalesReportView(docs, q).groups;
      && GroupIndex(groups, d.typ).Some?
      && var dates := groups[GroupIndex(groups, d.typ).value].dates;
         IndexOf(dates, d.date).Some? && d in dates[IndexOf(dates, d.date).value].docs
  {
    var ordered := ReportDocs(docs, q);
    var groups := GroupsOf(ordered);
    assert SalesReportView(docs, q).groups == groups;
    GroupsOfFaithful(ordered);
    var i :| 0 <= i < |ordered| && ordered[i] == d;
    assert GroupIndex(groups, ordered[i].typ).Some?;
    var k := GroupIndex(groups, d.typ).value;
    var mine := OfType(ordered, d.typ);
    assert groups[k].dates == BucketsOf(mine);
    SelectMembership(ordered, OfKind(d.typ));
    FiledUnderItsDate(mine, d);
  }

  /** A type has a group exactly when some stored document of that type
      passes the filters. */
  lemma GroupPresentIffMatching(docs: seq<SaleDocument>, q: ReportQuery, t: DocType)
    requires CleanReportForm(q.start, q.end).Ok?
    ensures GroupIndex(SalesReportView(docs, q).groups, t).Some? <==>
            exists i :: 0 <= i < |docs| && docs[i].typ == t && Matches(q, docs[i])
  {
    var ordered := ReportDocs(docs, q);
    if GroupIndex(GroupsOf(ordered), t).Some? {
      GroupsOfPresentTypes(ordered, t);
      var i :| 0 <= i < |ordered| && ordered[i].typ == t;
      assert ordered[i] in docs;
      var i2 :| 0 <= i2 < |docs| && docs[i2] == ordered[i];
    }
    if exists i :: 0 <= i < |docs| && docs[i].typ == t && Matches(q, docs[i]) {
      var i :| 0 <= i < |docs| && docs[i].typ == t && Matches(q, docs[i]);
      IncludedDocumentIsFiled(docs, q, docs[i]);
    }
  }

  /** Groups come in ascending type order (cash, cashless, return), and
      within a group the dates ascend. */
  lemma ReportOrdered(docs: seq<SaleDocument>, q: ReportQuery)
    ensures var groups := SalesReportView(docs, q).groups;
      && (forall k, l :: 0 <= k < l < |groups| ==> TypeRank(groups[k].typ) < TypeRank(groups[l].typ))
      && (forall k :: 0 <= k < |groups| ==> Ascending(groups[k].dates))
  {
    if CleanReportForm(q.start, q.end).Ok? {
      var ordered := ReportDocs(docs, q);
      assert forall i, j :: 0 <= i < j < |ordered| ==> Le(ByTypeThenDate, ordered[i], ordered[j]);
      GroupsAscend(ordered);
      GroupsOfFaithful(ordered);
      var groups := GroupsOf(ordered);
      forall k | 0 <= k < |groups| ensures Ascending(groups[k].dates) {
        var mine := OfType(ordered, groups[k].typ);
        SelectSorted(ByTypeThenDate, ordered, OfKind(groups[k].typ));
        SelectedAreKept(ordered, OfKind(groups[k].typ));
        OneTypeSortedByDate(mine, groups[k].typ);
        BucketsAscend(mine);
      }
    }
  }
}
