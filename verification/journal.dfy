/** The document journal, `DocumentListView.get_queryset`: every sale
    document, newest day first, then by type key, then by the number read
    as an integer, narrowed by the request's optional type, date and
    customer filters. */
module Journal {
  import opened Base
  import opened Entities
  import opened Selection
  import opened Text
  import opened Sorting
  import opened Numbering
  import opened Forms

  /** The request's filters; an empty string is an absent filter. */
  datatype JournalQuery = JournalQuery(typeKey: string, start: DateParam, end: DateParam, customer: string)

  /** One listed document, with the `number_numeric` and `customer_name`
      annotations. */
  datatype JournalRow = JournalRow(
    id: DocId,
    date: Date,
    typ: DocType,
    number: string,
    numeric: int,
    total: Money,
    customerName: Option<string>)

  function RowOf(customers: seq<Customer>, d: SaleDocument): (r: JournalRow)
    ensures r.id == d.id && r.date == d.date && r.typ == d.typ && r.number == d.number && r.total == d.total
    ensures r.customerName.Some? <==> FindCustomer(customers, d.customer).Some?
  {
    var c := FindCustomer(customers, d.customer);
    JournalRow(d.id, d.date, d.typ, d.number, NumericKey(d.number), d.total, if c.Some? then Some(c.value.name) else None)
  }

  /** Which documents the journal lists, stated filter by filter: a filter
      applies only when it is given, and a malformed date is no filter. */
  predicate Listed(customers: seq<Customer>, q: JournalQuery, d: SaleDocument) {
    && (q.typeKey != [] ==> TypeKey(d.typ) == q.typeKey)
    && (q.start.OnDate? ==> d.date >= q.start.day)
    && (q.end.OnDate? ==> d.date <= q.end.day)
    && (q.customer != [] ==>
          FindCustomer(customers, d.customer).Some? && IContains(FindCustomer(customers, d.customer).value.name, q.customer))
  }

  /** A filter that is applied only when `active`. */
  function Gate(active: bool, sel: Selector): Selector {
    if active then sel else Anything
  }

  /** The four filters of the request chained into one selector. */
  function QuerySelector(customers: seq<Customer>, q: JournalQuery): Selector {
    Both(Both(Both(
      Gate(q.typeKey != [], KeyIs(q.typeKey)),
      if q.start.OnDate? then From(q.start.day) else Anything),
      if q.end.OnDate? then Until(q.end.day) else Anything),
      Gate(q.customer != [], NameHas(customers, q.customer)))
  }

  lemma QuerySelectorLists(customers: seq<Customer>, q: JournalQuery, d: SaleDocument)
    ensures Selects(QuerySelector(customers, q), d) <==> Listed(customers, q, d)
  {
    var g1 := Gate(q.typeKey != [], KeyIs(q.typeKey));
    var g2 := if q.start.OnDate? then From(q.start.day) else Anything;
    var g3 := if q.end.OnDate? then Until(q.end.day) else Anything;
    var g4 := Gate(q.customer != [], NameHas(customers, q.customer));
    BothSelects(Both(Both(g1, g2), g3), g4, d);
    BothSelects(Both(g1, g2), g3, d);
    BothSelects(g1, g2, d);
  }

  /** A filter step `if given: qs = qs.filter(...)`. */
  lemma Stage(s: seq<SaleDocument>, active: bool, sel: Selector)
    ensures (if active then Select(s, sel) else s) == Select(s, Gate(active, sel))
  {
    if !active {
      assert Gate(active, sel) == Anything;
      SelectKeepsAll(s, Anything);
    }
  }

  /** Four chained filters select what their conjunction selects. */
  lemma FilterChain(all: seq<SaleDocument>, g1: Selector, g2: Selector, g3: Selector, g4: Selector)
    ensures Select(Select(Select(Select(all, g1), g2), g3), g4) == Select(all, Both(Both(Both(g1, g2), g3), g4))
  {
    SelectTwice(all, g1, g2);
    SelectTwice(all, Both(g1, g2), g3);
    SelectTwice(all, Both(Both(g1, g2), g3), g4);
  }

  /** The query's selection from the ordered documents: in journal order,
      each document as often as stored when listed, never otherwise. */
  lemma SelectionListed(customers: seq<Customer>, docs: seq<SaleDocument>, q: JournalQuery)
    ensures var listed := Select(Sort(Journal, docs), QuerySelector(customers, q));
      && Sorted(Journal, listed)
      && (forall d :: multiset(listed)[d] == if Listed(customers, q, d) then multiset(docs)[d] else 0)
      && (forall d :: d in listed <==> d in docs && Listed(customers, q, d))
  {
    var all := Sort(Journal, docs);
    var sel := QuerySelector(customers, q);
    var listed := Select(all, sel);
    SelectSorted(Journal, all, sel);
    forall d ensures multiset(listed)[d] == if Listed(customers, q, d) then multiset(docs)[d] else 0 {
      SelectCount(all, sel, d);
      QuerySelectorLists(customers, q, d);
    }
  }

  /** The `if given: qs = qs.filter(...)` steps of `get_queryset`, in
      the order it applies them. */
  method Narrow(all: seq<SaleDocument>, customers: seq<Customer>, q: JournalQuery) returns (qs: seq<SaleDocument>)
    ensures qs == Select(all, QuerySelector(customers, q))
  {
    qs := all;
    if q.typeKey != [] {
      qs := Select(qs, KeyIs(q.typeKey));
    }
    Stage(all, q.typeKey != [], KeyIs(q.typeKey));
    var s1 := qs;
    if q.start.OnDate? {
      qs := Select(qs, From(q.start.day));
    }
    var g2 := if q.start.OnDate? then From(q.start.day) else Anything;
    assert qs == Select(s1, g2) by {
      if !q.start.OnDate? { SelectKeepsAll(s1, Anything); }
    }
    var s2 := qs;
    if q.end.OnDate? {
      qs := Select(qs, Until(q.end.day));
    }
    var g3 := if q.end.OnDate? then Until(q.end.day) else Anything;
    assert qs == Select(s2, g3) by {
      if !q.end.OnDate? { SelectKeepsAll(s2, Anything); }
    }
    var s3 := qs;
    if q.customer != [] {
      qs := Select(qs, NameHas(customers, q.customer));
    }
    Stage(s3, q.customer != [], NameHas(customers, q.customer));
    FilterChain(all, Gate(q.typeKey != [], KeyIs(q.typeKey)), g2, g3, Gate(q.customer != [], NameHas(customers, q.customer)));
  }

  /** The `values(...)` rows of the listed documents. */
  function Rows(customers: seq<Customer>, s: seq<SaleDocument>): (rows: seq<JournalRow>)
    ensures |rows| == |s|
    ensures forall i :: 0 <= i < |s| ==> rows[i] == RowOf(customers, s[i])
  {
    seq(|s|, i requires 0 <= i < |s| => RowOf(customers, s[i]))
  }

  /** `get_queryset`: the listed documents in journal order, and their rows. */
  method DocumentList(customers: seq<Customer>, docs: seq<SaleDocument>, q: JournalQuery)
    returns (listed: seq<SaleDocument>, rows: seq<JournalRow>)
    ensures forall d :: d in listed <==> d in docs && Listed(customers, q, d)
    ensures forall d :: multiset(listed)[d] == if Listed(customers, q, d) then multiset(docs)[d] else 0
    ensures Sorted(Journal, listed)
    ensures |rows| == |listed|
    ensures forall i :: 0 <= i < |rows| ==> rows[i] == RowOf(customers, listed[i])
  {
    var all := Sort(Journal, docs);
    listed := Narrow(all, customers, q);
    SelectionListed(customers, docs, q);
    rows := Rows(customers, listed);
  }

  /** Every series prefix is two characters long, so the number proper
      starts at the fourth. */
  lemma PrefixLength(t: DocType)
    ensures |Prefix(t)| == 2 && |InvoicePrefix| == 2
  {
  }

  /** `number_numeric` reads a well-formed number back: for a two-character
      prefix, the text from position 4 is exactly the decimal `n`. */
  lemma NumericKeyOfFormat(prefix: string, n: nat)
    requires |prefix| == 2
    ensures NumericKey(FormatNumber(prefix, n)) == n
  {
    var digits := NatToString(n);
    assert Substr(FormatNumber(prefix, n), 4) == digits;
    LeadingDigitsOfDigits(digits);
    DigitsValueOfNatToString(n);
  }

  /** The journal order: later days first; within a day cash, cashless,
      return; within a day and type, well-formed numbers ascend. */
  lemma JournalOrder(s: seq<SaleDocument>, i: int, j: int)
    requires Sorted(Journal, s)
    requires 0 <= i < j < |s|
    ensures s[i].date >= s[j].date
    ensures s[i].date == s[j].date ==> TypeRank(s[i].typ) <= TypeRank(s[j].typ)
    ensures forall a: nat, b: nat ::
      s[i].date == s[j].date && s[i].typ == s[j].typ
      && s[i].number == FormatNumber(Prefix(s[i].typ), a) && s[j].number == FormatNumber(Prefix(s[j].typ), b)
      ==> a <= b
  {
    assert Le(Journal, s[i], s[j]);
    forall a: nat, b: nat | s[i].date == s[j].date && s[i].typ == s[j].typ
      && s[i].number == FormatNumber(Prefix(s[i].typ), a) && s[j].number == FormatNumber(Prefix(s[j].typ), b)
      ensures a <= b
    {
      PrefixLength(s[i].typ);
      NumericKeyOfFormat(Prefix(s[i].typ), a);
      NumericKeyOfFormat(Prefix(s[j].typ), b);
    }
  }
}
