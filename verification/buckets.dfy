/** Grouping documents by date the way both reports do it: a dictionary
    keyed by date, filled in processing order, each entry holding the
    running total and the documents in the order they were added. */
module Buckets {
  import opened Base
  import opened Entities
  import opened Selection

  datatype Bucket = Bucket(date: Date, total: Money, docs: seq<SaleDocument>)

  /** Dictionary lookup: the position of the entry for `date`, if any. */
  function IndexOf(buckets: seq<Bucket>, date: Date): (r: Option<nat>)
    ensures r.Some? ==> r.value < |buckets| && buckets[r.value].date == date
    ensures r.None? <==> forall k :: 0 <= k < |buckets| ==> buckets[k].date != date
  {
    if buckets == [] then None
    else
      var last := |buckets| - 1;
      if buckets[last].date == date then Some(last)
      else
        var r := IndexOf(buckets[..last], date);
        assert forall k :: 0 <= k < last ==> buckets[..last][k] == buckets[k];
        r
  }

  /** Adds one document to its date's entry, creating the entry at the
      end when the date is new. */
  function AddToBuckets(buckets: seq<Bucket>, d: SaleDocument): (r: seq<Bucket>)
    ensures IndexOf(buckets, d.date).None? ==> r == buckets + [Bucket(d.date, d.total, [d])]
    ensures IndexOf(buckets, d.date).Some? ==>
      var k := IndexOf(buckets, d.date).value;
      r == buckets[k := Bucket(d.date, buckets[k].total + d.total, buckets[k].docs + [d])]
  {
    match IndexOf(buckets, d.date)
    case None => buckets + [Bucket(d.date, d.total, [d])]
    case Some(k) => buckets[k := Bucket(d.date, buckets[k].total + d.total, buckets[k].docs + [d])]
  }

  /** The dictionary after processing the documents in order. */
  function BucketsOf(s: seq<SaleDocument>): seq<Bucket> {
    if s == [] then [] else AddToBuckets(BucketsOf(s[..|s| - 1]), s[|s| - 1])
  }

  /** The total and the date entries after one more document. */
  lemma SeriesStep(series: seq<SaleDocument>, d: SaleDocument)
    ensures SumTotals(series + [d]) == SumTotals(series) + d.total
    ensures BucketsOf(series + [d]) == AddToBuckets(BucketsOf(series), d)
  {
    assert (series + [d])[..|series|] == series;
  }

  /** The sum of the entries' totals. */
  function SumBuckets(buckets: seq<Bucket>): Money {
    if buckets == [] then 0 else SumBuckets(buckets[..|buckets| - 1]) + buckets[|buckets| - 1].total
  }

  /** Every entry holds exactly the documents of its date, in processing
      order, and its total is theirs. */
  predicate Faithful(s: seq<SaleDocument>, buckets: seq<Bucket>) {
    forall k :: 0 <= k < |buckets| ==>
      buckets[k].docs == Select(s, OnDay(buckets[k].date)) && buckets[k].total == SumTotals(buckets[k].docs)
  }

  /** No date has two entries. */
  predicate DistinctDates(buckets: seq<Bucket>) {
    forall k, l :: 0 <= k < l < |buckets| ==> buckets[k].date != buckets[l].date
  }

  /** Every document's date has an entry. */
  predicate AllFiled(s: seq<SaleDocument>, buckets: seq<Bucket>) {
    forall i {:trigger IndexOf(buckets, s[i].date)} :: 0 <= i < |s| ==> IndexOf(buckets, s[i].date).Some?
  }

  lemma {:induction false} SumBucketsAppend(b: seq<Bucket>, nb: Bucket)
    ensures SumBuckets(b + [nb]) == SumBuckets(b) + nb.total
  {
    assert (b + [nb])[..|b|] == b;
  }

  /** Replacing entry `k` changes the sum by the difference of totals. */
  lemma {:induction false} SumBucketsUpdate(b: seq<Bucket>, k: nat, nb: Bucket)
    requires k < |b|
    ensures SumBuckets(b[k := nb]) == SumBuckets(b) - b[k].total + nb.total
  {
    var last := |b| - 1;
    if k < last {
      assert b[k := nb][..last] == b[..last][k := nb];
      SumBucketsUpdate(b[..last], k, nb);
    } else {
      assert b[k := nb][..last] == b[..last];
    }
  }

  /** Adding a document keeps every entry's date and adds `x.total` to
      the sum. */
  lemma AddKeepsDates(b: seq<Bucket>, x: SaleDocument)
    ensures var r := AddToBuckets(b, x);
      && |b| <= |r|
      && (forall k :: 0 <= k < |b| ==> r[k].date == b[k].date)
      && IndexOf(r, x.date).Some?
      && SumBuckets(r) == SumBuckets(b) + x.total
  {
    var r := AddToBuckets(b, x);
    match IndexOf(b, x.date)
    case None =>
      SumBucketsAppend(b, Bucket(x.date, x.total, [x]));
      assert r[|b|].date == x.date;
    case Some(k) =>
      SumBucketsUpdate(b, k, r[k]);
      assert r[k].date == x.date;
  }

  lemma StepFiled(init: seq<SaleDocument>, x: SaleDocument, b: seq<Bucket>)
    requires AllFiled(init, b)
    ensures AllFiled(init + [x], AddToBuckets(b, x))
  {
    var r := AddToBuckets(b, x);
    var s := init + [x];
    AddKeepsDates(b, x);
    forall i | 0 <= i < |s| ensures IndexOf(r, s[i].date).Some? {
      if i < |init| {
        var k := IndexOf(b, init[i].date).value;
        assert r[k].date == s[i].date;
      }
    }
  }

  lemma StepDistinct(b: seq<Bucket>, x: SaleDocument)
    requires DistinctDates(b)
    ensures DistinctDates(AddToBuckets(b, x))
  {
  }

  lemma {:induction false} SelectOnDayAppend(init: seq<SaleDocument>, x: SaleDocument, date: Date)
    ensures Select(init + [x], OnDay(date)) == Select(init, OnDay(date)) + (if x.date == date then [x] else [])
  {
    assert (init + [x])[..|init|] == init;
  }

  lemma StepFaithful(init: seq<SaleDocument>, x: SaleDocument, b: seq<Bucket>)
    requires Faithful(init, b) && AllFiled(init, b) && DistinctDates(b)
    ensures Faithful(init + [x], AddToBuckets(b, x))
  {
    var r := AddToBuckets(b, x);
    forall k | 0 <= k < |r| ensures r[k].docs == Select(init + [x], OnDay(r[k].date)) && r[k].total == SumTotals(r[k].docs) {
      StepFaithfulAt(init, x, b, k);
    }
  }

  lemma StepFaithfulAt(init: seq<SaleDocument>, x: SaleDocument, b: seq<Bucket>, k: nat)
    requires Faithful(init, b) && AllFiled(init, b) && DistinctDates(b)
    requires k < |AddToBuckets(b, x)|
    ensures var r := AddToBuckets(b, x);
            r[k].docs == Select(init + [x], OnDay(r[k].date)) && r[k].total == SumTotals(r[k].docs)
  {
    var r := AddToBuckets(b, x);
    if k < |b| && b[k].date != x.date {
      OtherEntryUnchanged(init, x, b, k);
    } else if k < |b| {
      IndexOfDistinct(b, k);
      OwnEntryExtended(init, x, b, k);
    } else {
      assert IndexOf(b, x.date).None?;
      assert k == |b| && r[k].date == x.date;
      NewEntry(init, x, b);
    }
  }

  /** With distinct dates, the entry for `b[k].date` is entry `k`. */
  lemma IndexOfDistinct(b: seq<Bucket>, k: nat)
    requires DistinctDates(b) && k < |b|
    ensures IndexOf(b, b[k].date) == Some(k)
  {
  }

  /** An added document never empties an entry. */
  lemma AddKeepsNonEmpty(b: seq<Bucket>, x: SaleDocument)
    requires forall k :: 0 <= k < |b| ==> b[k].docs != []
    ensures var r := AddToBuckets(b, x);
            forall k :: 0 <= k < |r| ==> r[k].docs != []
  {
  }

  lemma OtherEntryUnchanged(init: seq<SaleDocument>, x: SaleDocument, b: seq<Bucket>, k: nat)
    requires Faithful(init, b) && k < |b| && b[k].date != x.date
    ensures var r := AddToBuckets(b, x);
            r[k].docs == Select(init + [x], OnDay(r[k].date)) && r[k].total == SumTotals(r[k].docs)
  {
    var r := AddToBuckets(b, x);
    assert r[k] == b[k];
    SelectOnDayAppend(init, x, b[k].date);
  }

  lemma OwnEntryExtended(init: seq<SaleDocument>, x: SaleDocument, b: seq<Bucket>, k: nat)
    requires Faithful(init, b) && IndexOf(b, x.date) == Some(k)
    ensures var r := AddToBuckets(b, x);
            r[k].docs == Select(init + [x], OnDay(r[k].date)) && r[k].total == SumTotals(r[k].docs)
  {
    var r, e := AddToBuckets(b, x), b[k];
    assert e.date == x.date && e.docs == Select(init, OnDay(x.date)) && e.total == SumTotals(e.docs);
    assert r[k] == Bucket(x.date, e.total + x.total, e.docs + [x]);
    SelectOnDayAppend(init, x, x.date);
    SumTotalsAppend(e.docs, x);
  }

  lemma NewEntry(init: seq<SaleDocument>, x: SaleDocument, b: seq<Bucket>)
    requires AllFiled(init, b) && IndexOf(b, x.date).None?
    ensures var r := AddToBuckets(b, x);
            r[|b|].docs == Select(init + [x], OnDay(x.date)) && r[|b|].total == SumTotals(r[|b|].docs)
  {
    forall i | 0 <= i < |init| ensures !Selects(OnDay(x.date), init[i]) {
      assert IndexOf(b, init[i].date).Some?;
    }
    SelectKeepsNone(init, OnDay(x.date));
    SelectOnDayAppend(init, x, x.date);
    SumTotalsAppend([], x);
    assert [] + [x] == [x];
  }

  /** Dates strictly ascend from entry to entry. */
  predicate Ascending(b: seq<Bucket>) {
    forall k, l :: 0 <= k < l < |b| ==> b[k].date < b[l].date
  }

  lemma StepAscend(b: seq<Bucket>, x: SaleDocument)
    requires Ascending(b) && forall k :: 0 <= k < |b| ==> b[k].date <= x.date
    ensures Ascending(AddToBuckets(b, x))
  {
  }

  /** The properties of the dictionary, for any processing order:
      entries are faithful to their dates, dates are distinct, every
      document is filed, and the entries add up to the whole. */
  lemma {:induction false} BucketsOfSpec(s: seq<SaleDocument>)
    ensures Faithful(s, BucketsOf(s))
    ensures DistinctDates(BucketsOf(s))
    ensures AllFiled(s, BucketsOf(s))
    ensures SumBuckets(BucketsOf(s)) == SumTotals(s)
  {
    if s != [] {
      var init, x := s[..|s| - 1], s[|s| - 1];
      assert s == init + [x];
      BucketsOfSpec(init);
      var b := BucketsOf(init);
      StepFaithful(init, x, b);
      StepDistinct(b, x);
      StepFiled(init, x, b);
      AddKeepsDates(b, x);
    }
  }

  /** A date has an entry exactly when some document carries it. */
  lemma BucketPresentIffDated(s: seq<SaleDocument>, date: Date)
    ensures IndexOf(BucketsOf(s), date).Some? <==> exists i :: 0 <= i < |s| && s[i].date == date
  {
    BucketsOfSpec(s);
    var b := BucketsOf(s);
    if IndexOf(b, date).Some? {
      var k := IndexOf(b, date).value;
      SelectMembership(s, OnDay(date));
      assert b[k].docs == Select(s, OnDay(date));
      if Select(s, OnDay(date)) == [] {
        assert b[k].docs == [];
        // an entry is only ever created holding a document
        EntriesNonEmpty(s);
        assert false;
      }
      assert Select(s, OnDay(date))[0] in s;
    }
  }

  /** No entry is ever empty. */
  lemma {:induction false} EntriesNonEmpty(s: seq<SaleDocument>)
    ensures forall k :: 0 <= k < |BucketsOf(s)| ==> BucketsOf(s)[k].docs != []
  {
    if s != [] {
      var init, x := s[..|s| - 1], s[|s| - 1];
      EntriesNonEmpty(init);
      assert BucketsOf(s) == AddToBuckets(BucketsOf(init), x);
      AddKeepsNonEmpty(BucketsOf(init), x);
    }
  }

  /** Every entry's date is one of the documents' dates, so no later
      than a date all the documents precede. */
  lemma EntriesNoLater(s: seq<SaleDocument>, date: Date)
    requires forall i :: 0 <= i < |s| ==> s[i].date <= date
    ensures forall k :: 0 <= k < |BucketsOf(s)| ==> BucketsOf(s)[k].date <= date
  {
    BucketsOfSpec(s);
    EntriesNonEmpty(s);
    var b := BucketsOf(s);
    forall k | 0 <= k < |b| ensures b[k].date <= date {
      SelectedAreKept(s, OnDay(b[k].date));
      SelectMembership(s, OnDay(b[k].date));
      assert b[k].docs[0] in s;
    }
  }

  /** Processing documents in date order yields entries in ascending date
      order. */
  lemma {:induction false} BucketsAscend(s: seq<SaleDocument>)
    requires forall i, j :: 0 <= i < j < |s| ==> s[i].date <= s[j].date
    ensures Ascending(BucketsOf(s))
  {
    if s != [] {
      var init, x := s[..|s| - 1], s[|s| - 1];
      assert forall i, j :: 0 <= i < j < |init| ==> init[i].date <= init[j].date;
      assert forall i :: 0 <= i < |init| ==> init[i].date <= x.date;
      BucketsAscend(init);
      EntriesNoLater(init, x.date);
      StepAscend(BucketsOf(init), x);
    }
  }
}
