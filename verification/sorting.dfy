/** The `order_by` clauses the reports and the journal use, as a stable
    insertion sort on a key of three integers compared lexicographically.
    Rows the database may return in any order (equal keys) come out in id
    order, the order the store holds them in. */
module Sorting {
  import opened Entities
  import opened Selection
  import opened Text

  datatype Ordering =
    | ByTypeThenDate   // order_by('type', 'date')
    | ByDateThenId     // order_by('date', 'id')
    | Journal          // order_by('-date', 'type', 'number_numeric')
    | Newest           // the default ordering of sale documents, ('-date', '-id')

  datatype Key = Key(first: int, second: int, third: int)

  function KeyOf(o: Ordering, d: SaleDocument): Key {
    match o
    case ByTypeThenDate => Key(TypeRank(d.typ), d.date, 0)
    case ByDateThenId => Key(d.date, d.id, 0)
    case Journal => Key(0 - d.date, TypeRank(d.typ), NumericKey(d.number))
    case Newest => Key(0 - d.date, 0 - d.id, 0)
  }

  /** The journal's `number_numeric`, `Cast(Substr('number', 4), IntegerField())`:
      the number read as an integer from its fourth character on. */
  function NumericKey(number: string): int {
    SqlInteger(Substr(number, 4))
  }

  predicate KeyLe(a: Key, b: Key) {
    || a.first < b.first
    || (a.first == b.first && a.second < b.second)
    || (a.first == b.first && a.second == b.second && a.third <= b.third)
  }

  lemma KeyLeTransitive(a: Key, b: Key, c: Key)
    requires KeyLe(a, b) && KeyLe(b, c)
    ensures KeyLe(a, c)
  {
  }

  predicate Le(o: Ordering, a: SaleDocument, b: SaleDocument) {
    KeyLe(KeyOf(o, a), KeyOf(o, b))
  }

  predicate Sorted(o: Ordering, s: seq<SaleDocument>) {
    forall i, j {:trigger Le(o, s[i], s[j])} :: 0 <= i < j < |s| ==> Le(o, s[i], s[j])
  }

  /** A sorted sequence stays sorted with a first element not above its
      head. */
  lemma SortedCons(o: Ordering, a: SaleDocument, s: seq<SaleDocument>)
    requires Sorted(o, s) && (s != [] ==> Le(o, a, s[0]))
    ensures Sorted(o, [a] + s)
  {
    var r := [a] + s;
    forall i, j | 0 <= i < j < |r| ensures Le(o, r[i], r[j]) {
      var y := s[j - 1];
      assert r[j] == y;
      if i == 0 {
        if j > 1 {
          assert Le(o, s[0], y);
          KeyLeTransitive(KeyOf(o, a), KeyOf(o, s[0]), KeyOf(o, y));
        }
      } else {
        var x := s[i - 1];
        assert r[i] == x;
        assert Le(o, x, y);
      }
    }
  }

  /** Places `x` after every element whose key is not above its own. */
  function Insert(o: Ordering, s: seq<SaleDocument>, x: SaleDocument): (r: seq<SaleDocument>)
    requires Sorted(o, s)
    ensures Sorted(o, r)
    ensures multiset(r) == multiset(s) + multiset{x}
    ensures |r| == |s| + 1
    ensures r[0] == x || (s != [] && r[0] == s[0])
  {
    if s == [] then [x]
    else if !Le(o, s[0], x) then
      SortedCons(o, x, s);
      [x] + s
    else
      assert s == [s[0]] + s[1..];
      var rest := Insert(o, s[1..], x);
      SortedCons(o, s[0], rest);
      assert multiset([s[0]] + rest) == multiset{s[0]} + multiset(rest);
      [s[0]] + rest
  }

  /** The query's ordering applied to the documents. */
  function Sort(o: Ordering, s: seq<SaleDocument>): (r: seq<SaleDocument>)
    ensures Sorted(o, r)
    ensures multiset(r) == multiset(s)
    ensures |r| == |s|
  {
    if s == [] then []
    else
      var init, last := s[..|s| - 1], s[|s| - 1];
      assert s == init + [last];
      var r := Insert(o, Sort(o, init), last);
      assert |r| == |multiset(r)|;
      r
  }

  /** A single document is already sorted. */
  lemma SortSingle(o: Ordering, d: SaleDocument)
    ensures Sort(o, [d]) == [d]
  {
    assert [d][..0] == [];
  }

  /** How often a document occurs in a filter's result: as often as in
      the input when the selector keeps it, never otherwise. */
  lemma {:induction false} SelectCount(s: seq<SaleDocument>, sel: Selector, x: SaleDocument)
    ensures multiset(Select(s, sel))[x] == if Selects(sel, x) then multiset(s)[x] else 0
  {
    if s != [] {
      var init, last := s[..|s| - 1], s[|s| - 1];
      assert s == init + [last];
      SelectCount(init, sel, x);
    }
  }

  /** Filtering two orderings of the same documents yields the same
      documents. */
  lemma SelectOfPermutation(a: seq<SaleDocument>, b: seq<SaleDocument>, sel: Selector)
    requires multiset(a) == multiset(b)
    ensures multiset(Select(a, sel)) == multiset(Select(b, sel))
  {
    forall x ensures multiset(Select(a, sel))[x] == multiset(Select(b, sel))[x] {
      SelectCount(a, sel, x);
      SelectCount(b, sel, x);
    }
  }

  /** Filtering keeps a sorted sequence sorted. */
  lemma {:induction false} SelectSorted(o: Ordering, s: seq<SaleDocument>, sel: Selector)
    requires Sorted(o, s)
    ensures Sorted(o, Select(s, sel))
  {
    if s != [] {
      var init, last := s[..|s| - 1], s[|s| - 1];
      SelectSorted(o, init, sel);
      SelectMembership(init, sel);
      var before := Select(init, sel);
      assert forall i :: 0 <= i < |before| ==> before[i] in init;
      assert forall i :: 0 <= i < |init| ==> Le(o, init[i], last);
    }
  }

  /** Documents sorted by type and date, all of one type, are sorted by
      date. */
  lemma OneTypeSortedByDate(s: seq<SaleDocument>, t: DocType)
    requires Sorted(ByTypeThenDate, s)
    requires forall i :: 0 <= i < |s| ==> s[i].typ == t
    ensures forall i, j :: 0 <= i < j < |s| ==> s[i].date <= s[j].date
  {
    forall i, j | 0 <= i < j < |s| ensures s[i].date <= s[j].date {
      assert Le(ByTypeThenDate, s[i], s[j]);
    }
  }
}
