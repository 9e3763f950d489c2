/** Reducers over the transaction list shared by the dashboard, the analytics
    page, the calendar and the transaction list: the month filter, sums by
    kind, grouping by category and the newest-first order. */
module Aggregation {
  import opened Types
  import opened Lists
  import Gregorian

  predicate InMonth(t: Transaction, month: int, year: int) {
    t.date.month == month && t.date.year == year
  }

  // The predicates handed to `filter`, named so that every use is the same function.
  function MonthIs(month: int, year: int): Transaction -> bool {
    t => InMonth(t, month, year)
  }

  function KindIs(kind: TxKind): Transaction -> bool {
    (t: Transaction) => t.kind == kind
  }

  function MonthAndKindIs(month: int, year: int, kind: TxKind): Transaction -> bool {
    t => InMonth(t, month, year) && t.kind == kind
  }

  function CategoryIs(c: string): Transaction -> bool {
    (t: Transaction) => t.category == c
  }

  /** `monthlyTransactions` on the dashboard, `filteredData` on the analytics page. */
  function MonthlyTransactions(ts: seq<Transaction>, month: int, year: int): (r: seq<Transaction>)
    ensures forall i :: 0 <= i < |r| ==> r[i] in ts && InMonth(r[i], month, year)
    ensures forall i :: 0 <= i < |ts| && InMonth(ts[i], month, year) ==> ts[i] in r
  {
    Filter(ts, MonthIs(month, year))
  }

  /** The month filter keeps the original order: it works piecewise. */
  lemma MonthlyAppend(a: seq<Transaction>, b: seq<Transaction>, month: int, year: int)
    ensures MonthlyTransactions(a + b, month, year)
         == MonthlyTransactions(a, month, year) + MonthlyTransactions(b, month, year)
  {
    FilterAppend(a, b, MonthIs(month, year));
  }

  /** `filter(t => t.type === kind)`. */
  function OfKind(ts: seq<Transaction>, kind: TxKind): (r: seq<Transaction>)
    ensures forall i :: 0 <= i < |r| ==> r[i] in ts && r[i].kind == kind
    ensures forall i :: 0 <= i < |ts| && ts[i].kind == kind ==> ts[i] in r
  {
    Filter(ts, KindIs(kind))
  }

  /** `reduce((acc, t) => acc + t.amount, 0)`. Amounts are exact reals here,
      so the order of the additions does not matter. */
  function Sum(ts: seq<Transaction>): real {
    if ts == [] then 0.0 else ts[0].amount + Sum(ts[1..])
  }

  lemma {:induction false} SumAppend(a: seq<Transaction>, b: seq<Transaction>)
    ensures Sum(a + b) == Sum(a) + Sum(b)
  {
    if a == [] {
      assert a + b == b;
    } else {
      assert (a + b)[1..] == a[1..] + b;
      SumAppend(a[1..], b);
    }
  }

  /** Every transaction is income or expense, so the two sums split the total. */
  lemma {:induction false} SumByKind(ts: seq<Transaction>)
    ensures Sum(ts) == Sum(OfKind(ts, Income)) + Sum(OfKind(ts, Expense))
  {
    if ts != [] {
      SumByKind(ts[1..]);
    }
  }

  /** The net effect of a list: income counted up, expense counted down. */
  function SignedSum(ts: seq<Transaction>): real {
    if ts == [] then 0.0
    else (if ts[0].kind == Income then ts[0].amount else -ts[0].amount) + SignedSum(ts[1..])
  }

  lemma {:induction false} NetIsSignedSum(ts: seq<Transaction>)
    ensures Sum(OfKind(ts, Income)) - Sum(OfKind(ts, Expense)) == SignedSum(ts)
  {
    if ts != [] {
      NetIsSignedSum(ts[1..]);
    }
  }

  /** `monthlyIncome`/`monthlyExpense` and `totalIncome`/`totalExpense`:
      the amounts of one kind within the month. */
  function MonthlyTotal(ts: seq<Transaction>, month: int, year: int, kind: TxKind): real {
    Sum(OfKind(MonthlyTransactions(ts, month, year), kind))
  }

  /** What the four-month window computes for one month: a single filter
      on month, year and kind over all transactions. */
  function MonthKindTotal(ts: seq<Transaction>, month: int, year: int, kind: TxKind): real {
    Sum(Filter(ts, MonthAndKindIs(month, year, kind)))
  }

  /** The one-pass filter of the window agrees with the month totals. */
  lemma OnePassTotal(ts: seq<Transaction>, month: int, year: int, kind: TxKind)
    ensures MonthKindTotal(ts, month, year, kind) == MonthlyTotal(ts, month, year, kind)
  {
    FilterFilter(ts, MonthIs(month, year), KindIs(kind), MonthAndKindIs(month, year, kind));
  }

  /** `(part / (whole || 1)) * 100`: the share of `part` in `whole` in
      percent, where a zero `whole` is replaced by 1. */
  function Percentage(part: real, whole: real): (r: real)
    ensures whole == 0.0 ==> r == part * 100.0
    ensures whole != 0.0 ==> r * whole == part * 100.0
    ensures 0.0 <= part <= whole ==> 0.0 <= r <= 100.0
  {
    var d := if whole == 0.0 then 1.0 else whole;
    RatioAtMostOne(part, whole);
    part / d * 100.0
  }

  /** A part no larger than a positive whole is at most all of it. */
  lemma RatioAtMostOne(part: real, whole: real)
    ensures 0.0 <= part <= whole && whole > 0.0 ==> 0.0 <= part / whole <= 1.0
  {
    if 0.0 <= part <= whole && whole > 0.0 {
      var q := part / whole;
      assert q * whole == part;
      assert (1.0 - q) * whole == whole - part;
      assert 1.0 - q >= 0.0;
    }
  }

  // ----- Grouping by category -----

  datatype Group = Group(name: string, value: real)

  function NameIs(c: string): Group -> bool {
    (x: Group) => x.name == c
  }

  function Names(g: seq<Group>): (r: seq<string>)
    ensures |r| == |g|
  {
    seq(|g|, i requires 0 <= i < |g| => g[i].name)
  }

  function Categories(ts: seq<Transaction>): (r: seq<string>)
    ensures |r| == |ts|
  {
    seq(|ts|, i requires 0 <= i < |ts| => ts[i].category)
  }

  function Is(x: string): string -> bool {
    y => y == x
  }

  /** Where a string first occurs in a list that holds it does not move when
      another string is appended; a new string first occurs at the end. */
  lemma FirstOccurrenceAppend(p: seq<string>, y: string)
    ensures forall x :: x in p ==> FirstIndex(p + [y], Is(x)) == FirstIndex(p, Is(x)) < |p|
    ensures y !in p ==> FirstIndex(p + [y], Is(y)) == |p|
  {
    forall x | x in p ensures FirstIndex(p + [y], Is(x)) == FirstIndex(p, Is(x)) < |p| {
      var k :| 0 <= k < |p| && p[k] == x;
      assert Is(x)(p[k]);
      FirstIndexAppend(p, y, Is(x));
    }
    FirstIndexAppend(p, y, Is(y));
  }

  /** The distinct elements of `s` in order of first appearance. */
  function Dedup(s: seq<string>): (r: seq<string>)
    ensures Distinct(r)
    ensures forall x :: x in r <==> x in s
    ensures forall i, j :: 0 <= i < j < |r| ==> FirstIndex(s, Is(r[i])) < FirstIndex(s, Is(r[j]))
  {
    if s == [] then []
    else
      var p := s[..|s| - 1];
      var y := s[|s| - 1];
      var d := Dedup(p);
      assert s == p + [y];
      FirstOccurrenceAppend(p, y);
      if y in d then d else d + [y]
  }

  /** One step of the grouping reduce: add the amount to the group of that
      category (the first one `find` meets), or open a new group at the end. */
  function GroupStep(acc: seq<Group>, t: Transaction): seq<Group> {
    var j := FirstIndex(acc, NameIs(t.category));
    if j < |acc| then acc[j := Group(acc[j].name, acc[j].value + t.amount)]
    else acc + [Group(t.category, t.amount)]
  }

  /** The groups of `ts`, built left to right as the reduce does. */
  function Grouped(ts: seq<Transaction>): seq<Group> {
    if ts == [] then [] else GroupStep(Grouped(ts[..|ts| - 1]), ts[|ts| - 1])
  }

  function SumValues(g: seq<Group>): real {
    if g == [] then 0.0 else g[0].value + SumValues(g[1..])
  }

  /** The amount spent under one category. */
  function CategorySum(ts: seq<Transaction>, c: string): real {
    Sum(Filter(ts, CategoryIs(c)))
  }

  lemma NamesStep(acc: seq<Group>, t: Transaction)
    ensures Names(GroupStep(acc, t))
         == if t.category in Names(acc) then Names(acc) else Names(acc) + [t.category]
  {
    var j := FirstIndex(acc, NameIs(t.category));
    if j < |acc| {
      assert Names(acc)[j] == t.category;
    } else {
      assert t.category !in Names(acc) by {
        forall i | 0 <= i < |acc| ensures Names(acc)[i] != t.category {
          assert !NameIs(t.category)(acc[i]);
        }
      }
    }
  }

  /** The distinct categories of a list are those of all but its last
      element, plus the last one's category if it is new. */
  lemma CategoriesLast(ts: seq<Transaction>)
    requires ts != []
    ensures Dedup(Categories(ts))
         == var d := Dedup(Categories(ts[..|ts| - 1]));
            if ts[|ts| - 1].category in d then d else d + [ts[|ts| - 1].category]
  {
    var s := Categories(ts);
    assert s[..|s| - 1] == Categories(ts[..|ts| - 1]);
  }

  /** The group names are the categories in order of first appearance. */
  lemma {:induction false} GroupedNames(ts: seq<Transaction>)
    ensures Names(Grouped(ts)) == Dedup(Categories(ts))
  {
    if ts != [] {
      var n := |ts| - 1;
      GroupedNames(ts[..n]);
      NamesStep(Grouped(ts[..n]), ts[n]);
      CategoriesLast(ts);
    }
  }

  /** No category gets two groups. */
  lemma GroupedDistinct(ts: seq<Transaction>)
    ensures Distinct(Names(Grouped(ts)))
  {
    GroupedNames(ts);
  }

  /** A category is grouped exactly when some transaction carries it. */
  lemma GroupedCovers(ts: seq<Transaction>, c: string)
    ensures c in Names(Grouped(ts)) <==> exists i :: 0 <= i < |ts| && ts[i].category == c
  {
    GroupedNames(ts);
    if c in Categories(ts) {
      var i :| 0 <= i < |ts| && Categories(ts)[i] == c;
      assert ts[i].category == c;
    }
    if exists i :: 0 <= i < |ts| && ts[i].category == c {
      var i :| 0 <= i < |ts| && ts[i].category == c;
      assert Categories(ts)[i] == c;
    }
  }

  /** Reordering groups does not change which names occur. */
  lemma NamesOfPermutation(a: seq<Group>, b: seq<Group>, c: string)
    requires multiset(a) == multiset(b)
    ensures c in Names(a) ==> c in Names(b)
  {
    if c in Names(a) {
      var k :| 0 <= k < |a| && Names(a)[k] == c;
      assert a[k] in multiset(b);
      var l :| 0 <= l < |b| && b[l] == a[k];
      assert Names(b)[l] == c;
    }
  }

  lemma CategorySumStep(ts: seq<Transaction>, t: Transaction, c: string)
    ensures CategorySum(ts + [t], c) == CategorySum(ts, c) + (if t.category == c then t.amount else 0.0)
  {
    FilterAppend(ts, [t], CategoryIs(c));
    SumAppend(Filter(ts, CategoryIs(c)), Filter([t], CategoryIs(c)));
  }

  lemma {:induction false} CategorySumAbsent(ts: seq<Transaction>, c: string)
    requires c !in Categories(ts)
    ensures CategorySum(ts, c) == 0.0
  {
    if ts != [] {
      assert Categories(ts[1..]) == Categories(ts)[1..];
      assert Categories(ts)[0] == ts[0].category;
      CategorySumAbsent(ts[1..], c);
    }
  }

  /** Each group holds the sum of its category. */
  lemma {:induction false} GroupedValues(ts: seq<Transaction>)
    ensures forall i :: 0 <= i < |Grouped(ts)| ==>
      Grouped(ts)[i].value == CategorySum(ts, Grouped(ts)[i].name)
  {
    if ts != [] {
      var n := |ts| - 1;
      var pre, t := ts[..n], ts[n];
      assert ts == pre + [t];
      GroupedValues(pre);
      GroupedDistinct(pre);
      GroupedNames(pre);
      var acc := Grouped(pre);
      var j := FirstIndex(acc, NameIs(t.category));
      forall i | 0 <= i < |Grouped(ts)|
        ensures Grouped(ts)[i].value == CategorySum(ts, Grouped(ts)[i].name)
      {
        var g := Grouped(ts)[i];
        CategorySumStep(pre, t, g.name);
        if j < |acc| {
          if i != j {
            assert Names(acc)[i] != Names(acc)[j];
          }
        } else if i == |acc| {
          assert t.category !in Names(acc) by { NamesStep(acc, t); }
          CategorySumAbsent(pre, t.category);
        } else {
          assert Names(acc)[i] == acc[i].name;
          assert acc[i].name != t.category;
        }
      }
    }
  }

  lemma {:induction false} SumValuesAppend(g: seq<Group>, x: Group)
    ensures SumValues(g + [x]) == SumValues(g) + x.value
  {
    if g != [] {
      assert (g + [x])[1..] == g[1..] + [x];
      SumValuesAppend(g[1..], x);
    }
  }

  lemma {:induction false} SumValuesUpdate(g: seq<Group>, j: nat, a: real)
    requires j < |g|
    ensures SumValues(g[j := Group(g[j].name, g[j].value + a)]) == SumValues(g) + a
  {
    if j > 0 {
      assert g[j := Group(g[j].name, g[j].value + a)][1..] == g[1..][j - 1 := Group(g[j].name, g[j].value + a)];
      SumValuesUpdate(g[1..], j - 1, a);
    }
  }

  /** The groups add up to the whole list: grouping loses nothing. */
  lemma {:induction false} GroupedTotal(ts: seq<Transaction>)
    ensures SumValues(Grouped(ts)) == Sum(ts)
  {
    if ts != [] {
      var n := |ts| - 1;
      assert ts == ts[..n] + [ts[n]];
      GroupedTotal(ts[..n]);
      SumAppend(ts[..n], [ts[n]]);
      var acc := Grouped(ts[..n]);
      var j := FirstIndex(acc, NameIs(ts[n].category));
      if j < |acc| {
        SumValuesUpdate(acc, j, ts[n].amount);
      } else {
        SumValuesAppend(acc, Group(ts[n].category, ts[n].amount));
      }
    }
  }

  // ----- Date order -----

  /** `new Date(t.date).getTime()` up to a constant factor: the day number. */
  function DateKey(t: Transaction): real {
    Gregorian.EpochDay(t.date.year, t.date.month, t.date.day) as real
  }

  /** `slice().sort((a, b) => date(b) - date(a))`: a reordered copy, newest
      first, in which the transactions of one day keep their stored order. */
  function NewestFirst(ts: seq<Transaction>): (r: seq<Transaction>)
    ensures multiset(r) == multiset(ts)
    ensures forall i, j :: 0 <= i < j < |r| ==> DateKey(r[i]) >= DateKey(r[j])
    ensures forall k :: Filter(r, KeyIs(DateKey, k)) == Filter(ts, KeyIs(DateKey, k))
  {
    SortDesc(ts, DateKey)
  }
}
