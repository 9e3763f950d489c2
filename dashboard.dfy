/** The dashboard (pages/Dashboard.tsx): the figures of the selected month,
    the category breakdown of one kind, and the month's activity. The
    selected month itself is a `MonthNav.MonthCursor`. */
module Dashboard {
  import opened Types
  import opened Lists
  import opened Aggregation

  /** `monthlyIncome - monthlyExpense`: each income counted with a plus
      sign and each expense with a minus sign. */
  function MonthlyBalance(ts: seq<Transaction>, month: int, year: int): (b: real)
    ensures b == SignedSum(MonthlyTransactions(ts, month, year))
  {
    NetIsSignedSum(MonthlyTransactions(ts, month, year));
    MonthlyTotal(ts, month, year, Income) - MonthlyTotal(ts, month, year, Expense)
  }

  /** `savingsRate`: the part of the income not spent, in percent, and 0
      when there is no positive income. */
  function SavingsRate(income: real, expense: real): (r: real)
    ensures income <= 0.0 ==> r == 0.0
    ensures income > 0.0 ==> r * income == (income - expense) * 100.0
    ensures income > 0.0 ==> (r >= 0.0 <==> expense <= income)
    ensures income > 0.0 && expense >= 0.0 ==> r <= 100.0
  {
    if income > 0.0 then
      var q := (income - expense) / income;
      assert q * income == income - expense;
      assert q >= 0.0 <==> expense <= income by {
        if q < 0.0 {
          assert q * income < 0.0;
        }
      }
      q * 100.0
    else 0.0
  }

  // ----- Category breakdown -----

  function GroupValue(g: Group): real { g.value }

  function GroupName(g: Group): string { g.name }

  /** The breakdown the dashboard shows for one kind: the category groups,
      largest first, groups of equal value in order of first appearance. */
  function Breakdown(monthly: seq<Transaction>, kind: TxKind): (entries: seq<Group>)
    ensures SortedDesc(entries, GroupValue)
    ensures multiset(entries) == multiset(Grouped(OfKind(monthly, kind)))
    ensures forall k :: Filter(entries, KeyIs(GroupValue, k))
                     == Filter(Grouped(OfKind(monthly, kind)), KeyIs(GroupValue, k))
  {
    SortDesc(Grouped(OfKind(monthly, kind)), GroupValue)
  }

  /** `categorySummary`: the amounts of one kind in the month added up per
      category into the dictionary `summary`, whose entries are then sorted
      by value, largest first. A JavaScript object with string keys keeps
      its keys in the order they were first set, so the dictionary is the
      sequence of its entries, `summary[c]` is the entry named `c`, and
      the `forEach` callback is `GroupStep`. */
  method CategorySummary(monthly: seq<Transaction>, kind: TxKind) returns (entries: seq<Group>)
    ensures entries == Breakdown(monthly, kind)
    ensures SortedDesc(entries, GroupValue)
  {
    var selected := OfKind(monthly, kind);
    var summary: seq<Group> := [];
    var i := 0;
    while i < |selected|
      invariant 0 <= i <= |selected|
      invariant summary == Grouped(selected[..i])
    {
      assert selected[..i + 1][..i] == selected[..i];
      summary := GroupStep(summary, selected[i]);
      i := i + 1;
    }
    assert selected[..i] == selected;
    entries := SortDesc(summary, GroupValue);
  }

  lemma {:induction false} SumValuesInsert(x: Group, g: seq<Group>)
    ensures SumValues(Insert(x, g, GroupValue)) == x.value + SumValues(g)
  {
    if g != [] && GroupValue(g[0]) > GroupValue(x) {
      SumValuesInsert(x, g[1..]);
      assert Insert(x, g, GroupValue) == [g[0]] + Insert(x, g[1..], GroupValue);
    }
  }

  /** Sorting the entries does not change their total. */
  lemma {:induction false} SumValuesSort(g: seq<Group>)
    ensures SumValues(SortDesc(g, GroupValue)) == SumValues(g)
  {
    if g != [] {
      SumValuesSort(g[1..]);
      SumValuesInsert(g[0], SortDesc(g[1..], GroupValue));
    }
  }

  /** No category appears twice in the breakdown. */
  lemma BreakdownDistinct(monthly: seq<Transaction>, kind: TxKind)
    ensures DistinctBy(Breakdown(monthly, kind), GroupName)
  {
    var groups := Grouped(OfKind(monthly, kind));
    GroupedDistinct(OfKind(monthly, kind));
    assert DistinctBy(groups, GroupName) by {
      forall i, j | 0 <= i < j < |groups| ensures groups[i].name != groups[j].name {
        assert Names(groups)[i] != Names(groups)[j];
      }
    }
    SortKeepsDistinct(groups, GroupValue, GroupName);
  }

  /** Each entry is the total of its category among the month's
      transactions of that kind. */
  lemma BreakdownValues(monthly: seq<Transaction>, kind: TxKind)
    ensures forall k :: 0 <= k < |Breakdown(monthly, kind)| ==>
      Breakdown(monthly, kind)[k].value
        == CategorySum(OfKind(monthly, kind), Breakdown(monthly, kind)[k].name)
  {
    var selected := OfKind(monthly, kind);
    var groups := Grouped(selected);
    var entries := Breakdown(monthly, kind);
    GroupedValues(selected);
    forall k | 0 <= k < |entries|
      ensures entries[k].value == CategorySum(selected, entries[k].name)
    {
      assert entries[k] in multiset(groups);
      var l :| 0 <= l < |groups| && groups[l] == entries[k];
    }
  }

  /** A category has an entry exactly when some transaction of that kind in
      the month carries it. */
  lemma BreakdownNames(monthly: seq<Transaction>, kind: TxKind, c: string)
    ensures c in Names(Breakdown(monthly, kind)) <==> c in Categories(OfKind(monthly, kind))
  {
    var selected := OfKind(monthly, kind);
    var groups := Grouped(selected);
    var entries := Breakdown(monthly, kind);
    GroupedNames(selected);
    assert c in Names(groups) <==> c in Categories(selected);
    NamesOfPermutation(groups, entries, c);
    NamesOfPermutation(entries, groups, c);
  }

  /** The entries together make the month's total of that kind. */
  lemma BreakdownTotal(monthly: seq<Transaction>, kind: TxKind)
    ensures SumValues(Breakdown(monthly, kind)) == Sum(OfKind(monthly, kind))
  {
    SumValuesSort(Grouped(OfKind(monthly, kind)));
    GroupedTotal(OfKind(monthly, kind));
  }

  /** The percentages shown beside the entries, each `Percentage(value, total)`. */
  function SumShares(g: seq<Group>, total: real): real {
    if g == [] then 0.0 else Percentage(g[0].value, total) + SumShares(g[1..], total)
  }

  lemma {:induction false} SharesScale(g: seq<Group>, total: real)
    requires total != 0.0
    ensures SumShares(g, total) * total == 100.0 * SumValues(g)
  {
    if g != [] {
      SharesScale(g[1..], total);
      var p := Percentage(g[0].value, total);
      assert (p + SumShares(g[1..], total)) * total == p * total + SumShares(g[1..], total) * total;
    }
  }

  /** With a non-zero total the percentages of the breakdown add up to 100. */
  lemma SharesSumTo100(monthly: seq<Transaction>, kind: TxKind)
    requires Sum(OfKind(monthly, kind)) != 0.0
    ensures SumShares(Breakdown(monthly, kind), Sum(OfKind(monthly, kind))) == 100.0
  {
    BreakdownTotal(monthly, kind);
    SharesOfTotal(Breakdown(monthly, kind), Sum(OfKind(monthly, kind)));
  }

  lemma SharesOfTotal(g: seq<Group>, total: real)
    requires total != 0.0 && SumValues(g) == total
    ensures SumShares(g, total) == 100.0
  {
    SharesScale(g, total);
    Cancel(SumShares(g, total), 100.0, total, SumValues(g));
  }

  lemma Cancel(a: real, b: real, c: real, v: real)
    requires c != 0.0 && v == c && a * c == b * v
    ensures a == b
  {
    assert (a - b) * c == a * c - b * c;
  }

  /** The activity list: the month's transactions, newest first, those of
      one day in their stored order. */
  function Activity(ts: seq<Transaction>, month: int, year: int): (r: seq<Transaction>)
    ensures multiset(r) == multiset(MonthlyTransactions(ts, month, year))
    ensures forall i, j :: 0 <= i < j < |r| ==> DateKey(r[i]) >= DateKey(r[j])
    ensures forall k :: Filter(r, KeyIs(DateKey, k))
                     == Filter(MonthlyTransactions(ts, month, year), KeyIs(DateKey, k))
  {
    NewestFirst(MonthlyTransactions(ts, month, year))
  }
}
