/** The data behind the monthly bar chart: for the selected year, twelve
    income sums and twelve expense magnitudes, January first. */
module Monthly {
  import opened Transactions
  import opened Summary

  /** Whether a record belongs to the selected year. `None` stands for an
      empty year selector, whose value parses to NaN and equals no year. */
  predicate InSelected(t: Transaction, selected: Option<int>)
  {
    selected == Some(t.year)
  }

  /** The income of month `m`: the sum of that month's amounts that are zero
      or more, over the records of the selected year. */
  function MonthIncome(ts: seq<Transaction>, selected: Option<int>, m: Month): (r: int)
    ensures r >= 0
  {
    if ts == [] then 0
    else
      var t := ts[|ts| - 1];
      MonthIncome(ts[..|ts| - 1], selected, m)
        + (if InSelected(t, selected) && t.month == m && t.amount >= 0 then t.amount else 0)
  }

  /** The expense of month `m`: the sum of the magnitudes of that month's
      negative amounts, over the records of the selected year. */
  function MonthExpense(ts: seq<Transaction>, selected: Option<int>, m: Month): (r: int)
    ensures r >= 0
  {
    if ts == [] then 0
    else
      var t := ts[|ts| - 1];
      MonthExpense(ts[..|ts| - 1], selected, m)
        + (if InSelected(t, selected) && t.month == m && t.amount < 0 then Abs(t.amount) else 0)
  }

  /** The income series handed to the chart: twelve values, January first,
      each that month's income, zero for a month without such records. */
  function MonthlyIncome(ts: seq<Transaction>, selected: Option<int>): (r: seq<int>)
    ensures |r| == 12
    ensures forall m :: 0 <= m < 12 ==> r[m] == MonthIncome(ts, selected, m) && r[m] >= 0
  {
    seq(12, m requires 0 <= m < 12 => MonthIncome(ts, selected, m))
  }

  /** The expense series handed to the chart: twelve values, January first,
      each that month's expense, zero for a month without such records. */
  function MonthlyExpense(ts: seq<Transaction>, selected: Option<int>): (r: seq<int>)
    ensures |r| == 12
    ensures forall m :: 0 <= m < 12 ==> r[m] == MonthExpense(ts, selected, m) && r[m] >= 0
  {
    seq(12, m requires 0 <= m < 12 => MonthExpense(ts, selected, m))
  }

  /** The signed sum of the amounts of the selected year's records. */
  function YearTotal(ts: seq<Transaction>, selected: Option<int>): int
  {
    if ts == [] then 0
    else
      var t := ts[|ts| - 1];
      YearTotal(ts[..|ts| - 1], selected) + (if InSelected(t, selected) then t.amount else 0)
  }

  /** One month's entry of the chart's working table. */
  datatype Bucket = Bucket(income: int, expense: int)

  /** A month without an entry reads as zero. */
  function IncomeAt(data: map<Month, Bucket>, m: Month): int
  {
    if m in data then data[m].income else 0
  }

  function ExpenseAt(data: map<Month, Bucket>, m: Month): int
  {
    if m in data then data[m].expense else 0
  }

  /** The chart aggregation: one pass over the records fills a table keyed by
      month, creating an entry on a month's first record, and the two series
      are then read off it for the twelve months, zero where there is no
      entry. */
  method Aggregate(ts: seq<Transaction>, selected: Option<int>) returns (income: seq<int>, expense: seq<int>)
    ensures |income| == 12 && |expense| == 12
    ensures forall m :: 0 <= m < 12 ==> income[m] >= 0 && expense[m] >= 0
    ensures income == MonthlyIncome(ts, selected) && expense == MonthlyExpense(ts, selected)
  {
    var data: map<Month, Bucket> := map[];
    var i := 0;
    while i < |ts|
      invariant 0 <= i <= |ts|
      invariant forall m: Month :: IncomeAt(data, m) == MonthIncome(ts[..i], selected, m)
      invariant forall m: Month :: ExpenseAt(data, m) == MonthExpense(ts[..i], selected, m)
    {
      var t := ts[i];
      assert ts[..i + 1][..i] == ts[..i];
      if selected == Some(t.year) {
        var key := t.month;
        if key !in data {
          data := data[key := Bucket(0, 0)];
        }
        if t.amount >= 0 {
          data := data[key := data[key].(income := data[key].income + t.amount)];
        } else {
          data := data[key := data[key].(expense := data[key].expense + Abs(t.amount))];
        }
      }
      i := i + 1;
    }
    assert ts[..i] == ts;
    income := seq(12, m requires 0 <= m < 12 => IncomeAt(data, m));
    expense := seq(12, m requires 0 <= m < 12 => ExpenseAt(data, m));
  }

  /** Both sums distribute over concatenation of record lists. */
  lemma {:induction false} MonthAppend(a: seq<Transaction>, b: seq<Transaction>, selected: Option<int>, m: Month)
    ensures MonthIncome(a + b, selected, m) == MonthIncome(a, selected, m) + MonthIncome(b, selected, m)
    ensures MonthExpense(a + b, selected, m) == MonthExpense(a, selected, m) + MonthExpense(b, selected, m)
    decreases |b|
  {
    if b == [] {
      assert a + b == a;
    } else {
      var b' := b[..|b| - 1];
      assert (a + b)[..|a + b| - 1] == a + b';
      MonthAppend(a, b', selected, m);
    }
  }

  /** A record outside the selected year changes neither series, wherever it
      stands in the list. */
  lemma OtherYearIgnored(a: seq<Transaction>, t: Transaction, b: seq<Transaction>, selected: Option<int>)
    requires !InSelected(t, selected)
    ensures MonthlyIncome(a + [t] + b, selected) == MonthlyIncome(a + b, selected)
    ensures MonthlyExpense(a + [t] + b, selected) == MonthlyExpense(a + b, selected)
  {
    forall m: Month
      ensures MonthIncome(a + [t] + b, selected, m) == MonthIncome(a + b, selected, m)
      ensures MonthExpense(a + [t] + b, selected, m) == MonthExpense(a + b, selected, m)
    {
      MonthAppend(a + [t], b, selected, m);
      MonthAppend(a, [t], selected, m);
      MonthAppend(a, b, selected, m);
      assert [t][..0] == [];
    }
  }

  /** With no record in the selected year (an empty list, a year nobody
      recorded, or an empty selector) every month of both series is zero. */
  lemma {:induction false} NothingSelectedIsZero(ts: seq<Transaction>, selected: Option<int>, m: Month)
    requires forall t :: t in ts ==> !InSelected(t, selected)
    ensures MonthIncome(ts, selected, m) == 0 && MonthExpense(ts, selected, m) == 0
  {
    if ts != [] {
      var p := ts[..|ts| - 1];
      assert ts[|ts| - 1] in ts;
      forall t | t in p
        ensures !InSelected(t, selected)
      {
        assert ts == p + [ts[|ts| - 1]];
        assert t in ts;
      }
      NothingSelectedIsZero(p, selected, m);
    }
  }

  /** Income minus expense summed over the first `k` months. */
  function NetUpTo(ts: seq<Transaction>, selected: Option<int>, k: nat): int
    requires k <= 12
  {
    if k == 0 then 0
    else NetUpTo(ts, selected, k - 1) + MonthIncome(ts, selected, k - 1) - MonthExpense(ts, selected, k - 1)
  }

  lemma {:induction false} NetUpToLast(ts: seq<Transaction>, selected: Option<int>, k: nat)
    requires ts != [] && k <= 12
    ensures var t := ts[|ts| - 1];
      NetUpTo(ts, selected, k)
        == NetUpTo(ts[..|ts| - 1], selected, k) + (if InSelected(t, selected) && t.month < k then t.amount else 0)
  {
    if k > 0 {
      NetUpToLast(ts, selected, k - 1);
    }
  }

  lemma {:induction false} NetUpToEmpty(selected: Option<int>, k: nat)
    requires k <= 12
    ensures NetUpTo([], selected, k) == 0
  {
    if k > 0 {
      NetUpToEmpty(selected, k - 1);
    }
  }

  lemma {:induction false} NetUpToYear(ts: seq<Transaction>, selected: Option<int>)
    ensures NetUpTo(ts, selected, 12) == YearTotal(ts, selected)
  {
    if ts == [] {
      NetUpToEmpty(selected, 12);
    } else {
      NetUpToLast(ts, selected, 12);
      NetUpToYear(ts[..|ts| - 1], selected);
    }
  }

  lemma {:induction false} SeriesPrefix(ts: seq<Transaction>, selected: Option<int>, k: nat)
    requires k <= 12
    ensures Sum(MonthlyIncome(ts, selected)[..k]) - Sum(MonthlyExpense(ts, selected)[..k]) == NetUpTo(ts, selected, k)
  {
    if k > 0 {
      var inc, exp := MonthlyIncome(ts, selected), MonthlyExpense(ts, selected);
      assert inc[..k][..k - 1] == inc[..k - 1];
      assert exp[..k][..k - 1] == exp[..k - 1];
      SeriesPrefix(ts, selected, k - 1);
    }
  }

  /** Over the twelve months, total income minus total expense is the signed
      sum of the selected year's amounts: every record of that year lands in
      exactly one month and one of the two series. */
  lemma YearNet(ts: seq<Transaction>, selected: Option<int>)
    ensures Sum(MonthlyIncome(ts, selected)) - Sum(MonthlyExpense(ts, selected)) == YearTotal(ts, selected)
  {
    SeriesPrefix(ts, selected, 12);
    assert MonthlyIncome(ts, selected)[..12] == MonthlyIncome(ts, selected);
    assert MonthlyExpense(ts, selected)[..12] == MonthlyExpense(ts, selected);
    NetUpToYear(ts, selected);
  }

  /** When every record is in the selected year, the chart's net over the
      year is the balance shown in the summary. */
  lemma {:induction false} YearTotalIsBalance(ts: seq<Transaction>, selected: Option<int>)
    requires forall t :: t in ts ==> InSelected(t, selected)
    ensures YearTotal(ts, selected) == Summarize(ts).total
  {
    if ts != [] {
      var p := ts[..|ts| - 1];
      assert ts == p + [ts[|ts| - 1]];
      forall t | t in p
        ensures InSelected(t, selected)
      {
        assert t in ts;
      }
      YearTotalIsBalance(p, selected);
      assert ts[|ts| - 1] in ts;
      assert Amounts(ts)[..|ts| - 1] == Amounts(p);
    }
  }
}
