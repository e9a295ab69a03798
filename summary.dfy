/** The balance, income and expense figures shown above the transaction list. */
module Summary {
  import opened Transactions

  /** The amounts of the records, in list order. */
  function Amounts(ts: seq<Transaction>): seq<int>
  {
    seq(|ts|, i requires 0 <= i < |ts| => ts[i].amount)
  }

  function Sum(xs: seq<int>): int
  {
    if xs == [] then 0 else Sum(xs[..|xs| - 1]) + xs[|xs| - 1]
  }

  /** The amounts greater than zero, in order. */
  function Positives(xs: seq<int>): seq<int>
  {
    if xs == [] then []
    else Positives(xs[..|xs| - 1]) + (if xs[|xs| - 1] > 0 then [xs[|xs| - 1]] else [])
  }

  /** The amounts less than zero, in order. */
  function Negatives(xs: seq<int>): seq<int>
  {
    if xs == [] then []
    else Negatives(xs[..|xs| - 1]) + (if xs[|xs| - 1] < 0 then [xs[|xs| - 1]] else [])
  }

  /** The three figures: `expense` is the signed sum of the negative amounts
      (its magnitude is what gets displayed). */
  datatype Totals = Totals(total: int, income: int, expense: int)

  /** The summary of a list: income is never negative, expense never
      positive, and the total is their sum. */
  function Summarize(ts: seq<Transaction>): (r: Totals)
    ensures r.income >= 0 && r.expense <= 0
    ensures r.total == r.income + r.expense
    ensures ts == [] ==> r == Totals(0, 0, 0)
  {
    var a := Amounts(ts);
    PositivesSumNonnegative(a);
    NegativesSumNonpositive(a);
    SumSplits(a);
    Totals(Sum(a), Sum(Positives(a)), Sum(Negatives(a)))
  }

  lemma {:induction false} PositivesSumNonnegative(xs: seq<int>)
    ensures Sum(Positives(xs)) >= 0
  {
    if xs != [] {
      PositivesSumNonnegative(xs[..|xs| - 1]);
      SumAppend(Positives(xs[..|xs| - 1]), if xs[|xs| - 1] > 0 then [xs[|xs| - 1]] else []);
    }
  }

  lemma {:induction false} NegativesSumNonpositive(xs: seq<int>)
    ensures Sum(Negatives(xs)) <= 0
  {
    if xs != [] {
      NegativesSumNonpositive(xs[..|xs| - 1]);
      SumAppend(Negatives(xs[..|xs| - 1]), if xs[|xs| - 1] < 0 then [xs[|xs| - 1]] else []);
    }
  }

  lemma {:induction false} SumAppend(a: seq<int>, b: seq<int>)
    ensures Sum(a + b) == Sum(a) + Sum(b)
    decreases |b|
  {
    if b == [] {
      assert a + b == a;
    } else {
      var b' := b[..|b| - 1];
      assert (a + b)[..|a + b| - 1] == a + b';
      SumAppend(a, b');
    }
  }

  /** Every amount is counted once: in income, in expense, or (a zero) in
      neither. */
  lemma {:induction false} SumSplits(xs: seq<int>)
    ensures Sum(xs) == Sum(Positives(xs)) + Sum(Negatives(xs))
  {
    if xs != [] {
      var p, x := xs[..|xs| - 1], xs[|xs| - 1];
      SumSplits(p);
      SumAppend(Positives(p), if x > 0 then [x] else []);
      SumAppend(Negatives(p), if x < 0 then [x] else []);
    }
  }

  /** Income sums exactly the positive amounts: each positive value as many
      times as it occurs, nothing else. */
  lemma {:induction false} PositivesCount(xs: seq<int>, x: int)
    ensures multiset(Positives(xs))[x] == if x > 0 then multiset(xs)[x] else 0
  {
    if xs != [] {
      var p := xs[..|xs| - 1];
      assert xs == p + [xs[|xs| - 1]];
      PositivesCount(p, x);
    }
  }

  /** Expense sums exactly the negative amounts. */
  lemma {:induction false} NegativesCount(xs: seq<int>, x: int)
    ensures multiset(Negatives(xs))[x] == if x < 0 then multiset(xs)[x] else 0
  {
    if xs != [] {
      var p := xs[..|xs| - 1];
      assert xs == p + [xs[|xs| - 1]];
      NegativesCount(p, x);
    }
  }

  /** Appending a record moves the total by its amount and exactly one of
      income or expense by the same amount (neither, for a zero). */
  lemma SummarizeAppend(ts: seq<Transaction>, t: Transaction)
    ensures Summarize(ts + [t]).total == Summarize(ts).total + t.amount
    ensures Summarize(ts + [t]).income == Summarize(ts).income + (if t.amount > 0 then t.amount else 0)
    ensures Summarize(ts + [t]).expense == Summarize(ts).expense + (if t.amount < 0 then t.amount else 0)
  {
    var a, x := Amounts(ts + [t]), t.amount;
    assert a[..|a| - 1] == Amounts(ts);
    SumAppend(Positives(Amounts(ts)), if x > 0 then [x] else []);
    SumAppend(Negatives(Amounts(ts)), if x < 0 then [x] else []);
  }

  /** Removing an id no record carries leaves all three figures unchanged. */
  lemma SummarizeRemoveAbsent(ts: seq<Transaction>, id: int)
    requires forall t :: t in ts ==> t.id != id
    ensures Summarize(Without(ts, id)) == Summarize(ts)
  {
    WithoutAbsent(ts, id);
  }
}
