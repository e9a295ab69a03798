/** The tracker's state: the transaction list, the storage slot the list is
    saved to, and the year selector whose value the chart reads. */
module Store {
  import opened Transactions
  import opened Summary
  import opened Monthly
  import opened Years

  /** The list the page starts from: the saved list, or the empty list when
      nothing has been saved. */
  function Load(saved: Option<seq<Transaction>>): (ts: seq<Transaction>)
    ensures saved == Some(ts) || (saved == None && ts == [])
  {
    match saved
    case None => []
    case Some(ts) => ts
  }

  class TransactionStore {
    /** The records, in the order they were added. */
    var transactions: seq<Transaction>
    /** The storage slot: `None` until the list is first saved. */
    var stored: Option<seq<Transaction>>
    /** The year selector's options, newest first. */
    var yearOptions: seq<int>
    /** The year selector's value: `None` while it has no options. */
    var selectedYear: Option<int>

    /** Reloading the storage slot gives back the list; every year option is
        the year of some record (an option can be missing until the selector
        is next filled, never stale); the selection is one of the options. */
    ghost predicate Valid()
      reads this
    {
      && Load(stored) == transactions
      && StrictlyDescending(yearOptions)
      && (forall y :: y in yearOptions ==> y in YearsOf(transactions))
      && (selectedYear == None <==> yearOptions == [])
      && (selectedYear.Some? ==> selectedYear.value in yearOptions)
    }

    /** Page start: the list is read from the storage slot and the year
        selector is filled from it. */
    constructor (saved: Option<seq<Transaction>>)
      ensures Valid()
      ensures transactions == Load(saved) && stored == saved
      ensures yearOptions == DistinctYears(transactions) && selectedYear == FirstYear(yearOptions)
    {
      transactions := Load(saved);
      stored := saved;
      new;
      PopulateYearSelect();
    }

    /** Writes the whole list to the storage slot. */
    method UpdateLocalStorage()
      modifies this`stored
      ensures stored == Some(transactions)
    {
      stored := Some(transactions);
    }

    /** Fills the year selector with the distinct years, newest first, and
        selects the first of them. */
    method PopulateYearSelect()
      modifies this`yearOptions, this`selectedYear
      ensures yearOptions == DistinctYears(transactions) && selectedYear == FirstYear(yearOptions)
    {
      yearOptions := DistinctYears(transactions);
      selectedYear := FirstYear(yearOptions);
    }

    /** The add form: appends one record built with the sign rule and saves
        the list. The year selector is not refilled, so a record of a new
        year gets no option until the next removal or page start. */
    method Add(id: int, kind: string, entered: int, category: string, year: int, month: Month)
      requires Valid()
      modifies this
      ensures Valid()
      ensures transactions == old(transactions) + [NewTransaction(id, kind, entered, category, year, month)]
      ensures stored == Some(transactions)
      ensures yearOptions == old(yearOptions) && selectedYear == old(selectedYear)
    {
      transactions := transactions + [NewTransaction(id, kind, entered, category, year, month)];
      UpdateLocalStorage();
      forall y | y in yearOptions
        ensures y in YearsOf(transactions)
      {
        var t :| t in old(transactions) && t.year == y;
        assert t in transactions;
      }
    }

    /** The delete button: drops every record with this id, saves the list and
        refills the year selector. */
    method Remove(id: int)
      requires Valid()
      modifies this
      ensures Valid()
      ensures transactions == Without(old(transactions), id)
      ensures stored == Some(transactions)
      ensures yearOptions == DistinctYears(transactions) && selectedYear == FirstYear(yearOptions)
    {
      transactions := Without(transactions, id);
      UpdateLocalStorage();
      PopulateYearSelect();
    }

    /** The year selector's change event: the user picks one of the options. */
    method SelectYear(y: int)
      requires Valid() && y in yearOptions
      modifies this`selectedYear
      ensures Valid() && selectedYear == Some(y)
    {
      selectedYear := Some(y);
    }

    /** The two series the chart is drawn from, for the selected year. */
    method DrawChart() returns (income: seq<int>, expense: seq<int>)
      ensures income == MonthlyIncome(transactions, selectedYear)
      ensures expense == MonthlyExpense(transactions, selectedYear)
    {
      income, expense := Aggregate(transactions, selectedYear);
    }
  }

  /** A session on a fresh page: a salary of 1000.00 and a food expense of
      250.00 give a balance of 750.00; the selector, filled when the page
      opened with no records, still selects no year, so the chart stays
      empty; removing an unknown id leaves the list unchanged but fills the
      selector, which then selects the records' year. */
  method SalaryThenFood()
  {
    var store := new TransactionStore(None);
    store.Add(1, "income", 100000, "Salary", 2025, 0);
    store.Add(2, "expense", 25000, "Food", 2025, 0);
    var salary := NewTransaction(1, "income", 100000, "Salary", 2025, 0);
    var food := NewTransaction(2, "expense", 25000, "Food", 2025, 0);
    assert store.transactions == [salary, food];
    assert salary.amount == 100000 && food.amount == -25000;
    SummarizeAppend([], salary);
    assert [salary] + [food] == [salary, food];
    SummarizeAppend([salary], food);
    assert Summarize(store.transactions) == Totals(75000, 100000, -25000);

    var income, expense := store.DrawChart();
    assert store.selectedYear == None;
    forall m: Month
      ensures income[m] == 0 && expense[m] == 0
    {
      NothingSelectedIsZero(store.transactions, None, m);
    }

    WithoutAbsent([salary, food], 3);
    store.Remove(3);
    assert store.transactions == [salary, food];
    assert DistinctYears([salary, food]) == [2025] by {
      assert [salary, food][..1] == [salary];
      assert [salary][..0] == [];
    }
    assert store.selectedYear == Some(2025);
  }
}
