/** The options of the year selector: the distinct years of the records,
    newest first, with the newest one selected. */
module Years {
  import opened Transactions

  /** The years that some record carries. */
  function YearsOf(ts: seq<Transaction>): set<int>
  {
    set t | t in ts :: t.year
  }

  predicate StrictlyDescending(s: seq<int>)
  {
    forall i, j :: 0 <= i < j < |s| ==> s[i] > s[j]
  }

  /** Adds `y` to a strictly descending list unless it is already there. */
  function InsertDescending(s: seq<int>, y: int): (r: seq<int>)
    requires StrictlyDescending(s)
    ensures StrictlyDescending(r)
    ensures forall x :: x in r <==> x in s || x == y
  {
    if s == [] then [y]
    else if y == s[0] then s
    else if y > s[0] then [y] + s
    else
      var rest := InsertDescending(s[1..], y);
      assert forall x :: x in rest ==> x < s[0];
      [s[0]] + rest
  }

  /** The year options: strictly descending, so free of duplicates, and
      holding exactly the years the records carry. */
  function DistinctYears(ts: seq<Transaction>): (r: seq<int>)
    ensures StrictlyDescending(r)
    ensures forall y :: y in r <==> y in YearsOf(ts)
  {
    if ts == [] then []
    else
      var p := ts[..|ts| - 1];
      assert ts == p + [ts[|ts| - 1]];
      assert YearsOf(ts) == YearsOf(p) + {ts[|ts| - 1].year};
      InsertDescending(DistinctYears(p), ts[|ts| - 1].year)
  }

  /** The selector's value after it is filled: its first option, or nothing
      when there are no options. */
  function FirstYear(years: seq<int>): Option<int>
  {
    if |years| > 0 then Some(years[0]) else None
  }

  /** The year selected after filling is the latest year of any record, and
      there is one exactly when there are records. */
  lemma SelectedIsLatest(ts: seq<Transaction>)
    ensures FirstYear(DistinctYears(ts)) == None <==> ts == []
    ensures FirstYear(DistinctYears(ts)).Some? ==>
      var y := FirstYear(DistinctYears(ts)).value;
      y in YearsOf(ts) && forall t :: t in ts ==> t.year <= y
  {
    var r := DistinctYears(ts);
    if ts != [] {
      assert ts[0].year in YearsOf(ts);
    }
    forall t | t in ts
      ensures r[0] >= t.year
    {
      assert t.year in YearsOf(ts);
      var i :| 0 <= i < |r| && r[i] == t.year;
    }
  }

  /** Two strictly descending lists with the same elements are equal, so the
      year options are the one list that a set of years sorted newest first
      can give. */
  lemma {:induction false} DescendingUnique(a: seq<int>, b: seq<int>)
    requires StrictlyDescending(a) && StrictlyDescending(b)
    requires forall x :: x in a <==> x in b
    ensures a == b
  {
    if a != [] {
      assert a[0] in a;
    }
    if b != [] {
      assert b[0] in b;
    }
    if a != [] && b != [] {
      assert a[0] == b[0];
      assert a == [a[0]] + a[1..] && b == [b[0]] + b[1..];
      forall x
        ensures x in a[1..] <==> x in b[1..]
      {
        if x in a[1..] {
          var i :| 0 <= i < |a[1..]| && a[1..][i] == x;
          assert a[i + 1] == x && x in a && x < a[0];
        }
        if x in b[1..] {
          var i :| 0 <= i < |b[1..]| && b[1..][i] == x;
          assert b[i + 1] == x && x in b && x < b[0];
        }
      }
      DescendingUnique(a[1..], b[1..]);
    }
  }
}
