/** The records of the expense tracker and the two list operations that change
    them: building a new record under the sign rule, and filtering records out
    by id. */
module Transactions {

  datatype Option<T> = None | Some(value: T)

  /** A calendar month numbered as `Date.getMonth` numbers it: 0 is January,
      11 is December. */
  type Month = m: int | 0 <= m < 12

  /** One stored record. `amount` is in cents; `year` and `month` are the
      calendar year and month of the record's creation date. */
  datatype Transaction = Transaction(id: int, amount: int, category: string, year: int, month: Month)

  function Abs(x: int): nat
  {
    if x < 0 then -x else x
  }

  /** The sign rule of the add form: the entered magnitude is negated when the
      selected type is "expense" and kept positive for any other type. */
  function SignedAmount(kind: string, entered: int): (r: int)
    ensures Abs(r) == Abs(entered)
    ensures kind == "expense" ==> r <= 0
    ensures kind != "expense" ==> r >= 0
  {
    var magnitude: int := Abs(entered);
    if kind == "expense" then -magnitude else magnitude
  }

  /** The record the add form creates: the given id, category and date, and
      the entered magnitude signed by the type. */
  function NewTransaction(id: int, kind: string, entered: int, category: string, year: int, month: Month): (t: Transaction)
    ensures t.id == id && t.category == category && t.year == year && t.month == month
    ensures Abs(t.amount) == Abs(entered)
    ensures kind == "expense" ==> t.amount <= 0
    ensures kind != "expense" ==> t.amount >= 0
  {
    Transaction(id, SignedAmount(kind, entered), category, year, month)
  }

  /** Every record whose id differs from `id`, in list order: the result is
      no longer than the list and holds only records of the list that carry
      another id. */
  function Without(ts: seq<Transaction>, id: int): (r: seq<Transaction>)
    ensures |r| <= |ts|
    ensures forall i :: 0 <= i < |r| ==> r[i] in ts && r[i].id != id
  {
    if ts == [] then []
    else
      var last := ts[|ts| - 1];
      Without(ts[..|ts| - 1], id) + (if last.id == id then [] else [last])
  }

  /** Filtering distributes over concatenation, so the records kept stay in
      their original relative order. */
  lemma {:induction false} WithoutAppend(a: seq<Transaction>, b: seq<Transaction>, id: int)
    ensures Without(a + b, id) == Without(a, id) + Without(b, id)
    decreases |b|
  {
    if b == [] {
      assert a + b == a;
    } else {
      var b' := b[..|b| - 1];
      assert (a + b)[..|a + b| - 1] == a + b';
      assert (a + b)[|a + b| - 1] == b[|b| - 1];
      WithoutAppend(a, b', id);
    }
  }

  /** Each record with the removed id disappears entirely; every other record
      keeps exactly its number of occurrences. */
  lemma {:induction false} WithoutCount(ts: seq<Transaction>, id: int, t: Transaction)
    ensures multiset(Without(ts, id))[t] == if t.id == id then 0 else multiset(ts)[t]
  {
    if ts != [] {
      var p := ts[..|ts| - 1];
      assert ts == p + [ts[|ts| - 1]];
      WithoutCount(p, id, t);
    }
  }

  /** After removal no record carries `id`, and every record with another id
      is still present. */
  lemma {:induction false} WithoutMembers(ts: seq<Transaction>, id: int)
    ensures forall t :: t in Without(ts, id) <==> t in ts && t.id != id
  {
    forall t
      ensures t in Without(ts, id) <==> t in ts && t.id != id
    {
      WithoutCount(ts, id, t);
    }
  }

  /** Removing an id that no record carries leaves the list unchanged. */
  lemma {:induction false} WithoutAbsent(ts: seq<Transaction>, id: int)
    requires forall t :: t in ts ==> t.id != id
    ensures Without(ts, id) == ts
  {
    if ts != [] {
      var p, last := ts[..|ts| - 1], ts[|ts| - 1];
      assert ts == p + [last];
      assert last in ts;
      forall t | t in p
        ensures t.id != id
      {
        assert t in ts;
      }
      WithoutAbsent(p, id);
    }
  }
}
