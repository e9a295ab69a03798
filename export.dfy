/** The CSV export: a fixed header line, then one line per record in list
    order, each line ending in a newline. */
module Export {
  import opened Transactions

  const Header: string := "Date,Type,Amount,Category,Description"

  /** The Type column. */
  function TypeLabel(amount: int): (r: string)
    ensures r == "Income" <==> amount >= 0
    ensures r == "Income" || r == "Expense"
  {
    if amount >= 0 then "Income" else "Expense"
  }

  function DigitChar(d: nat): char
    requires d < 10
  {
    "0123456789"[d]
  }

  function DigitValue(c: char): int
  {
    c as int - '0' as int
  }

  /** The decimal digits of `n`, without leading zeros. */
  function NatText(n: nat): (r: string)
    ensures |r| > 0
    ensures forall i :: 0 <= i < |r| ==> '0' <= r[i] <= '9'
    ensures r[0] == '0' <==> n == 0
  {
    if n < 10 then [DigitChar(n)] else NatText(n / 10) + [DigitChar(n % 10)]
  }

  /** The value of a string of decimal digits. */
  function DigitsValue(s: string): int
  {
    if s == [] then 0 else DigitsValue(s[..|s| - 1]) * 10 + DigitValue(s[|s| - 1])
  }

  /** The fractional part of an amount as a number prints it: nothing for
      whole amounts, otherwise a point and the digits without trailing zero. */
  function FractionText(f: nat): string
    requires f < 100
  {
    if f == 0 then "" else if f % 10 == 0 then "." + [DigitChar(f / 10)]
    else "." + [DigitChar(f / 10), DigitChar(f % 10)]
  }

  /** The Amount column: the amount in currency units as a number prints it,
      with a leading minus for an expense and at most two decimals. */
  function AmountText(cents: int): (r: string)
    ensures forall i :: 0 <= i < |r| ==> r[i] == '-' || r[i] == '.' || '0' <= r[i] <= '9'
    ensures |r| > 0 && (r[0] == '-' <==> cents < 0)
    ensures '.' in r <==> cents % 100 != 0
    ensures '.' in r ==> |r| >= 3 && r[|r| - 1] != '0' && (r[|r| - 2] == '.' || r[|r| - 3] == '.')
  {
    var magnitude := Abs(cents);
    (if cents < 0 then "-" else "") + NatText(magnitude / 100) + FractionText(magnitude % 100)
  }

  /** Splits `s` at every `sep`; the pieces never contain `sep`. */
  function Split(s: string, sep: char): (r: seq<string>)
    ensures |r| >= 1
    ensures forall i :: 0 <= i < |r| ==> sep !in r[i]
  {
    if s == [] then [""]
    else
      var rest := Split(s[1..], sep);
      if s[0] == sep then [""] + rest else [[s[0]] + rest[0]] + rest[1..]
  }

  function FractionValue(f: string): int
  {
    if |f| == 0 then 0
    else if |f| == 1 then DigitValue(f[0]) * 10
    else DigitValue(f[0]) * 10 + DigitValue(f[1])
  }

  /** Reads an Amount column back into cents. */
  function ParseAmount(s: string): int
  {
    if |s| > 0 && s[0] == '-' then -ParseUnsigned(s[1..]) else ParseUnsigned(s)
  }

  /** Reads whole units and an optional fraction after a point. */
  function ParseUnsigned(s: string): int
  {
    var parts := Split(s, '.');
    DigitsValue(parts[0]) * 100 + (if |parts| > 1 then FractionValue(parts[1]) else 0)
  }

  /** One record's line. The Date column is the record's id rendered by the
      browser's locale date format, given here as `formatDate`; the
      Description column is always empty because records carry no text. */
  function Row(t: Transaction, formatDate: int -> string): string
  {
    Join(Columns(t, formatDate), ',')
  }

  /** The five columns of a record's line. */
  function Columns(t: Transaction, formatDate: int -> string): seq<string>
  {
    [formatDate(t.id), TypeLabel(t.amount), AmountText(t.amount), t.category, ""]
  }

  /** The pieces with `sep` between each two. */
  function Join(pieces: seq<string>, sep: char): string
    requires |pieces| >= 1
  {
    if |pieces| == 1 then pieces[0] else pieces[0] + [sep] + Join(pieces[1..], sep)
  }

  /** The lines of the export: the header, then one per record in order. */
  function CsvLines(ts: seq<Transaction>, formatDate: int -> string): seq<string>
  {
    [Header] + seq(|ts|, i requires 0 <= i < |ts| => Row(ts[i], formatDate))
  }

  /** Each line followed by a newline. */
  function JoinLines(lines: seq<string>): string
  {
    if lines == [] then "" else lines[0] + "\n" + JoinLines(lines[1..])
  }

  function CsvText(ts: seq<Transaction>, formatDate: int -> string): string
  {
    JoinLines(CsvLines(ts, formatDate))
  }

  /** The export loop: the header line, then one line appended per record. */
  method ExportCsv(ts: seq<Transaction>, formatDate: int -> string) returns (csv: string)
    ensures csv == CsvText(ts, formatDate)
  {
    csv := Header + "\n";
    assert csv == JoinLines(CsvLines(ts[..0], formatDate));
    var i := 0;
    while i < |ts|
      invariant 0 <= i <= |ts|
      invariant csv == JoinLines(CsvLines(ts[..i], formatDate))
    {
      var t := ts[i];
      csv := csv + Row(t, formatDate) + "\n";
      assert CsvLines(ts[..i + 1], formatDate) == CsvLines(ts[..i], formatDate) + [Row(t, formatDate)];
      JoinLinesSnoc(CsvLines(ts[..i], formatDate), Row(t, formatDate));
      i := i + 1;
    }
    assert ts[..i] == ts;
  }

  lemma {:induction false} JoinLinesSnoc(lines: seq<string>, x: string)
    ensures JoinLines(lines + [x]) == JoinLines(lines) + x + "\n"
  {
    if lines != [] {
      assert (lines + [x])[1..] == lines[1..] + [x];
      JoinLinesSnoc(lines[1..], x);
    }
  }

  lemma {:induction false} SplitNone(a: string, sep: char)
    requires sep !in a
    ensures Split(a, sep) == [a]
  {
    if a != [] {
      assert a[0] in a && a == [a[0]] + a[1..];
      SplitNone(a[1..], sep);
    }
  }

  /** A piece free of the separator, then the separator, splits off as one
      piece. */
  lemma {:induction false} SplitAfter(a: string, b: string, sep: char)
    requires sep !in a
    ensures Split(a + [sep] + b, sep) == [a] + Split(b, sep)
  {
    if a == [] {
      assert (a + [sep] + b)[1..] == b;
    } else {
      assert (a + [sep] + b)[1..] == a[1..] + [sep] + b;
      SplitAfter(a[1..], b, sep);
      assert [a[0]] + a[1..] == a;
    }
  }

  /** Lines without newlines come back one by one from the joined text, with
      an empty piece after the final newline. */
  lemma {:induction false} SplitJoinLines(lines: seq<string>)
    requires forall i :: 0 <= i < |lines| ==> '\n' !in lines[i]
    ensures Split(JoinLines(lines), '\n') == lines + [""]
  {
    if lines != [] {
      SplitJoinLines(lines[1..]);
      SplitAfter(lines[0], JoinLines(lines[1..]), '\n');
      assert lines[0] + "\n" + JoinLines(lines[1..]) == lines[0] + ['\n'] + JoinLines(lines[1..]);
      assert [lines[0]] + lines[1..] == lines;
    }
  }

  lemma {:induction false} DigitsRoundTrip(n: nat)
    ensures DigitsValue(NatText(n)) == n
  {
    if n >= 10 {
      DigitsRoundTrip(n / 10);
      var s := NatText(n / 10) + [DigitChar(n % 10)];
      assert s[..|s| - 1] == NatText(n / 10);
    }
  }

  lemma DigitRoundTrip(d: nat)
    requires d < 10
    ensures DigitValue(DigitChar(d)) == d
  {
  }

  /** An unsigned amount reads back as the cents it was printed from. */
  lemma UnsignedRoundTrip(magnitude: nat)
    ensures ParseUnsigned(NatText(magnitude / 100) + FractionText(magnitude % 100)) == magnitude
  {
    var whole, f := NatText(magnitude / 100), magnitude % 100;
    var frac := FractionText(f);
    assert '.' !in whole by {
      forall i | 0 <= i < |whole| ensures whole[i] != '.' { }
    }
    DigitsRoundTrip(magnitude / 100);
    if f == 0 {
      SplitNone(whole, '.');
      assert whole + frac == whole;
    } else {
      var digits := frac[1..];
      assert whole + frac == whole + ['.'] + digits;
      DigitRoundTrip(f / 10);
      if f % 10 != 0 {
        DigitRoundTrip(f % 10);
      }
      SplitAfter(whole, digits, '.');
      SplitNone(digits, '.');
    }
  }

  /** The Amount column reads back as the amount it was printed from. */
  lemma AmountRoundTrip(cents: int)
    ensures ParseAmount(AmountText(cents)) == cents
  {
    var magnitude := Abs(cents);
    var unsigned := NatText(magnitude / 100) + FractionText(magnitude % 100);
    var s := AmountText(cents);
    UnsignedRoundTrip(magnitude);
    assert unsigned[0] != '-';
    if cents < 0 {
      assert s == ['-'] + unsigned;
      assert s[1..] == unsigned;
    } else {
      assert s == unsigned;
    }
  }

  /** The Type and Amount columns never contain a comma or a newline. */
  lemma PlainColumns(amount: int)
    ensures ',' !in TypeLabel(amount) && '\n' !in TypeLabel(amount)
    ensures ',' !in AmountText(amount) && '\n' !in AmountText(amount)
  {
  }

  /** Pieces free of the separator come back from their join one by one. */
  lemma {:induction false} SplitJoin(pieces: seq<string>, sep: char)
    requires |pieces| >= 1
    requires forall i :: 0 <= i < |pieces| ==> sep !in pieces[i]
    ensures Split(Join(pieces, sep), sep) == pieces
  {
    if |pieces| == 1 {
      SplitNone(pieces[0], sep);
    } else {
      SplitJoin(pieces[1..], sep);
      SplitAfter(pieces[0], Join(pieces[1..], sep), sep);
      assert [pieces[0]] + pieces[1..] == pieces;
    }
  }

  /** Dates and categories that contain neither a comma nor a newline. */
  predicate PlainText(ts: seq<Transaction>, formatDate: int -> string)
  {
    forall t :: t in ts ==>
      ',' !in formatDate(t.id) && '\n' !in formatDate(t.id) && ',' !in t.category && '\n' !in t.category
  }

  /** The export splits at its newlines into the header, one line per record
      in list order, and an empty piece after the last newline. */
  lemma ExportLines(ts: seq<Transaction>, formatDate: int -> string)
    requires PlainText(ts, formatDate)
    ensures Split(CsvText(ts, formatDate), '\n') == CsvLines(ts, formatDate) + [""]
  {
    var lines := CsvLines(ts, formatDate);
    forall j | 0 <= j < |lines|
      ensures '\n' !in lines[j]
    {
      if j > 0 {
        var t := ts[j - 1];
        assert t in ts;
        RowReadBack(t, formatDate);
        assert lines[j] == Row(t, formatDate);
      }
    }
    SplitJoinLines(lines);
  }

  /** A record's line has no newline and splits at its commas into its date
      text, its direction ("Income" exactly when the amount is zero or more),
      its amount, its category and an empty description. */
  lemma RowReadBack(t: Transaction, formatDate: int -> string)
    requires ',' !in formatDate(t.id) && '\n' !in formatDate(t.id)
    requires ',' !in t.category && '\n' !in t.category
    ensures '\n' !in Row(t, formatDate)
    ensures var fields := Split(Row(t, formatDate), ',');
      |fields| == 5 &&
      fields[0] == formatDate(t.id) &&
      (fields[1] == "Income" <==> t.amount >= 0) &&
      ParseAmount(fields[2]) == t.amount &&
      fields[3] == t.category &&
      fields[4] == ""
  {
    var columns := Columns(t, formatDate);
    PlainColumns(t.amount);
    SplitJoin(columns, ',');
    AmountRoundTrip(t.amount);
    NoNewlineInJoin(columns, ',');
  }

  lemma {:induction false} NoNewlineInJoin(pieces: seq<string>, sep: char)
    requires |pieces| >= 1 && sep != '\n'
    requires forall i :: 0 <= i < |pieces| ==> '\n' !in pieces[i]
    ensures '\n' !in Join(pieces, sep)
  {
    if |pieces| > 1 {
      NoNewlineInJoin(pieces[1..], sep);
    }
  }

  /** The export reads back record by record: line `i + 1` gives back the
      columns of the `i`-th record. */
  lemma ExportReadBack(ts: seq<Transaction>, formatDate: int -> string, i: int)
    requires PlainText(ts, formatDate)
    requires 0 <= i < |ts|
    ensures var lines := Split(CsvText(ts, formatDate), '\n');
      |lines| == |ts| + 2 && lines[0] == Header && lines[|ts| + 1] == "" &&
      var fields := Split(lines[i + 1], ',');
      |fields| == 5 &&
      fields[0] == formatDate(ts[i].id) &&
      (fields[1] == "Income" <==> ts[i].amount >= 0) &&
      ParseAmount(fields[2]) == ts[i].amount &&
      fields[3] == ts[i].category &&
      fields[4] == ""
  {
    ExportLines(ts, formatDate);
    assert ts[i] in ts;
    RowReadBack(ts[i], formatDate);
    assert CsvLines(ts, formatDate)[i + 1] == Row(ts[i], formatDate);
  }
}
