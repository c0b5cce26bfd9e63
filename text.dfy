/**
  Decimal text and comma-terminated rows: what `operator<<` on an unsigned
  integer writes, and the shape of the CSV rows the filters stream, where
  every field is followed by ",".
*/
module Text {

  predicate IsDigit(c: char) {
    '0' <= c <= '9'
  }

  function DigitChar(d: nat): (c: char)
    requires d < 10
    ensures IsDigit(c)
  {
    (('0' as int) + d) as char
  }

  function DigitValue(c: char): nat {
    if IsDigit(c) then c as int - '0' as int else 0
  }

  /** The decimal representation of `n`, without sign or leading zeros. */
  function Decimal(n: nat): (s: string)
    ensures |s| >= 1
    ensures forall i :: 0 <= i < |s| ==> IsDigit(s[i])
    ensures |s| > 1 ==> s[0] != '0'
    decreases n
  {
    if n < 10 then [DigitChar(n)] else Decimal(n / 10) + [DigitChar(n % 10)]
  }

  /** The number a string of digits denotes (the empty string denotes 0). */
  function ParseDecimal(s: string): nat
    decreases |s|
  {
    if s == [] then 0 else 10 * ParseDecimal(s[..|s| - 1]) + DigitValue(s[|s| - 1])
  }

  lemma {:induction false} DecimalRoundTrip(n: nat)
    ensures ParseDecimal(Decimal(n)) == n
    decreases n
  {
    var s := Decimal(n);
    if n >= 10 {
      DecimalRoundTrip(n / 10);
      assert s[..|s| - 1] == Decimal(n / 10);
    }
  }

  /** Each field in decimal, each followed by ",". */
  function CsvRow(fields: seq<nat>): (row: string)
    ensures row == [] <==> fields == []
    ensures fields != [] ==> row[|row| - 1] == ','
    ensures forall i :: 0 <= i < |row| ==> IsDigit(row[i]) || row[i] == ','
    decreases |fields|
  {
    if fields == [] then "" else Decimal(fields[0]) + "," + CsvRow(fields[1..])
  }

  /** The position of the first ',' in `s`, or |s| when there is none. */
  function FirstComma(s: string): (i: nat)
    ensures i <= |s|
    ensures forall j :: 0 <= j < i ==> s[j] != ','
    ensures i < |s| ==> s[i] == ','
    decreases |s|
  {
    if s == [] then 0 else if s[0] == ',' then 0 else 1 + FirstComma(s[1..])
  }

  /** Reads a row back: the numbers between the commas. */
  function ParseRow(s: string): seq<nat>
    decreases |s|
  {
    if s == [] then []
    else
      var i := FirstComma(s);
      [ParseDecimal(s[..i])] + (if i == |s| then [] else ParseRow(s[i + 1..]))
  }

  lemma FirstCommaAfterDigits(d: string, rest: string)
    requires forall i :: 0 <= i < |d| ==> IsDigit(d[i])
    ensures FirstComma(d + "," + rest) == |d|
  {
    var s := d + "," + rest;
    assert s[|d|] == ',';
    assert forall j :: 0 <= j < |d| ==> s[j] == d[j];
  }

  /** A row reads back as the fields it was written from. */
  lemma {:induction false} CsvRowRoundTrip(fields: seq<nat>)
    ensures ParseRow(CsvRow(fields)) == fields
    decreases |fields|
  {
    if fields != [] {
      var d := Decimal(fields[0]);
      var rest := CsvRow(fields[1..]);
      var s := CsvRow(fields);
      assert s == d + "," + rest;
      FirstCommaAfterDigits(d, rest);
      assert s[..|d|] == d;
      assert s[|d| + 1..] == rest;
      DecimalRoundTrip(fields[0]);
      CsvRowRoundTrip(fields[1..]);
      if rest == [] {
        assert fields[1..] == [];
      }
    }
  }

  /** The text of a report, one CSV row per table row; every row reads back as the fields it came from. */
  function Render(table: seq<seq<nat>>): (rows: seq<string>)
    ensures |rows| == |table|
    ensures forall i :: 0 <= i < |table| ==> rows[i] == CsvRow(table[i])
    ensures forall i :: 0 <= i < |table| ==> ParseRow(rows[i]) == table[i]
  {
    if table == [] then []
    else
      CsvRowRoundTrip(table[0]);
      [CsvRow(table[0])] + Render(table[1..])
  }
}
