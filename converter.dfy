/**
 * The conversion of a Canadian Tire Bank CSV export into a Quicken Simplifi
 * CSV import (`convert_csv` in script.py).
 *
 * Records are the lists of fields that the CSV reader yields; the output is
 * the list of records handed to the CSV writer. The bank's export starts with
 * three preamble records and a header record, which are skipped unread; every
 * following record with exactly seven fields
 *
 *     REF, TRANSACTION DATE, POSTED DATE, TYPE, DESCRIPTION, Category, AMOUNT
 *
 * becomes one output record `Date, Payee, Amount, Tags`. The first AMOUNT that
 * does not read as a number ends the conversion; what was written stays written.
 */
module Converter {

  import opened Wrappers
  import opened Amounts

  type Record = seq<string>

  /** The record the converter writes before any transaction. */
  const OutputHeader: Record := ["Date", "Payee", "Amount", "Tags"]

  /** Three preamble records and the bank's header record. */
  const SkippedRecords: nat := 4

  /** The field count of a transaction record. */
  const TransactionArity: nat := 7

  /** The transaction type whose amount changes sign. */
  const Purchase: string := "PURCHASE"

  /** How a conversion ended: normally, or on an AMOUNT that did not read as a number. */
  datatype Status = Completed | AmountError(text: string)

  /** The records written and how the conversion ended. */
  datatype Report = Report(rows: seq<Record>, status: Status)

  /** The amount a transaction of type `kind` is written with. */
  function Signed(kind: string, a: Amount): (r: Amount)
    ensures r.cents == a.cents
    ensures r.negative != a.negative <==> kind == Purchase
  {
    if kind == Purchase then Negate(a) else a
  }

  /**
   * One transaction record converted, or `None` when its AMOUNT does not read
   * as a number.
   */
  function ConvertRecord(row: Record): (r: Option<Record>)
    requires |row| == TransactionArity
    ensures r.Some? <==> Parse(row[6]).Some?
    ensures r.Some? ==> |r.value| == 4
    ensures r.Some? ==> r.value[0] == row[1] && r.value[1] == row[4] && r.value[3] == row[5]
  {
    match Parse(row[6])
    case None => None
    case Some(amount) => Some([row[1], row[4], Format(Signed(row[3], amount)), row[5]])
  }

  /**
   * The amount written for a transaction reads back as the source amount,
   * negated exactly when the type is `PURCHASE`.
   */
  lemma WrittenAmount(row: Record)
    requires |row| == TransactionArity && Parse(row[6]).Some?
    ensures Parse(ConvertRecord(row).value[2]) == Some(Signed(row[3], Parse(row[6]).value))
  {
    ParseFormat(Signed(row[3], Parse(row[6]).value));
  }

  lemma RecordConverted(row: Record, amount: Amount)
    requires |row| == TransactionArity && Parse(row[6]) == Some(amount)
    ensures ConvertRecord(row) == Some([row[1], row[4], Format(Signed(row[3], amount)), row[5]])
  {
  }

  /** The records written for the transaction records `records`, in order. */
  function Transform(records: seq<Record>): (r: Report)
    ensures |r.rows| <= |records|
    ensures forall j :: 0 <= j < |r.rows| ==> |r.rows[j]| == 4
  {
    if records == [] then Report([], Completed)
    else if |records[0]| != TransactionArity then Transform(records[1..])
    else match ConvertRecord(records[0])
      case None => Report([], AmountError(records[0][6]))
      case Some(row) =>
        var rest := Transform(records[1..]);
        Report([row] + rest.rows, rest.status)
  }

  /** What the whole export `input` converts to. */
  function Convert(input: seq<Record>): (r: Report)
    ensures 0 < |r.rows| && r.rows[0] == OutputHeader
    ensures |input| <= SkippedRecords ==> r == Report([OutputHeader], Completed)
    ensures |r.rows| <= 1 + if |input| <= SkippedRecords then 0 else |input| - SkippedRecords
  {
    var body := Transform(input[if |input| < SkippedRecords then |input| else SkippedRecords..]);
    Report([OutputHeader] + body.rows, body.status)
  }

  /**
   * The first four records are skipped unread: whatever they hold, the output
   * is the header followed by what the records after them convert to.
   */
  lemma SkipsFourRecords(preamble: seq<Record>, records: seq<Record>)
    requires |preamble| == SkippedRecords
    ensures Convert(preamble + records) ==
      Report([OutputHeader] + Transform(records).rows, Transform(records).status)
  {
    assert (preamble + records)[SkippedRecords..] == records;
  }

  /**
   * The converter as the source runs it: a cursor over the reader's records
   * skips the preamble and the bank header, the output header is written, and
   * the remaining records are converted one at a time.
   */
  method ConvertCsv(input: seq<Record>) returns (written: seq<Record>, status: Status)
    ensures Report(written, status) == Convert(input)
  {
    var pos := 0;
    // the three preamble records; reading past the end yields nothing
    for k := 0 to 3
      invariant pos == if k < |input| then k else |input|
    {
      if pos < |input| {
        pos := pos + 1;
      }
    }
    // the bank's header record
    if pos < |input| {
      pos := pos + 1;
    }
    assert pos == if |input| < SkippedRecords then |input| else SkippedRecords;
    written := [OutputHeader];
    var transactions;
    transactions, status := ConvertRecords(input[pos..]);
    written := written + transactions;
  }

  /**
   * The `for row in reader` loop: each record with seven fields is converted
   * and written, in order, until an AMOUNT does not read.
   */
  method ConvertRecords(records: seq<Record>) returns (written: seq<Record>, status: Status)
    ensures Report(written, status) == Transform(records)
  {
    var pos := 0;
    written := [];
    status := Completed;
    while pos < |records|
      invariant pos <= |records|
      invariant Transform(records) ==
        Report(written + Transform(records[pos..]).rows, Transform(records[pos..]).status)
    {
      var row := records[pos];
      ghost var rest := records[pos + 1..];
      TransformStep(records, pos);
      pos := pos + 1;
      if |row| != TransactionArity {
        continue;
      }
      var amount := Parse(row[6]);
      if amount.None? {
        status := AmountError(row[6]);
        break;
      }
      var signed := Signed(row[3], amount.value);
      var converted := [row[1], row[4], Format(signed), row[5]];
      RecordConverted(row, amount.value);
      Associative(written, [converted], Transform(rest).rows);
      written := written + [converted];
    }
  }

  lemma Drop<T>(s: seq<T>, i: nat)
    requires i < |s|
    ensures s[i..] != [] && s[i..][0] == s[i] && s[i..][1..] == s[i + 1..]
  {
  }

  /** One step of the record loop, at position `i` of `records`. */
  lemma TransformStep(records: seq<Record>, i: nat)
    requires i < |records|
    ensures |records[i]| != TransactionArity ==> Transform(records[i..]) == Transform(records[i + 1..])
    ensures |records[i]| == TransactionArity && Parse(records[i][6]).None? ==>
      Transform(records[i..]) == Report([], AmountError(records[i][6]))
    ensures |records[i]| == TransactionArity && Parse(records[i][6]).Some? ==>
      Transform(records[i..]) ==
        Report([ConvertRecord(records[i]).value] + Transform(records[i + 1..]).rows, Transform(records[i + 1..]).status)
  {
    Drop(records, i);
  }

  lemma Take<T>(s: seq<T>, k: nat)
    requires 0 < k <= |s|
    ensures s[..k] != [] && s[..k][0] == s[0] && s[..k][1..] == s[1..][..k - 1]
  {
  }

  lemma Associative<T>(a: seq<T>, b: seq<T>, c: seq<T>)
    ensures a + (b + c) == (a + b) + c
  {
  }

  /**
   * Converting two record lists one after the other: the second one matters
   * only when the first one completed.
   */
  lemma {:induction false} TransformAppend(a: seq<Record>, b: seq<Record>)
    ensures Transform(a + b) ==
      if Transform(a).status.Completed? then Report(Transform(a).rows + Transform(b).rows, Transform(b).status)
      else Transform(a)
  {
    if a == [] {
      assert a + b == b;
    } else {
      assert (a + b)[0] == a[0];
      assert (a + b)[1..] == a[1..] + b;
      TransformAppend(a[1..], b);
      if |a[0]| == TransactionArity && ConvertRecord(a[0]).Some? {
        var row := ConvertRecord(a[0]).value;
        var t := Transform(a[1..]);
        if t.status.Completed? {
          assert [row] + (t.rows + Transform(b).rows) == ([row] + t.rows) + Transform(b).rows;
        }
      }
    }
  }

  /** A record without exactly seven fields writes nothing and stops nothing. */
  lemma WrongArityIgnored(before: seq<Record>, row: Record, after: seq<Record>)
    requires |row| != TransactionArity
    ensures Transform(before + [row] + after) == Transform(before + after)
  {
    TransformAppend(before, [row] + after);
    TransformAppend(before, after);
    assert before + [row] + after == before + ([row] + after);
    assert ([row] + after)[0] == row;
    assert ([row] + after)[1..] == after;
  }

  /**
   * The first transaction whose AMOUNT does not read ends the conversion: the
   * records written before it stay, nothing after it is looked at.
   */
  lemma StopsAtBadAmount(before: seq<Record>, row: Record, after: seq<Record>)
    requires |row| == TransactionArity && Parse(row[6]).None?
    requires Transform(before).status.Completed?
    ensures Transform(before + [row] + after) == Report(Transform(before).rows, AmountError(row[6]))
  {
    TransformAppend(before, [row] + after);
    assert before + [row] + after == before + ([row] + after);
  }

  /** The records with exactly seven fields, in order. */
  function Transactions(records: seq<Record>): (r: seq<Record>)
    ensures |r| <= |records|
    ensures forall j :: 0 <= j < |r| ==> |r[j]| == TransactionArity
  {
    if records == [] then []
    else if |records[0]| == TransactionArity then [records[0]] + Transactions(records[1..])
    else Transactions(records[1..])
  }

  /**
   * The position of the first record with seven fields whose AMOUNT does not
   * read, or `|records|` when there is none.
   */
  function FirstBadAmount(records: seq<Record>): (k: nat)
    ensures k <= |records|
    ensures forall j :: 0 <= j < k && |records[j]| == TransactionArity ==> Parse(records[j][6]).Some?
    ensures k < |records| ==> |records[k]| == TransactionArity && Parse(records[k][6]).None?
  {
    if records == [] then 0
    else if |records[0]| == TransactionArity && Parse(records[0][6]).None? then 0
    else 1 + FirstBadAmount(records[1..])
  }

  /** Each of `rows`, all transactions with readable amounts, converted. */
  function ConvertAll(rows: seq<Record>): (r: seq<Record>)
    requires forall j :: 0 <= j < |rows| ==> |rows[j]| == TransactionArity && Parse(rows[j][6]).Some?
    ensures |r| == |rows|
    ensures forall j :: 0 <= j < |rows| ==> Some(r[j]) == ConvertRecord(rows[j])
  {
    if rows == [] then [] else [ConvertRecord(rows[0]).value] + ConvertAll(rows[1..])
  }

  lemma {:induction false} TransactionsBeforeBad(records: seq<Record>, k: nat)
    requires k <= |records|
    requires forall j :: 0 <= j < k && |records[j]| == TransactionArity ==> Parse(records[j][6]).Some?
    ensures forall j :: 0 <= j < |Transactions(records[..k])| ==> Parse(Transactions(records[..k])[j][6]).Some?
  {
    if k > 0 {
      Take(records, k);
      TransactionsBeforeBad(records[1..], k - 1);
    }
  }

  /**
   * What the conversion writes, stated without the loop: the seven-field
   * records before the first unreadable amount, each converted, in order; and
   * it ends on that amount if there is one.
   */
  function Expected(records: seq<Record>): Report
  {
    var k := FirstBadAmount(records);
    TransactionsBeforeBad(records, k);
    Report(ConvertAll(Transactions(records[..k])),
           if k == |records| then Completed else AmountError(records[k][6]))
  }

  /** The record-by-record conversion writes and ends as `Expected` says. */
  lemma {:induction false} TransformSpec(records: seq<Record>)
    ensures Transform(records) == Expected(records)
  {
    var k := FirstBadAmount(records);
    TransactionsBeforeBad(records, k);
    if records != [] {
      var rest := records[1..];
      TransformSpec(rest);
      var k' := FirstBadAmount(rest);
      TransactionsBeforeBad(rest, k');
      if |records[0]| == TransactionArity && Parse(records[0][6]).None? {
        assert records[..k] == [];
      } else {
        Take(records, k);
        if |records[0]| == TransactionArity {
          var row := ConvertRecord(records[0]).value;
          var t := Transactions(rest[..k']);
          assert Transactions(records[..k]) == [records[0]] + t;
          assert ([records[0]] + t)[0] == records[0] && ([records[0]] + t)[1..] == t;
          assert ConvertAll([records[0]] + t) == [row] + ConvertAll(t);
        }
      }
    }
  }
}
