/**
 * The inputs of the repository's own test suite, run through the model of the
 * converter. Where a test expects something else, the lemma states what the
 * converter as written produces.
 */
module Scenarios {

  import opened Wrappers
  import opened Amounts
  import opened Converter

  const AccountLine: Record := ["MY ACCOUNT TRANSACTIONS"]
  const SummaryHeader: Record := ["Start Date", "End Date", "Current Balance", "Available Credit"]
  const SummaryValues: Record := ["2024-01-01", "2024-01-31", "1000.00", "5000.00"]
  const BankHeader: Record := ["REF", "TRANSACTION DATE", "POSTED DATE", "TYPE", "DESCRIPTION", "Category", "AMOUNT"]

  /** The three preamble records and the bank header, as every test starts. */
  const Preamble: seq<Record> := [AccountLine, SummaryHeader, SummaryValues, BankHeader]

  lemma ConvertsOne(preamble: seq<Record>, r: Record, c: Record)
    requires |preamble| == SkippedRecords
    requires |r| == TransactionArity && ConvertRecord(r) == Some(c)
    ensures Convert(preamble + [r]) == Report([OutputHeader, c], Completed)
  {
    SkipsFourRecords(preamble, [r]);
    assert [r][0] == r && [r][1..] == [];
    assert [c] + [] == [c];
    assert [OutputHeader] + [c] == [OutputHeader, c];
  }

  lemma ConvertsTwo(preamble: seq<Record>, r1: Record, r2: Record, c1: Record, c2: Record)
    requires |preamble| == SkippedRecords
    requires |r1| == TransactionArity && ConvertRecord(r1) == Some(c1)
    requires |r2| == TransactionArity && ConvertRecord(r2) == Some(c2)
    ensures Convert(preamble + [r1, r2]) == Report([OutputHeader, c1, c2], Completed)
  {
    SkipsFourRecords(preamble, [r1, r2]);
    assert [r2][0] == r2 && [r2][1..] == [];
    assert [c2] + [] == [c2];
    assert Transform([r2]) == Report([c2], Completed);
    assert [r1, r2][0] == r1 && [r1, r2][1..] == [r2];
    assert [c1] + [c2] == [c1, c2];
    assert [OutputHeader] + [c1, c2] == [OutputHeader, c1, c2];
  }

  lemma StopsOnFirst(preamble: seq<Record>, records: seq<Record>)
    requires |preamble| == SkippedRecords
    requires records != [] && |records[0]| == TransactionArity && Parse(records[0][6]).None?
    ensures Convert(preamble + records) == Report([OutputHeader], AmountError(records[0][6]))
  {
    SkipsFourRecords(preamble, records);
    assert [OutputHeader] + [] == [OutputHeader];
  }

  lemma ReadFifty()
    ensures Parse("50.00") == Some(Amount(false, 5000))
  {
    assert Numeral(50) == "50";
    assert Format(Amount(false, 5000)) == "50.00";
    ParseFormat(Amount(false, 5000));
  }

  lemma PrintFifty()
    ensures Format(Amount(true, 5000)) == "-50.00"
  {
    assert Numeral(50) == "50";
  }

  lemma ReadThirty()
    ensures Parse("30.00") == Some(Amount(false, 3000))
  {
    assert Numeral(30) == "30";
    assert Format(Amount(false, 3000)) == "30.00";
    ParseFormat(Amount(false, 3000));
  }

  lemma PrintThirty()
    ensures Format(Amount(true, 3000)) == "-30.00"
  {
    assert Numeral(30) == "30";
  }

  /** Two purchases are written negated, in order. */
  lemma Purchases()
    ensures Convert(Preamble + [
      ["#123", "2024-01-15", "2024-01-16", "PURCHASE", "GROCERY STORE", "Groceries", "50.00"],
      ["#124", "2024-01-20", "2024-01-21", "PURCHASE", "GAS STATION", "Gas", "30.00"]])
      == Report([OutputHeader,
                 ["2024-01-15", "GROCERY STORE", "-50.00", "Groceries"],
                 ["2024-01-20", "GAS STATION", "-30.00", "Gas"]], Completed)
  {
    var r1 := ["#123", "2024-01-15", "2024-01-16", "PURCHASE", "GROCERY STORE", "Groceries", "50.00"];
    var r2 := ["#124", "2024-01-20", "2024-01-21", "PURCHASE", "GAS STATION", "Gas", "30.00"];
    ReadFifty();
    PrintFifty();
    RecordConverted(r1, Amount(false, 5000));
    ReadThirty();
    PrintThirty();
    RecordConverted(r2, Amount(false, 3000));
    ConvertsTwo(Preamble, r1, r2, ["2024-01-15", "GROCERY STORE", "-50.00", "Groceries"],
      ["2024-01-20", "GAS STATION", "-30.00", "Gas"]);
  }

  lemma ReadHundredOwed()
    ensures Parse("-100.00") == Some(Amount(true, 10000))
    ensures Format(Amount(true, 10000)) == "-100.00"
  {
    assert Numeral(100) == "100";
    assert Format(Amount(true, 10000)) == "-100.00";
    ParseFormat(Amount(true, 10000));
  }

  /**
   * A payment keeps the sign the bank gave it, since only purchases change
   * sign; test_script.py expects `100.00` here.
   */
  lemma PaymentKeepsSign()
    ensures Convert(Preamble + [
      ["#125", "2024-01-25", "2024-01-26", "PAYMENT", "CREDIT CARD PAYMENT", "", "-100.00"]])
      == Report([OutputHeader, ["2024-01-25", "CREDIT CARD PAYMENT", "-100.00", ""]], Completed)
  {
    var r := ["#125", "2024-01-25", "2024-01-26", "PAYMENT", "CREDIT CARD PAYMENT", "", "-100.00"];
    ReadHundredOwed();
    assert r[3][1] != Purchase[1];
    RecordConverted(r, Amount(true, 10000));
    ConvertsOne(Preamble, r, ["2024-01-25", "CREDIT CARD PAYMENT", "-100.00", ""]);
  }

  lemma ReadRefund()
    ensures Parse("-25.00") == Some(Amount(true, 2500))
    ensures Format(Amount(true, 2500)) == "-25.00"
  {
    assert Numeral(25) == "25";
    assert Format(Amount(true, 2500)) == "-25.00";
    ParseFormat(Amount(true, 2500));
  }

  /**
   * A credit keeps the sign the bank gave it, since only purchases change
   * sign; test_script.py expects `25.00` here.
   */
  lemma CreditKeepsSign()
    ensures Convert(Preamble + [
      ["#126", "2024-01-30", "2024-01-31", "CREDIT", "RETURN REFUND", "Shopping", "-25.00"]])
      == Report([OutputHeader, ["2024-01-30", "RETURN REFUND", "-25.00", "Shopping"]], Completed)
  {
    var r := ["#126", "2024-01-30", "2024-01-31", "CREDIT", "RETURN REFUND", "Shopping", "-25.00"];
    ReadRefund();
    assert r[3][0] != Purchase[0];
    RecordConverted(r, Amount(true, 2500));
    ConvertsOne(Preamble, r, ["2024-01-30", "RETURN REFUND", "-25.00", "Shopping"]);
  }

  lemma NotANumber()
    ensures Parse("NOT_A_NUMBER").None?
  {
    var s := "NOT_A_NUMBER";
    assert !IsDigit(s[0]) && s[0] != '-' && s[0] != '.';
  }

  /**
   * An unreadable amount ends the conversion without an exception escaping:
   * the output is the header alone, and the purchase after it is never
   * written. test_bad_csv.py and test_script.py expect a `ValueError`.
   */
  lemma UnreadableAmountStops()
    ensures Convert(Preamble + [
      ["#123", "2024-01-15", "2024-01-16", "PURCHASE", "GROCERY STORE", "Groceries", "NOT_A_NUMBER"],
      ["#124", "2024-01-20", "2024-01-21", "PURCHASE", "GAS STATION", "Gas", "30.00"]])
      == Report([OutputHeader], AmountError("NOT_A_NUMBER"))
  {
    var r1 := ["#123", "2024-01-15", "2024-01-16", "PURCHASE", "GROCERY STORE", "Groceries", "NOT_A_NUMBER"];
    var r2 := ["#124", "2024-01-20", "2024-01-21", "PURCHASE", "GAS STATION", "Gas", "30.00"];
    NotANumber();
    StopsOnFirst(Preamble, [r1, r2]);
  }

  /**
   * Without the bank's header record, the first transaction is taken for the
   * header and skipped: nothing is written after the output header and no
   * error is reported. test_bad_csv.py expects an "Invalid header" error.
   */
  lemma MissingHeaderDropsFirstTransaction()
    ensures Convert([AccountLine, SummaryHeader, SummaryValues,
      ["#123", "2024-01-15", "2024-01-16", "PURCHASE", "GROCERY STORE", "Groceries", "50.00"]])
      == Report([OutputHeader], Completed)
  {
  }

  /**
   * A purchase of zero is written as `-0.00`: negating a zero keeps its sign,
   * as Python's float negation does.
   */
  lemma PurchaseOfZero(row: Record)
    requires |row| == TransactionArity && row[3] == Purchase && row[6] == "0.00"
    ensures ConvertRecord(row) == Some([row[1], row[4], "-0.00", row[5]])
  {
    assert Numeral(0) == "0";
    assert Format(Amount(false, 0)) == "0.00";
    ParseFormat(Amount(false, 0));
    assert Format(Amount(true, 0)) == "-0.00";
    RecordConverted(row, Amount(false, 0));
  }
}
