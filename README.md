# Canadian Tire Bank to Quicken Simplifi CSV converter, in Dafny

This project models `convert_csv` in `script.py`. The function turns a Canadian
Tire Bank CSV export into a Quicken Simplifi CSV import. The model proves the
function's behaviour against a pure reference definition.

What the converter does, and what the model states:

- It reads the first three records (the preamble) and then one more (the bank's
  header row), and skips all four without looking at them. An input that is too
  short is not an error.
- It always writes the output header `Date, Payee, Amount, Tags` first.
- Every later record with exactly seven fields
  `REF, TRANSACTION DATE, POSTED DATE, TYPE, DESCRIPTION, Category, AMOUNT`
  becomes `[TRANSACTION DATE, DESCRIPTION, amount, Category]`. Records with
  any other field count are skipped silently.
- The amount is read with `float`. It is negated exactly when TYPE is
  `PURCHASE` (case-sensitive). It is printed with two decimals.
- The first AMOUNT that does not read as a number ends the conversion. The
  `ValueError` is caught and reported, and the records already written stay
  written.

Files:

- `wrappers.dfy`: `Option`.
- `amounts.dfy` (module `Amounts`): amounts as a sign bit plus whole cents.
  `Parse` reads the AMOUNT text. `Format` prints it the way `.2f` does. The
  sign bit is kept apart from the magnitude, so a negated zero prints as
  `-0.00`, as Python prints `-0.0`.
- `converter.dfy` (module `Converter`):
  - `ConvertRecord` converts one record.
  - `Transform` is the reference definition of the record loop.
  - `Convert` is the whole conversion.
  - `ConvertCsv` is the converter as the source runs it: a cursor over the
    reader's records skips the first four, then the output header is written.
    `ConvertRecords` is its record loop: the output grows one `writerow` at a
    time and the loop exits early on the first unreadable amount. They are
    proved equal to `Convert` and `Transform`.
  - `Expected` is a second, loop-free description: "the seven-field records
    before the first unreadable amount, each converted, in order".
    `TransformSpec` proves that it agrees with `Transform`.
- `scenarios.dfy` (module `Scenarios`): the inputs of the repository's tests,
  with what the converter as written produces for each.

The reader is a sequence of already-split records (`seq<seq<string>>`). The
writer is the returned sequence of records. A run reports `Completed` or
`AmountError(text)`. `AmountError(text)` stands for the caught `ValueError` and
its message.

## Model

| member | source | states |
|---|---|---|
| `Amounts.Parse` | script.py:40 | An accepted AMOUNT is non-empty and holds only digits, `-` and `.`. The result is negative exactly when the text starts with `-`. `None` is the `ValueError` case. |
| `Amounts.ParseGrammar` | script.py:40 | An AMOUNT is accepted exactly when it is in the grammar `[-] digits [. at most two digits]` with at least one digit. Every other text is refused, which is what ends the run. |
| `Amounts.TwoPointsRefused` | script.py:40 | `1.2.3` and `-1.2.3` are refused, as `float` refuses them. |
| `Amounts.ParseDecimal` | script.py:40 | Every text `digits.digits` (at most two fraction digits, at least one digit in all) is accepted, with its exact value in cents. |
| `Amounts.ParseWhole` | script.py:40 | A text of digits alone is accepted as that many whole units. |
| `Amounts.ParseMinus` | script.py:40 | A leading `-` negates what the rest reads as. It is refused exactly when the rest is refused. |
| `Amounts.Negate` | script.py:46 | Unary minus flips the sign bit and keeps the magnitude, zero included. |
| `Amounts.Numeral` | script.py:48 | The integer part is printed as decimal digits without leading zeros, and those digits denote the number. |
| `Amounts.Format` | script.py:48 | The printed amount is an optional `-` (present exactly when the amount is negative), the whole units as decimal digits without leading zeros, a `.` and two digits. There is no other `.`. Whole units times 100 plus the two digits is the amount's cents. |
| `Amounts.ParseFormat` | script.py:48 | Reading a printed amount back gives the same amount, so the two decimals print the value exactly. |
| `Amounts.FormatInjective` | script.py:48 | Two different amounts never print the same. |
| `Converter.Signed` | script.py:44-46 | The sign changes exactly when TYPE equals `PURCHASE`. The magnitude never changes. |
| `Converter.ConvertRecord` | script.py:38-48 | A seven-field record converts exactly when its AMOUNT reads. The output has four fields: `row[1]`, `row[4]`, the amount and `row[5]`, with date, payee and tags copied verbatim. |
| `Converter.WrittenAmount` | script.py:40-48 | The written amount text reads back as the source amount, negated exactly when TYPE is `PURCHASE`. |
| `Converter.Transform` | script.py:33-48 | The record loop writes at most one record per input record, each with four fields. |
| `Converter.Convert` | script.py:19-53 | The first written record is always the output header. An input of four or fewer records gives the header alone and completes. At most one record is written per input record after the first four. |
| `Converter.SkipsFourRecords` | script.py:23-31 | Whatever the first four records hold, the output is the header followed by what the records after them convert to. |
| `Converter.ConvertCsv` | script.py:19-53 | The step-by-step converter (skip loop, header skip, output header, record loop) writes exactly `Convert(input)` and reports how it ended. |
| `Converter.ConvertRecords` | script.py:33-53 | The record loop, run one record at a time with an early exit on the first unreadable amount, writes exactly what `Transform` says and ends the same way. |
| `Converter.TransformAppend` | script.py:34-53 | Processing `a + b` is processing `a`, then `b` only if `a` completed. This is the streaming behaviour: what is written stays written. |
| `Converter.WrongArityIgnored` | script.py:35-36 | A record without exactly seven fields can be removed from anywhere in the input without changing the output or the outcome. |
| `Converter.StopsAtBadAmount` | script.py:40-53 | At the first seven-field record whose AMOUNT does not read, the output is what came before it, the outcome is `AmountError` with that text, and nothing after it matters. |
| `Converter.Transactions` | script.py:35-36 | The records that pass the arity check, in order. |
| `Converter.FirstBadAmount` | script.py:40 | The position of the first seven-field record whose amount does not read. All seven-field records before it read. |
| `Converter.ConvertAll` | script.py:38-48 | Converting a list of readable transactions gives one output record per transaction, position by position. |
| `Converter.TransformSpec` | script.py:33-53 | The loop writes the seven-field records before the first unreadable amount, each converted, in source order. It ends with `AmountError` on that amount, or completes when there is none. |
| `Scenarios.Purchases` | tests/test_script.py:10-26 | Two purchases of `50.00` and `30.00` are written as `-50.00` and `-30.00`, in order, under the output header. |
| `Scenarios.PaymentKeepsSign` | tests/test_script.py:28-42 | A PAYMENT of `-100.00` is written as `-100.00`. The test expects `100.00`. |
| `Scenarios.CreditKeepsSign` | tests/test_script.py:44-58 | A CREDIT of `-25.00` is written as `-25.00`. The test expects `25.00`. |
| `Scenarios.UnreadableAmountStops` | tests/test_bad_csv.py:11-31 | `NOT_A_NUMBER` ends the run with `AmountError` and only the header written. The following valid purchase is never written. No exception escapes. |
| `Scenarios.MissingHeaderDropsFirstTransaction` | tests/test_bad_csv.py:33-51 | With the bank header missing, the first transaction is skipped in its place. The run completes with only the output header. |
| `Scenarios.PurchaseOfZero` | script.py:44-48 | A PURCHASE of `0.00` is written as `-0.00`. |

## Code and tests disagree

The model follows `script.py`. The repository's tests expect otherwise in these
places. These are open questions about the intended behaviour.

- CREDIT sign: tests/test_script.py:44-58 expects a CREDIT of `-25.00` to be
  written as `25.00`. script.py:45-46 negates only `PURCHASE`, so the code
  writes `-25.00` (`Scenarios.CreditKeepsSign`).
- PAYMENT sign: tests/test_script.py:28-42 expects a PAYMENT of `-100.00` to be
  written as `100.00`. For the same reason, the code writes `-100.00`
  (`Scenarios.PaymentKeepsSign`).
- Raising on bad data: tests/test_script.py:70, tests/test_bad_csv.py:28 and
  tests/test_bad_csv.py:48-49 expect a `ValueError` to escape. For the bad
  amount, script.py:52-53 catches it and prints a message instead
  (`Scenarios.UnreadableAmountStops`). For the missing header, nothing is
  raised at all (`Scenarios.MissingHeaderDropsFirstTransaction`).
- Header validation and logging: tests/test_bad_csv.py:31 and :51 expect logged
  "Invalid amount format" and "Invalid header" messages. The code never checks
  the header and does not log. A missing header makes it skip the first
  transaction (`Scenarios.MissingHeaderDropsFirstTransaction`).

## Left out

- `main` (script.py:59-94): argument counting, file existence checks, opening
  files, choosing stdin/stdout and `sys.exit`. This is I/O.
- CSV tokenising and quoting inside `csv.reader` and `csv.writer`. These are
  library code. Records come in already split, and the output is the sequence
  of records passed to `writerow`.
- The `csv.Error` branch (script.py:50-51) and the broad `except Exception`
  branch (script.py:55-56). In the model nothing but the amount parse can fail,
  because tokenising and writing are not modelled.
- The text printed to stderr. `AmountError(text)` records that the
  `ValueError` happened and which AMOUNT caused it.
- The reader's position after the call. The caller never reads from it again.
- Amounts.Parse: it is narrower than Python's `float`. Text that `float`
  accepts but the grammar `[-] digits [. at most two digits]` does not is
  modelled as a failed read. That covers surrounding whitespace, a leading
  `+`, exponents, `inf`/`nan`, underscores and more than two fractional
  digits, and digits outside ASCII. Floating-point rounding is not modelled.
- Amounts.Format: it prints the exact decimal value. Python rounds the binary
  double nearest to that value. The two agree whenever the amount's magnitude
  is below 2^46 (70368744177664, about 7.0 * 10^13): there a double is within
  2^-8 of the amount, less than half a cent. Above that bound Python's output
  can differ; `99999999999999.9` prints as `99999999999999.91`.
