# Refund — expense tracker core in Dafny

The program is a one-page expense tracker (`scripts.js`). The user types a
description, picks a category and types an amount. The amount field is
reformatted on every keystroke. Submitting the form appends a row to the
expense list. Each row has a remove icon. A summary header shows the number of
rows and the total of their amounts.

The list on the page is the only store of records. Each row keeps the amount
*text* that was in the form, and the total is recomputed from those texts by
stripping non-digits and reading what is left as cents. The model makes that
dependency explicit and proves the fact it rests on: stripping the non-digits
of a formatted amount gives back its cents.

Two modules:

- `Currency` (`currency.dfy`) holds the pure parts as functions and lemmas:
  - digit stripping (`replace(/\D+/g, "")`);
  - `Number` of the stripped text;
  - the comma-to-full-stop rewrite;
  - a specified Brazilian-real formatter standing in for `toLocaleString`;
  - the amount field's input handler (`Normalize`);
  - the count label.
- `Expenses` (`expenses.dfy`) holds the ledger. `Row` is one list item. The
  class `ExpenseTracker` holds the three form fields, the rows in display
  order and the two summary texts. Its methods are the input handler, the
  submit handler, `addNewExpense`, `updateTotals` (the summing loop),
  `deleteExpense` and `clearInputs`.

Amounts are a `nat` number of cents. The source divides by 100 and hands a
float to the formatter; the model formats the integer cents directly.
`FormatBRL(c)` is `"R$ "`, then the integer part `c / 100` grouped in threes
with `.`, then `,` and exactly two cent digits.

With no rows the label is `"0 despesa"`: the plural is chosen by
`length > 1`, so zero takes the singular (`Currency.CountLabelWord`).

## Model

| member | source | states |
|---|---|---|
| Currency.StripNonDigits | scripts.js:25 | the result of removing every non-digit has only digits |
| Currency.StripConcat | scripts.js:25 | stripping distributes over concatenation, so only the digits, in order, survive |
| Currency.StripOfDigits | scripts.js:25 | an all-digit text is kept unchanged; a text with no digit becomes empty |
| Currency.ReplaceCommas | scripts.js:126 | `split(",").join(".")` keeps the length and turns exactly the commas into full stops |
| Currency.StripIgnoresCommas | scripts.js:126-127 | rewriting commas before stripping gives the same digits as stripping alone |
| Currency.DigitsConcat | scripts.js:25 | the value of a numeral made of two parts is the high part shifted by the low part's length plus the low part |
| Currency.DigitsBound | scripts.js:25 | the value of a k-digit numeral is below 10^k |
| Currency.NatToDigits | scripts.js:120 | the decimal numeral of n has no leading zero and reads back as n |
| Currency.PadDigits | scripts.js:41-46 | the zero-padded fixed-width numeral of n has exactly that width and reads back as n |
| Currency.GroupThousandsDigits | scripts.js:41-46 | the grouped integer part, with its `.` separators stripped, reads back as the integer |
| Currency.GroupThousandsShape | scripts.js:41-46 | the integer part is well grouped: a leading group of 1 to 3 digits, then groups of exactly 3 digits each after a `.`; it has no leading zero, and zero is the single digit "0" |
| Currency.FormatShape | scripts.js:41-46 | the formatted amount is `"R$ "`, the well-grouped value of cents / 100 without a leading zero (just "0" below one real), `,`, and two digits spelling cents % 100 |
| Currency.FormatRoundTrip | scripts.js:126-127 | stripping the non-digits of the formatted amount of c and reading what is left gives c back, for every c |
| Currency.NormalizeClearsZero | scripts.js:22-33 | the input handler empties the field exactly when the digits of the field spell 0, the empty digit string included |
| Currency.NormalizeFormats | scripts.js:25-30 | when the digits spell a non-zero n, the input handler writes the formatted amount of n cents |
| Currency.NormalizeKeepsCents | scripts.js:22-34 | the field after the handler spells the same cents as before, and running the handler again changes nothing |
| Currency.TypeDigit | scripts.js:22-34 | typing one digit after the handled text multiplies its cents by ten and adds the digit |
| Currency.TypeDigitsShowsValue | scripts.js:22-34 | typing d1…dk one key at a time, with the handler after each, shows the value d1…dk cents, the same text as handling the whole numeral at once |
| Currency.Backspace | scripts.js:22-34 | deleting the last character of a non-empty handled amount leaves one tenth of its cents, rounded down |
| Currency.CountLabelWord | scripts.js:120-122 | the label ends in " despesas" when the count exceeds 1 and in " despesa" otherwise (it ends in "despesas" exactly when the count exceeds 1); 0 gives "0 despesa" and 1 gives "1 despesa" |
| Currency.CountLabelNumber | scripts.js:120-122 | the digits of the label spell the count |
| Expenses.ParsedAmountIsFinite | scripts.js:126-131 | what the totals loop parses from a row is never `NaN`, and equals the cents of the row's amount text |
| Expenses.RowCentsConcat | scripts.js:124-127 | the values read from a list made of two parts are the values of the first part followed by those of the second |
| Expenses.SumConcat | scripts.js:133 | the running sum of two lists one after the other is the sum of their sums |
| Expenses.TotalAppend | scripts.js:118-137 | appending a row raises the total by that row's cents; a row with an empty amount adds nothing |
| Expenses.TotalRemove | scripts.js:150-153 | removing the row at i lowers the total by exactly that row's cents |
| Expenses.RowsNormalizedKept | scripts.js:101-102 | removing a row, or appending one whose amount came from the handler, keeps every row's amount a handled text |
| Expenses.TotalOfNormalizedRows | scripts.js:118-137 | when every row holds the handled text of what was typed for it, the total is the sum of the typed values |
| Expenses.TotalAfterDelete | scripts.js:150-153 | three rows holding the formatted amounts a, b and c total a + b + c; deleting the second leaves the first and third, totalling a + c |
| Expenses.SummaryExample | scripts.js:118-137 | three rows holding the formatted amounts of 1000, 550 and 225 cents total 1775 cents; after deleting the second, two rows totalling 1225 cents remain, shown as "2 despesas" and "R$ 12,25" |
| Expenses.FormatExample | scripts.js:120-137 | two rows totalling 1225 cents are summarised as "2 despesas" and "R$ 12,25" |
| Expenses.EmptySummary | scripts.js:120-137 | an empty list totals 0 and is summarised as "0 despesa" and "R$ 0,00" |
| Expenses.ExpenseTracker.constructor | scripts.js:1-5 | the page starts with an empty form, and with the list items and summary text of the markup; when those items hold handled amounts, so does the whole page |
| Expenses.ExpenseTracker.OnAmountInput | scripts.js:22-34 | the amount field becomes the handler's output for its old text, and is something the handler would leave unchanged |
| Expenses.ExpenseTracker.AddNewExpense | scripts.js:70-102 | exactly one row is added, at the end, and the earlier rows are kept |
| Expenses.ExpenseTracker.UpdateTotals | scripts.js:113-142 | the loop sums the rows' cents in display order; afterwards the count text is the label of the row count and the total text is the formatted sum |
| Expenses.ExpenseTracker.DeleteExpense | scripts.js:149-153 | exactly the targeted row is removed, the others keep their order, the summary is recomputed, and handled amounts stay handled |
| Expenses.ExpenseTracker.ClearInputs | scripts.js:160-164 | the description, category and amount fields become empty; nothing else changes |
| Expenses.ExpenseTracker.Submit | scripts.js:48-65 | the record built from the form is appended, the summary matches the new rows, the form is cleared, and handled amounts stay handled |

## Left out

- DOM construction: the category icon's `src` and `alt`, CSS classes, the remove icon, and the `<small>R$</small>` child that `innerText` overwrites at once. A row is modelled as its four texts (scripts.js:72-101).
- Event wiring, `lastFocusedElement` and `setFocus` (scripts.js:10-20, scripts.js:154, scripts.js:165-170). These are browser focus handling.
- The locale tables of `toLocaleString("pt-BR", …)`. `FormatBRL` is a specified formatter of its own, with an ASCII space after "R$" where the browser writes a non-breaking space. The space is stripped with the other non-digits, so the totals are unaffected. No claim of locale exactness is made.
- Floating-point `value / 100`, and `Number` losing precision above 2^53 or becoming `Infinity` on huge digit strings (scripts.js:25, scripts.js:28, scripts.js:127, scripts.js:136). Cents are unbounded naturals.
- `Number` on arbitrary text. `ParseNumber` returns `NaN` for any text that is neither empty nor all digits. The program only calls `Number` on stripped text, where this agrees with JavaScript.
- `try`/`catch` with `console.log` and `alert` (scripts.js:103-106, scripts.js:138-141). I/O is not modelled.
- The `Date`-based `id` and `created_at` (scripts.js:52, scripts.js:59). These are clock reads and are never used afterwards.
- Reading `innerText` back. Each row's amount text is assumed to read back as what was written, without the overwritten `<small>` child.
- The caret position in the amount field. "Typing" appends the key at the end of the field (`Currency.TypeKeys`).
- The category option label (`category.options[category.selectedIndex].text`). It is a parameter of `Submit`, since the option list lives in the page markup.
- The page's initial list items and summary text. They come from the HTML and are constructor parameters; the summary is only consistent with the rows after the first `updateTotals`.
- Expenses.ExpenseTracker.DeleteExpense: takes the index of the clicked row instead of the DOM event whose target's parent is the row.
