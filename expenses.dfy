/** The expense ledger. The rendered list is the only store of records: each
    row keeps the amount text that was in the form when it was submitted, and
    the count and total are recomputed from those texts after every change. */
module Expenses {
  import opened Currency

  /** One list item: the description, the category (its code picks the icon,
      its label is shown) and the amount text copied from the form. */
  datatype Row = Row(description: string, categoryId: string, categoryName: string, amount: string)

  /** What the totals loop reads from a row: `Number` of its amount text after
      commas become full stops and every non-digit is removed. */
  function ParsedAmount(row: Row): Number {
    ParseNumber(StripNonDigits(ReplaceCommas(row.amount)))
  }

  /** The `isNaN` guard of the totals loop never fires: the parsed text is
      empty or all digits, and its value is the cents the amount text spells. */
  lemma ParsedAmountIsFinite(row: Row)
    ensures ParsedAmount(row) == Finite(CentsOf(row.amount))
  {
    StripIgnoresCommas(row.amount);
  }

  /** The cents each row's amount text spells, in display order. */
  function RowCents(rows: seq<Row>): seq<nat> {
    seq(|rows|, i requires 0 <= i < |rows| => CentsOf(rows[i].amount))
  }

  /** The values of a list made of two parts are the values of the first part
      followed by those of the second. */
  lemma RowCentsConcat(a: seq<Row>, b: seq<Row>)
    ensures RowCents(a + b) == RowCents(a) + RowCents(b)
  {
    var ab := a + b;
    assert forall i :: 0 <= i < |ab| ==> ab[i] == if i < |a| then a[i] else b[i - |a|];
  }

  /** The sum of a list of amounts, added from the first to the last. */
  function Sum(xs: seq<nat>): nat {
    if xs == [] then 0 else Sum(xs[..|xs| - 1]) + xs[|xs| - 1]
  }

  lemma {:induction false} SumConcat(a: seq<nat>, b: seq<nat>)
    ensures Sum(a + b) == Sum(a) + Sum(b)
    decreases |b|
  {
    if b == [] {
      assert a + b == a;
    } else {
      var ab := a + b;
      assert ab[..|ab| - 1] == a + b[..|b| - 1];
      SumConcat(a, b[..|b| - 1]);
    }
  }

  /** The sum, in display order, of the cents of every row; a row whose amount
      text has no digit adds 0. */
  function TotalCents(rows: seq<Row>): nat {
    Sum(RowCents(rows))
  }

  /** Removing the row at `i` lowers the total by exactly that row's cents;
      the total of a longer list is the total of its parts. */
  lemma TotalRemove(rows: seq<Row>, i: nat)
    requires i < |rows|
    ensures TotalCents(rows[..i] + rows[i + 1..]) + CentsOf(rows[i].amount) == TotalCents(rows)
  {
    var cs := RowCents(rows);
    RowCentsConcat(rows[..i], rows[i + 1..]);
    assert RowCents(rows[..i]) == cs[..i] && RowCents(rows[i + 1..]) == cs[i + 1..];
    assert cs == cs[..i] + [cs[i]] + cs[i + 1..];
    SumConcat(cs[..i], cs[i + 1..]);
    SumConcat(cs[..i], [cs[i]]);
    SumConcat(cs[..i] + [cs[i]], cs[i + 1..]);
    assert Sum([cs[i]]) == cs[i] by {
      assert [cs[i]][..0] == [];
    }
  }

  /** Appending a row raises the total by that row's cents; a row with an
      empty amount leaves it as it was. */
  lemma TotalAppend(rows: seq<Row>, row: Row)
    ensures TotalCents(rows + [row]) == TotalCents(rows) + CentsOf(row.amount)
    ensures row.amount == "" ==> TotalCents(rows + [row]) == TotalCents(rows)
  {
    RowCentsConcat(rows, [row]);
    var cs := RowCents(rows + [row]);
    assert cs[..|rows|] == RowCents(rows);
  }

  /** The text is what the amount field's input handler leaves behind. */
  predicate IsNormalized(s: string) {
    Normalize(s) == s
  }

  predicate RowsNormalized(rows: seq<Row>) {
    forall i :: 0 <= i < |rows| ==> IsNormalized(rows[i].amount)
  }

  /** Removing a row or appending a normalised one keeps every row normalised. */
  lemma RowsNormalizedKept(rows: seq<Row>, i: nat, row: Row)
    requires RowsNormalized(rows)
    ensures i < |rows| ==> RowsNormalized(rows[..i] + rows[i + 1..])
    ensures IsNormalized(row.amount) ==> RowsNormalized(rows + [row])
  {
    if i < |rows| {
      var rest := rows[..i] + rows[i + 1..];
      assert forall j :: 0 <= j < |rest| ==> rest[j] == rows[if j < i then j else j + 1];
    }
  }

  /** When every row holds the normalised text of what was typed for it, the
      total is the sum of the typed values: formatting and re-reading lose
      nothing. */
  lemma TotalOfNormalizedRows(rows: seq<Row>, typed: seq<string>)
    requires |typed| == |rows|
    requires forall i :: 0 <= i < |rows| ==> rows[i].amount == Normalize(typed[i])
    ensures TotalCents(rows) == Sum(seq(|typed|, i requires 0 <= i < |typed| => CentsOf(typed[i])))
  {
    var cs := RowCents(rows);
    forall i | 0 <= i < |rows|
      ensures cs[i] == CentsOf(typed[i])
    {
      NormalizeKeepsCents(typed[i]);
    }
    assert cs == seq(|typed|, i requires 0 <= i < |typed| => CentsOf(typed[i]));
  }

  /** The page: the three form fields, the rendered rows and the two summary
      texts. */
  class ExpenseTracker {
    var description: string  // the `expense` text field
    var category: string     // the `category` select's value
    var amount: string       // the `amount` field
    var rows: seq<Row>       // the children of the `ul`, in display order
    var countLabel: string   // the count text in the summary header
    var totalText: string    // the total in the summary header

    /** The summary shows the count and the formatted total of the rows. */
    ghost predicate TotalsShown()
      reads this
    {
      countLabel == CountLabel(|rows|) && totalText == FormatBRL(TotalCents(rows))
    }

    /** The amount field and every row's amount hold what the input handler
        writes: an empty text or a formatted amount. */
    ghost predicate AmountsNormalized()
      reads this
    {
      IsNormalized(amount) && RowsNormalized(rows)
    }

    /** The page as loaded: an empty form, and whatever list items and summary
        text the page markup holds. */
    constructor (initialRows: seq<Row>, initialCount: string, initialTotal: string)
      ensures description == "" && category == "" && amount == ""
      ensures rows == initialRows
      ensures countLabel == initialCount && totalText == initialTotal
      ensures RowsNormalized(initialRows) ==> AmountsNormalized()
    {
      description, category, amount := "", "", "";
      rows := initialRows;
      countLabel, totalText := initialCount, initialTotal;
    }

    /** The amount field's `input` handler. */
    method OnAmountInput()
      modifies this`amount
      ensures amount == Normalize(old(amount))
      ensures IsNormalized(amount)
    {
      NormalizeKeepsCents(amount);
      var value := ParseNumber(StripNonDigits(amount));
      if value.Finite? && value.value != 0 {
        amount := FormatBRL(value.value);
      } else {
        amount := "";
      }
    }

    /** `addNewExpense`: one row, at the end; the rows before it are kept. */
    method AddNewExpense(expense: Row)
      modifies this`rows
      ensures rows == old(rows) + [expense]
    {
      rows := rows + [expense];
    }

    /** `updateTotals`: writes the count label, then sums the rows' amounts
        in display order and writes the formatted sum. */
    method UpdateTotals()
      modifies this`countLabel, this`totalText
      ensures TotalsShown()
    {
      countLabel := CountLabel(|rows|);
      var expensesValue: nat := 0;
      var i := 0;
      while i < |rows|
        invariant i <= |rows|
        invariant countLabel == CountLabel(|rows|)
        invariant expensesValue == TotalCents(rows[..i])
      {
        var spanValue := ParsedAmount(rows[i]);
        ParsedAmountIsFinite(rows[i]);
        if spanValue.NaN? {
          assert false;
          return;
        }
        expensesValue := expensesValue + spanValue.value;
        assert rows[..i + 1] == rows[..i] + [rows[i]];
        TotalAppend(rows[..i], rows[i]);
        i := i + 1;
      }
      assert rows[..i] == rows;
      totalText := FormatBRL(expensesValue);
    }

    /** `deleteExpense`: the clicked row goes, the others keep their order,
        and the summary is recomputed. */
    method DeleteExpense(i: nat)
      requires i < |rows|
      modifies this`rows, this`countLabel, this`totalText
      ensures rows == old(rows[..i]) + old(rows[i + 1..])
      ensures TotalsShown()
      ensures old(AmountsNormalized()) ==> AmountsNormalized()
    {
      if AmountsNormalized() {
        RowsNormalizedKept(rows, i, rows[i]);
      }
      rows := rows[..i] + rows[i + 1..];
      UpdateTotals();
    }

    /** `clearInputs`: the three form fields are emptied; the list and the
        summary are not touched. */
    method ClearInputs()
      modifies this`description, this`category, this`amount
      ensures description == "" && category == "" && amount == ""
    {
      description := "";
      category := "";
      amount := "";
    }

    /** The form's submit handler: the record built from the form is appended,
        the summary recomputed and the form cleared. `categoryName` is the
        label of the selected option. */
    method Submit(categoryName: string)
      modifies this
      ensures rows == old(rows) + [Row(old(description), old(category), categoryName, old(amount))]
      ensures TotalsShown()
      ensures description == "" && category == "" && amount == ""
      ensures old(AmountsNormalized()) ==> AmountsNormalized()
    {
      if AmountsNormalized() {
        RowsNormalizedKept(rows, 0, Row(description, category, categoryName, amount));
      }
      AddNewExpense(Row(description, category, categoryName, amount));
      UpdateTotals();
      ClearInputs();
    }
  }

  /** Three rows holding the formatted amounts `a`, `b` and `c` total
      `a + b + c`; deleting the second leaves two rows totalling `a + c`. */
  lemma TotalAfterDelete(rows: seq<Row>, a: nat, b: nat, c: nat)
    requires |rows| == 3
    requires rows[0].amount == FormatBRL(a) && rows[1].amount == FormatBRL(b)
    requires rows[2].amount == FormatBRL(c)
    ensures TotalCents(rows) == a + b + c
    ensures var rest := rows[..1] + rows[2..];
            |rest| == 2 && rest == [rows[0], rows[2]] && TotalCents(rest) == a + c
  {
    FormatRoundTrip(a);
    FormatRoundTrip(b);
    FormatRoundTrip(c);
    TotalOfThree(rows);
    TotalRemove(rows, 1);
  }

  lemma TotalOfThree(rows: seq<Row>)
    requires |rows| == 3
    ensures TotalCents(rows) == CentsOf(rows[0].amount) + CentsOf(rows[1].amount) + CentsOf(rows[2].amount)
  {
    TotalAppend([], rows[0]);
    TotalAppend(rows[..1], rows[1]);
    TotalAppend(rows[..2], rows[2]);
    assert [] + [rows[0]] == rows[..1] && rows[..1] + [rows[1]] == rows[..2];
    assert rows[..2] + [rows[2]] == rows;
  }

  /** Three rows holding the formatted amounts of 1000, 550 and 225 cents
      total 1775 cents; deleting the second leaves two rows, shown as
      "2 despesas" and "R$ 12,25". */
  lemma SummaryExample(rows: seq<Row>)
    requires |rows| == 3
    requires rows[0].amount == FormatBRL(1000) && rows[1].amount == FormatBRL(550)
    requires rows[2].amount == FormatBRL(225)
    ensures TotalCents(rows) == 1775
    ensures var rest := rows[..1] + rows[2..];
            |rest| == 2 && TotalCents(rest) == 1225 &&
            CountLabel(|rest|) == "2 despesas" && FormatBRL(TotalCents(rest)) == "R$ 12,25"
  {
    TotalAfterDelete(rows, 1000, 550, 225);
    FormatExample();
  }

  /** The summary texts for two rows totalling 1225 cents. */
  lemma FormatExample()
    ensures CountLabel(2) == "2 despesas" && FormatBRL(1225) == "R$ 12,25"
  {
    assert NatToDigits(2) == "2";
    var whole := GroupThousands(12);
    assert whole == "12" by {
      assert NatToDigits(1) == "1";
      assert NatToDigits(12) == "12";
    }
    var frac := PadDigits(25, 2);
    assert frac == "25" by {
      assert PadDigits(2, 1) == "2";
    }
    assert 1225 / 100 == 12 && 1225 % 100 == 25;
    assert FormatBRL(1225) == "R$ " + whole + "," + frac;
  }

  /** What the header shows once the last row is deleted: "0 despesa" and
      "R$ 0,00". */
  lemma EmptySummary()
    ensures TotalCents([]) == 0
    ensures CountLabel(0) == "0 despesa" && FormatBRL(0) == "R$ 0,00"
  {
    assert NatToDigits(0) == "0";
    var frac := PadDigits(0, 2);
    assert frac == "00" by {
      assert PadDigits(0, 1) == "0";
    }
    assert FormatBRL(0) == "R$ " + "0" + "," + frac;
  }
}
