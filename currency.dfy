/** The currency value model of the expense tracker: the amount field keeps a
    digit stream that is read as a whole number of cents and redrawn in
    Brazilian Real notation, and the ledger reads those strings back. */
module Currency {

  /** The two outcomes of JavaScript's `Number(text)` that matter here. */
  datatype Number = NaN | Finite(value: nat)

  predicate IsDigit(c: char) {
    '0' <= c <= '9'
  }

  predicate AllDigits(s: string) {
    forall i :: 0 <= i < |s| ==> IsDigit(s[i])
  }

  function DigitValue(c: char): (d: nat)
    requires IsDigit(c)
    ensures d < 10
  {
    (c as int - '0' as int) as nat
  }

  function DigitChar(d: nat): (c: char)
    requires d < 10
    ensures IsDigit(c) && DigitValue(c) == d
  {
    ('0' as int + d) as char
  }

  function Pow10(k: nat): nat {
    if k == 0 then 1 else 10 * Pow10(k - 1)
  }

  // ---------------------------------------------------------------------
  // Removing the non-digits: `text.replace(/\D+/g, "")`

  /** The digits of `s`, in their order. StripConcat and StripOfDigits
      together pin the function down: it distributes over concatenation,
      keeps a digit and drops any other character. */
  function StripNonDigits(s: string): (r: string)
    ensures AllDigits(r)
  {
    if s == [] then []
    else StripNonDigits(s[..|s| - 1]) + (if IsDigit(s[|s| - 1]) then [s[|s| - 1]] else [])
  }

  lemma {:induction false} StripConcat(a: string, b: string)
    ensures StripNonDigits(a + b) == StripNonDigits(a) + StripNonDigits(b)
    decreases |b|
  {
    if b == [] {
      assert a + b == a;
    } else {
      var b' := b[..|b| - 1];
      assert (a + b)[..|a + b| - 1] == a + b';
      assert (a + b)[|a + b| - 1] == b[|b| - 1];
      StripConcat(a, b');
    }
  }

  /** A text made of digits only is left as it is; one without any digit
      is emptied. */
  lemma {:induction false} StripOfDigits(s: string)
    ensures AllDigits(s) ==> StripNonDigits(s) == s
    ensures (forall i :: 0 <= i < |s| ==> !IsDigit(s[i])) ==> StripNonDigits(s) == []
    decreases |s|
  {
    if s != [] {
      StripOfDigits(s[..|s| - 1]);
      assert s == s[..|s| - 1] + [s[|s| - 1]];
    }
  }

  /** A separator between two pieces of text drops out of their digits. */
  lemma StripAfterSeparator(high: string, sep: char, low: string)
    requires !IsDigit(sep)
    ensures StripNonDigits(high + [sep] + low) == StripNonDigits(high) + StripNonDigits(low)
  {
    var h := high + [sep];
    assert h[..|h| - 1] == high;
    StripConcat(h, low);
  }

  /** `text.split(",").join(".")`: every comma becomes a full stop. */
  function ReplaceCommas(s: string): (r: string)
    ensures |r| == |s|
    ensures forall i :: 0 <= i < |s| ==> r[i] == if s[i] == ',' then '.' else s[i]
  {
    if s == [] then []
    else ReplaceCommas(s[..|s| - 1]) + [if s[|s| - 1] == ',' then '.' else s[|s| - 1]]
  }

  /** Turning commas into full stops does not change the digits of a text. */
  lemma {:induction false} StripIgnoresCommas(s: string)
    ensures StripNonDigits(ReplaceCommas(s)) == StripNonDigits(s)
    decreases |s|
  {
    if s != [] {
      var t := ReplaceCommas(s);
      assert t[..|t| - 1] == ReplaceCommas(s[..|s| - 1]);
      StripIgnoresCommas(s[..|s| - 1]);
    }
  }

  // ---------------------------------------------------------------------
  // Reading digits as an integer: `Number(digits)`

  /** A digit string read as a decimal integer, leading zeros included
      (`Number("007")` is 7, `Number("")` is 0). */
  function DigitsToNat(ds: string): nat
    requires AllDigits(ds)
  {
    if ds == [] then 0
    else 10 * DigitsToNat(ds[..|ds| - 1]) + DigitValue(ds[|ds| - 1])
  }

  /** A string of k digits stands for less than ten to the k. */
  lemma {:induction false} DigitsBound(ds: string)
    requires AllDigits(ds)
    ensures DigitsToNat(ds) < Pow10(|ds|)
    decreases |ds|
  {
    if ds != [] {
      DigitsBound(ds[..|ds| - 1]);
    }
  }

  lemma {:induction false} DigitsConcat(a: string, b: string)
    requires AllDigits(a) && AllDigits(b)
    ensures AllDigits(a + b)
    ensures DigitsToNat(a + b) == DigitsToNat(a) * Pow10(|b|) + DigitsToNat(b)
    decreases |b|
  {
    if b == [] {
      assert a + b == a;
    } else {
      var b', last := b[..|b| - 1], b[|b| - 1];
      assert AllDigits(b');
      DigitsConcat(a, b');
      var ab := a + b;
      assert ab[..|ab| - 1] == a + b';
      assert ab[|ab| - 1] == last;
      var x, y, p, d := DigitsToNat(a), DigitsToNat(b'), Pow10(|b'|), DigitValue(last);
      assert DigitsToNat(ab) == 10 * (x * p + y) + d;
      assert DigitsToNat(b) == 10 * y + d;
      assert Pow10(|b|) == 10 * p;
      MulShift(x, p);
    }
  }

  lemma MulShift(x: nat, p: nat)
    ensures 10 * (x * p) == x * (10 * p)
  {
  }

  /** JavaScript's `Number(text)` on the strings this program gives it: an
      empty or all-digit string is a finite value, anything else is NaN. */
  function ParseNumber(s: string): Number {
    if AllDigits(s) then Finite(DigitsToNat(s)) else NaN
  }

  /** The number of cents the text of an amount field or an amount cell
      stands for: its digits read as one integer. */
  function CentsOf(s: string): nat {
    DigitsToNat(StripNonDigits(s))
  }

  // ---------------------------------------------------------------------
  // Writing integers as digits

  /** The decimal numeral of `n`, without leading zeros (what `${n}` gives). */
  function NatToDigits(n: nat): (r: string)
    ensures |r| >= 1 && AllDigits(r)
    ensures |r| > 1 ==> r[0] != '0'
    ensures DigitsToNat(r) == n
  {
    if n < 10 then [DigitChar(n)]
    else
      var r := NatToDigits(n / 10) + [DigitChar(n % 10)];
      assert r[..|r| - 1] == NatToDigits(n / 10);
      r
  }

  /** The `width` low-order digits of `n`, zero-padded on the left. */
  function PadDigits(n: nat, width: nat): (r: string)
    requires n < Pow10(width)
    ensures |r| == width && AllDigits(r)
    ensures DigitsToNat(r) == n
  {
    if width == 0 then []
    else
      var r := PadDigits(n / 10, width - 1) + [DigitChar(n % 10)];
      assert r[..|r| - 1] == PadDigits(n / 10, width - 1);
      r
  }

  /** A numeral with no leading zero is at least ten to the power of its
      length minus one. */
  lemma {:induction false} NumeralLowerBound(r: string)
    requires |r| >= 1 && AllDigits(r) && r[0] != '0'
    ensures DigitsToNat(r) >= Pow10(|r| - 1)
    decreases |r|
  {
    if |r| > 1 {
      var pre := r[..|r| - 1];
      assert pre[0] == r[0];
      NumeralLowerBound(pre);
    } else {
      assert r[..0] == [];
    }
  }

  lemma {:induction false} PowGrows(j: nat, k: nat)
    requires j <= k
    ensures Pow10(j) <= Pow10(k)
    decreases k
  {
    if j < k {
      PowGrows(j, k - 1);
    }
  }

  // ---------------------------------------------------------------------
  // `formatCurrencyBRL`

  /** The integer part of a pt-BR amount: digits in groups of three, the
      groups separated by '.'. */
  function GroupThousands(n: nat): string {
    if n < 1000 then NatToDigits(n)
    else GroupThousands(n / 1000) + "." + PadDigits(n % 1000, 3)
  }

  /** The digits of the grouped integer part read back as the integer. */
  lemma {:induction false} GroupThousandsDigits(n: nat)
    ensures CentsOf(GroupThousands(n)) == n
    decreases n
  {
    if n < 1000 {
      StripOfDigits(NatToDigits(n));
    } else {
      assert Pow10(3) == 1000;
      var high, low := GroupThousands(n / 1000), PadDigits(n % 1000, 3);
      GroupThousandsDigits(n / 1000);
      StripAfterSeparator(high, '.', low);
      StripOfDigits(low);
      DigitsConcat(StripNonDigits(high), low);
    }
  }

  /** The shape of a pt-BR integer part: digits and full stops, opening with
      a group of one to three digits, every full stop followed by exactly
      three digits and then the next full stop or the end. */
  predicate WellGrouped(r: string) {
    |r| >= 1 && IsDigit(r[0]) &&
    (forall i :: 0 <= i < |r| ==> IsDigit(r[i]) || r[i] == '.') &&
    (|r| >= 4 ==> r[1] == '.' || r[2] == '.' || r[3] == '.') &&
    (forall i :: 0 <= i < |r| && r[i] == '.' ==>
       i + 3 < |r| && IsDigit(r[i + 1]) && IsDigit(r[i + 2]) && IsDigit(r[i + 3]) &&
       (i + 4 == |r| || r[i + 4] == '.'))
  }

  /** The grouped integer part is well grouped and, unless it is 0, does not
      start with a zero; zero is the single digit "0". */
  lemma {:induction false} GroupThousandsShape(n: nat)
    ensures WellGrouped(GroupThousands(n))
    ensures n > 0 ==> GroupThousands(n)[0] != '0'
    ensures n == 0 ==> GroupThousands(n) == "0"
    decreases n
  {
    if n < 1000 {
      assert NatToDigits(0) == "0";
      var r := NatToDigits(n);
      assert Pow10(3) == 1000;
      assert |r| <= 3 by {
        if |r| > 3 {
          PowGrows(3, |r| - 1);
          NumeralLowerBound(r);
        }
      }
    } else {
      GroupThousandsShape(n / 1000);
      GroupStep(GroupThousands(n / 1000), PadDigits(n % 1000, 3));
    }
  }

  /** Appending a full stop and a group of three digits keeps the shape and
      the first digit. */
  lemma GroupStep(high: string, low: string)
    requires WellGrouped(high) && |low| == 3 && AllDigits(low)
    ensures WellGrouped(high + "." + low) && (high + "." + low)[0] == high[0]
  {
    var r := high + "." + low;
    assert forall i :: 0 <= i < |high| ==> r[i] == high[i];
    assert r[|high|] == '.';
    assert forall i :: 0 <= i < 3 ==> r[|high| + 1 + i] == low[i];
  }

  /** `formatCurrencyBRL(cents / 100)`: the symbol, a space, the grouped
      integer part, a decimal comma and exactly two cent digits. */
  function FormatBRL(cents: nat): (r: string)
    ensures |r| >= 7
  {
    assert Pow10(2) == 100;
    "R$ " + GroupThousands(cents / 100) + "," + PadDigits(cents % 100, 2)
  }

  /** The formatted amount opens with the currency symbol and a space, then
      the whole reais grouped in thousands, then a decimal comma and the two
      digits of the cents below one real. */
  lemma FormatShape(cents: nat)
    ensures var r := FormatBRL(cents);
            r[..3] == "R$ " && r[|r| - 3] == ',' &&
            WellGrouped(r[3..|r| - 3]) && CentsOf(r[3..|r| - 3]) == cents / 100 &&
            (cents / 100 > 0 ==> r[3] != '0') && (cents / 100 == 0 ==> r[3..|r| - 3] == "0") &&
            AllDigits(r[|r| - 2..]) && DigitsToNat(r[|r| - 2..]) == cents % 100
  {
    assert Pow10(2) == 100;
    var whole, frac := GroupThousands(cents / 100), PadDigits(cents % 100, 2);
    GroupThousandsShape(cents / 100);
    GroupThousandsDigits(cents / 100);
    PiecesAt("R$ ", whole, frac);
  }

  lemma PiecesAt(symbol: string, whole: string, frac: string)
    ensures var r := symbol + whole + "," + frac;
            r[..|symbol|] == symbol && r[|symbol|..|r| - |frac| - 1] == whole &&
            r[|r| - |frac| - 1] == ',' && r[|r| - |frac|..] == frac
  {
    var r := symbol + whole + "," + frac;
    assert r == symbol + (whole + "," + frac);
    assert r == (symbol + whole + ",") + frac;
    assert r == symbol + whole + ("," + frac);
  }

  /** The digits of `symbol + whole + "," + frac`, for a symbol without
      digits and an all-digit `frac`. */
  lemma StripPieces(symbol: string, whole: string, frac: string)
    requires forall i :: 0 <= i < |symbol| ==> !IsDigit(symbol[i])
    requires AllDigits(frac)
    ensures StripNonDigits(symbol + whole + "," + frac) == StripNonDigits(whole) + frac
  {
    var head := symbol + whole;
    assert symbol + whole + "," + frac == head + [','] + frac;
    StripAfterSeparator(head, ',', frac);
    StripConcat(symbol, whole);
    StripOfDigits(symbol);
    assert StripNonDigits(symbol) == [];
    StripOfDigits(frac);
    assert StripNonDigits(head) == StripNonDigits(whole);
  }

  /** Round trip: stripping the non-digits from the formatted amount and
      reading the digits back gives the cents that were formatted. */
  lemma FormatRoundTrip(cents: nat)
    ensures CentsOf(FormatBRL(cents)) == cents
  {
    assert Pow10(2) == 100;
    var whole, frac := GroupThousands(cents / 100), PadDigits(cents % 100, 2);
    StripPieces("R$ ", whole, frac);
    GroupThousandsDigits(cents / 100);
    DigitsConcat(StripNonDigits(whole), frac);
  }

  // ---------------------------------------------------------------------
  // The amount field's `input` handler

  /** The field keeps its digits, read as cents; zero (or no digit at all)
      clears it, anything else is redrawn as a formatted amount. */
  function Normalize(field: string): string {
    match ParseNumber(StripNonDigits(field))
    case Finite(value) => if value != 0 then FormatBRL(value) else ""
    case NaN => ""
  }

  lemma NormalizeClearsZero(field: string)
    ensures Normalize(field) == "" <==> CentsOf(field) == 0
  {
  }

  lemma NormalizeFormats(field: string)
    ensures CentsOf(field) != 0 ==> Normalize(field) == FormatBRL(CentsOf(field))
  {
  }

  /** Normalising never changes the cents a field stands for, so redrawing an
      already normalised field leaves it as it is. */
  lemma NormalizeKeepsCents(field: string)
    ensures CentsOf(Normalize(field)) == CentsOf(field)
    ensures Normalize(Normalize(field)) == Normalize(field)
  {
    if CentsOf(field) != 0 {
      FormatRoundTrip(CentsOf(field));
    }
  }

  /** Typing one digit at the end of the normalised field multiplies its value
      by ten and adds the digit: earlier digits shift one place left. */
  lemma TypeDigit(field: string, d: char)
    requires IsDigit(d)
    ensures CentsOf(Normalize(field) + [d]) == 10 * CentsOf(field) + DigitValue(d)
  {
    var shown := Normalize(field);
    NormalizeKeepsCents(field);
    var ds := StripNonDigits(shown + [d]);
    assert (shown + [d])[..|shown + [d]| - 1] == shown;
    assert ds == StripNonDigits(shown) + [d];
    assert ds[..|ds| - 1] == StripNonDigits(shown);
  }

  /** The field after typing the keys `ks` one after another at its end, the
      input handler running after each one. */
  function TypeKeys(field: string, ks: string): string
  {
    if ks == [] then field
    else Normalize(TypeKeys(field, ks[..|ks| - 1]) + [ks[|ks| - 1]])
  }

  /** The input handler looks only at the cents a text stands for. */
  lemma NormalizeByCents(x: string, y: string)
    requires CentsOf(x) == CentsOf(y)
    ensures Normalize(x) == Normalize(y)
  {
  }

  /** Typing the digits d1..dk into an empty field shows d1..dk read as cents:
      the same text as normalising the digit string in one go. */
  lemma {:induction false} TypeDigitsShowsValue(ds: string)
    requires AllDigits(ds)
    ensures CentsOf(TypeKeys("", ds)) == DigitsToNat(ds)
    ensures TypeKeys("", ds) == Normalize(ds)
  {
    StripOfDigits(ds);
    NormalizeKeepsCents(ds);
    if ds != [] {
      var pre, d := ds[..|ds| - 1], ds[|ds| - 1];
      assert AllDigits(pre);
      TypeDigitsShowsValue(pre);
      StripOfDigits(pre);
      TypeDigit(pre, d);
      assert TypeKeys("", ds) == Normalize(Normalize(pre) + [d]);
      NormalizeByCents(Normalize(pre) + [d], ds);
    }
  }

  /** Deleting the last character of a non-empty normalised field drops the
      last cent digit. */
  lemma Backspace(field: string)
    requires Normalize(field) != ""
    ensures var shown := Normalize(field);
            CentsOf(shown[..|shown| - 1]) == CentsOf(field) / 10
  {
    var shown := Normalize(field);
    NormalizeKeepsCents(field);
    assert shown == FormatBRL(CentsOf(field));
    assert IsDigit(shown[|shown| - 1]) by {
      FormatShape(CentsOf(field));
      assert shown[|shown| - 1] == shown[|shown| - 2..][1];
    }
    var ds := StripNonDigits(shown);
    assert ds == StripNonDigits(shown[..|shown| - 1]) + [shown[|shown| - 1]];
    assert ds[..|ds| - 1] == StripNonDigits(shown[..|shown| - 1]);
  }

  // ---------------------------------------------------------------------
  // The count text of `updateTotals`

  /** The number of records, a space, and "despesas" when there are more than
      one, "despesa" otherwise (zero included). */
  function CountLabel(n: nat): string {
    NatToDigits(n) + " " + (if n > 1 then "despesas" else "despesa")
  }

  /** The label ends in " despesas" for more than one record and in
      " despesa" otherwise; in particular 0 and 1 take the singular. */
  lemma CountLabelWord(n: nat)
    ensures |CountLabel(n)| >= 9
    ensures CountLabel(n)[|CountLabel(n)| - 8..] == "despesas" <==> n > 1
    ensures n > 1 ==> CountLabel(n)[|CountLabel(n)| - 9..] == " despesas"
    ensures n <= 1 ==> CountLabel(n)[|CountLabel(n)| - 8..] == " despesa"
    ensures CountLabel(0) == "0 despesa" && CountLabel(1) == "1 despesa"
  {
    var digits := NatToDigits(n);
    var tail := if n > 1 then " despesas" else " despesa";
    assert CountLabel(n) == digits + tail;
    SuffixOf(digits, tail);
    if n > 1 {
      SuffixOf(digits + " ", "despesas");
      assert digits + tail == (digits + " ") + "despesas";
    } else {
      assert " despesa" != "despesas";
    }
    SmallLabels();
  }

  /** The end of `p + q` is `q`. */
  lemma SuffixOf(p: string, q: string)
    ensures (p + q)[|p + q| - |q|..] == q
  {
  }

  lemma SmallLabels()
    ensures CountLabel(0) == "0 despesa" && CountLabel(1) == "1 despesa"
  {
    assert NatToDigits(0) == "0" && NatToDigits(1) == "1";
  }

  /** The digits of the count text read back as the record count. */
  lemma CountLabelNumber(n: nat)
    ensures CentsOf(CountLabel(n)) == n
  {
    var word := if n > 1 then "despesas" else "despesa";
    StripConcat(NatToDigits(n), " " + word);
    assert CountLabel(n) == NatToDigits(n) + (" " + word);
    StripOfDigits(" " + word);
    StripOfDigits(NatToDigits(n));
    assert NatToDigits(n) + [] == NatToDigits(n);
  }
}
