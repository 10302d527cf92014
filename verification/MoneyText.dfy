/**
 The printed field read back: to the number, and to the text of the amount.
 */
module MoneyText {
  import opened Money

  // Digits of a text, in order
  function OnlyDigits(s: string): (r: string)
    ensures AllDigits(r)
  {
    if s == [] then [] else OnlyDigits(s[..|s| - 1]) + if IsDigit(s[|s| - 1]) then [s[|s| - 1]] else []
  }

  // Reads a printed field: parentheses mean a negative number
  function Decode(field: string): int
    requires field != []
  {
    if field[0] == '(' then 0 - Value(OnlyDigits(field)) else Value(OnlyDigits(field))
  }

  // The text without blanks and commas
  function Strip(s: string): string {
    if s == [] then [] else Strip(s[..|s| - 1]) + if s[|s| - 1] == ' ' || s[|s| - 1] == ',' then [] else [s[|s| - 1]]
  }

  lemma StripLast(s: string, c: char)
    ensures Strip(s + [c]) == Strip(s) + if c == ' ' || c == ',' then [] else [c]
    ensures OnlyDigits(s + [c]) == OnlyDigits(s) + if IsDigit(c) then [c] else []
  {
    assert (s + [c])[..|s|] == s;
  }

  // What stands between digit k and the digit to its left
  function Separator(n: nat, k: nat): string {
    if k == 7 then [CommaAt(n, 8)] else if k == 4 then [CommaAt(n, 5)] else if k == 1 then "." else ""
  }

  // The field from its left end to digit k
  function Row(n: nat, k: nat): string
    decreases 9 - k
  {
    if k >= 9 then [] else Row(n, k + 1) + Separator(n, k) + [DigitAt(n, k)]
  }

  lemma RowHigh(n: nat)
    ensures Row(n, 5) == [DigitAt(n, 8), CommaAt(n, 8), DigitAt(n, 7), DigitAt(n, 6), DigitAt(n, 5)]
  {
    hide DigitAt, CommaAt;
    assert Row(n, 9) == [];
    assert Row(n, 7) == [DigitAt(n, 8), CommaAt(n, 8), DigitAt(n, 7)];
  }

  lemma RowMiddle(n: nat)
    ensures Row(n, 2) == Row(n, 5) + [CommaAt(n, 5), DigitAt(n, 4), DigitAt(n, 3), DigitAt(n, 2)]
  {
    hide DigitAt, CommaAt;
    assert Row(n, 4) == Row(n, 5) + [CommaAt(n, 5), DigitAt(n, 4)];
    assert Row(n, 3) == Row(n, 4) + [DigitAt(n, 3)];
    assert Row(n, 2) == Row(n, 3) + [DigitAt(n, 2)];
  }

  lemma RowLow(n: nat)
    ensures Row(n, 0) == Row(n, 2) + ['.', DigitAt(n, 1), DigitAt(n, 0)]
  {
    hide DigitAt, CommaAt;
    assert Row(n, 1) == Row(n, 2) + ['.', DigitAt(n, 1)];
    assert Row(n, 0) == Row(n, 1) + [DigitAt(n, 0)];
  }

  lemma InnerRow(n: nat)
    ensures Inner(n) == Row(n, 0)
  {
    RowHigh(n);
    RowMiddle(n);
    RowLow(n);
    hide DigitAt, CommaAt, Row;
  }

  lemma SeparatorText(c: string, r: string)
    requires |c| <= 1 && (|c| == 1 ==> !IsDigit(c[0]))
    ensures Strip(r + c) == Strip(r) + Strip(c)
    ensures OnlyDigits(r + c) == OnlyDigits(r)
  {
    if |c| == 1 {
      StripLast(r, c[0]);
      StripLast([], c[0]);
      assert r + c == r + [c[0]] && c == [] + [c[0]];
    } else {
      assert r + c == r;
    }
  }

  lemma SeparatorKind(n: nat, k: nat)
    ensures var c := Separator(n, k);
            |c| <= 1 && (|c| == 1 ==> !IsDigit(c[0])) && Strip(c) == if k == 1 then "." else ""
  {
    hide Shift;
  }

  lemma DigitText(c: char, r: string)
    requires c == ' ' || IsDigit(c)
    ensures Strip(r + [c]) == Strip(r) + if c == ' ' then "" else [c]
    ensures OnlyDigits(r + [c]) == OnlyDigits(r) + if c == ' ' then "" else [c]
  {
    StripLast(r, c);
    hide Strip, OnlyDigits;
  }

  lemma DigitKind(n: nat, k: nat)
    ensures DigitAt(n, k) == ' ' || IsDigit(DigitAt(n, k))
  {
    hide Shift;
  }

  // One more digit, as text and as number
  lemma RowStep(n: nat, k: nat)
    requires k < 9
    ensures Strip(Row(n, k)) == Strip(Row(n, k + 1)) + (if k == 1 then "." else "")
                                + if DigitAt(n, k) == ' ' then "" else [DigitAt(n, k)]
    ensures OnlyDigits(Row(n, k)) == OnlyDigits(Row(n, k + 1)) + if DigitAt(n, k) == ' ' then "" else [DigitAt(n, k)]
  {
    assert Row(n, k) == Row(n, k + 1) + Separator(n, k) + [DigitAt(n, k)];
    hide Strip, OnlyDigits, Row, DigitAt, Separator;
    SeparatorKind(n, k);
    SeparatorText(Separator(n, k), Row(n, k + 1));
    DigitKind(n, k);
    DigitText(DigitAt(n, k), Row(n, k + 1) + Separator(n, k));
  }

  lemma {:induction false} RowText(n: nat, k: nat)
    requires n < LIMIT && 2 <= k <= 9
    ensures Strip(Row(n, k)) == if Shift(n, k) == 0 && k > 2 then "" else Decimal(Shift(n, k))
    decreases 9 - k
  {
    if k == 9 {
      ShiftBound(n, 9);
    } else {
      RowText(n, k + 1);
      RowStep(n, k);
      assert Shift(n, k + 1) == Shift(n, k) / 10;
      hide Row, Strip;
    }
  }

  lemma {:induction false} RowValue(n: nat, k: nat)
    requires n < LIMIT && k <= 9
    ensures Value(OnlyDigits(Row(n, k))) == Shift(n, k)
    decreases 9 - k
  {
    if k == 9 {
      ShiftBound(n, 9);
    } else {
      RowValue(n, k + 1);
      RowStep(n, k);
      var s := OnlyDigits(Row(n, k + 1));
      assert Shift(n, k + 1) == Shift(n, k) / 10;
      ValueLast(s, Shift(n, k) % 10);
      assert s + "" == s;
      hide Row, OnlyDigits, Value;
    }
  }

  lemma ValueLast(s: string, d: nat)
    requires AllDigits(s) && d < 10
    ensures AllDigits(s + [Digit(d)]) && Value(s + [Digit(d)]) == Value(s) * 10 + d
  {
    assert (s + [Digit(d)])[..|s|] == s;
  }

  // The field shows the amount
  lemma FieldText(n: nat)
    requires n < LIMIT
    ensures Strip(Inner(n)) == Amount(n)
  {
    hide Strip, Row, Decimal, Inner, DigitAt, Digit, Shift;
    InnerRow(n);
    TenthsText(n);
    LowDigits(n);
    RowStep(n, 0);
    TextJoin(Decimal(n / 100), DigitAt(n, 1), DigitAt(n, 0));
  }

  lemma TextJoin(s: string, d: char, e: char)
    ensures s + ['.', d] + "" + [e] == s + ['.', d, e]
  {
  }

  lemma TenthsText(n: nat)
    requires n < LIMIT
    ensures Strip(Row(n, 1)) == Decimal(n / 100) + ['.', DigitAt(n, 1)]
  {
    LowDigits(n);
    hide Strip, Row, Decimal, DigitAt, Digit, Shift;
    RowText(n, 2);
    RowStep(n, 1);
    assert "." + [DigitAt(n, 1)] == ['.', DigitAt(n, 1)];
  }

  lemma LowDigits(n: nat)
    ensures Shift(n, 2) == n / 100 && DigitAt(n, 1) == Digit(n / 10 % 10) != ' '
            && DigitAt(n, 0) == Digit(n % 10) != ' '
  {
    assert Shift(n, 0) == n && Shift(n, 1) == n / 10 && Shift(n, 2) == n / 10 / 10;
  }

  // The printer loses nothing: the field decodes to the signed amount
  lemma FieldRoundTrip(m: int)
    requires -LIMIT < m < LIMIT
    ensures Decode(Field(m)) == m
  {
    var n := Abs(m);
    var a, b := if m < 0 then '(' else ' ', if m < 0 then ')' else ' ';
    assert Field(m) == [a] + Inner(n) + [b];
    hide OnlyDigits, Inner, Field, Value, Row;
    InnerRow(n);
    RowValue(n, 0);
    assert Shift(n, 0) == n;
    StripLast([a] + Inner(n), b);
    DigitsAfter(a, Inner(n));
    assert OnlyDigits(Field(m)) == OnlyDigits(Inner(n));
  }

  lemma {:induction false} DigitsAfter(c: char, s: string)
    requires !IsDigit(c)
    ensures OnlyDigits([c] + s) == OnlyDigits(s)
  {
    if s == [] {
      StripLast([], c);
      assert [] + [c] == [c] + s;
    } else {
      var t, d := s[..|s| - 1], s[|s| - 1];
      DigitsAfter(c, t);
      StripLast([c] + t, d);
      assert ([c] + t) + [d] == [c] + s;
    }
  }

  // Question marks appear exactly from 10^9 cents on
  lemma QuestionMarks(m: int)
    ensures '?' in Field(m) <==> Abs(m) >= LIMIT
  {
    if Abs(m) >= LIMIT {
      assert Field(m)[1] == '?';
    } else {
      forall p | 0 <= p < 14
        ensures Field(m)[p] != '?'
      {
        hide Shift;
      }
    }
  }

  // Commas stand at two places only, each exactly if a digit is to its left
  lemma Commas(m: int)
    requires Abs(m) < LIMIT
    ensures forall p | 0 <= p < 14 && Field(m)[p] == ',' :: p == 2 || p == 6
    ensures Field(m)[2] == ',' <==> IsDigit(Field(m)[1])
    ensures Field(m)[6] == ',' <==> exists q :: 1 <= q < 6 && IsDigit(Field(m)[q])
  {
    var n := Abs(m);
    CommaPlaces(m);
    hide Field;
    if Shift(n, 5) == 0 {
      ShiftEnds(n, 5, 6);
      ShiftEnds(n, 5, 7);
      ShiftEnds(n, 5, 8);
    } else {
      assert IsDigit(Field(m)[5]);
    }
    hide Shift;
  }

  lemma CommaPlaces(m: int)
    requires Abs(m) < LIMIT
    ensures var n, f := Abs(m), Field(m);
            && f[1] == DigitAt(n, 8) && f[2] == CommaAt(n, 8) && f[3] == DigitAt(n, 7) && f[4] == DigitAt(n, 6)
            && f[5] == DigitAt(n, 5) && f[6] == CommaAt(n, 5)
    ensures forall p | 0 <= p < 14 && Field(m)[p] == ',' :: p == 2 || p == 6
  {
    hide Shift;
  }

  // ---- printer and parser ----

  lemma TwoDigits(t: string)
    requires |t| == 2 && AllDigits(t)
    ensures Value(t) < 100 && t == [Digit(Value(t) / 10), Digit(Value(t) % 10)]
  {
    assert t[..1][..0] == [] && Value([]) == 0;
    assert Value(t[..1]) == DigitValue(t[0]);
  }

  // Printing an amount that was read shows its text again; only a missing
  // digit before the dot is filled in.
  lemma PrinterUndoesParser(a: string)
    requires Accepted(a)
    ensures Cents(a) < LIMIT && '?' !in Field(Cents(a))
    ensures Strip(Inner(Cents(a))) == if a[0] == '.' then "0" + a else a
  {
    var s, t := a[..|a| - 3], a[|a| - 2..];
    var c := Cents(a);
    AcceptedBound(a);
    assert a == s + "." + t;
    assert s == [] ==> Value(s) == 0 && Decimal(0) == "0";
    hide Strip, Inner, Field, Value, Decimal, Digit;
    QuestionMarks(c);
    FieldText(c);
    TwoDigits(t);
    SplitCents(c, Value(s), Value(t));
    if s != [] {
      assert a[0] == s[0];
      assert IsDigit(s[0]);
      ValueDecimal(s);
    }
  }

  lemma SplitCents(c: nat, x: nat, y: nat)
    requires c == x * 100 + y && y < 100
    ensures c / 100 == x && c / 10 % 10 == y / 10 && c % 10 == y % 10
  {
  }

  lemma {:induction false} DecimalLength(n: nat, k: nat)
    requires n < Power(k) && k >= 1
    ensures |Decimal(n)| <= k
  {
    if n >= 10 {
      DecimalLength(n / 10, k - 1);
    }
  }

  // Reading a printed positive amount gives the number back
  lemma ParserUndoesPrinter(m: int)
    requires 0 < m < LIMIT
    ensures Accepted(Strip(Inner(m))) && Cents(Strip(Inner(m))) == m
  {
    assert Power(7) == 10_000_000;
    hide Strip, Inner, Decimal, Value, Power, Amount, Digit;
    FieldText(m);
    AmountShape(m);
    DecimalValue(m / 100);
    DecimalLength(m / 100, 7);
    DecimalZero();
    LastTwo(m);
  }

  lemma AmountShape(m: nat)
    ensures var a, s := Amount(m), Decimal(m / 100);
            && |a| == |s| + 3 && a[|a| - 3] == '.' && a[..|a| - 3] == s
            && a[|a| - 2..] == [Digit(m / 10 % 10), Digit(m % 10)] && (s != [] ==> a[0] == s[0])
  {
    hide Decimal, Digit;
  }

  lemma LastTwo(m: nat)
    ensures var t := [Digit(m / 10 % 10), Digit(m % 10)];
            AllDigits(t) && Value(t) == m % 100
  {
    var x, y := m / 10 % 10, m % 10;
    assert m % 100 == x * 10 + y;
    var t := [Digit(x), Digit(y)];
    assert t[..1] == [Digit(x)] && t[..1][..0] == [];
    assert Value([Digit(x)]) == x;
  }

  lemma DecimalZero()
    ensures Decimal(0) == "0"
  {
  }

  // Accepted are exactly the positive amounts below the limit in the usual
  // notation, where "0" before the dot may be left out
  lemma AcceptedExactly(a: string)
    ensures Accepted(a) <==> exists n :: 0 < n < LIMIT && (a == Amount(n) || (n < 100 && "0" + a == Amount(n)))
  {
    hide Strip, Inner, Field, Value, Decimal, Digit, Amount, Cents;
    if Accepted(a) {
      var n := Cents(a);
      PrinterUndoesParser(a);
      FieldText(n);
      DotFirst(a);
      assert 0 < n < LIMIT && (a == Amount(n) || (n < 100 && "0" + a == Amount(n)));
    }
    if n :| 0 < n < LIMIT && (a == Amount(n) || (n < 100 && "0" + a == Amount(n))) {
      if a == Amount(n) {
        ParserUndoesPrinter(n);
        FieldText(n);
      } else {
        DotForm(a, n);
      }
    }
  }

  lemma DotFirst(a: string)
    requires Accepted(a)
    ensures Cents(a) > 0 && (a[0] == '.' ==> Cents(a) < 100)
  {
    if a[0] == '.' {
      assert |a| > 3 ==> IsDigit(a[..|a| - 3][0]);
      TwoDigits(a[1..]);
      assert Value(a[..0]) == 0;
    }
  }

  lemma DotForm(a: string, n: nat)
    requires 0 < n < 100 && "0" + a == Amount(n)
    ensures Accepted(a)
  {
    AmountShape(n);
    LastTwo(n);
    DecimalZero();
    hide Decimal, Amount, Digit;
    assert |a| == 3 && a == ("0" + a)[1..];
    assert a[0] == '.' && a[1..] == [Digit(n / 10 % 10), Digit(n % 10)] && a[..0] == [];
    assert Value(a[..0]) == 0;
  }
}
