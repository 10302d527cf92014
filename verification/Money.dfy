/**
 Amounts of money in warmup1: the check that reads an amount and the printer
 that fills a fixed-width field.
 */
module Money {
  import opened Basics

  // ---- decimal numbers ----

  predicate IsDigit(c: char) {
    '0' <= c <= '9'
  }

  function Digit(d: nat): char
    requires d < 10
  {
    '0' + d as char
  }

  function DigitValue(c: char): nat
    requires IsDigit(c)
  {
    c as int - '0' as int
  }

  predicate AllDigits(s: string) {
    forall i | 0 <= i < |s| :: IsDigit(s[i])
  }

  // What atoll computes of a string of digits
  function Value(s: string): nat
    requires AllDigits(s)
  {
    if s == [] then 0 else Value(s[..|s| - 1]) * 10 + DigitValue(s[|s| - 1])
  }

  // A number in the usual notation
  function Decimal(n: nat): string {
    if n < 10 then [Digit(n)] else Decimal(n / 10) + [Digit(n % 10)]
  }

  // Cents as an amount with two places after the dot
  function Amount(n: nat): string {
    Decimal(n / 100) + ['.', Digit(n / 10 % 10), Digit(n % 10)]
  }

  lemma {:induction false} DecimalValue(n: nat)
    ensures AllDigits(Decimal(n)) && Value(Decimal(n)) == n && |Decimal(n)| >= 1
    ensures Decimal(n)[0] == '0' <==> n == 0
  {
    var s := Decimal(n);
    if n >= 10 {
      DecimalValue(n / 10);
      assert s[..|s| - 1] == Decimal(n / 10);
    } else {
      assert s[..0] == [] && Value([]) == 0;
    }
  }

  // Without superfluous zeros the notation is unique
  lemma {:induction false} ValueDecimal(s: string)
    requires AllDigits(s) && |s| >= 1 && (|s| > 1 ==> s[0] != '0')
    ensures Decimal(Value(s)) == s
    ensures |s| > 1 ==> Value(s) >= 10
  {
    var t := s[..|s| - 1];
    assert s == t + [s[|s| - 1]];
    if |s| > 1 {
      ValueDecimal(t);
      if |t| == 1 {
        assert t[..0] == [] && Value([]) == 0;
      }
    } else {
      assert Value(t) == 0;
    }
  }

  function Power(k: nat): nat {
    if k == 0 then 1 else 10 * Power(k - 1)
  }

  lemma {:induction false} ValueBound(s: string)
    requires AllDigits(s)
    ensures Value(s) < Power(|s|)
  {
    if s != [] {
      ValueBound(s[..|s| - 1]);
    }
  }

  // ---- reading an amount ----

  // At most seven digits, a dot and two digits; not zero, and no leading zero
  // unless it is the only digit before the dot
  ghost predicate Accepted(a: string) {
    && 3 <= |a| <= 10 && a[|a| - 3] == '.'
    && AllDigits(a[..|a| - 3]) && AllDigits(a[|a| - 2..])
    && Cents(a) > 0
    && (a[0] == '0' ==> |a| == 4)
  }

  ghost function Cents(a: string): nat
    requires |a| >= 3 && AllDigits(a[..|a| - 3]) && AllDigits(a[|a| - 2..])
  {
    Value(a[..|a| - 3]) * 100 + Value(a[|a| - 2..])
  }

  // The dots of a: their number and the last position, 0 if there is none
  method ScanDots(a: string) returns (dotIndex: nat, dotCount: nat)
    ensures dotCount == 0 <==> '.' !in a
    ensures dotCount >= 1 ==> dotIndex < |a| && a[dotIndex] == '.' && '.' !in a[dotIndex + 1..]
    ensures dotCount == 1 ==> '.' !in a[..dotIndex]
    ensures dotCount > 1 ==> '.' in a[..dotIndex]
  {
    dotIndex, dotCount := 0, 0;
    for i := 0 to |a|
      invariant dotCount == 0 <==> '.' !in a[..i]
      invariant dotCount >= 1 ==> dotIndex < i && a[dotIndex] == '.' && '.' !in a[dotIndex + 1..i]
      invariant dotCount == 1 ==> '.' !in a[..dotIndex]
      invariant dotCount > 1 ==> '.' in a[..dotIndex]
    {
      if a[i] == '.' {
        assert dotCount >= 1 ==> a[dotIndex] in a[..i];
        dotIndex := i;
        dotCount := dotCount + 1;
      }
    }
    assert a[..|a|] == a && (dotCount >= 1 ==> a[dotIndex + 1..|a|] == a[dotIndex + 1..]);
  }

  method DigitsFrom(a: string, lo: nat, hi: nat) returns (ok: bool)
    requires lo <= hi <= |a|
    ensures ok <==> AllDigits(a[lo..hi])
  {
    for i := lo to hi
      invariant forall k | lo <= k < i :: IsDigit(a[k])
    {
      if a[i] < '0' || a[i] > '9' {
        assert !IsDigit(a[lo..hi][i - lo]);
        return false;
      }
    }
    ok := true;
  }

  // checkAmount: the amount in cents, or None where the program exits
  method CheckAmount(a: string) returns (r: Option<nat>)
    ensures r.Some? <==> Accepted(a)
    ensures r.Some? ==> r.value == Cents(a)
  {
    if |a| < 1 {
      return None;
    }
    hide Value, AllDigits;
    var dotIndex: int, dotCount := ScanDots(a);
    if dotCount != 1 {
      OneDot(a);
      return None;
    }
    var digits := DigitsFrom(a, 0, dotIndex);
    assert a[0..dotIndex] == a[..dotIndex];
    if !digits {
      WhichDot(a, dotIndex);
      return None;
    }
    digits := DigitsFrom(a, dotIndex + 1, |a|);
    assert a[dotIndex + 1..|a|] == a[dotIndex + 1..];
    if !digits {
      WhichDot(a, dotIndex);
      return None;
    }
    WhichDot(a, dotIndex);
    if dotIndex > 7 {
      return None;
    }
    if |a| - 1 - dotIndex != 2 {
      return None;
    }
    var numPrev := Value(a[..dotIndex]);
    var numNext := Value(a[dotIndex + 1..]);
    if numPrev > 0 || numNext > 0 {
      if dotIndex - 1 != 0 && a[0] == '0' {
        return None;
      }
    } else {
      return None;
    }
    r := Some(numPrev * 100 + numNext);
  }

  // An accepted amount has one dot, the third character from the end
  lemma OneDot(a: string)
    ensures Accepted(a) ==> a[|a| - 3] == '.' && '.' !in a[..|a| - 3] && '.' !in a[|a| - 2..]
  {
  }

  lemma WhichDot(a: string, dot: nat)
    requires dot < |a| && a[dot] == '.'
    ensures Accepted(a) ==> dot == |a| - 3
  {
    if |a| >= 3 && dot < |a| - 3 {
      assert a[..|a| - 3][dot] == '.';
    } else if |a| >= 3 && dot > |a| - 3 {
      assert a[|a| - 2..][dot - (|a| - 2)] == '.';
    }
  }

  // Accepted amounts are below 10^9 cents
  lemma AcceptedBound(a: string)
    requires Accepted(a)
    ensures 0 < Cents(a) < 1_000_000_000
  {
    var s, t := a[..|a| - 3], a[|a| - 2..];
    ValueBound(s);
    ValueBound(t);
    PowerGrows(|s|, 7);
  }

  lemma {:induction false} PowerGrows(j: nat, k: nat)
    requires j <= k
    ensures Power(j) <= Power(k)
  {
    if j < k {
      PowerGrows(j, k - 1);
    }
  }

  // ---- printing ----

  const LIMIT: int := 1_000_000_000

  // n without its last k digits
  function Shift(n: nat, k: nat): nat {
    if k == 0 then n else Shift(n, k - 1) / 10
  }

  // The k-th digit from the right; nothing to the left of the number, but at
  // least the digits around the dot
  function DigitAt(n: nat, k: nat): char {
    if Shift(n, k) > 0 || k <= 2 then Digit(Shift(n, k) % 10) else ' '
  }

  // A comma if a digit stands to its left
  function CommaAt(n: nat, k: nat): char {
    if Shift(n, k) > 0 then ',' else ' '
  }

  // The twelve characters between the signs
  function Inner(n: nat): (s: string)
    ensures |s| == 12
  {
    [DigitAt(n, 8), CommaAt(n, 8), DigitAt(n, 7), DigitAt(n, 6), DigitAt(n, 5), CommaAt(n, 5),
     DigitAt(n, 4), DigitAt(n, 3), DigitAt(n, 2), '.', DigitAt(n, 1), DigitAt(n, 0)]
  }

  function Abs(m: int): nat {
    if m < 0 then -m else m
  }

  function Field(m: int): (s: string)
    ensures |s| == 14
  {
    var body := if Abs(m) >= LIMIT then "?,???,???.??" else Inner(Abs(m));
    [if m < 0 then '(' else ' '] + body + [if m < 0 then ')' else ' ']
  }

  // ---- the printer's loops ----

  // Position in the field of the k-th digit from the right
  function Place(k: nat): int {
    if k <= 1 then 12 - k else if k <= 4 then 11 - k else if k <= 7 then 10 - k else 9 - k
  }

  // Where the digit loop stands after k digits: past the separator only if
  // digits are left
  function Cursor(n: nat, k: nat): int {
    if (k == 2 || k == 5 || k == 8) && Shift(n, k) == 0 then Place(k) + 1 else Place(k)
  }

  lemma {:induction false} ShiftBound(n: nat, k: nat)
    requires n < LIMIT && k <= 9
    ensures Shift(n, k) < Power(9 - k)
  {
    if k == 0 {
      assert Power(9) == LIMIT;
    } else {
      ShiftBound(n, k - 1);
      assert Power(10 - k) == 10 * Power(9 - k);
    }
  }

  lemma {:induction false} ShiftEnds(n: nat, j: nat, k: nat)
    requires j <= k && Shift(n, j) == 0
    ensures Shift(n, k) == 0
  {
    if j < k {
      ShiftEnds(n, j, k - 1);
    }
  }

  lemma FieldAt(n: nat, k: nat)
    requires n < LIMIT && k < 9
    ensures Field(n)[Place(k)] == DigitAt(n, k)
  {
    hide Shift;
  }

  lemma FieldMarks(n: nat)
    requires n < LIMIT
    ensures Field(n)[10] == '.' && Field(n)[6] == CommaAt(n, 5) && Field(n)[2] == CommaAt(n, 8)
  {
    hide Shift;
  }

  // The rows of the field right of the cursor are written
  ghost predicate Written(n: nat, index: int, row: seq<char>) {
    |row| >= 16 && -1 <= index && forall p | index < p <= 12 && 1 <= p :: row[p] == Field(n)[p]
  }

  // One digit and, if more follow, the separator left of it
  method WriteDigit(n: nat, money: nat, index: int, temp: array<char>, ghost k: nat) returns (rest: nat, next: int)
    requires n < LIMIT && temp.Length >= 16 && k < 9 && money == Shift(n, k) > 0 && index == Place(k)
             && Written(n, index, temp[..])
    modifies temp
    ensures rest == Shift(n, k + 1) && next == Cursor(n, k + 1) && Written(n, next, temp[..])
    ensures forall p | 0 <= p < temp.Length && !(1 <= p <= 12) :: temp[p] == old(temp[p])
  {
    hide Field, Shift, Written, Cursor, DigitAt;
    DigitFacts(n, k);
    rest := money / 10;
    next := index;
    PutChar(n, next, temp, '0' + (money % 10) as char);
    if next == 11 && rest > 0 {
      next := next - 1;
      PutChar(n, next, temp, '.');
    } else if next == 7 && rest > 0 {
      next := next - 1;
      PutChar(n, next, temp, ',');
    } else if next == 3 && rest > 0 {
      next := next - 1;
      PutChar(n, next, temp, ',');
    }
    next := next - 1;
  }

  // The digit at the cursor, what is left of it, and where the cursor goes
  lemma DigitFacts(n: nat, k: nat)
    requires n < LIMIT && k < 9 && Shift(n, k) > 0
    ensures Field(n)[Place(k)] == '0' + (Shift(n, k) % 10) as char
    ensures var rest := Shift(n, k) / 10;
            && Shift(n, k + 1) == rest
            && Cursor(n, k + 1) == Place(k) - (if rest > 0 && (k == 1 || k == 4 || k == 7) then 2 else 1)
            && (rest > 0 && k == 1 ==> Field(n)[10] == '.')
            && (rest > 0 && k == 4 ==> Field(n)[6] == ',')
            && (rest > 0 && k == 7 ==> Field(n)[2] == ',')
  {
    FieldAt(n, k);
    FieldMarks(n);
    assert Shift(n, k + 1) == Shift(n, k) / 10;
    hide Field, Shift;
  }

  // One character of the field, right to left
  method PutChar(n: nat, index: int, temp: array<char>, c: char)
    requires temp.Length >= 16 && 1 <= index <= 12 && c == Field(n)[index] && Written(n, index, temp[..])
    modifies temp
    ensures Written(n, index - 1, temp[..])
    ensures forall p | 0 <= p < temp.Length && p != index :: temp[p] == old(temp[p])
  {
    hide Field;
    temp[index] := c;
  }

  // Writes the digits and the separators between them
  method WriteDigits(n: nat, temp: array<char>) returns (index: int, ghost k: nat)
    requires n < LIMIT && temp.Length >= 16
    modifies temp
    ensures k <= 9 && Shift(n, k) == 0 && index == Cursor(n, k) && Written(n, index, temp[..])
    ensures forall p | 0 <= p < temp.Length && !(1 <= p <= 12) :: temp[p] == old(temp[p])
  {
    ShiftBound(n, 9);
    index, k := 12, 0;
    var money := n;
    assert money == Shift(n, 0);
    hide Field, Shift;
    while money > 0 && index >= 1
      invariant k <= 9 && money == Shift(n, k) && index == Cursor(n, k) && Written(n, index, temp[..])
      invariant forall p | 0 <= p < temp.Length && !(1 <= p <= 12) :: temp[p] == old(temp[p])
      decreases 9 - k
    {
      money, index := WriteDigit(n, money, index, temp, k);
      k := k + 1;
    }
  }

  // What is left of the cursor once the digits are out
  lemma LeftOfCursor(n: nat, k: nat, p: nat)
    requires n < LIMIT && k <= 9 && Shift(n, k) == 0 && 1 <= p <= Cursor(n, k)
    ensures Field(n)[p] == if p == 10 then '.' else if p >= 9 then '0' else ' '
  {
    FieldMarks(n);
    if p == 6 {
      ShiftEnds(n, k, 5);
    } else if p == 2 {
      ShiftEnds(n, k, 8);
    } else if p != 10 {
      var j := if p >= 11 then 12 - p else if p >= 7 then 11 - p else if p >= 3 then 10 - p else 9 - p;
      FieldAt(n, j);
      ShiftEnds(n, k, j);
    }
    hide Shift, Field;
  }

  // Fills the field left of the cursor
  method FillLeft(n: nat, from: int, temp: array<char>, ghost k: nat)
    requires n < LIMIT && temp.Length >= 16 && k <= 9 && Shift(n, k) == 0 && from == Cursor(n, k)
             && Written(n, from, temp[..])
    modifies temp
    ensures Written(n, 0, temp[..])
    ensures forall p | 0 <= p < temp.Length && !(1 <= p <= 12) :: temp[p] == old(temp[p])
  {
    hide Shift, Field;
    forall p: nat | 1 <= p <= Cursor(n, k)
      ensures Field(n)[p] == if p == 10 then '.' else if p >= 9 then '0' else ' '
    {
      LeftOfCursor(n, k, p);
    }
    FieldMarks(n);
    var index := from;
    while index >= 9
      invariant index <= from && (index < from ==> index >= 8)
      invariant forall p | index < p <= 12 && 1 <= p && p != 10 :: temp[p] == Field(n)[p]
      invariant forall p | 0 <= p < temp.Length && !(1 <= p <= 12) :: temp[p] == old(temp[p])
    {
      temp[index] := '0';
      index := index - 1;
    }
    temp[10] := '.';
    while index >= 1
      invariant index <= from && index <= 8
      invariant forall p | index < p <= 12 && 1 <= p :: temp[p] == Field(n)[p]
      invariant forall p | 0 <= p < temp.Length && !(1 <= p <= 12) :: temp[p] == old(temp[p])
    {
      temp[index] := ' ';
      index := index - 1;
    }
  }

  // memset over the buffer, then the signs
  method WriteSigns(money: int, temp: array<char>)
    requires temp.Length >= 16
    modifies temp
    ensures temp[0] == (if money < 0 then '(' else ' ') && temp[13] == if money < 0 then ')' else ' '
    ensures temp[14] == '\0' && temp[15] == '\0'
    ensures forall p | 16 <= p < temp.Length :: temp[p] == old(temp[p])
  {
    var i := 0;
    while i < 16
      invariant 0 <= i <= 16 && (forall p | 0 <= p < i :: temp[p] == '\0')
      invariant forall p | 16 <= p < temp.Length :: temp[p] == old(temp[p])
    {
      temp[i] := '\0';
      i := i + 1;
    }
    temp[0] := ' ';
    temp[13] := ' ';
    if money < 0 {
      temp[0] := '(';
      temp[13] := ')';
    }
  }

  // An amount too large for the field
  method WriteMarks(temp: array<char>)
    requires temp.Length >= 16
    modifies temp
    ensures temp[1..13] == "?,???,???.??"
    ensures forall p | 0 <= p < temp.Length && !(1 <= p <= 12) :: temp[p] == old(temp[p])
  {
    var i := 1;
    while i < 13
      invariant 1 <= i <= 13 && (forall p | 1 <= p < i :: temp[p] == '?')
      invariant forall p | 0 <= p < temp.Length && !(1 <= p <= 12) :: temp[p] == old(temp[p])
    {
      temp[i] := '?';
      i := i + 1;
    }
    temp[10] := '.';
    temp[2] := ',';
    temp[6] := ',';
  }

  // transferFormat: the whole buffer
  method TransferFormat(money: int, temp: array<char>)
    requires temp.Length >= 16
    modifies temp
    ensures temp[..14] == Field(money) && temp[14] == '\0' && temp[15] == '\0'
    ensures temp[16..] == old(temp[16..])
  {
    SameInner(money);
    hide Field, Written;
    WriteSigns(money, temp);
    if money <= -LIMIT || money >= LIMIT {
      WriteMarks(temp);
      MarksAt(money, temp[1..13]);
    } else {
      var n := if money < 0 then -money else money;
      var index, k := WriteDigits(n, temp);
      FillLeft(n, index, temp, k);
      WrittenAt(n, temp[..]);
    }
  }

  lemma MarksAt(money: int, row: seq<char>)
    requires (money <= -LIMIT || money >= LIMIT) && row == "?,???,???.??"
    ensures forall p | 1 <= p <= 12 :: row[p - 1] == Field(money)[p]
  {
  }

  lemma WrittenAt(n: nat, row: seq<char>)
    requires Written(n, 0, row)
    ensures |row| >= 16 && forall p | 1 <= p <= 12 :: row[p] == Field(n)[p]
  {
    hide Field;
  }

  lemma SameInner(m: int)
    ensures forall p | 1 <= p <= 12 :: Field(m)[p] == Field(Abs(m))[p]
    ensures Field(m)[0] == (if m < 0 then '(' else ' ') && Field(m)[13] == if m < 0 then ')' else ' '
  {
    hide Inner;
  }
}
