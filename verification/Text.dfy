/** Decimal numerals and the byte-wise order of strings. */
module Text {

  predicate IsDigit(c: char) {
    '0' <= c <= '9'
  }

  predicate AllDigits(s: string) {
    forall i :: 0 <= i < |s| ==> IsDigit(s[i])
  }

  /** The value of a digit; other characters count zero. */
  function DigitValue(c: char): nat {
    if IsDigit(c) then c as int - '0' as int else 0
  }

  function DigitChar(d: nat): (c: char)
    requires d < 10
    ensures IsDigit(c) && DigitValue(c) == d
  {
    ('0' as int + d) as char
  }

  /** The number a digit string denotes, leading zeros allowed. */
  function NumeralValue(s: string): nat {
    if s == [] then 0 else 10 * NumeralValue(s[..|s| - 1]) + DigitValue(s[|s| - 1])
  }

  /** std::to_string of a non-negative integer. */
  function Decimal(n: nat): (s: string)
    ensures s != [] && AllDigits(s) && NumeralValue(s) == n
    decreases n
  {
    if n < 10 then
      assert NumeralValue([DigitChar(n)][..0]) == 0;
      [DigitChar(n)]
    else
      var front := Decimal(n / 10);
      var all := front + [DigitChar(n % 10)];
      assert all[..|all| - 1] == front;
      all
  }

  /** std::to_string of any integer. */
  function DecimalInt(n: int): (s: string)
    ensures s != []
    ensures forall i :: 0 <= i < |s| ==> IsDigit(s[i]) || s[i] == '-'
  {
    if n < 0 then "-" + Decimal(-n) else Decimal(n)
  }

  lemma DecimalIntInjective(m: int, n: int)
    requires DecimalInt(m) == DecimalInt(n)
    ensures m == n
  {
    assert Decimal(if m < 0 then -m else m)[0] != '-';
    assert Decimal(if n < 0 then -n else n)[0] != '-';
    if m < 0 {
      assert DecimalInt(m)[1..] == Decimal(-m) && DecimalInt(n)[1..] == Decimal(-n);
    }
  }

  /** printf's %0<width>d: exactly `width` digits, for numbers that fit. */
  function Padded(n: nat, width: nat): (s: string)
    ensures |s| == width && AllDigits(s)
    decreases width
  {
    if width == 0 then [] else Padded(n / 10, width - 1) + [DigitChar(n % 10)]
  }

  function Pow10(k: nat): (p: nat)
    ensures p >= 1
  {
    if k == 0 then 1 else 10 * Pow10(k - 1)
  }

  lemma {:induction false} PaddedValue(n: nat, width: nat)
    requires n < Pow10(width)
    ensures NumeralValue(Padded(n, width)) == n
    decreases width
  {
    if width > 0 {
      PaddedValue(n / 10, width - 1);
      var s := Padded(n, width);
      assert s[..|s| - 1] == Padded(n / 10, width - 1);
    }
  }

  lemma ShiftOneDigit(v: nat, p: nat, f: nat, d: nat)
    ensures 10 * (v * p + f) + d == v * (10 * p) + (10 * f + d)
  {
    assert v * (10 * p) == 10 * (v * p);
  }

  /** A numeral followed by another is worth the first one shifted by the length of the second. */
  lemma {:induction false} NumeralConcat(a: string, b: string)
    ensures NumeralValue(a + b) == NumeralValue(a) * Pow10(|b|) + NumeralValue(b)
    decreases |b|
  {
    if b == [] {
      assert a + b == a;
    } else {
      var front, last := b[..|b| - 1], b[|b| - 1];
      NumeralConcat(a, front);
      assert (a + b)[..|a + b| - 1] == a + front;
      ShiftOneDigit(NumeralValue(a), Pow10(|front|), NumeralValue(front), DigitValue(last));
      calc {
        NumeralValue(a + b);
        10 * NumeralValue(a + front) + DigitValue(last);
        NumeralValue(a) * (10 * Pow10(|front|)) + (10 * NumeralValue(front) + DigitValue(last));
        NumeralValue(a) * Pow10(|b|) + NumeralValue(b);
      }
    }
  }

  lemma {:induction false} NumeralBound(s: string)
    ensures NumeralValue(s) < Pow10(|s|)
  {
    if s != [] {
      NumeralBound(s[..|s| - 1]);
    }
  }

  /** std::string's operator<: lexicographic on characters. */
  predicate StringLess(a: string, b: string) {
    b != [] && (a == [] || a[0] < b[0] || (a[0] == b[0] && StringLess(a[1..], b[1..])))
  }

  lemma {:induction false} StringLessTotal(a: string, b: string)
    ensures a == b || StringLess(a, b) || StringLess(b, a)
    ensures !(StringLess(a, b) && StringLess(b, a))
    ensures StringLess(a, b) ==> a != b
  {
    if a != [] && b != [] {
      StringLessTotal(a[1..], b[1..]);
      assert a == [a[0]] + a[1..] && b == [b[0]] + b[1..];
    }
  }

  lemma {:induction false} StringLessTransitive(a: string, b: string, c: string)
    requires StringLess(a, b) && StringLess(b, c)
    ensures StringLess(a, c)
  {
    if a != [] && a[0] == b[0] == c[0] {
      StringLessTransitive(a[1..], b[1..], c[1..]);
    }
  }

  /** The strings agree on the first `n` characters, and then the first ends before the second or has the lesser
      character. */
  predicate LessAt(a: string, b: string, n: nat) {
    n <= |a| && n < |b| && a[..n] == b[..n] && (n == |a| || a[n] < b[n])
  }

  /** The order is decided where the strings first differ. */
  lemma {:induction false} LessWhereTheyDiffer(a: string, b: string)
    ensures StringLess(a, b) <==> exists n: nat :: LessAt(a, b, n)
  {
    if b != [] && (a == [] || a[0] < b[0]) {
      assert LessAt(a, b, 0);
    } else if b != [] && a[0] == b[0] {
      LessWhereTheyDiffer(a[1..], b[1..]);
      if n: nat :| LessAt(a[1..], b[1..], n) {
        assert a[..n + 1] == [a[0]] + a[1..][..n] && b[..n + 1] == [b[0]] + b[1..][..n];
        assert LessAt(a, b, n + 1);
      }
      if n: nat :| LessAt(a, b, n) {
        LessFurtherOn(a, b, n);
      }
    } else {
      forall n: nat ensures !LessAt(a, b, n) {
        NotLessAt(a, b, n);
      }
    }
  }

  lemma NotLessAt(a: string, b: string, n: nat)
    requires b == [] || (a != [] && a[0] > b[0])
    ensures !LessAt(a, b, n)
  {
    if 0 < n <= |a| && n < |b| {
      assert a[..n][0] == a[0] && b[..n][0] == b[0];
    }
  }

  lemma LessFurtherOn(a: string, b: string, n: nat)
    requires LessAt(a, b, n) && a != [] && b != [] && a[0] == b[0]
    ensures n > 0 && LessAt(a[1..], b[1..], n - 1)
  {
    assert a[1..][..n - 1] == a[..n][1..] && b[1..][..n - 1] == b[..n][1..];
  }
}
