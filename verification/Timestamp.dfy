/** Timestamps as the tables and the HTTP interface write them: section 5.6 of RFC 3339, in UTC with microseconds. */
module Timestamp {
  import opened Prelude
  import opened Text
  import opened Domain
  import opened Calendar

  const MICROS: nat := 1_000_000

  /** The first microsecond of the year 10000. */
  const END_OF_9999: Time := 253_402_300_800 * 1_000_000

  /* ---- writing ---- */

  function Stamp(year: string, month: string, day: string, hour: string, minute: string, second: string, fraction: string): string {
    year + ("-" + (month + ("-" + (day + ("T" + (hour + (":" + (minute + (":" + (second + ("." + (fraction + "Z"))))))))))))
  }

  /** `toIso8601`, from 1970 on. */
  function ToIso8601(t: nat): string {
    var seconds, us := t / MICROS, t % MICROS;
    var d, clock := DateOf(seconds / 86400), seconds % 86400;
    Stamp(Decimal(d.year), Padded(d.month, 2), Padded(d.day, 2),
          Padded(clock / 3600, 2), Padded(clock / 60 % 60, 2), Padded(clock % 60, 2), Padded(us, 6))
  }

  /* ---- reading ---- */

  /** The conversions of a scanf format, and what they store. */
  datatype Directive = Integer(width: nat) | Literal(c: char) | Digits(width: nat)

  datatype Item = Number(n: int) | Chars(s: string)

  datatype Items = Stop | More(first: Item, rest: Items)

  const FORMAT := [Integer(4), Literal('-'), Integer(2), Literal('-'), Integer(2), Literal('T'), Integer(2), Literal(':'),
                   Integer(2), Literal(':'), Integer(2), Literal('.'), Digits(9), Literal('Z')]

  predicate IsSpace(c: char) {
    c == ' ' || '\t' <= c <= '\r'
  }

  function SkipSpace(s: string): string {
    if s != [] && IsSpace(s[0]) then SkipSpace(s[1..]) else s
  }

  /** How many of the leading characters, at most `width`, are digits. */
  function LeadingDigits(s: string, width: nat): (n: nat)
    ensures n <= width && n <= |s|
  {
    if width == 0 || s == [] || !IsDigit(s[0]) then 0 else 1 + LeadingDigits(s[1..], width - 1)
  }

  /** `%<width>d`: white space, an optional sign that counts towards the width, and at least one digit. */
  function ScanInteger(s: string, width: nat): Option<(int, string)> {
    var start := SkipSpace(s);
    var signed := width > 0 && start != [] && (start[0] == '-' || start[0] == '+');
    var body := if signed then start[1..] else start;
    var n := LeadingDigits(body, if signed then width - 1 else width);
    if n == 0 then None
    else
      var value: int := NumeralValue(body[..n]);
      Some((if signed && start[0] == '-' then -value else value, body[n..]))
  }

  /** The items converted before the first directive that does not match. */
  function Scan(format: seq<Directive>, i: nat, s: string): Items
    requires i <= |format|
    decreases |format| - i
  {
    if i == |format| then Stop
    else
      match format[i]
      case Literal(c) => if s != [] && s[0] == c then Scan(format, i + 1, s[1..]) else Stop
      case Integer(width) =>
        (match ScanInteger(s, width)
         case None => Stop
         case Some((n, rest)) => More(Number(n), Scan(format, i + 1, rest)))
      case Digits(width) =>
        var n := LeadingDigits(s, width);
        if n == 0 then Stop else More(Chars(s[..n]), Scan(format, i + 1, s[n..]))
  }

  function Rest(items: Items): Items {
    if items.Stop? then Stop else items.rest
  }

  function FirstNumber(items: Items): int {
    if items.More? && items.first.Number? then items.first.n else 0
  }

  function FirstChars(items: Items): string {
    if items.More? && items.first.Chars? then items.first.s else ""
  }

  /** The variables the conversions store into, all zero or empty at first. */
  datatype Fields = Fields(year: int, month: int, day: int, hour: int, minute: int, second: int, fraction: string)

  function FieldsOf(items: Items): Fields {
    var i1 := Rest(items);
    var i2 := Rest(i1);
    var i3 := Rest(i2);
    var i4 := Rest(i3);
    var i5 := Rest(i4);
    Fields(FirstNumber(items), FirstNumber(i1), FirstNumber(i2), FirstNumber(i3), FirstNumber(i4), FirstNumber(i5), FirstChars(Rest(i5)))
  }

  /** timegm: month 0 is January, and fields out of their ranges carry over. */
  function TimeGm(year: int, month: int, day: int, hour: int, minute: int, second: int): int {
    DayNumber(year + month / 12, month % 12 + 1, day) * 86400 + hour * 3600 + minute * 60 + second
  }

  function PadRight(s: string, width: nat): (r: string)
    requires |s| <= width
    ensures |r| == width
    decreases width - |s|
  {
    if |s| == width then s else PadRight(s + "0", width)
  }

  /** The microseconds of a fraction: cut or filled up to six digits. */
  function FractionMicros(fraction: string): nat {
    NumeralValue(PadRight(if |fraction| > 6 then fraction[..6] else fraction, 6))
  }

  /** The time the fields stand for. */
  function Instant(f: Fields): Time {
    TimeGm(f.year, f.month - 1, f.day, f.hour, f.minute, f.second) * MICROS + FractionMicros(f.fraction)
  }

  /** `fromIso8601`. A field whose directive is not reached stays zero. */
  function FromIso8601(s: string): Time {
    Instant(FieldsOf(Scan(FORMAT, 0, s)))
  }

  /** The same, as the source does it: the fields edited in place, the fraction cut and then filled in a loop. */
  method ParseTimestamp(s: string) returns (t: Time)
    ensures t == FromIso8601(s)
  {
    var tm := FieldsOf(Scan(FORMAT, 0, s));
    var year, month := tm.year, tm.month;
    year := year - 1900;
    month := month - 1;
    var fraction := CutOrFill(tm.fraction);
    t := TimeGm(year + 1900, month, tm.day, tm.hour, tm.minute, tm.second) * MICROS + NumeralValue(fraction);
  }

  /** Lines 289-297: six digits of fraction. */
  method CutOrFill(digits: string) returns (fraction: string)
    ensures NumeralValue(fraction) == FractionMicros(digits)
  {
    fraction := digits;
    if |fraction| > 6 {
      fraction := fraction[..6];
    }
    ghost var cut := fraction;
    while |fraction| < 6
      invariant |fraction| <= 6 && PadRight(fraction, 6) == PadRight(cut, 6)
    {
      fraction := fraction + "0";
    }
  }

  /* ---- reading what was written ---- */

  lemma {:induction false} LeadingDigitsOf(d: string, rest: string, width: nat)
    requires AllDigits(d) && |d| <= width && (|d| == width || rest == "" || !IsDigit(rest[0]))
    ensures LeadingDigits(d + rest, width) == |d|
  {
    if d == [] {
      assert d + rest == rest;
    } else {
      assert (d + rest)[1..] == d[1..] + rest;
      LeadingDigitsOf(d[1..], rest, width - 1);
    }
  }

  lemma ScanIntegerOf(d: string, rest: string)
    requires AllDigits(d) && d != ""
    ensures ScanInteger(d + rest, |d|) == Some((NumeralValue(d), rest))
  {
    var s := d + rest;
    assert SkipSpace(s) == s;
    LeadingDigitsOf(d, rest, |d|);
    assert s[..|d|] == d && s[|d|..] == rest;
  }

  lemma ScanNumber(format: seq<Directive>, i: nat, d: string, rest: string)
    requires i < |format| && format[i] == Integer(|d|) && d != "" && AllDigits(d)
    ensures Scan(format, i, d + rest) == More(Number(NumeralValue(d)), Scan(format, i + 1, rest))
  {
    ScanIntegerOf(d, rest);
  }

  lemma ScanLiteral(format: seq<Directive>, i: nat, c: char, rest: string)
    requires i < |format| && format[i] == Literal(c)
    ensures Scan(format, i, [c] + rest) == Scan(format, i + 1, rest)
  {
    assert ([c] + rest)[1..] == rest;
  }

  /** A number and the literal after it. */
  lemma ScanField(format: seq<Directive>, i: nat, d: string, c: char, rest: string)
    requires i + 1 < |format| && format[i] == Integer(|d|) && d != "" && AllDigits(d) && format[i + 1] == Literal(c)
    ensures Scan(format, i, d + ([c] + rest)) == More(Number(NumeralValue(d)), Scan(format, i + 2, rest))
  {
    ScanNumber(format, i, d, [c] + rest);
    ScanLiteral(format, i + 1, c, rest);
  }

  lemma ScanFraction(format: seq<Directive>, i: nat, d: string, c: char)
    requires i + 2 == |format| && format[i] == Digits(9) && d != "" && |d| <= 9 && AllDigits(d) && format[i + 1] == Literal(c) && !IsDigit(c)
    ensures Scan(format, i, d + [c]) == More(Chars(d), Stop)
  {
    LeadingDigitsOf(d, [c], 9);
    var s := d + [c];
    assert s[..|d|] == d && s[|d|..] == [c];
    assert [c] == [c] + "";
    ScanLiteral(format, i + 1, c, "");
  }

  predicate IsField(s: string, width: nat) {
    |s| == width && AllDigits(s)
  }

  /** One more field in front of a text whose items are known. */
  lemma ScanOneMore(i: nat, d: string, c: char, rest: string, items: Items)
    requires i + 1 < |FORMAT| && FORMAT[i] == Integer(|d|) && d != "" && AllDigits(d) && FORMAT[i + 1] == Literal(c)
    requires Scan(FORMAT, i + 2, rest) == items
    ensures Scan(FORMAT, i, d + ([c] + rest)) == More(Number(NumeralValue(d)), items)
  {
    ScanField(FORMAT, i, d, c, rest);
  }

  function ClockText(hour: string, minute: string, second: string, fraction: string): string {
    hour + (":" + (minute + (":" + (second + ("." + (fraction + "Z"))))))
  }

  function ClockItems(hour: int, minute: int, second: int, fraction: string): Items {
    More(Number(hour), More(Number(minute), More(Number(second), More(Chars(fraction), Stop))))
  }

  lemma ScanSecond(second: string, fraction: string)
    requires IsField(second, 2) && 1 <= |fraction| <= 9 && AllDigits(fraction)
    ensures Scan(FORMAT, 10, second + ("." + (fraction + "Z"))) == More(Number(NumeralValue(second)), More(Chars(fraction), Stop))
  {
    ScanFraction(FORMAT, 12, fraction, 'Z');
    ScanOneMore(10, second, '.', fraction + "Z", More(Chars(fraction), Stop));
  }

  lemma ScanClock(hour: string, minute: string, second: string, fraction: string)
    requires IsField(hour, 2) && IsField(minute, 2) && IsField(second, 2) && 1 <= |fraction| <= 9 && AllDigits(fraction)
    ensures Scan(FORMAT, 6, ClockText(hour, minute, second, fraction))
         == ClockItems(NumeralValue(hour), NumeralValue(minute), NumeralValue(second), fraction)
  {
    var rest := second + ("." + (fraction + "Z"));
    var s := More(Number(NumeralValue(second)), More(Chars(fraction), Stop));
    ScanSecond(second, fraction);
    ScanOneMore(8, minute, ':', rest, s);
    ScanOneMore(6, hour, ':', minute + (":" + rest), More(Number(NumeralValue(minute)), s));
  }

  function StampItems(year: int, month: int, day: int, clock: Items): Items {
    More(Number(year), More(Number(month), More(Number(day), clock)))
  }

  lemma ScanDay(day: string, clock: string, items: Items)
    requires IsField(day, 2) && Scan(FORMAT, 6, clock) == items
    ensures Scan(FORMAT, 4, day + ("T" + clock)) == More(Number(NumeralValue(day)), items)
  {
    ScanOneMore(4, day, 'T', clock, items);
  }

  lemma ScanMonth(month: string, rest: string, items: Items)
    requires IsField(month, 2) && Scan(FORMAT, 4, rest) == items
    ensures Scan(FORMAT, 2, month + ("-" + rest)) == More(Number(NumeralValue(month)), items)
  {
    ScanOneMore(2, month, '-', rest, items);
  }

  lemma ScanYear(year: string, rest: string, items: Items)
    requires IsField(year, 4) && Scan(FORMAT, 2, rest) == items
    ensures Scan(FORMAT, 0, year + ("-" + rest)) == More(Number(NumeralValue(year)), items)
  {
    ScanOneMore(0, year, '-', rest, items);
  }

  lemma ScanDate(year: string, month: string, day: string, clock: string, items: Items)
    requires IsField(year, 4) && IsField(month, 2) && IsField(day, 2) && Scan(FORMAT, 6, clock) == items
    ensures Scan(FORMAT, 0, year + ("-" + (month + ("-" + (day + ("T" + clock))))))
         == StampItems(NumeralValue(year), NumeralValue(month), NumeralValue(day), items)
  {
    var rest, d := day + ("T" + clock), More(Number(NumeralValue(day)), items);
    ScanDay(day, clock, items);
    ScanMonth(month, rest, d);
    ScanYear(year, month + ("-" + rest), More(Number(NumeralValue(month)), d));
  }

  lemma ScanStamp(year: string, month: string, day: string, hour: string, minute: string, second: string, fraction: string)
    requires IsField(year, 4) && IsField(month, 2) && IsField(day, 2) && IsField(hour, 2) && IsField(minute, 2) && IsField(second, 2)
    requires 1 <= |fraction| <= 9 && AllDigits(fraction)
    ensures Scan(FORMAT, 0, Stamp(year, month, day, hour, minute, second, fraction))
         == StampItems(NumeralValue(year), NumeralValue(month), NumeralValue(day),
                       ClockItems(NumeralValue(hour), NumeralValue(minute), NumeralValue(second), fraction))
  {
    ScanClock(hour, minute, second, fraction);
    ScanDate(year, month, day, ClockText(hour, minute, second, fraction),
             ClockItems(NumeralValue(hour), NumeralValue(minute), NumeralValue(second), fraction));
  }

  /* ---- fractions ---- */

  lemma {:induction false} PadRightValue(s: string, width: nat)
    requires |s| <= width
    ensures NumeralValue(PadRight(s, width)) == NumeralValue(s) * Pow10(width - |s|)
    decreases width - |s|
  {
    if |s| < width {
      PadRightValue(s + "0", width);
      assert (s + "0")[..|s|] == s;
      TenTimes(NumeralValue(s), Pow10(width - |s| - 1));
    }
  }

  lemma TenTimes(v: nat, p: nat)
    ensures (10 * v) * p == v * (10 * p)
  {
  }

  lemma {:induction false} PowersAdd(a: nat, b: nat)
    ensures Pow10(a + b) == Pow10(a) * Pow10(b)
    decreases b
  {
    if b > 0 {
      PowersAdd(a, b - 1);
      TenTimes(Pow10(a), Pow10(b - 1));
    }
  }

  lemma OneMoreTime(a: nat, b: nat, p: nat)
    requires a < b
    ensures a * p + p <= b * p
  {
    Distributes(a, b - a, p);
    Distributes(b - a - 1, 1, p);
    NotNegative(b - a - 1, p);
  }

  lemma Distributes(a: int, d: int, p: int)
    ensures (a + d) * p == a * p + d * p
  {
  }

  lemma NotNegative(a: nat, p: nat)
    ensures a * p >= 0
  {
  }

  lemma QuotientUnique(p: nat, q: nat, r: nat, q': nat, r': nat)
    requires r < p && r' < p && q * p + r == q' * p + r'
    ensures q == q'
  {
    if q < q' {
      OneMoreTime(q, q', p);
    } else if q' < q {
      OneMoreTime(q', q, p);
    }
  }

  lemma FloorOfCut(front: nat, back: nat, p: nat)
    requires back < p
    ensures (front * p + back) / p == front
  {
    var n := front * p + back;
    Divides(n, p);
    QuotientUnique(p, front, back, n / p, n % p);
  }

  lemma Divides(n: nat, p: nat)
    requires p > 0
    ensures n == (n / p) * p + n % p && 0 <= n % p < p
  {
  }

  lemma CancelFactor(v: nat, p: nat, q: nat)
    requires p > 0 && q > 0
    ensures (v * q) / (p * q) == v / p
  {
    var d, r := v / p, v % p;
    assert v == p * d + r;
    assert v * q == d * (p * q) + r * q;
    assert r * q < p * q;
    FloorOfCut(d, r * q, p * q);
  }

  /** A fraction of one to nine digits counts its value in microseconds, rounded down. */
  lemma FractionRoundsDown(fraction: string)
    requires 1 <= |fraction| <= 9
    ensures FractionMicros(fraction) == NumeralValue(fraction) * MICROS / Pow10(|fraction|)
  {
    assert Pow10(6) == MICROS;
    if |fraction| <= 6 {
      PadRightValue(fraction, 6);
      PowersAdd(|fraction|, 6 - |fraction|);
      FillUp(NumeralValue(fraction), Pow10(|fraction|), Pow10(6 - |fraction|));
    } else {
      var front, back := fraction[..6], fraction[6..];
      assert fraction == front + back;
      NumeralConcat(front, back);
      NumeralBound(back);
      PowersAdd(|back|, 6);
      FloorOfCut(NumeralValue(front), NumeralValue(back), Pow10(|back|));
      CancelFactor(NumeralValue(fraction), Pow10(|back|), MICROS);
    }
  }

  lemma FillUp(v: nat, p: nat, q: nat)
    requires p > 0
    ensures v * (p * q) / p == v * q
  {
    assert v * (p * q) == (v * q) * p + 0;
    FloorOfCut(v * q, 0, p);
  }

  /* ---- whole timestamps ---- */

  lemma ItemFields(year: int, month: int, day: int, hour: int, minute: int, second: int, fraction: string)
    ensures FieldsOf(StampItems(year, month, day, ClockItems(hour, minute, second, fraction)))
         == Fields(year, month, day, hour, minute, second, fraction)
  {
  }

  /** The time the fields name, the fraction rounded down to microseconds. */
  function RoundedDown(f: Fields): Time
    requires |f.fraction| >= 1
  {
    TimeGm(f.year, f.month - 1, f.day, f.hour, f.minute, f.second) * MICROS + NumeralValue(f.fraction) * MICROS / Pow10(|f.fraction|)
  }

  /** Reading a timestamp with a fraction of one to nine digits gives the time its fields name, rounded down
      to microseconds. */
  lemma ReadsInstant(year: string, month: string, day: string, hour: string, minute: string, second: string, fraction: string, f: Fields)
    requires IsField(year, 4) && IsField(month, 2) && IsField(day, 2) && IsField(hour, 2) && IsField(minute, 2) && IsField(second, 2)
    requires 1 <= |fraction| <= 9 && AllDigits(fraction)
    requires f == Fields(NumeralValue(year), NumeralValue(month), NumeralValue(day),
                         NumeralValue(hour), NumeralValue(minute), NumeralValue(second), fraction)
    ensures FromIso8601(Stamp(year, month, day, hour, minute, second, fraction)) == RoundedDown(f)
  {
    ReadsFields(year, month, day, hour, minute, second, fraction);
    InstantOf(f);
  }

  lemma ReadsFields(year: string, month: string, day: string, hour: string, minute: string, second: string, fraction: string)
    requires IsField(year, 4) && IsField(month, 2) && IsField(day, 2) && IsField(hour, 2) && IsField(minute, 2) && IsField(second, 2)
    requires 1 <= |fraction| <= 9 && AllDigits(fraction)
    ensures FieldsOf(Scan(FORMAT, 0, Stamp(year, month, day, hour, minute, second, fraction)))
         == Fields(NumeralValue(year), NumeralValue(month), NumeralValue(day),
                   NumeralValue(hour), NumeralValue(minute), NumeralValue(second), fraction)
  {
    ScanStamp(year, month, day, hour, minute, second, fraction);
    ItemFields(NumeralValue(year), NumeralValue(month), NumeralValue(day),
               NumeralValue(hour), NumeralValue(minute), NumeralValue(second), fraction);
  }

  lemma InstantOf(f: Fields)
    requires 1 <= |f.fraction| <= 9
    ensures Instant(f) == RoundedDown(f)
  {
    FractionRoundsDown(f.fraction);
  }

  lemma {:induction false} DecimalLength(n: nat, k: nat)
    requires k >= 1
    ensures n < Pow10(k) ==> |Decimal(n)| <= k
    ensures n >= Pow10(k) ==> |Decimal(n)| > k
    decreases k
  {
    if n >= 10 {
      assert |Decimal(n)| == |Decimal(n / 10)| + 1;
      if k > 1 {
        assert Pow10(k) == 10 * Pow10(k - 1);
        DecimalLength(n / 10, k - 1);
      }
    } else {
      assert Pow10(k) == 10 * Pow10(k - 1);
    }
  }

  lemma YearTenThousand()
    ensures DaysBeforeYear(10000) - EPOCH_DAYS == 2_932_897
  {
  }

  /** The day number tells which side of the year 10000 a date is on. */
  lemma FourDigitYears(n: nat)
    ensures DateOf(n).year <= 9999 <==> n < 2_932_897
  {
    CalendarInverse(n, DateOf(n));
    DayPlaced(DateOf(n));
    YearTenThousand();
    if DateOf(n).year <= 9999 {
      YearsAscend(DateOf(n).year + 1, 10000);
    } else {
      YearsAscend(10000, DateOf(n).year);
    }
  }

  lemma ClockSplits(seconds: nat)
    ensures var clock := seconds % 86400;
            && (seconds / 86400) * 86400 + clock / 3600 * 3600 + clock / 60 % 60 * 60 + clock % 60 == seconds
            && clock / 3600 < 100 && clock / 60 % 60 < 100 && clock % 60 < 100
  {
  }

  lemma MonthIndex(year: int, month: int, day: int, hour: int, minute: int, second: int)
    requires 1 <= month <= 12
    ensures TimeGm(year, month - 1, day, hour, minute, second) == DayNumber(year, month, day) * 86400 + hour * 3600 + minute * 60 + second
  {
  }

  lemma FourDigits(n: nat)
    ensures 1000 <= n <= 9999 ==> |Decimal(n)| == 4
    ensures n >= 10000 ==> |Decimal(n)| >= 5
  {
    assert Pow10(3) == 1000;
    assert Pow10(4) == 10000;
    DecimalLength(n, 3);
    DecimalLength(n, 4);
  }

  lemma TwoDigits(n: nat)
    requires n < 100
    ensures IsField(Padded(n, 2), 2) && NumeralValue(Padded(n, 2)) == n
  {
    assert Pow10(2) == 100;
    PaddedValue(n, 2);
  }

  lemma SixDigits(us: nat)
    requires us < MICROS
    ensures IsField(Padded(us, 6), 6) && NumeralValue(Padded(us, 6)) * MICROS / Pow10(6) == us
  {
    assert Pow10(6) == MICROS;
    PaddedValue(us, 6);
  }

  lemma FieldsInstant(d: Date, hour: nat, minute: nat, second: nat, us: nat, fraction: string)
    requires 1 <= d.month <= 12 && |fraction| == 6 && NumeralValue(fraction) * MICROS / Pow10(6) == us
    ensures RoundedDown(Fields(d.year, d.month, d.day, hour, minute, second, fraction))
         == (DayNumber(d.year, d.month, d.day) * 86400 + hour * 3600 + minute * 60 + second) * MICROS + us
  {
    MonthIndex(d.year, d.month, d.day, hour, minute, second);
  }

  /** A date and a time of day written out and read back. */
  lemma WrittenRead(d: Date, hour: nat, minute: nat, second: nat, us: nat)
    requires ValidDate(d) && 1970 <= d.year <= 9999 && hour < 100 && minute < 100 && second < 100 && us < MICROS
    ensures FromIso8601(Stamp(Decimal(d.year), Padded(d.month, 2), Padded(d.day, 2),
                              Padded(hour, 2), Padded(minute, 2), Padded(second, 2), Padded(us, 6)))
         == RoundedDown(Fields(d.year, d.month, d.day, hour, minute, second, Padded(us, 6)))
  {
    FourDigits(d.year);
    TwoDigits(d.month);
    TwoDigits(d.day);
    TwoDigits(hour);
    TwoDigits(minute);
    TwoDigits(second);
    ReadsInstant(Decimal(d.year), Padded(d.month, 2), Padded(d.day, 2), Padded(hour, 2), Padded(minute, 2), Padded(second, 2), Padded(us, 6),
                 Fields(d.year, d.month, d.day, hour, minute, second, Padded(us, 6)));
  }

  lemma EarlyYears(t: nat)
    requires t < END_OF_9999
    ensures FromIso8601(ToIso8601(t)) == t
  {
    var seconds := t / MICROS;
    var d := DateOf(seconds / 86400);
    FourDigitYears(seconds / 86400);
    CalendarInverse(seconds / 86400, d);
    var clock := seconds % 86400;
    ClockSplits(seconds);
    WrittenRead(d, clock / 3600, clock / 60 % 60, clock % 60, t % MICROS);
    SixDigits(t % MICROS);
    FieldsInstant(d, clock / 3600, clock / 60 % 60, clock % 60, t % MICROS, Padded(t % MICROS, 6));
  }

  /** Of a year of five digits or more only the first four are read, and nothing after them. */
  lemma LongYearStops(year: string, rest: string)
    requires AllDigits(year) && |year| >= 5
    ensures Scan(FORMAT, 0, year + rest) == More(Number(NumeralValue(year[..4])), Stop) && NumeralValue(year[..4]) <= 9999
  {
    var front, back := year[..4], year[4..] + rest;
    assert year + rest == front + back;
    ScanNumber(FORMAT, 0, front, back);
    NumeralBound(front);
    assert Pow10(4) == 10000;
  }

  /** November's last day of the year before last, which is where such a text leads. */
  lemma MonthBefore(v: int)
    ensures TimeGm(v, -1, 0, 0, 0, 0) == DayNumber(v - 1, 12, 0) * 86400
  {
  }

  lemma StoppedEarly(v: nat)
    requires v <= 9999
    ensures TimeGm(v, -1, 0, 0, 0, 0) * MICROS < END_OF_9999
  {
    MonthBefore(v);
    NextYear(v - 1);
    YearIsItsMonths(v - 1);
    YearsAscend(v, 10000);
    YearTenThousand();
  }

  lemma LateYears(t: nat)
    requires t >= END_OF_9999
    ensures FromIso8601(ToIso8601(t)) < t
  {
    var d := DateOf(t / MICROS / 86400);
    FourDigitYears(t / MICROS / 86400);
    FourDigits(d.year);
    var text, year := ToIso8601(t), Decimal(d.year);
    assert text == year + text[|year|..];
    LongYearRead(year, text[|year|..]);
  }

  lemma LongYearRead(year: string, rest: string)
    requires AllDigits(year) && |year| >= 5
    ensures FromIso8601(year + rest) < END_OF_9999
  {
    LongYearStops(year, rest);
    StoppedEarly(NumeralValue(year[..4]));
    NoFraction();
  }

  lemma NoFraction()
    ensures FractionMicros("") == 0
  {
    PadRightValue("", 6);
  }

  /** Timestamps round-trip exactly from 1970 through 9999, to the microsecond; a later year is misread. */
  lemma TimestampRoundTrip(t: nat)
    ensures FromIso8601(ToIso8601(t)) == t <==> t < END_OF_9999
  {
    if t < END_OF_9999 {
      EarlyYears(t);
    } else {
      LateYears(t);
    }
  }
}
