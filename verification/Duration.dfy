/** ISO 8601 durations: the calculator's and the validator's languages, their values, and the lease rule. */
module Duration {
  import opened Prelude
  import opened Text

  const MAX_INT64: nat := 0x7FFF_FFFF_FFFF_FFFF

  /* ---- the grammar ---- */

  predicate Numeral(s: string) {
    s != [] && AllDigits(s)
  }

  /** One optional designator of a pattern, `(\d+X)?`. */
  function Part(digits: Option<string>, letter: char): string {
    match digits
    case None => ""
    case Some(d) => d + [letter]
  }

  predicate PartOk(digits: Option<string>) {
    digits.Some? ==> Numeral(digits.value)
  }

  datatype TimeParts = TimeParts(hours: Option<string>, minutes: Option<string>, seconds: Option<string>) {
    predicate Ok() {
      PartOk(hours) && PartOk(minutes) && PartOk(seconds)
    }
    function Text(): string {
      Part(hours, 'H') + (Part(minutes, 'M') + Part(seconds, 'S'))
    }
  }

  datatype DateParts = DateParts(years: Option<string>, months: Option<string>, weeks: Option<string>) {
    predicate Ok() {
      PartOk(years) && PartOk(months) && PartOk(weeks)
    }
    function Text(): string {
      Part(years, 'Y') + (Part(months, 'M') + Part(weeks, 'W'))
    }
  }

  function ClockText(time: Option<TimeParts>): string {
    if time.None? then "" else "T" + time.value.Text()
  }

  /** What a duration pattern matches: a `P`, date designators, and a `T` followed by time designators. */
  datatype Parts = Parts(date: DateParts, days: Option<string>, time: Option<TimeParts>) {
    predicate Ok() {
      date.Ok() && PartOk(days) && (time.Some? ==> time.value.Ok())
    }
    function TailText(): string {
      Part(days, 'D') + ClockText(time)
    }
    function Text(): string {
      "P" + (date.Text() + TailText())
    }
  }

  const NO_DATE := DateParts(None, None, None)

  /** The language of the lease calculator's pattern: no years, months or weeks. */
  ghost predicate InCalculatorLanguage(s: string) {
    exists p: Parts :: p.Ok() && p.date == NO_DATE && p.Text() == s
  }

  /** The language of the validator's pattern: neither the `P` nor the `T` may be the last character. */
  ghost predicate InValidatorLanguage(s: string) {
    s != "P" && exists p: Parts :: p.Ok() && p.Text() == s && (p.time.Some? ==> p.time.value.Text() != "")
  }

  /* ---- deterministic matching ---- */

  /** Length of the run of digits a text starts with. */
  function DigitRun(s: string): (n: nat)
    ensures n <= |s|
  {
    if s == [] || !IsDigit(s[0]) then 0 else 1 + DigitRun(s[1..])
  }

  /** Match one optional designator at the front of a text; the second component is what is left. */
  function Take(s: string, letter: char): (Option<string>, string) {
    var n := DigitRun(s);
    if 0 < n < |s| && s[n] == letter then (Some(s[..n]), s[n + 1..]) else (None, s)
  }

  function TakeTime(s: string): (TimeParts, string) {
    var (h, s1) := Take(s, 'H');
    var (m, s2) := Take(s1, 'M');
    var (sec, s3) := Take(s2, 'S');
    (TimeParts(h, m, sec), s3)
  }

  function TakeDate(s: string): (DateParts, string) {
    var (y, s1) := Take(s, 'Y');
    var (m, s2) := Take(s1, 'M');
    var (w, s3) := Take(s2, 'W');
    (DateParts(y, m, w), s3)
  }

  function TakeClock(s: string): Option<Option<TimeParts>> {
    if s == "" then Some(None)
    else if s[0] == 'T' then
      var (t, rest) := TakeTime(s[1..]);
      if rest == "" then Some(Some(t)) else None
    else None
  }

  function TakeTail(s: string): Option<(Option<string>, Option<TimeParts>)> {
    var (d, rest) := Take(s, 'D');
    match TakeClock(rest)
    case None => None
    case Some(t) => Some((d, t))
  }

  /** std::regex_match with the calculator's pattern. */
  function MatchCalculator(s: string): Option<Parts> {
    if s == "" || s[0] != 'P' then None
    else
      match TakeTail(s[1..])
      case None => None
      case Some((d, t)) => Some(Parts(NO_DATE, d, t))
  }

  /** std::regex_match with the validator's pattern; `isValidDuration`. */
  function MatchValidator(s: string): Option<Parts> {
    if |s| < 2 || s[0] != 'P' then None
    else
      var (date, rest) := TakeDate(s[1..]);
      match TakeTail(rest)
      case None => None
      case Some((d, t)) =>
        if t.Some? && t.value.Text() == "" then None else Some(Parts(date, d, t))
  }

  predicate IsValidDuration(s: string) {
    MatchValidator(s).Some?
  }

  /* ---- what is matched is a decomposition of the text ---- */

  lemma {:induction false} DigitRunIsDigits(s: string)
    ensures AllDigits(s[..DigitRun(s)])
  {
    if s != [] && IsDigit(s[0]) {
      var n := DigitRun(s[1..]);
      DigitRunIsDigits(s[1..]);
      assert s[..n + 1] == [s[0]] + s[1..][..n];
    }
  }

  lemma TakeSound(s: string, letter: char)
    ensures PartOk(Take(s, letter).0)
    ensures Part(Take(s, letter).0, letter) + Take(s, letter).1 == s
  {
    var n := DigitRun(s);
    DigitRunIsDigits(s);
    if 0 < n < |s| && s[n] == letter {
      assert s == s[..n] + [letter] + s[n + 1..];
    }
  }

  /** Three designators taken one after the other, and what is left, make up the text. */
  lemma TakeThreeSound(s: string, a: char, b: char, c: char)
    ensures var (x, s1) := Take(s, a);
            var (y, s2) := Take(s1, b);
            var (z, s3) := Take(s2, c);
            PartOk(x) && PartOk(y) && PartOk(z) && Part(x, a) + (Part(y, b) + Part(z, c)) + s3 == s
  {
    var (x, s1) := Take(s, a);
    var (y, s2) := Take(s1, b);
    var (z, s3) := Take(s2, c);
    TakeSound(s, a);
    TakeSound(s1, b);
    TakeSound(s2, c);
    Regroup(Part(x, a), Part(y, b), Part(z, c), s3);
  }

  lemma Regroup(x: string, y: string, z: string, rest: string)
    ensures x + (y + z) + rest == x + (y + (z + rest))
  {
    assert (y + z) + rest == y + (z + rest);
    assert x + (y + z) + rest == x + ((y + z) + rest);
  }

  lemma TakeTimeSound(s: string)
    ensures TakeTime(s).0.Ok() && TakeTime(s).0.Text() + TakeTime(s).1 == s
  {
    TakeThreeSound(s, 'H', 'M', 'S');
  }

  lemma TakeDateSound(s: string)
    ensures TakeDate(s).0.Ok() && TakeDate(s).0.Text() + TakeDate(s).1 == s
  {
    TakeThreeSound(s, 'Y', 'M', 'W');
  }

  lemma TakeTailSound(s: string)
    requires TakeTail(s).Some?
    ensures var (d, t) := TakeTail(s).value;
            PartOk(d) && (t.Some? ==> t.value.Ok()) && Part(d, 'D') + ClockText(t) == s
  {
    TakeSound(s, 'D');
    TakeClockSound(Take(s, 'D').1);
  }

  lemma TakeClockSound(s: string)
    requires TakeClock(s).Some?
    ensures var t := TakeClock(s).value; (t.Some? ==> t.value.Ok()) && ClockText(t) == s
  {
    if s != "" {
      TakeTimeSound(s[1..]);
      assert s == "T" + s[1..];
      var t := TakeTime(s[1..]).0;
      assert t.Text() + "" == t.Text();
    }
  }

  lemma MatchCalculatorSound(s: string)
    requires MatchCalculator(s).Some?
    ensures var p := MatchCalculator(s).value; p.Ok() && p.date == NO_DATE && p.Text() == s
  {
    TakeTailSound(s[1..]);
    var p := MatchCalculator(s).value;
    assert p.date.Text() == "" && p.TailText() == s[1..];
  }

  lemma MatchValidatorSound(s: string)
    requires MatchValidator(s).Some?
    ensures var p := MatchValidator(s).value;
            p.Ok() && p.Text() == s && (p.time.Some? ==> p.time.value.Text() != "") && s != "P"
  {
    var (date, rest) := TakeDate(s[1..]);
    TakeDateSound(s[1..]);
    TakeTailSound(rest);
    var p := MatchValidator(s).value;
    assert p.date.Text() + p.TailText() == s[1..];
  }

  lemma MatchersSound(s: string)
    ensures MatchCalculator(s).Some? ==>
              var p := MatchCalculator(s).value; p.Ok() && p.date == NO_DATE && p.Text() == s
    ensures MatchValidator(s).Some? ==>
              var p := MatchValidator(s).value;
              p.Ok() && p.Text() == s && (p.time.Some? ==> p.time.value.Text() != "") && s != "P"
  {
    if MatchCalculator(s).Some? {
      MatchCalculatorSound(s);
    }
    if MatchValidator(s).Some? {
      MatchValidatorSound(s);
    }
  }

  /* ---- matching finds the one decomposition there is ---- */

  lemma {:induction false} DigitRunOf(d: string, rest: string)
    requires AllDigits(d) && (rest == "" || !IsDigit(rest[0]))
    ensures DigitRun(d + rest) == |d|
  {
    if d == [] {
      assert d + rest == rest;
    } else {
      assert (d + rest)[1..] == d[1..] + rest;
      DigitRunOf(d[1..], rest);
    }
  }

  /** The character after the leading digits, if the text starts with a designator. */
  function Designator(s: string): Option<char> {
    var n := DigitRun(s);
    if 0 < n < |s| then Some(s[n]) else None
  }

  lemma DesignatorOf(digits: Option<string>, letter: char, rest: string)
    requires PartOk(digits) && !IsDigit(letter)
    ensures Designator(Part(digits, letter) + rest) == if digits.Some? then Some(letter) else Designator(rest)
  {
    match digits
    case None => assert Part(digits, letter) + rest == rest;
    case Some(d) =>
      assert Part(digits, letter) + rest == d + ([letter] + rest);
      DigitRunOf(d, [letter] + rest);
  }

  /** A designator is taken exactly when it is there, whatever follows it (unless it is the same letter). */
  lemma TakeOf(digits: Option<string>, letter: char, rest: string)
    requires PartOk(digits) && !IsDigit(letter)
    requires Designator(rest) != Some(letter)
    ensures Take(Part(digits, letter) + rest, letter) == (digits, rest)
  {
    match digits
    case None => assert Part(digits, letter) + rest == rest;
    case Some(d) =>
      var s := Part(digits, letter) + rest;
      assert s == d + ([letter] + rest);
      DigitRunOf(d, [letter] + rest);
      assert s[..|d|] == d && s[|d| + 1..] == rest;
  }

  lemma TakeTimeOf(t: TimeParts)
    requires t.Ok()
    ensures TakeTime(t.Text()) == (t, "")
  {
    var s := Part(t.seconds, 'S');
    assert s + "" == s;
    var ms := Part(t.minutes, 'M') + s;
    DesignatorOf(t.seconds, 'S', "");
    DesignatorOf(t.minutes, 'M', s);
    TakeOf(t.hours, 'H', ms);
    TakeOf(t.minutes, 'M', s);
    TakeOf(t.seconds, 'S', "");
  }

  lemma TakeClockOf(time: Option<TimeParts>)
    requires time.Some? ==> time.value.Ok()
    ensures TakeClock(ClockText(time)) == Some(time)
    ensures Designator(ClockText(time)) == None
  {
    if time.Some? {
      TakeTimeOf(time.value);
      assert ClockText(time)[1..] == time.value.Text();
    }
  }

  lemma TakeTailOf(p: Parts)
    requires p.Ok()
    ensures TakeTail(p.TailText()) == Some((p.days, p.time))
    ensures Designator(p.TailText()) in {None, Some('D')}
  {
    var rest := ClockText(p.time);
    TakeClockOf(p.time);
    TakeOf(p.days, 'D', rest);
    DesignatorOf(p.days, 'D', rest);
  }

  lemma TakeDateOf(d: DateParts, rest: string)
    requires d.Ok() && Designator(rest) in {None, Some('D')}
    ensures TakeDate(d.Text() + rest) == (d, rest)
  {
    var w := Part(d.weeks, 'W') + rest;
    var mw := Part(d.months, 'M') + w;
    assert d.Text() + rest == Part(d.years, 'Y') + mw;
    DesignatorOf(d.weeks, 'W', rest);
    DesignatorOf(d.months, 'M', w);
    TakeOf(d.years, 'Y', mw);
    TakeOf(d.months, 'M', w);
    TakeOf(d.weeks, 'W', rest);
  }

  lemma MatchValidatorOf(p: Parts)
    requires p.Ok() && p.Text() != "P" && (p.time.Some? ==> p.time.value.Text() != "")
    ensures MatchValidator(p.Text()) == Some(p)
  {
    assert p.Text()[1..] == p.date.Text() + p.TailText();
    TakeTailOf(p);
    TakeDateOf(p.date, p.TailText());
  }

  lemma MatchCalculatorOf(p: Parts)
    requires p.Ok() && p.date == NO_DATE
    ensures MatchCalculator(p.Text()) == Some(p)
  {
    TakeTailOf(p);
    assert p.date.Text() == "" && p.Text()[1..] == p.TailText();
  }

  /** A text the validator accepts is announced time designators only if it has some, however it is read. */
  lemma AcceptedHasTime(p: Parts)
    requires p.Ok() && IsValidDuration(p.Text())
    ensures p.Text() != "P" && (p.time.Some? ==> p.time.value.Text() != "")
  {
    MatchersSound(p.Text());
    if p.time.Some? && p.time.value.Text() == "" {
      TextEndsInT(p);
      TextEndsInT(MatchValidator(p.Text()).value);
    }
  }

  /** The matchers decide the two languages, and the decomposition of a text is unique. */
  lemma MatchersDecide(s: string)
    ensures MatchCalculator(s).Some? <==> InCalculatorLanguage(s)
    ensures IsValidDuration(s) <==> InValidatorLanguage(s)
    ensures forall p: Parts :: p.Ok() && p.date == NO_DATE && p.Text() == s ==> MatchCalculator(s) == Some(p)
    ensures forall p: Parts :: p.Ok() && p.Text() == s && IsValidDuration(s) ==> MatchValidator(s) == Some(p)
  {
    MatchersSound(s);
    forall p: Parts | p.Ok() && p.date == NO_DATE && p.Text() == s ensures MatchCalculator(s) == Some(p) {
      MatchCalculatorOf(p);
    }
    forall p: Parts | p.Ok() && p.Text() == s && s != "P" && (p.time.Some? ==> p.time.value.Text() != "")
      ensures MatchValidator(s) == Some(p)
    {
      MatchValidatorOf(p);
    }
    forall p: Parts | p.Ok() && p.Text() == s && IsValidDuration(s) ensures MatchValidator(s) == Some(p) {
      AcceptedHasTime(p);
      MatchValidatorOf(p);
    }
  }

  /** A text ends in `T` exactly when its time designators are announced but missing. */
  lemma TextEndsInT(p: Parts)
    requires p.Ok()
    ensures p.Text()[|p.Text()| - 1] == 'T' <==> p.time.Some? && p.time.value.Text() == ""
  {
    var s := p.Text();
    if p.time.Some? && p.time.value.Text() != "" {
      var t := p.time.value.Text();
      assert t[|t| - 1] in {'H', 'M', 'S'};
      assert s[|s| - 1] == t[|t| - 1];
    } else if p.time.None? && p.TailText() != "" {
      assert p.TailText() == p.days.value + "D";
    } else if p.time.None? && p.date.Text() != "" {
      var d := p.date.Text();
      assert d[|d| - 1] in {'Y', 'M', 'W'};
      assert s[|s| - 1] == d[|d| - 1];
    } else if p.time.Some? {
      assert p.TailText()[|p.TailText()| - 1] == 'T';
    }
  }

  /* ---- values ---- */

  function Value(digits: Option<string>): nat {
    if digits.Some? then NumeralValue(digits.value) else 0
  }

  /** The number of seconds a matched text stands for. */
  function Total(p: Parts): nat {
    86400 * Value(p.days)
    + (if p.time.None? then 0
       else 3600 * Value(p.time.value.hours) + 60 * Value(p.time.value.minutes) + Value(p.time.value.seconds))
  }

  /** Undefined: signed overflow in the arithmetic, for which C++ gives no meaning. */
  datatype ParseResult = Seconds(count: nat) | Rejected | Undefined

  /** A 64-bit signed product or sum of non-negative operands. */
  function Checked(n: Option<nat>): Option<nat> {
    if n.Some? && n.value <= MAX_INT64 then n else None
  }

  function Times(a: Option<nat>, b: nat): Option<nat> {
    if a.None? then None else Checked(Some(a.value * b))
  }

  function Plus(a: Option<nat>, b: Option<nat>): Option<nat> {
    if a.None? || b.None? then None else Checked(Some(a.value + b.value))
  }

  /** std::stoll on a matched group; an absent group counts zero, a numeral over 63 bits throws. */
  function ParsePart(digits: Option<string>): Option<nat> {
    Checked(Some(Value(digits)))
  }

  /** The sum as the source writes it, every operation on 64-bit signed integers. */
  function WeightedSum(days: Option<nat>, hours: Option<nat>, minutes: Option<nat>, seconds: Option<nat>): Option<nat> {
    Plus(Plus(Plus(seconds, Times(minutes, 60)), Times(Times(hours, 60), 60)),
         Times(Times(Times(days, 24), 60), 60))
  }

  lemma WeightedSumExact(days: nat, hours: nat, minutes: nat, seconds: nat)
    ensures WeightedSum(Some(days), Some(hours), Some(minutes), Some(seconds))
         == Checked(Some(86400 * days + 3600 * hours + 60 * minutes + seconds))
  {
    assert Times(Some(minutes), 60) == Checked(Some(60 * minutes));
    assert Times(Times(Some(hours), 60), 60) == Checked(Some(3600 * hours));
    assert Times(Times(Times(Some(days), 24), 60), 60) == Checked(Some(86400 * days));
  }

  function PartsSeconds(p: Parts): ParseResult {
    var time := if p.time.Some? then p.time.value else TimeParts(None, None, None);
    var days := ParsePart(p.days);
    var hours := ParsePart(time.hours);
    var minutes := ParsePart(time.minutes);
    var seconds := ParsePart(time.seconds);
    if days.None? || hours.None? || minutes.None? || seconds.None? then Rejected
    else
      var total := WeightedSum(days, hours, minutes, seconds);
      if total.None? then Undefined
      else if total.value == 0 then Rejected
      else Seconds(total.value)
  }

  function ParseSeconds(text: string): ParseResult {
    match MatchCalculator(text)
    case None => Rejected
    case Some(p) => PartsSeconds(p)
  }

  /** `calculateLeaseDuration`: a third of the expected time, at least a second; None when it throws. */
  function LeaseSeconds(text: string): Option<nat> {
    match ParseSeconds(text)
    case Seconds(n) => Some(if n / 3 < 1 then 1 else n / 3)
    case _ => None
  }

  /** Each numeral of the text fits 63 bits by itself. */
  predicate PartsFit(p: Parts) {
    && Value(p.days) <= MAX_INT64
    && (p.time.Some? ==>
          Value(p.time.value.hours) <= MAX_INT64 && Value(p.time.value.minutes) <= MAX_INT64 && Value(p.time.value.seconds) <= MAX_INT64)
  }

  lemma PartsExact(p: Parts)
    ensures PartsSeconds(p) ==
            if !PartsFit(p) || Total(p) == 0 then Rejected else if Total(p) > MAX_INT64 then Undefined else Seconds(Total(p))
  {
    var t := if p.time.Some? then p.time.value else TimeParts(None, None, None);
    WeightedSumExact(Value(p.days), Value(t.hours), Value(t.minutes), Value(t.seconds));
  }

  /** Parsing gives the exact weighted sum of the parts exactly when that sum is positive and fits, and no
      step on the way overflows then. The arithmetic overflows, which C++ leaves undefined, exactly when every
      part fits by itself and the sum does not; everything else is refused. */
  lemma ParseExact(p: Parts)
    requires p.Ok() && p.date == NO_DATE
    ensures 0 < Total(p) <= MAX_INT64 <==> ParseSeconds(p.Text()).Seconds?
    ensures 0 < Total(p) <= MAX_INT64 ==> ParseSeconds(p.Text()) == Seconds(Total(p))
    ensures ParseSeconds(p.Text()) == Undefined <==> Total(p) > MAX_INT64 && PartsFit(p)
    ensures ParseSeconds(p.Text()) == Rejected <==> Total(p) == 0 || !PartsFit(p)
  {
    assert MatchCalculator(p.Text()) == Some(p) by { MatchCalculatorOf(p); }
    PartsExact(p);
  }

  /** The transport prints a count of seconds so that the parser reads it back. */
  function TransportText(count: nat): string {
    "PT" + Decimal(count) + "S"
  }

  lemma TransportRoundTrip(count: nat)
    requires 0 < count <= MAX_INT64
    ensures ParseSeconds(TransportText(count)) == Seconds(count)
  {
    var digits := Decimal(count);
    var p := Parts(NO_DATE, None, Some(TimeParts(None, None, Some(digits))));
    assert p.Text() == TransportText(count) by {
      assert p.time.value.Text() == digits + "S";
      assert p.date.Text() == "";
      assert p.TailText() == "T" + (digits + "S");
      assert "P" + ("T" + (digits + "S")) == "PT" + digits + "S";
    }
    assert Total(p) == count;
    ParseExact(p);
  }

  /** The lease is a third of the total, never below a second, and a longer total never shortens it. */
  lemma LeaseRule(p: Parts, q: Parts)
    requires p.Ok() && q.Ok() && p.date == q.date == NO_DATE
    requires 0 < Total(p) <= Total(q) <= MAX_INT64
    ensures LeaseSeconds(p.Text()) == Some(if Total(p) < 3 then 1 else Total(p) / 3)
    ensures LeaseSeconds(q.Text()).Some? && LeaseSeconds(p.Text()).value <= LeaseSeconds(q.Text()).value
    ensures 1 <= LeaseSeconds(p.Text()).value <= Total(p)
  {
    ParseExact(p);
    ParseExact(q);
  }

  /** Which texts the calculator accepts among those the validator accepts, and the other way round: the
      validator also admits years, months, weeks and a zero total, and refuses a trailing `T`. */
  lemma ValidatorAgainstCalculator(text: string)
    ensures ParseSeconds(text).Seconds? ==> (IsValidDuration(text) <==> text[|text| - 1] != 'T')
    ensures IsValidDuration(text) ==>
              var p := MatchValidator(text).value;
              ParseSeconds(text).Seconds? <==> p.date == NO_DATE && 0 < Total(p) <= MAX_INT64
  {
    MatchersDecide(text);
    MatchersSound(text);
    if ParseSeconds(text).Seconds? {
      var p := MatchCalculator(text).value;
      ParseExact(p);
      TextEndsInT(p);
    }
    if IsValidDuration(text) {
      var p := MatchValidator(text).value;
      if p.date == NO_DATE {
        ParseExact(p);
      }
    }
  }

  /** A text the validator passes and the calculator refuses: it names years. */
  lemma YearsGap()
    ensures IsValidDuration("P1Y") && LeaseSeconds("P1Y").None?
  {
    var y := Parts(DateParts(Some("1"), None, None), None, None);
    assert y.Text() == "P1Y";
    MatchValidatorOf(y);
    ValidatorAgainstCalculator("P1Y");
  }

  /** Another one: its total is zero. */
  lemma ZeroGap()
    ensures IsValidDuration("PT0S") && LeaseSeconds("PT0S").None?
  {
    var z := Parts(NO_DATE, None, Some(TimeParts(None, None, Some("0"))));
    assert z.Text() == "PT0S" by {
      assert z.TailText() == "T0S" && z.date.Text() == "";
    }
    assert Total(z) == 0 by {
      assert NumeralValue("0") == 0;
    }
    ParseExact(z);
    MatchValidatorOf(z);
  }

  /** And one the calculator accepts and the validator refuses: nothing follows its `T`. */
  lemma TrailingTGap()
    ensures LeaseSeconds("P1DT") == Some(28800) && !IsValidDuration("P1DT")
  {
    var t := Parts(NO_DATE, Some("1"), Some(TimeParts(None, None, None)));
    assert t.Text() == "P1DT" by {
      assert t.TailText() == "1DT" && t.date.Text() == "";
    }
    assert NumeralValue("1") == 1;
    OneDay(t);
    ValidatorAgainstCalculator("P1DT");
  }

  lemma OneDay(p: Parts)
    requires p.Ok() && p.date == NO_DATE && Value(p.days) == 1 && p.time == Some(TimeParts(None, None, None))
    ensures ParseSeconds(p.Text()) == Seconds(86400) && LeaseSeconds(p.Text()) == Some(28800)
  {
    ParseExact(p);
  }

  function DaysText(n: nat): string {
    "P" + (Decimal(n) + "D")
  }

  lemma DaysRead(n: nat, p: Parts)
    requires p == Parts(NO_DATE, Some(Decimal(n)), None)
    ensures p.Ok() && p.Text() == DaysText(n) && Total(p) == 86400 * n && (PartsFit(p) <==> n <= MAX_INT64)
  {
    assert p.date.Text() == "" && p.TailText() == Decimal(n) + "D";
  }

  /** The validator accepts any number of days. The calculator adds up their seconds in 63 bits, refuses none
      and numerals over 63 bits, and overflows on all the numbers in between. */
  lemma DaysOverflow(n: nat)
    ensures IsValidDuration(DaysText(n))
    ensures ParseSeconds(DaysText(n)) ==
            if n == 0 || n > MAX_INT64 then Rejected else if 86400 * n > MAX_INT64 then Undefined else Seconds(86400 * n)
  {
    var p := Parts(NO_DATE, Some(Decimal(n)), None);
    DaysRead(n, p);
    ParseExact(p);
    DaysValid(p);
  }

  lemma DaysValid(p: Parts)
    requires p.Ok() && p.date == NO_DATE && p.days.Some? && p.time.None?
    ensures IsValidDuration(p.Text())
  {
    assert p.TailText() == p.days.value + "D" && p.Text()[1..] == p.TailText();
    MatchValidatorOf(p);
  }

  /** Such a number: its seconds are 128 more than a multiple of 2^64, so arithmetic that wraps around would
      make a lease of 42 seconds out of it. */
  lemma OverflowGap(n: nat)
    requires n == 94_368_760_191_893_771
    ensures IsValidDuration(DaysText(n)) && ParseSeconds(DaysText(n)) == Undefined
    ensures 86400 * n == 442 * 0x1_0000_0000_0000_0000 + 128
  {
    assert n <= MAX_INT64 < 86400 * n;
    OverflowedDays(n);
  }

  lemma OverflowedDays(n: nat)
    requires n <= MAX_INT64 < 86400 * n
    ensures IsValidDuration(DaysText(n)) && ParseSeconds(DaysText(n)) == Undefined
  {
    DaysOverflow(n);
  }
}
