/** The display helpers of src/lib/utils.ts: prices in cents and elapsed
    time since a timestamp in milliseconds. */
module Format {
  import opened Numerals

  const FreeLabel := "Free \U{2014} just take it"

  /** `Number.prototype.toFixed(0)` of `cents / 100` for an integer `cents`.
      The integer of least distance is taken, the larger one on a tie; the
      sign is set aside first, so halves round away from zero and a value in
      (-0.5, 0) prints as "-0". */
  function FixedZero(cents: int): (r: string)
    ensures |r| >= 1 && (r[0] == '-' <==> cents < 0)
    ensures var digits := if cents < 0 then r[1..] else r;
      && |digits| >= 1
      && (forall i :: 0 <= i < |digits| ==> IsDigit(digits[i]))
      && (digits[0] == '0' ==> digits == "0")
      && var n := DigitsValue(digits);
         n * 100 - 50 <= Abs(cents) < n * 100 + 50
  {
    var n := (Abs(cents) + 50) / 100;
    NatToStringValue(n);
    if cents >= 0 then NatToString(n)
    else
      var r := "-" + NatToString(n);
      assert r[1..] == NatToString(n);
      r
  }

  function Abs(x: int): nat {
    if x < 0 then -x else x
  }

  /** `formatPrice`. */
  function FormatPrice(cents: int): (r: string)
    ensures cents == 0 <==> r == FreeLabel
    ensures cents != 0 ==> |r| >= 2 && r[0] == '$'
  {
    if cents == 0 then FreeLabel
    else
      var r := "$" + FixedZero(cents);
      assert r[0] != FreeLabel[0];
      r
  }

  /** A non-zero price prints as "$" and the whole number of dollars nearest
      to it, a half rounding up: reading the digits back gives a dollar
      amount within half a dollar of the price. */
  lemma PositivePrice(cents: int)
    requires cents > 0
    ensures var r := FormatPrice(cents);
      && |r| >= 2 && r[0] == '$'
      && (forall i :: 1 <= i < |r| ==> IsDigit(r[i]))
      && var dollars := DigitsValue(r[1..]);
         dollars * 100 - 50 <= cents < dollars * 100 + 50
  {
    var n := (cents + 50) / 100;
    NatToStringValue(n);
    assert FormatPrice(cents)[1..] == NatToString(n);
  }

  /** A negative price prints as "$-" and the nearest whole number of dollars
      of its magnitude, a half rounding away from zero. */
  lemma NegativePrice(cents: int)
    requires cents < 0
    ensures var r := FormatPrice(cents);
      && |r| >= 3 && r[..2] == "$-"
      && (forall i :: 2 <= i < |r| ==> IsDigit(r[i]))
      && var dollars := DigitsValue(r[2..]);
         dollars * 100 - 50 <= -cents < dollars * 100 + 50
  {
    var n := (-cents + 50) / 100;
    NatToStringValue(n);
    assert FormatPrice(cents)[2..] == NatToString(n);
  }

  /** Two prices print alike exactly when they round to the same dollars. */
  lemma SamePrintedPrice(a: int, b: int)
    requires a > 0 && b > 0
    ensures FormatPrice(a) == FormatPrice(b) <==> (a + 50) / 100 == (b + 50) / 100
  {
    if FormatPrice(a) == FormatPrice(b) {
      assert FormatPrice(a)[1..] == NatToString((a + 50) / 100);
      assert FormatPrice(b)[1..] == NatToString((b + 50) / 100);
      NatToStringInjective((a + 50) / 100, (b + 50) / 100);
    }
  }

  const MinuteMs := 60000
  const HourMs := 3600000
  const DayMs := 86400000

  /** What `formatTimeAgo` returns: a relative phrase, or the locale's
      rendering of the date, which is not modelled beyond the timestamp. */
  datatype Ago = Relative(text: string) | LocaleDate(timestamp: int)

  /** `${n}m ago` and its hour and day forms: never "Just now". */
  function Phrase(n: nat, unit: char): (r: string)
    ensures r != "Just now"
  {
    var r := NatToString(n) + [unit] + " ago";
    assert r[|r| - 1] == 'o';
    r
  }

  /** `formatTimeAgo`, with `Date.now()` passed in as `now`. `Math.floor` of a
      quotient by a positive constant is Dafny's `/` on `int`. */
  function FormatTimeAgo(timestamp: int, now: int): (r: Ago)
    ensures r == Relative("Just now") <==> now - timestamp < MinuteMs
    ensures r.Relative? <==> now - timestamp < 7 * DayMs
    ensures r.LocaleDate? ==> r.timestamp == timestamp
  {
    var diff := now - timestamp;
    var minutes := diff / MinuteMs;
    var hours := diff / HourMs;
    var days := diff / DayMs;
    if minutes < 1 then Relative("Just now")
    else if minutes < 60 then Relative(Phrase(minutes, 'm'))
    else if hours < 24 then Relative(Phrase(hours, 'h'))
    else if days < 7 then Relative(Phrase(days, 'd'))
    else LocaleDate(timestamp)
  }

  /** From one minute up to an hour: "Nm ago" with N whole minutes, 1..59. */
  lemma MinutesAgo(timestamp: int, now: int)
    requires MinuteMs <= now - timestamp < HourMs
    ensures exists n: nat ::
      && 1 <= n <= 59 && n * MinuteMs <= now - timestamp < (n + 1) * MinuteMs
      && FormatTimeAgo(timestamp, now) == Relative(NatToString(n) + "m ago")
  {
    var n := (now - timestamp) / MinuteMs;
    assert 1 <= n <= 59 && n * MinuteMs <= now - timestamp < (n + 1) * MinuteMs;
    assert FormatTimeAgo(timestamp, now) == Relative(NatToString(n) + "m ago");
  }

  /** From one hour up to a day: "Nh ago" with N whole hours, 1..23. */
  lemma HoursAgo(timestamp: int, now: int)
    requires HourMs <= now - timestamp < DayMs
    ensures exists n: nat ::
      && 1 <= n <= 23 && n * HourMs <= now - timestamp < (n + 1) * HourMs
      && FormatTimeAgo(timestamp, now) == Relative(NatToString(n) + "h ago")
  {
    var n := (now - timestamp) / HourMs;
    assert 1 <= n <= 23 && n * HourMs <= now - timestamp < (n + 1) * HourMs;
    assert FormatTimeAgo(timestamp, now) == Relative(NatToString(n) + "h ago");
  }

  /** From one day up to a week: "Nd ago" with N whole days, 1..6. */
  lemma DaysAgo(timestamp: int, now: int)
    requires DayMs <= now - timestamp < 7 * DayMs
    ensures exists n: nat ::
      && 1 <= n <= 6 && n * DayMs <= now - timestamp < (n + 1) * DayMs
      && FormatTimeAgo(timestamp, now) == Relative(NatToString(n) + "d ago")
  {
    var n := (now - timestamp) / DayMs;
    assert 1 <= n <= 6 && n * DayMs <= now - timestamp < (n + 1) * DayMs;
    assert FormatTimeAgo(timestamp, now) == Relative(NatToString(n) + "d ago");
  }
}
