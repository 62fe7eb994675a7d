/** Times of day as the app writes them: zero-padded 24-hour "HH:MM" strings.
    The eating-window gate compares such strings with JavaScript's string
    ordering; the lemmas here show that on well-formed clock strings this
    ordering is exactly the ordering of the times they denote. */
module TimeOfDay {
  import opened JsValues

  /** `n.toString().padStart(2, '0')`. */
  function Pad2(n: nat): string
    requires n < 100
  {
    PadStart(NumberToString(n), 2, '0')
  }

  /** The "HH:MM" label the settings screen builds for an hour and a minute. */
  function FormatTime(hour: nat, minute: nat): string
    requires hour < 100 && minute < 100
  {
    Pad2(hour) + ":" + Pad2(minute)
  }

  predicate IsDigit(c: char) {
    '0' <= c <= '9'
  }

  function DigitValue(c: char): int {
    c as int - '0' as int
  }

  /** The hour written in the first two characters of a five-character string. */
  function Hour(s: string): int
    requires |s| == 5
  {
    DigitValue(s[0]) * 10 + DigitValue(s[1])
  }

  /** The minute written in the last two characters of a five-character string. */
  function Minute(s: string): int
    requires |s| == 5
  {
    DigitValue(s[3]) * 10 + DigitValue(s[4])
  }

  /** A well-formed 24-hour "HH:MM" reading, as `toTimeString().slice(0, 5)`
      yields and as the time picker offers. */
  predicate IsClock(s: string) {
    && |s| == 5
    && IsDigit(s[0]) && IsDigit(s[1]) && s[2] == ':' && IsDigit(s[3]) && IsDigit(s[4])
    && Hour(s) < 24 && Minute(s) < 60
  }

  /** Minutes since midnight denoted by a clock string. */
  function MinutesOf(s: string): (m: nat)
    requires IsClock(s)
    ensures m < 24 * 60
  {
    Hour(s) * 60 + Minute(s)
  }

  /** The five characters of a formatted time: two hour digits, the colon,
      two minute digits. */
  lemma FormatTimeDigits(hour: nat, minute: nat)
    requires hour < 100 && minute < 100
    ensures FormatTime(hour, minute) ==
      [DigitChar(hour / 10), DigitChar(hour % 10), ':', DigitChar(minute / 10), DigitChar(minute % 10)]
  {
    PadTwoDigits(hour);
    PadTwoDigits(minute);
  }

  /** Formatting a valid hour and minute yields a clock string that denotes
      exactly that time. */
  lemma FormatTimeIsClock(hour: nat, minute: nat)
    requires hour < 24 && minute < 60
    ensures IsClock(FormatTime(hour, minute))
    ensures MinutesOf(FormatTime(hour, minute)) == hour * 60 + minute
  {
    var s := FormatTime(hour, minute);
    FormatTimeDigits(hour, minute);
    assert DigitValue(s[0]) == hour / 10 && DigitValue(s[1]) == hour % 10;
    assert DigitValue(s[3]) == minute / 10 && DigitValue(s[4]) == minute % 10;
    assert Hour(s) == hour && Minute(s) == minute;
  }

  /** One step of the lexicographic comparison at position k. */
  lemma StrLeAt(a: string, b: string, k: nat)
    requires k < |a| && k < |b|
    ensures StrLe(a[k..], b[k..]) <==> (a[k] < b[k] || (a[k] == b[k] && StrLe(a[k + 1..], b[k + 1..])))
  {
    assert a[k..][0] == a[k] && b[k..][0] == b[k];
    assert a[k..][1..] == a[k + 1..] && b[k..][1..] == b[k + 1..];
  }

  /** String order on clock strings is time order: fixed width and zero
      padding make the JavaScript comparison agree with the clock. */
  lemma ClockOrder(a: string, b: string)
    requires IsClock(a) && IsClock(b)
    ensures StrLe(a, b) <==> MinutesOf(a) <= MinutesOf(b)
  {
    assert a[0..] == a && b[0..] == b;
    assert a[5..] == [] && b[5..] == [];
    StrLeAt(a, b, 0);
    StrLeAt(a, b, 1);
    StrLeAt(a, b, 2);
    StrLeAt(a, b, 3);
    StrLeAt(a, b, 4);
  }

  /** The strict form: `a < b` on clock strings iff `a` is the earlier time. */
  lemma ClockOrderStrict(a: string, b: string)
    requires IsClock(a) && IsClock(b)
    ensures StrLt(a, b) <==> MinutesOf(a) < MinutesOf(b)
  {
    StrLtIsNotReverseLe(a, b);
    ClockOrder(b, a);
  }
}
