/** The few JavaScript runtime values and primitives the calorie core relies on:
    optional object keys, numbers that may be NaN, truthiness, the ordering of
    strings, `Number.prototype.toString` on non-negative integers and
    `String.prototype.padStart`. */
module JsValues {

  /** An object key that is either present with a value or absent. */
  datatype Option<+T> = None | Some(value: T)

  /** A JavaScript number as far as this model needs one: a finite value or NaN.
      (Infinities are not modelled.) */
  datatype Num = Real(value: real) | NaN

  /** JavaScript truthiness of a number: neither 0 nor NaN. */
  predicate Truthy(n: Num) {
    n.Real? && n.value != 0.0
  }

  /** JavaScript `n <= 0`: every comparison involving NaN is false. */
  predicate AtMostZero(n: Num) {
    n.Real? && n.value <= 0.0
  }

  /** JavaScript `n > 0`. */
  predicate Positive(n: Num) {
    n.Real? && n.value > 0.0
  }

  /** JavaScript `n * k` for a finite constant `k`; NaN stays NaN. */
  function Times(n: Num, k: real): (r: Num)
    ensures r.NaN? <==> n.NaN?
  {
    match n
    case NaN => NaN
    case Real(v) => Real(v * k)
  }

  /** JavaScript `a <= b` on strings: lexicographic order of the characters
      (here Unicode code points), a proper prefix coming first. JavaScript
      compares UTF-16 code units, which orders the same way below U+10000 and
      so on every "HH:MM" string. */
  predicate StrLe(a: string, b: string)
    decreases |a|
  {
    a == [] || (b != [] && (a[0] < b[0] || (a[0] == b[0] && StrLe(a[1..], b[1..]))))
  }

  /** JavaScript `a < b` on strings. */
  predicate StrLt(a: string, b: string) {
    StrLe(a, b) && a != b
  }

  lemma {:induction false} StrLeReflexive(a: string)
    ensures StrLe(a, a)
    decreases |a|
  {
    if a != [] {
      StrLeReflexive(a[1..]);
    }
  }

  lemma {:induction false} StrLeTransitive(a: string, b: string, c: string)
    requires StrLe(a, b) && StrLe(b, c)
    ensures StrLe(a, c)
    decreases |a|
  {
    if a != [] {
      assert b != [] && c != [];
      if a[0] == b[0] && b[0] == c[0] {
        StrLeTransitive(a[1..], b[1..], c[1..]);
      }
    }
  }

  lemma {:induction false} StrLeAntisymmetric(a: string, b: string)
    requires StrLe(a, b) && StrLe(b, a)
    ensures a == b
    decreases |a|
  {
    if a != [] {
      assert b != [] && a[0] == b[0];
      StrLeAntisymmetric(a[1..], b[1..]);
      assert a == [a[0]] + a[1..] && b == [b[0]] + b[1..];
    } else {
      assert b == [];
    }
  }

  lemma {:induction false} StrLeTotal(a: string, b: string)
    ensures StrLe(a, b) || StrLe(b, a)
    decreases |a|
  {
    if a != [] && b != [] && a[0] == b[0] {
      StrLeTotal(a[1..], b[1..]);
    }
  }

  /** On strings, JavaScript's `a < b` is exactly the negation of `b <= a`,
      so `t >= s` may be read as `s <= t`. */
  lemma StrLtIsNotReverseLe(a: string, b: string)
    ensures StrLt(a, b) <==> !StrLe(b, a)
  {
    StrLeTotal(a, b);
    if StrLe(b, a) && StrLe(a, b) {
      StrLeAntisymmetric(a, b);
    }
    if a == b {
      StrLeReflexive(a);
    }
  }

  /** The character for a decimal digit. */
  function DigitChar(d: nat): (c: char)
    requires d < 10
    ensures '0' <= c <= '9' && c as int - '0' as int == d
  {
    ('0' as int + d) as char
  }

  /** `n.toString()` for a non-negative integer below 10^21 (which covers
      every millisecond timestamp): its decimal digits, most significant
      first, without leading zeros. From 10^21 on JavaScript switches to
      exponent form, which is not modelled. */
  function NumberToString(n: nat): (s: string)
    ensures |s| >= 1
    ensures n < 10 <==> |s| == 1
    decreases n
  {
    if n < 10 then [DigitChar(n)] else NumberToString(n / 10) + [DigitChar(n % 10)]
  }

  /** `s.padStart(width, fill)` with a one-character fill string: the fill
      is prefixed until the string is `width` long. */
  function PadStart(s: string, width: nat, fill: char): (r: string)
    decreases width - |s|
  {
    if |s| >= width then s else PadStart([fill] + s, width, fill)
  }

  /** Padding keeps the string as a suffix, fills only in front of it, and
      reaches exactly `width` characters unless the string is already longer. */
  lemma {:induction false} PadStartShape(s: string, width: nat, fill: char)
    ensures var r := PadStart(s, width, fill);
      && |r| == (if |s| >= width then |s| else width)
      && r[|r| - |s|..] == s
      && forall i :: 0 <= i < |r| - |s| ==> r[i] == fill
    decreases width - |s|
  {
    if |s| < width {
      PadStartShape([fill] + s, width, fill);
      var r := PadStart(s, width, fill);
      assert r[|r| - |s| - 1..] == [fill] + s;
      assert r[|r| - |s|..] == r[|r| - |s| - 1..][1..];
    }
  }

  /** Two-digit zero padding of a number below 100 gives its tens digit and
      its units digit. */
  lemma {:induction false} PadTwoDigits(n: nat)
    requires n < 100
    ensures PadStart(NumberToString(n), 2, '0') == [DigitChar(n / 10), DigitChar(n % 10)]
  {
    if n < 10 {
      assert NumberToString(n) == [DigitChar(n)];
      assert DigitChar(0) == '0';
    } else {
      assert NumberToString(n / 10) == [DigitChar(n / 10)];
    }
  }
}
