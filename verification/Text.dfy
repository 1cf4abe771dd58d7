/** Strings as Python sees them: code-point order and fixed-width numerals. */
module Text {
  import opened Outcomes

  /** `a < b` for Python strings: the first differing code point decides, a proper prefix is smaller. */
  predicate Less(a: string, b: string) {
    if b == [] then false
    else if a == [] then true
    else a[0] < b[0] || (a[0] == b[0] && Less(a[1..], b[1..]))
  }

  lemma {:induction false} LessIsIrreflexive(a: string)
    ensures !Less(a, a)
  {
    if a != [] { LessIsIrreflexive(a[1..]); }
  }

  lemma {:induction false} LessIsTransitive(a: string, b: string, c: string)
    requires Less(a, b) && Less(b, c)
    ensures Less(a, c)
  {
    if a != [] && a[0] == b[0] == c[0] { LessIsTransitive(a[1..], b[1..], c[1..]); }
  }

  lemma {:induction false} LessIsTotal(a: string, b: string)
    ensures Less(a, b) || a == b || Less(b, a)
  {
    if a != [] && b != [] && a[0] == b[0] {
      LessIsTotal(a[1..], b[1..]);
      assert a == [a[0]] + a[1..] && b == [b[0]] + b[1..];
    }
  }

  /** With prefixes of one length the prefix decides first, then the rest. */
  lemma {:induction false} LessOfConcat(p: string, x: string, q: string, y: string)
    requires |p| == |q|
    ensures Less(p + x, q + y) <==> Less(p, q) || (p == q && Less(x, y))
  {
    if p == [] {
      assert p + x == x && q + y == y;
    } else {
      assert (p + x)[1..] == p[1..] + x && (q + y)[1..] == q[1..] + y;
      LessOfConcat(p[1..], x, q[1..], y);
      assert p == [p[0]] + p[1..] && q == [q[0]] + q[1..];
    }
  }

  const NUMERALS: string := "0123456789abcdef"

  datatype Radix = Decimal | Hexadecimal {
    function Times(n: nat): nat { if Decimal? then 10 * n else 16 * n }

    function High(n: nat): nat { if Decimal? then n / 10 else n / 16 }

    function Low(n: nat): (d: nat)
      ensures d < Times(1) <= 16
    {
      if Decimal? then n % 10 else n % 16
    }

    function Power(width: nat): (r: nat)
      ensures r >= 1
    {
      if width == 0 then 1 else Times(Power(width - 1))
    }
  }

  /** The value of one digit; hexadecimal letters of either case are accepted, as `int(text, 16)` does. */
  function DigitValue(c: char): (d: Option<nat>)
    ensures d.Some? ==> d.value < 16
  {
    if '0' <= c <= '9' then Some((c - '0') as int)
    else if 'a' <= c <= 'f' then Some((c - 'a') as int + 10)
    else if 'A' <= c <= 'F' then Some((c - 'A') as int + 10)
    else None
  }

  /** `n` zero-padded to exactly `width` digits (its low digits when it does not fit). */
  function Padded(n: nat, width: nat, radix: Radix): (s: string)
    ensures |s| == width
  {
    if width == 0 then "" else Padded(radix.High(n), width - 1, radix) + [NUMERALS[radix.Low(n)]]
  }

  /** The value of a run of digits, or None when some character is not a digit of that radix. */
  function DigitsValue(s: string, radix: Radix): Option<nat> {
    if s == [] then Some(0)
    else
      var high := DigitsValue(s[..|s| - 1], radix);
      var low := DigitValue(s[|s| - 1]);
      if high.Some? && low.Some? && low.value < radix.Times(1)
      then Some(radix.Times(high.value) + low.value)
      else None
  }

  lemma NumeralsAreDigits(d: nat)
    requires d < 16
    ensures DigitValue(NUMERALS[d]) == Some(d)
    ensures '0' <= NUMERALS[d] <= '9' || 'a' <= NUMERALS[d] <= 'f'
  {
    assert NUMERALS[d] == "0123456789abcdef"[d];
  }

  lemma NumeralsAreOrdered(d: nat, e: nat)
    requires d < 16 && e < 16
    ensures NUMERALS[d] < NUMERALS[e] <==> d < e
    ensures NUMERALS[d] == NUMERALS[e] <==> d == e
  {
    NumeralsAreDigits(d);
    NumeralsAreDigits(e);
  }

  /** Appending one digit to a numeral that reads as `high`. */
  lemma DigitsValueSnoc(digits: string, high: nat, d: nat, radix: Radix)
    requires DigitsValue(digits, radix) == Some(high) && d < radix.Times(1)
    ensures DigitsValue(digits + [NUMERALS[d]], radix) == Some(radix.Times(high) + d)
  {
    NumeralsAreDigits(d);
    var s := digits + [NUMERALS[d]];
    assert s[..|s| - 1] == digits;
  }

  /** A number is made of its high part and its low digit. */
  lemma HighAndLow(n: nat, width: nat, radix: Radix)
    requires width > 0 && n < radix.Power(width)
    ensures radix.High(n) < radix.Power(width - 1) && radix.Times(radix.High(n)) + radix.Low(n) == n
  {}

  /** Reading back a padded numeral gives the number. */
  lemma {:induction false} PaddedRoundTrip(n: nat, width: nat, radix: Radix)
    requires n < radix.Power(width)
    ensures DigitsValue(Padded(n, width, radix), radix) == Some(n)
    decreases width
  {
    hide *;
    if width == 0 {
      NothingRead(n, radix);
    } else {
      HighAndLow(n, width, radix);
      PaddedRoundTrip(radix.High(n), width - 1, radix);
      OneMoreRead(n, width, radix);
    }
  }

  lemma NothingRead(n: nat, radix: Radix)
    requires n < radix.Power(0)
    ensures DigitsValue(Padded(n, 0, radix), radix) == Some(n)
  {}

  lemma OneMoreRead(n: nat, width: nat, radix: Radix)
    requires width > 0 && radix.Times(radix.High(n)) + radix.Low(n) == n
    requires DigitsValue(Padded(radix.High(n), width - 1, radix), radix) == Some(radix.High(n))
    ensures DigitsValue(Padded(n, width, radix), radix) == Some(n)
  {
    hide DigitsValue;
    DigitsValueSnoc(Padded(radix.High(n), width - 1, radix), radix.High(n), radix.Low(n), radix);
  }

  lemma PaddedInjective(m: nat, n: nat, width: nat, radix: Radix)
    requires m < radix.Power(width) && n < radix.Power(width)
    ensures Padded(m, width, radix) == Padded(n, width, radix) <==> m == n
  {
    PaddedRoundTrip(m, width, radix);
    PaddedRoundTrip(n, width, radix);
  }

  /** On numerals of one width, text order is numeric order. */
  lemma {:induction false} PaddedOrder(m: nat, n: nat, width: nat, radix: Radix)
    requires m < radix.Power(width) && n < radix.Power(width)
    ensures Less(Padded(m, width, radix), Padded(n, width, radix)) <==> m < n
  {
    if width > 0 {
      HighAndLow(m, width, radix);
      HighAndLow(n, width, radix);
      hide Less, Radix.Power, DigitsValue;
      var p, q := Padded(radix.High(m), width - 1, radix), Padded(radix.High(n), width - 1, radix);
      PaddedOrder(radix.High(m), radix.High(n), width - 1, radix);
      PaddedInjective(radix.High(m), radix.High(n), width - 1, radix);
      LessOfConcat(p, [NUMERALS[radix.Low(m)]], q, [NUMERALS[radix.Low(n)]]);
      NumeralsAreOrdered(radix.Low(m), radix.Low(n));
    }
  }

  /** Every character of a padded numeral is one of the lower-case digits of its radix. */
  lemma {:induction false} PaddedUsesNumerals(n: nat, width: nat, radix: Radix)
    ensures forall i :: 0 <= i < width ==> var c := Padded(n, width, radix)[i]; '0' <= c <= '9' || 'a' <= c <= 'f'
    ensures radix.Decimal? ==> forall i :: 0 <= i < width ==> '0' <= Padded(n, width, radix)[i] <= '9'
  {
    if width > 0 {
      PaddedUsesNumerals(radix.High(n), width - 1, radix);
      NumeralsAreDigits(radix.Low(n));
    }
  }
}
