/** UTC timestamps with microseconds, printed in the form of section 5.6 of RFC 3339. */
module Timestamps {
  import opened Outcomes
  import opened Text

  datatype Instant = Instant(year: nat, month: nat, day: nat, hour: nat, minute: nat, second: nat, microsecond: nat) {

    /** The ranges `datetime` enforces. */
    predicate Valid() {
      && 1 <= year <= 9999 && 1 <= month <= 12 && 1 <= day <= DaysIn(year, month)
      && hour < 24 && minute < 60 && second < 60 && microsecond < 1_000_000
    }

    /** Two UTC datetimes compare field by field. */
    predicate After(that: Instant) {
      || year > that.year
      || (year == that.year && (month > that.month
      || (month == that.month && (day > that.day
      || (day == that.day && (hour > that.hour
      || (hour == that.hour && (minute > that.minute
      || (minute == that.minute && (second > that.second
      || (second == that.second && microsecond > that.microsecond)))))))))))
    }
  }

  type Timestamp = t: Instant | t.Valid() witness Instant(1, 1, 1, 0, 0, 0, 0)

  predicate IsLeap(year: nat) {
    year % 4 == 0 && (year % 100 != 0 || year % 400 == 0)
  }

  function DaysIn(year: nat, month: nat): (d: nat)
    ensures 28 <= d <= 31
  {
    if month == 2 then (if IsLeap(year) then 29 else 28)
    else if month in {4, 6, 9, 11} then 30
    else 31
  }

  /** `format_utc_timestamp`: ISO format with microseconds and a final Z. */
  function Format(t: Timestamp): (s: string)
    ensures |s| == 27
  {
    Part(t.year, 4, '-', Part(t.month, 2, '-', Part(t.day, 2, 'T', Part(t.hour, 2, ':',
    Part(t.minute, 2, ':', Part(t.second, 2, '.', Part(t.microsecond, 6, 'Z', "")))))))
  }

  /** One zero-padded field, its separator, and the rest. */
  function Part(n: nat, width: nat, separator: char, rest: string): (s: string)
    ensures |s| == width + 1 + |rest|
  {
    Padded(n, width, Decimal) + [separator] + rest
  }

  /** The number written at s[i..j], or a value no field accepts. */
  function Field(s: string, i: nat, j: nat): nat
    requires i <= j <= |s|
  {
    var v := DigitsValue(s[i..j], Decimal);
    if v.Some? then v.value else 1_000_000
  }

  /** `parse_utc_timestamp`: a text is accepted only in the spelling the printer gives it. */
  function Parse(s: string): (r: Option<Timestamp>)
    ensures r.Some? ==> Format(r.value) == s
  {
    if |s| != 27 then None else
    var t := Instant(Field(s, 0, 4), Field(s, 5, 7), Field(s, 8, 10), Field(s, 11, 13),
                     Field(s, 14, 16), Field(s, 17, 19), Field(s, 20, 26));
    if t.Valid() && Format(t) == s then Some(t) else None
  }

  lemma FieldOf(s: string, i: nat, j: nat, n: nat)
    requires i <= j <= |s| && s[i..j] == Padded(n, j - i, Decimal)
    requires n < Decimal.Power(j - i)
    ensures Field(s, i, j) == n
  {
    PaddedRoundTrip(n, j - i, Decimal);
  }

  lemma DecimalPowers()
    ensures Decimal.Power(2) == 100 && Decimal.Power(4) == 10_000 && Decimal.Power(6) == 1_000_000
  {
    assert Decimal.Power(2) == 100;
    assert Decimal.Power(4) == 100 * Decimal.Power(2);
    assert Decimal.Power(6) == 100 * Decimal.Power(4);
  }

  /** Every timestamp is read back from its printed form. */
  lemma FormatRoundTrip(t: Timestamp)
    ensures Parse(Format(t)) == Some(t)
  {
    hide Padded, DigitsValue;
    var s := Format(t);
    DecimalPowers();
    FieldOf(s, 0, 4, t.year);
    FieldOf(s, 5, 7, t.month);
    FieldOf(s, 8, 10, t.day);
    FieldOf(s, 11, 13, t.hour);
    FieldOf(s, 14, 16, t.minute);
    FieldOf(s, 17, 19, t.second);
    FieldOf(s, 20, 26, t.microsecond);
  }

  lemma FormatIsPrintable(t: Timestamp)
    ensures forall c :: c in Format(t) ==> '-' <= c <= 'Z'
  {
    PaddedUsesNumerals(t.year, 4, Decimal);
    PaddedUsesNumerals(t.month, 2, Decimal);
    PaddedUsesNumerals(t.day, 2, Decimal);
    PaddedUsesNumerals(t.hour, 2, Decimal);
    PaddedUsesNumerals(t.minute, 2, Decimal);
    PaddedUsesNumerals(t.second, 2, Decimal);
    PaddedUsesNumerals(t.microsecond, 6, Decimal);
  }

  lemma PartOrder(m: nat, n: nat, width: nat, separator: char, x: string, y: string)
    requires m < Decimal.Power(width) && n < Decimal.Power(width)
    ensures Less(Part(m, width, separator, x), Part(n, width, separator, y)) <==> m < n || (m == n && Less(x, y))
  {
    var p, q := Padded(m, width, Decimal), Padded(n, width, Decimal);
    assert Part(m, width, separator, x) == p + ([separator] + x);
    assert Part(n, width, separator, y) == q + ([separator] + y);
    LessOfConcat(p, [separator] + x, q, [separator] + y);
    LessOfConcat([separator], x, [separator], y);
    PaddedOrder(m, n, width, Decimal);
    PaddedInjective(m, n, width, Decimal);
  }

  /** The printed forms sort like the instants. */
  lemma FormatOrder(t: Timestamp, u: Timestamp)
    ensures Less(Format(u), Format(t)) <==> t.After(u)
  {
    DecimalPowers();
    var us, ut := Part(u.microsecond, 6, 'Z', ""), Part(t.microsecond, 6, 'Z', "");
    PartOrder(u.microsecond, t.microsecond, 6, 'Z', "", "");
    var ss, st := Part(u.second, 2, '.', us), Part(t.second, 2, '.', ut);
    PartOrder(u.second, t.second, 2, '.', us, ut);
    var ms, mt := Part(u.minute, 2, ':', ss), Part(t.minute, 2, ':', st);
    PartOrder(u.minute, t.minute, 2, ':', ss, st);
    var hs, ht := Part(u.hour, 2, ':', ms), Part(t.hour, 2, ':', mt);
    PartOrder(u.hour, t.hour, 2, ':', ms, mt);
    var ds, dt := Part(u.day, 2, 'T', hs), Part(t.day, 2, 'T', ht);
    PartOrder(u.day, t.day, 2, 'T', hs, ht);
    PartOrder(u.month, t.month, 2, '-', ds, dt);
    PartOrder(u.year, t.year, 4, '-', Part(u.month, 2, '-', ds), Part(t.month, 2, '-', dt));
  }
}
