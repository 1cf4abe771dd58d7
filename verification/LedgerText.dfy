/** The ledger's text, character by character: what is written does not rest on the printer's own definitions. */
module LedgerText {
  import opened Text
  import opened Timestamps
  import opened Uuids
  import opened DeletionLedgers
  import Json

  // ---- digits ----

  lemma TwoDigits(n: nat)
    ensures Padded(n, 2, Decimal) == ['0' + (n / 10 % 10) as char, '0' + (n % 10) as char]
  {
    NumeralOf(n % 10);
    NumeralOf(n / 10 % 10);
    assert Padded(n, 2, Decimal) == Padded(n / 10, 1, Decimal) + [NUMERALS[n % 10]];
    assert Padded(n / 10, 1, Decimal) == Padded(n / 10 / 10, 0, Decimal) + [NUMERALS[n / 10 % 10]];
  }

  lemma NumeralOf(d: nat)
    requires d < 10
    ensures NUMERALS[d] == '0' + d as char
  {
    assert NUMERALS[d] == "0123456789abcdef"[d];
  }

  lemma TwoMoreDigits(n: nat, width: nat)
    ensures Padded(n, width + 2, Decimal)
         == Padded(n / 100, width, Decimal) + ['0' + (n / 10 % 10) as char, '0' + (n % 10) as char]
  {
    NumeralOf(n % 10);
    NumeralOf(n / 10 % 10);
    assert n / 10 / 10 == n / 100;
    assert Padded(n, width + 2, Decimal) == Padded(n / 10, width + 1, Decimal) + [NUMERALS[n % 10]];
    assert Padded(n / 10, width + 1, Decimal) == Padded(n / 100, width, Decimal) + [NUMERALS[n / 10 % 10]];
  }

  lemma FourDigits(n: nat)
    ensures Padded(n, 4, Decimal) == ['0' + (n / 1000 % 10) as char, '0' + (n / 100 % 10) as char,
                                      '0' + (n / 10 % 10) as char, '0' + (n % 10) as char]
  {
    TwoMoreDigits(n, 2);
    TwoDigits(n / 100);
    assert n / 100 / 10 == n / 1000;
  }

  lemma SixDigits(n: nat)
    ensures Padded(n, 6, Decimal) == ['0' + (n / 100_000 % 10) as char, '0' + (n / 10_000 % 10) as char,
                                      '0' + (n / 1000 % 10) as char, '0' + (n / 100 % 10) as char,
                                      '0' + (n / 10 % 10) as char, '0' + (n % 10) as char]
  {
    TwoMoreDigits(n, 4);
    FourDigits(n / 100);
    assert n / 100 / 1000 == n / 100_000 && n / 100 / 100 == n / 10_000 && n / 100 / 10 == n / 1000;
  }

  // ---- what a ledger may hold ----

  /** Version 1, at most ten thousand entries, ids strictly ascending, and no deletion after the coverage time. */
  lemma WellFormedMeans(l: Ledger)
    ensures WellFormed(l) <==>
              && l.version == 1 && |l.deletions| <= 10_000
              && (forall i :: 0 < i < |l.deletions| ==> l.deletions[i - 1].userId < l.deletions[i].userId)
              && (forall i :: 0 <= i < |l.deletions| ==> !l.deletions[i].deletedAt.After(l.coveredThrough))
    ensures MAX_LEDGER_BYTES == 1024 * 1024
  {
    if forall i :: 0 < i < |l.deletions| ==> l.deletions[i - 1].userId < l.deletions[i].userId {
      NeighboursAscend(l.deletions);
    }
  }

  lemma {:induction false} NeighboursAscend(entries: seq<Entry>)
    requires forall i :: 0 < i < |entries| ==> entries[i - 1].userId < entries[i].userId
    ensures Increasing(entries)
  {
    if |entries| > 1 {
      var n := |entries| - 1;
      NeighboursAscend(entries[..n]);
      forall i | 0 <= i < n ensures entries[i].userId < entries[n].userId {
        assert entries[..n][i] == entries[i] && entries[..n][n - 1] == entries[n - 1];
      }
      forall i, j | 0 <= i < j < n ensures entries[i].userId < entries[j].userId {
        assert entries[..n][i] == entries[i] && entries[..n][j] == entries[j];
      }
    }
  }

  // ---- timestamps ----

  /** `YYYY-MM-DDTHH:MM:SS.ffffffZ`: the separators and the places of the fields. */
  lemma FormatPlaces(t: Timestamp)
    ensures var s := Format(t);
      && |s| == 27 && s[4] == '-' && s[7] == '-' && s[10] == 'T' && s[13] == ':' && s[16] == ':' && s[19] == '.'
      && s[26] == 'Z'
      && s[..4] == Padded(t.year, 4, Decimal) && s[5..7] == Padded(t.month, 2, Decimal)
      && s[8..10] == Padded(t.day, 2, Decimal) && s[11..13] == Padded(t.hour, 2, Decimal)
      && s[14..16] == Padded(t.minute, 2, Decimal) && s[17..19] == Padded(t.second, 2, Decimal)
      && s[20..26] == Padded(t.microsecond, 6, Decimal)
  {
    hide Padded;
  }

  /** Every character of a printed timestamp. */
  lemma FormatSpelling(t: Timestamp)
    ensures var s := Format(t);
      && |s| == 27 && s[4] == '-' && s[7] == '-' && s[10] == 'T' && s[13] == ':' && s[16] == ':' && s[19] == '.'
      && s[26] == 'Z'
      && s[..4] == ['0' + (t.year / 1000 % 10) as char, '0' + (t.year / 100 % 10) as char,
                    '0' + (t.year / 10 % 10) as char, '0' + (t.year % 10) as char]
      && s[5..7] == ['0' + (t.month / 10 % 10) as char, '0' + (t.month % 10) as char]
      && s[8..10] == ['0' + (t.day / 10 % 10) as char, '0' + (t.day % 10) as char]
      && s[11..13] == ['0' + (t.hour / 10 % 10) as char, '0' + (t.hour % 10) as char]
      && s[14..16] == ['0' + (t.minute / 10 % 10) as char, '0' + (t.minute % 10) as char]
      && s[17..19] == ['0' + (t.second / 10 % 10) as char, '0' + (t.second % 10) as char]
      && s[20..26] == ['0' + (t.microsecond / 100_000 % 10) as char, '0' + (t.microsecond / 10_000 % 10) as char,
                       '0' + (t.microsecond / 1000 % 10) as char, '0' + (t.microsecond / 100 % 10) as char,
                       '0' + (t.microsecond / 10 % 10) as char, '0' + (t.microsecond % 10) as char]
  {
    hide Padded, Format;
    FormatPlaces(t);
    FourDigits(t.year);
    TwoDigits(t.month);
    TwoDigits(t.day);
    TwoDigits(t.hour);
    TwoDigits(t.minute);
    TwoDigits(t.second);
    SixDigits(t.microsecond);
  }

  /** The days of the months of the Gregorian calendar, as the dates of a timestamp have them. */
  lemma CalendarDays(year: nat, month: nat)
    ensures month in {1, 3, 5, 7, 8, 10, 12} ==> DaysIn(year, month) == 31
    ensures month in {4, 6, 9, 11} ==> DaysIn(year, month) == 30
    ensures DaysIn(year, 2) == 29 <==> year % 400 == 0 || (year % 4 == 0 && year % 100 != 0)
    ensures DaysIn(year, 2) == 28 <==> year % 4 != 0 || (year % 100 == 0 && year % 400 != 0)
  {}

  /** A timestamp is a time of the clock on a day of the calendar. */
  lemma ValidMeans(t: Instant)
    ensures t.Valid() <==>
              && 1 <= t.year <= 9999 && 1 <= t.month <= 12 && 1 <= t.day
              && (t.month in {1, 3, 5, 7, 8, 10, 12} ==> t.day <= 31) && (t.month in {4, 6, 9, 11} ==> t.day <= 30)
              && (t.month == 2 ==> t.day <= if IsLeap(t.year) then 29 else 28)
              && t.hour <= 23 && t.minute <= 59 && t.second <= 59 && t.microsecond <= 999_999
  {}

  /** One time is after another when it is later on the clock or the calendar, as a single number shows. */
  function Moment(t: Instant): int {
    ((((((t.year * 12 + t.month) * 31 + t.day) * 24 + t.hour) * 60 + t.minute) * 60) + t.second) * 1_000_000
    + t.microsecond
  }

  lemma AfterMeans(t: Timestamp, u: Timestamp)
    ensures t.After(u) <==> Moment(t) > Moment(u)
  {
    CalendarDays(t.year, t.month);
    CalendarDays(u.year, u.month);
  }

  // ---- UUIDs ----

  /** The powers of sixteen. */
  lemma PowersOfSixteen(k: nat)
    ensures Hexadecimal.Power(0) == 1 && Hexadecimal.Power(k + 1) == 16 * Hexadecimal.Power(k)
  {}

  lemma {:induction false} HexDigit(n: nat, width: nat, k: nat)
    requires k < width
    ensures Padded(n, width, Hexadecimal)[width - 1 - k]
         == "0123456789abcdef"[n / Hexadecimal.Power(k) % 16]
    decreases k
  {
    LowestDigit(n, width);
    if k > 0 {
      hide *;
      HexDigit(n / 16, width - 1, k - 1);
      PowersOfSixteen(k - 1);
      QuotientTwice(n, 16, Hexadecimal.Power(k - 1));
    }
  }

  /** The last digit is that of the number itself, and those before are the digits of a sixteenth of it. */
  lemma LowestDigit(n: nat, width: nat)
    requires width > 0
    ensures Padded(n, width, Hexadecimal)[width - 1] == "0123456789abcdef"[n % 16]
    ensures forall i :: 0 <= i < width - 1 ==>
              Padded(n, width, Hexadecimal)[i] == Padded(n / 16, width - 1, Hexadecimal)[i]
    ensures n / Hexadecimal.Power(0) == n
  {
    assert NUMERALS == "0123456789abcdef";
  }

  lemma QuotientTwice(n: nat, a: nat, b: nat)
    requires a > 0 && b > 0
    ensures a * b > 0 && n / a / b == n / (a * b)
  {
    var q, r := n / a, n % a;
    var p, t := q / b, q % b;
    Regrouped(a, b, p, t);
    SmallerProduct(a, t, b);
    QuotientIs(n, a * b, p, a * t + r);
  }

  lemma Regrouped(a: int, b: int, p: int, t: int)
    ensures a * (b * p + t) == (a * b) * p + a * t
  {
    assert a * (b * p) == (a * b) * p;
  }

  lemma SmallerProduct(a: nat, t: nat, b: nat)
    requires t < b
    ensures 0 <= a * t <= a * b - a
  {
    assert a * b == a * t + a * (b - t);
    assert a * (b - t) == a + a * (b - t - 1);
    NaturalProduct(a, t);
    NaturalProduct(a, b - t - 1);
  }

  lemma NaturalProduct(a: nat, b: nat)
    ensures a * b >= 0
  {}

  lemma QuotientIs(n: int, d: int, q: int, r: int)
    requires 0 <= r < d && n == d * q + r
    ensures n / d == q
  {
    var p, rest := n / d, n % d;
    Difference(d, p, q);
    if p > q { AtLeastOnce(d, p - q); }
    if p < q { AtLeastOnce(d, q - p); }
  }

  lemma Difference(d: int, p: int, q: int)
    ensures d * (p - q) == d * p - d * q && d * (q - p) == d * q - d * p
  {}

  lemma AtLeastOnce(d: int, k: int)
    requires d > 0 && k >= 1
    ensures d * k >= d
  {
    assert d * k == d + d * (k - 1);
    NaturalProduct(d, k - 1);
  }

  /** Every character of a canonical UUID: groups of 8, 4, 4, 4 and 12 digits, the most significant first. */
  lemma CanonicalSpelling(u: Uuid, k: nat)
    requires k < 32
    ensures var s := Canonical(u);
      && |s| == 36 && s[8] == '-' && s[13] == '-' && s[18] == '-' && s[23] == '-'
      && s[if k < 8 then k else if k < 12 then k + 1 else if k < 16 then k + 2 else if k < 20 then k + 3 else k + 4]
         == "0123456789abcdef"[u / Hexadecimal.Power(31 - k) % 16]
  {
    HexDigit(u, 32, 31 - k);
  }

  // ---- the document ----

  /** `{"deleted_at":"…","user_id":"…"}`. */
  function EntryText(e: Entry): string {
    "{\"deleted_at\":\"" + Format(e.deletedAt) + "\",\"user_id\":\"" + Canonical(e.userId) + "\"}"
  }

  /** Entries separated by single commas. */
  function EntriesText(entries: seq<Entry>): string {
    if entries == [] then ""
    else if |entries| == 1 then EntryText(entries[0])
    else EntryText(entries[0]) + "," + EntriesText(entries[1..])
  }

  lemma LastMember(m: Json.Member)
    ensures Json.DumpMembers([m]) == Json.DumpMember(m)
  {}

  lemma MembersBefore(m: Json.Member, rest: seq<Json.Member>)
    requires rest != []
    ensures Json.DumpMembers([m] + rest) == Json.DumpMember(m) + "," + Json.DumpMembers(rest)
  {
    assert ([m] + rest)[1..] == rest;
  }

  lemma ObjectOfTwo(a: Json.Member, b: Json.Member)
    ensures Json.Dump(Json.Object([a, b])) == "{" + (Json.DumpMember(a) + "," + Json.DumpMember(b)) + "}"
  {
    hide Json.DumpMember;
    LastMember(b);
    MembersBefore(a, [b]);
    assert [a] + [b] == [a, b];
  }

  lemma ObjectOfThree(a: Json.Member, b: Json.Member, c: Json.Member)
    ensures Json.Dump(Json.Object([a, b, c]))
         == "{" + (Json.DumpMember(a) + "," + (Json.DumpMember(b) + "," + Json.DumpMember(c))) + "}"
  {
    hide Json.DumpMember;
    LastMember(c);
    MembersBefore(b, [c]);
    MembersBefore(a, [b, c]);
    assert [a] + [b, c] == [a, b, c];
    var ab := Json.DumpMember(a) + ",";
    assert ab + (Json.DumpMember(b) + "," + Json.DumpMember(c))
           == Json.DumpMember(a) + "," + (Json.DumpMember(b) + "," + Json.DumpMember(c));
  }

  lemma StringMember(key: string, text: string)
    ensures Json.DumpMember(Json.Member(key, Json.String(text))) == ("\"" + key + "\":\"") + text + "\""
  {}

  lemma ArrayMember(key: string, items: seq<Json.Value>)
    ensures Json.DumpMember(Json.Member(key, Json.Array(items)))
         == ("\"" + key + "\":[") + Json.DumpAll(items) + "]"
  {
    hide Json.DumpAll;
  }

  /** Texts between fixed pieces, however the pieces were put together. */
  lemma Rebracketed(open: string, a: string, x: string, q: string, comma: string, b: string, y: string, r: string,
                    close: string)
    ensures open + ((a + x + q) + comma + (b + y + r)) + close
         == (open + a) + x + (q + comma + b) + y + (r + close)
  {
    Joined(a + x, q + comma + b, y + r);
    assert (a + x + q) + comma + (b + y + r) == (a + x) + (q + comma + b) + (y + r);
  }

  lemma Joined(p: string, q: string, r: string)
    ensures p + q + r == p + (q + r)
  {}

  lemma EntrySpelling(e: Entry)
    ensures Json.Dump(EntryValue(e)) == EntryText(e)
  {
    hide Format, Canonical, Json.Dump;
    var at, id := Format(e.deletedAt), Canonical(e.userId);
    var first, second := Json.Member("deleted_at", Json.String(at)), Json.Member("user_id", Json.String(id));
    ObjectOfTwo(first, second);
    StringMember("deleted_at", at);
    StringMember("user_id", id);
    var a, b := "\"" + "deleted_at" + "\":\"", "\"" + "user_id" + "\":\"";
    EntryPieces();
    Rebracketed("{", a, at, "\"", ",", b, id, "\"", "}");
  }

  lemma EntryPieces()
    ensures "{" + ("\"" + "deleted_at" + "\":\"") == "{\"deleted_at\":\""
    ensures "\"" + "," + ("\"" + "user_id" + "\":\"") == "\",\"user_id\":\""
    ensures "\"" + "}" == "\"}"
  {}

  lemma {:induction false} EntriesSpelling(entries: seq<Entry>)
    ensures Json.DumpAll(EntryValues(entries)) == EntriesText(entries)
  {
    hide EntryText;
    if entries != [] {
      EntrySpelling(entries[0]);
      EntriesSpelling(entries[1..]);
      assert EntryValues(entries)[1..] == EntryValues(entries[1..]);
    }
  }

  /** What is written for a ledger, to the last character. */
  lemma RenderSpelling(l: Ledger)
    requires WellFormed(l)
    ensures Render(l) == "{\"covered_through\":\"" + Format(l.coveredThrough) + "\",\"deletions\":["
                         + EntriesText(l.deletions) + "],\"version\":1}\n"
  {
    hide Format, EntriesText, EntryValues, Json.DumpAll, Json.Dump, Json.DumpMember;
    EntriesSpelling(l.deletions);
    var through, all := Format(l.coveredThrough), EntryValues(l.deletions);
    var first := Json.Member("covered_through", Json.String(through));
    var second := Json.Member("deletions", Json.Array(all));
    var third := Json.Member("version", Json.Number(1));
    ObjectOfThree(first, second, third);
    StringMember("covered_through", through);
    ArrayMember("deletions", all);
    VersionMember();
    LedgerPieces();
    Rebracketed("{", "\"" + "covered_through" + "\":\"", through, "\"", ",", "\"" + "deletions" + "\":[",
                EntriesText(l.deletions), "]" + "," + "\"version\":1", "}");
    var body := ("\"" + "deletions" + "\":[") + EntriesText(l.deletions);
    assert body + "]" + "," + "\"version\":1" == body + ("]" + "," + "\"version\":1");
  }

  lemma VersionMember()
    ensures Json.DumpMember(Json.Member("version", Json.Number(1))) == "\"version\":1"
  {
    NumeralOf(1);
    assert Json.Numeral(1) == "1";
    assert "\"" + "version" + "\":" + "1" == "\"version\":1";
  }

  lemma LedgerPieces()
    ensures "{" + ("\"" + "covered_through" + "\":\"") == "{\"covered_through\":\""
    ensures "\"" + "," + ("\"" + "deletions" + "\":[") == "\",\"deletions\":["
    ensures "]" + "," + "\"version\":1" + "}" + "\n" == "],\"version\":1}\n"
  {}

  // ---- one ledger in full ----

  /** One ledger with one entry. */
  function Sample(): Ledger {
    SixteensFit();
    Ledger(Instant(2026, 8, 29, 18, 0, 0, 123456),
           [Entry(0x0123_4567_89ab_cdef_0123_4567_89ab_cdef, Instant(2026, 8, 28, 7, 5, 9, 42))], 1)
  }

  lemma SixteensFit()
    ensures 0x0123_4567_89ab_cdef_0123_4567_89ab_cdef < Hexadecimal.Power(32)
  {
    assert Hexadecimal.Power(4) == 0x1_0000 by { FourSixteens(0); }
    assert Hexadecimal.Power(8) == 0x1_0000_0000 by { FourSixteens(4); }
    assert Hexadecimal.Power(12) == 0x1_0000_0000_0000 by { FourSixteens(8); }
    assert Hexadecimal.Power(16) == 0x1_0000_0000_0000_0000 by { FourSixteens(12); }
    assert Hexadecimal.Power(20) == 0x1_0000_0000_0000_0000_0000 by { FourSixteens(16); }
    assert Hexadecimal.Power(24) == 0x1_0000_0000_0000_0000_0000_0000 by { FourSixteens(20); }
    assert Hexadecimal.Power(28) == 0x1_0000_0000_0000_0000_0000_0000_0000 by { FourSixteens(24); }
    assert Hexadecimal.Power(32) == 0x1_0000_0000_0000_0000_0000_0000_0000_0000 by { FourSixteens(28); }
  }

  lemma FourSixteens(k: nat)
    ensures Hexadecimal.Power(k + 4) == 0x1_0000 * Hexadecimal.Power(k)
  {
    assert Hexadecimal.Power(k + 1) == 16 * Hexadecimal.Power(k);
    assert Hexadecimal.Power(k + 2) == 16 * Hexadecimal.Power(k + 1);
    assert Hexadecimal.Power(k + 3) == 16 * Hexadecimal.Power(k + 2);
  }

  lemma OneMoreDigit(n: nat, width: nat, d: nat)
    requires d < 16
    ensures Padded(16 * n + d, width + 1, Hexadecimal) == Padded(n, width, Hexadecimal) + ["0123456789abcdef"[d]]
  {
    assert (16 * n + d) / 16 == n && (16 * n + d) % 16 == d;
    assert NUMERALS == "0123456789abcdef";
  }

  lemma FourMoreDigits(n: nat, width: nat, a: nat, b: nat, c: nat, d: nat)
    requires a < 16 && b < 16 && c < 16 && d < 16
    ensures Padded(0x1_0000 * n + 0x1000 * a + 0x100 * b + 0x10 * c + d, width + 4, Hexadecimal)
         == Padded(n, width, Hexadecimal)
            + ["0123456789abcdef"[a], "0123456789abcdef"[b], "0123456789abcdef"[c], "0123456789abcdef"[d]]
  {
    hide Padded;
    OneMoreDigit(n, width, a);
    OneMoreDigit(16 * n + a, width + 1, b);
    OneMoreDigit(16 * (16 * n + a) + b, width + 2, c);
    OneMoreDigit(16 * (16 * (16 * n + a) + b) + c, width + 3, d);
  }

  lemma SampleDigits()
    ensures Padded(0x0123_4567_89ab_cdef, 16, Hexadecimal) == "0123" + "4567" + "89ab" + "cdef"
  {
    hide Padded;
    NoDigits();
    Numerals();
    FourMoreDigits(0, 0, 0, 1, 2, 3);
    FourMoreDigits(0x0123, 4, 4, 5, 6, 7);
    FourMoreDigits(0x0123_4567, 8, 8, 9, 10, 11);
    FourMoreDigits(0x0123_4567_89ab, 12, 12, 13, 14, 15);
  }

  lemma MoreSampleDigits()
    ensures Padded(0x0123_4567_89ab_cdef_0123_4567_89ab_cdef, 32, Hexadecimal)
         == Padded(0x0123_4567_89ab_cdef, 16, Hexadecimal) + "0123" + "4567" + "89ab" + "cdef"
  {
    hide Padded;
    Numerals();
    FourMoreDigits(0x0123_4567_89ab_cdef, 16, 0, 1, 2, 3);
    FourMoreDigits(0x0123_4567_89ab_cdef_0123, 20, 4, 5, 6, 7);
    FourMoreDigits(0x0123_4567_89ab_cdef_0123_4567, 24, 8, 9, 10, 11);
    FourMoreDigits(0x0123_4567_89ab_cdef_0123_4567_89ab, 28, 12, 13, 14, 15);
  }

  lemma NoDigits()
    ensures Padded(0, 0, Hexadecimal) == ""
  {}

  lemma Numerals()
    ensures ["0123456789abcdef"[0], "0123456789abcdef"[1], "0123456789abcdef"[2], "0123456789abcdef"[3]] == "0123"
    ensures ["0123456789abcdef"[4], "0123456789abcdef"[5], "0123456789abcdef"[6], "0123456789abcdef"[7]] == "4567"
    ensures ["0123456789abcdef"[8], "0123456789abcdef"[9], "0123456789abcdef"[10], "0123456789abcdef"[11]] == "89ab"
    ensures ["0123456789abcdef"[12], "0123456789abcdef"[13], "0123456789abcdef"[14], "0123456789abcdef"[15]] == "cdef"
  {}

  /** The groups of eight fours of digits. */
  lemma Grouped(a: string, b: string, c: string, d: string, e: string, f: string, g: string, h: string)
    requires |a| == |b| == |c| == |d| == |e| == |f| == |g| == |h| == 4
    ensures Hyphenated(a + b + c + d + (e + f + g + h))
         == (a + b) + "-" + c + "-" + d + "-" + e + "-" + (f + g + h)
  {
    var all := a + b + c + d + (e + f + g + h);
    assert all[..8] == a + b && all[8..12] == c && all[12..16] == d && all[16..20] == e && all[20..] == f + g + h;
  }

  lemma SampleId()
    ensures 0x0123_4567_89ab_cdef_0123_4567_89ab_cdef < Hexadecimal.Power(32)
    ensures Canonical(0x0123_4567_89ab_cdef_0123_4567_89ab_cdef)
         == "01234567" + "-" + "89ab" + "-" + "cdef" + "-" + "0123" + "-" + "456789abcdef"
  {
    SixteensFit();
    SampleDigits();
    MoreSampleDigits();
    hide Padded, Hyphenated;
    Grouped("0123", "4567", "89ab", "cdef", "0123", "4567", "89ab", "cdef");
    var left := Padded(0x0123_4567_89ab_cdef, 16, Hexadecimal);
    assert left + "0123" + "4567" + "89ab" + "cdef" == left + ("0123" + "4567" + "89ab" + "cdef");
    SampleGroups();
  }

  lemma SampleGroups()
    ensures "0123" + "4567" == "01234567" && "4567" + "89ab" + "cdef" == "456789abcdef"
  {}

  /** A timestamp field by field. */
  lemma FormatPieces(t: Timestamp)
    ensures Format(t) == Padded(t.year, 4, Decimal) + "-" + Padded(t.month, 2, Decimal) + "-"
                         + Padded(t.day, 2, Decimal) + "T" + Padded(t.hour, 2, Decimal) + ":"
                         + Padded(t.minute, 2, Decimal) + ":" + Padded(t.second, 2, Decimal) + "."
                         + Padded(t.microsecond, 6, Decimal) + "Z"
  {
    hide Padded;
  }

  lemma SampleTimes()
    ensures Format(Instant(2026, 8, 29, 18, 0, 0, 123456))
         == "2026" + "-" + "08" + "-" + "29" + "T" + "18" + ":" + "00" + ":" + "00" + "." + "123456" + "Z"
    ensures Format(Instant(2026, 8, 28, 7, 5, 9, 42))
         == "2026" + "-" + "08" + "-" + "28" + "T" + "07" + ":" + "05" + ":" + "09" + "." + "000042" + "Z"
  {
    hide Format, Padded;
    FormatPieces(Instant(2026, 8, 29, 18, 0, 0, 123456));
    FormatPieces(Instant(2026, 8, 28, 7, 5, 9, 42));
    SampleFields();
  }

  lemma SampleFields()
    ensures Padded(2026, 4, Decimal) == "2026" && Padded(8, 2, Decimal) == "08" && Padded(29, 2, Decimal) == "29"
    ensures Padded(28, 2, Decimal) == "28" && Padded(18, 2, Decimal) == "18" && Padded(0, 2, Decimal) == "00"
    ensures Padded(7, 2, Decimal) == "07" && Padded(5, 2, Decimal) == "05" && Padded(9, 2, Decimal) == "09"
    ensures Padded(123456, 6, Decimal) == "123456" && Padded(42, 6, Decimal) == "000042"
  {
    hide Padded;
    FourDigits(2026);
    TwoDigits(8);
    TwoDigits(29);
    TwoDigits(28);
    TwoDigits(18);
    TwoDigits(0);
    TwoDigits(7);
    TwoDigits(5);
    TwoDigits(9);
    SixDigits(123456);
    SixDigits(42);
  }

  /** Its text, which the parser reads back as this ledger and no other. */
  lemma SampleSpelling()
    ensures WellFormed(Sample())
    ensures Render(Sample()) ==
      "{\"covered_through\":\""
      + ("2026" + "-" + "08" + "-" + "29" + "T" + "18" + ":" + "00" + ":" + "00" + "." + "123456" + "Z")
      + "\",\"deletions\":["
      + ("{\"deleted_at\":\""
         + ("2026" + "-" + "08" + "-" + "28" + "T" + "07" + ":" + "05" + ":" + "09" + "." + "000042" + "Z")
         + "\",\"user_id\":\""
         + ("01234567" + "-" + "89ab" + "-" + "cdef" + "-" + "0123" + "-" + "456789abcdef")
         + "\"}")
      + "],\"version\":1}\n"
  {
    hide Format, Canonical, Render;
    SampleId();
    SampleTimes();
    RenderSpelling(Sample());
    assert EntriesText(Sample().deletions) == EntryText(Sample().deletions[0]);
  }
}
