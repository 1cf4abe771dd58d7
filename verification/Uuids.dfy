/** UUIDs as 128-bit numbers and their text form (section 4 of RFC 9562). */
module Uuids {
  import opened Outcomes
  import opened Text

  type Uuid = n: nat | n < Hexadecimal.Power(32) witness 0

  /** The 32 hexadecimal digits, `UUID.hex`. */
  function Hex(u: Uuid): (s: string)
    ensures |s| == 32
  {
    Padded(u, 32, Hexadecimal)
  }

  function Hyphenated(h: string): string
    requires |h| == 32
  {
    h[..8] + "-" + h[8..12] + "-" + h[12..16] + "-" + h[16..20] + "-" + h[20..]
  }

  /** `str(uuid)`. */
  function Canonical(u: Uuid): string {
    Hyphenated(Hex(u))
  }

  function WithoutHyphens(s: string): string {
    if s == [] then [] else (if s[0] == '-' then [] else [s[0]]) + WithoutHyphens(s[1..])
  }

  /** `UUID(text)`: hyphens are ignored, 32 digits must remain. */
  function Parsed(s: string): Option<Uuid> {
    var digits := WithoutHyphens(s);
    var value := DigitsValue(digits, Hexadecimal);
    if |digits| == 32 && value.Some? && value.value < Hexadecimal.Power(32) then Some(value.value) else None
  }

  /** `_canonical_uuid`: a UUID is accepted only in the spelling `str` gives it. */
  function CanonicalUuid(s: string): (r: Option<Uuid>)
    ensures r.Some? ==> Canonical(r.value) == s
  {
    var r := Parsed(s);
    if r.Some? && Canonical(r.value) == s then r else None
  }

  lemma {:induction false} WithoutHyphensConcat(a: string, b: string)
    ensures WithoutHyphens(a + b) == WithoutHyphens(a) + WithoutHyphens(b)
  {
    if a == [] {
      assert a + b == b;
    } else {
      assert (a + b)[1..] == a[1..] + b;
      WithoutHyphensConcat(a[1..], b);
    }
  }

  lemma {:induction false} WithoutHyphensOfPlain(s: string)
    requires '-' !in s
    ensures WithoutHyphens(s) == s
  {
    if s != [] { WithoutHyphensOfPlain(s[1..]); }
  }

  lemma HyphenStep(p: string, rest: string)
    requires '-' !in p
    ensures WithoutHyphens(p + "-" + rest) == p + WithoutHyphens(rest)
  {
    hide WithoutHyphens;
    assert p + "-" + rest == p + ("-" + rest);
    WithoutHyphensConcat(p, "-" + rest);
    WithoutHyphensOfPlain(p);
    HyphenDropped(rest);
  }

  lemma HyphenDropped(rest: string)
    ensures WithoutHyphens("-" + rest) == WithoutHyphens(rest)
  {
    assert ("-" + rest)[1..] == rest;
  }

  /** The five groups as nested suffixes, so that one hyphen is treated at a time. */
  lemma HyphenatedIsNested(h: string)
    requires |h| == 32
    ensures Hyphenated(h) == h[..8] + "-" + (h[8..12] + "-" + (h[12..16] + "-" + (h[16..20] + "-" + h[20..])))
  {
    var d := h[16..20] + "-" + h[20..];
    var c := h[12..16] + "-" + d;
    assert h[..8] + "-" + (h[8..12] + "-" + c) == h[..8] + "-" + h[8..12] + "-" + c;
    assert h[..8] + "-" + h[8..12] + "-" + c == h[..8] + "-" + h[8..12] + "-" + h[12..16] + "-" + d;
  }

  lemma WithoutHyphensUndoes(h: string)
    requires |h| == 32 && '-' !in h
    ensures WithoutHyphens(Hyphenated(h)) == h
  {
    HyphenatedIsNested(h);
    var d := h[16..20] + "-" + h[20..];
    var c := h[12..16] + "-" + d;
    var b := h[8..12] + "-" + c;
    HyphenStep(h[..8], b);
    HyphenStep(h[8..12], c);
    HyphenStep(h[12..16], d);
    HyphenStep(h[16..20], h[20..]);
    WithoutHyphensOfPlain(h[20..]);
  }

  lemma HexHasNoHyphen(u: Uuid)
    ensures '-' !in Hex(u)
  {
    PaddedUsesNumerals(u, 32, Hexadecimal);
  }

  /** Every UUID is read back from its canonical text. */
  lemma CanonicalRoundTrip(u: Uuid)
    ensures CanonicalUuid(Canonical(u)) == Some(u)
  {
    HexHasNoHyphen(u);
    WithoutHyphensUndoes(Hex(u));
    PaddedRoundTrip(u, 32, Hexadecimal);
  }

  lemma HexInjective(u: Uuid, v: Uuid)
    ensures Hex(u) == Hex(v) <==> u == v
  {
    PaddedInjective(u, v, 32, Hexadecimal);
  }

  lemma HyphenKeepsOrder(p: string, x: string, q: string, y: string)
    requires |p| == |q|
    ensures Less(p + "-" + x, q + "-" + y) <==> Less(p + x, q + y)
  {
    assert p + "-" + x == p + ("-" + x) && q + "-" + y == q + ("-" + y);
    LessOfConcat(p, "-" + x, q, "-" + y);
    LessOfConcat(p, x, q, y);
    LessOfConcat("-", x, "-", y);
  }

  lemma HyphenatedOrder(g: string, h: string)
    requires |g| == 32 && |h| == 32
    ensures Less(Hyphenated(g), Hyphenated(h)) <==> Less(g, h)
  {
    HyphenatedIsNested(g);
    HyphenatedIsNested(h);
    GroupOrder(g, h, 16, 20, g[20..], h[20..]);
    GroupOrder(g, h, 12, 16, g[16..20] + "-" + g[20..], h[16..20] + "-" + h[20..]);
    GroupOrder(g, h, 8, 12, g[12..16] + "-" + (g[16..20] + "-" + g[20..]),
        h[12..16] + "-" + (h[16..20] + "-" + h[20..]));
    GroupOrder(g, h, 0, 8, g[8..12] + "-" + (g[12..16] + "-" + (g[16..20] + "-" + g[20..])),
               h[8..12] + "-" + (h[12..16] + "-" + (h[16..20] + "-" + h[20..])));
    assert g[0..] == g && h[0..] == h && g[0..8] == g[..8] && h[0..8] == h[..8];
  }

  /** If the hyphenated tails compare like the plain tails, so do the tails one group longer. */
  lemma GroupOrder(g: string, h: string, i: nat, j: nat, x: string, y: string)
    requires |g| == 32 && |h| == 32 && i <= j <= 32
    requires Less(x, y) <==> Less(g[j..], h[j..])
    ensures Less(g[i..j] + "-" + x, h[i..j] + "-" + y) <==> Less(g[i..], h[i..])
  {
    HyphenKeepsOrder(g[i..j], x, h[i..j], y);
    LessOfConcat(g[i..j], x, h[i..j], y);
    LessOfConcat(g[i..j], g[j..], h[i..j], h[j..]);
    assert g[i..] == g[i..j] + g[j..] && h[i..] == h[i..j] + h[j..];
  }

  /** Comparing canonical texts, as the parser does, is comparing the numbers. */
  lemma CanonicalOrder(u: Uuid, v: Uuid)
    ensures Less(Canonical(u), Canonical(v)) <==> u < v
  {
    HyphenatedOrder(Hex(u), Hex(v));
    PaddedOrder(u, v, 32, Hexadecimal);
  }

  lemma CanonicalInjective(u: Uuid, v: Uuid)
    ensures Canonical(u) == Canonical(v) <==> u == v
  {
    CanonicalRoundTrip(u);
    CanonicalRoundTrip(v);
  }
}
