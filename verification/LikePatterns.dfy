/** Literal text in SQL LIKE patterns (backend/app/db/query.py); LIKE is that of section 8.5 of ISO/IEC 9075-2. */
module LikePatterns {
  const LIKE_ESCAPE := '\\'

  /** `str.replace` with a one-character pattern. */
  function Replace(s: string, target: char, with: string): string {
    if s == [] then [] else (if s[0] == target then with else [s[0]]) + Replace(s[1..], target, with)
  }

  function EscapeLikeLiteral(value: string): string {
    Replace(Replace(Replace(value, LIKE_ESCAPE, [LIKE_ESCAPE, LIKE_ESCAPE]), '%', "\\%"), '_', "\\_")
  }

  function LiteralContainsPattern(value: string): string {
    "%" + EscapeLikeLiteral(value) + "%"
  }

  predicate Special(c: char) {
    c == LIKE_ESCAPE || c == '%' || c == '_'
  }

  /** Each special character, and no other, is preceded by the escape character. */
  function Escaped(value: string): string {
    if value == [] then []
    else (if Special(value[0]) then [LIKE_ESCAPE, value[0]] else [value[0]]) + Escaped(value[1..])
  }

  lemma {:induction false} ReplaceOfConcat(s: string, t: string, target: char, with: string)
    ensures Replace(s + t, target, with) == Replace(s, target, with) + Replace(t, target, with)
  {
    if s == [] {
      assert s + t == t;
    } else {
      assert (s + t)[0] == s[0] && (s + t)[1..] == s[1..] + t;
      ReplaceOfConcat(s[1..], t, target, with);
    }
  }

  /** The three replacements, each over the whole result of the one before, escape every character once. */
  lemma {:induction false} ReplacementsEscapeEachCharacter(value: string)
    ensures EscapeLikeLiteral(value) == Escaped(value)
  {
    if value != [] {
      ReplacementsEscapeEachCharacter(value[1..]);
      var one := Replace(value, LIKE_ESCAPE, [LIKE_ESCAPE, LIKE_ESCAPE]);
      var head := if value[0] == LIKE_ESCAPE then [LIKE_ESCAPE, LIKE_ESCAPE] else [value[0]];
      var rest := Replace(value[1..], LIKE_ESCAPE, [LIKE_ESCAPE, LIKE_ESCAPE]);
      ReplaceOfConcat(head, rest, '%', "\\%");
      ReplaceOfConcat(Replace(head, '%', "\\%"), Replace(rest, '%', "\\%"), '_', "\\_");
      EscapeOne(value[0]);
    }
  }

  lemma ReplaceOne(c: char, target: char, with: string)
    ensures Replace([c], target, with) == if c == target then with else [c]
  {
    assert [c][1..] == [];
  }

  lemma ReplacePair(c: char, d: char, target: char, with: string)
    ensures Replace([c, d], target, with) ==
            (if c == target then with else [c]) + (if d == target then with else [d])
  {
    ReplaceOne(c, target, with);
    ReplaceOne(d, target, with);
    assert [c, d] == [c] + [d];
    ReplaceOfConcat([c], [d], target, with);
  }

  lemma EscapeOne(c: char)
    ensures EscapeLikeLiteral([c]) == if Special(c) then [LIKE_ESCAPE, c] else [c]
  {
    hide Replace;
    ReplaceOne(c, LIKE_ESCAPE, [LIKE_ESCAPE, LIKE_ESCAPE]);
    ReplaceOne(c, '%', "\\%");
    ReplaceOne(c, '_', "\\_");
    ReplacePair(LIKE_ESCAPE, LIKE_ESCAPE, '%', "\\%");
    ReplacePair(LIKE_ESCAPE, LIKE_ESCAPE, '_', "\\_");
    ReplacePair(LIKE_ESCAPE, '%', '_', "\\_");
    assert "\\%" == [LIKE_ESCAPE, '%'] && "\\_" == [LIKE_ESCAPE, '_'];
    assert forall d :: [LIKE_ESCAPE] + [d] == [LIKE_ESCAPE, d];
  }

  /** In a valid pattern the escape character precedes only itself or a wildcard. */
  predicate ValidPattern(p: string) {
    p == [] || (if p[0] == LIKE_ESCAPE then |p| >= 2 && Special(p[1]) && ValidPattern(p[2..]) else ValidPattern(p[1..]))
  }

  /** `s LIKE p ESCAPE '\'`. */
  predicate Like(s: string, p: string)
    decreases |p|, |s|
  {
    if p == [] then s == []
    else if p[0] == '%' then Like(s, p[1..]) || (s != [] && Like(s[1..], p))
    else if p[0] == '_' then s != [] && Like(s[1..], p[1..])
    else if p[0] == LIKE_ESCAPE then |p| >= 2 && s != [] && s[0] == p[1] && Like(s[1..], p[2..])
    else s != [] && s[0] == p[0] && Like(s[1..], p[1..])
  }

  predicate OccursAt(v: string, s: string, i: nat) {
    i + |v| <= |s| && s[i..i + |v|] == v
  }

  ghost predicate Occurs(v: string, s: string) {
    exists i: nat :: OccursAt(v, s, i)
  }

  /** An escaped text matches itself and nothing else. */
  lemma {:induction false} LikeEscaped(s: string, v: string, rest: string)
    ensures Like(s, Escaped(v) + rest) <==> |v| <= |s| && s[..|v|] == v && Like(s[|v|..], rest)
  {
    var p := Escaped(v) + rest;
    if v == [] {
      assert p == rest && s[|v|..] == s;
    } else {
      var tail := Escaped(v[1..]) + rest;
      assert p == (if Special(v[0]) then [LIKE_ESCAPE, v[0]] else [v[0]]) + tail;
      if s != [] {
        LikeEscaped(s[1..], v[1..], rest);
        assert Like(s, p) <==> s[0] == v[0] && Like(s[1..], tail);
        assert |v| <= |s| ==> s[1..][..|v| - 1] == s[1..|v|] && s[1..][|v| - 1..] == s[|v|..];
        assert |v| <= |s| ==> (s[..|v|] == v <==> s[0] == v[0] && s[1..|v|] == v[1..]) by {
          if |v| <= |s| {
            assert s[..|v|] == [s[0]] + s[1..|v|] && v == [v[0]] + v[1..];
          }
        }
      }
    }
  }

  lemma {:induction false} PercentMatchesAll(s: string)
    ensures Like(s, "%")
  {
    assert "%"[1..] == "";
    if s != [] { PercentMatchesAll(s[1..]); }
  }

  predicate LikeFrom(s: string, i: nat, q: string) {
    i <= |s| && Like(s[i..], q)
  }

  /** A leading percent sign skips any number of characters. */
  lemma {:induction false} PercentSkips(s: string, q: string)
    ensures Like(s, "%" + q) <==> exists i: nat :: LikeFrom(s, i, q)
  {
    assert ("%" + q)[1..] == q && s[0..] == s;
    if Like(s, q) { assert LikeFrom(s, 0, q); }
    if s != [] {
      PercentSkips(s[1..], q);
      if i: nat :| LikeFrom(s, i, q) && i > 0 {
        assert s[i..] == s[1..][i - 1..];
        assert LikeFrom(s[1..], i - 1, q);
      }
      if i: nat :| LikeFrom(s[1..], i, q) {
        assert s[i + 1..] == s[1..][i..];
        assert LikeFrom(s, i + 1, q);
      }
    }
  }

  lemma LikeFromMeansOccursAt(s: string, i: nat, v: string)
    ensures LikeFrom(s, i, Escaped(v) + "%") <==> OccursAt(v, s, i)
  {
    hide Like, Escaped;
    if i <= |s| {
      LikeEscaped(s[i..], v, "%");
      if |v| <= |s| - i {
        assert s[i..][..|v|] == s[i..i + |v|];
        PercentMatchesAll(s[i..][|v|..]);
      }
    }
  }

  /** The contains pattern of a text matches exactly the strings in which the text occurs. */
  lemma ContainsPatternMeansOccurs(s: string, v: string)
    ensures Like(s, LiteralContainsPattern(v)) <==> Occurs(v, s)
  {
    ReplacementsEscapeEachCharacter(v);
    hide EscapeLikeLiteral, Escaped, Like, LikeFrom, OccursAt;
    assert LiteralContainsPattern(v) == "%" + (Escaped(v) + "%");
    PercentSkips(s, Escaped(v) + "%");
    forall i: nat ensures LikeFrom(s, i, Escaped(v) + "%") <==> OccursAt(v, s, i) {
      LikeFromMeansOccursAt(s, i, v);
    }
  }

  lemma EscapedCharacterIsValid(c: char, tail: string)
    requires ValidPattern(tail)
    ensures ValidPattern((if Special(c) then [LIKE_ESCAPE, c] else [c]) + tail)
  {
    if Special(c) {
      assert ([LIKE_ESCAPE, c] + tail)[2..] == tail;
    } else {
      assert ([c] + tail)[1..] == tail;
    }
  }

  lemma {:induction false} EscapedIsValid(v: string, rest: string)
    requires ValidPattern(rest)
    ensures ValidPattern(Escaped(v) + rest)
  {
    hide ValidPattern;
    if v == [] {
      assert Escaped(v) + rest == rest;
    } else {
      EscapedIsValid(v[1..], rest);
      EscapedCharacterIsValid(v[0], Escaped(v[1..]) + rest);
      assert Escaped(v) + rest == (if Special(v[0]) then [LIKE_ESCAPE, v[0]] else [v[0]]) + (Escaped(v[1..]) + rest);
    }
  }

  /** The database never refuses the pattern, whatever the text. */
  lemma ContainsPatternIsValid(v: string)
    ensures ValidPattern(LiteralContainsPattern(v))
  {
    ReplacementsEscapeEachCharacter(v);
    assert ValidPattern("%") by { assert "%"[1..] == ""; }
    EscapedIsValid(v, "%");
    var p := LiteralContainsPattern(v);
    assert p[0] == '%' && p[1..] == Escaped(v) + "%";
  }

  /** One character that is not the escape character, or the escape character and what it may precede. */
  predicate Token(t: string) {
    t in [['\\', '\\'], ['\\', '%'], ['\\', '_']] || (|t| == 1 && t[0] != '\\')
  }

  function Joined(tokens: seq<string>): string {
    if tokens == [] then "" else tokens[0] + Joined(tokens[1..])
  }

  ghost predicate Splits(p: string, tokens: seq<string>) {
    Joined(tokens) == p && forall i :: 0 <= i < |tokens| ==> Token(tokens[i])
  }

  /** A pattern is valid exactly when it can be split into plain characters and escaped special ones. */
  lemma ValidPatternSplits(p: string)
    ensures ValidPattern(p) <==> exists tokens :: Splits(p, tokens)
  {
    if ValidPattern(p) { var tokens := TokensOf(p); }
    if tokens :| Splits(p, tokens) { TokensAreValid(tokens); }
  }

  lemma {:induction false} TokensOf(p: string) returns (tokens: seq<string>)
    requires ValidPattern(p)
    ensures Splits(p, tokens)
  {
    if p == "" {
      tokens := [];
    } else {
      var n := if p[0] == LIKE_ESCAPE then 2 else 1;
      var rest := TokensOf(p[n..]);
      tokens := [p[..n]] + rest;
      assert p == p[..n] + p[n..] && tokens[1..] == rest;
      assert n == 2 ==> p[..2] == [p[0], p[1]];
    }
  }

  lemma {:induction false} TokensAreValid(tokens: seq<string>)
    requires forall i :: 0 <= i < |tokens| ==> Token(tokens[i])
    ensures ValidPattern(Joined(tokens))
  {
    if tokens != [] {
      TokensAreValid(tokens[1..]);
      assert Joined(tokens)[|tokens[0]|..] == Joined(tokens[1..]);
    }
  }

  /** The two wildcards, and the escape character. */
  lemma Wildcards(s: string)
    ensures Like(s, "%")
    ensures Like(s, "_") <==> |s| == 1
    ensures Like(s, "\\%") <==> s == "%"
    ensures Like(s, "\\_") <==> s == "_"
  {
    AnyMatches(s);
    assert "_"[1..] == "" && "\\%"[2..] == "" && "\\_"[2..] == "";
    assert |s| == 1 ==> s == [s[0]];
  }

  lemma {:induction false} AnyMatches(s: string)
    ensures Like(s, "%")
  {
    assert "%"[1..] == "";
    if s != "" { AnyMatches(s[1..]); }
  }
}
