/**
 * Which candidates the validator lets through, said from their columns, and the words its reason codes are made of
 * (backend/app/repositories/recipe_duplicates.py:123-211).
 */
module DuplicateRules {
  import opened DuplicateCandidates

  // ---- snake case ----

  /** A word of lower-case letters and digits. */
  predicate Word(w: string) {
    w != "" && forall i :: 0 <= i < |w| ==> 'a' <= w[i] <= 'z' || '0' <= w[i] <= '9'
  }

  function Joined(words: seq<string>): string
    requires words != []
  {
    if |words| == 1 then words[0] else words[0] + "_" + Joined(words[1..])
  }

  ghost predicate MadeOf(s: string, words: seq<string>) {
    words != [] && Joined(words) == s && forall i :: 0 <= i < |words| ==> Word(words[i])
  }

  /** A code is in snake case exactly when it is one or more words with an underscore between any two. */
  lemma SnakeCaseMeans(s: string)
    ensures SnakeCase(s) <==> exists words :: MadeOf(s, words)
  {
    if SnakeCase(s) { var words := WordsOf(s); }
    if words :| MadeOf(s, words) { WordsAreSnakeCase(words); }
  }

  lemma FirstUnderscore(s: string) returns (n: nat)
    ensures n <= |s| && (forall i :: 0 <= i < n ==> s[i] != '_') && (n < |s| ==> s[n] == '_')
  {
    n := 0;
    while n < |s| && s[n] != '_'
      invariant n <= |s| && forall i :: 0 <= i < n ==> s[i] != '_'
    {
      n := n + 1;
    }
  }

  lemma {:induction false} WordsOf(s: string) returns (words: seq<string>)
    requires SnakeCase(s)
    ensures MadeOf(s, words)
    decreases |s|
  {
    var n := FirstUnderscore(s);
    if n == |s| {
      words := [s];
    } else {
      var rest := s[n + 1..];
      assert rest != "" && rest[0] == s[n + 1] && rest[|rest| - 1] == s[|s| - 1];
      var others := WordsOf(rest);
      words := [s[..n]] + others;
      assert words[1..] == others && s == s[..n] + "_" + rest;
    }
  }

  lemma {:induction false} WordsAreSnakeCase(words: seq<string>)
    requires words != [] && forall i :: 0 <= i < |words| ==> Word(words[i])
    ensures SnakeCase(Joined(words))
  {
    assert Word(words[0]);
    if |words| > 1 {
      WordsAreSnakeCase(words[1..]);
      OneMoreWord(words[0], Joined(words[1..]));
    }
  }

  lemma OneMoreWord(w: string, rest: string)
    requires Word(w) && SnakeCase(rest)
    ensures SnakeCase(w + "_" + rest)
  {
    var s, n := w + "_" + rest, |w|;
    forall i | 0 <= i < |s| ensures s[i] == if i < n then w[i] else if i == n then '_' else rest[i - n - 1] {}
  }

  // ---- the reason codes ----

  lemma IngredientCodes()
    ensures SnakeCase("same_ingredient_multiset") && |"same_ingredient_multiset"| == 24
    ensures SnakeCase("different_ingredient_multisets") && |"different_ingredient_multisets"| == 30
  {
    var s := "different_ingredient_multisets";
    assert forall i :: 0 <= i < 30 ==> WordChar(s[i]) || s[i] == '_';
  }

  lemma LongCodes()
    ensures SnakeCase("overlapping_ingredient_multisets") && |"overlapping_ingredient_multisets"| == 32
    ensures SnakeCase("proportionally_scaled_quantities") && |"proportionally_scaled_quantities"| == 32
  {
    var s, t := "overlapping_ingredient_multisets", "proportionally_scaled_quantities";
    assert forall i :: 0 <= i < 32 ==> WordChar(s[i]) || s[i] == '_';
    assert forall i :: 0 <= i < 32 ==> WordChar(t[i]) || t[i] == '_';
  }

  lemma QuantityCodes()
    ensures SnakeCase("matching_quantities") && |"matching_quantities"| == 19
    ensures SnakeCase("partially_matching_quantities") && |"partially_matching_quantities"| == 29
    ensures SnakeCase("different_quantities") && |"different_quantities"| == 20
  {
    var s := "partially_matching_quantities";
    assert forall i :: 0 <= i < 29 ==> WordChar(s[i]) || s[i] == '_';
  }

  lemma ActionCodes()
    ensures SnakeCase("different_action_types") && |"different_action_types"| == 22
    ensures SnakeCase("different_action_order") && |"different_action_order"| == 22
  {}

  lemma MoreActionCodes()
    ensures SnakeCase("matching_structured_actions") && |"matching_structured_actions"| == 27
    ensures SnakeCase("different_ordered_inputs") && |"different_ordered_inputs"| == 24
  {}

  lemma OtherCodes()
    ensures SnakeCase("different_duration_or_temperature") && |"different_duration_or_temperature"| == 33
    ensures SnakeCase("exact_structural_match") && |"exact_structural_match"| == 22
  {
    var s := "different_duration_or_temperature";
    assert forall i :: 0 <= i < 33 ==> WordChar(s[i]) || s[i] == '_';
  }

  predicate IngredientReason(r: string) {
    || r == "same_ingredient_multiset" || r == "overlapping_ingredient_multisets"
    || r == "different_ingredient_multisets"
  }

  predicate QuantityReason(r: string) {
    || r == "proportionally_scaled_quantities" || r == "matching_quantities" || r == "partially_matching_quantities"
    || r == "different_quantities"
  }

  predicate ActionReason(r: string) {
    || r == "matching_structured_actions" || r == "different_action_types" || r == "different_action_order"
    || r == "different_ordered_inputs" || r == "different_duration_or_temperature"
  }

  lemma Families(r: string)
    ensures r in INGREDIENT_REASONS <==> IngredientReason(r)
    ensures r in QUANTITY_REASONS <==> QuantityReason(r)
    ensures r in ACTION_REASONS <==> ActionReason(r)
    ensures IngredientReason(r) || QuantityReason(r) || ActionReason(r) ==> |r| <= 64 && SnakeCase(r)
  {
    hide SnakeCase;
    IngredientCodes();
    LongCodes();
    QuantityCodes();
    ActionCodes();
    MoreActionCodes();
    OtherCodes();
  }

  lemma FamiliesDiffer(a: string, b: string, c: string)
    requires a in INGREDIENT_REASONS && b in QUANTITY_REASONS && c in ACTION_REASONS
    ensures a != b && a != c && b != c
  {
    assert a[0] in "sod" && (a[0] == 'd' ==> |a| == 30);
    assert b[0] in "pmd" && (b[0] == 'd' ==> |b| == 20) && (b[0] == 'm' ==> |b| == 19);
    assert c[0] in "md" && (c[0] == 'd' ==> |c| in [22, 24, 33]) && (c[0] == 'm' ==> |c| == 27);
  }

  // ---- candidates ----

  predicate ExactEvidence(c: Candidate) {
    && c.classification == "exact_duplicate" && c.score == 10_000 && c.exactPayload
    && c.reasons == ["exact_structural_match"]
  }

  /** At least four fifths, without an equal payload, and a reason of each family in order. */
  predicate ProbableEvidence(c: Candidate) {
    && c.classification == "probable_duplicate" && 8_000 <= c.score <= 10_000 && !c.exactPayload
    && |c.reasons| == 3 && IngredientReason(c.reasons[0]) && QuantityReason(c.reasons[1]) && ActionReason(c.reasons[2])
  }

  /** The known codes are all well formed and differ, so the checks of their form refuse nothing more. */
  lemma FormRefusesNothing(c: Candidate)
    requires ExactEvidence(c) || ProbableEvidence(c)
    ensures TidyReasons(c.reasons)
  {
    hide SnakeCase, IngredientReason, QuantityReason, ActionReason;
    if ExactEvidence(c) {
      OtherCodes();
    } else {
      Families(c.reasons[0]);
      Families(c.reasons[1]);
      Families(c.reasons[2]);
      FamiliesDiffer(c.reasons[0], c.reasons[1], c.reasons[2]);
    }
  }

  /** The checks of one candidate let through exactly the two kinds of evidence, under the versions of the preflight. */
  lemma PassesMeans(s: Subject, c: Candidate)
    ensures Passes(s, c) <==>
            (ExactEvidence(c) || ProbableEvidence(c)) && c.algorithm == s.algorithm && c.policy == s.policy
  {
    hide SnakeCase, TidyReasons, IngredientReason, QuantityReason, ActionReason;
    if ExactEvidence(c) || ProbableEvidence(c) { FormRefusesNothing(c); }
    if |c.reasons| == 3 {
      Families(c.reasons[0]);
      Families(c.reasons[1]);
      Families(c.reasons[2]);
    }
  }
}
