/** Candidate evidence of a duplicate preflight: its validator, its tables' constraints, and the rounding of scores. */
module DuplicateCandidates {
  import opened Outcomes

  type Id = nat

  datatype Candidate = Candidate(
    version: Id,
    rank: int,
    classification: string,
    score: int,
    reasons: seq<string>,
    algorithm: string,
    policy: string,
    exactPayload: bool)

  /** What the preflight itself says, beside its candidates. */
  datatype Subject = Subject(source: Option<Id>, algorithm: string, policy: string, classification: string,
      sameParent: bool)

  const EXACT := "exact_duplicate"
  const PROBABLE := "probable_duplicate"
  const DISTINCT := "distinct"

  const THRESHOLD := 8_000
  const FULL_SCORE := 10_000

  const EXACT_REASONS := ["exact_structural_match"]
  const INGREDIENT_REASONS :=
    ["same_ingredient_multiset", "overlapping_ingredient_multisets", "different_ingredient_multisets"]
  const QUANTITY_REASONS :=
    ["proportionally_scaled_quantities", "matching_quantities", "partially_matching_quantities", "different_quantities"]
  const ACTION_REASONS :=
    ["matching_structured_actions", "different_action_types", "different_action_order", "different_ordered_inputs",
     "different_duration_or_temperature"]

  predicate WordChar(c: char) {
    'a' <= c <= 'z' || '0' <= c <= '9'
  }

  /** Words of lower-case letters and digits, joined by single underscores. */
  predicate SnakeCase(s: string) {
    && s != [] && s[0] != '_' && s[|s| - 1] != '_'
    && (forall i :: 0 <= i < |s| ==> WordChar(s[i]) || s[i] == '_')
    && (forall i :: 0 < i < |s| && s[i] == '_' ==> s[i - 1] != '_')
  }

  predicate Unique(xs: seq<string>) {
    forall i, j :: 0 <= i < j < |xs| ==> xs[i] != xs[j]
  }

  predicate UniqueVersions(candidates: seq<Candidate>) {
    forall i, j :: 0 <= i < j < |candidates| ==> candidates[i].version != candidates[j].version
  }

  predicate TidyReasons(reasons: seq<string>) {
    Unique(reasons) && forall i :: 0 <= i < |reasons| ==> |reasons[i]| <= 64 && SnakeCase(reasons[i])
  }

  /** The constraints of the candidate table that one row decides, apart from its rank and its foreign keys. */
  predicate RowAllowed(c: Candidate) {
    && c.classification in [EXACT, PROBABLE] && 0 <= c.score <= 10_000 && 1 <= |c.reasons| <= 3
    && (if c.classification == EXACT then
          c.reasons == ["exact_structural_match"] && c.score == 10_000 && c.exactPayload
        else
          && |c.reasons| == 3 && c.score >= 8_000 && !c.exactPayload
          && c.reasons[0] in INGREDIENT_REASONS && c.reasons[1] in QUANTITY_REASONS && c.reasons[2] in ACTION_REASONS)
  }

  /** The constraints of the candidate table, with its keys and its reference to the preflight's versions. */
  predicate CandidatesAllowed(s: Subject, candidates: seq<Candidate>) {
    && (forall i :: 0 <= i < |candidates| ==>
         && RowAllowed(candidates[i]) && 1 <= candidates[i].rank <= 5
         && candidates[i].policy == s.policy && candidates[i].algorithm == s.algorithm)
    && (forall i, j :: 0 <= i < j < |candidates| ==>
         candidates[i].rank != candidates[j].rank && candidates[i].version != candidates[j].version)
  }

  /** The constraints of the preflight table on what is validated here. */
  predicate SubjectAllowed(s: Subject) {
    && s.classification in [EXACT, PROBABLE, DISTINCT]
    && (s.sameParent ==> s.classification == EXACT && s.source.Some?)
  }

  /** The class of the result follows from the evidence. */
  predicate Classified(s: Subject, candidates: seq<Candidate>) {
    var exactPresent := exists i :: 0 <= i < |candidates| && candidates[i].classification == EXACT;
    if exactPresent || s.sameParent then s.classification == EXACT
    else if candidates != [] then s.classification == PROBABLE
    else s.classification == DISTINCT
  }

  /** What no constraint of one row says: ranks in order, no candidate the source, and the class the evidence's. */
  predicate Coherent(s: Subject, candidates: seq<Candidate>) {
    && |candidates| <= 5
    && (forall i :: 0 <= i < |candidates| ==> candidates[i].rank == i + 1 && s.source != Some(candidates[i].version))
    && Classified(s, candidates)
    && (forall i :: 0 <= i < |candidates| ==> TidyReasons(candidates[i].reasons))
  }

  /** The checks of one candidate in `_validate_candidates`. */
  method CheckCandidate(s: Subject, c: Candidate) returns (ok: bool)
    ensures ok <==> RowAllowed(c) && TidyReasons(c.reasons) && c.algorithm == s.algorithm && c.policy == s.policy
  {
    if !(1 <= |c.reasons| <= 3) || !Unique(c.reasons) { return false; }
    if exists i :: 0 <= i < |c.reasons| && (|c.reasons[i]| > 64 || !SnakeCase(c.reasons[i])) { return false; }
    if c.algorithm != s.algorithm || c.policy != s.policy { return false; }
    if c.classification == EXACT {
      if c.score != FULL_SCORE || !c.exactPayload { return false; }
      if |c.reasons| != 1 || c.reasons[0] !in EXACT_REASONS { return false; }
    } else if c.classification == PROBABLE {
      if !(THRESHOLD <= c.score <= FULL_SCORE) { return false; }
      if c.exactPayload { return false; }
      if |c.reasons| != 3 { return false; }
      if c.reasons[0] !in INGREDIENT_REASONS || c.reasons[1] !in QUANTITY_REASONS || c.reasons[2] !in ACTION_REASONS {
        return false;
      }
    } else {
      return false;
    }
    ok := true;
  }

  /** The checks of all candidates together, after each has passed. */
  method CheckClassification(s: Subject, candidates: seq<Candidate>) returns (ok: bool)
    ensures ok <==> Classified(s, candidates)
  {
    var exactPresent := exists i :: 0 <= i < |candidates| && candidates[i].classification == EXACT;
    if s.classification == DISTINCT {
      ok := !(candidates != [] || s.sameParent);
    } else if s.classification == PROBABLE {
      ok := !(candidates == [] || exactPresent || s.sameParent);
    } else if s.classification == EXACT {
      ok := !(!exactPresent && !s.sameParent);
    } else {
      ok := false;
    }
  }

  /** Exactly the evidence that the tables accept and that is coherent as a whole. */
  predicate Acceptable(s: Subject, candidates: seq<Candidate>) {
    CandidatesAllowed(s, candidates) && SubjectAllowed(s) && Coherent(s, candidates)
  }

  predicate Passes(s: Subject, c: Candidate) {
    RowAllowed(c) && TidyReasons(c.reasons) && c.algorithm == s.algorithm && c.policy == s.policy
  }

  /** What the checks test one after another is what acceptability says at once. */
  lemma ChecksMeanAcceptable(s: Subject, candidates: seq<Candidate>)
    ensures Acceptable(s, candidates) <==>
            && |candidates| <= 5
            && (forall i :: 0 <= i < |candidates| ==> candidates[i].rank == i + 1)
            && UniqueVersions(candidates)
            && (forall i :: 0 <= i < |candidates| ==> s.source != Some(candidates[i].version))
            && (s.sameParent ==> s.source.Some?)
            && (forall i :: 0 <= i < |candidates| ==> Passes(s, candidates[i]))
            && Classified(s, candidates)
  {
    hide RowAllowed, TidyReasons;
    if Coherent(s, candidates) {
      forall i, j | 0 <= i < j < |candidates| ensures candidates[i].rank != candidates[j].rank {
        assert candidates[i].rank == i + 1 && candidates[j].rank == j + 1;
      }
    }
  }

  /** `_validate_candidates`. */
  method ValidateCandidates(s: Subject, candidates: seq<Candidate>) returns (ok: bool)
    ensures ok <==> Acceptable(s, candidates)
  {
    ChecksMeanAcceptable(s, candidates);
    hide Acceptable, Classified, RowAllowed, TidyReasons;
    if |candidates| > 5 { return false; }
    if exists i :: 0 <= i < |candidates| && candidates[i].rank != i + 1 { return false; }
    if !UniqueVersions(candidates) { return false; }
    if exists i :: 0 <= i < |candidates| && s.source == Some(candidates[i].version) { return false; }
    if s.sameParent && s.source.None? { return false; }
    for i := 0 to |candidates|
      invariant forall k :: 0 <= k < i ==> Passes(s, candidates[k])
    {
      var passed := CheckCandidate(s, candidates[i]);
      if !passed { return false; }
    }
    ok := CheckClassification(s, candidates);
  }

  /**
   * `duplicate_score_to_basis_points`: the score `numerator / denominator` in basis points, or an error outside the
   * unit interval.
   */
  function ScoreToBasisPoints(numerator: int, denominator: int): (points: Option<int>)
    requires denominator > 0
  {
    if !(0 <= numerator <= denominator) then None
    else
      var scaled := numerator * 10_000;
      Some(scaled / denominator + if scaled % denominator * 2 >= denominator then 1 else 0)
  }

  /** `points` is a whole number nearest to the scaled score; of two it is the larger. */
  predicate Nearest(points: int, numerator: int, denominator: int) {
    -denominator < 2 * (points * denominator - numerator * 10_000) <= denominator
  }

  lemma RoundsToNearest(numerator: int, denominator: int)
    requires denominator > 0
    ensures ScoreToBasisPoints(numerator, denominator) == None <==> numerator < 0 || numerator > denominator
    ensures 0 <= numerator <= denominator ==>
              Nearest(ScoreToBasisPoints(numerator, denominator).value, numerator, denominator)
  {
    var scaled := numerator * 10_000;
    var q, r := scaled / denominator, scaled % denominator;
    assert scaled == q * denominator + r;
    assert (q + 1) * denominator == q * denominator + denominator;
  }

  lemma ProductIsNatural(a: nat, b: nat)
    ensures a * b >= 0
  {}

  lemma TimesGrows(p: int, q: int, factor: int)
    requires factor > 0
    ensures p > q ==> p * factor >= q * factor + factor
  {
    if p > q { ProductIsNatural(p - q - 1, factor); }
  }

  lemma Expanded(n: int, d: int, points: int, slack: int, factor: int)
    ensures (20_000 * n + slack - 2 * (points * d)) * factor ==
            20_000 * (n * factor) + slack * factor - 2 * (points * (d * factor))
  {}

  /** A larger score never has fewer points, whatever the denominators, and equal scores have the same points. */
  lemma PointsFollowScores(n: int, d: int, m: int, e: int)
    requires 0 <= n <= d && 0 <= m <= e && d > 0 && e > 0 && n * e <= m * d
    ensures ScoreToBasisPoints(n, d).value <= ScoreToBasisPoints(m, e).value
  {
    var p, q := ScoreToBasisPoints(n, d).value, ScoreToBasisPoints(m, e).value;
    RoundsToNearest(n, d);
    RoundsToNearest(m, e);
    ProductIsNatural(20_000 * n + d - 2 * (p * d), e);
    ProductIsNatural(-(20_000 * m - e + 1 - 2 * (q * e)), d);
    Expanded(n, d, p, d, e);
    Expanded(m, e, q, 1 - e, d);
    assert (1 - e) * d == d - d * e && e * d == d * e;
    TimesGrows(p, q, d * e);
  }

  /** A score below 1 with the points of a full score. */
  lemma RoundedToFullScore()
    ensures 19_999 < 20_000 && ScoreToBasisPoints(19_999, 20_000) == Some(FULL_SCORE)
  {}

  /**
   * A score reaches the threshold of 8000 points exactly when it is at least 0.79995; in particular whenever it is
   * at least the probable-duplicate threshold of four fifths.
   */
  lemma ThresholdInPoints(n: int, d: int)
    requires 0 <= n <= d && d > 0
    ensures var points := ScoreToBasisPoints(n, d).value;
      && 0 <= points <= FULL_SCORE
      && (points >= THRESHOLD <==> 20_000 * n >= 15_999 * d)
      && (5 * n >= 4 * d ==> points >= THRESHOLD)
      && (points == FULL_SCORE <==> 20_000 * n >= 19_999 * d)
  {
    var points := ScoreToBasisPoints(n, d).value;
    RoundsToNearest(n, d);
    hide ScoreToBasisPoints;
    TimesGrows(points, 7_999, d);
    TimesGrows(8_000, points, d);
    TimesGrows(points, 9_999, d);
    TimesGrows(10_000, points, d);
    TimesGrows(points, 10_000, d);
    TimesGrows(0, points, d);
  }
}
