/**
 * The score of a pair of recipe structures (backend/app/services/recipe_duplicate_scoring.py). Its fractions are exact,
 * and reals stand for them.
 */
module DuplicateScoring {
  import opened Outcomes
  import opened DuplicateCandidates
  import opened LongestCommon
  import opened Overlap

  datatype Mode = Exact | Range | Qualitative(name: string)

  datatype Measure = Measure(mode: Mode, unit: Option<string>, package: Option<string>, values: seq<real>)

  datatype Occurrence = Occurrence(identity: string, measure: Measure)

  datatype Action = Action(kind: string, inputs: seq<string>, duration: Option<Measure>, temperature: Option<Measure>)

  datatype Structure = Structure(ingredients: seq<Occurrence>, actions: seq<Action>)

  const MAX_PAIR_WORK := 10_000_000

  /** What the parser makes: one value for an exact amount, two for a range, and none for any other mode. */
  predicate Parsed(xs: seq<Occurrence>) {
    forall i :: 0 <= i < |xs| ==>
      |xs[i].measure.values| == match xs[i].measure.mode
                                case Exact => 1
                                case Range => 2
                                case Qualitative(_) => 0
  }

  // ---- quantities under one scale ----

  function Times(values: seq<real>, scale: real): (scaled: seq<real>)
    ensures |scaled| == |values|
  {
    seq(|values|, i requires 0 <= i < |values| => values[i] * scale)
  }

  function Rescale(o: Occurrence, scale: real): Occurrence {
    o.(measure := o.measure.(values := Times(o.measure.values, scale)))
  }

  function Rescaled(xs: seq<Occurrence>, scale: real): (ys: seq<Occurrence>)
    ensures |ys| == |xs|
  {
    seq(|xs|, i requires 0 <= i < |xs| => Rescale(xs[i], scale))
  }

  /** `_quantity_matches`. */
  function QuantityMatches(left: seq<Occurrence>, right: seq<Occurrence>, scale: real): nat {
    Common(Rescaled(left, scale), Rescaled(right, 1.0))
  }

  predicate Compatible(l: Measure, r: Measure) {
    && l.values != [] && r.values != []
    && l.mode == r.mode && l.unit == r.unit && l.package == r.package
  }

  /** The ratio of two values at one place of two compatible measures of one ingredient. */
  predicate Ratio(l: Measure, r: Measure, scale: real) {
    exists k :: 0 <= k < |l.values| && k < |r.values| && l.values[k] != 0.0
                && scale == r.values[k] / l.values[k] && scale > 0.0
  }

  predicate FromPair(l: Occurrence, r: Occurrence, scale: real) {
    l.identity == r.identity && Compatible(l.measure, r.measure) && Ratio(l.measure, r.measure, scale)
  }

  predicate Candidate(left: seq<Occurrence>, right: seq<Occurrence>, scale: real) {
    scale == 1.0 || exists l, r :: l in left && r in right && FromPair(l, r, scale)
  }

  /** Measured alike, with a positive scale that takes a value of the one to the value of the other at its place. */
  predicate Stretches(l: Occurrence, r: Occurrence, k: nat, scale: real) {
    && l.identity == r.identity && l.measure.mode == r.measure.mode && l.measure.unit == r.measure.unit
    && l.measure.package == r.measure.package && k < |l.measure.values| && k < |r.measure.values|
    && scale > 0.0 && l.measure.values[k] != 0.0 && l.measure.values[k] * scale == r.measure.values[k]
  }

  lemma QuotientIs(a: real, b: real, q: real)
    requires a != 0.0
    ensures q == b / a <==> a * q == b
  {}

  lemma StretchesMeans(l: Occurrence, r: Occurrence, k: nat, scale: real)
    requires k < |l.measure.values| && k < |r.measure.values|
    ensures Stretches(l, r, k, scale) <==>
              && l.identity == r.identity && Compatible(l.measure, r.measure) && l.measure.values[k] != 0.0
              && scale == r.measure.values[k] / l.measure.values[k] && scale > 0.0
  {
    if l.measure.values[k] != 0.0 { QuotientIs(l.measure.values[k], r.measure.values[k], scale); }
  }

  /** A scale comes from a pair exactly when it takes one of its values to the other's. */
  lemma FromPairMeans(l: Occurrence, r: Occurrence, scale: real)
    ensures FromPair(l, r, scale) <==>
            exists k :: 0 <= k < |l.measure.values| && k < |r.measure.values| && Stretches(l, r, k, scale)
  {
    hide Stretches, Compatible;
    forall k: nat | k < |l.measure.values| && k < |r.measure.values| {
      StretchesMeans(l, r, k, scale);
    }
  }

  /** The ratios of one pair, value by value. */
  method PairScales(l: Measure, r: Measure) returns (scales: set<real>)
    requires |l.values| == |r.values|
    ensures forall s :: s in scales <==> Ratio(l, r, s)
  {
    scales := {};
    for k := 0 to |l.values|
      invariant forall s :: s in scales <==>
                  exists j :: 0 <= j < k && l.values[j] != 0.0 && s == r.values[j] / l.values[j] && s > 0.0
    {
      if l.values[k] != 0.0 {
        var scale := r.values[k] / l.values[k];
        if scale > 0.0 { scales := scales + {scale}; }
      }
    }
  }

  predicate FromOne(l: Occurrence, rs: seq<Occurrence>, scale: real) {
    exists r :: r in rs && FromPair(l, r, scale)
  }

  lemma OneMoreRight(l: Occurrence, rs: seq<Occurrence>, r: Occurrence, s: real)
    ensures FromOne(l, rs + [r], s) <==> FromOne(l, rs, s) || FromPair(l, r, s)
  {
    hide FromPair;
    assert r in rs + [r];
  }

  lemma OneMoreLeft(ls: seq<Occurrence>, l: Occurrence, right: seq<Occurrence>, s: real)
    ensures Candidate(ls + [l], right, s) <==> Candidate(ls, right, s) || FromOne(l, right, s)
  {
    hide FromPair;
    assert l in ls + [l];
  }

  /** `_candidate_scales` before sorting. */
  method CollectScales(left: seq<Occurrence>, right: seq<Occurrence>) returns (scales: set<real>)
    requires Parsed(left) && Parsed(right)
    ensures forall s :: s in scales <==> Candidate(left, right, s)
  {
    scales := {1.0};
    for i := 0 to |left|
      invariant forall s :: s in scales <==> Candidate(left[..i], right, s)
    {
      var more := ScalesOfOne(left[i], right);
      scales := scales + more;
      assert left[..i + 1] == left[..i] + [left[i]];
      forall s
        ensures Candidate(left[..i + 1], right, s) <==> Candidate(left[..i], right, s) || FromOne(left[i], right, s)
      {
        OneMoreLeft(left[..i], left[i], right, s);
      }
      hide Candidate, FromOne;
    }
    assert left[..|left|] == left;
  }

  /** The scales one occurrence of the left contributes. */
  method ScalesOfOne(l: Occurrence, right: seq<Occurrence>) returns (scales: set<real>)
    requires Parsed([l]) && Parsed(right)
    ensures forall s :: s in scales <==> FromOne(l, right, s)
  {
    scales := {};
    for j := 0 to |right|
      invariant forall s :: s in scales <==> FromOne(l, right[..j], s)
    {
      var before := scales;
      assert l == [l][0];
      if l.identity == right[j].identity && Compatible(l.measure, right[j].measure) {
        var more := PairScales(l.measure, right[j].measure);
        scales := scales + more;
      }
      assert forall s :: s in scales <==> s in before || FromPair(l, right[j], s);
      assert right[..j + 1] == right[..j] + [right[j]];
      forall s ensures FromOne(l, right[..j + 1], s) <==> FromOne(l, right[..j], s) || FromPair(l, right[j], s) {
        OneMoreRight(l, right[..j], right[j], s);
      }
      hide FromOne, FromPair;
    }
    assert right[..|right|] == right;
  }

  /** 1 first, then the others in ascending order. */
  predicate InTrialOrder(scales: seq<real>) {
    && scales != [] && scales[0] == 1.0
    && (forall i :: 0 < i < |scales| ==> scales[i] != 1.0)
    && forall i, j :: 0 < i < j < |scales| ==> scales[i] < scales[j]
  }

  lemma LeastScale(scales: set<real>, some: real) returns (least: real)
    requires some in scales
    ensures least in scales && forall s :: s in scales ==> least <= s
    decreases |scales|
  {
    least := some;
    var others := scales - {some};
    if other: real :| other in others {
      var below := LeastScale(others, other);
      if below < least { least := below; }
    }
    forall s | s in scales ensures least <= s {
      assert s == some || s in others;
    }
  }

  /** Sorted so far, with what is left above it. */
  ghost predicate Sorting(all: set<real>, scales: seq<real>, todo: set<real>) {
    && InTrialOrder(scales) && 1.0 !in todo
    && (forall s :: s in all <==> s in scales || s in todo)
    && forall i, t :: 0 < i < |scales| && t in todo ==> scales[i] < t
  }

  lemma NothingSorted(all: set<real>)
    requires 1.0 in all
    ensures Sorting(all, [1.0], all - {1.0})
  {}

  lemma OneMoreSorted(all: set<real>, scales: seq<real>, todo: set<real>, least: real)
    requires Sorting(all, scales, todo) && least in todo && forall s :: s in todo ==> least <= s
    ensures Sorting(all, scales + [least], todo - {least})
  {
    OrderGrows(scales, least);
    hide InTrialOrder;
    assert forall s :: s in scales + [least] <==> s in scales || s == least;
  }

  lemma OrderGrows(scales: seq<real>, next: real)
    requires InTrialOrder(scales) && next != 1.0 && forall i :: 0 < i < |scales| ==> scales[i] < next
    ensures InTrialOrder(scales + [next])
  {}

  /** `sorted` by whether a scale is other than 1, and then by the scale. */
  method SortScales(all: set<real>) returns (scales: seq<real>)
    requires 1.0 in all
    ensures InTrialOrder(scales) && forall s :: s in scales <==> s in all
  {
    var todo := all - {1.0};
    scales := [1.0];
    NothingSorted(all);
    while exists s: real :: s in todo
      invariant Sorting(all, scales, todo)
      decreases |todo|
    {
      hide Sorting;
      ghost var some: real :| some in todo;
      some := LeastScale(todo, some);
      var least: real :| least in todo && forall s :: s in todo ==> least <= s;
      OneMoreSorted(all, scales, todo, least);
      scales, todo := scales + [least], todo - {least};
    }
  }

  /** `_candidate_scales`: sorted with 1 preferred. */
  method CandidateScales(left: seq<Occurrence>, right: seq<Occurrence>) returns (scales: seq<real>)
    requires Parsed(left) && Parsed(right)
    ensures InTrialOrder(scales) && forall s :: s in scales <==> Candidate(left, right, s)
  {
    var all := CollectScales(left, right);
    scales := SortScales(all);
  }

  lemma TimesBack(v: real, s: real)
    requires s > 0.0
    ensures v * s * (1.0 / s) == v
  {
    assert s * (1.0 / s) == 1.0;
    assert v * s * (1.0 / s) == v * (s * (1.0 / s));
  }

  lemma RescaledBack(o: Occurrence, s: real)
    requires s > 0.0
    ensures Rescale(Rescale(o, s), 1.0 / s) == o
  {
    var values := o.measure.values;
    forall k | 0 <= k < |values| ensures Times(Times(values, s), 1.0 / s)[k] == values[k] {
      TimesBack(values[k], s);
    }
    assert Times(Times(values, s), 1.0 / s) == values;
  }

  lemma RescaledByOne(o: Occurrence)
    ensures Rescale(o, 1.0) == o
  {
    assert Times(o.measure.values, 1.0) == o.measure.values;
  }

  /** A pair that matches at a scale matches at 1 too, or the scale is one of its ratios. */
  lemma MatchAtScale(l: Occurrence, r: Occurrence, s: real)
    requires s > 0.0 && Rescale(l, s) == Rescale(r, 1.0)
    ensures Rescale(l, 1.0) == Rescale(l, s) || FromPair(l, r, s)
  {
    RescaledByOne(r);
    RescaledByOne(l);
    var ls, rs := l.measure.values, r.measure.values;
    assert |Times(ls, s)| == |rs|;
    if k :| 0 <= k < |ls| && ls[k] != 0.0 {
      assert rs[k] == Times(ls, s)[k] == ls[k] * s;
      QuotientOfProduct(ls[k], s);
      assert Ratio(l.measure, r.measure, s);
    } else {
      assert Times(ls, s) == ls;
    }
  }

  lemma QuotientOfProduct(v: real, s: real)
    requires v != 0.0
    ensures v * s / v == s
  {}

  /**
   * Trying the candidates is trying every positive scale: at any other scale only what no scale changes can match,
   * and all of that matches at 1.
   */
  lemma CandidatesSuffice(left: seq<Occurrence>, right: seq<Occurrence>, s: real)
    requires s > 0.0 && !Candidate(left, right, s)
    ensures QuantityMatches(left, right, s) <= QuantityMatches(left, right, 1.0)
  {
    hide FromPair;
    var a, c, b := Rescaled(left, s), Rescaled(left, 1.0), Rescaled(right, 1.0);
    forall i | 0 <= i < |a| && a[i] in b ensures c[i] == a[i] {
      var j :| 0 <= j < |b| && b[j] == a[i];
      MatchAtScale(left[i], right[j], s);
      assert left[i] in left && right[j] in right;
    }
    AgreeingOverlaps(a, c, b);
  }

  /** No positive scale matches more than this one, which is 1 if 1 matches as much and else the least candidate. */
  ghost predicate BestScale(left: seq<Occurrence>, right: seq<Occurrence>, scale: real) {
    && scale > 0.0 && Candidate(left, right, scale)
    && (forall s :: s > 0.0 ==> QuantityMatches(left, right, s) <= QuantityMatches(left, right, scale))
    && (forall s :: Candidate(left, right, s)
                    && QuantityMatches(left, right, s) == QuantityMatches(left, right, scale) ==>
                      scale == 1.0 || (s != 1.0 && scale <= s))
  }

  /** `_dice`. */
  function Dice(matched: nat, left: nat, right: nat): real {
    if left + right == 0 then 1.0 else (2 * matched) as real / (left + right) as real
  }

  /** `_quantity_score`. */
  method QuantityScore(left: seq<Occurrence>, right: seq<Occurrence>) returns (score: real, best: real)
    requires Parsed(left) && Parsed(right)
    ensures BestScale(left, right, best)
    ensures score == Dice(QuantityMatches(left, right, best), |left|, |right|)
  {
    hide QuantityMatches;
    var scales := CandidateScales(left, right);
    var bestMatches := QuantityMatches(left, right, scales[0]);
    ghost var at := 0;
    best := scales[0];
    for i := 1 to |scales|
      invariant 0 <= at < i && best == scales[at] && bestMatches == QuantityMatches(left, right, best)
      invariant forall k :: 0 <= k < i ==> QuantityMatches(left, right, scales[k]) <= bestMatches
      invariant forall k :: 0 <= k < at ==> QuantityMatches(left, right, scales[k]) < bestMatches
    {
      var matches := QuantityMatches(left, right, scales[i]);
      if matches > bestMatches { bestMatches, best, at := matches, scales[i], i; }
    }
    FirstIsBest(left, right, scales, at);
    score := Dice(bestMatches, |left|, |right|);
  }

  lemma FirstIsBest(left: seq<Occurrence>, right: seq<Occurrence>, scales: seq<real>, at: nat)
    requires InTrialOrder(scales) && (forall s :: s in scales <==> Candidate(left, right, s)) && at < |scales|
    requires forall k :: 0 <= k < |scales| ==>
               QuantityMatches(left, right, scales[k]) <= QuantityMatches(left, right, scales[at])
    requires forall k :: 0 <= k < at ==>
               QuantityMatches(left, right, scales[k]) < QuantityMatches(left, right, scales[at])
    ensures BestScale(left, right, scales[at])
  {
    hide QuantityMatches;
    assert scales[at] in scales;
    CandidatesArePositive(left, right, scales[at]);
    hide Candidate;
    forall s | s > 0.0 ensures QuantityMatches(left, right, s) <= QuantityMatches(left, right, scales[at]) {
      if Candidate(left, right, s) {
        var k :| 0 <= k < |scales| && scales[k] == s;
      } else {
        CandidatesSuffice(left, right, s);
      }
    }
    forall s | Candidate(left, right, s) && QuantityMatches(left, right, s) == QuantityMatches(left, right, scales[at])
      ensures scales[at] == 1.0 || (s != 1.0 && scales[at] <= s)
    {
      var k :| 0 <= k < |scales| && scales[k] == s;
    }
  }

  lemma CandidatesArePositive(left: seq<Occurrence>, right: seq<Occurrence>, s: real)
    requires Candidate(left, right, s)
    ensures s > 0.0
  {}

  /** Scaling the left by `s` matches what scaling the right by its inverse does. */
  lemma MatchesSwap(left: seq<Occurrence>, right: seq<Occurrence>, s: real)
    requires s > 0.0
    ensures QuantityMatches(left, right, s) == QuantityMatches(right, left, 1.0 / s)
  {
    var back := (o: Occurrence) => Rescale(o, 1.0 / s);
    var a, b := Rescaled(left, s), Rescaled(right, 1.0);
    forall x, y | back(x) == back(y) ensures x == y {
      BackIsInjective(x, y, s);
    }
    ImageOverlaps(back, a, b);
    assert Image(back, a) == Rescaled(left, 1.0) by {
      forall i | 0 <= i < |left| ensures back(a[i]) == Rescale(left[i], 1.0) {
        RescaledBack(left[i], s);
        RescaledByOne(left[i]);
      }
    }
    assert Image(back, b) == Rescaled(right, 1.0 / s) by {
      forall i | 0 <= i < |right| ensures back(b[i]) == Rescale(right[i], 1.0 / s) {
        RescaledByOne(right[i]);
      }
    }
    CommonIsSymmetric(Rescaled(left, 1.0), Rescaled(right, 1.0 / s));
  }

  lemma BackIsInjective(x: Occurrence, y: Occurrence, s: real)
    requires s > 0.0 && Rescale(x, 1.0 / s) == Rescale(y, 1.0 / s)
    ensures x == y
  {
    assert 1.0 / s > 0.0;
    RescaledBack(x, 1.0 / s);
    RescaledBack(y, 1.0 / s);
  }

  /** The best scales of the two directions match as much. */
  lemma BestIsSymmetric(left: seq<Occurrence>, right: seq<Occurrence>, s: real, t: real)
    requires BestScale(left, right, s) && BestScale(right, left, t)
    ensures QuantityMatches(left, right, s) == QuantityMatches(right, left, t)
  {
    hide QuantityMatches, Candidate;
    MatchesSwap(left, right, s);
    MatchesSwap(right, left, t);
    assert 1.0 / s > 0.0 && 1.0 / t > 0.0;
  }

  // ---- ingredients and actions ----

  function Identities(xs: seq<Occurrence>): (ids: seq<string>)
    ensures |ids| == |xs|
  {
    seq(|xs|, i requires 0 <= i < |xs| => xs[i].identity)
  }

  function Kinds(actions: seq<Action>): (kinds: seq<string>)
    ensures |kinds| == |actions|
  {
    seq(|actions|, i requires 0 <= i < |actions| => actions[i].kind)
  }

  function Inputs(actions: seq<Action>): seq<(string, string)> {
    if actions == [] then []
    else
      var last := actions[|actions| - 1];
      Inputs(actions[..|actions| - 1])
      + seq(|last.inputs|, i requires 0 <= i < |last.inputs| => (last.kind, last.inputs[i]))
  }

  function Parameters(actions: seq<Action>): (ps: seq<(string, Option<Measure>, Option<Measure>)>)
    ensures |ps| == |actions|
  {
    seq(|actions|, i requires 0 <= i < |actions| => (actions[i].kind, actions[i].duration, actions[i].temperature))
  }

  datatype Components = Components(ingredients: real, quantities: real, order: real, inputs: real, parameters: real)
  {
    function Actions(): real {
      order / 2.0 + 3.0 * inputs / 10.0 + parameters / 5.0
    }

    function Total(): real {
      9.0 * ingredients / 20.0 + quantities / 4.0 + 3.0 * Actions() / 10.0
    }

    predicate Bounded() {
      && 0.0 <= ingredients <= 1.0 && 0.0 <= quantities <= 1.0 && 0.0 <= order <= 1.0 && 0.0 <= inputs <= 1.0
      && 0.0 <= parameters <= 1.0
    }
  }

  function ComponentsAt(left: Structure, right: Structure, scale: real): Components {
    Components(
      Dice(Common(Identities(left.ingredients), Identities(right.ingredients)),
           |left.ingredients|, |right.ingredients|),
      Dice(QuantityMatches(left.ingredients, right.ingredients, scale), |left.ingredients|, |right.ingredients|),
      Dice(Length(Kinds(left.actions), Kinds(right.actions)), |left.actions|, |right.actions|),
      Dice(Length(Inputs(left.actions), Inputs(right.actions)), |Inputs(left.actions)|, |Inputs(right.actions)|),
      Dice(Length(Parameters(left.actions), Parameters(right.actions)), |left.actions|, |right.actions|))
  }

  /**
   * The weights: nine twentieths for the ingredients, a quarter for the quantities and three tenths for the actions; of
   * these a half for their order, three tenths for the inputs and a fifth for the parameters.
   */
  lemma Weights(c: Components)
    ensures 200.0 * c.Total() == 90.0 * c.ingredients + 50.0 * c.quantities + 30.0 * c.order + 18.0 * c.inputs
                                 + 12.0 * c.parameters
    ensures 10.0 * c.Actions() == 5.0 * c.order + 3.0 * c.inputs + 2.0 * c.parameters
  {}

  /** The coefficient: twice what is in common over the size of both, and 1 for nothing at all. */
  lemma DiceMeans(matched: nat, left: nat, right: nat)
    ensures Dice(matched, left, right) * (left + right) as real ==
      (if left + right == 0 then 0 else 2 * matched) as real
    ensures left + right == 0 ==> Dice(matched, left, right) == 1.0
  {}

  lemma DiceIsBounded(matched: nat, left: nat, right: nat)
    requires matched <= left && matched <= right
    ensures 0.0 <= Dice(matched, left, right) <= 1.0
    ensures Dice(matched, left, right) == 1.0 <==> matched == left == right
    ensures left + right > 0 ==> (Dice(matched, left, right) > 0.0 <==> matched > 0)
  {
    if left + right > 0 {
      var m, d := (2 * matched) as real, (left + right) as real;
      QuotientGrows(0.0, m, d);
      QuotientGrows(m, d, d);
      assert m / d * d == m && d / d == 1.0 && 0.0 / d == 0.0;
    }
  }

  /** Every component, the actions' part and the total lie between 0 and 1. */
  lemma ScoreIsBounded(left: Structure, right: Structure, scale: real)
    ensures var c := ComponentsAt(left, right, scale);
      c.Bounded() && 0.0 <= c.Actions() <= 1.0 && 0.0 <= c.Total() <= 1.0
  {
    hide Common, Length, QuantityMatches, Dice;
    ComponentsAreOverlaps(left, right, scale);
  }

  lemma ComponentsAreOverlaps(left: Structure, right: Structure, scale: real)
    ensures var c := ComponentsAt(left, right, scale);
      && c.Bounded()
      && (c.ingredients == 1.0 <==> multiset(Identities(left.ingredients)) == multiset(Identities(right.ingredients)))
      && (c.quantities == 1.0 <==>
           multiset(Rescaled(left.ingredients, scale)) == multiset(Rescaled(right.ingredients, 1.0)))
      && (c.order == 1.0 <==> Kinds(left.actions) == Kinds(right.actions))
      && (c.inputs == 1.0 <==> Inputs(left.actions) == Inputs(right.actions))
      && (c.parameters == 1.0 <==> Parameters(left.actions) == Parameters(right.actions))
  {
    hide Common, Length, Dice;
    IngredientsOverlap(left.ingredients, right.ingredients, scale);
    LengthIsBounded(Kinds(left.actions), Kinds(right.actions));
    DiceIsBounded(Length(Kinds(left.actions), Kinds(right.actions)), |left.actions|, |right.actions|);
    LengthIsBounded(Inputs(left.actions), Inputs(right.actions));
    DiceIsBounded(Length(Inputs(left.actions), Inputs(right.actions)),
                  |Inputs(left.actions)|, |Inputs(right.actions)|);
    LengthIsBounded(Parameters(left.actions), Parameters(right.actions));
    DiceIsBounded(Length(Parameters(left.actions), Parameters(right.actions)), |left.actions|, |right.actions|);
  }

  lemma IngredientsOverlap(left: seq<Occurrence>, right: seq<Occurrence>, scale: real)
    ensures var ingredients := Dice(Common(Identities(left), Identities(right)), |left|, |right|);
            var quantities := Dice(QuantityMatches(left, right, scale), |left|, |right|);
      && 0.0 <= ingredients <= 1.0 && 0.0 <= quantities <= 1.0
      && (ingredients == 1.0 <==> multiset(Identities(left)) == multiset(Identities(right)))
      && (quantities == 1.0 <==> multiset(Rescaled(left, scale)) == multiset(Rescaled(right, 1.0)))
  {
    hide Common, Dice;
    CommonIsBounded(Identities(left), Identities(right));
    AllInCommon(Identities(left), Identities(right));
    DiceIsBounded(Common(Identities(left), Identities(right)), |left|, |right|);
    CommonIsBounded(Rescaled(left, scale), Rescaled(right, 1.0));
    AllInCommon(Rescaled(left, scale), Rescaled(right, 1.0));
    DiceIsBounded(QuantityMatches(left, right, scale), |left|, |right|);
  }

  /** Quantities never match more than the ingredients do. */
  lemma QuantitiesNeverExceedIngredients(left: Structure, right: Structure, scale: real)
    ensures ComponentsAt(left, right, scale).quantities <= ComponentsAt(left, right, scale).ingredients
  {
    hide Length, Inputs, Parameters, Kinds, Common;
    var l, r := left.ingredients, right.ingredients;
    var identity := (o: Occurrence) => o.identity;
    ImageOverlaps(identity, Rescaled(l, scale), Rescaled(r, 1.0));
    assert Image(identity, Rescaled(l, scale)) == Identities(l);
    assert Image(identity, Rescaled(r, 1.0)) == Identities(r);
    DiceGrows(QuantityMatches(l, r, scale), Common(Identities(l), Identities(r)), |l|, |r|);
  }

  lemma QuotientGrows(a: real, b: real, d: real)
    requires a <= b && d > 0.0
    ensures a / d <= b / d
  {
    var x, y := a / d, b / d;
    assert x * d == a && y * d == b;
    if x > y { ProductIsPositive(x - y, d); }
  }

  lemma ProductIsPositive(u: real, d: real)
    requires u > 0.0 && d > 0.0
    ensures u * d > 0.0
  {}

  lemma DiceGrows(few: nat, many: nat, left: nat, right: nat)
    requires few <= many
    ensures Dice(few, left, right) <= Dice(many, left, right)
  {
    if left + right > 0 {
      var d := (left + right) as real;
      QuotientGrows((2 * few) as real, (2 * many) as real, d);
    }
  }

  /** The score does not depend on which recipe comes first. */
  lemma ScoreIsSymmetric(left: Structure, right: Structure, s: real, t: real)
    requires BestScale(left.ingredients, right.ingredients, s)
    requires BestScale(right.ingredients, left.ingredients, t)
    ensures ComponentsAt(left, right, s) == ComponentsAt(right, left, t)
  {
    hide Common, Length, QuantityMatches, BestScale;
    BestIsSymmetric(left.ingredients, right.ingredients, s, t);
    CommonIsSymmetric(Identities(left.ingredients), Identities(right.ingredients));
    LengthIsSymmetric(Kinds(left.actions), Kinds(right.actions));
    LengthIsSymmetric(Inputs(left.actions), Inputs(right.actions));
    LengthIsSymmetric(Parameters(left.actions), Parameters(right.actions));
  }

  /** Some positive scale makes the two bags of measured ingredients one. */
  ghost predicate Proportional(left: seq<Occurrence>, right: seq<Occurrence>) {
    exists s :: s > 0.0 && multiset(Rescaled(left, s)) == multiset(Rescaled(right, 1.0))
  }

  /** All quantities match exactly when the recipes are proportional. */
  lemma AllMatchExactlyWhenProportional(left: Structure, right: Structure, s: real)
    requires BestScale(left.ingredients, right.ingredients, s)
    ensures ComponentsAt(left, right, s).quantities == 1.0 <==> Proportional(left.ingredients, right.ingredients)
  {
    hide Common, Length, Inputs, Parameters, Kinds, Candidate, Rescaled;
    var l, r := left.ingredients, right.ingredients;
    ComponentsAreOverlaps(left, right, s);
    if ComponentsAt(left, right, s).quantities == 1.0 {
      assert s > 0.0 && multiset(Rescaled(l, s)) == multiset(Rescaled(r, 1.0));
    }
    if t :| t > 0.0 && multiset(Rescaled(l, t)) == multiset(Rescaled(r, 1.0)) {
      AllInCommon(Rescaled(l, t), Rescaled(r, 1.0));
      assert QuantityMatches(l, r, t) <= QuantityMatches(l, r, s);
      CommonIsBounded(Rescaled(l, s), Rescaled(r, 1.0));
      AllInCommon(Rescaled(l, s), Rescaled(r, 1.0));
    }
  }

  /** The full score is given exactly to proportional recipes with the same actions, inputs and parameters in order. */
  lemma FullScoreExactlyWhenSame(left: Structure, right: Structure, s: real)
    requires BestScale(left.ingredients, right.ingredients, s)
    ensures ComponentsAt(left, right, s).Total() == 1.0
       <==> && Proportional(left.ingredients, right.ingredients)
            && Inputs(left.actions) == Inputs(right.actions)
            && Parameters(left.actions) == Parameters(right.actions)
  {
    hide Common, Length, Dice, ComponentsAt, Proportional, BestScale;
    var c := ComponentsAt(left, right, s);
    ComponentsAreOverlaps(left, right, s);
    QuantitiesNeverExceedIngredients(left, right, s);
    AllMatchExactlyWhenProportional(left, right, s);
    if Parameters(left.actions) == Parameters(right.actions) {
      ParametersGiveKinds(left.actions, right.actions);
    }
  }

  lemma ParametersGiveKinds(left: seq<Action>, right: seq<Action>)
    requires Parameters(left) == Parameters(right)
    ensures Kinds(left) == Kinds(right)
  {
    assert |left| == |right|;
    forall i | 0 <= i < |left| ensures left[i].kind == right[i].kind {
      assert Parameters(left)[i] == Parameters(right)[i];
    }
  }

  // ---- the result ----

  function IngredientReason(c: Components): string {
    if c.ingredients == 1.0 then "same_ingredient_multiset"
    else if c.ingredients > 0.0 then "overlapping_ingredient_multisets"
    else "different_ingredient_multisets"
  }

  function QuantityReason(c: Components, scale: real): string {
    if c.quantities == 1.0 && scale != 1.0 then "proportionally_scaled_quantities"
    else if c.quantities == 1.0 then "matching_quantities"
    else if c.quantities > 0.0 then "partially_matching_quantities"
    else "different_quantities"
  }

  function ActionReason(c: Components, sameKinds: bool): string {
    if c.Actions() == 1.0 then "matching_structured_actions"
    else if !sameKinds then "different_action_types"
    else if c.order < 1.0 then "different_action_order"
    else if c.inputs < 1.0 then "different_ordered_inputs"
    else "different_duration_or_temperature"
  }

  function Reasons(left: Structure, right: Structure, c: Components, scale: real): seq<string> {
    [IngredientReason(c), QuantityReason(c, scale),
     ActionReason(c, multiset(Kinds(left.actions)) == multiset(Kinds(right.actions)))]
  }

  /** The reason given for the actions says what differs first: the kinds, their order, the inputs or the parameters. */
  lemma ActionReasonMeans(left: Structure, right: Structure, scale: real)
    ensures var l, r := left.actions, right.actions;
            var reason := ActionReason(ComponentsAt(left, right, scale), multiset(Kinds(l)) == multiset(Kinds(r)));
            reason == if multiset(Kinds(l)) != multiset(Kinds(r)) then "different_action_types"
                      else if Kinds(l) != Kinds(r) then "different_action_order"
                      else if Inputs(l) != Inputs(r) then "different_ordered_inputs"
                      else if Parameters(l) != Parameters(r) then "different_duration_or_temperature"
                      else "matching_structured_actions"
  {
    hide Common, Length, Dice, ComponentsAt;
    ComponentsAreOverlaps(left, right, scale);
  }

  /**
   * The reason given for the quantities: all match at scale 1, all match at another scale only, or not all match at
   * any scale.
   */
  lemma QuantityReasonMeans(left: Structure, right: Structure, s: real)
    requires BestScale(left.ingredients, right.ingredients, s)
    ensures var l, r := left.ingredients, right.ingredients;
            var reason := QuantityReason(ComponentsAt(left, right, s), s);
      && (reason == "matching_quantities" <==> multiset(Rescaled(l, 1.0)) == multiset(Rescaled(r, 1.0)))
      && (reason == "proportionally_scaled_quantities" <==>
           Proportional(l, r) && multiset(Rescaled(l, 1.0)) != multiset(Rescaled(r, 1.0)))
  {
    hide Common, Length, Inputs, Parameters, Kinds, Candidate, Rescaled, Proportional, Dice;
    var l, r := left.ingredients, right.ingredients;
    ComponentsAreOverlaps(left, right, s);
    AllMatchExactlyWhenProportional(left, right, s);
    ReasonsDiffer();
    OneIsPreferred(l, r, s);
  }

  /** Quantities are called different exactly when there are some and none match at any positive scale. */
  lemma DifferentQuantitiesMeans(left: Structure, right: Structure, s: real)
    requires BestScale(left.ingredients, right.ingredients, s)
    ensures var l, r := left.ingredients, right.ingredients;
            var reason := QuantityReason(ComponentsAt(left, right, s), s);
      && (reason == "different_quantities" <==>
           (l != [] || r != []) && forall t :: t > 0.0 ==> QuantityMatches(l, r, t) == 0)
      && (reason == "partially_matching_quantities" <==>
           !Proportional(l, r) && exists t :: t > 0.0 && QuantityMatches(l, r, t) > 0)
  {
    hide Length, Inputs, Parameters, Kinds, Candidate, Proportional, Dice, Common;
    var l, r := left.ingredients, right.ingredients;
    AllMatchExactlyWhenProportional(left, right, s);
    ReasonsDiffer();
    hide QuantityMatches;
    DiceIsZero(QuantityMatches(l, r, s), |l|, |r|);
    var c := ComponentsAt(left, right, s);
    assert c.quantities == Dice(QuantityMatches(l, r, s), |l|, |r|);
    assert (exists t :: t > 0.0 && QuantityMatches(l, r, t) > 0) <==> QuantityMatches(l, r, s) > 0;
    assert QuantityReason(c, s) == "partially_matching_quantities" <==> c.quantities != 1.0 && c.quantities > 0.0;
    if |l| + |r| == 0 { NothingMeasured(l, r); }
  }

  lemma NothingMeasured(l: seq<Occurrence>, r: seq<Occurrence>)
    requires l == [] && r == []
    ensures Proportional(l, r)
  {
    assert multiset(Rescaled(l, 1.0)) == multiset(Rescaled(r, 1.0));
  }

  lemma DiceIsZero(matched: nat, left: nat, right: nat)
    ensures Dice(matched, left, right) >= 0.0
    ensures Dice(matched, left, right) == 0.0 <==> matched == 0 && left + right > 0
  {
    if left + right > 0 {
      var total := (left + right) as real;
      QuotientIs(total, (2 * matched) as real, Dice(matched, left, right));
      if Dice(matched, left, right) < 0.0 { ProductIsPositive(-Dice(matched, left, right), total); }
    }
  }

  lemma ReasonsDiffer()
    ensures |"matching_quantities"| == 19 && |"proportionally_scaled_quantities"| == 32
    ensures |"partially_matching_quantities"| == 29 && |"different_quantities"| == 20
  {}

  lemma OneIsPreferred(l: seq<Occurrence>, r: seq<Occurrence>, s: real)
    requires BestScale(l, r, s)
    ensures multiset(Rescaled(l, 1.0)) == multiset(Rescaled(r, 1.0)) ==> s == 1.0
    ensures multiset(Rescaled(l, 1.0)) == multiset(Rescaled(r, 1.0)) ==> Proportional(l, r)
  {
    hide Common, Rescaled;
    if multiset(Rescaled(l, 1.0)) == multiset(Rescaled(r, 1.0)) {
      AllInCommon(Rescaled(l, 1.0), Rescaled(r, 1.0));
      CommonIsBounded(Rescaled(l, s), Rescaled(r, 1.0));
      assert Candidate(l, r, 1.0);
    }
  }

  datatype Score = Score(classification: string, score: real, scale: real, components: Components, reasons: seq<string>)

  /** `estimate_recipe_duplicate_pair_work`. */
  function PairWork(left: Structure, right: Structure): int {
    (1 + 2 * |left.ingredients| * |right.ingredients|) * (|left.ingredients| + |right.ingredients|)
    + 2 * |left.actions| * |right.actions| + |Inputs(left.actions)| * |Inputs(right.actions)|
  }

  /** `_action_scores`. */
  method ActionScores(left: seq<Action>, right: seq<Action>) returns (order: real, inputs: real, parameters: real)
    ensures order == Dice(Length(Kinds(left), Kinds(right)), |left|, |right|)
    ensures inputs == Dice(Length(Inputs(left), Inputs(right)), |Inputs(left)|, |Inputs(right)|)
    ensures parameters == Dice(Length(Parameters(left), Parameters(right)), |left|, |right|)
  {
    var length := LcsLength(Kinds(left), Kinds(right));
    order := Dice(length, |left|, |right|);
    length := LcsLength(Inputs(left), Inputs(right));
    inputs := Dice(length, |Inputs(left)|, |Inputs(right)|);
    length := LcsLength(Parameters(left), Parameters(right));
    parameters := Dice(length, |left|, |right|);
  }

  /** `score_recipe_duplicate_candidates` on parsed structures; `exact` is the comparison of the fingerprints. */
  method ScorePair(left: Structure, right: Structure, exact: bool) returns (r: Option<Score>)
    requires Parsed(left.ingredients) && Parsed(right.ingredients)
    ensures r.None? <==> !exact && PairWork(left, right) > MAX_PAIR_WORK
    ensures exact ==> r == Some(Score(EXACT, 1.0, 1.0, Components(1.0, 1.0, 1.0, 1.0, 1.0), EXACT_REASONS))
    ensures r.Some? && !exact ==>
              && BestScale(left.ingredients, right.ingredients, r.value.scale)
              && r.value.components == ComponentsAt(left, right, r.value.scale)
              && r.value.score == r.value.components.Total()
              && r.value.reasons == Reasons(left, right, r.value.components, r.value.scale)
              && r.value.classification == if 5.0 * r.value.score >= 4.0 then PROBABLE else DISTINCT
  {
    hide BestScale, Common, Length, QuantityMatches, Inputs;
    if exact { return Some(Score(EXACT, 1.0, 1.0, Components(1.0, 1.0, 1.0, 1.0, 1.0), EXACT_REASONS)); }
    if PairWork(left, right) > MAX_PAIR_WORK { return None; }
    var matched := Common(Identities(left.ingredients), Identities(right.ingredients));
    var ingredients := Dice(matched, |left.ingredients|, |right.ingredients|);
    var quantities, scale := QuantityScore(left.ingredients, right.ingredients);
    var order, inputs, parameters := ActionScores(left.actions, right.actions);
    var c := Components(ingredients, quantities, order, inputs, parameters);
    var classification := if c.Total() >= 4.0 / 5.0 then PROBABLE else DISTINCT;
    r := Some(Score(classification, c.Total(), scale, c, Reasons(left, right, c, scale)));
  }

  /** What the scorer calls a duplicate passes the checks of the store, in basis points of the same fraction. */
  lemma ProbableResultsAreStorable(left: Structure, right: Structure, scale: real, n: int, d: int, c: Candidate)
    requires 0 <= n <= d && d > 0 && n as real / d as real == ComponentsAt(left, right, scale).Total()
    requires 5.0 * ComponentsAt(left, right, scale).Total() >= 4.0
    requires c.classification == PROBABLE && !c.exactPayload && c.score == ScoreToBasisPoints(n, d).value
    requires c.reasons == Reasons(left, right, ComponentsAt(left, right, scale), scale)
    ensures RowAllowed(c)
  {
    hide Length, Common, QuantityMatches, Inputs, ComponentsAt;
    var total := ComponentsAt(left, right, scale).Total();
    assert n as real == total * d as real;
    assert 5 * n >= 4 * d;
    ThresholdInPoints(n, d);
    hide Reasons, ScoreToBasisPoints;
    ReasonsAreOfTheirFamilies(left, right, ComponentsAt(left, right, scale), scale);
  }

  lemma ReasonsAreOfTheirFamilies(left: Structure, right: Structure, c: Components, scale: real)
    ensures var reasons := Reasons(left, right, c, scale);
      && |reasons| == 3 && reasons[0] in INGREDIENT_REASONS && reasons[1] in QUANTITY_REASONS
      && reasons[2] in ACTION_REASONS
  {
    assert INGREDIENT_REASONS[0] in INGREDIENT_REASONS && INGREDIENT_REASONS[1] in INGREDIENT_REASONS
           && INGREDIENT_REASONS[2] in INGREDIENT_REASONS;
    assert QUANTITY_REASONS[0] in QUANTITY_REASONS && QUANTITY_REASONS[1] in QUANTITY_REASONS
           && QUANTITY_REASONS[2] in QUANTITY_REASONS && QUANTITY_REASONS[3] in QUANTITY_REASONS;
    assert ACTION_REASONS[0] in ACTION_REASONS && ACTION_REASONS[1] in ACTION_REASONS
           && ACTION_REASONS[2] in ACTION_REASONS && ACTION_REASONS[3] in ACTION_REASONS
           && ACTION_REASONS[4] in ACTION_REASONS;
  }

  // ---- what is compared ----

  /** What is read from the ingredients and actions of a structure. */
  lemma FeaturesMean(xs: seq<Occurrence>, actions: seq<Action>, scale: real, i: nat, j: nat)
    requires i < |xs| && j < |actions|
    ensures Identities(xs)[i] == xs[i].identity
    ensures Rescaled(xs, scale)[i].identity == xs[i].identity
    ensures var m, n := xs[i].measure, Rescaled(xs, scale)[i].measure;
      && n.mode == m.mode && n.unit == m.unit && n.package == m.package && |n.values| == |m.values|
      && forall k :: 0 <= k < |m.values| ==> n.values[k] == m.values[k] * scale
    ensures Kinds(actions)[j] == actions[j].kind
    ensures Parameters(actions)[j] == (actions[j].kind, actions[j].duration, actions[j].temperature)
  {}

  /** The inputs in the order of the actions and within each action, each with the kind of its action. */
  lemma InputsMean(actions: seq<Action>, last: Action)
    ensures Inputs([]) == []
    ensures |Inputs(actions + [last])| == |Inputs(actions)| + |last.inputs|
    ensures Inputs(actions + [last])[..|Inputs(actions)|] == Inputs(actions)
    ensures forall k :: 0 <= k < |last.inputs| ==>
              Inputs(actions + [last])[|Inputs(actions)| + k] == (last.kind, last.inputs[k])
  {
    assert (actions + [last])[..|actions|] == actions;
  }

  /** The reason given for the ingredients: the same bag, one shared ingredient at least, or none. */
  lemma IngredientReasonMeans(left: Structure, right: Structure, scale: real)
    ensures var l, r := Identities(left.ingredients), Identities(right.ingredients);
            var reason := IngredientReason(ComponentsAt(left, right, scale));
      reason == if multiset(l) == multiset(r) then "same_ingredient_multiset"
                else if exists x :: x in l && x in r then "overlapping_ingredient_multisets"
                else "different_ingredient_multisets"
  {
    hide Length, QuantityMatches, Inputs, Parameters, Kinds, Identities, Dice;
    var l, r := Identities(left.ingredients), Identities(right.ingredients);
    ComponentsAreOverlaps(left, right, scale);
    CommonIsBounded(l, r);
    DiceIsBounded(Common(l, r), |left.ingredients|, |right.ingredients|);
    SharedIsCommon(l, r);
    hide Common;
    if |left.ingredients| + |right.ingredients| == 0 { assert l == [] && r == []; }
  }

  lemma SharedIsCommon(l: seq<string>, r: seq<string>)
    ensures Common(l, r) > 0 <==> exists x :: x in l && x in r
  {
    if x :| x in l && x in r {
      assert x in multiset(l) * multiset(r);
    }
    if Common(l, r) > 0 {
      var x :| x in multiset(l) * multiset(r);
      assert x in l && x in r;
    }
  }

  /** The estimate of the work: twice the pairs and one, for each ingredient; the tables of the actions; the inputs. */
  lemma WorkMeans(left: Structure, right: Structure)
    ensures var l, r, a, b := |left.ingredients|, |right.ingredients|, |left.actions|, |right.actions|;
      PairWork(left, right)
      == l + r + 2 * (l * r * (l + r)) + a * b + a * b + |Inputs(left.actions)| * |Inputs(right.actions)|
    ensures MAX_PAIR_WORK == 10_000_000
  {
    hide Inputs;
    var l, r := |left.ingredients|, |right.ingredients|;
    assert (1 + 2 * l * r) * (l + r) == (l + r) + 2 * l * r * (l + r);
    assert 2 * l * r * (l + r) == 2 * (l * r * (l + r));
    assert 2 * |left.actions| * |right.actions| == |left.actions| * |right.actions| + |left.actions| * |right.actions|;
  }

  /** The names of the classes. */
  lemma ClassNames()
    ensures EXACT == "exact_duplicate" && PROBABLE == "probable_duplicate" && DISTINCT == "distinct"
    ensures EXACT_REASONS == ["exact_structural_match"]
  {}
}
