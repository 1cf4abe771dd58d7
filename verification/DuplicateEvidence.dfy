/**
 * The write-once store of duplicate evidence under concurrent calls. Each statement of a call is atomic; between two
 * of them other calls may add rows. Rows are only ever added, so a call is judged by the stores its statements saw.
 */
module DuplicateEvidence {
  import opened DuplicateCandidates
  import opened Outcomes

  datatype Preflight = Preflight(
    actor: Id,
    action: Id,
    fingerprint: string,
    subject: Subject,
    digest: string,
    candidates: seq<Candidate>)

  datatype Decision = Decision(preflight: Id, actor: Id, action: Id, decision: string, policy: string, digest: string)

  datatype Store = Store(preflights: map<Id, Preflight>, decisions: map<Id, Decision>)

  const DECISIONS := ["continue", "revise"]

  /** The keys, references and checks of the tables, and the validity of all evidence. */
  predicate WellFormed(s: Store) {
    && (forall p, q :: p in s.preflights && q in s.preflights && p != q ==>
         s.preflights[p].actor != s.preflights[q].actor || s.preflights[p].action != s.preflights[q].action)
    && (forall p :: p in s.preflights ==> Acceptable(s.preflights[p].subject, s.preflights[p].candidates))
    && (forall d, e :: d in s.decisions && e in s.decisions && d != e ==>
         && s.decisions[d].preflight != s.decisions[e].preflight
         && (s.decisions[d].actor != s.decisions[e].actor || s.decisions[d].action != s.decisions[e].action))
    && (forall d :: d in s.decisions ==> Acknowledges(s, s.decisions[d]))
  }

  /** A decision names its actor's preflight, with the policy and the result that preflight recorded. */
  predicate Acknowledges(s: Store, d: Decision) {
    && d.decision in DECISIONS && d.preflight in s.preflights
    && s.preflights[d.preflight].actor == d.actor
    && s.preflights[d.preflight].subject.policy == d.policy && s.preflights[d.preflight].digest == d.digest
  }

  /** Rows are added and never changed or removed. */
  predicate Grows(s: Store, t: Store) {
    && (forall p :: p in s.preflights ==> p in t.preflights && t.preflights[p] == s.preflights[p])
    && (forall d :: d in s.decisions ==> d in t.decisions && t.decisions[d] == s.decisions[d])
  }

  /** One statement that changed the tables: of the call itself, or of another. */
  datatype Step = Step(own: bool, before: Store, after: Store)

  /** All that happened between the start of a call and its end. */
  datatype Trace = Trace(start: Store, steps: seq<Step>, final: Store)

  /** The steps lead from one store to the other, and each only adds rows. */
  ghost predicate Linked(start: Store, steps: seq<Step>, end: Store) {
    if steps == [] then start == end
    else
      var last := steps[|steps| - 1];
      last.after == end && Grows(last.before, end) && Linked(start, steps[..|steps| - 1], last.before)
  }

  function OwnSteps(steps: seq<Step>): seq<Step> {
    if steps == [] then []
    else
      var last := steps[|steps| - 1];
      OwnSteps(steps[..|steps| - 1]) + if last.own then [last] else []
  }

  lemma LinkStep(start: Store, steps: seq<Step>, s: Step)
    requires Linked(start, steps, s.before) && Grows(s.before, s.after)
    ensures Linked(start, steps + [s], s.after)
    ensures OwnSteps(steps + [s]) == OwnSteps(steps) + if s.own then [s] else []
  {
    assert (steps + [s])[..|steps|] == steps;
  }

  predicate PreflightAdded(s: Step, p: Id) {
    p !in s.before.preflights && p in s.after.preflights
  }

  predicate DecisionAdded(s: Step, d: Id) {
    d !in s.before.decisions && d in s.after.decisions
  }

  /** Every row that is new at the end was added by one of the steps. */
  lemma {:induction false} NewRowsAreAdded(start: Store, steps: seq<Step>, end: Store)
    requires Linked(start, steps, end)
    ensures forall p :: p in end.preflights && p !in start.preflights ==> exists s :: s in steps && PreflightAdded(s, p)
    ensures forall d :: d in end.decisions && d !in start.decisions ==> exists s :: s in steps && DecisionAdded(s, d)
  {
    hide Grows;
    if steps != [] {
      var last, before := steps[|steps| - 1], steps[..|steps| - 1];
      NewRowsAreAdded(start, before, last.before);
      assert steps == before + [last];
      forall p | p in end.preflights && p !in start.preflights ensures exists s :: s in steps && PreflightAdded(s, p) {
        if p in last.before.preflights {
          var s :| s in before && PreflightAdded(s, p);
          assert s in steps;
        } else {
          assert last in steps && PreflightAdded(last, p);
        }
      }
      forall d | d in end.decisions && d !in start.decisions ensures exists s :: s in steps && DecisionAdded(s, d) {
        if d in last.before.decisions {
          var s :| s in before && DecisionAdded(s, d);
          assert s in steps;
        } else {
          assert last in steps && DecisionAdded(last, d);
        }
      }
    }
  }

  lemma {:induction false} OwnStepsAreOwn(steps: seq<Step>)
    ensures forall s :: s in OwnSteps(steps) <==> s in steps && s.own
  {
    if steps != [] {
      var last, before := steps[|steps| - 1], steps[..|steps| - 1];
      OwnStepsAreOwn(before);
      assert steps == before + [last];
    }
  }

  /** Every new row but these was added by another call. */
  ghost predicate AddedElsewhere(trace: Trace, preflights: set<Id>, decisions: set<Id>) {
    && (forall p :: p in trace.final.preflights && p !in trace.start.preflights && p !in preflights ==>
         exists s :: s in trace.steps && !s.own && PreflightAdded(s, p))
    && (forall d :: d in trace.final.decisions && d !in trace.start.decisions && d !in decisions ==>
         exists s :: s in trace.steps && !s.own && DecisionAdded(s, d))
  }

  lemma NothingWritten(trace: Trace)
    requires Linked(trace.start, trace.steps, trace.final) && OwnSteps(trace.steps) == []
    ensures AddedElsewhere(trace, {}, {})
  {
    hide Linked, OwnSteps, PreflightAdded, DecisionAdded;
    NewRowsAreAdded(trace.start, trace.steps, trace.final);
    OwnStepsAreOwn(trace.steps);
  }

  ghost function PreflightByAction(s: Store, actor: Id, action: Id): (found: Option<Id>)
    ensures found.Some? ==> found.value in s.preflights && s.preflights[found.value].actor == actor
                            && s.preflights[found.value].action == action
  {
    if exists p :: p in s.preflights && s.preflights[p].actor == actor && s.preflights[p].action == action then
      var p :| p in s.preflights && s.preflights[p].actor == actor && s.preflights[p].action == action; Some(p)
    else None
  }

  ghost function DecisionByAction(s: Store, actor: Id, action: Id): (found: Option<Id>)
    ensures found.Some? ==> found.value in s.decisions && s.decisions[found.value].actor == actor
                            && s.decisions[found.value].action == action
  {
    if exists d :: d in s.decisions && s.decisions[d].actor == actor && s.decisions[d].action == action then
      var d :| d in s.decisions && s.decisions[d].actor == actor && s.decisions[d].action == action; Some(d)
    else None
  }

  ghost function DecisionByPreflight(s: Store, actor: Id, preflight: Id): (found: Option<Id>)
    ensures found.Some? ==> found.value in s.decisions && s.decisions[found.value].actor == actor
                            && s.decisions[found.value].preflight == preflight
  {
    if exists d :: d in s.decisions && s.decisions[d].actor == actor && s.decisions[d].preflight == preflight then
      var d :| d in s.decisions && s.decisions[d].actor == actor && s.decisions[d].preflight == preflight; Some(d)
    else None
  }

  /** How a store call ends; `Unresolved` is the error the code keeps for what should not happen. */
  datatype Result = Created(id: Id) | Reused(id: Id) | Conflict | Invalid | NotFound | Stale | Unresolved

  /** The stores that the statements of a preflight call see: the first read, the insert, the read after a conflict. */
  datatype PreflightViews = PreflightViews(read: Store, insert: Store, reread: Store)

  /** `INSERT … ON CONFLICT (actor_user_id, action_id) DO NOTHING`. */
  ghost function InsertPreflight(s: Store, id: Id, p: Preflight): Store {
    if PreflightByAction(s, p.actor, p.action).Some? then s else s.(preflights := s.preflights[id := p])
  }

  /** `store_recipe_duplicate_preflight`, with `id` for the row it may create. */
  ghost function PreflightOutcome(request: Preflight, id: Id, views: PreflightViews): Result {
    match PreflightByAction(views.read, request.actor, request.action)
    case Some(p) => if views.read.preflights[p].fingerprint == request.fingerprint then Reused(p) else Conflict
    case None =>
      if !Acceptable(request.subject, request.candidates) then Invalid
      else if PreflightByAction(views.insert, request.actor, request.action).None? then Created(id)
      else
        match PreflightByAction(views.reread, request.actor, request.action)
        case None => Unresolved
        case Some(p) => if views.reread.preflights[p].fingerprint == request.fingerprint then Reused(p) else Conflict
  }

  /** A call's row id is new, its statements saw one store after another, and it changed no more than it says. */
  ghost predicate PreflightHistory(request: Preflight, id: Id, views: PreflightViews, trace: Trace) {
    && WellFormed(views.read) && WellFormed(views.insert) && WellFormed(views.reread) && WellFormed(trace.final)
    && id !in views.insert.preflights && Grows(trace.start, views.read)
    && Grows(views.read, views.insert) && Grows(views.insert, views.reread) && Grows(views.reread, trace.final)
    && Linked(trace.start, trace.steps, trace.final)
    && OwnSteps(trace.steps) == OwnPreflightSteps(request, id, views)
    && (PreflightOutcome(request, id, views) == Created(id) ==>
         Grows(InsertPreflight(views.insert, id, request), views.reread))
  }

  /** What the call itself changes: the insert, and that only when it answers that it created the row. */
  ghost function OwnPreflightSteps(request: Preflight, id: Id, views: PreflightViews): seq<Step> {
    if PreflightOutcome(request, id, views).Created? then
      [Step(true, views.insert, InsertPreflight(views.insert, id, request))]
    else []
  }

  /** What a call without concurrent ones answers. */
  ghost function AlonePreflight(s: Store, request: Preflight, id: Id): Result {
    PreflightOutcome(request, id, PreflightViews(s, s, s))
  }

  /** A row once found for an action is the one found ever after. */
  lemma PreflightStays(s: Store, t: Store, p: Id)
    requires WellFormed(t) && Grows(s, t) && p in s.preflights
    ensures p in t.preflights && t.preflights[p] == s.preflights[p]
    ensures PreflightByAction(t, s.preflights[p].actor, s.preflights[p].action) == Some(p)
  {
    hide Acceptable, Acknowledges;
  }

  lemma GrowsOn(s: Store, t: Store, u: Store)
    requires Grows(s, t) && Grows(t, u)
    ensures Grows(s, u)
  {}

  lemma InsertedIsThere(s: Store, id: Id, p: Preflight)
    requires PreflightByAction(s, p.actor, p.action).None?
    ensures id in InsertPreflight(s, id, p).preflights && InsertPreflight(s, id, p).preflights[id] == p
  {}

  lemma InsertAddsOne(s: Store, id: Id, p: Preflight)
    ensures InsertPreflight(s, id, p).preflights.Keys <= s.preflights.Keys + {id}
    ensures InsertPreflight(s, id, p).decisions == s.decisions
  {}

  lemma PreflightWritten(trace: Trace, s: Store, id: Id, p: Preflight)
    requires Linked(trace.start, trace.steps, trace.final)
    requires OwnSteps(trace.steps) == [Step(true, s, InsertPreflight(s, id, p))]
    ensures AddedElsewhere(trace, {id}, {})
  {
    hide Linked, OwnSteps, InsertPreflight;
    NewRowsAreAdded(trace.start, trace.steps, trace.final);
    OwnStepsAreOwn(trace.steps);
    InsertAddsOne(s, id, p);
    forall step | step in trace.steps && step.own
      ensures forall x :: PreflightAdded(step, x) ==> x == id
      ensures forall x :: !DecisionAdded(step, x)
    {
      assert step in OwnSteps(trace.steps);
    }
    hide PreflightAdded, DecisionAdded;
  }

  /**
   * Whatever other calls did in between, a call that created or reused a row would now reuse that row, one that
   * conflicted would conflict again, and the error for an unresolved conflict is never raised. A call that does not
   * create writes nothing: every new row but the one created was added by another call.
   */
  lemma PreflightsAreWriteOnce(request: Preflight, id: Id, views: PreflightViews, trace: Trace)
    requires PreflightHistory(request, id, views, trace)
    ensures AddedElsewhere(trace, if PreflightOutcome(request, id, views).Created? then {id} else {}, {})
    ensures var final := trace.final;
            match PreflightOutcome(request, id, views)
            case Created(p) =>
              && AlonePreflight(final, request, id) == Reused(p)
              && p in final.preflights && final.preflights[p] == request
            case Reused(p) => AlonePreflight(final, request, id) == Reused(p)
            case Conflict => AlonePreflight(final, request, id) == Conflict
            case Invalid => !Acceptable(request.subject, request.candidates)
            case _ => false
  {
    hide WellFormed, Grows, PreflightByAction, Acceptable, InsertPreflight, Linked, OwnSteps, AddedElsewhere;
    var final := trace.final;
    if PreflightOutcome(request, id, views).Created? {
      PreflightWritten(trace, views.insert, id, request);
    } else {
      NothingWritten(trace);
    }
    var first := PreflightByAction(views.read, request.actor, request.action);
    GrowsOn(views.read, views.insert, views.reread);
    GrowsOn(views.read, views.reread, final);
    if first.Some? {
      PreflightStays(views.read, final, first.value);
    } else if Acceptable(request.subject, request.candidates) {
      var before := PreflightByAction(views.insert, request.actor, request.action);
      if before.Some? {
        PreflightStays(views.insert, views.reread, before.value);
        PreflightStays(views.reread, final, before.value);
      } else {
        InsertedIsThere(views.insert, id, request);
        GrowsOn(InsertPreflight(views.insert, id, request), views.reread, final);
        PreflightStays(InsertPreflight(views.insert, id, request), final, id);
      }
    }
  }

  /** `_decision_matches`. */
  predicate Matches(d: Decision, request: Decision) {
    d.preflight == request.preflight && d.decision == request.decision && d.policy == request.policy
    && d.digest == request.digest
  }

  /** The stores that the statements of a decision call see, one after another. */
  datatype DecisionViews = DecisionViews(preflight: Store, action: Store, decision: Store, insert: Store, reread: Store)

  /** No unique key of the decision table is taken. */
  ghost predicate CanInsert(s: Store, request: Decision) {
    && DecisionByAction(s, request.actor, request.action).None?
    && forall d :: d in s.decisions ==> s.decisions[d].preflight != request.preflight
  }

  /** `INSERT … ON CONFLICT DO NOTHING`. */
  ghost function InsertDecision(s: Store, id: Id, request: Decision): Store {
    if CanInsert(s, request) then s.(decisions := s.decisions[id := request]) else s
  }

  ghost function ReuseOrConflict(s: Store, d: Id, request: Decision): Result
    requires d in s.decisions
  {
    if Matches(s.decisions[d], request) then Reused(d) else Conflict
  }

  /** `store_recipe_duplicate_decision`, with `id` for the row it may create. */
  ghost function DecisionOutcome(request: Decision, id: Id, views: DecisionViews): Result {
    if request.decision !in DECISIONS then Invalid
    else if !(request.preflight in views.preflight.preflights
              && views.preflight.preflights[request.preflight].actor == request.actor) then NotFound
    else if request.policy != views.preflight.preflights[request.preflight].subject.policy
            || request.digest != views.preflight.preflights[request.preflight].digest then Stale
    else
      match DecisionByAction(views.action, request.actor, request.action)
      case Some(d) => ReuseOrConflict(views.action, d, request)
      case None =>
        match DecisionByPreflight(views.decision, request.actor, request.preflight)
        case Some(d) => ReuseOrConflict(views.decision, d, request)
        case None =>
          if CanInsert(views.insert, request) then Created(id)
          else
            match DecisionByPreflight(views.reread, request.actor, request.preflight)
            case None => Conflict
            case Some(d) => ReuseOrConflict(views.reread, d, request)
  }

  /** As for preflights. */
  ghost predicate DecisionHistory(request: Decision, id: Id, views: DecisionViews, trace: Trace) {
    && WellFormed(views.preflight) && WellFormed(views.action) && WellFormed(views.decision) && WellFormed(views.insert)
    && WellFormed(views.reread) && WellFormed(trace.final) && id !in views.insert.decisions
    && Grows(trace.start, views.preflight)
    && Grows(views.preflight, views.action) && Grows(views.action, views.decision)
    && Grows(views.decision, views.insert) && Grows(views.insert, views.reread) && Grows(views.reread, trace.final)
    && Linked(trace.start, trace.steps, trace.final)
    && OwnSteps(trace.steps) == OwnDecisionSteps(request, id, views)
    && (DecisionOutcome(request, id, views) == Created(id) ==>
         Grows(InsertDecision(views.insert, id, request), views.reread))
  }

  ghost function OwnDecisionSteps(request: Decision, id: Id, views: DecisionViews): seq<Step> {
    if DecisionOutcome(request, id, views).Created? then
      [Step(true, views.insert, InsertDecision(views.insert, id, request))]
    else []
  }

  /** What a call without concurrent ones answers. */
  ghost function AloneDecision(s: Store, request: Decision, id: Id): Result {
    DecisionOutcome(request, id, DecisionViews(s, s, s, s, s))
  }

  lemma DecisionStays(s: Store, t: Store, d: Id)
    requires WellFormed(t) && Grows(s, t) && d in s.decisions
    ensures d in t.decisions && t.decisions[d] == s.decisions[d] && Acknowledges(t, t.decisions[d])
    ensures DecisionByAction(t, s.decisions[d].actor, s.decisions[d].action) == Some(d)
    ensures DecisionByPreflight(t, s.decisions[d].actor, s.decisions[d].preflight) == Some(d)
  {
    hide Acceptable, Acknowledges;
  }

  /** Some other preflight's decision was made under the request's action. */
  ghost predicate ActionTaken(s: Store, request: Decision) {
    exists d :: d in s.decisions && s.decisions[d].actor == request.actor && s.decisions[d].action == request.action
                && s.decisions[d].preflight != request.preflight
  }

  /** What a call alone answers once the preflight has a decision. */
  lemma DecidedAnswer(s: Store, request: Decision, id: Id, d: Id)
    requires WellFormed(s) && d in s.decisions && s.decisions[d].preflight == request.preflight
    requires Acknowledges(s, request)
    ensures AloneDecision(s, request, id) ==
            if Matches(s.decisions[d], request) && !ActionTaken(s, request) then Reused(d) else Conflict
  {
    hide Acceptable;
    DecisionStays(s, s, d);
    assert s.decisions[d].actor == request.actor;
    match DecisionByAction(s, request.actor, request.action)
    case Some(e) => DecisionStays(s, s, e);
    case None =>
  }

  lemma TakenAnswer(s: Store, request: Decision, id: Id, e: Id)
    requires WellFormed(s) && Acknowledges(s, request) && e in s.decisions
    requires s.decisions[e].actor == request.actor && s.decisions[e].action == request.action
    requires s.decisions[e].preflight != request.preflight
    ensures AloneDecision(s, request, id) == Conflict
  {
    hide Acceptable;
    DecisionStays(s, s, e);
  }

  /** A row that decided the call decides later calls in the same way. */
  lemma RowDecides(s: Store, final: Store, request: Decision, id: Id, d: Id)
    requires WellFormed(final) && Grows(s, final) && Acknowledges(final, request) && d in s.decisions
    requires s.decisions[d].actor == request.actor
    requires s.decisions[d].preflight == request.preflight || s.decisions[d].action == request.action
    ensures d in final.decisions && final.decisions[d] == s.decisions[d]
    ensures AloneDecision(final, request, id) ==
            if Matches(s.decisions[d], request) && !ActionTaken(final, request) then Reused(d) else Conflict
  {
    DecisionStays(s, final, d);
    hide WellFormed, Grows, AloneDecision, Acknowledges;
    if s.decisions[d].preflight == request.preflight {
      DecidedAnswer(final, request, id, d);
    } else {
      TakenAnswer(final, request, id, d);
    }
  }

  /** A row that stands in the way of an insert is one of the same preflight, or of the same action. */
  lemma InTheWay(s: Store, t: Store, final: Store, request: Decision) returns (e: Id)
    requires WellFormed(s) && WellFormed(t) && Grows(s, t) && WellFormed(final) && Grows(t, final)
    requires Acknowledges(final, request) && !CanInsert(s, request)
    requires DecisionByPreflight(t, request.actor, request.preflight).None?
    ensures e in s.decisions && s.decisions[e].actor == request.actor && s.decisions[e].action == request.action
    ensures s.decisions[e].preflight != request.preflight
  {
    hide Acceptable;
    forall d | d in s.decisions ensures s.decisions[d].preflight != request.preflight {
      DecisionStays(s, t, d);
      DecisionStays(t, final, d);
    }
    e := DecisionByAction(s, request.actor, request.action).value;
  }

  lemma AcknowledgementStays(s: Store, t: Store, request: Decision)
    requires Acknowledges(s, request) && Grows(s, t)
    ensures Acknowledges(t, request)
  {}

  lemma DecisionInserted(s: Store, id: Id, request: Decision)
    requires CanInsert(s, request)
    ensures id in InsertDecision(s, id, request).decisions && InsertDecision(s, id, request).decisions[id] == request
  {}

  lemma DecisionInsertAddsOne(s: Store, id: Id, request: Decision)
    ensures InsertDecision(s, id, request).decisions.Keys <= s.decisions.Keys + {id}
    ensures InsertDecision(s, id, request).preflights == s.preflights
  {}

  lemma DecisionWritten(trace: Trace, s: Store, id: Id, request: Decision)
    requires Linked(trace.start, trace.steps, trace.final)
    requires OwnSteps(trace.steps) == [Step(true, s, InsertDecision(s, id, request))]
    ensures AddedElsewhere(trace, {}, {id})
  {
    hide Linked, OwnSteps, InsertDecision;
    NewRowsAreAdded(trace.start, trace.steps, trace.final);
    OwnStepsAreOwn(trace.steps);
    DecisionInsertAddsOne(s, id, request);
    forall step | step in trace.steps && step.own
      ensures forall x :: !PreflightAdded(step, x)
      ensures forall x :: DecisionAdded(step, x) ==> x == id
    {
      assert step in OwnSteps(trace.steps);
    }
    hide PreflightAdded, DecisionAdded;
  }

  /**
   * Whatever other calls did in between: a call that created a row would now reuse it and one that conflicted would
   * conflict again. One that reused a row would reuse it again, unless its action has meanwhile been taken for another
   * preflight; only the read after a failed insert misses that. A call that does not create writes nothing: every new
   * row but the one created was added by another call.
   */
  lemma DecisionsAreWriteOnce(request: Decision, id: Id, views: DecisionViews, trace: Trace)
    requires DecisionHistory(request, id, views, trace)
    ensures AddedElsewhere(trace, {}, if DecisionOutcome(request, id, views).Created? then {id} else {})
    ensures var final := trace.final;
            match DecisionOutcome(request, id, views)
            case Created(d) =>
              && d in final.decisions && final.decisions[d] == request
              && AloneDecision(final, request, id) == Reused(d)
            case Reused(d) =>
              && d in final.decisions && Matches(final.decisions[d], request)
                  && final.decisions[d].actor == request.actor
              && AloneDecision(final, request, id) == if ActionTaken(final, request) then Conflict else Reused(d)
            case Conflict => AloneDecision(final, request, id) == Conflict
            case Stale => AloneDecision(final, request, id) == Stale
            case Invalid => request.decision !in DECISIONS
            case NotFound => !(request.preflight in views.preflight.preflights
                               && views.preflight.preflights[request.preflight].actor == request.actor)
            case Unresolved => false
  {
    hide WellFormed, Grows, DecisionByAction, DecisionByPreflight, InsertDecision, CanInsert, AloneDecision,
         ActionTaken, Linked, OwnSteps, AddedElsewhere;
    var final := trace.final;
    if DecisionOutcome(request, id, views).Created? {
      DecisionWritten(trace, views.insert, id, request);
    } else {
      NothingWritten(trace);
    }
    GrowsOn(views.insert, views.reread, final);
    GrowsOn(views.decision, views.insert, final);
    GrowsOn(views.action, views.decision, final);
    GrowsOn(views.preflight, views.action, final);
    var outcome := DecisionOutcome(request, id, views);
    if outcome.Stale? {
      StaleStays(views.preflight, final, request, id);
    } else if !outcome.Invalid? && !outcome.NotFound? {
      AcknowledgementStays(views.preflight, final, request);
      var byAction := DecisionByAction(views.action, request.actor, request.action);
      var byPreflight := DecisionByPreflight(views.decision, request.actor, request.preflight);
      var reread := DecisionByPreflight(views.reread, request.actor, request.preflight);
      if byAction.Some? {
        RowDecides(views.action, final, request, id, byAction.value);
      } else if byPreflight.Some? {
        RowDecides(views.decision, final, request, id, byPreflight.value);
      } else if CanInsert(views.insert, request) {
        DecisionInserted(views.insert, id, request);
        GrowsOn(InsertDecision(views.insert, id, request), views.reread, final);
        RowDecides(InsertDecision(views.insert, id, request), final, request, id, id);
        ActionIsOwn(final, request, id);
      } else if reread.Some? {
        RowDecides(views.reread, final, request, id, reread.value);
      } else {
        var e := InTheWay(views.insert, views.reread, final, request);
        RowDecides(views.insert, final, request, id, e);
      }
    }
  }

  lemma ActionIsOwn(s: Store, request: Decision, d: Id)
    requires WellFormed(s) && d in s.decisions && s.decisions[d] == request
    ensures !ActionTaken(s, request)
  {
    hide Acceptable, Acknowledges;
  }

  lemma StaleStays(s: Store, t: Store, request: Decision, id: Id)
    requires Grows(s, t) && request.decision in DECISIONS && request.preflight in s.preflights
    requires s.preflights[request.preflight].actor == request.actor
    requires request.policy != s.preflights[request.preflight].subject.policy
             || request.digest != s.preflights[request.preflight].digest
    ensures AloneDecision(t, request, id) == Stale
  {}

  /** Of all calls for one action of one actor, however they interleave, at most one creates a preflight. */
  lemma OneCallCreatesPreflight(r: Preflight, id: Id, views: PreflightViews, trace: Trace,
                                q: Preflight, jd: Id, others: PreflightViews, other: Trace)
    requires PreflightHistory(r, id, views, trace) && PreflightHistory(q, jd, others, other)
    requires trace.final == other.final && r.actor == q.actor && r.action == q.action
    requires PreflightOutcome(r, id, views).Created? && PreflightOutcome(q, jd, others).Created?
    ensures id == jd && r == q
  {
    hide WellFormed, Grows, Acceptable, InsertPreflight, Linked, OwnSteps, AddedElsewhere;
    PreflightsAreWriteOnce(r, id, views, trace);
    PreflightsAreWriteOnce(q, jd, others, other);
  }

  /** Of all calls that decide one preflight, or act under one action, at most one creates a decision. */
  lemma OneCallCreatesDecision(r: Decision, id: Id, views: DecisionViews, trace: Trace,
                               q: Decision, jd: Id, others: DecisionViews, other: Trace)
    requires DecisionHistory(r, id, views, trace) && DecisionHistory(q, jd, others, other)
    requires trace.final == other.final
    requires r.preflight == q.preflight || (r.actor == q.actor && r.action == q.action)
    requires DecisionOutcome(r, id, views).Created? && DecisionOutcome(q, jd, others).Created?
    ensures id == jd && r == q
  {
    hide Acceptable, Acknowledges, Grows, InsertDecision, CanInsert, AloneDecision, Linked, OwnSteps, AddedElsewhere;
    DecisionsAreWriteOnce(r, id, views, trace);
    DecisionsAreWriteOnce(q, jd, others, other);
  }
}
