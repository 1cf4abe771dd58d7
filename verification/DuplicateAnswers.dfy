/**
 * What the two stores answer, said from the columns of the request and of the rows it meets
 * (backend/app/repositories/recipe_duplicates.py:214-456).
 */
module DuplicateAnswers {
  import opened Outcomes
  import opened DuplicateCandidates
  import opened DuplicateEvidence

  // ---- preflights ----

  /** A row of this actor and action, with or without this fingerprint. */
  ghost predicate Taken(s: Store, request: Preflight, p: Id, same: bool) {
    && p in s.preflights && s.preflights[p].actor == request.actor && s.preflights[p].action == request.action
    && (s.preflights[p].fingerprint == request.fingerprint) == same
  }

  /** A call alone: what is there decides, then the evidence. */
  lemma PreflightAlone(s: Store, request: Preflight, id: Id)
    requires WellFormed(s)
    ensures forall p :: AlonePreflight(s, request, id) == Reused(p) <==> Taken(s, request, p, true)
    ensures AlonePreflight(s, request, id) == Conflict <==> exists p :: Taken(s, request, p, false)
    ensures AlonePreflight(s, request, id) == Invalid <==>
              !Acceptable(request.subject, request.candidates)
              && forall p :: !Taken(s, request, p, true) && !Taken(s, request, p, false)
  {
    hide Acceptable;
    OnlyOneTaken(s, request);
    if p :| p in s.preflights && s.preflights[p].actor == request.actor && s.preflights[p].action == request.action {
      assert Taken(s, request, p, true) || Taken(s, request, p, false);
    }
  }

  lemma OnlyOneTaken(s: Store, request: Preflight)
    requires WellFormed(s)
    ensures forall p, q, b, c :: Taken(s, request, p, b) && Taken(s, request, q, c) ==> p == q && b == c
  {}

  /** Whatever ran in between, a preflight that is reused has the request's actor, action and fingerprint at the end. */
  lemma ReusedPreflightColumns(request: Preflight, id: Id, views: PreflightViews, trace: Trace, p: Id)
    requires PreflightHistory(request, id, views, trace) && PreflightOutcome(request, id, views) == Reused(p)
    ensures Taken(trace.final, request, p, true)
  {
    hide WellFormed, Acceptable, Linked, OwnSteps;
  }

  /** A row of this actor and action with another fingerprint, there when the call begins, is a conflict. */
  lemma OtherFingerprintConflicts(request: Preflight, id: Id, views: PreflightViews, trace: Trace, p: Id)
    requires PreflightHistory(request, id, views, trace) && Taken(views.read, request, p, false)
    ensures PreflightOutcome(request, id, views) == Conflict
  {
    hide Acceptable, Linked, OwnSteps;
    OnlyOneTaken(views.read, request);
    var q := PreflightByAction(views.read, request.actor, request.action).value;
    assert Taken(views.read, request, q, true) || Taken(views.read, request, q, false);
  }

  /** A created preflight is the request, column by column. */
  lemma CreatedPreflightColumns(request: Preflight, id: Id, views: PreflightViews, trace: Trace)
    requires PreflightHistory(request, id, views, trace) && PreflightOutcome(request, id, views) == Created(id)
    ensures id in trace.final.preflights && trace.final.preflights[id] == request
  {
    hide WellFormed, Acceptable, Linked, OwnSteps;
    var grown := InsertPreflight(views.insert, id, request);
    assert id in grown.preflights && grown.preflights[id] == request;
  }

  // ---- decisions ----

  /** A stored decision says the same as the request: the choice, on one preflight, under one policy and digest. */
  ghost predicate SaysTheSame(d: Decision, request: Decision) {
    && d.decision == request.decision && d.preflight == request.preflight
    && d.policy == request.policy && d.digest == request.digest
  }

  /** A decision of the request's actor under its action or on its preflight. */
  ghost predicate InTheWayOf(s: Store, request: Decision, d: Id) {
    && d in s.decisions && s.decisions[d].actor == request.actor
    && (s.decisions[d].action == request.action || s.decisions[d].preflight == request.preflight)
  }

  lemma MatchesMeans(d: Decision, request: Decision)
    ensures Matches(d, request) <==> SaysTheSame(d, request)
  {}

  /** What is refused before any decision is looked up. */
  lemma RefusedRequests(request: Decision, id: Id, views: DecisionViews)
    ensures var preflights := views.preflight.preflights;
            var p := request.preflight;
      && (DecisionOutcome(request, id, views) == Invalid <==>
           request.decision != "continue" && request.decision != "revise")
      && (DecisionOutcome(request, id, views) == NotFound <==>
           (request.decision == "continue" || request.decision == "revise")
           && !(p in preflights && preflights[p].actor == request.actor))
      && (DecisionOutcome(request, id, views) == Stale <==>
           (request.decision == "continue" || request.decision == "revise")
           && p in preflights && preflights[p].actor == request.actor
           && !(preflights[p].subject.policy == request.policy && preflights[p].digest == request.digest))
  {
    assert DECISIONS == ["continue", "revise"];
    assert DECISIONS[0] == "continue" && DECISIONS[1] == "revise";
  }

  /** Whatever ran in between, a decision that is reused says what the request says, and belongs to its actor. */
  lemma ReusedDecisionColumns(request: Decision, id: Id, views: DecisionViews, trace: Trace, d: Id)
    requires DecisionHistory(request, id, views, trace) && DecisionOutcome(request, id, views) == Reused(d)
    ensures d in trace.final.decisions && SaysTheSame(trace.final.decisions[d], request)
    ensures trace.final.decisions[d].actor == request.actor
  {
    hide WellFormed, Linked, OwnSteps, CanInsert;
  }

  /** A created decision is the request, column by column. */
  lemma CreatedDecisionColumns(request: Decision, id: Id, views: DecisionViews, trace: Trace)
    requires DecisionHistory(request, id, views, trace) && DecisionOutcome(request, id, views) == Created(id)
    ensures id in trace.final.decisions && trace.final.decisions[id] == request
  {
    hide WellFormed, Linked, OwnSteps;
    var grown := InsertDecision(views.insert, id, request);
    assert id in grown.decisions && grown.decisions[id] == request;
  }

  /** A request that is not refused before any decision is looked up. */
  ghost predicate Admitted(request: Decision, s: Store) {
    && (request.decision == "continue" || request.decision == "revise")
    && request.preflight in s.preflights && s.preflights[request.preflight].actor == request.actor
    && s.preflights[request.preflight].subject.policy == request.policy
    && s.preflights[request.preflight].digest == request.digest
  }

  /** The row found for the action, which is looked up first, decides: a difference in any column is a conflict. */
  lemma RowOfActionDecides(request: Decision, id: Id, views: DecisionViews, d: Id)
    requires WellFormed(views.action) && Admitted(request, views.preflight)
    requires d in views.action.decisions && views.action.decisions[d].actor == request.actor
    requires views.action.decisions[d].action == request.action
    ensures DecisionOutcome(request, id, views)
         == if SaysTheSame(views.action.decisions[d], request) then Reused(d) else Conflict
  {
    hide CanInsert, Acknowledges;
    RefusedRequests(request, id, views);
    var e := DecisionByAction(views.action, request.actor, request.action).value;
    assert e == d;
  }

  /** Without one, the row found for the preflight does. */
  lemma RowOfPreflightDecides(request: Decision, id: Id, views: DecisionViews, d: Id)
    requires WellFormed(views.decision) && Admitted(request, views.preflight)
    requires forall e :: e in views.action.decisions ==>
               views.action.decisions[e].actor != request.actor || views.action.decisions[e].action != request.action
    requires d in views.decision.decisions && views.decision.decisions[d].actor == request.actor
    requires views.decision.decisions[d].preflight == request.preflight
    ensures DecisionOutcome(request, id, views)
         == if SaysTheSame(views.decision.decisions[d], request) then Reused(d) else Conflict
  {
    hide CanInsert, Acknowledges;
    RefusedRequests(request, id, views);
    var e := DecisionByPreflight(views.decision, request.actor, request.preflight).value;
    assert e == d;
  }

  lemma NothingInTheWay(s: Store, request: Decision, id: Id)
    requires WellFormed(s) && Admitted(request, s) && forall d :: !InTheWayOf(s, request, d)
    ensures AloneDecision(s, request, id) == Created(id)
  {
    RefusedRequests(request, id, DecisionViews(s, s, s, s, s));
    OwnersAgree(s);
    hide WellFormed;
    forall d | d in s.decisions ensures s.decisions[d].preflight != request.preflight {
      assert !InTheWayOf(s, request, d);
    }
    forall d | d in s.decisions
      ensures s.decisions[d].actor != request.actor || s.decisions[d].action != request.action {
      assert !InTheWayOf(s, request, d);
    }
  }

  lemma RefusedAlone(s: Store, request: Decision, id: Id)
    requires !Admitted(request, s)
    ensures AloneDecision(s, request, id) in {Invalid, NotFound, Stale}
  {
    RefusedRequests(request, id, DecisionViews(s, s, s, s, s));
    hide DecisionOutcome;
  }

  /**
   * A call alone creates exactly when nothing is in the way of a request that is admitted, and else repeats what is
   * in the way or contradicts it.
   */
  lemma DecisionAlone(s: Store, request: Decision, id: Id)
    requires WellFormed(s)
    ensures AloneDecision(s, request, id) == Created(id) <==>
              Admitted(request, s) && forall d :: !InTheWayOf(s, request, d)
    ensures forall d :: AloneDecision(s, request, id) == Reused(d) ==>
              InTheWayOf(s, request, d) && SaysTheSame(s.decisions[d], request)
    ensures AloneDecision(s, request, id) == Conflict ==>
              exists d :: InTheWayOf(s, request, d) && !SaysTheSame(s.decisions[d], request)
  {
    hide WellFormed, DecisionOutcome, SaysTheSame, Admitted;
    var views := DecisionViews(s, s, s, s, s);
    if !Admitted(request, s) {
      RefusedAlone(s, request, id);
    } else if d :| d in s.decisions && s.decisions[d].actor == request.actor
                   && s.decisions[d].action == request.action {
      RowOfActionDecides(request, id, views, d);
      assert InTheWayOf(s, request, d);
    } else if d :| d in s.decisions && s.decisions[d].actor == request.actor
                   && s.decisions[d].preflight == request.preflight {
      RowOfPreflightDecides(request, id, views, d);
      assert InTheWayOf(s, request, d);
    } else {
      NothingInTheWay(s, request, id);
    }
  }

  /** A decision belongs to the actor of its preflight. */
  lemma OwnersAgree(s: Store)
    requires WellFormed(s)
    ensures forall d :: d in s.decisions ==>
              s.decisions[d].preflight in s.preflights
              && s.preflights[s.decisions[d].preflight].actor == s.decisions[d].actor
  {}
}
