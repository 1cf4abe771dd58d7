/** The store functions of backend/app/repositories/recipe_duplicates.py, statement by statement, among other calls. */
module DuplicateCalls {
  import opened DuplicateCandidates
  import opened DuplicateEvidence
  import opened Outcomes

  lemma InsertKeepsPreflights(s: Store, id: Id, request: Preflight)
    requires WellFormed(s) && id !in s.preflights && Acceptable(request.subject, request.candidates)
    ensures WellFormed(InsertPreflight(s, id, request)) && Grows(s, InsertPreflight(s, id, request))
  {
    hide Acceptable;
    var t := InsertPreflight(s, id, request);
    if t != s {
      forall p | p in s.preflights
        ensures s.preflights[p].actor != request.actor || s.preflights[p].action != request.action
      {}
      forall d | d in s.decisions ensures Acknowledges(t, s.decisions[d]) {
        assert Acknowledges(s, s.decisions[d]);
      }
    }
  }

  lemma InsertKeepsDecisions(s: Store, id: Id, request: Decision)
    requires WellFormed(s) && id !in s.decisions && Acknowledges(s, request)
    ensures WellFormed(InsertDecision(s, id, request)) && Grows(s, InsertDecision(s, id, request))
  {
    hide Acceptable, Acknowledges;
    var t := InsertDecision(s, id, request);
    if t != s {
      forall d | d in s.decisions
        ensures s.decisions[d].actor != request.actor || s.decisions[d].action != request.action
      {}
      forall d | d in t.decisions ensures Acknowledges(t, t.decisions[d]) {
        SamePreflights(s, t, t.decisions[d]);
      }
    }
  }

  lemma SamePreflights(s: Store, t: Store, d: Decision)
    requires Acknowledges(s, d) && t.preflights == s.preflights
    ensures Acknowledges(t, d)
  {}

  class EvidenceTables {
    var store: Store
    /** The store when the call under way began, and every change since, its own and those of others. */
    ghost var start: Store
    ghost var steps: seq<Step>

    ghost predicate Recorded()
      reads this
    {
      WellFormed(store) && Linked(start, steps, store)
    }

    ghost function History(): Trace
      reads this
    {
      Trace(start, steps, store)
    }

    ghost method Begin()
      requires WellFormed(store)
      modifies this`start, this`steps
      ensures Recorded() && start == store && OwnSteps(steps) == []
    {
      start, steps := store, [];
    }

    /**
     * Any number of other calls, each of which only adds rows that keep the tables well formed. None of them draws
     * the random id of this one.
     */
    method Elsewhere(id: Id)
      requires Recorded()
      modifies this`store, this`steps
      ensures Recorded() && Grows(old(store), store) && OwnSteps(steps) == old(OwnSteps(steps))
      ensures id !in old(store).preflights ==> id !in store.preflights
      ensures id !in old(store).decisions ==> id !in store.decisions
    {
      hide WellFormed, Grows, Linked, OwnSteps;
      GrowsOnItself(store);
      ghost var step := Step(false, store, store);
      var next: Store := *;
      if WellFormed(next) && Grows(store, next)
         && (id in next.preflights ==> id in store.preflights) && (id in next.decisions ==> id in store.decisions) {
        step := Step(false, store, next);
        store := next;
      }
      LinkStep(start, steps, step);
      steps := steps + [step];
    }

    /** One row of an actor's action, if there is one. */
    method FindPreflight(actor: Id, action: Id) returns (found: Option<Id>)
      requires WellFormed(store)
      ensures found == PreflightByAction(store, actor, action)
    {
      hide Acceptable, Acknowledges;
      if p :| p in store.preflights && store.preflights[p].actor == actor && store.preflights[p].action == action {
        PreflightStays(store, store, p);
        return Some(p);
      }
      found := None;
    }

    function Compared(p: Id, request: Preflight): Result
      requires p in store.preflights
      reads this
    {
      if store.preflights[p].fingerprint == request.fingerprint then Reused(p) else Conflict
    }

    /** `store_recipe_duplicate_preflight`. */
    method StorePreflight(request: Preflight, id: Id) returns (result: Result, ghost views: PreflightViews)
      requires WellFormed(store) && id !in store.preflights
      modifies this
      ensures start == old(store) && PreflightHistory(request, id, views, History())
      ensures result == PreflightOutcome(request, id, views)
    {
      hide WellFormed, Grows, PreflightByAction, Acceptable, InsertPreflight, Linked, OwnSteps;
      Begin();
      Elsewhere(id);
      GrowsOnItself(store);
      views := PreflightViews(store, store, store);
      var existing := FindPreflight(request.actor, request.action);
      if existing.Some? {
        result := Compared(existing.value, request);
        return;
      }
      var valid := ValidateCandidates(request.subject, request.candidates);
      if !valid { return Invalid, views; }
      Elsewhere(id);
      views := PreflightViews(views.read, store, store);
      var taken := FindPreflight(request.actor, request.action);
      if taken.None? {
        Insert(id, request);
        GrowsOnItself(store);
        views := PreflightViews(views.read, views.insert, store);
        return Created(id), views;
      }
      Elsewhere(id);
      GrowsOnItself(store);
      views := PreflightViews(views.read, views.insert, store);
      existing := FindPreflight(request.actor, request.action);
      if existing.None? { return Unresolved, views; }
      result := Compared(existing.value, request);
    }

    /** The insert, when no row has its key. */
    method Insert(id: Id, request: Preflight)
      requires Recorded() && id !in store.preflights && Acceptable(request.subject, request.candidates)
      requires PreflightByAction(store, request.actor, request.action).None?
      modifies this`store, this`steps
      ensures Recorded() && store == InsertPreflight(old(store), id, request) && Grows(old(store), store)
      ensures OwnSteps(steps) == old(OwnSteps(steps)) + [Step(true, old(store), store)]
    {
      hide WellFormed, Grows, Linked, OwnSteps, Acceptable;
      InsertKeepsPreflights(store, id, request);
      ghost var step := Step(true, store, InsertPreflight(store, id, request));
      store := store.(preflights := store.preflights[id := request]);
      LinkStep(start, steps, step);
      steps := steps + [step];
    }

    method FindDecisionByAction(actor: Id, action: Id) returns (found: Option<Id>)
      requires WellFormed(store)
      ensures found == DecisionByAction(store, actor, action)
    {
      hide Acceptable, Acknowledges;
      GrowsOnItself(store);
      if d :| d in store.decisions && store.decisions[d].actor == actor && store.decisions[d].action == action {
        DecisionStays(store, store, d);
        return Some(d);
      }
      found := None;
    }

    /** `get_recipe_duplicate_decision_by_preflight`. */
    method FindDecisionByPreflight(actor: Id, preflight: Id) returns (found: Option<Id>)
      requires WellFormed(store)
      ensures found == DecisionByPreflight(store, actor, preflight)
    {
      hide Acceptable, Acknowledges;
      GrowsOnItself(store);
      if d :| d in store.decisions && store.decisions[d].actor == actor && store.decisions[d].preflight == preflight {
        DecisionStays(store, store, d);
        return Some(d);
      }
      found := None;
    }

    function Judged(d: Id, request: Decision): Result
      requires d in store.decisions
      reads this
    {
      if Matches(store.decisions[d], request) then Reused(d) else Conflict
    }

    /** The insert fails on any unique key; `inserted` is whether a row was returned. */
    method TryInsertDecision(id: Id, request: Decision) returns (inserted: bool)
      requires Recorded() && id !in store.decisions && Acknowledges(store, request)
      modifies this`store, this`steps
      ensures Recorded() && Grows(old(store), store) && inserted == CanInsert(old(store), request)
      ensures store == InsertDecision(old(store), id, request)
      ensures OwnSteps(steps) == old(OwnSteps(steps)) + if inserted then [Step(true, old(store), store)] else []
    {
      hide WellFormed, Grows, Acknowledges, Linked, OwnSteps;
      InsertKeepsDecisions(store, id, request);
      var byAction := FindDecisionByAction(request.actor, request.action);
      inserted := byAction.None? && forall d :: d in store.decisions ==>
          store.decisions[d].preflight != request.preflight;
      if inserted {
        ghost var step := Step(true, store, InsertDecision(store, id, request));
        store := store.(decisions := store.decisions[id := request]);
        LinkStep(start, steps, step);
        steps := steps + [step];
      }
    }

    /** `store_recipe_duplicate_decision`. */
    method StoreDecision(request: Decision, id: Id) returns (result: Result, ghost views: DecisionViews)
      requires WellFormed(store) && id !in store.decisions
      modifies this
      ensures start == old(store) && DecisionHistory(request, id, views, History())
      ensures result == DecisionOutcome(request, id, views)
    {
      hide WellFormed, Grows, DecisionByAction, DecisionByPreflight, Acceptable, InsertDecision, CanInsert, Linked,
           OwnSteps;
      Begin();
      Elsewhere(id);
      GrowsOnItself(store);
      views := DecisionViews(store, store, store, store, store);
      if request.decision !in DECISIONS { return Invalid, views; }
      if request.preflight !in store.preflights || store.preflights[request.preflight].actor != request.actor {
        return NotFound, views;
      }
      var preflight := store.preflights[request.preflight];
      if request.policy != preflight.subject.policy || request.digest != preflight.digest { return Stale, views; }
      Elsewhere(id);
      AcknowledgementStays(views.preflight, store, request);
      GrowsOnItself(store);
      views := DecisionViews(views.preflight, store, store, store, store);
      var existing := FindDecisionByAction(request.actor, request.action);
      if existing.Some? {
        result := Judged(existing.value, request);
        return;
      }
      Elsewhere(id);
      AcknowledgementStays(views.action, store, request);
      GrowsOnItself(store);
      views := DecisionViews(views.preflight, views.action, store, store, store);
      existing := FindDecisionByPreflight(request.actor, request.preflight);
      if existing.Some? {
        result := Judged(existing.value, request);
        return;
      }
      Elsewhere(id);
      AcknowledgementStays(views.decision, store, request);
      views := DecisionViews(views.preflight, views.action, views.decision, store, store);
      var inserted := TryInsertDecision(id, request);
      GrowsOnItself(store);
      views := DecisionViews(views.preflight, views.action, views.decision, views.insert, store);
      if inserted { return Created(id), views; }
      InsertNothing(views.insert, id, request);
      Elsewhere(id);
      GrowsOnItself(store);
      views := DecisionViews(views.preflight, views.action, views.decision, views.insert, store);
      existing := FindDecisionByPreflight(request.actor, request.preflight);
      if existing.None? { return Conflict, views; }
      result := Judged(existing.value, request);
    }
  }

  lemma InsertNothing(s: Store, id: Id, request: Decision)
    ensures !CanInsert(s, request) ==> InsertDecision(s, id, request) == s
  {}

  /**
   * The one way a concurrent call differs from one alone: its action is taken for another preflight between its read
   * by action and its insert, while its own preflight is given the decision it asks for. It then reuses that decision,
   * where a call alone would conflict.
   */
  lemma LateReuse(before: Store, after: Store, request: Decision, id: Id, d: Id)
    requires WellFormed(before) && WellFormed(after) && Grows(before, after) && Acknowledges(before, request)
    requires DecisionByAction(before, request.actor, request.action).None?
    requires DecisionByPreflight(before, request.actor, request.preflight).None?
    requires d in after.decisions && Matches(after.decisions[d], request) && ActionTaken(after, request)
    requires id !in after.decisions
    ensures var views := DecisionViews(before, before, before, after, after);
      && DecisionHistory(request, id, views, Trace(before, [Step(false, before, after)], after))
      && DecisionOutcome(request, id, views) == Reused(d) && AloneDecision(after, request, id) == Conflict
  {
    hide WellFormed, Grows, ActionTaken, DecisionByAction, DecisionByPreflight;
    GrowsOnItself(before);
    GrowsOnItself(after);
    LinkStep(before, [], Step(false, before, after));
    assert [] + [Step(false, before, after)] == [Step(false, before, after)];
    AcknowledgementStays(before, after, request);
    OwnDecision(after, request, d);
    DecisionStays(after, after, d);
    RowDecides(after, after, request, id, d);
  }

  lemma OwnDecision(s: Store, request: Decision, d: Id)
    requires WellFormed(s) && Acknowledges(s, request) && d in s.decisions && Matches(s.decisions[d], request)
    ensures s.decisions[d].actor == request.actor && !CanInsert(s, request)
  {
    hide Acceptable;
  }

  /** Such a history: one member decides two preflights under two actions, and asks again under the other action. */
  lemma LateReuseHappens() returns (before: Store, after: Store, request: Decision)
    ensures WellFormed(before) && WellFormed(after) && Grows(before, after) && Acknowledges(before, request)
    ensures DecisionOutcome(request, 3, DecisionViews(before, before, before, after, after)) == Reused(1)
    ensures AloneDecision(after, request, 3) == Conflict
  {
    var subject := Subject(None, "a", "v", DISTINCT, false);
    assert Acceptable(subject, []);
    hide Acceptable;
    var p, q := Preflight(7, 1, "f", subject, "r", []), Preflight(7, 2, "g", subject, "r", []);
    var mine, other := Decision(1, 7, 11, "continue", "v", "r"), Decision(2, 7, 12, "continue", "v", "r");
    before := Store(map[1 := p, 2 := q], map[]);
    after := Store(before.preflights, map[1 := mine, 2 := other]);
    request := Decision(1, 7, 12, "continue", "v", "r");
    assert after.decisions[2] == other;
    assert ActionTaken(after, request);
    LateReuse(before, after, request, 3, 1);
  }

  lemma GrowsOnItself(s: Store)
    ensures Grows(s, s)
  {}
}
