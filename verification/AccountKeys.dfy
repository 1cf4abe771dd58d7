/**
 * The foreign keys between the tables of a deletion, as inclusions of the columns that refer in the columns referred
 * to (backend/app/models).
 */
module AccountKeys {
  import opened Outcomes
  import opened AccountTables

  // ---- what composite keys refer from and to ----

  ghost function InstructionRefs(db: Tables): set<(Id, Id)> {
    set k | k in db.draftActions :: (db.draftActions[k].instruction, db.draftActions[k].draft)
  }

  ghost function Instructions(db: Tables): set<(Id, Id)> {
    set k | k in db.draftInstructions :: (k, db.draftInstructions[k].draft)
  }

  ghost function ActionRefs(db: Tables): set<(Id, Id)> {
    set k | k in db.draftInputs :: (db.draftInputs[k].action, db.draftInputs[k].draft)
  }

  ghost function Actions(db: Tables): set<(Id, Id)> {
    set k | k in db.draftActions :: (k, db.draftActions[k].draft)
  }

  ghost function IngredientRefs(db: Tables): set<(Id, Id)> {
    set k | k in db.draftInputs :: (db.draftInputs[k].ingredient, db.draftInputs[k].draft)
  }

  ghost function Ingredients(db: Tables): set<(Id, Id)> {
    set k | k in db.draftIngredients :: (k, db.draftIngredients[k].draft)
  }

  ghost function SourceRefs(db: Tables): set<(Id, Id)> {
    set v | v in db.publications && db.publications[v].sourceDraft.Some? ::
      (db.publications[v].sourceDraft.value, db.publications[v].actor)
  }

  ghost function Authors(db: Tables): set<(Id, Id)> {
    set k | k in db.drafts :: (k, db.drafts[k].author)
  }

  ghost function PreflightRefs(db: Tables): set<(Id, Id)> {
    (set v | v in db.publications && db.publications[v].preflight.Some? ::
      (db.publications[v].preflight.value, db.publications[v].actor))
    + set k | k in db.decisions :: (db.decisions[k].preflight, db.decisions[k].actor)
  }

  ghost function Preflights(db: Tables): set<(Id, Id)> {
    set k | k in db.preflights :: (k, db.preflights[k].actor)
  }

  ghost function DecisionRefs(db: Tables): set<(Id, Option<Id>)> {
    set v | v in db.publications && db.publications[v].decision.Some? ::
      (db.publications[v].decision.value, db.publications[v].preflight)
  }

  ghost function Decisions(db: Tables): set<(Id, Option<Id>)> {
    set k | k in db.decisions :: (k, Some(db.decisions[k].preflight))
  }

  // ---- the keys ----

  ghost predicate DraftKeysHold(db: Tables) {
    && (set k | k in db.draftCategories :: k.0) <= db.drafts.Keys
    && (set k | k in db.draftIngredients :: db.draftIngredients[k].draft) <= db.drafts.Keys
    && (set k | k in db.draftInstructions :: db.draftInstructions[k].draft) <= db.drafts.Keys
    && (set k | k in db.draftMeasures :: k.0) <= db.draftActions.Keys
  }

  /** Rows below an instruction, an action or an ingredient name its draft too. */
  ghost predicate ActionKeysHold(db: Tables) {
    InstructionRefs(db) <= Instructions(db) && ActionRefs(db) <= Actions(db) && IngredientRefs(db) <= Ingredients(db)
  }

  /** Publications name a draft and evidence of their own actor, and the decision on that evidence. */
  ghost predicate EvidenceKeysHold(db: Tables) {
    && (set k | k in db.candidates :: k.0) <= db.preflights.Keys && SourceRefs(db) <= Authors(db)
    && PreflightRefs(db) <= Preflights(db) && DecisionRefs(db) <= Decisions(db)
  }

  /** A duplicate names a request and does not wait for review itself. */
  ghost predicate RequestKeysHold(db: Tables) {
    && (set k | k in db.draftIngredients && db.draftIngredients[k].request.Some? ::
          db.draftIngredients[k].request.value) <= db.requests.Keys
    && (set k | k in db.auditEvents :: db.auditEvents[k].request) <= db.requests.Keys
    && (set k | k in db.requests && db.requests[k].duplicateOf.Some? :: db.requests[k].duplicateOf.value)
       <= db.requests.Keys
    && Pending !in set k | k in db.requests && db.requests[k].duplicateOf.Some? :: db.requests[k].status
  }

  ghost predicate SessionKeysHold(db: Tables) {
    && (set k | k in db.loginTransactions && db.loginTransactions[k].boundSession.Some? ::
          db.loginTransactions[k].boundSession.value) <= db.sessions.Keys
    && (set k | k in db.sandboxEntries :: db.sandboxEntries[k].session) <= db.sessions.Keys
  }

  lemma InstructionKeys(db: Tables)
    ensures InstructionRefs(db) <= Instructions(db) <==>
            forall k :: k in db.draftActions ==>
              && db.draftActions[k].instruction in db.draftInstructions
              && db.draftInstructions[db.draftActions[k].instruction].draft == db.draftActions[k].draft
  {
    assert forall k :: k in db.draftActions ==>
        (db.draftActions[k].instruction, db.draftActions[k].draft) in InstructionRefs(db);
  }

  lemma ActionKeys(db: Tables)
    ensures ActionRefs(db) <= Actions(db) <==>
            forall k :: k in db.draftInputs ==>
              && db.draftInputs[k].action in db.draftActions
              && db.draftActions[db.draftInputs[k].action].draft == db.draftInputs[k].draft
  {
    assert forall k :: k in db.draftInputs ==> (db.draftInputs[k].action, db.draftInputs[k].draft) in ActionRefs(db);
  }

  lemma IngredientKeys(db: Tables)
    ensures IngredientRefs(db) <= Ingredients(db) <==>
            forall k :: k in db.draftInputs ==>
              && db.draftInputs[k].ingredient in db.draftIngredients
              && db.draftIngredients[db.draftInputs[k].ingredient].draft == db.draftInputs[k].draft
  {
    assert forall k :: k in db.draftInputs ==>
        (db.draftInputs[k].ingredient, db.draftInputs[k].draft) in IngredientRefs(db);
  }

  lemma DraftKeys(db: Tables)
    ensures DraftRowsResolve(db.drafts, db.draftCategories, db.draftIngredients, db.draftInstructions,
                             db.draftActions, db.draftInputs, db.draftMeasures)
       <==> DraftKeysHold(db) && ActionKeysHold(db)
  {
    InstructionKeys(db);
    ActionKeys(db);
    IngredientKeys(db);
    hide InstructionRefs, Instructions, ActionRefs, Actions, IngredientRefs, Ingredients;
  }

  lemma SourceKeys(db: Tables)
    ensures SourceRefs(db) <= Authors(db) <==>
            forall v :: v in db.publications && db.publications[v].sourceDraft.Some? ==>
              && db.publications[v].sourceDraft.value in db.drafts
              && db.drafts[db.publications[v].sourceDraft.value].author == db.publications[v].actor
  {
    assert forall v :: v in db.publications && db.publications[v].sourceDraft.Some? ==>
        (db.publications[v].sourceDraft.value, db.publications[v].actor) in SourceRefs(db);
  }

  lemma PreflightKeys(db: Tables)
    ensures PreflightRefs(db) <= Preflights(db) <==>
            && (forall v :: v in db.publications && db.publications[v].preflight.Some? ==>
                 && db.publications[v].preflight.value in db.preflights
                 && db.preflights[db.publications[v].preflight.value].actor == db.publications[v].actor)
            && (forall k :: k in db.decisions ==>
                 && db.decisions[k].preflight in db.preflights
                 && db.preflights[db.decisions[k].preflight].actor == db.decisions[k].actor)
  {
    assert forall v :: v in db.publications && db.publications[v].preflight.Some? ==>
        (db.publications[v].preflight.value, db.publications[v].actor) in PreflightRefs(db);
    assert forall k :: k in db.decisions ==>
        (db.decisions[k].preflight, db.decisions[k].actor) in PreflightRefs(db);
  }

  lemma DecisionKeys(db: Tables)
    ensures DecisionRefs(db) <= Decisions(db) <==>
            forall v :: v in db.publications && db.publications[v].decision.Some? ==>
              && db.publications[v].decision.value in db.decisions
              && db.publications[v].preflight == Some(db.decisions[db.publications[v].decision.value].preflight)
  {
    assert forall v :: v in db.publications && db.publications[v].decision.Some? ==>
        (db.publications[v].decision.value, db.publications[v].preflight) in DecisionRefs(db);
  }

  lemma EvidenceKeys(db: Tables)
    ensures EvidenceResolves(db.drafts, db.preflights, db.candidates, db.decisions, db.publications)
       <==> EvidenceKeysHold(db)
  {
    SourceKeys(db);
    PreflightKeys(db);
    DecisionKeys(db);
    hide SourceRefs, Authors, PreflightRefs, Preflights, DecisionRefs, Decisions;
  }

  lemma RequestKeys(db: Tables)
    ensures RequestsResolve(db.requests, db.draftIngredients, db.auditEvents) <==> RequestKeysHold(db)
  {}

  lemma SessionKeys(db: Tables)
    ensures SessionsResolve(db.sessions, db.loginTransactions, db.sandboxEntries) <==> SessionKeysHold(db)
  {}

  /** References resolve exactly when every foreign key holds. */
  lemma ResolvesColumns(db: Tables)
    ensures Resolves(db) <==>
              && DraftKeysHold(db) && ActionKeysHold(db) && EvidenceKeysHold(db)
              && RequestKeysHold(db) && SessionKeysHold(db)
  {
    hide *;
    ResolvesMeans();
    DraftKeys(db);
    EvidenceKeys(db);
    RequestKeys(db);
    SessionKeys(db);
  }
}
