/** The topology that survives an account deletion: references still resolve, and other rows are untouched. */
module AccountReferences {
  import opened Outcomes
  import opened Timestamps
  import opened AccountTables
  import opened AccountChecks
  import opened AccountErasure
  import opened AccountVerifier
  import opened AccountStatements

  lemma DraftRowsStillResolve(db: Tables, who: Deletions)
    requires DraftRowsResolve(db.drafts, db.draftCategories, db.draftIngredients, db.draftInstructions,
                              db.draftActions, db.draftInputs, db.draftMeasures)
    ensures DraftRowsResolve(
      ErasedDrafts(db.drafts, who),
      KeptCategories(db.drafts, db.draftCategories, who.Keys),
      KeptIngredients(db.drafts, db.draftIngredients, who.Keys),
      KeptInstructions(db.drafts, db.draftInstructions, who.Keys),
      KeptActions(db.drafts, db.draftActions, who.Keys),
      KeptInputs(db.drafts, db.draftInputs, who.Keys),
      KeptMeasures(db.drafts, db.draftActions, db.draftMeasures, who.Keys))
  {
    forall d | d in db.drafts && !DraftOf(db.drafts, d, who.Keys) ensures d in ErasedDrafts(db.drafts, who) {
    }
    hide DraftOf, ErasedDrafts;
  }

  /** Publications keep their evidence always, and their source draft unless the purge may not start. */
  lemma EvidenceStillResolves(db: Tables, user: Id, at: Timestamp)
    requires EvidenceResolves(db.drafts, db.preflights, db.candidates, db.decisions, db.publications)
    ensures EvidenceResolves(
      ErasedDrafts(db.drafts, map[user := at]),
      KeptPreflights(db.preflights, db.publications, {user}),
      KeptCandidates(db.preflights, db.publications, db.candidates, {user}),
      KeptDecisions(db.preflights, db.publications, db.decisions, {user}), db.publications)
      <==> !DraftsCited(db.drafts, db.publications, user)
  {
    DecisionsStillResolve(db.preflights, db.decisions, db.publications, {user});
    SourceDraftsStillResolve(db.drafts, db.publications, user, at);
    forall v | v in db.publications && db.publications[v].preflight.Some?
        ensures Cited(db.publications, db.publications[v].preflight.value) {
    }
    hide DecisionsResolve, DraftsCited, ErasedDrafts, KeptDecisions, Cited;
  }

  lemma SourceDraftsStillResolve(drafts: map<Id, Draft>, publications: map<Id, Publication>, user: Id, at: Timestamp)
    requires forall v :: v in publications && publications[v].sourceDraft.Some? ==>
               && publications[v].sourceDraft.value in drafts
               && drafts[publications[v].sourceDraft.value].author == publications[v].actor
    ensures (forall v :: v in publications && publications[v].sourceDraft.Some? ==>
               && publications[v].sourceDraft.value in ErasedDrafts(drafts, map[user := at])
               && ErasedDrafts(drafts, map[user := at])[publications[v].sourceDraft.value].author
                   == publications[v].actor)
       <==> !DraftsCited(drafts, publications, user)
  {
    var erased := ErasedDrafts(drafts, map[user := at]);
    forall d | d in drafts
      ensures d in erased <==> !(drafts[d].author == user && drafts[d].status in {ActiveDraft, DiscardedDraft})
      ensures d in erased ==> erased[d].author == drafts[d].author
    {
    }
    hide ErasedDrafts;
  }

  lemma DecisionsStillResolve(preflights: map<Id, Preflight>, decisions: map<Id, Decision>,
                              publications: map<Id, Publication>, who: set<Id>)
    requires DecisionsResolve(preflights, decisions, publications)
    ensures DecisionsResolve(KeptPreflights(preflights, publications, who),
                             KeptDecisions(preflights, publications, decisions, who), publications)
  {
    forall v | v in publications && publications[v].preflight.Some?
        ensures Cited(publications, publications[v].preflight.value) {
    }
    hide Cited;
  }

  lemma RequestsStillResolve(requests: map<Id, Request>, ingredients: map<Id, DraftIngredient>,
                             events: map<Id, AuditEvent>, user: Id, now: Timestamp)
    requires RequestsResolve(requests, ingredients, events)
    ensures RequestsResolve(ErasedRequests(requests, {user}, now), ingredients,
              ErasedAuditEvents(requests, events, {user}))
       <==> !PendingCited(requests, ingredients, user)
  {
    var erased := ErasedRequests(requests, {user}, now);
    forall r ensures r in erased <==> r in requests && !PendingOf(requests, r, {user})
             ensures r in erased ==>
                     erased[r].duplicateOf == requests[r].duplicateOf && erased[r].status == requests[r].status
    {
    }
    forall k | k in ErasedAuditEvents(requests, events, {user})
      ensures ErasedAuditEvents(requests, events, {user})[k].request in erased
    {
    }
    hide ErasedRequests, ErasedAuditEvents, PendingOf;
  }

  lemma SessionsStillResolve(sessions: map<Id, Owned>, logins: map<Id, LoginTransaction>,
                             entries: map<string, SandboxEntry>, who: set<Id>)
    requires SessionsResolve(sessions, logins, entries)
    ensures SessionsResolve(KeptOwned(sessions, who), KeptLogins(sessions, logins, who),
              KeptEntries(sessions, entries, who))
  {
  }

  lemma IngredientsStillResolve(db: Tables, user: Id)
    requires RequestsResolve(db.requests, db.draftIngredients, db.auditEvents)
    ensures RequestsResolve(db.requests, KeptIngredients(db.drafts, db.draftIngredients, {user}), db.auditEvents)
  {
    hide DraftOf;
  }

  /**
   * The RESTRICT keys refuse a purge exactly when some surviving row would be left pointing at nothing: a
   * publication at its draft, or a draft ingredient or a duplicate at a pending request.
   */
  lemma ReferencesResolveExactlyWhenAllowed(db: Tables, user: Id, at: Timestamp, now: Timestamp)
    requires Resolves(db)
    ensures Resolves(Erased(db, map[user := at], now))
       <==> && !DraftsCited(db.drafts, db.publications, user)
            && !PendingCited(db.requests, KeptIngredients(db.drafts, db.draftIngredients, {user}), user)
  {
    hide *;
    ResolvesMeans();
    assert (map[user := at]).Keys == {user};
    ErasedTables(db, map[user := at], now);
    DraftRowsStillResolve(db, map[user := at]);
    EvidenceStillResolves(db, user, at);
    IngredientsStillResolve(db, user);
    RequestsStillResolve(db.requests, KeptIngredients(db.drafts, db.draftIngredients, {user}), db.auditEvents, user,
        now);
    SessionsStillResolve(db.sessions, db.loginTransactions, db.sandboxEntries, {user});
  }

  // ---- what stays, whoever is deleted ----

  ghost predicate RecipesStay(before: map<Id, Recipe>, after: map<Id, Recipe>) {
    after.Keys == before.Keys && forall k :: k in before ==> after[k] == before[k].(owner := after[k].owner)
  }

  ghost predicate PublishedDraftsStay(before: map<Id, Draft>, after: map<Id, Draft>) {
    forall k :: k in before && before[k].status == PublishedDraft ==>
      && k in after && after[k].author == before[k].author && after[k].revision == before[k].revision
      && after[k].status == PublishedDraft && after[k].rest == before[k].rest
  }

  ghost predicate ReviewedRequestsStay(before: map<Id, Request>, after: map<Id, Request>) {
    forall k :: k in before && before[k].status != Pending ==>
      k in after && after[k] == before[k].(context := after[k].context, updatedAt := after[k].updatedAt)
  }

  ghost predicate CitedEvidenceStays(db: Tables, e: Tables) {
    && (forall k :: k in db.preflights && Cited(db.publications, k) ==>
        k in e.preflights && e.preflights[k] == db.preflights[k])
    && (forall k :: k in db.decisions && Cited(db.publications, db.decisions[k].preflight) ==>
          k in e.decisions && e.decisions[k] == db.decisions[k])
    && (forall k :: k in db.candidates && Cited(db.publications, k.0) ==>
        k in e.candidates && e.candidates[k] == db.candidates[k])
  }

  /** Attribution and publication history stay public: only ownership and private text are taken away. */
  lemma PublicTopologyStays(db: Tables, who: Deletions, now: Timestamp)
    ensures var e := Erased(db, who, now);
      && e.users == db.users && e.publications == db.publications
      && RecipesStay(db.recipes, e.recipes) && PublishedDraftsStay(db.drafts, e.drafts)
      && ReviewedRequestsStay(db.requests, e.requests) && CitedEvidenceStays(db, e)
  {
    hide *;
    ErasedTables(db, who, now);
    var e := Erased(db, who, now);
    RecipesThatStay(db.recipes, who.Keys);
    DraftsThatStay(db.drafts, who);
    RequestsThatStay(db.requests, who.Keys, now);
    EvidenceThatStays(db, e, who);
  }

  lemma RecipesThatStay(rows: map<Id, Recipe>, who: set<Id>)
    ensures RecipesStay(rows, Disowned(rows, who))
  {
  }

  lemma DraftsThatStay(drafts: map<Id, Draft>, who: Deletions)
    ensures PublishedDraftsStay(drafts, ErasedDrafts(drafts, who))
  {
  }

  lemma RequestsThatStay(requests: map<Id, Request>, who: set<Id>, now: Timestamp)
    ensures ReviewedRequestsStay(requests, ErasedRequests(requests, who, now))
  {
  }

  lemma EvidenceThatStays(db: Tables, e: Tables, who: Deletions)
    requires e.preflights == KeptPreflights(db.preflights, db.publications, who.Keys)
    requires e.decisions == KeptDecisions(db.preflights, db.publications, db.decisions, who.Keys)
    requires e.candidates == KeptCandidates(db.preflights, db.publications, db.candidates, who.Keys)
    ensures CitedEvidenceStays(db, e)
  {
    hide Cited;
  }

  // ---- what is untouched: everything that is not the account's ----

  /** No row appears, and rows outside `mine` are neither removed nor changed. */
  ghost predicate Only<K, V>(before: map<K, V>, after: map<K, V>, mine: set<K>) {
    after.Keys <= before.Keys && forall k :: k in before && k !in mine ==> k in after && after[k] == before[k]
  }

  ghost predicate OthersDrafts(db: Tables, e: Tables, who: set<Id>) {
    && Only(db.recipes, e.recipes,
            set k | k in db.recipes && db.recipes[k].owner.Some? && db.recipes[k].owner.value in who)
    && Only(db.drafts, e.drafts, set k | k in db.drafts && db.drafts[k].author in who)
    && Only(db.draftCategories, e.draftCategories,
            set k | k in db.draftCategories && DraftOf(db.drafts, k.0, who))
    && Only(db.draftIngredients, e.draftIngredients,
            set k | k in db.draftIngredients && DraftOf(db.drafts, db.draftIngredients[k].draft, who))
    && Only(db.draftInstructions, e.draftInstructions,
            set k | k in db.draftInstructions && DraftOf(db.drafts, db.draftInstructions[k].draft, who))
  }

  ghost predicate OthersActions(db: Tables, e: Tables, who: set<Id>) {
    && Only(db.draftActions, e.draftActions,
            set k | k in db.draftActions && DraftOf(db.drafts, db.draftActions[k].draft, who))
    && Only(db.draftInputs, e.draftInputs,
            set k | k in db.draftInputs && DraftOf(db.drafts, db.draftInputs[k].draft, who))
    && Only(db.draftMeasures, e.draftMeasures,
            set k | k in db.draftMeasures && ActionOf(db.drafts, db.draftActions, k.0, who))
  }

  /** Evidence belongs to its actor, and candidates to the actor of their preflight. */
  ghost predicate OthersEvidence(db: Tables, e: Tables, who: set<Id>) {
    && Only(db.preflights, e.preflights, set k | k in db.preflights && db.preflights[k].actor in who)
    && Only(db.decisions, e.decisions, set k | k in db.decisions && db.decisions[k].actor in who)
    && Only(db.candidates, e.candidates,
            set k | k in db.candidates && k.0 in db.preflights && db.preflights[k.0].actor in who)
  }

  ghost predicate OthersRequests(db: Tables, e: Tables, who: set<Id>) {
    && Only(db.requests, e.requests, set k | k in db.requests && db.requests[k].requester in who)
    && Only(db.auditEvents, e.auditEvents,
            set k | k in db.auditEvents && db.auditEvents[k].request in db.requests
                    && db.requests[db.auditEvents[k].request].requester in who)
  }

  ghost predicate OthersMarks(db: Tables, e: Tables, who: set<Id>) {
    && Only(db.saves, e.saves, set k | k in db.saves && k.0 in who)
    && Only(db.ratings, e.ratings, set k | k in db.ratings && k.0 in who)
    && Only(db.preferenceEvents, e.preferenceEvents,
            set k | k in db.preferenceEvents && db.preferenceEvents[k].user in who)
    && Only(db.follows, e.follows, set k | k in db.follows && (k.0 in who || k.1 in who))
    && Only(db.reports, e.reports, set k | k in db.reports && db.reports[k].reporter in who)
    && Only(db.moderationEvents, e.moderationEvents,
            set k | k in db.moderationEvents && db.moderationEvents[k].actor in who)
  }

  ghost predicate OthersSignIn(db: Tables, e: Tables, who: set<Id>) {
    && Only(db.moderators, e.moderators, set k | k in db.moderators && k in who)
    && Only(db.curators, e.curators, set k | k in db.curators && k in who)
    && Only(db.identities, e.identities, set k | k in db.identities && db.identities[k].user in who)
    && Only(db.sessions, e.sessions, set k | k in db.sessions && db.sessions[k].user in who)
    && Only(db.buckets, e.buckets,
            set k | k in db.buckets && db.buckets[k].account.Some? && db.buckets[k].account.value in who)
    && Only(db.loginTransactions, e.loginTransactions,
            set k | k in db.loginTransactions && db.loginTransactions[k].boundSession.Some?
                    && SessionOf(db.sessions, db.loginTransactions[k].boundSession.value, who))
    && Only(db.sandboxEntries, e.sandboxEntries,
            set k | k in db.sandboxEntries && SessionOf(db.sessions, db.sandboxEntries[k].session, who))
  }

  /**
   * No row that belongs to another account is removed or changed, and none is added, in any of the tables: a row
   * belongs to the account it names, or to the one whose draft, action, preflight, request or session it names.
   */
  lemma OthersUntouched(db: Tables, who: Deletions, now: Timestamp)
    requires Resolves(db)
    ensures var e := Erased(db, who, now);
      && e.users == db.users && e.publications == db.publications
      && OthersDrafts(db, e, who.Keys) && OthersActions(db, e, who.Keys) && OthersEvidence(db, e, who.Keys)
      && OthersRequests(db, e, who.Keys) && OthersMarks(db, e, who.Keys) && OthersSignIn(db, e, who.Keys)
  {
    hide *;
    ResolvesMeans();
    ErasedTables(db, who, now);
    var e := Erased(db, who, now);
    OthersKeepDrafts(db, e, who);
    OthersKeepActions(db, e, who);
    OthersKeepEvidence(db, e, who.Keys);
    OthersKeepRequests(db, e, who.Keys, now);
    OthersKeepMarks(db, e, who.Keys);
    OthersKeepSignIn(db, e, who.Keys);
  }

  lemma OthersKeepDrafts(db: Tables, e: Tables, who: Deletions)
    requires e.recipes == Disowned(db.recipes, who.Keys) && e.drafts == ErasedDrafts(db.drafts, who)
    requires e.draftCategories == KeptCategories(db.drafts, db.draftCategories, who.Keys)
    requires e.draftIngredients == KeptIngredients(db.drafts, db.draftIngredients, who.Keys)
    requires e.draftInstructions == KeptInstructions(db.drafts, db.draftInstructions, who.Keys)
    ensures OthersDrafts(db, e, who.Keys)
  {
    hide Only, Disowned, ErasedDrafts, KeptCategories, KeptIngredients, KeptInstructions;
    OthersKeepRecipes(db.recipes, db.drafts, who);
    OthersKeepDraftRows(db, who.Keys);
  }

  lemma OthersKeepRecipes(recipes: map<Id, Recipe>, drafts: map<Id, Draft>, who: Deletions)
    ensures Only(recipes, Disowned(recipes, who.Keys),
                 set k | k in recipes && recipes[k].owner.Some? && recipes[k].owner.value in who)
    ensures Only(drafts, ErasedDrafts(drafts, who), set k | k in drafts && drafts[k].author in who)
  {}

  lemma OthersKeepDraftRows(db: Tables, who: set<Id>)
    ensures Only(db.draftCategories, KeptCategories(db.drafts, db.draftCategories, who),
                 set k | k in db.draftCategories && DraftOf(db.drafts, k.0, who))
    ensures Only(db.draftIngredients, KeptIngredients(db.drafts, db.draftIngredients, who),
                 set k | k in db.draftIngredients && DraftOf(db.drafts, db.draftIngredients[k].draft, who))
    ensures Only(db.draftInstructions, KeptInstructions(db.drafts, db.draftInstructions, who),
                 set k | k in db.draftInstructions && DraftOf(db.drafts, db.draftInstructions[k].draft, who))
  {
    hide DraftOf;
  }

  lemma OthersKeepActions(db: Tables, e: Tables, who: Deletions)
    requires e.draftActions == KeptActions(db.drafts, db.draftActions, who.Keys)
    requires e.draftInputs == KeptInputs(db.drafts, db.draftInputs, who.Keys)
    requires e.draftMeasures == KeptMeasures(db.drafts, db.draftActions, db.draftMeasures, who.Keys)
    ensures OthersActions(db, e, who.Keys)
  {
    hide Only, KeptActions, KeptInputs, KeptMeasures;
    OthersKeepActionRows(db, who.Keys);
  }

  lemma OthersKeepActionRows(db: Tables, who: set<Id>)
    ensures Only(db.draftActions, KeptActions(db.drafts, db.draftActions, who),
                 set k | k in db.draftActions && DraftOf(db.drafts, db.draftActions[k].draft, who))
    ensures Only(db.draftInputs, KeptInputs(db.drafts, db.draftInputs, who),
                 set k | k in db.draftInputs && DraftOf(db.drafts, db.draftInputs[k].draft, who))
    ensures Only(db.draftMeasures, KeptMeasures(db.drafts, db.draftActions, db.draftMeasures, who),
                 set k | k in db.draftMeasures && ActionOf(db.drafts, db.draftActions, k.0, who))
  {
    hide DraftOf, ActionOf;
  }

  lemma OthersKeepEvidence(db: Tables, e: Tables, who: set<Id>)
    requires DecisionsResolve(db.preflights, db.decisions, db.publications)
    requires e.preflights == KeptPreflights(db.preflights, db.publications, who)
    requires e.decisions == KeptDecisions(db.preflights, db.publications, db.decisions, who)
    requires e.candidates == KeptCandidates(db.preflights, db.publications, db.candidates, who)
    ensures OthersEvidence(db, e, who)
  {
    hide Cited;
  }

  lemma OthersKeepRequests(db: Tables, e: Tables, who: set<Id>, now: Timestamp)
    requires e.requests == ErasedRequests(db.requests, who, now)
    requires e.auditEvents == ErasedAuditEvents(db.requests, db.auditEvents, who)
    ensures OthersRequests(db, e, who)
  {}

  lemma OthersKeepMarks(db: Tables, e: Tables, who: set<Id>)
    requires e.saves == KeptMarks(db.saves, who) && e.ratings == KeptMarks(db.ratings, who)
    requires e.preferenceEvents == KeptOwned(db.preferenceEvents, who) && e.follows == KeptFollows(db.follows, who)
    requires e.reports == ScrubbedReports(db.reports, who)
    requires e.moderationEvents == ScrubbedModeration(db.moderationEvents, who)
    ensures OthersMarks(db, e, who)
  {
    hide Only, KeptMarks, KeptOwned, KeptFollows, ScrubbedReports, ScrubbedModeration;
    OthersKeepOwned(db.preferenceEvents, who);
    OthersKeepMarkRows(db, who);
    OthersKeepNotes(db, who);
  }

  lemma OthersKeepMarkRows(db: Tables, who: set<Id>)
    ensures Only(db.saves, KeptMarks(db.saves, who), set k | k in db.saves && k.0 in who)
    ensures Only(db.ratings, KeptMarks(db.ratings, who), set k | k in db.ratings && k.0 in who)
    ensures Only(db.follows, KeptFollows(db.follows, who),
                 set k | k in db.follows && (k.0 in who || k.1 in who))
  {}

  lemma OthersKeepNotes(db: Tables, who: set<Id>)
    ensures Only(db.reports, ScrubbedReports(db.reports, who),
                 set k | k in db.reports && db.reports[k].reporter in who)
    ensures Only(db.moderationEvents, ScrubbedModeration(db.moderationEvents, who),
                 set k | k in db.moderationEvents && db.moderationEvents[k].actor in who)
  {}

  lemma OthersKeepSignIn(db: Tables, e: Tables, who: set<Id>)
    requires e.moderators == KeptGrants(db.moderators, who) && e.curators == KeptGrants(db.curators, who)
    requires e.identities == KeptOwned(db.identities, who) && e.sessions == KeptOwned(db.sessions, who)
    requires e.buckets == KeptBuckets(db.buckets, who)
    requires e.loginTransactions == KeptLogins(db.sessions, db.loginTransactions, who)
    requires e.sandboxEntries == KeptEntries(db.sessions, db.sandboxEntries, who)
    ensures OthersSignIn(db, e, who)
  {
    hide Only, KeptGrants, KeptOwned, KeptBuckets, KeptLogins, KeptEntries, SessionOf;
    OthersKeepGrants(db.moderators, who);
    OthersKeepGrants(db.curators, who);
    OthersKeepOwned(db.identities, who);
    OthersKeepOwned(db.sessions, who);
    OthersKeepSessionRows(db, who);
  }

  lemma OthersKeepGrants(rows: map<Id, string>, who: set<Id>)
    ensures Only(rows, KeptGrants(rows, who), set k | k in rows && k in who)
  {}

  lemma OthersKeepOwned(rows: map<Id, Owned>, who: set<Id>)
    ensures Only(rows, KeptOwned(rows, who), set k | k in rows && rows[k].user in who)
  {}

  lemma OthersKeepSessionRows(db: Tables, who: set<Id>)
    ensures Only(db.buckets, KeptBuckets(db.buckets, who),
                 set k | k in db.buckets && db.buckets[k].account.Some? && db.buckets[k].account.value in who)
    ensures Only(db.loginTransactions, KeptLogins(db.sessions, db.loginTransactions, who),
                 set k | k in db.loginTransactions && db.loginTransactions[k].boundSession.Some?
                         && SessionOf(db.sessions, db.loginTransactions[k].boundSession.value, who))
    ensures Only(db.sandboxEntries, KeptEntries(db.sessions, db.sandboxEntries, who),
                 set k | k in db.sandboxEntries && SessionOf(db.sessions, db.sandboxEntries[k].session, who))
  {
    hide SessionOf;
  }

  // ---- purging twice ----

  /** On the tables alone, purging again with the same times changes nothing. */
  lemma ErasureIsIdempotent(db: Tables, who: Deletions, now: Timestamp)
    ensures Erased(Erased(db, who, now), who, now) == Erased(db, who, now)
  {
    hide Erased;
    ErasedRoundsCompose(db, who, who, now);
    assert who + who == who;
  }

  /**
   * But the database does not let every account be purged twice: the audit trigger only accepts removing a
   * context that is there. A second purge goes through exactly when the account has no reviewed request
   * whose submission is on record.
   */
  lemma SecondPurgeAllowedExactlyWithoutReviewedSubmissions(db: Tables, user: Id, at: Timestamp, now: Timestamp)
    requires MayErase(db, user)
    ensures MayErase(Erased(db, map[user := at], now), user)
       <==> forall k :: k in db.auditEvents ==>
              !(TerminalOf(db.requests, db.auditEvents[k].request, {user}) && db.auditEvents[k].eventType == SUBMITTED)
  {
    hide *;
    MayEraseMeans();
    assert (map[user := at]).Keys == {user};
    ErasedTables(db, map[user := at], now);
    DraftsNotCitedAgain(db.drafts, db.publications, user, at);
    EvidenceGoneAgain(db.users, db.preflights, db.publications, user);
    RequestsAgain(db.users, db.requests, db.auditEvents, user, now);
    NotesAgain(db.users, db.moderationEvents, user);
    PendingNotCitedAgain(db.requests, KeptIngredients(ErasedDrafts(db.drafts, map[user := at]),
                         KeptIngredients(db.drafts, db.draftIngredients, {user}), {user}), user, now);
  }

  /** A deleted member with a reviewed request whose submission is on record, with its context. */
  function Reviewed(at: Timestamp): Tables {
    var u := User(Member, DeletedAccount, None, None, DELETED_COOK_DISPLAY_NAME, None, Some(at), at, "");
    EMPTY.(users := map[1 := u],
           requests := map[2 := Request(1, Approved, Some("a cake"), None, at, "")],
           auditEvents := map[3 := AuditEvent(2, 1, SUBMITTED, map[CONTEXT := "a cake"], "")])
  }

  lemma ReviewedIsAllowed(db: Tables, at: Timestamp)
    requires db == Reviewed(at)
    ensures ChecksHold(db)
  {
    assert "a cake"[0] == 'a' && DELETED_COOK_DISPLAY_NAME[0] == 'D';
  }

  lemma ReviewedResolves(db: Tables, at: Timestamp)
    requires db == Reviewed(at)
    ensures Resolves(db)
  {}

  lemma ReviewedRequestsMayGo(db: Tables, at: Timestamp)
    requires db == Reviewed(at)
    ensures PendingEventsMayGo(db.users, db.requests, db.auditEvents, 1)
    ensures ContextsMayGo(db.users, db.requests, db.auditEvents, 1)
  {
    hide DraftOf;
  }

  lemma ReviewedMayGo(db: Tables, at: Timestamp)
    requires db == Reviewed(at)
    ensures MayErase(db, 1)
  {
    hide PendingEventsMayGo, ContextsMayGo, KeptIngredients;
    ReviewedRequestsMayGo(db, at);
    NothingKept(db.drafts, db.draftIngredients);
  }

  lemma NothingKept(drafts: map<Id, Draft>, ingredients: map<Id, DraftIngredient>)
    requires ingredients == map[]
    ensures KeptIngredients(drafts, ingredients, {1}) == map[]
  {}

  /** The second purge of this account is refused. */
  lemma SecondPurgeRefused(at: Timestamp, now: Timestamp)
    ensures var db := Reviewed(at);
      Resolves(db) && ChecksHold(db) && MayErase(db, 1) && !MayErase(Erased(db, map[1 := at], now), 1)
  {
    hide Erased, MayErase, Resolves, ChecksHold;
    ReviewedIsAllowed(Reviewed(at), at);
    ReviewedResolves(Reviewed(at), at);
    ReviewedMayGo(Reviewed(at), at);
    SecondPurgeAllowedExactlyWithoutReviewedSubmissions(Reviewed(at), 1, at, now);
    assert 3 in Reviewed(at).auditEvents;
  }

  lemma DraftsNotCitedAgain(drafts: map<Id, Draft>, publications: map<Id, Publication>, user: Id, at: Timestamp)
    ensures !DraftsCited(ErasedDrafts(drafts, map[user := at]), publications, user)
  {
  }

  lemma EvidenceGoneAgain(users: map<Id, User>, preflights: map<Id, Preflight>, publications: map<Id, Publication>,
      user: Id)
    ensures EvidenceMayGo(users, KeptPreflights(preflights, publications, {user}), publications, user)
  {
    hide Cited;
  }

  lemma PendingNotCitedAgain(requests: map<Id, Request>, ingredients: map<Id, DraftIngredient>, user: Id,
      now: Timestamp)
    ensures !PendingCited(ErasedRequests(requests, {user}, now), ingredients, user)
  {
  }

  lemma NotesAgain(users: map<Id, User>, events: map<nat, ModerationEvent>, user: Id)
    ensures NotesMayGo(users, ScrubbedModeration(events, {user}), user) <==> NotesMayGo(users, events, user)
  {
    assert forall k :: k in events ==> ScrubbedModeration(events, {user})[k].actor == events[k].actor;
  }

  lemma RequestsAgain(users: map<Id, User>, requests: map<Id, Request>, rows: map<Id, AuditEvent>, user: Id,
      now: Timestamp)
    requires ContextsMayGo(users, requests, rows, user)
    ensures var requests', rows' := ErasedRequests(requests, {user}, now), ErasedAuditEvents(requests, rows, {user});
      && PendingEventsMayGo(users, requests', rows', user)
      && (ContextsMayGo(users, requests', rows', user)
          <==> forall k :: k in rows ==>
              !(TerminalOf(requests, rows[k].request, {user}) && rows[k].eventType == SUBMITTED))
  {
    var requests', rows' := ErasedRequests(requests, {user}, now), ErasedAuditEvents(requests, rows, {user});
    forall r ensures TerminalOf(requests', r, {user}) <==> TerminalOf(requests, r, {user})
             ensures !PendingOf(requests', r, {user})
             ensures TerminalOf(requests, r, {user}) ==> !PendingOf(requests, r, {user})
    {
    }
    hide ErasedRequests, TerminalOf, PendingOf;
    forall k | k in rows && TerminalOf(requests, rows[k].request, {user}) && rows[k].eventType == SUBMITTED
      ensures k in rows' && rows'[k].request == rows[k].request && rows'[k].eventType == SUBMITTED
                && CONTEXT !in rows'[k].payload
    {
    }
    forall k | k in rows'
        ensures k in rows && rows'[k].request == rows[k].request && rows'[k].eventType == rows[k].eventType {
    }
    hide ErasedAuditEvents, OwnSubmission;
  }
}
