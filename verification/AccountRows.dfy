/**
 * What a purge leaves, stated table by table from the columns of the rows: which rows are there afterwards, and what is
 * in them. None of it is said through the functions that compute the tables.
 */
module AccountRows {
  import opened Outcomes
  import opened Timestamps
  import opened AccountTables
  import opened AccountErasure
  import opened AccountVerifier

  // ---- recipes and drafts ----

  /** All recipes stay; those of these accounts lose their owner and nothing else. */
  ghost predicate RecipesAfter(before: map<Id, Recipe>, after: map<Id, Recipe>, who: set<Id>) {
    && after.Keys == before.Keys
    && forall k :: k in before ==>
         && after[k].attributedAuthor == before[k].attributedAuthor && after[k].rest == before[k].rest
         && (after[k].owner == if before[k].owner.Some? && before[k].owner.value in who then None else before[k].owner)
  }

  /** Active and discarded drafts of these accounts go, and published ones lose their text. */
  ghost predicate DraftsAfter(before: map<Id, Draft>, after: map<Id, Draft>, who: Deletions) {
    && (forall k :: k in after <==>
         k in before && !(before[k].author in who && before[k].status in {ActiveDraft, DiscardedDraft}))
    && (forall k :: k in after && before[k].author !in who ==> after[k] == before[k])
    && (forall k :: k in after && before[k].author in who ==>
         && after[k].author == before[k].author && after[k].status == PublishedDraft == before[k].status
         && after[k].revision == before[k].revision && after[k].rest == before[k].rest
         && after[k].title == "" && after[k].description == None && after[k].servings == None
         && after[k].totalTimeMinutes == None && after[k].activeTimeMinutes == None && after[k].difficulty == None
         && after[k].notes == None && after[k].updatedAt == who[before[k].author])
  }

  /** The rows below drafts: those below a draft of these accounts go, published or not, and no other. */
  ghost predicate DraftRowsAfter(db: Tables, e: Tables, who: set<Id>) {
    && (forall k :: k in e.draftCategories <==>
         k in db.draftCategories && !(k.0 in db.drafts && db.drafts[k.0].author in who))
    && (forall k :: k in e.draftCategories ==> e.draftCategories[k] == db.draftCategories[k])
    && (forall k :: k in e.draftIngredients <==>
         && k in db.draftIngredients
         && !(db.draftIngredients[k].draft in db.drafts && db.drafts[db.draftIngredients[k].draft].author in who))
    && (forall k :: k in e.draftIngredients ==> e.draftIngredients[k] == db.draftIngredients[k])
    && (forall k :: k in e.draftInstructions <==>
         && k in db.draftInstructions
         && !(db.draftInstructions[k].draft in db.drafts && db.drafts[db.draftInstructions[k].draft].author in who))
    && (forall k :: k in e.draftInstructions ==> e.draftInstructions[k] == db.draftInstructions[k])
  }

  ghost predicate ActionRowsAfter(db: Tables, e: Tables, who: set<Id>) {
    && (forall k :: k in e.draftActions <==>
         && k in db.draftActions
         && !(db.draftActions[k].draft in db.drafts && db.drafts[db.draftActions[k].draft].author in who))
    && (forall k :: k in e.draftActions ==> e.draftActions[k] == db.draftActions[k])
    && (forall k :: k in e.draftInputs <==>
         && k in db.draftInputs
         && !(db.draftInputs[k].draft in db.drafts && db.drafts[db.draftInputs[k].draft].author in who))
    && (forall k :: k in e.draftInputs ==> e.draftInputs[k] == db.draftInputs[k])
    && (forall k :: k in e.draftMeasures <==>
         && k in db.draftMeasures
         && !(k.0 in db.draftActions && db.draftActions[k.0].draft in db.drafts
              && db.drafts[db.draftActions[k.0].draft].author in who))
    && (forall k :: k in e.draftMeasures ==> e.draftMeasures[k] == db.draftMeasures[k])
  }

  // ---- evidence and requests ----

  /** A preflight of one of these accounts that no publication names. */
  ghost predicate Unpublished(db: Tables, p: Id, who: set<Id>) {
    && p in db.preflights && db.preflights[p].actor in who
    && forall v :: v in db.publications ==> db.publications[v].preflight != Some(p)
  }

  ghost predicate EvidenceAfter(db: Tables, e: Tables, who: set<Id>) {
    && (forall k :: k in e.preflights <==> k in db.preflights && !Unpublished(db, k, who))
    && (forall k :: k in e.preflights ==> e.preflights[k] == db.preflights[k])
    && (forall k :: k in e.decisions <==> k in db.decisions && !Unpublished(db, db.decisions[k].preflight, who))
    && (forall k :: k in e.decisions ==> e.decisions[k] == db.decisions[k])
    && (forall k :: k in e.candidates <==> k in db.candidates && !Unpublished(db, k.0, who))
    && (forall k :: k in e.candidates ==> e.candidates[k] == db.candidates[k])
  }

  /** Pending requests of these accounts go; reviewed ones stay without their context. */
  ghost predicate RequestsAfter(before: map<Id, Request>, after: map<Id, Request>, who: set<Id>, now: Timestamp) {
    && (forall k :: k in after <==> k in before && !(before[k].requester in who && before[k].status == Pending))
    && (forall k :: k in after && before[k].requester !in who ==> after[k] == before[k])
    && (forall k :: k in after && before[k].requester in who ==>
         && after[k].requester == before[k].requester && after[k].status == before[k].status
         && after[k].duplicateOf == before[k].duplicateOf && after[k].rest == before[k].rest
         && after[k].context == None && after[k].updatedAt == now)
  }

  /** Events go with a pending request, a submission of a reviewed one loses its context, every other event stays. */
  ghost predicate EventsAfter(requests: map<Id, Request>, before: map<Id, AuditEvent>, after: map<Id, AuditEvent>,
                              who: set<Id>)
  {
    && (forall k :: k in after <==>
         && k in before
         && !(before[k].request in requests && requests[before[k].request].requester in who
              && requests[before[k].request].status == Pending))
    && (forall k :: k in after ==>
         && after[k].request == before[k].request && after[k].actor == before[k].actor
         && after[k].eventType == before[k].eventType && after[k].rest == before[k].rest
         && (after[k].payload ==
              if before[k].request in requests && requests[before[k].request].requester in who
                 && before[k].eventType == "submitted"
              then before[k].payload - {"context"} else before[k].payload))
  }

  // ---- marks, notes and sign-in ----

  /** Saves, ratings, preference events and follows, the last with these accounts at either end. */
  ghost predicate MarksAfter(db: Tables, e: Tables, who: set<Id>) {
    && (forall k :: k in e.saves <==> k in db.saves && k.0 !in who)
    && (forall k :: k in e.saves ==> e.saves[k] == db.saves[k])
    && (forall k :: k in e.ratings <==> k in db.ratings && k.0 !in who)
    && (forall k :: k in e.ratings ==> e.ratings[k] == db.ratings[k])
    && (forall k :: k in e.preferenceEvents <==> k in db.preferenceEvents && db.preferenceEvents[k].user !in who)
    && (forall k :: k in e.preferenceEvents ==> e.preferenceEvents[k] == db.preferenceEvents[k])
    && (forall k :: k in e.follows <==> k in db.follows && k.0 !in who && k.1 !in who)
    && (forall k :: k in e.follows ==> e.follows[k] == db.follows[k])
  }

  /** All reports and moderation events stay; those of these accounts lose their text and fingerprint. */
  ghost predicate NotesAfter(db: Tables, e: Tables, who: set<Id>) {
    && e.reports.Keys == db.reports.Keys && e.moderationEvents.Keys == db.moderationEvents.Keys
    && (forall k :: k in db.reports ==>
         && e.reports[k].reporter == db.reports[k].reporter && e.reports[k].rest == db.reports[k].rest
         && (db.reports[k].reporter !in who ==> e.reports[k] == db.reports[k])
         && (db.reports[k].reporter in who ==>
              e.reports[k].details == None && e.reports[k].fingerprint == DELETED_REPORT_FINGERPRINT))
    && (forall k :: k in db.moderationEvents ==>
         && e.moderationEvents[k].actor == db.moderationEvents[k].actor
         && e.moderationEvents[k].rest == db.moderationEvents[k].rest
         && (db.moderationEvents[k].actor !in who ==> e.moderationEvents[k] == db.moderationEvents[k])
         && (db.moderationEvents[k].actor in who ==>
              && e.moderationEvents[k].privateNote == None
              && e.moderationEvents[k].fingerprint == DELETED_MODERATION_FINGERPRINT))
  }

  ghost predicate GrantsAfter(db: Tables, e: Tables, who: set<Id>) {
    && (forall k :: k in e.moderators <==> k in db.moderators && k !in who)
    && (forall k :: k in e.moderators ==> e.moderators[k] == db.moderators[k])
    && (forall k :: k in e.curators <==> k in db.curators && k !in who)
    && (forall k :: k in e.curators ==> e.curators[k] == db.curators[k])
    && (forall k :: k in e.buckets <==>
         k in db.buckets && !(db.buckets[k].account.Some? && db.buckets[k].account.value in who))
    && (forall k :: k in e.buckets ==> e.buckets[k] == db.buckets[k])
    && (forall k :: k in e.identities <==> k in db.identities && db.identities[k].user !in who)
    && (forall k :: k in e.identities ==> e.identities[k] == db.identities[k])
  }

  /** Sessions of these accounts go, and what is bound to a session goes exactly with it. */
  ghost predicate SessionsAfter(db: Tables, e: Tables, who: set<Id>) {
    && (forall k :: k in e.sessions <==> k in db.sessions && db.sessions[k].user !in who)
    && (forall k :: k in e.sessions ==> e.sessions[k] == db.sessions[k])
    && (forall k :: k in e.loginTransactions <==>
         && k in db.loginTransactions
         && (db.loginTransactions[k].boundSession.Some? ==>
               db.loginTransactions[k].boundSession.value in db.sessions ==>
                 db.loginTransactions[k].boundSession.value in e.sessions))
    && (forall k :: k in e.loginTransactions ==> e.loginTransactions[k] == db.loginTransactions[k])
    && (forall k :: k in e.sandboxEntries <==>
         && k in db.sandboxEntries
         && (db.sandboxEntries[k].session in db.sessions ==> db.sandboxEntries[k].session in e.sessions))
    && (forall k :: k in e.sandboxEntries ==> e.sandboxEntries[k] == db.sandboxEntries[k])
  }

  lemma RecipesErased(rows: map<Id, Recipe>, who: set<Id>)
    ensures RecipesAfter(rows, Disowned(rows, who), who)
  {}

  lemma DraftsErased(drafts: map<Id, Draft>, who: Deletions)
    ensures DraftsAfter(drafts, ErasedDrafts(drafts, who), who)
  {}

  lemma DraftRowsErased(db: Tables, e: Tables, who: set<Id>)
    requires e.draftCategories == KeptCategories(db.drafts, db.draftCategories, who)
    requires e.draftIngredients == KeptIngredients(db.drafts, db.draftIngredients, who)
    requires e.draftInstructions == KeptInstructions(db.drafts, db.draftInstructions, who)
    ensures DraftRowsAfter(db, e, who)
  {}

  lemma ActionRowsErased(db: Tables, e: Tables, who: set<Id>)
    requires e.draftActions == KeptActions(db.drafts, db.draftActions, who)
    requires e.draftInputs == KeptInputs(db.drafts, db.draftInputs, who)
    requires e.draftMeasures == KeptMeasures(db.drafts, db.draftActions, db.draftMeasures, who)
    ensures ActionRowsAfter(db, e, who)
  {}

  lemma UnpublishedIsPrivate(db: Tables, p: Id, who: set<Id>)
    ensures Unpublished(db, p, who) <==> PrivatePreflight(db.preflights, db.publications, p, who)
  {}

  lemma EvidenceErased(db: Tables, e: Tables, who: set<Id>)
    requires e.preflights == KeptPreflights(db.preflights, db.publications, who)
    requires e.decisions == KeptDecisions(db.preflights, db.publications, db.decisions, who)
    requires e.candidates == KeptCandidates(db.preflights, db.publications, db.candidates, who)
    ensures EvidenceAfter(db, e, who)
  {
    forall p ensures Unpublished(db, p, who) <==> PrivatePreflight(db.preflights, db.publications, p, who) {
      UnpublishedIsPrivate(db, p, who);
    }
    hide Unpublished, PrivatePreflight;
  }

  lemma RequestsErased(requests: map<Id, Request>, who: set<Id>, now: Timestamp)
    ensures RequestsAfter(requests, ErasedRequests(requests, who, now), who, now)
  {}

  lemma EventsErased(requests: map<Id, Request>, rows: map<Id, AuditEvent>, who: set<Id>)
    ensures EventsAfter(requests, rows, ErasedAuditEvents(requests, rows, who), who)
  {}

  lemma MarksErased(db: Tables, e: Tables, who: set<Id>)
    requires e.saves == KeptMarks(db.saves, who) && e.ratings == KeptMarks(db.ratings, who)
    requires e.preferenceEvents == KeptOwned(db.preferenceEvents, who) && e.follows == KeptFollows(db.follows, who)
    ensures MarksAfter(db, e, who)
  {}

  lemma NotesErased(db: Tables, e: Tables, who: set<Id>)
    requires e.reports == ScrubbedReports(db.reports, who)
    requires e.moderationEvents == ScrubbedModeration(db.moderationEvents, who)
    ensures NotesAfter(db, e, who)
  {}

  lemma GrantsErased(db: Tables, e: Tables, who: set<Id>)
    requires e.moderators == KeptGrants(db.moderators, who) && e.curators == KeptGrants(db.curators, who)
    requires e.buckets == KeptBuckets(db.buckets, who) && e.identities == KeptOwned(db.identities, who)
    ensures GrantsAfter(db, e, who)
  {}

  lemma SessionsErased(db: Tables, e: Tables, who: set<Id>)
    requires e.sessions == KeptOwned(db.sessions, who)
    requires e.loginTransactions == KeptLogins(db.sessions, db.loginTransactions, who)
    requires e.sandboxEntries == KeptEntries(db.sessions, db.sandboxEntries, who)
    ensures SessionsAfter(db, e, who)
  {}

  /** Every table after the accounts are erased: exactly these rows, with these columns. */
  lemma RowsAfterErasure(db: Tables, who: Deletions, now: Timestamp)
    ensures var e, ids := Erased(db, who, now), who.Keys;
      && e.users == db.users && e.publications == db.publications
      && RecipesAfter(db.recipes, e.recipes, ids) && DraftsAfter(db.drafts, e.drafts, who)
      && DraftRowsAfter(db, e, ids) && ActionRowsAfter(db, e, ids) && EvidenceAfter(db, e, ids)
      && RequestsAfter(db.requests, e.requests, ids, now)
      && EventsAfter(db.requests, db.auditEvents, e.auditEvents, ids)
      && MarksAfter(db, e, ids) && NotesAfter(db, e, ids) && GrantsAfter(db, e, ids) && SessionsAfter(db, e, ids)
  {
    hide *;
    ErasedTables(db, who, now);
    var e := Erased(db, who, now);
    RecipesErased(db.recipes, who.Keys);
    DraftsErased(db.drafts, who);
    DraftRowsErased(db, e, who.Keys);
    ActionRowsErased(db, e, who.Keys);
    EvidenceErased(db, e, who.Keys);
    RequestsErased(db.requests, who.Keys, now);
    EventsErased(db.requests, db.auditEvents, who.Keys);
    MarksErased(db, e, who.Keys);
    NotesErased(db, e, who.Keys);
    GrantsErased(db, e, who.Keys);
    SessionsErased(db, e, who.Keys);
  }
}
