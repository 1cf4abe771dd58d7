/**
 * What deleting a set of accounts leaves in every table, stated at once from the tables before: the
 * reference that the ordered purge program is proved against.
 */
module AccountErasure {
  import opened Outcomes

  import opened Timestamps
  import opened AccountTables

  // ---- one function per table ----

  function Disowned(recipes: map<Id, Recipe>, who: set<Id>): map<Id, Recipe> {
    map k | k in recipes ::
      if recipes[k].owner.Some? && recipes[k].owner.value in who then recipes[k].(owner := None) else recipes[k]
  }

  function KeptCategories(drafts: map<Id, Draft>, rows: map<(Id, Id), string>, who: set<Id>): map<(Id, Id), string> {
    map k | k in rows && !DraftOf(drafts, k.0, who) :: rows[k]
  }

  function KeptMeasures(drafts: map<Id, Draft>, actions: map<Id, DraftAction>,
                        rows: map<(Id, string), string>, who: set<Id>): map<(Id, string), string>
  {
    map k | k in rows && !ActionOf(drafts, actions, k.0, who) :: rows[k]
  }

  function KeptInputs(drafts: map<Id, Draft>, rows: map<Id, DraftInput>, who: set<Id>): map<Id, DraftInput> {
    map k | k in rows && !DraftOf(drafts, rows[k].draft, who) :: rows[k]
  }

  function KeptActions(drafts: map<Id, Draft>, rows: map<Id, DraftAction>, who: set<Id>): map<Id, DraftAction> {
    map k | k in rows && !DraftOf(drafts, rows[k].draft, who) :: rows[k]
  }

  function KeptInstructions(drafts: map<Id, Draft>, rows: map<Id, DraftInstruction>, who: set<Id>)
    : map<Id, DraftInstruction>
  {
    map k | k in rows && !DraftOf(drafts, rows[k].draft, who) :: rows[k]
  }

  function KeptIngredients(drafts: map<Id, Draft>, rows: map<Id, DraftIngredient>, who: set<Id>)
    : map<Id, DraftIngredient>
  {
    map k | k in rows && !DraftOf(drafts, rows[k].draft, who) :: rows[k]
  }

  /** A published draft keeps its identity and loses its private text. */
  function Blank(d: Draft, at: Timestamp): Draft {
    d.(title := "", description := None, servings := None, totalTimeMinutes := None,
       activeTimeMinutes := None, difficulty := None, notes := None, updatedAt := at)
  }

  /** What becomes of one draft: unpublished ones of these authors go, published ones are blanked. */
  function DraftFate(d: Draft, who: Deletions): Option<Draft> {
    if d.author !in who then Some(d)
    else if d.status == PublishedDraft then Some(Blank(d, who[d.author]))
    else None
  }

  function ErasedDrafts(drafts: map<Id, Draft>, who: Deletions): map<Id, Draft> {
    map k | k in drafts && DraftFate(drafts[k], who).Some? :: DraftFate(drafts[k], who).value
  }

  function KeptDecisions(preflights: map<Id, Preflight>, publications: map<Id, Publication>,
                         rows: map<Id, Decision>, who: set<Id>): map<Id, Decision>
  {
    map k | k in rows && !PrivatePreflight(preflights, publications, rows[k].preflight, who) :: rows[k]
  }

  function KeptCandidates(preflights: map<Id, Preflight>, publications: map<Id, Publication>,
                          rows: map<(Id, Id), string>, who: set<Id>): map<(Id, Id), string>
  {
    map k | k in rows && !PrivatePreflight(preflights, publications, k.0, who) :: rows[k]
  }

  function KeptPreflights(preflights: map<Id, Preflight>, publications: map<Id, Publication>, who: set<Id>)
    : map<Id, Preflight>
  {
    map k | k in preflights && !PrivatePreflight(preflights, publications, k, who) :: preflights[k]
  }

  /** What becomes of one audit event: gone with a pending request, without the context of a reviewed one. */
  function EventFate(requests: map<Id, Request>, e: AuditEvent, who: set<Id>): Option<AuditEvent> {
    if PendingOf(requests, e.request, who) then None
    else if TerminalOf(requests, e.request, who) && e.eventType == SUBMITTED
    then Some(e.(payload := e.payload - {CONTEXT}))
    else Some(e)
  }

  function ErasedAuditEvents(requests: map<Id, Request>, rows: map<Id, AuditEvent>, who: set<Id>)
    : map<Id, AuditEvent>
  {
    map k | k in rows && EventFate(requests, rows[k], who).Some? :: EventFate(requests, rows[k], who).value
  }

  /** Updating a request also refreshes `updated_at`, which the statement does not set itself. */
  function ErasedRequests(requests: map<Id, Request>, who: set<Id>, now: Timestamp): map<Id, Request> {
    map k | k in requests && !PendingOf(requests, k, who) ::
      if TerminalOf(requests, k, who) then requests[k].(context := None, updatedAt := now) else requests[k]
  }

  function KeptMarks(marks: map<(Id, Id), string>, who: set<Id>): map<(Id, Id), string> {
    map k | k in marks && k.0 !in who :: marks[k]
  }

  function KeptFollows(follows: map<(Id, Id), string>, who: set<Id>): map<(Id, Id), string> {
    map k | k in follows && k.0 !in who && k.1 !in who :: follows[k]
  }

  function KeptOwned(rows: map<Id, Owned>, who: set<Id>): map<Id, Owned> {
    map k | k in rows && rows[k].user !in who :: rows[k]
  }

  function ScrubbedReports(reports: map<Id, Report>, who: set<Id>): map<Id, Report> {
    map k | k in reports ::
      if reports[k].reporter in who
      then reports[k].(details := None, fingerprint := DELETED_REPORT_FINGERPRINT)
      else reports[k]
  }

  function ScrubbedModeration(events: map<nat, ModerationEvent>, who: set<Id>): map<nat, ModerationEvent> {
    map k | k in events ::
      if events[k].actor in who
      then events[k].(privateNote := None, fingerprint := DELETED_MODERATION_FINGERPRINT)
      else events[k]
  }

  function KeptBuckets(buckets: map<string, Bucket>, who: set<Id>): map<string, Bucket> {
    map k | k in buckets && !(buckets[k].account.Some? && buckets[k].account.value in who) :: buckets[k]
  }

  function KeptGrants(grants: map<Id, string>, who: set<Id>): map<Id, string> {
    map k | k in grants && k !in who :: grants[k]
  }

  /** Deleting a session cascades to the rows bound to it. */
  function KeptLogins(sessions: map<Id, Owned>, rows: map<Id, LoginTransaction>, who: set<Id>)
    : map<Id, LoginTransaction>
  {
    map k | k in rows && !(rows[k].boundSession.Some? && SessionOf(sessions, rows[k].boundSession.value, who)) ::
      rows[k]
  }

  function KeptEntries(sessions: map<Id, Owned>, rows: map<string, SandboxEntry>, who: set<Id>)
    : map<string, SandboxEntry>
  {
    map k | k in rows && !SessionOf(sessions, rows[k].session, who) :: rows[k]
  }

  // ---- the four groups; no group reads a table that another one writes ----

  function WithoutDrafts(db: Tables, who: Deletions): Tables {
    db.(recipes := Disowned(db.recipes, who.Keys),
        draftCategories := KeptCategories(db.drafts, db.draftCategories, who.Keys),
        draftMeasures := KeptMeasures(db.drafts, db.draftActions, db.draftMeasures, who.Keys),
        draftInputs := KeptInputs(db.drafts, db.draftInputs, who.Keys),
        draftActions := KeptActions(db.drafts, db.draftActions, who.Keys),
        draftInstructions := KeptInstructions(db.drafts, db.draftInstructions, who.Keys),
        draftIngredients := KeptIngredients(db.drafts, db.draftIngredients, who.Keys),
        drafts := ErasedDrafts(db.drafts, who))
  }

  function WithoutEvidence(db: Tables, who: set<Id>): Tables {
    db.(decisions := KeptDecisions(db.preflights, db.publications, db.decisions, who),
        candidates := KeptCandidates(db.preflights, db.publications, db.candidates, who),
        preflights := KeptPreflights(db.preflights, db.publications, who))
  }

  function WithoutRequests(db: Tables, who: set<Id>, now: Timestamp): Tables {
    db.(auditEvents := ErasedAuditEvents(db.requests, db.auditEvents, who),
        requests := ErasedRequests(db.requests, who, now))
  }

  function WithoutAccess(db: Tables, who: set<Id>): Tables {
    db.(saves := KeptMarks(db.saves, who), ratings := KeptMarks(db.ratings, who),
        preferenceEvents := KeptOwned(db.preferenceEvents, who), follows := KeptFollows(db.follows, who),
        reports := ScrubbedReports(db.reports, who), moderationEvents := ScrubbedModeration(db.moderationEvents, who),
        buckets := KeptBuckets(db.buckets, who), moderators := KeptGrants(db.moderators, who),
        curators := KeptGrants(db.curators, who), identities := KeptOwned(db.identities, who),
        sessions := KeptOwned(db.sessions, who),
        loginTransactions := KeptLogins(db.sessions, db.loginTransactions, who),
        sandboxEntries := KeptEntries(db.sessions, db.sandboxEntries, who))
  }

  function Erased(db: Tables, who: Deletions, now: Timestamp): Tables {
    WithoutAccess(WithoutRequests(WithoutEvidence(WithoutDrafts(db, who), who.Keys), who.Keys, now), who.Keys)
  }

  // ---- erasing in two rounds is erasing once ----

  /** Two rounds give an account the same deletion time. */
  predicate Agree(a: Deletions, b: Deletions) {
    forall u :: u in a && u in b ==> a[u] == b[u]
  }

  lemma RecipesTwice(rows: map<Id, Recipe>, a: set<Id>, b: set<Id>)
    ensures Disowned(Disowned(rows, a), b) == Disowned(rows, a + b)
  {
  }

  lemma DraftFateTwice(d: Draft, a: Deletions, b: Deletions)
    requires Agree(a, b)
    ensures DraftFate(d, a).None? ==> DraftFate(d, a + b).None?
    ensures DraftFate(d, a).Some? ==> DraftFate(DraftFate(d, a).value, b) == DraftFate(d, a + b)
  {
  }

  lemma DraftsTwice(drafts: map<Id, Draft>, a: Deletions, b: Deletions)
    requires Agree(a, b)
    ensures ErasedDrafts(ErasedDrafts(drafts, a), b) == ErasedDrafts(drafts, a + b)
  {
    forall k | k in drafts
      ensures DraftFate(drafts[k], a).None? ==> DraftFate(drafts[k], a + b).None?
      ensures DraftFate(drafts[k], a).Some? ==>
              DraftFate(DraftFate(drafts[k], a).value, b) == DraftFate(drafts[k], a + b)
    {
      DraftFateTwice(drafts[k], a, b);
    }
    hide DraftFate;
  }

  function RemainingDrafts(db: Tables, a: Deletions): map<Id, Draft> {
    ErasedDrafts(db.drafts, a)
  }

  /** After a round, a surviving draft belongs to whom it belonged before. */
  lemma DraftsKeepAuthors(db: Tables, a: Deletions, b: set<Id>)
    ensures forall d :: DraftOf(db.drafts, d, a.Keys + b)
              <==> DraftOf(db.drafts, d, a.Keys) || DraftOf(RemainingDrafts(db, a), d, b)
  {
  }

  lemma CategoriesTwice(db: Tables, a: Deletions, b: set<Id>)
    ensures KeptCategories(RemainingDrafts(db, a), KeptCategories(db.drafts, db.draftCategories, a.Keys), b)
              == KeptCategories(db.drafts, db.draftCategories, a.Keys + b)
  {
    DraftsKeepAuthors(db, a, b);
    hide RemainingDrafts;
  }

  lemma InstructionsTwice(db: Tables, a: Deletions, b: set<Id>)
    ensures KeptInstructions(RemainingDrafts(db, a), KeptInstructions(db.drafts, db.draftInstructions, a.Keys), b)
              == KeptInstructions(db.drafts, db.draftInstructions, a.Keys + b)
  {
    DraftsKeepAuthors(db, a, b);
    hide RemainingDrafts;
  }

  lemma IngredientsTwice(db: Tables, a: Deletions, b: set<Id>)
    ensures KeptIngredients(RemainingDrafts(db, a), KeptIngredients(db.drafts, db.draftIngredients, a.Keys), b)
              == KeptIngredients(db.drafts, db.draftIngredients, a.Keys + b)
  {
    DraftsKeepAuthors(db, a, b);
    hide RemainingDrafts;
  }

  lemma InputsTwice(db: Tables, a: Deletions, b: set<Id>)
    ensures KeptInputs(RemainingDrafts(db, a), KeptInputs(db.drafts, db.draftInputs, a.Keys), b)
              == KeptInputs(db.drafts, db.draftInputs, a.Keys + b)
  {
    DraftsKeepAuthors(db, a, b);
    hide RemainingDrafts;
  }

  lemma ActionsTwice(db: Tables, a: Deletions, b: set<Id>)
    ensures KeptActions(RemainingDrafts(db, a), KeptActions(db.drafts, db.draftActions, a.Keys), b)
              == KeptActions(db.drafts, db.draftActions, a.Keys + b)
  {
    DraftsKeepAuthors(db, a, b);
    hide RemainingDrafts;
  }

  lemma ActionsKeepAuthors(db: Tables, a: Deletions, b: set<Id>)
    ensures forall x :: ActionOf(db.drafts, db.draftActions, x, a.Keys + b)
              <==> ActionOf(db.drafts, db.draftActions, x, a.Keys)
                   || ActionOf(RemainingDrafts(db, a), KeptActions(db.drafts, db.draftActions, a.Keys), x, b)
  {
    DraftsKeepAuthors(db, a, b);
    hide RemainingDrafts, DraftOf;
  }

  lemma MeasuresTwice(db: Tables, a: Deletions, b: set<Id>)
    ensures KeptMeasures(RemainingDrafts(db, a), KeptActions(db.drafts, db.draftActions, a.Keys),
                         KeptMeasures(db.drafts, db.draftActions, db.draftMeasures, a.Keys), b)
         == KeptMeasures(db.drafts, db.draftActions, db.draftMeasures, a.Keys + b)
  {
    ActionsKeepAuthors(db, a, b);
    hide RemainingDrafts, KeptActions, ActionOf;
  }

  lemma DraftRoundsCompose(db: Tables, a: Deletions, b: Deletions)
    requires Agree(a, b)
    ensures WithoutDrafts(WithoutDrafts(db, a), b) == WithoutDrafts(db, a + b)
  {
    hide Disowned, KeptCategories, KeptMeasures, KeptInputs, KeptActions, KeptInstructions, KeptIngredients,
         ErasedDrafts;
    assert (a + b).Keys == a.Keys + b.Keys;
    RecipesTwice(db.recipes, a.Keys, b.Keys);
    DraftsTwice(db.drafts, a, b);
    CategoriesTwice(db, a, b.Keys);
    InstructionsTwice(db, a, b.Keys);
    IngredientsTwice(db, a, b.Keys);
    InputsTwice(db, a, b.Keys);
    ActionsTwice(db, a, b.Keys);
    MeasuresTwice(db, a, b.Keys);
  }

  lemma EvidenceTwice(preflights: map<Id, Preflight>, publications: map<Id, Publication>, a: set<Id>, b: set<Id>)
    ensures forall p :: PrivatePreflight(KeptPreflights(preflights, publications, a), publications, p, b)
              <==> PrivatePreflight(preflights, publications, p, b) && !PrivatePreflight(preflights, publications, p, a)
    ensures forall p :: PrivatePreflight(preflights, publications, p, a + b)
              <==> PrivatePreflight(preflights, publications, p, a) || PrivatePreflight(preflights, publications, p, b)
  {
    hide Cited;
  }

  lemma EvidenceRowsTwice(db: Tables, a: set<Id>, b: set<Id>)
    ensures var after := KeptPreflights(db.preflights, db.publications, a);
      && KeptPreflights(after, db.publications, b) == KeptPreflights(db.preflights, db.publications, a + b)
      && KeptDecisions(after, db.publications, KeptDecisions(db.preflights, db.publications, db.decisions, a), b)
         == KeptDecisions(db.preflights, db.publications, db.decisions, a + b)
      && KeptCandidates(after, db.publications, KeptCandidates(db.preflights, db.publications, db.candidates, a), b)
         == KeptCandidates(db.preflights, db.publications, db.candidates, a + b)
  {
    EvidenceTwice(db.preflights, db.publications, a, b);
    hide PrivatePreflight;
  }

  lemma EvidenceRoundsCompose(db: Tables, a: set<Id>, b: set<Id>)
    ensures WithoutEvidence(WithoutEvidence(db, a), b) == WithoutEvidence(db, a + b)
  {
    hide KeptDecisions, KeptCandidates, KeptPreflights;
    EvidenceRowsTwice(db, a, b);
  }

  lemma RequestsTwice(requests: map<Id, Request>, a: set<Id>, b: set<Id>, now: Timestamp)
    ensures ErasedRequests(ErasedRequests(requests, a, now), b, now) == ErasedRequests(requests, a + b, now)
  {
  }

  lemma OwnersTwice(requests: map<Id, Request>, r: Id, a: set<Id>, b: set<Id>, now: Timestamp)
    ensures PendingOf(requests, r, a + b)
       <==> PendingOf(requests, r, a) || PendingOf(ErasedRequests(requests, a, now), r, b)
    ensures TerminalOf(requests, r, a + b)
       <==> TerminalOf(requests, r, a) || TerminalOf(ErasedRequests(requests, a, now), r, b)
  {
  }

  lemma EventFateTwice(requests: map<Id, Request>, e: AuditEvent, a: set<Id>, b: set<Id>, now: Timestamp)
    ensures EventFate(requests, e, a).None? ==> EventFate(requests, e, a + b).None?
    ensures EventFate(requests, e, a).Some? ==>
              EventFate(ErasedRequests(requests, a, now), EventFate(requests, e, a).value, b)
                  == EventFate(requests, e, a + b)
  {
    hide ErasedRequests, PendingOf, TerminalOf;
    OwnersTwice(requests, e.request, a, b, now);
    assert e.payload - {CONTEXT} - {CONTEXT} == e.payload - {CONTEXT};
  }

  lemma AuditEventsTwice(requests: map<Id, Request>, rows: map<Id, AuditEvent>, a: set<Id>, b: set<Id>, now: Timestamp)
    ensures ErasedAuditEvents(ErasedRequests(requests, a, now), ErasedAuditEvents(requests, rows, a), b)
         == ErasedAuditEvents(requests, rows, a + b)
  {
    forall k | k in rows
      ensures EventFate(requests, rows[k], a).None? ==> EventFate(requests, rows[k], a + b).None?
      ensures EventFate(requests, rows[k], a).Some? ==>
                EventFate(ErasedRequests(requests, a, now), EventFate(requests, rows[k], a).value, b)
                == EventFate(requests, rows[k], a + b)
    {
      EventFateTwice(requests, rows[k], a, b, now);
    }
    hide ErasedRequests, EventFate;
  }

  lemma RequestRoundsCompose(db: Tables, a: set<Id>, b: set<Id>, now: Timestamp)
    ensures WithoutRequests(WithoutRequests(db, a, now), b, now) == WithoutRequests(db, a + b, now)
  {
    hide ErasedRequests, ErasedAuditEvents;
    RequestsTwice(db.requests, a, b, now);
    AuditEventsTwice(db.requests, db.auditEvents, a, b, now);
  }

  lemma AccessRowsTwice(db: Tables, a: set<Id>, b: set<Id>)
    ensures KeptMarks(KeptMarks(db.saves, a), b) == KeptMarks(db.saves, a + b)
    ensures KeptMarks(KeptMarks(db.ratings, a), b) == KeptMarks(db.ratings, a + b)
    ensures KeptOwned(KeptOwned(db.preferenceEvents, a), b) == KeptOwned(db.preferenceEvents, a + b)
    ensures KeptFollows(KeptFollows(db.follows, a), b) == KeptFollows(db.follows, a + b)
    ensures ScrubbedReports(ScrubbedReports(db.reports, a), b) == ScrubbedReports(db.reports, a + b)
    ensures ScrubbedModeration(ScrubbedModeration(db.moderationEvents, a), b)
              == ScrubbedModeration(db.moderationEvents, a + b)
  {
  }

  lemma GrantRowsTwice(db: Tables, a: set<Id>, b: set<Id>)
    ensures KeptBuckets(KeptBuckets(db.buckets, a), b) == KeptBuckets(db.buckets, a + b)
    ensures KeptGrants(KeptGrants(db.moderators, a), b) == KeptGrants(db.moderators, a + b)
    ensures KeptGrants(KeptGrants(db.curators, a), b) == KeptGrants(db.curators, a + b)
    ensures KeptOwned(KeptOwned(db.identities, a), b) == KeptOwned(db.identities, a + b)
    ensures KeptOwned(KeptOwned(db.sessions, a), b) == KeptOwned(db.sessions, a + b)
  {
  }

  lemma SessionRowsTwice(sessions: map<Id, Owned>, logins: map<Id, LoginTransaction>,
                         entries: map<string, SandboxEntry>, a: set<Id>, b: set<Id>)
    ensures KeptLogins(KeptOwned(sessions, a), KeptLogins(sessions, logins, a), b)
              == KeptLogins(sessions, logins, a + b)
    ensures KeptEntries(KeptOwned(sessions, a), KeptEntries(sessions, entries, a), b)
              == KeptEntries(sessions, entries, a + b)
  {
    forall s ensures SessionOf(sessions, s, a + b) <==>
        SessionOf(sessions, s, a) || SessionOf(KeptOwned(sessions, a), s, b) {
    }
    hide SessionOf, KeptOwned;
  }

  lemma AccessRoundsCompose(db: Tables, a: set<Id>, b: set<Id>)
    ensures WithoutAccess(WithoutAccess(db, a), b) == WithoutAccess(db, a + b)
  {
    hide KeptMarks, KeptOwned, KeptFollows, ScrubbedReports, ScrubbedModeration, KeptBuckets, KeptGrants, KeptLogins,
         KeptEntries;
    AccessRowsTwice(db, a, b);
    GrantRowsTwice(db, a, b);
    SessionRowsTwice(db.sessions, db.loginTransactions, db.sandboxEntries, a, b);
  }

  /** The groups touch different tables, so a second round can be pulled through the first group by group. */
  lemma GroupsAreIndependent(db: Tables, a: Deletions, b: Deletions, now: Timestamp)
    ensures Erased(Erased(db, a, now), b, now)
         == WithoutAccess(WithoutAccess(
              WithoutRequests(WithoutRequests(
                WithoutEvidence(WithoutEvidence(
                  WithoutDrafts(WithoutDrafts(db, a), b), a.Keys), b.Keys), a.Keys, now), b.Keys, now), a.Keys), b.Keys)
  {
    hide Disowned, KeptCategories, KeptMeasures, KeptInputs, KeptActions, KeptInstructions, KeptIngredients,
         ErasedDrafts, KeptDecisions, KeptCandidates, KeptPreflights, ErasedRequests, ErasedAuditEvents, KeptMarks,
         KeptOwned, KeptFollows, ScrubbedReports, ScrubbedModeration, KeptBuckets, KeptGrants, KeptLogins,
         KeptEntries;
  }

  /** Erasing some accounts and then others leaves what erasing all of them together leaves. */
  lemma ErasedRoundsCompose(db: Tables, a: Deletions, b: Deletions, now: Timestamp)
    requires Agree(a, b)
    ensures Erased(Erased(db, a, now), b, now) == Erased(db, a + b, now)
  {
    hide WithoutDrafts, WithoutEvidence, WithoutRequests, WithoutAccess;
    GroupsAreIndependent(db, a, b, now);
    assert (a + b).Keys == a.Keys + b.Keys;
    DraftRoundsCompose(db, a, b);
    var d := WithoutDrafts(db, a + b);
    EvidenceRoundsCompose(d, a.Keys, b.Keys);
    var e := WithoutEvidence(d, a.Keys + b.Keys);
    RequestRoundsCompose(e, a.Keys, b.Keys, now);
    AccessRoundsCompose(WithoutRequests(e, a.Keys + b.Keys, now), a.Keys, b.Keys);
  }

  /** Erasing different accounts commutes. */
  lemma ErasureCommutes(db: Tables, a: Deletions, b: Deletions, now: Timestamp)
    requires a.Keys !! b.Keys
    ensures Erased(Erased(db, a, now), b, now) == Erased(Erased(db, b, now), a, now)
  {
    hide Erased;
    ErasedRoundsCompose(db, a, b, now);
    ErasedRoundsCompose(db, b, a, now);
    assert a + b == b + a;
  }
}
