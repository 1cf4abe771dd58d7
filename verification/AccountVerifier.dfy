/** What the recovery code checks about members it believes deleted, and that erasure always satisfies it. */
module AccountVerifier {
  import opened Outcomes
  import opened Timestamps
  import opened AccountTables
  import opened AccountErasure

  // ---- the verifier's criteria: rows that must not remain for any of these accounts ----

  predicate OwnsRecipes(rows: map<Id, Recipe>, who: set<Id>) {
    exists k :: k in rows && rows[k].owner.Some? && rows[k].owner.value in who
  }

  predicate HasUnpublished(drafts: map<Id, Draft>, who: set<Id>) {
    exists k :: k in drafts && drafts[k].author in who && drafts[k].status in {ActiveDraft, DiscardedDraft}
  }

  predicate HasText(d: Draft) {
    || d.title != "" || d.description.Some? || d.servings.Some? || d.totalTimeMinutes.Some?
    || d.activeTimeMinutes.Some? || d.difficulty.Some? || d.notes.Some?
  }

  predicate HasPublishedText(drafts: map<Id, Draft>, who: set<Id>) {
    exists k :: k in drafts && drafts[k].author in who && drafts[k].status == PublishedDraft && HasText(drafts[k])
  }

  predicate HasCategories(drafts: map<Id, Draft>, rows: map<(Id, Id), string>, who: set<Id>) {
    exists k :: k in rows && DraftOf(drafts, k.0, who)
  }

  predicate HasIngredients(drafts: map<Id, Draft>, rows: map<Id, DraftIngredient>, who: set<Id>) {
    exists k :: k in rows && DraftOf(drafts, rows[k].draft, who)
  }

  predicate HasInstructions(drafts: map<Id, Draft>, rows: map<Id, DraftInstruction>, who: set<Id>) {
    exists k :: k in rows && DraftOf(drafts, rows[k].draft, who)
  }

  predicate HasPrivateEvidence(preflights: map<Id, Preflight>, publications: map<Id, Publication>, who: set<Id>) {
    exists k :: k in preflights && PrivatePreflight(preflights, publications, k, who)
  }

  predicate HasPending(requests: map<Id, Request>, who: set<Id>) {
    exists k :: k in requests && PendingOf(requests, k, who)
  }

  predicate HasContext(requests: map<Id, Request>, who: set<Id>) {
    exists k :: k in requests && TerminalOf(requests, k, who) && requests[k].context.Some?
  }

  predicate HasSubmittedContext(requests: map<Id, Request>, rows: map<Id, AuditEvent>, who: set<Id>) {
    exists k :: k in rows && TerminalOf(requests, rows[k].request, who)
                && rows[k].eventType == SUBMITTED && CONTEXT in rows[k].payload
  }

  predicate HasOwned(rows: map<Id, Owned>, who: set<Id>) {
    exists k :: k in rows && rows[k].user in who
  }

  predicate HasMarks(rows: map<(Id, Id), string>, who: set<Id>) {
    exists k :: k in rows && k.0 in who
  }

  predicate HasGrants(rows: map<Id, string>, who: set<Id>) {
    exists k :: k in rows && k in who
  }

  predicate HasBuckets(rows: map<string, Bucket>, who: set<Id>) {
    exists k :: k in rows && rows[k].account.Some? && rows[k].account.value in who
  }

  predicate HasReports(rows: map<Id, Report>, who: set<Id>) {
    exists k :: k in rows && rows[k].reporter in who
                && (rows[k].details.Some? || rows[k].fingerprint != DELETED_REPORT_FINGERPRINT)
  }

  predicate HasModeration(rows: map<nat, ModerationEvent>, who: set<Id>) {
    exists k :: k in rows && rows[k].actor in who
                && (rows[k].privateNote.Some? || rows[k].fingerprint != DELETED_MODERATION_FINGERPRINT)
  }

  predicate DraftResidue(db: Tables, who: set<Id>) {
    || HasUnpublished(db.drafts, who) || HasPublishedText(db.drafts, who)
    || HasCategories(db.drafts, db.draftCategories, who)
    || HasIngredients(db.drafts, db.draftIngredients, who)
    || HasInstructions(db.drafts, db.draftInstructions, who)
  }

  predicate EvidenceResidue(db: Tables, who: set<Id>) {
    || HasPrivateEvidence(db.preflights, db.publications, who)
    || HasPending(db.requests, who) || HasContext(db.requests, who)
    || HasSubmittedContext(db.requests, db.auditEvents, who)
  }

  predicate AccessResidue(db: Tables, who: set<Id>) {
    || OwnsRecipes(db.recipes, who) || HasOwned(db.identities, who) || HasOwned(db.sessions, who)
    || HasMarks(db.saves, who) || HasMarks(db.ratings, who) || HasOwned(db.preferenceEvents, who)
  }

  predicate GrantResidue(db: Tables, who: set<Id>) {
    || HasGrants(db.curators, who) || HasGrants(db.moderators, who) || HasBuckets(db.buckets, who)
    || HasReports(db.reports, who) || HasModeration(db.moderationEvents, who)
  }

  predicate HasResidue(db: Tables, who: set<Id>) {
    DraftResidue(db, who) || EvidenceResidue(db, who) || AccessResidue(db, who) || GrantResidue(db, who)
  }

  /** The user row must be a complete tombstone carrying exactly the recorded time. */
  predicate TombstoneAt(db: Tables, user: Id, at: Timestamp) {
    && user in db.users
    && IsTombstone(db.users[user])
    && db.users[user].profileDescription.None?
    && db.users[user].deletedAt == Some(at)
  }

  function UserIds(members: seq<(Id, Timestamp)>): set<Id> {
    set i | 0 <= i < |members| :: members[i].0
  }

  /** `_verify_deleted_members`: one batch, one scan per table. */
  predicate Verified(db: Tables, members: seq<(Id, Timestamp)>) {
    || members == []
    || (&& (forall i, j :: 0 <= i < j < |members| ==> members[i].0 != members[j].0)
        && (forall i :: 0 <= i < |members| ==> TombstoneAt(db, members[i].0, members[i].1))
        && !HasResidue(db, UserIds(members)))
  }

  // ---- one lemma per criterion: it splits over sets of accounts, and erasure meets it and keeps it met ----

  lemma RecipesLeft(rows: map<Id, Recipe>, a: set<Id>, b: set<Id>)
    ensures OwnsRecipes(rows, a + b) <==> OwnsRecipes(rows, a) || OwnsRecipes(rows, b)
    ensures !OwnsRecipes(Disowned(rows, a), a)
    ensures OwnsRecipes(Disowned(rows, a), b) ==> OwnsRecipes(rows, b)
  {
  }

  lemma OwnersAfterErasure(drafts: map<Id, Draft>, a: Deletions, b: set<Id>)
    ensures forall d :: DraftOf(ErasedDrafts(drafts, a), d, b) ==> DraftOf(drafts, d, b)
    ensures forall d :: DraftOf(drafts, d, a.Keys + b) <==> DraftOf(drafts, d, a.Keys) || DraftOf(drafts, d, b)
  {
  }

  lemma CategoriesLeft(drafts: map<Id, Draft>, rows: map<(Id, Id), string>, a: Deletions, b: set<Id>)
    ensures HasCategories(drafts, rows, a.Keys + b) <==>
            HasCategories(drafts, rows, a.Keys) || HasCategories(drafts, rows, b)
    ensures !HasCategories(ErasedDrafts(drafts, a), KeptCategories(drafts, rows, a.Keys), a.Keys)
    ensures HasCategories(ErasedDrafts(drafts, a), KeptCategories(drafts, rows, a.Keys), b) ==>
            HasCategories(drafts, rows, b)
  {
    OwnersAfterErasure(drafts, a, a.Keys);
    OwnersAfterErasure(drafts, a, b);
    hide ErasedDrafts;
  }

  lemma IngredientsLeft(drafts: map<Id, Draft>, rows: map<Id, DraftIngredient>, a: Deletions, b: set<Id>)
    ensures HasIngredients(drafts, rows, a.Keys + b) <==>
            HasIngredients(drafts, rows, a.Keys) || HasIngredients(drafts, rows, b)
    ensures !HasIngredients(ErasedDrafts(drafts, a), KeptIngredients(drafts, rows, a.Keys), a.Keys)
    ensures HasIngredients(ErasedDrafts(drafts, a), KeptIngredients(drafts, rows, a.Keys), b) ==>
            HasIngredients(drafts, rows, b)
  {
    OwnersAfterErasure(drafts, a, a.Keys);
    OwnersAfterErasure(drafts, a, b);
    hide ErasedDrafts;
  }

  lemma InstructionsLeft(drafts: map<Id, Draft>, rows: map<Id, DraftInstruction>, a: Deletions, b: set<Id>)
    ensures HasInstructions(drafts, rows, a.Keys + b) <==>
            HasInstructions(drafts, rows, a.Keys) || HasInstructions(drafts, rows, b)
    ensures !HasInstructions(ErasedDrafts(drafts, a), KeptInstructions(drafts, rows, a.Keys), a.Keys)
    ensures HasInstructions(ErasedDrafts(drafts, a), KeptInstructions(drafts, rows, a.Keys), b) ==>
            HasInstructions(drafts, rows, b)
  {
    OwnersAfterErasure(drafts, a, a.Keys);
    OwnersAfterErasure(drafts, a, b);
    hide ErasedDrafts;
  }

  lemma UnpublishedLeft(drafts: map<Id, Draft>, a: Deletions, b: set<Id>)
    ensures HasUnpublished(drafts, a.Keys + b) <==> HasUnpublished(drafts, a.Keys) || HasUnpublished(drafts, b)
    ensures !HasUnpublished(ErasedDrafts(drafts, a), a.Keys)
    ensures HasUnpublished(ErasedDrafts(drafts, a), b) ==> HasUnpublished(drafts, b)
  {
  }

  lemma PublishedTextLeft(drafts: map<Id, Draft>, a: Deletions, b: set<Id>)
    ensures HasPublishedText(drafts, a.Keys + b) <==> HasPublishedText(drafts, a.Keys) || HasPublishedText(drafts, b)
    ensures !HasPublishedText(ErasedDrafts(drafts, a), a.Keys)
    ensures HasPublishedText(ErasedDrafts(drafts, a), b) ==> HasPublishedText(drafts, b)
  {
  }

  lemma EvidenceLeft(preflights: map<Id, Preflight>, publications: map<Id, Publication>, a: set<Id>, b: set<Id>)
    ensures HasPrivateEvidence(preflights, publications, a + b) <==>
            HasPrivateEvidence(preflights, publications, a) || HasPrivateEvidence(preflights, publications, b)
    ensures !HasPrivateEvidence(KeptPreflights(preflights, publications, a), publications, a)
    ensures HasPrivateEvidence(KeptPreflights(preflights, publications, a), publications, b) ==>
            HasPrivateEvidence(preflights, publications, b)
  {
    hide Cited;
  }

  lemma PendingLeft(requests: map<Id, Request>, now: Timestamp, a: set<Id>, b: set<Id>)
    ensures HasPending(requests, a + b) <==> HasPending(requests, a) || HasPending(requests, b)
    ensures !HasPending(ErasedRequests(requests, a, now), a)
    ensures HasPending(ErasedRequests(requests, a, now), b) ==> HasPending(requests, b)
  {
  }

  lemma ContextLeft(requests: map<Id, Request>, now: Timestamp, a: set<Id>, b: set<Id>)
    ensures HasContext(requests, a + b) <==> HasContext(requests, a) || HasContext(requests, b)
    ensures !HasContext(ErasedRequests(requests, a, now), a)
    ensures HasContext(ErasedRequests(requests, a, now), b) ==> HasContext(requests, b)
  {
  }

  lemma RequestOwnersAfterErasure(requests: map<Id, Request>, a: set<Id>, now: Timestamp)
    ensures forall r, w :: TerminalOf(ErasedRequests(requests, a, now), r, w) ==> TerminalOf(requests, r, w)
    ensures forall r, w :: TerminalOf(requests, r, a + w) <==> TerminalOf(requests, r, a) || TerminalOf(requests, r, w)
    ensures forall r, w :: TerminalOf(requests, r, w) ==> !PendingOf(requests, r, w)
    ensures forall r :: TerminalOf(requests, r, a) ==> !PendingOf(requests, r, a)
  {
  }

  lemma SubmittedContextLeft(requests: map<Id, Request>, rows: map<Id, AuditEvent>, now: Timestamp, a: set<Id>,
      b: set<Id>)
    ensures HasSubmittedContext(requests, rows, a + b) <==>
            HasSubmittedContext(requests, rows, a) || HasSubmittedContext(requests, rows, b)
    ensures !HasSubmittedContext(ErasedRequests(requests, a, now), ErasedAuditEvents(requests, rows, a), a)
    ensures HasSubmittedContext(ErasedRequests(requests, a, now), ErasedAuditEvents(requests, rows, a), b) ==>
            HasSubmittedContext(requests, rows, b)
  {
    RequestOwnersAfterErasure(requests, a, now);
    hide ErasedRequests, PendingOf, TerminalOf;
  }

  lemma OwnedLeft(rows: map<Id, Owned>, a: set<Id>, b: set<Id>)
    ensures HasOwned(rows, a + b) <==> HasOwned(rows, a) || HasOwned(rows, b)
    ensures !HasOwned(KeptOwned(rows, a), a)
    ensures HasOwned(KeptOwned(rows, a), b) ==> HasOwned(rows, b)
  {
  }

  lemma MarksLeft(rows: map<(Id, Id), string>, a: set<Id>, b: set<Id>)
    ensures HasMarks(rows, a + b) <==> HasMarks(rows, a) || HasMarks(rows, b)
    ensures !HasMarks(KeptMarks(rows, a), a)
    ensures HasMarks(KeptMarks(rows, a), b) ==> HasMarks(rows, b)
  {
  }

  lemma GrantsLeft(rows: map<Id, string>, a: set<Id>, b: set<Id>)
    ensures HasGrants(rows, a + b) <==> HasGrants(rows, a) || HasGrants(rows, b)
    ensures !HasGrants(KeptGrants(rows, a), a)
    ensures HasGrants(KeptGrants(rows, a), b) ==> HasGrants(rows, b)
  {
  }

  lemma BucketsLeft(rows: map<string, Bucket>, a: set<Id>, b: set<Id>)
    ensures HasBuckets(rows, a + b) <==> HasBuckets(rows, a) || HasBuckets(rows, b)
    ensures !HasBuckets(KeptBuckets(rows, a), a)
    ensures HasBuckets(KeptBuckets(rows, a), b) ==> HasBuckets(rows, b)
  {
  }

  lemma ReportsLeft(rows: map<Id, Report>, a: set<Id>, b: set<Id>)
    ensures HasReports(rows, a + b) <==> HasReports(rows, a) || HasReports(rows, b)
    ensures !HasReports(ScrubbedReports(rows, a), a)
    ensures HasReports(ScrubbedReports(rows, a), b) ==> HasReports(rows, b)
  {
  }

  lemma ModerationLeft(rows: map<nat, ModerationEvent>, a: set<Id>, b: set<Id>)
    ensures HasModeration(rows, a + b) <==> HasModeration(rows, a) || HasModeration(rows, b)
    ensures !HasModeration(ScrubbedModeration(rows, a), a)
    ensures HasModeration(ScrubbedModeration(rows, a), b) ==> HasModeration(rows, b)
  {
  }

  // ---- erasure leaves nothing behind ----

  /** The tables of an erased database, one by one. */
  lemma ErasedTables(db: Tables, who: Deletions, now: Timestamp)
    ensures var e, ids := Erased(db, who, now), who.Keys;
      && e.users == db.users && e.publications == db.publications
      && e.recipes == Disowned(db.recipes, ids) && e.drafts == ErasedDrafts(db.drafts, who)
      && e.draftCategories == KeptCategories(db.drafts, db.draftCategories, ids)
      && e.draftIngredients == KeptIngredients(db.drafts, db.draftIngredients, ids)
      && e.draftInstructions == KeptInstructions(db.drafts, db.draftInstructions, ids)
      && e.draftActions == KeptActions(db.drafts, db.draftActions, ids)
      && e.draftInputs == KeptInputs(db.drafts, db.draftInputs, ids)
      && e.draftMeasures == KeptMeasures(db.drafts, db.draftActions, db.draftMeasures, ids)
      && e.preflights == KeptPreflights(db.preflights, db.publications, ids)
      && e.candidates == KeptCandidates(db.preflights, db.publications, db.candidates, ids)
      && e.decisions == KeptDecisions(db.preflights, db.publications, db.decisions, ids)
      && e.requests == ErasedRequests(db.requests, ids, now)
      && e.auditEvents == ErasedAuditEvents(db.requests, db.auditEvents, ids)
      && e.saves == KeptMarks(db.saves, ids) && e.ratings == KeptMarks(db.ratings, ids)
      && e.preferenceEvents == KeptOwned(db.preferenceEvents, ids) && e.follows == KeptFollows(db.follows, ids)
      && e.reports == ScrubbedReports(db.reports, ids)
          && e.moderationEvents == ScrubbedModeration(db.moderationEvents, ids)
      && e.buckets == KeptBuckets(db.buckets, ids) && e.moderators == KeptGrants(db.moderators, ids)
      && e.curators == KeptGrants(db.curators, ids) && e.identities == KeptOwned(db.identities, ids)
      && e.sessions == KeptOwned(db.sessions, ids)
      && e.loginTransactions == KeptLogins(db.sessions, db.loginTransactions, ids)
      && e.sandboxEntries == KeptEntries(db.sessions, db.sandboxEntries, ids)
  {
    hide Disowned, KeptCategories, KeptMeasures, KeptInputs, KeptActions, KeptInstructions, KeptIngredients,
         ErasedDrafts, KeptDecisions, KeptCandidates, KeptPreflights, ErasedRequests, ErasedAuditEvents, KeptMarks,
         KeptOwned, KeptFollows, ScrubbedReports, ScrubbedModeration, KeptBuckets, KeptGrants, KeptLogins,
         KeptEntries;
  }

  /** The definitions of the residues, for proofs that need no other definition. */
  lemma ResidueMeans()
    ensures forall db, who :: HasResidue(db, who) <==>
              DraftResidue(db, who) || EvidenceResidue(db, who) || AccessResidue(db, who) || GrantResidue(db, who)
    ensures forall db, who :: DraftResidue(db, who) <==>
              || HasUnpublished(db.drafts, who) || HasPublishedText(db.drafts, who)
              || HasCategories(db.drafts, db.draftCategories, who)
              || HasIngredients(db.drafts, db.draftIngredients, who)
              || HasInstructions(db.drafts, db.draftInstructions, who)
    ensures forall db, who :: EvidenceResidue(db, who) <==>
              || HasPrivateEvidence(db.preflights, db.publications, who)
              || HasPending(db.requests, who) || HasContext(db.requests, who)
              || HasSubmittedContext(db.requests, db.auditEvents, who)
    ensures forall db, who :: AccessResidue(db, who) <==>
              || OwnsRecipes(db.recipes, who) || HasOwned(db.identities, who) || HasOwned(db.sessions, who)
              || HasMarks(db.saves, who) || HasMarks(db.ratings, who) || HasOwned(db.preferenceEvents, who)
    ensures forall db, who :: GrantResidue(db, who) <==>
              || HasGrants(db.curators, who) || HasGrants(db.moderators, who) || HasBuckets(db.buckets, who)
              || HasReports(db.reports, who) || HasModeration(db.moderationEvents, who)
  {}

  lemma DraftsLeft(db: Tables, who: Deletions, other: set<Id>, now: Timestamp)
    ensures !DraftResidue(Erased(db, who, now), who.Keys)
    ensures DraftResidue(Erased(db, who, now), other) ==> DraftResidue(db, other)
    ensures DraftResidue(db, who.Keys + other) <==> DraftResidue(db, who.Keys) || DraftResidue(db, other)
  {
    hide *;
    ResidueMeans();
    ErasedTables(db, who, now);
    UnpublishedLeft(db.drafts, who, other);
    PublishedTextLeft(db.drafts, who, other);
    CategoriesLeft(db.drafts, db.draftCategories, who, other);
    IngredientsLeft(db.drafts, db.draftIngredients, who, other);
    InstructionsLeft(db.drafts, db.draftInstructions, who, other);
  }

  lemma EvidenceAndRequestsLeft(db: Tables, who: Deletions, other: set<Id>, now: Timestamp)
    ensures !EvidenceResidue(Erased(db, who, now), who.Keys)
    ensures EvidenceResidue(Erased(db, who, now), other) ==> EvidenceResidue(db, other)
    ensures EvidenceResidue(db, who.Keys + other) <==> EvidenceResidue(db, who.Keys) || EvidenceResidue(db, other)
  {
    hide *;
    ResidueMeans();
    ErasedTables(db, who, now);
    EvidenceLeft(db.preflights, db.publications, who.Keys, other);
    PendingLeft(db.requests, now, who.Keys, other);
    ContextLeft(db.requests, now, who.Keys, other);
    SubmittedContextLeft(db.requests, db.auditEvents, now, who.Keys, other);
  }

  lemma AccessLeft(db: Tables, who: Deletions, other: set<Id>, now: Timestamp)
    ensures !AccessResidue(Erased(db, who, now), who.Keys)
    ensures AccessResidue(Erased(db, who, now), other) ==> AccessResidue(db, other)
    ensures AccessResidue(db, who.Keys + other) <==> AccessResidue(db, who.Keys) || AccessResidue(db, other)
  {
    hide *;
    ResidueMeans();
    ErasedTables(db, who, now);
    RecipesLeft(db.recipes, who.Keys, other);
    OwnedLeft(db.identities, who.Keys, other);
    OwnedLeft(db.sessions, who.Keys, other);
    OwnedLeft(db.preferenceEvents, who.Keys, other);
    MarksLeft(db.saves, who.Keys, other);
    MarksLeft(db.ratings, who.Keys, other);
  }

  lemma GrantsAndReportsLeft(db: Tables, who: Deletions, other: set<Id>, now: Timestamp)
    ensures !GrantResidue(Erased(db, who, now), who.Keys)
    ensures GrantResidue(Erased(db, who, now), other) ==> GrantResidue(db, other)
    ensures GrantResidue(db, who.Keys + other) <==> GrantResidue(db, who.Keys) || GrantResidue(db, other)
  {
    hide *;
    ResidueMeans();
    ErasedTables(db, who, now);
    GrantsLeft(db.curators, who.Keys, other);
    GrantsLeft(db.moderators, who.Keys, other);
    BucketsLeft(db.buckets, who.Keys, other);
    ReportsLeft(db.reports, who.Keys, other);
    ModerationLeft(db.moderationEvents, who.Keys, other);
  }

  /**
   * From any database state, erasing a set of accounts satisfies every criterion of the verifier for the
   * whole set, and brings back nothing for any other account: later deletions never undo earlier ones.
   * The criteria of a batch are those of its parts.
   */
  lemma ErasureSatisfiesVerifier(db: Tables, who: Deletions, other: set<Id>, now: Timestamp)
    ensures !HasResidue(Erased(db, who, now), who.Keys)
    ensures HasResidue(Erased(db, who, now), other) ==> HasResidue(db, other)
    ensures HasResidue(db, who.Keys + other) <==> HasResidue(db, who.Keys) || HasResidue(db, other)
  {
    hide *;
    ResidueMeans();
    DraftsLeft(db, who, other, now);
    EvidenceAndRequestsLeft(db, who, other, now);
    AccessLeft(db, who, other, now);
    GrantsAndReportsLeft(db, who, other, now);
  }

  /** Which batches are free of residue is decided account by account, as a union. */
  lemma ResidueSplits(db: Tables, a: set<Id>, b: set<Id>)
    ensures HasResidue(db, a + b) <==> HasResidue(db, a) || HasResidue(db, b)
  {
    hide HasResidue;
    var anyTime := Instant(1, 1, 1, 0, 0, 0, 0);
    var who := map u | u in a :: anyTime;
    assert who.Keys == a;
    ErasureSatisfiesVerifier(db, who, b, anyTime);
  }

  lemma NobodyHasNoResidue(db: Tables)
    ensures !HasResidue(db, {})
    ensures UserIds([]) == {}
  {
  }
}
