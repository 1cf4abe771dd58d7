/**
 * When a purge is refused, what counts as a tombstone, and what the verifier finds, each said from the columns of the
 * rows that decide it.
 */
module AccountRefusals {
  import opened Outcomes
  import opened Timestamps
  import opened AccountTables
  import opened AccountChecks
  import opened AccountErasure
  import opened AccountStatements
  import opened AccountVerifier

  /** A present member marked deleted, without email and handle, under the common name, with a time. */
  ghost predicate Gone(users: map<Id, User>, user: Id) {
    && user in users && users[user].kind == Member && users[user].status == DeletedAccount
    && users[user].email == None && users[user].handle == None && users[user].displayName == "Deleted cook"
    && users[user].deletedAt != None
  }

  /** The shape the triggers look for; with the description left out, the shape the table demands of deleted members. */
  lemma TombstoneColumns(users: map<Id, User>, user: Id)
    ensures Tombstoned(users, user) <==> Gone(users, user)
    ensures user in users && users[user].kind == Member && users[user].status == DeletedAccount ==>
              (UserAllowed(users[user]) <==> Gone(users, user) && users[user].profileDescription == None)
  {
    assert DELETED_COOK_DISPLAY_NAME[0] == 'D';
  }

  // ---- why a purge is refused ----

  /** A publication names a draft of the account that is not published. */
  ghost predicate NamesUnpublishedDraft(db: Tables, user: Id, v: Id) {
    && v in db.publications && db.publications[v].sourceDraft.Some?
    && db.publications[v].sourceDraft.value in db.drafts
    && db.drafts[db.publications[v].sourceDraft.value].author == user
    && db.drafts[db.publications[v].sourceDraft.value].status != PublishedDraft
  }

  /** Evidence of the account that no publication names. */
  ghost predicate LoneEvidence(db: Tables, user: Id, p: Id) {
    && p in db.preflights && db.preflights[p].actor == user
    && forall v :: v in db.publications ==> db.publications[v].preflight != Some(p)
  }

  /** A request of the account that waits for review. */
  ghost predicate OwnPending(db: Tables, user: Id, r: Id) {
    r in db.requests && db.requests[r].requester == user && db.requests[r].status == Pending
  }

  ghost predicate OwnReviewed(db: Tables, user: Id, r: Id) {
    r in db.requests && db.requests[r].requester == user && db.requests[r].status != Pending
  }

  /** An ingredient of another account's draft names a pending request of this one. */
  ghost predicate NamedByIngredient(db: Tables, user: Id, k: Id) {
    && k in db.draftIngredients && db.draftIngredients[k].request.Some?
    && OwnPending(db, user, db.draftIngredients[k].request.value)
    && !(db.draftIngredients[k].draft in db.drafts && db.drafts[db.draftIngredients[k].draft].author == user)
  }

  /** Another request is a duplicate of a pending request of this account. */
  ghost predicate NamedByDuplicate(db: Tables, user: Id, k: Id) {
    && k in db.requests && !OwnPending(db, user, k) && db.requests[k].duplicateOf.Some?
    && OwnPending(db, user, db.requests[k].duplicateOf.value)
  }

  /** An event of a pending request that is not the account's own submission. */
  ghost predicate ForeignEvent(db: Tables, user: Id, k: Id) {
    && k in db.auditEvents && OwnPending(db, user, db.auditEvents[k].request)
    && (db.auditEvents[k].actor != user || db.auditEvents[k].eventType != "submitted" || !Gone(db.users, user))
  }

  /** A submission of a reviewed request that the trigger does not let lose its context. */
  ghost predicate FixedContext(db: Tables, user: Id, k: Id) {
    && k in db.auditEvents && OwnReviewed(db, user, db.auditEvents[k].request)
    && db.auditEvents[k].eventType == "submitted"
    && (db.auditEvents[k].actor != user || !Gone(db.users, user) || "context" !in db.auditEvents[k].payload)
  }

  ghost predicate OwnNote(db: Tables, user: Id, k: nat) {
    k in db.moderationEvents && db.moderationEvents[k].actor == user
  }

  lemma DraftsCitedMeans(db: Tables, user: Id)
    ensures DraftsCited(db.drafts, db.publications, user) <==> exists v :: NamesUnpublishedDraft(db, user, v)
  {
    if v :| NamesUnpublishedDraft(db, user, v) {
      assert db.drafts[db.publications[v].sourceDraft.value].status in {ActiveDraft, DiscardedDraft};
    }
    if DraftsCited(db.drafts, db.publications, user) {
      var v :| v in db.publications && db.publications[v].sourceDraft.Some?
        && db.publications[v].sourceDraft.value in db.drafts
        && db.drafts[db.publications[v].sourceDraft.value].author == user
        && db.drafts[db.publications[v].sourceDraft.value].status in {ActiveDraft, DiscardedDraft};
      assert NamesUnpublishedDraft(db, user, v);
    }
  }

  lemma EvidenceMayGoMeans(db: Tables, user: Id)
    ensures !EvidenceMayGo(db.users, db.preflights, db.publications, user)
       <==> !Gone(db.users, user) && exists p :: LoneEvidence(db, user, p)
  {
    TombstoneColumns(db.users, user);
    hide Tombstoned, Gone, UserAllowed;
    forall p ensures LoneEvidence(db, user, p) <==> PrivatePreflight(db.preflights, db.publications, p, {user}) {
    }
    hide LoneEvidence, PrivatePreflight;
    if p :| LoneEvidence(db, user, p) { assert p in db.preflights by { PrivateIsThere(db, p, user); } }
  }

  lemma PrivateIsThere(db: Tables, p: Id, user: Id)
    ensures LoneEvidence(db, user, p) ==> p in db.preflights
  {}

  lemma PendingEventsMayGoMeans(db: Tables, user: Id)
    ensures !PendingEventsMayGo(db.users, db.requests, db.auditEvents, user) <==> exists k :: ForeignEvent(db, user, k)
  {
    TombstoneColumns(db.users, user);
    hide Tombstoned, Gone, UserAllowed;
    forall k | k in db.auditEvents
      ensures ForeignEvent(db, user, k) <==>
              PendingOf(db.requests, db.auditEvents[k].request, {user})
              && !OwnSubmission(db.users, db.auditEvents[k], user)
    {
    }
    forall k | ForeignEvent(db, user, k) ensures k in db.auditEvents {
    }
    hide ForeignEvent, OwnSubmission, PendingOf;
  }

  lemma ContextsMayGoMeans(db: Tables, user: Id)
    ensures !ContextsMayGo(db.users, db.requests, db.auditEvents, user) <==> exists k :: FixedContext(db, user, k)
  {
    TombstoneColumns(db.users, user);
    hide Tombstoned, Gone, UserAllowed;
    forall k | k in db.auditEvents
      ensures FixedContext(db, user, k) <==>
              TerminalOf(db.requests, db.auditEvents[k].request, {user}) && db.auditEvents[k].eventType == SUBMITTED
              && !(OwnSubmission(db.users, db.auditEvents[k], user) && CONTEXT in db.auditEvents[k].payload)
    {
    }
    forall k | FixedContext(db, user, k) ensures k in db.auditEvents {
    }
    hide FixedContext, OwnSubmission, TerminalOf;
  }

  lemma PendingCitedMeans(db: Tables, user: Id)
    ensures PendingCited(db.requests, KeptIngredients(db.drafts, db.draftIngredients, {user}), user)
       <==> (exists k :: NamedByIngredient(db, user, k)) || exists k :: NamedByDuplicate(db, user, k)
  {
    var kept := KeptIngredients(db.drafts, db.draftIngredients, {user});
    forall k ensures NamedByIngredient(db, user, k) <==>
        k in kept && kept[k].request.Some? && PendingOf(db.requests, kept[k].request.value, {user})
    {
    }
    forall k ensures NamedByDuplicate(db, user, k) <==>
        k in db.requests && !PendingOf(db.requests, k, {user}) && db.requests[k].duplicateOf.Some?
        && PendingOf(db.requests, db.requests[k].duplicateOf.value, {user})
    {
    }
    hide NamedByIngredient, NamedByDuplicate, PendingOf, KeptIngredients;
  }

  lemma NotesMayGoMeans(db: Tables, user: Id)
    ensures !NotesMayGo(db.users, db.moderationEvents, user) <==>
            !Gone(db.users, user) && exists k :: OwnNote(db, user, k)
  {
    TombstoneColumns(db.users, user);
    hide Tombstoned, Gone, UserAllowed;
    if !NotesMayGo(db.users, db.moderationEvents, user) {
      var k :| k in db.moderationEvents && db.moderationEvents[k].actor == user && !Tombstoned(db.users, user);
      assert OwnNote(db, user, k);
    }
    if k :| OwnNote(db, user, k) { assert k in db.moderationEvents; }
  }

  /** A purge is refused exactly for one of these rows. */
  lemma PurgeRefusedExactlyFor(db: Tables, user: Id)
    ensures !MayErase(db, user) <==>
            || (exists v :: NamesUnpublishedDraft(db, user, v))
            || (!Gone(db.users, user) && exists p :: LoneEvidence(db, user, p))
            || (exists k :: ForeignEvent(db, user, k))
            || (exists k :: NamedByIngredient(db, user, k))
            || (exists k :: NamedByDuplicate(db, user, k))
            || (exists k :: FixedContext(db, user, k))
            || (!Gone(db.users, user) && exists k :: OwnNote(db, user, k))
  {
    hide *;
    MayEraseMeans();
    DraftsCitedMeans(db, user);
    EvidenceMayGoMeans(db, user);
    PendingEventsMayGoMeans(db, user);
    PendingCitedMeans(db, user);
    ContextsMayGoMeans(db, user);
    NotesMayGoMeans(db, user);
  }

  // ---- what the verifier finds ----

  ghost predicate Drafting(db: Tables, draft: Id, who: set<Id>) {
    draft in db.drafts && db.drafts[draft].author in who
  }

  ghost predicate LeftDrafts(db: Tables, who: set<Id>) {
    || (exists k :: k in db.drafts && db.drafts[k].author in who && db.drafts[k].status != PublishedDraft)
    || (exists k :: k in db.drafts && db.drafts[k].author in who && db.drafts[k].status == PublishedDraft
                    && !(db.drafts[k].title == "" && db.drafts[k].description == None && db.drafts[k].servings == None
                         && db.drafts[k].totalTimeMinutes == None && db.drafts[k].activeTimeMinutes == None
                         && db.drafts[k].difficulty == None && db.drafts[k].notes == None))
    || (exists k :: k in db.draftCategories && Drafting(db, k.0, who))
    || (exists k :: k in db.draftIngredients && Drafting(db, db.draftIngredients[k].draft, who))
    || (exists k :: k in db.draftInstructions && Drafting(db, db.draftInstructions[k].draft, who))
  }

  ghost predicate LeftRequests(db: Tables, who: set<Id>) {
    || (exists p :: p in db.preflights && db.preflights[p].actor in who
                    && !exists v :: v in db.publications && db.publications[v].preflight == Some(p))
    || (exists k :: k in db.requests && db.requests[k].requester in who
                    && (db.requests[k].status == Pending || db.requests[k].context != None))
    || (exists k :: k in db.auditEvents && db.auditEvents[k].eventType == "submitted"
                    && "context" in db.auditEvents[k].payload && db.auditEvents[k].request in db.requests
                    && db.requests[db.auditEvents[k].request].requester in who
                    && db.requests[db.auditEvents[k].request].status != Pending)
  }

  ghost predicate LeftMarks(db: Tables, who: set<Id>) {
    || (exists k :: k in db.recipes && db.recipes[k].owner.Some? && db.recipes[k].owner.value in who)
    || (exists k :: k in db.identities && db.identities[k].user in who)
    || (exists k :: k in db.sessions && db.sessions[k].user in who)
    || (exists k :: k in db.saves && k.0 in who)
    || (exists k :: k in db.ratings && k.0 in who)
    || (exists k :: k in db.preferenceEvents && db.preferenceEvents[k].user in who)
  }

  ghost predicate LeftGrants(db: Tables, who: set<Id>) {
    || (exists k :: k in db.curators && k in who)
    || (exists k :: k in db.moderators && k in who)
    || (exists k :: k in db.buckets && db.buckets[k].account.Some? && db.buckets[k].account.value in who)
    || (exists k :: k in db.reports && db.reports[k].reporter in who
                    && !(db.reports[k].details == None && db.reports[k].fingerprint == DELETED_REPORT_FINGERPRINT))
    || (exists k :: k in db.moderationEvents && db.moderationEvents[k].actor in who
                    && !(db.moderationEvents[k].privateNote == None
                         && db.moderationEvents[k].fingerprint == DELETED_MODERATION_FINGERPRINT))
  }

  lemma DraftResidueMeans(db: Tables, who: set<Id>)
    ensures DraftResidue(db, who) <==> LeftDrafts(db, who)
  {
    forall k | k in db.drafts ensures db.drafts[k].status in {ActiveDraft, DiscardedDraft}
                                 <==> db.drafts[k].status != PublishedDraft {
    }
  }

  lemma EvidenceResidueMeans(db: Tables, who: set<Id>)
    ensures EvidenceResidue(db, who) <==> LeftRequests(db, who)
  {
    forall p ensures PrivatePreflight(db.preflights, db.publications, p, who) <==>
        p in db.preflights && db.preflights[p].actor in who
        && !exists v :: v in db.publications && db.publications[v].preflight == Some(p)
    {
    }
    hide PrivatePreflight, Cited;
  }

  lemma AccessResidueMeans(db: Tables, who: set<Id>)
    ensures AccessResidue(db, who) <==> LeftMarks(db, who)
  {}

  lemma GrantResidueMeans(db: Tables, who: set<Id>)
    ensures GrantResidue(db, who) <==> LeftGrants(db, who)
  {}

  /** The verifier finds residue exactly when one of these rows is there. */
  lemma ResidueIsOneOf(db: Tables, who: set<Id>)
    ensures HasResidue(db, who) <==>
            LeftDrafts(db, who) || LeftRequests(db, who) || LeftMarks(db, who) || LeftGrants(db, who)
  {
    hide *;
    ResidueMeans();
    DraftResidueMeans(db, who);
    EvidenceResidueMeans(db, who);
    AccessResidueMeans(db, who);
    GrantResidueMeans(db, who);
  }

  /** A batch verifies exactly when it names nobody twice and everybody is gone without residue, at the time given. */
  lemma VerifiedMeansGone(db: Tables, members: seq<(Id, Timestamp)>)
    ensures Verified(db, members) <==>
            && (forall i, j :: 0 <= i < j < |members| ==> members[i].0 != members[j].0)
            && (forall i :: 0 <= i < |members| ==>
                 && Gone(db.users, members[i].0) && db.users[members[i].0].profileDescription == None
                 && db.users[members[i].0].deletedAt == Some(members[i].1))
            && (members != [] ==> !HasResidue(db, set i | 0 <= i < |members| :: members[i].0))
  {
    hide HasResidue, UserAllowed;
    forall i | 0 <= i < |members| ensures Tombstoned(db.users, members[i].0) <==> Gone(db.users, members[i].0) {
      TombstoneColumns(db.users, members[i].0);
    }
    assert UserIds(members) == set i | 0 <= i < |members| :: members[i].0;
  }
}
