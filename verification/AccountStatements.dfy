/**
 * The conditions under which the database lets a purge go on, and the tables after each of its statements: every
 * reference resolves not only at the end but after each one of them.
 */
module AccountStatements {
  import opened Outcomes
  import opened Timestamps
  import opened AccountTables
  import opened AccountErasure

  // ---- what the database lets the purge do, stated on the tables before it starts ----

  /** A publication rests on a draft that the purge would delete. */
  predicate DraftsCited(drafts: map<Id, Draft>, publications: map<Id, Publication>, user: Id) {
    exists v :: v in publications && publications[v].sourceDraft.Some?
      && publications[v].sourceDraft.value in drafts
      && drafts[publications[v].sourceDraft.value].author == user
      && drafts[publications[v].sourceDraft.value].status in {ActiveDraft, DiscardedDraft}
  }

  /** Private evidence leaves only with a tombstoned owner. */
  predicate EvidenceMayGo(users: map<Id, User>, preflights: map<Id, Preflight>, publications: map<Id, Publication>,
      user: Id) {
    Tombstoned(users, user) || forall p :: p in preflights ==> !PrivatePreflight(preflights, publications, p, {user})
  }

  /** The append-only trigger of the catalog audit: a tombstoned owner's own submission, and nothing else. */
  predicate OwnSubmission(users: map<Id, User>, e: AuditEvent, user: Id) {
    Tombstoned(users, user) && e.actor == user && e.eventType == SUBMITTED
  }

  predicate PendingEventsMayGo(users: map<Id, User>, requests: map<Id, Request>, rows: map<Id, AuditEvent>, user: Id) {
    forall k :: k in rows && PendingOf(requests, rows[k].request, {user}) ==> OwnSubmission(users, rows[k], user)
  }

  /** Some other row still names a pending request of this account. */
  predicate PendingCited(requests: map<Id, Request>, ingredients: map<Id, DraftIngredient>, user: Id) {
    || (exists k :: k in ingredients && ingredients[k].request.Some?
                    && PendingOf(requests, ingredients[k].request.value, {user}))
    || (exists k :: k in requests && !PendingOf(requests, k, {user})
          && requests[k].duplicateOf.Some? && PendingOf(requests, requests[k].duplicateOf.value, {user}))
  }

  /** The trigger lets a reviewed submission lose its context only if it still has one. */
  predicate ContextsMayGo(users: map<Id, User>, requests: map<Id, Request>, rows: map<Id, AuditEvent>, user: Id) {
    forall k :: k in rows && TerminalOf(requests, rows[k].request, {user}) && rows[k].eventType == SUBMITTED ==>
      OwnSubmission(users, rows[k], user) && CONTEXT in rows[k].payload
  }

  predicate NotesMayGo(users: map<Id, User>, events: map<nat, ModerationEvent>, user: Id) {
    forall k :: k in events && events[k].actor == user ==> Tombstoned(users, user)
  }

  /**
   * Exactly when the purge of one account goes through. Only draft ingredients outside the account's own
   * drafts matter: its own are gone before the requests are.
   */
  predicate MayErase(db: Tables, user: Id) {
    && !DraftsCited(db.drafts, db.publications, user)
    && EvidenceMayGo(db.users, db.preflights, db.publications, user)
    && PendingEventsMayGo(db.users, db.requests, db.auditEvents, user)
    && !PendingCited(db.requests, KeptIngredients(db.drafts, db.draftIngredients, {user}), user)
    && ContextsMayGo(db.users, db.requests, db.auditEvents, user)
    && NotesMayGo(db.users, db.moderationEvents, user)
  }

  /** The definition of `MayErase`, for proofs that need no other definition. */
  lemma MayEraseMeans()
    ensures forall db, user :: MayErase(db, user) <==>
              && !DraftsCited(db.drafts, db.publications, user)
              && EvidenceMayGo(db.users, db.preflights, db.publications, user)
              && PendingEventsMayGo(db.users, db.requests, db.auditEvents, user)
              && !PendingCited(db.requests, KeptIngredients(db.drafts, db.draftIngredients, {user}), user)
              && ContextsMayGo(db.users, db.requests, db.auditEvents, user)
              && NotesMayGo(db.users, db.moderationEvents, user)
  {}

  // ---- recipes and drafts ----

  function UnpublishedDeleted(drafts: map<Id, Draft>, user: Id): map<Id, Draft> {
    map k | k in drafts && !(drafts[k].author == user && drafts[k].status in {ActiveDraft, DiscardedDraft}) :: drafts[k]
  }

  function PublishedBlanked(drafts: map<Id, Draft>, user: Id, at: Timestamp): map<Id, Draft> {
    map k | k in drafts ::
      if drafts[k].author == user && drafts[k].status == PublishedDraft then Blank(drafts[k], at) else drafts[k]
  }

  /** The tables after each statement on recipes and drafts. */
  function DraftStatements(db: Tables, user: Id, at: Timestamp): (states: seq<Tables>)
    ensures |states| == 9
  {
    var who := {user};
    var a := db.(recipes := Disowned(db.recipes, who));
    var b := a.(draftCategories := KeptCategories(a.drafts, a.draftCategories, who));
    var c := b.(draftMeasures := KeptMeasures(b.drafts, b.draftActions, b.draftMeasures, who));
    var d := c.(draftInputs := KeptInputs(c.drafts, c.draftInputs, who));
    var e := d.(draftActions := KeptActions(d.drafts, d.draftActions, who));
    var f := e.(draftInstructions := KeptInstructions(e.drafts, e.draftInstructions, who));
    var g := f.(draftIngredients := KeptIngredients(f.drafts, f.draftIngredients, who));
    var h := g.(drafts := UnpublishedDeleted(g.drafts, user));
    [a, b, c, d, e, f, g, h, h.(drafts := PublishedBlanked(h.drafts, user, at))]
  }

  /** So many of the six tables below drafts hold no row of these accounts any more. */
  ghost predicate Emptied(db: Tables, who: set<Id>, tables: nat) {
    && (tables >= 1 ==> forall k :: k in db.draftCategories ==> !DraftOf(db.drafts, k.0, who))
    && (tables >= 2 ==> forall k :: k in db.draftMeasures ==> !ActionOf(db.drafts, db.draftActions, k.0, who))
    && (tables >= 3 ==> forall k :: k in db.draftInputs ==> !DraftOf(db.drafts, db.draftInputs[k].draft, who))
    && (tables >= 4 ==> forall k :: k in db.draftActions ==> !DraftOf(db.drafts, db.draftActions[k].draft, who))
    && (tables >= 5 ==>
          forall k :: k in db.draftInstructions ==> !DraftOf(db.drafts, db.draftInstructions[k].draft, who))
    && (tables >= 6 ==>
          forall k :: k in db.draftIngredients ==> !DraftOf(db.drafts, db.draftIngredients[k].draft, who))
  }

  lemma CategoriesGo(db: Tables, who: set<Id>)
    requires Resolves(db)
    ensures var next := db.(draftCategories := KeptCategories(db.drafts, db.draftCategories, who));
      Resolves(next) && Emptied(next, who, 1)
  {
    hide DraftOf, EvidenceResolves, RequestsResolve, SessionsResolve;
  }

  lemma MeasuresGo(db: Tables, who: set<Id>)
    requires Resolves(db) && Emptied(db, who, 1)
    ensures var next := db.(draftMeasures := KeptMeasures(db.drafts, db.draftActions, db.draftMeasures, who));
      Resolves(next) && Emptied(next, who, 2)
  {
    hide DraftOf, ActionOf, EvidenceResolves, RequestsResolve, SessionsResolve;
  }

  lemma InputsGo(db: Tables, who: set<Id>)
    requires Resolves(db) && Emptied(db, who, 2)
    ensures var next := db.(draftInputs := KeptInputs(db.drafts, db.draftInputs, who));
      Resolves(next) && Emptied(next, who, 3)
  {
    hide DraftOf, ActionOf, EvidenceResolves, RequestsResolve, SessionsResolve;
  }

  /** No measure or input names an action that goes. */
  lemma ActionsGo(db: Tables, who: set<Id>)
    requires Resolves(db) && Emptied(db, who, 3)
    ensures var next := db.(draftActions := KeptActions(db.drafts, db.draftActions, who));
      Resolves(next) && Emptied(next, who, 4)
  {
    hide DraftOf, EvidenceResolves, RequestsResolve, SessionsResolve;
  }

  lemma InstructionsGo(db: Tables, who: set<Id>)
    requires Resolves(db) && Emptied(db, who, 4)
    ensures var next := db.(draftInstructions := KeptInstructions(db.drafts, db.draftInstructions, who));
      Resolves(next) && Emptied(next, who, 5)
  {
    hide DraftOf, ActionOf, EvidenceResolves, RequestsResolve, SessionsResolve;
  }

  lemma IngredientsGo(db: Tables, who: set<Id>)
    requires Resolves(db) && Emptied(db, who, 5)
    ensures var next := db.(draftIngredients := KeptIngredients(db.drafts, db.draftIngredients, who));
      Resolves(next) && Emptied(next, who, 6)
  {
    hide DraftOf, ActionOf, DraftRowsResolve, EvidenceResolves, RequestsResolve, SessionsResolve;
    FewerIngredients(db.requests, db.draftIngredients, KeptIngredients(db.drafts, db.draftIngredients, who),
                     db.auditEvents);
    NoInputNamesOne(db, who);
  }

  lemma NoInputNamesOne(db: Tables, who: set<Id>)
    requires DraftRowsResolve(db.drafts, db.draftCategories, db.draftIngredients, db.draftInstructions,
                              db.draftActions, db.draftInputs, db.draftMeasures)
    requires forall k :: k in db.draftInputs ==> !DraftOf(db.drafts, db.draftInputs[k].draft, who)
    ensures DraftRowsResolve(db.drafts, db.draftCategories, KeptIngredients(db.drafts, db.draftIngredients, who),
                             db.draftInstructions, db.draftActions, db.draftInputs, db.draftMeasures)
  {
    hide DraftOf;
  }

  lemma FewerIngredients(requests: map<Id, Request>, ingredients: map<Id, DraftIngredient>,
                         fewer: map<Id, DraftIngredient>, events: map<Id, AuditEvent>)
    requires RequestsResolve(requests, ingredients, events)
    requires forall k :: k in fewer ==> k in ingredients && fewer[k] == ingredients[k]
    ensures RequestsResolve(requests, fewer, events)
  {}

  /** With nothing below them, drafts go unless a publication names one. */
  lemma DraftsGo(db: Tables, user: Id)
    requires Resolves(db) && Emptied(db, {user}, 6) && !DraftsCited(db.drafts, db.publications, user)
    ensures Resolves(db.(drafts := UnpublishedDeleted(db.drafts, user)))
  {
    hide RequestsResolve, SessionsResolve, DecisionsResolve;
  }

  lemma DraftsKeepTheirAuthors(db: Tables, user: Id, at: Timestamp)
    requires Resolves(db)
    ensures Resolves(db.(drafts := PublishedBlanked(db.drafts, user, at)))
  {
    hide RequestsResolve, SessionsResolve, DecisionsResolve;
  }

  lemma DraftStatementsResolve(db: Tables, user: Id, at: Timestamp)
    requires Resolves(db)
    ensures forall i :: 0 <= i < 7 ==> Resolves(DraftStatements(db, user, at)[i])
    ensures !DraftsCited(db.drafts, db.publications, user) ==>
              Resolves(DraftStatements(db, user, at)[7]) && Resolves(DraftStatements(db, user, at)[8])
  {
    hide DraftRowsResolve, EvidenceResolves, RequestsResolve, SessionsResolve, Emptied, DraftsCited, Disowned,
         KeptCategories, KeptMeasures, KeptInputs, KeptActions, KeptInstructions, KeptIngredients, UnpublishedDeleted,
         PublishedBlanked;
    var who := {user};
    var states := DraftStatements(db, user, at);
    CategoriesGo(states[0], who);
    MeasuresGo(states[1], who);
    InputsGo(states[2], who);
    ActionsGo(states[3], who);
    InstructionsGo(states[4], who);
    IngredientsGo(states[5], who);
    if !DraftsCited(db.drafts, db.publications, user) {
      DraftsGo(states[6], user);
      DraftsKeepTheirAuthors(states[7], user, at);
    }
  }

  // ---- duplicate evidence ----

  /** The tables after each statement on duplicate evidence. */
  function EvidenceStatements(db: Tables, who: set<Id>): (states: seq<Tables>)
    ensures |states| == 3
  {
    var a := db.(decisions := KeptDecisions(db.preflights, db.publications, db.decisions, who));
    var b := a.(candidates := KeptCandidates(a.preflights, a.publications, a.candidates, who));
    [a, b, b.(preflights := KeptPreflights(b.preflights, b.publications, who))]
  }

  /** No deleted decision is named by a publication, so the RESTRICT key of publications is not in the way. */
  lemma NoPublicationKeepsDecision(db: Tables, who: set<Id>)
    requires DecisionsResolve(db.preflights, db.decisions, db.publications)
    ensures forall v :: v in db.publications && db.publications[v].decision.Some? ==>
              !PrivatePreflight(db.preflights, db.publications,
                  db.decisions[db.publications[v].decision.value].preflight, who)
  {}

  lemma DecisionsGo(db: Tables, who: set<Id>)
    requires Resolves(db)
    ensures Resolves(db.(decisions := KeptDecisions(db.preflights, db.publications, db.decisions, who)))
  {
    hide DraftRowsResolve, RequestsResolve, SessionsResolve, PrivatePreflight;
    NoPublicationKeepsDecision(db, who);
  }

  lemma CandidatesGo(db: Tables, who: set<Id>)
    requires Resolves(db)
    ensures Resolves(db.(candidates := KeptCandidates(db.preflights, db.publications, db.candidates, who)))
  {
    hide DraftRowsResolve, RequestsResolve, SessionsResolve, PrivatePreflight;
  }

  /** Private evidence goes once no decision or candidate names it; no publication ever does. */
  lemma PreflightsGo(db: Tables, who: set<Id>)
    requires Resolves(db)
    requires forall k :: k in db.decisions ==>
               !PrivatePreflight(db.preflights, db.publications, db.decisions[k].preflight, who)
    requires forall k :: k in db.candidates ==> !PrivatePreflight(db.preflights, db.publications, k.0, who)
    ensures Resolves(db.(preflights := KeptPreflights(db.preflights, db.publications, who)))
  {
    hide DraftRowsResolve, RequestsResolve, SessionsResolve;
  }

  lemma EvidenceStatementsResolve(db: Tables, who: set<Id>)
    requires Resolves(db)
    ensures forall i :: 0 <= i < 3 ==> Resolves(EvidenceStatements(db, who)[i])
  {
    hide DraftRowsResolve, EvidenceResolves, RequestsResolve, SessionsResolve, PrivatePreflight, KeptPreflights;
    var states := EvidenceStatements(db, who);
    DecisionsGo(db, who);
    CandidatesGo(states[0], who);
    PreflightsGo(states[1], who);
  }

  // ---- catalog requests ----

  function WithoutPending(requests: map<Id, Request>, rows: map<Id, AuditEvent>, user: Id): map<Id, AuditEvent> {
    map k | k in rows && !PendingOf(requests, rows[k].request, {user}) :: rows[k]
  }

  function PendingDeleted(requests: map<Id, Request>, user: Id): map<Id, Request> {
    map k | k in requests && !PendingOf(requests, k, {user}) :: requests[k]
  }

  function ContextRemoved(requests: map<Id, Request>, rows: map<Id, AuditEvent>, user: Id): map<Id, AuditEvent> {
    map k | k in rows ::
      if TerminalOf(requests, rows[k].request, {user}) && rows[k].eventType == SUBMITTED
      then rows[k].(payload := rows[k].payload - {CONTEXT})
      else rows[k]
  }

  function ContextCleared(requests: map<Id, Request>, user: Id, now: Timestamp): map<Id, Request> {
    map k | k in requests ::
      if TerminalOf(requests, k, {user}) then requests[k].(context := None, updatedAt := now) else requests[k]
  }

  /** The tables after each statement on catalog requests. */
  function RequestStatements(db: Tables, user: Id, now: Timestamp): (states: seq<Tables>)
    ensures |states| == 4
  {
    var a := db.(auditEvents := WithoutPending(db.requests, db.auditEvents, user));
    var b := a.(requests := PendingDeleted(a.requests, user));
    var c := b.(auditEvents := ContextRemoved(b.requests, b.auditEvents, user));
    [a, b, c, c.(requests := ContextCleared(c.requests, user, now))]
  }

  lemma PendingEventsGo(db: Tables, user: Id)
    requires Resolves(db)
    ensures var next := db.(auditEvents := WithoutPending(db.requests, db.auditEvents, user));
      Resolves(next)
      && forall k :: k in next.auditEvents ==> !PendingOf(db.requests, next.auditEvents[k].request, {user})
  {
    hide DraftRowsResolve, EvidenceResolves, SessionsResolve, PendingOf;
  }

  /** Pending requests go once their events are gone, unless some other row names one. */
  lemma PendingGo(db: Tables, user: Id)
    requires Resolves(db) && !PendingCited(db.requests, db.draftIngredients, user)
    requires forall k :: k in db.auditEvents ==> !PendingOf(db.requests, db.auditEvents[k].request, {user})
    ensures Resolves(db.(requests := PendingDeleted(db.requests, user)))
  {
    hide DraftRowsResolve, EvidenceResolves, SessionsResolve, PendingOf;
  }

  lemma ContextsGo(db: Tables, user: Id, now: Timestamp)
    requires Resolves(db)
    ensures var next := db.(auditEvents := ContextRemoved(db.requests, db.auditEvents, user));
      Resolves(next) && Resolves(next.(requests := ContextCleared(next.requests, user, now)))
  {
    hide DraftRowsResolve, EvidenceResolves, SessionsResolve, TerminalOf;
  }

  lemma RequestStatementsResolve(db: Tables, user: Id, now: Timestamp)
    requires Resolves(db)
    ensures var states := RequestStatements(db, user, now);
      && Resolves(states[0])
      && (!PendingCited(db.requests, db.draftIngredients, user) ==>
           Resolves(states[1]) && Resolves(states[2]) && Resolves(states[3]))
  {
    hide DraftRowsResolve, EvidenceResolves, RequestsResolve, SessionsResolve, PendingCited, WithoutPending,
         PendingDeleted, ContextRemoved, ContextCleared;
    var states := RequestStatements(db, user, now);
    PendingEventsGo(db, user);
    if !PendingCited(db.requests, db.draftIngredients, user) {
      PendingGo(states[0], user);
      ContextsGo(states[1], user, now);
    }
  }

  // ---- everything else ----

  /** Deleting a session cascades to what is bound to it, in the same statement. */
  function WithoutSessions(db: Tables, who: set<Id>): Tables {
    db.(sessions := KeptOwned(db.sessions, who),
        loginTransactions := KeptLogins(db.sessions, db.loginTransactions, who),
        sandboxEntries := KeptEntries(db.sessions, db.sandboxEntries, who))
  }

  /** The tables after each statement on marks, follows and reports. */
  function MarkStatements(db: Tables, who: set<Id>): (states: seq<Tables>)
    ensures |states| == 5
  {
    var a := db.(saves := KeptMarks(db.saves, who));
    var b := a.(ratings := KeptMarks(a.ratings, who));
    var c := b.(preferenceEvents := KeptOwned(b.preferenceEvents, who));
    var d := c.(follows := KeptFollows(c.follows, who));
    [a, b, c, d, d.(reports := ScrubbedReports(d.reports, who))]
  }

  /** The tables after each statement on moderation notes, grants and sign-in state. */
  function SignInStatements(db: Tables, who: set<Id>): (states: seq<Tables>)
    ensures |states| == 6
  {
    var a := db.(moderationEvents := ScrubbedModeration(db.moderationEvents, who));
    var b := a.(buckets := KeptBuckets(a.buckets, who));
    var c := b.(moderators := KeptGrants(b.moderators, who));
    var d := c.(curators := KeptGrants(c.curators, who));
    var e := d.(identities := KeptOwned(d.identities, who));
    [a, b, c, d, e, WithoutSessions(e, who)]
  }

  lemma MarkStatementsResolve(db: Tables, who: set<Id>)
    requires Resolves(db)
    ensures forall i :: 0 <= i < 5 ==> Resolves(MarkStatements(db, who)[i])
  {
    hide DraftRowsResolve, EvidenceResolves, RequestsResolve, SessionsResolve, KeptMarks, KeptOwned, KeptFollows,
         ScrubbedReports;
  }

  lemma SignInStatementsResolve(db: Tables, who: set<Id>)
    requires Resolves(db)
    ensures forall i :: 0 <= i < 6 ==> Resolves(SignInStatements(db, who)[i])
  {
    hide DraftRowsResolve, EvidenceResolves, RequestsResolve, SessionsResolve, KeptOwned, ScrubbedModeration,
         KeptBuckets, KeptGrants, WithoutSessions;
    SessionsGo(SignInStatements(db, who)[4], who);
  }

  lemma SessionsGo(db: Tables, who: set<Id>)
    requires Resolves(db)
    ensures Resolves(WithoutSessions(db, who))
  {
    hide DraftRowsResolve, EvidenceResolves, RequestsResolve;
  }

  // ---- the purge ----

  /** What each group of statements finds of the tables before the purge, and that the four together are the erasure. */
  lemma ErasureInGroups(db: Tables, user: Id, at: Timestamp, now: Timestamp)
    ensures var who := map[user := at];
            var a := WithoutDrafts(db, who);
            var b := WithoutEvidence(a, {user});
            var c := WithoutRequests(b, {user}, now);
      && a.users == b.users == c.users == db.users
      && a.preflights == db.preflights && a.publications == db.publications
      && b.requests == db.requests && b.auditEvents == db.auditEvents
      && b.draftIngredients == KeptIngredients(db.drafts, db.draftIngredients, {user})
      && c.moderationEvents == db.moderationEvents
      && WithoutAccess(c, {user}) == Erased(db, who, now)
  {
    assert (map[user := at]).Keys == {user};
  }

  /** The tables after each statement of a purge, in their order. */
  function PurgeStatements(db: Tables, user: Id, at: Timestamp, now: Timestamp): (states: seq<Tables>)
    ensures |states| == 27
  {
    var drafts := DraftStatements(db, user, at);
    var evidence := EvidenceStatements(drafts[8], {user});
    var requests := RequestStatements(evidence[2], user, now);
    var marks := MarkStatements(requests[3], {user});
    drafts + evidence + requests + marks + SignInStatements(marks[4], {user})
  }

  /** What a purge that ends early has done are the first of its statements. */
  lemma FirstStatements(db: Tables, user: Id, at: Timestamp, now: Timestamp)
    ensures var all := PurgeStatements(db, user, at, now);
            var drafts := DraftStatements(db, user, at);
            var evidence := EvidenceStatements(drafts[8], {user});
            var requests := RequestStatements(evidence[2], user, now);
            var marks := MarkStatements(requests[3], {user});
      && (forall n :: 0 <= n <= 12 ==> all[..n] == (drafts + evidence)[..n])
      && (forall n :: 0 <= n <= 4 ==> all[..12 + n] == drafts + evidence + requests[..n])
      && all[..21] == drafts + evidence + requests + marks
      && all == drafts + evidence + requests + marks + SignInStatements(marks[4], {user})
  {
    hide DraftStatements, EvidenceStatements, RequestStatements, MarkStatements, SignInStatements;
  }

  lemma AccessStatementsEnd(db: Tables, who: set<Id>)
    ensures var marked := MarkStatements(db, who)[4];
      && marked.users == db.users && marked.moderationEvents == db.moderationEvents
      && SignInStatements(marked, who)[5] == WithoutAccess(db, who)
  {
    hide KeptMarks, KeptOwned, KeptFollows, ScrubbedReports, ScrubbedModeration, KeptBuckets, KeptGrants, KeptLogins,
         KeptEntries;
  }
}
