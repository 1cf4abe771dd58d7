/**
 * The tables an account deletion reads or writes, one map from primary key to row per table. A row names
 * the columns the purge, its guards or the verifier look at; `rest` stands for all its other columns.
 */
module AccountTables {
  import opened Outcomes

  import opened Timestamps

  /** A row's UUID as a number; the 128-bit bound plays no part in these tables. */
  type Id = nat

  datatype AccountKind = Member | System | Demo

  datatype AccountStatus = ActiveAccount | SuspendedAccount | DeletedAccount

  datatype User = User(
    kind: AccountKind, status: AccountStatus, email: Option<string>, handle: Option<string>,
    displayName: string, profileDescription: Option<string>, deletedAt: Option<Timestamp>,
    updatedAt: Timestamp, rest: string)

  datatype Recipe = Recipe(owner: Option<Id>, attributedAuthor: Id, rest: string)

  datatype DraftStatus = ActiveDraft | DiscardedDraft | PublishedDraft

  datatype Draft = Draft(
    author: Id, status: DraftStatus, revision: nat, title: string, description: Option<string>,
    servings: Option<string>, totalTimeMinutes: Option<nat>, activeTimeMinutes: Option<nat>,
    difficulty: Option<string>, notes: Option<string>, updatedAt: Timestamp, rest: string)

  datatype DraftIngredient = DraftIngredient(draft: Id, request: Option<Id>, rest: string)
  datatype DraftInstruction = DraftInstruction(draft: Id, rest: string)
  datatype DraftAction = DraftAction(draft: Id, instruction: Id, rest: string)
  datatype DraftInput = DraftInput(draft: Id, action: Id, ingredient: Id, rest: string)

  datatype Preflight = Preflight(actor: Id, rest: string)
  datatype Decision = Decision(preflight: Id, actor: Id, rest: string)
  datatype Publication = Publication(
    actor: Id, sourceDraft: Option<Id>, preflight: Option<Id>, decision: Option<Id>, rest: string)

  datatype RequestStatus = Pending | Approved | Rejected | Duplicate

  datatype Request = Request(
    requester: Id, status: RequestStatus, context: Option<string>, duplicateOf: Option<Id>,
    updatedAt: Timestamp, rest: string)

  datatype AuditEvent = AuditEvent(
    request: Id, actor: Id, eventType: string, payload: map<string, string>, rest: string)

  datatype Report = Report(reporter: Id, details: Option<string>, fingerprint: string, rest: string)
  datatype ModerationEvent = ModerationEvent(actor: Id, privateNote: Option<string>, fingerprint: string, rest: string)

  /** A row that only matters through the account it belongs to. */
  datatype Owned = Owned(user: Id, rest: string)
  datatype Bucket = Bucket(account: Option<Id>, rest: string)
  datatype LoginTransaction = LoginTransaction(boundSession: Option<Id>, rest: string)
  datatype SandboxEntry = SandboxEntry(session: Id, rest: string)

  datatype Tables = Tables(
    users: map<Id, User>,
    recipes: map<Id, Recipe>,
    drafts: map<Id, Draft>,
    draftCategories: map<(Id, Id), string>,        // (draft, category)
    draftIngredients: map<Id, DraftIngredient>,
    draftInstructions: map<Id, DraftInstruction>,
    draftActions: map<Id, DraftAction>,
    draftInputs: map<Id, DraftInput>,
    draftMeasures: map<(Id, string), string>,        // (action, semantic)
    publications: map<Id, Publication>,
    preflights: map<Id, Preflight>,
    candidates: map<(Id, Id), string>,             // (preflight, public version)
    decisions: map<Id, Decision>,
    requests: map<Id, Request>,
    auditEvents: map<Id, AuditEvent>,
    saves: map<(Id, Id), string>,                  // (user, version)
    ratings: map<(Id, Id), string>,                // (user, version)
    preferenceEvents: map<Id, Owned>,
    follows: map<(Id, Id), string>,                // (follower, followed)
    reports: map<Id, Report>,
    moderationEvents: map<nat, ModerationEvent>,
    buckets: map<string, Bucket>,
    moderators: map<Id, string>,
    curators: map<Id, string>,
    identities: map<Id, Owned>,
    sessions: map<Id, Owned>,
    loginTransactions: map<Id, LoginTransaction>,
    sandboxEntries: map<string, SandboxEntry>)

  const EMPTY := Tables(
    map[], map[], map[], map[], map[], map[], map[], map[], map[], map[], map[], map[], map[], map[],
    map[], map[], map[], map[], map[], map[], map[], map[], map[], map[], map[], map[], map[], map[])

  const DELETED_COOK_DISPLAY_NAME := "Deleted cook"
  const SUBMITTED := "submitted"
  const CONTEXT := "context"

  // Stand for the two constant SHA-256 digests written into scrubbed rows.
  const DELETED_REPORT_FINGERPRINT := "sha256(deleted-account-report)"
  const DELETED_MODERATION_FINGERPRINT := "sha256(deleted-account-moderation-action)"

  /** The accounts being deleted, each with its deletion time. */
  type Deletions = map<Id, Timestamp>

  // ---- who a row belongs to ----

  predicate DraftOf(drafts: map<Id, Draft>, draft: Id, who: set<Id>) {
    draft in drafts && drafts[draft].author in who
  }

  predicate ActionOf(drafts: map<Id, Draft>, actions: map<Id, DraftAction>, action: Id, who: set<Id>) {
    action in actions && DraftOf(drafts, actions[action].draft, who)
  }

  predicate Cited(publications: map<Id, Publication>, preflight: Id) {
    exists v :: v in publications && publications[v].preflight == Some(preflight)
  }

  /** Evidence of these actors that no publication rests on. */
  predicate PrivatePreflight(preflights: map<Id, Preflight>, publications: map<Id, Publication>,
                             preflight: Id, who: set<Id>)
  {
    preflight in preflights && preflights[preflight].actor in who && !Cited(publications, preflight)
  }

  predicate PendingOf(requests: map<Id, Request>, request: Id, who: set<Id>) {
    request in requests && requests[request].requester in who && requests[request].status == Pending
  }

  predicate TerminalOf(requests: map<Id, Request>, request: Id, who: set<Id>) {
    request in requests && requests[request].requester in who && requests[request].status != Pending
  }

  predicate SessionOf(sessions: map<Id, Owned>, session: Id, who: set<Id>) {
    session in sessions && sessions[session].user in who
  }

  // ---- references between these tables, and the checks the purge can trip over ----

  /** Every foreign key between two of these tables points at an existing row with the same shared columns. */
  ghost predicate Resolves(db: Tables) {
    && DraftRowsResolve(db.drafts, db.draftCategories, db.draftIngredients, db.draftInstructions,
                        db.draftActions, db.draftInputs, db.draftMeasures)
    && EvidenceResolves(db.drafts, db.preflights, db.candidates, db.decisions, db.publications)
    && RequestsResolve(db.requests, db.draftIngredients, db.auditEvents)
    && SessionsResolve(db.sessions, db.loginTransactions, db.sandboxEntries)
  }

  /** The definition of `Resolves` and of the keys of evidence, for proofs that need no other definition. */
  lemma ResolvesMeans()
    ensures forall db :: Resolves(db) <==>
              && DraftRowsResolve(db.drafts, db.draftCategories, db.draftIngredients, db.draftInstructions,
                                  db.draftActions, db.draftInputs, db.draftMeasures)
              && EvidenceResolves(db.drafts, db.preflights, db.candidates, db.decisions, db.publications)
              && RequestsResolve(db.requests, db.draftIngredients, db.auditEvents)
              && SessionsResolve(db.sessions, db.loginTransactions, db.sandboxEntries)
    ensures forall db :: Resolves(db) ==> DecisionsResolve(db.preflights, db.decisions, db.publications)
  {}

  ghost predicate DraftRowsResolve(
    drafts: map<Id, Draft>, categories: map<(Id, Id), string>, ingredients: map<Id, DraftIngredient>,
    instructions: map<Id, DraftInstruction>, actions: map<Id, DraftAction>, inputs: map<Id, DraftInput>,
    measures: map<(Id, string), string>)
  {
    && (forall k :: k in categories ==> k.0 in drafts)
    && (forall k :: k in ingredients ==> ingredients[k].draft in drafts)
    && (forall k :: k in instructions ==> instructions[k].draft in drafts)
    && (forall k :: k in actions ==>
          actions[k].instruction in instructions && instructions[actions[k].instruction].draft == actions[k].draft)
    && (forall k :: k in inputs ==>
          && inputs[k].action in actions && actions[inputs[k].action].draft == inputs[k].draft
          && inputs[k].ingredient in ingredients && ingredients[inputs[k].ingredient].draft == inputs[k].draft)
    && (forall k :: k in measures ==> k.0 in actions)
  }

  ghost predicate RequestsResolve(requests: map<Id, Request>, ingredients: map<Id, DraftIngredient>,
                                  events: map<Id, AuditEvent>)
  {
    && (forall k :: k in ingredients && ingredients[k].request.Some? ==> ingredients[k].request.value in requests)
    && (forall k :: k in events ==> events[k].request in requests)
    && (forall k :: k in requests && requests[k].duplicateOf.Some? ==>
          requests[k].duplicateOf.value in requests && requests[k].status != Pending)
  }

  ghost predicate SessionsResolve(sessions: map<Id, Owned>, logins: map<Id, LoginTransaction>,
                                  entries: map<string, SandboxEntry>)
  {
    && (forall k :: k in logins && logins[k].boundSession.Some? ==> logins[k].boundSession.value in sessions)
    && (forall k :: k in entries ==> entries[k].session in sessions)
  }

  /** The keys between publications, drafts and duplicate evidence. */
  ghost predicate EvidenceResolves(
    drafts: map<Id, Draft>, preflights: map<Id, Preflight>, candidates: map<(Id, Id), string>,
    decisions: map<Id, Decision>, publications: map<Id, Publication>)
  {
    && (forall k :: k in candidates ==> k.0 in preflights)
    && (forall v :: v in publications && publications[v].sourceDraft.Some? ==>
          && publications[v].sourceDraft.value in drafts
          && drafts[publications[v].sourceDraft.value].author == publications[v].actor)
    && (forall v :: v in publications && publications[v].preflight.Some? ==>
          && publications[v].preflight.value in preflights
          && preflights[publications[v].preflight.value].actor == publications[v].actor)
    && DecisionsResolve(preflights, decisions, publications)
  }

  ghost predicate DecisionsResolve(preflights: map<Id, Preflight>, decisions: map<Id, Decision>,
      publications: map<Id, Publication>) {
    && (forall k :: k in decisions ==>
          && decisions[k].preflight in preflights
          && preflights[decisions[k].preflight].actor == decisions[k].actor)
    && (forall v :: v in publications && publications[v].decision.Some? ==>
          && publications[v].decision.value in decisions
          && publications[v].preflight == Some(decisions[publications[v].decision.value].preflight))
  }

  /** The shape the append-only triggers look for before they let evidence of an account go. */
  predicate IsTombstone(u: User) {
    && u.kind == Member && u.status == DeletedAccount && u.email.None? && u.handle.None?
    && u.displayName == DELETED_COOK_DISPLAY_NAME && u.deletedAt.Some?
  }

  predicate Tombstoned(users: map<Id, User>, user: Id) {
    user in users && IsTombstone(users[user])
  }
}
