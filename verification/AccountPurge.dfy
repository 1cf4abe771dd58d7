/**
 * The purge as the ordered program it is: one statement at a time on the shared tables, each statement
 * evaluating its sub-selects on what the earlier ones left, and each refusing what PostgreSQL would refuse:
 * a RESTRICT foreign key still in use, or an append-only trigger that does not let the row go.
 */
module AccountPurge {
  import opened Timestamps
  import opened AccountTables
  import opened AccountErasure
  import opened AccountStatements

  class Database {
    var tables: Tables
    /** The tables after each statement so far. */
    ghost var trail: seq<Tables>

    constructor (initial: Tables)
      ensures tables == initial && trail == []
    {
      tables, trail := initial, [];
    }

    /** One statement, the `k`th of those that leave `states`. */
    method Execute(next: Tables, ghost before: seq<Tables>, ghost states: seq<Tables>, ghost k: nat)
      requires k < |states| && next == states[k] && trail == before + states[..k]
      modifies this
      ensures tables == states[k] && trail == before + states[..k + 1]
    {
      tables, trail := next, trail + [next];
      assert states[..k + 1] == states[..k] + [next];
    }

    /** Recipes and drafts: rows below a draft first, then the drafts themselves. */
    method PurgeDrafts(user: Id, at: Timestamp) returns (ok: bool)
      modifies this
      ensures ok <==> !DraftsCited(old(tables).drafts, old(tables).publications, user)
      ensures ok ==> tables == WithoutDrafts(old(tables), map[user := at])
      ensures trail == old(trail) + DraftStatements(old(tables), user, at)[..if ok then 9 else 7]
      ensures ok ==> tables == DraftStatements(old(tables), user, at)[8]
    {
      hide Disowned, KeptCategories, KeptMeasures, KeptInputs, KeptActions, KeptInstructions, KeptIngredients,
           DraftsCited, UnpublishedDeleted, PublishedBlanked, ErasedDrafts, WithoutDrafts;
      var who := {user};
      assert (map[user := at]).Keys == who;
      ghost var before, states := trail, DraftStatements(tables, user, at);
      DraftStatementsEnd(tables, user, at);
      Execute(tables.(recipes := Disowned(tables.recipes, who)), before, states, 0);
      Execute(tables.(draftCategories := KeptCategories(tables.drafts, tables.draftCategories, who)),
              before, states, 1);
      Execute(tables.(draftMeasures := KeptMeasures(tables.drafts, tables.draftActions, tables.draftMeasures, who)),
              before, states, 2);
      Execute(tables.(draftInputs := KeptInputs(tables.drafts, tables.draftInputs, who)), before, states, 3);
      Execute(tables.(draftActions := KeptActions(tables.drafts, tables.draftActions, who)), before, states, 4);
      Execute(tables.(draftInstructions := KeptInstructions(tables.drafts, tables.draftInstructions, who)),
              before, states, 5);
      Execute(tables.(draftIngredients := KeptIngredients(tables.drafts, tables.draftIngredients, who)),
              before, states, 6);
      if DraftsCited(tables.drafts, tables.publications, user) { return false; }
      Execute(tables.(drafts := UnpublishedDeleted(tables.drafts, user)), before, states, 7);
      Execute(tables.(drafts := PublishedBlanked(tables.drafts, user, at)), before, states, 8);
      ok := true;
    }

    static lemma DraftStatementsEnd(db: Tables, user: Id, at: Timestamp)
      ensures var states := DraftStatements(db, user, at);
        && states[8] == WithoutDrafts(db, map[user := at])
        && states[6].drafts == db.drafts && states[6].publications == db.publications
    {
      hide Disowned, KeptCategories, KeptMeasures, KeptInputs, KeptActions, KeptInstructions, KeptIngredients,
           UnpublishedDeleted, PublishedBlanked, ErasedDrafts;
      assert (map[user := at]).Keys == {user};
      TwoStatements(db.drafts, user, at);
    }

    static lemma TwoStatements(drafts: map<Id, Draft>, user: Id, at: Timestamp)
      ensures PublishedBlanked(UnpublishedDeleted(drafts, user), user, at) == ErasedDrafts(drafts, map[user := at])
    {
      hide Blank;
    }

    /** Duplicate evidence without a publication: decisions and candidates, then the preflights they name. */
    method PurgeEvidence(user: Id) returns (ok: bool)
      modifies this
      ensures ok <==> EvidenceMayGo(old(tables).users, old(tables).preflights, old(tables).publications, user)
      ensures ok ==> tables == WithoutEvidence(old(tables), {user})
      ensures trail == old(trail) + EvidenceStatements(old(tables), {user})[..if ok then 3 else 0]
      ensures ok ==> tables == EvidenceStatements(old(tables), {user})[2]
    {
      hide KeptDecisions, KeptCandidates, KeptPreflights;
      var who := {user};
      if exists p :: p in tables.preflights && PrivatePreflight(tables.preflights, tables.publications, p, who)
           && !Tombstoned(tables.users, tables.preflights[p].actor) { return false; }
      ghost var before, states := trail, EvidenceStatements(tables, {user});
      Execute(tables.(decisions := KeptDecisions(tables.preflights, tables.publications, tables.decisions, who)),
              before, states, 0);
      Execute(tables.(candidates := KeptCandidates(tables.preflights, tables.publications, tables.candidates, who)),
              before, states, 1);
      Execute(tables.(preflights := KeptPreflights(tables.preflights, tables.publications, who)), before, states, 2);
      ok := true;
    }

    /** Catalog requests: pending ones go with their audit trail, reviewed ones lose their private context. */
    method PurgeRequests(user: Id, now: Timestamp) returns (ok: bool, ghost done: nat)
      modifies this
      ensures ok <==> && PendingEventsMayGo(old(tables).users, old(tables).requests, old(tables).auditEvents, user)
                      && !PendingCited(old(tables).requests, old(tables).draftIngredients, user)
                      && ContextsMayGo(old(tables).users, old(tables).requests, old(tables).auditEvents, user)
      ensures ok ==> tables == WithoutRequests(old(tables), {user}, now)
      ensures ok ==> tables == RequestStatements(old(tables), user, now)[3]
      ensures done <= 4 && trail == old(trail) + RequestStatements(old(tables), user, now)[..done]
      ensures (ok <==> done == 4)
                && (done > 1 ==> !PendingCited(old(tables).requests, old(tables).draftIngredients, user))
    {
      hide PendingEventsMayGo, PendingCited, ContextsMayGo, WithoutPending, PendingDeleted, ContextRemoved,
           ContextCleared, ErasedRequests, ErasedAuditEvents;
      ghost var before, states := trail, RequestStatements(tables, user, now);
      if !PendingEventsMayGo(tables.users, tables.requests, tables.auditEvents, user) { return false, 0; }
      Execute(tables.(auditEvents := WithoutPending(tables.requests, tables.auditEvents, user)), before, states, 0);
      if PendingCited(tables.requests, tables.draftIngredients, user) { return false, 1; }
      Execute(tables.(requests := PendingDeleted(tables.requests, user)), before, states, 1);
      RemainingContexts(tables.users, old(tables).requests, old(tables).auditEvents, user);
      if !ContextsMayGo(tables.users, tables.requests, tables.auditEvents, user) { return false, 2; }
      Execute(tables.(auditEvents := ContextRemoved(tables.requests, tables.auditEvents, user)), before, states, 2);
      Execute(tables.(requests := ContextCleared(tables.requests, user, now)), before, states, 3);
      FourStatements(old(tables).requests, old(tables).auditEvents, user, now);
      ok, done := true, 4;
    }

    static lemma RemainingContexts(users: map<Id, User>, requests: map<Id, Request>, rows: map<Id, AuditEvent>,
        user: Id)
      ensures ContextsMayGo(users, PendingDeleted(requests, user), WithoutPending(requests, rows, user), user)
         <==> ContextsMayGo(users, requests, rows, user)
    {
      var requests', rows' := PendingDeleted(requests, user), WithoutPending(requests, rows, user);
      forall r ensures TerminalOf(requests', r, {user}) <==> TerminalOf(requests, r, {user}) {
      }
      forall r | TerminalOf(requests, r, {user}) ensures !PendingOf(requests, r, {user}) {
      }
      hide TerminalOf, PendingOf, PendingDeleted, OwnSubmission;
      forall k | k in rows && TerminalOf(requests, rows[k].request, {user}) ensures k in rows' && rows'[k] == rows[k] {
      }
    }

    static lemma FourStatements(requests: map<Id, Request>, rows: map<Id, AuditEvent>, user: Id, now: Timestamp)
      ensures ContextCleared(PendingDeleted(requests, user), user, now) == ErasedRequests(requests, {user}, now)
      ensures ContextRemoved(PendingDeleted(requests, user), WithoutPending(requests, rows, user), user)
           == ErasedAuditEvents(requests, rows, {user})
    {
    }

    /** Marks, follows and reports. */
    method PurgeMarks(user: Id)
      modifies this
      ensures tables == MarkStatements(old(tables), {user})[4]
      ensures trail == old(trail) + MarkStatements(old(tables), {user})
    {
      hide KeptMarks, KeptOwned, KeptFollows, ScrubbedReports;
      var who := {user};
      ghost var before, states := trail, MarkStatements(tables, who);
      Execute(tables.(saves := KeptMarks(tables.saves, who)), before, states, 0);
      Execute(tables.(ratings := KeptMarks(tables.ratings, who)), before, states, 1);
      Execute(tables.(preferenceEvents := KeptOwned(tables.preferenceEvents, who)), before, states, 2);
      Execute(tables.(follows := KeptFollows(tables.follows, who)), before, states, 3);
      Execute(tables.(reports := ScrubbedReports(tables.reports, who)), before, states, 4);
    }

    /** Moderation notes, grants and sign-in state. */
    method PurgeSignIn(user: Id) returns (ok: bool)
      modifies this
      ensures ok <==> NotesMayGo(old(tables).users, old(tables).moderationEvents, user)
      ensures ok ==> tables == SignInStatements(old(tables), {user})[5]
      ensures trail == old(trail) + if ok then SignInStatements(old(tables), {user}) else []
    {
      hide KeptOwned, ScrubbedModeration, KeptBuckets, KeptGrants, NotesMayGo, WithoutSessions;
      var who := {user};
      if !NotesMayGo(tables.users, tables.moderationEvents, user) { return false; }
      ghost var before, states := trail, SignInStatements(tables, who);
      Execute(tables.(moderationEvents := ScrubbedModeration(tables.moderationEvents, who)), before, states, 0);
      Execute(tables.(buckets := KeptBuckets(tables.buckets, who)), before, states, 1);
      Execute(tables.(moderators := KeptGrants(tables.moderators, who)), before, states, 2);
      Execute(tables.(curators := KeptGrants(tables.curators, who)), before, states, 3);
      Execute(tables.(identities := KeptOwned(tables.identities, who)), before, states, 4);
      Execute(WithoutSessions(tables, who), before, states, 5);
      ok := true;
    }

    /** Everything else tied to the account: marks, follows, reports, notes, grants and sign-in state. */
    method PurgeAccess(user: Id) returns (ok: bool)
      modifies this
      ensures ok <==> NotesMayGo(old(tables).users, old(tables).moderationEvents, user)
      ensures ok ==> tables == WithoutAccess(old(tables), {user})
      ensures var marks := MarkStatements(old(tables), {user});
        trail == old(trail) + marks + if ok then SignInStatements(marks[4], {user}) else []
      ensures Resolves(old(tables)) ==> forall i :: |old(trail)| <= i < |trail| ==> Resolves(trail[i])
    {
      hide MarkStatements, SignInStatements, WithoutAccess, NotesMayGo, Resolves;
      AccessStatementsEnd(tables, {user});
      if Resolves(tables) {
        MarkStatementsResolve(tables, {user});
        SignInStatementsResolve(MarkStatements(tables, {user})[4], {user});
      }
      PurgeMarks(user);
      ok := PurgeSignIn(user);
    }

    /** Recipes, drafts and evidence. */
    method PurgeDocuments(user: Id, deletedAt: Timestamp) returns (ok: bool, ghost done: nat)
      requires Resolves(tables)
      modifies this
      ensures ok <==> && !DraftsCited(old(tables).drafts, old(tables).publications, user)
                      && EvidenceMayGo(old(tables).users, old(tables).preflights, old(tables).publications, user)
      ensures ok ==> tables == WithoutEvidence(WithoutDrafts(old(tables), map[user := deletedAt]), {user})
      ensures var drafts := DraftStatements(old(tables), user, deletedAt);
              var evidence := EvidenceStatements(drafts[8], {user});
        && done <= 12 && trail == old(trail) + (drafts + evidence)[..done] && (ok <==> done == 12)
        && (ok ==> tables == evidence[2] && Resolves(tables))
      ensures forall i :: |old(trail)| <= i < |trail| ==> Resolves(trail[i])
    {
      hide *;
      var before := tables;
      ErasureInGroups(before, user, deletedAt, deletedAt);
      DraftStatementsResolve(before, user, deletedAt);
      ghost var base, drafts := trail, DraftStatements(before, user, deletedAt);
      ok := PurgeDrafts(user, deletedAt);
      if !ok { return false, 7; }
      ghost var evidence := EvidenceStatements(tables, {user});
      EvidenceStatementsResolve(tables, {user});
      ok := PurgeEvidence(user);
      done := if ok then 12 else 9;
      assert drafts[..9] == drafts;
      assert (drafts + evidence)[..done] == drafts + evidence[..if ok then 3 else 0];
    }

    /**
     * `purge_member_private_data`. It goes through exactly when `MayErase` holds, and then leaves exactly the
     * erased tables; otherwise the transaction is rolled back. Every reference resolves after every statement.
     */
    method Purge(user: Id, deletedAt: Timestamp, now: Timestamp) returns (ok: bool)
      requires Resolves(tables)
      modifies this
      ensures ok <==> MayErase(old(tables), user)
      ensures tables == if ok then Erased(old(tables), map[user := deletedAt], now) else old(tables)
      ensures exists n :: 0 <= n <= 27 && (ok <==> n == 27)
                && trail == old(trail) + PurgeStatements(old(tables), user, deletedAt, now)[..n]
      ensures old(trail) <= trail && forall i :: |old(trail)| <= i < |trail| ==> Resolves(trail[i])
    {
      hide *;
      var before := tables;
      MayEraseMeans();
      ErasureInGroups(before, user, deletedAt, now);
      FirstStatements(before, user, deletedAt, now);
      ghost var base, all := trail, PurgeStatements(before, user, deletedAt, now);
      ghost var done;
      ok, done := PurgeDocuments(user, deletedAt);
      assert trail == base + all[..done];
      if !ok {
        tables := before;
        return;
      }
      RequestStatementsResolve(tables, user, now);
      ok, done := PurgeRequests(user, now);
      assert trail == base + all[..12 + done];
      if !ok {
        tables := before;
        return;
      }
      ok := PurgeAccess(user);
      assert trail == base + all[..if ok then 27 else 21];
      if !ok { tables := before; }
    }
  }
}
