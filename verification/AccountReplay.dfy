/** Replaying a prepared ledger of deletions into a restored database. */
module AccountReplay {
  import opened Outcomes
  import opened Timestamps
  import opened DeletionLedgers
  import opened AccountTables
  import opened AccountChecks
  import opened AccountErasure
  import opened AccountVerifier
  import opened AccountPurge
  import opened AccountStatements
  import opened AccountReferences

  datatype Standing = Absent | Deletable | AlreadyDeleted | Refused

  /** What `_lock_and_classify_replay_user` finds for one entry. */
  function StandingOf(users: map<Id, User>, user: Id): Standing {
    if user !in users then Absent
    else if users[user].kind != Member then Refused
    else if users[user].status == DeletedAccount then AlreadyDeleted
    else Deletable
  }

  function Tombstone(u: User, at: Timestamp, now: Timestamp): User {
    u.(status := DeletedAccount, deletedAt := Some(at), email := None, handle := None,
       displayName := DELETED_COOK_DISPLAY_NAME, profileDescription := None, updatedAt := now)
  }

  function WithTombstones(users: map<Id, User>, who: Deletions, now: Timestamp): map<Id, User> {
    map k | k in users :: if k in who then Tombstone(users[k], who[k], now) else users[k]
  }

  /** The database after these accounts are deleted: tombstones for the users, and their private data erased. */
  function Deleted(db: Tables, who: Deletions, now: Timestamp): Tables {
    Erased(WithUsers(db, WithTombstones(db.users, who, now)), who, now)
  }

  function WithUsers(db: Tables, users: map<Id, User>): Tables { db.(users := users) }

  // ---- what the application keeps true, under which no purge is refused ----

  ghost predicate SourcesPublished(drafts: map<Id, Draft>, publications: map<Id, Publication>) {
    forall v :: v in publications && publications[v].sourceDraft.Some?
                && publications[v].sourceDraft.value in drafts ==>
      drafts[publications[v].sourceDraft.value].status == PublishedDraft
  }

  ghost predicate OwnRequestsOnly(drafts: map<Id, Draft>, ingredients: map<Id, DraftIngredient>,
                                  requests: map<Id, Request>)
  {
    forall k :: k in ingredients && ingredients[k].request.Some? && ingredients[k].request.value in requests
                && ingredients[k].draft in drafts ==>
      requests[ingredients[k].request.value].requester == drafts[ingredients[k].draft].author
  }

  ghost predicate NoPendingDuplicates(requests: map<Id, Request>) {
    forall k :: k in requests && requests[k].duplicateOf.Some? && requests[k].duplicateOf.value in requests ==>
      requests[requests[k].duplicateOf.value].status != Pending
  }

  ghost predicate OwnSubmissions(requests: map<Id, Request>, rows: map<Id, AuditEvent>) {
    forall k :: k in rows && rows[k].request in requests ==>
      && (requests[rows[k].request].status == Pending ==> rows[k].eventType == SUBMITTED)
      && (rows[k].eventType == SUBMITTED ==> rows[k].actor == requests[rows[k].request].requester)
  }

  /** Submissions are recorded with a context; it goes only with the account. */
  ghost predicate ContextsRecorded(users: map<Id, User>, requests: map<Id, Request>, rows: map<Id, AuditEvent>) {
    forall k :: k in rows && rows[k].request in requests && rows[k].eventType == SUBMITTED
                && StandingOf(users, requests[rows[k].request].requester) != AlreadyDeleted ==>
      CONTEXT in rows[k].payload
  }

  ghost predicate Orderly(db: Tables) {
    && SourcesPublished(db.drafts, db.publications)
    && OwnRequestsOnly(db.drafts, db.draftIngredients, db.requests)
    && NoPendingDuplicates(db.requests)
    && OwnSubmissions(db.requests, db.auditEvents)
    && ContextsRecorded(db.users, db.requests, db.auditEvents)
  }

  /** Definitions for proofs that need no other definition. */
  lemma OrderlyMeans()
    ensures forall db :: Orderly(db) <==>
              && SourcesPublished(db.drafts, db.publications)
              && OwnRequestsOnly(db.drafts, db.draftIngredients, db.requests)
              && NoPendingDuplicates(db.requests)
              && OwnSubmissions(db.requests, db.auditEvents)
              && ContextsRecorded(db.users, db.requests, db.auditEvents)
  {}

  lemma WithUsersMeans()
    ensures forall db, users :: WithUsers(db, users) == db.(users := users)
  {}

  lemma DeletedMeans()
    ensures forall db, who, now :: Deleted(db, who, now)
              == Erased(WithUsers(db, WithTombstones(db.users, who, now)), who, now)
  {}

  lemma CitationsAreOwn(drafts: map<Id, Draft>, ingredients: map<Id, DraftIngredient>, requests: map<Id, Request>,
      user: Id)
    requires OwnRequestsOnly(drafts, ingredients, requests) && NoPendingDuplicates(requests)
    requires forall k :: k in ingredients ==> ingredients[k].draft in drafts
    ensures !PendingCited(requests, KeptIngredients(drafts, ingredients, {user}), user)
  {
  }

  lemma TombstoneLetsGo(users: map<Id, User>, requests: map<Id, Request>, rows: map<Id, AuditEvent>, user: Id,
      at: Timestamp, now: Timestamp)
    requires OwnSubmissions(requests, rows) && ContextsRecorded(users, requests, rows)
    requires StandingOf(users, user) == Deletable
    ensures var after := WithTombstones(users, map[user := at], now);
      Tombstoned(after, user) && PendingEventsMayGo(after, requests, rows, user)
          && ContextsMayGo(after, requests, rows, user)
  {
    assert Tombstoned(WithTombstones(users, map[user := at], now), user);
    hide WithTombstones, Tombstoned;
  }

  lemma OrderlyAllowsPurge(db: Tables, user: Id, at: Timestamp, now: Timestamp)
    requires Resolves(db) && Orderly(db) && StandingOf(db.users, user) == Deletable
    ensures MayDelete(db, user, at, now)
  {
    CitationsAreOwn(db.drafts, db.draftIngredients, db.requests, user);
    TombstoneLetsGo(db.users, db.requests, db.auditEvents, user, at, now);
    hide KeptIngredients, PendingCited, WithTombstones, Tombstoned, PendingEventsMayGo, ContextsMayGo;
  }

  lemma SourcesStayPublished(drafts: map<Id, Draft>, publications: map<Id, Publication>, who: Deletions)
    requires SourcesPublished(drafts, publications)
    ensures SourcesPublished(ErasedDrafts(drafts, who), publications)
  {}

  lemma DuplicatesStay(requests: map<Id, Request>, user: Id, now: Timestamp)
    requires NoPendingDuplicates(requests)
    ensures NoPendingDuplicates(ErasedRequests(requests, {user}, now))
  {}

  lemma SubmissionsStay(requests: map<Id, Request>, rows: map<Id, AuditEvent>, user: Id, now: Timestamp)
    requires OwnSubmissions(requests, rows)
    ensures OwnSubmissions(ErasedRequests(requests, {user}, now), ErasedAuditEvents(requests, rows, {user}))
  {}

  lemma OwnRequestsStay(db: Tables, user: Id, at: Timestamp, now: Timestamp)
    requires OwnRequestsOnly(db.drafts, db.draftIngredients, db.requests)
    ensures OwnRequestsOnly(ErasedDrafts(db.drafts, map[user := at]),
              KeptIngredients(db.drafts, db.draftIngredients, {user}),
                            ErasedRequests(db.requests, {user}, now))
  {
  }

  lemma ContextsStay(users: map<Id, User>, requests: map<Id, Request>, rows: map<Id, AuditEvent>, user: Id,
      at: Timestamp, now: Timestamp)
    requires ContextsRecorded(users, requests, rows) && StandingOf(users, user) == Deletable
    ensures ContextsRecorded(WithTombstones(users, map[user := at], now), ErasedRequests(requests, {user}, now),
                             ErasedAuditEvents(requests, rows, {user}))
  {
    var after := WithTombstones(users, map[user := at], now);
    assert StandingOf(after, user) == AlreadyDeleted;
    forall u | u != user ensures StandingOf(after, u) == StandingOf(users, u) {
    }
    hide WithTombstones, StandingOf;
  }

  /** Deleting one account keeps the database orderly and its references resolved, so the next one can go. */
  lemma OrderlyStays(db: Tables, user: Id, at: Timestamp, now: Timestamp)
    requires Resolves(db) && Orderly(db) && StandingOf(db.users, user) == Deletable
    ensures Orderly(Deleted(db, map[user := at], now)) && Resolves(Deleted(db, map[user := at], now))
  {
    hide *;
    OrderlyMeans();
    WithUsersMeans();
    DeletedMeans();
    var before := WithUsers(db, WithTombstones(db.users, map[user := at], now));
    assert (map[user := at]).Keys == {user};
    OrderlyAllowsPurge(db, user, at, now);
    ErasedTables(before, map[user := at], now);
    SourcesStayPublished(db.drafts, db.publications, map[user := at]);
    DuplicatesStay(db.requests, user, now);
    SubmissionsStay(db.requests, db.auditEvents, user, now);
    OwnRequestsStay(db, user, at, now);
    ContextsStay(db.users, db.requests, db.auditEvents, user, at, now);
    ReferencesAfterTombstone(db, user, at, now);
  }

  // ---- the ledger seen from the database ----

  /** No account is listed twice. */
  ghost predicate Distinct(entries: seq<Entry>) {
    forall i, j :: 0 <= i < j < |entries| ==> entries[i].userId != entries[j].userId
  }

  /** The entries whose account stands like this, in ledger order. */
  function MembersIn(users: map<Id, User>, entries: seq<Entry>, standing: Standing): seq<(Id, Timestamp)> {
    if entries == [] then []
    else
      var e := entries[|entries| - 1];
      MembersIn(users, entries[..|entries| - 1], standing)
      + (if StandingOf(users, e.userId) == standing then [(e.userId, e.deletedAt)] else [])
  }

  /** The accounts a replay deletes. */
  function DeletionsIn(users: map<Id, User>, entries: seq<Entry>): Deletions {
    if entries == [] then map[]
    else
      var e := entries[|entries| - 1];
      var earlier := DeletionsIn(users, entries[..|entries| - 1]);
      if StandingOf(users, e.userId) == Deletable then earlier[e.userId := e.deletedAt] else earlier
  }

  ghost predicate Listed(users: map<Id, User>, entries: seq<Entry>, standing: Standing, m: (Id, Timestamp)) {
    && StandingOf(users, m.0) == standing
    && exists i :: 0 <= i < |entries| && entries[i].userId == m.0 && entries[i].deletedAt == m.1
  }

  lemma {:induction false} MembersAreListed(users: map<Id, User>, entries: seq<Entry>, standing: Standing)
    ensures forall m :: m in MembersIn(users, entries, standing) <==> Listed(users, entries, standing, m)
  {
    if entries != [] {
      var n := |entries| - 1;
      MembersAreListed(users, entries[..n], standing);
      forall m ensures Listed(users, entries, standing, m)
                  <==> Listed(users, entries[..n], standing, m)
                       || (m == (entries[n].userId, entries[n].deletedAt) && StandingOf(users, m.0) == standing)
      {
        if Listed(users, entries, standing, m) {
          var i :| 0 <= i < |entries| && entries[i].userId == m.0 && entries[i].deletedAt == m.1;
          if i < n { assert entries[..n][i] == entries[i]; }
        }
        if Listed(users, entries[..n], standing, m) {
          var i :| 0 <= i < n && entries[..n][i].userId == m.0 && entries[..n][i].deletedAt == m.1;
          assert entries[i] == entries[..n][i];
        }
      }
      hide StandingOf, Listed;
    }
  }

  /** In an increasing ledger no account is listed twice. */
  lemma {:induction false} MembersAreDistinct(users: map<Id, User>, entries: seq<Entry>, standing: Standing)
    requires Increasing(entries)
    ensures forall i, j :: 0 <= i < j < |MembersIn(users, entries, standing)| ==>
              MembersIn(users, entries, standing)[i].0 < MembersIn(users, entries, standing)[j].0
    ensures entries != [] ==> forall i :: 0 <= i < |MembersIn(users, entries, standing)| ==>
              MembersIn(users, entries, standing)[i].0 <= entries[|entries| - 1].userId
  {
    hide StandingOf;
    if entries != [] {
      var n := |entries| - 1;
      var before := entries[..n];
      MembersAreDistinct(users, before, standing);
      var earlier := MembersIn(users, before, standing);
      forall i | 0 <= i < |earlier| ensures earlier[i].0 < entries[n].userId {
        assert before != [];
        assert before[n - 1] == entries[n - 1];
      }
    }
  }

  lemma {:induction false} DeletionIsListed(users: map<Id, User>, entries: seq<Entry>, u: Id) returns (i: nat)
    requires u in DeletionsIn(users, entries)
    ensures i < |entries| && entries[i].userId == u && StandingOf(users, u) == Deletable
  {
    hide StandingOf;
    var n := |entries| - 1;
    if entries[n].userId == u && StandingOf(users, u) == Deletable {
      i := n;
    } else {
      i := DeletionIsListed(users, entries[..n], u);
    }
  }

  lemma {:induction false} ListedIsDeleted(users: map<Id, User>, entries: seq<Entry>, i: nat)
    requires Distinct(entries) && i < |entries| && StandingOf(users, entries[i].userId) == Deletable
    ensures entries[i].userId in DeletionsIn(users, entries)
    ensures DeletionsIn(users, entries)[entries[i].userId] == entries[i].deletedAt
  {
    hide StandingOf;
    var n := |entries| - 1;
    if i < n { ListedIsDeleted(users, entries[..n], i); }
  }

  lemma DeletionsAreListed(users: map<Id, User>, entries: seq<Entry>)
    requires Distinct(entries)
    ensures forall u :: u in DeletionsIn(users, entries) <==>
              exists i :: 0 <= i < |entries| && entries[i].userId == u && StandingOf(users, u) == Deletable
    ensures forall i :: 0 <= i < |entries| && StandingOf(users, entries[i].userId) == Deletable ==>
              DeletionsIn(users, entries)[entries[i].userId] == entries[i].deletedAt
  {
    hide StandingOf, DeletionsIn, Distinct;
    forall u | u in DeletionsIn(users, entries)
      ensures exists i :: 0 <= i < |entries| && entries[i].userId == u && StandingOf(users, u) == Deletable
    {
      var i := DeletionIsListed(users, entries, u);
    }
    forall i | 0 <= i < |entries| && StandingOf(users, entries[i].userId) == Deletable
      ensures entries[i].userId in DeletionsIn(users, entries)
      ensures DeletionsIn(users, entries)[entries[i].userId] == entries[i].deletedAt
    {
      ListedIsDeleted(users, entries, i);
    }
  }

  lemma DeletionsAreMembers(users: map<Id, User>, entries: seq<Entry>)
    requires Increasing(entries)
    ensures UserIds(MembersIn(users, entries, Deletable)) == DeletionsIn(users, entries).Keys
    ensures forall m :: m in MembersIn(users, entries, Deletable) ==> DeletionsIn(users, entries)[m.0] == m.1
  {
    var ms := MembersIn(users, entries, Deletable);
    MembersAreListed(users, entries, Deletable);
    DeletionsAreListed(users, entries);
    forall m | m in ms ensures m.0 in DeletionsIn(users, entries) && DeletionsIn(users, entries)[m.0] == m.1 {
      var i :| 0 <= i < |entries| && entries[i].userId == m.0 && entries[i].deletedAt == m.1;
    }
    forall u | u in DeletionsIn(users, entries) ensures u in UserIds(ms) {
      var i :| 0 <= i < |entries| && entries[i].userId == u && StandingOf(users, u) == Deletable;
      assert (u, entries[i].deletedAt) in ms;
      var j :| 0 <= j < |ms| && ms[j] == (u, entries[i].deletedAt);
    }
    forall u | u in UserIds(ms) ensures u in DeletionsIn(users, entries) {
      var j :| 0 <= j < |ms| && ms[j].0 == u;
      assert ms[j] in ms;
    }
  }

  // ---- the outcome of a replay ----

  datatype ReplayResult = ReplayResult(absent: nat, alreadyDeleted: nat, replayed: nat)

  function Tally(users: map<Id, User>, entries: seq<Entry>): ReplayResult {
    ReplayResult(|MembersIn(users, entries, Absent)|, |MembersIn(users, entries, AlreadyDeleted)|,
                 |MembersIn(users, entries, Deletable)|)
  }

  /** Every entry can be handled, and the accounts deleted before are intact tombstones. */
  predicate Replayable(db: Tables, entries: seq<Entry>) {
    && (forall i :: 0 <= i < |entries| ==> StandingOf(db.users, entries[i].userId) != Refused)
    && Verified(db, MembersIn(db.users, entries, AlreadyDeleted))
  }

  function Replayed(db: Tables, entries: seq<Entry>, now: Timestamp): Tables {
    Deleted(db, DeletionsIn(db.users, entries), now)
  }

  /** What is left when the `i`th entry's turn comes. */
  function LeftSoFar(db: Tables, entries: seq<Entry>, i: nat, now: Timestamp): Tables
    requires i <= |entries|
  {
    Deleted(db, DeletionsIn(db.users, entries[..i]), now)
  }

  /** The purge of this account is let through, with its tombstone already written. */
  predicate MayDelete(db: Tables, user: Id, at: Timestamp, now: Timestamp) {
    MayErase(WithUsers(db, WithTombstones(db.users, map[user := at], now)), user)
  }

  /** Every account to be deleted may go when its turn comes. */
  ghost predicate InTurn(db: Tables, entries: seq<Entry>, now: Timestamp) {
    forall i :: 0 <= i < |entries| && StandingOf(db.users, entries[i].userId) == Deletable ==>
      MayDelete(LeftSoFar(db, entries, i, now), entries[i].userId, entries[i].deletedAt, now)
  }

  /** Every entry is counted once. */
  lemma {:induction false} TallyCountsEveryEntry(users: map<Id, User>, entries: seq<Entry>)
    requires forall i :: 0 <= i < |entries| ==> StandingOf(users, entries[i].userId) != Refused
    ensures var t := Tally(users, entries); t.absent + t.alreadyDeleted + t.replayed == |entries|
  {
    if entries != [] { TallyCountsEveryEntry(users, entries[..|entries| - 1]); }
  }

  lemma ErasedForOtherUsers(db: Tables, users: map<Id, User>, others: map<Id, User>, who: Deletions, now: Timestamp)
    ensures var erased := Erased(WithUsers(db, users), who, now);
      erased.users == users && WithUsers(erased, others) == Erased(WithUsers(db, others), who, now)
  {
    hide Erased, WithUsers;
    UsersReplaced(db, users, others);
    ErasureIgnoresUsers(WithUsers(db, users), others, who, now);
  }

  /** One more account on top of those already deleted. */
  lemma DeletedStep(db: Tables, who: Deletions, user: Id, at: Timestamp, now: Timestamp)
    requires user !in who
    ensures Deleted(Deleted(db, who, now), map[user := at], now) == Deleted(db, who[user := at], now)
  {
    hide Erased, WithTombstones, WithUsers;
    var one := map[user := at];
    var earlier, all := WithTombstones(db.users, who, now), WithTombstones(db.users, who[user := at], now);
    UsersStep(db.users, who, user, at, now);
    ErasedForOtherUsers(db, earlier, all, who, now);
    ErasedRoundsCompose(WithUsers(db, all), who, one, now);
    assert who + one == who[user := at];
  }

  lemma UsersReplaced(db: Tables, first: map<Id, User>, second: map<Id, User>)
    ensures WithUsers(db, first).users == first
    ensures WithUsers(WithUsers(db, first), second) == WithUsers(db, second)
  {
  }

  lemma UsersStep(users: map<Id, User>, who: Deletions, user: Id, at: Timestamp, now: Timestamp)
    requires user !in who
    ensures WithTombstones(WithTombstones(users, who, now), map[user := at], now)
              == WithTombstones(users, who[user := at], now)
  {
  }

  lemma GroupsIgnoreUsers(db: Tables, users: map<Id, User>, who: Deletions, ids: set<Id>, now: Timestamp)
    ensures WithoutDrafts(db, who).users == db.users
    ensures WithoutEvidence(db, ids).users == db.users
    ensures WithoutRequests(db, ids, now).users == db.users
    ensures WithoutAccess(db, ids).users == db.users
    ensures WithoutDrafts(WithUsers(db, users), who) == WithUsers(WithoutDrafts(db, who), users)
    ensures WithoutEvidence(WithUsers(db, users), ids) == WithUsers(WithoutEvidence(db, ids), users)
    ensures WithoutRequests(WithUsers(db, users), ids, now) == WithUsers(WithoutRequests(db, ids, now), users)
    ensures WithoutAccess(WithUsers(db, users), ids) == WithUsers(WithoutAccess(db, ids), users)
  {}

  lemma ErasureIgnoresUsers(db: Tables, users: map<Id, User>, who: Deletions, now: Timestamp)
    ensures Erased(db, who, now).users == db.users
    ensures Erased(WithUsers(db, users), who, now) == WithUsers(Erased(db, who, now), users)
  {
    hide WithoutDrafts, WithoutEvidence, WithoutRequests, WithoutAccess, WithUsers;
    var a := WithoutDrafts(db, who);
    var b := WithoutEvidence(a, who.Keys);
    var c := WithoutRequests(b, who.Keys, now);
    GroupsIgnoreUsers(db, users, who, who.Keys, now);
    GroupsIgnoreUsers(a, users, who, who.Keys, now);
    GroupsIgnoreUsers(b, users, who, who.Keys, now);
    GroupsIgnoreUsers(c, users, who, who.Keys, now);
  }

  // ---- deleting nobody ----

  lemma NobodysDrafts(db: Tables)
    ensures Disowned(db.recipes, {}) == db.recipes && ErasedDrafts(db.drafts, map[]) == db.drafts
    ensures KeptCategories(db.drafts, db.draftCategories, {}) == db.draftCategories
    ensures KeptIngredients(db.drafts, db.draftIngredients, {}) == db.draftIngredients
    ensures KeptInstructions(db.drafts, db.draftInstructions, {}) == db.draftInstructions
  {
  }

  lemma NobodysRows(db: Tables)
    ensures KeptActions(db.drafts, db.draftActions, {}) == db.draftActions
    ensures KeptInputs(db.drafts, db.draftInputs, {}) == db.draftInputs
    ensures KeptMeasures(db.drafts, db.draftActions, db.draftMeasures, {}) == db.draftMeasures
    ensures KeptPreflights(db.preflights, db.publications, {}) == db.preflights
    ensures KeptCandidates(db.preflights, db.publications, db.candidates, {}) == db.candidates
    ensures KeptDecisions(db.preflights, db.publications, db.decisions, {}) == db.decisions
  {
  }

  lemma NobodysRequests(db: Tables, now: Timestamp)
    ensures ErasedRequests(db.requests, {}, now) == db.requests
    ensures ErasedAuditEvents(db.requests, db.auditEvents, {}) == db.auditEvents
    ensures KeptMarks(db.saves, {}) == db.saves && KeptMarks(db.ratings, {}) == db.ratings
    ensures KeptFollows(db.follows, {}) == db.follows && KeptOwned(db.preferenceEvents, {}) == db.preferenceEvents
  {
  }

  lemma NobodysAccess(db: Tables)
    ensures ScrubbedReports(db.reports, {}) == db.reports
    ensures ScrubbedModeration(db.moderationEvents, {}) == db.moderationEvents
    ensures KeptBuckets(db.buckets, {}) == db.buckets && KeptGrants(db.moderators, {}) == db.moderators
    ensures KeptGrants(db.curators, {}) == db.curators && KeptOwned(db.identities, {}) == db.identities
    ensures KeptOwned(db.sessions, {}) == db.sessions
    ensures KeptLogins(db.sessions, db.loginTransactions, {}) == db.loginTransactions
    ensures KeptEntries(db.sessions, db.sandboxEntries, {}) == db.sandboxEntries
  {
  }

  lemma NoTombstones(users: map<Id, User>, now: Timestamp)
    ensures WithTombstones(users, map[], now) == users
  {}

  lemma DeletingNobody(db: Tables, now: Timestamp)
    ensures Deleted(db, map[], now) == db
  {
    hide *;
    var nobody: Deletions := map[];
    assert nobody.Keys == {};
    NoTombstones(db.users, now);
    WithUsersMeans();
    DeletedMeans();
    ErasedTables(db, nobody, now);
    NobodysDrafts(db);
    NobodysRows(db);
    NobodysRequests(db, now);
    NobodysAccess(db);
  }

  // ---- the programs ----

  /** `tombstone_member_from_durable_deletion_evidence`: the user row first, since the triggers look at it. */
  method TombstoneMember(db: Database, user: Id, deletedAt: Timestamp, now: Timestamp) returns (ok: bool)
    requires Resolves(db.tables)
    modifies db
    ensures ok <==> && StandingOf(old(db.tables).users, user) == Deletable
                    && MayDelete(old(db.tables), user, deletedAt, now)
    ensures db.tables == if ok then Deleted(old(db.tables), map[user := deletedAt], now) else old(db.tables)
  {
    hide Erased, MayErase, Resolves, WithTombstones, WithUsers;
    var before := db.tables;
    if StandingOf(db.tables.users, user) != Deletable { return false; }
    var row := Tombstone(db.tables.users[user], deletedAt, now);
    db.tables := WithUsers(db.tables, db.tables.users[user := row]);
    OneTombstone(before.users, user, deletedAt, now);
    ResolvesIgnoresUsers(before, db.tables.users);
    UsersReplaced(before, before.users[user := row], before.users);
    ok := db.Purge(user, deletedAt, now);
    if !ok { db.tables := before; }
  }

  lemma OneTombstone(users: map<Id, User>, user: Id, at: Timestamp, now: Timestamp)
    requires user in users
    ensures users[user := Tombstone(users[user], at, now)] == WithTombstones(users, map[user := at], now)
  {
  }

  lemma ResolvesIgnoresUsers(db: Tables, users: map<Id, User>)
    ensures Resolves(WithUsers(db, users)) == Resolves(db)
  {
    hide DraftRowsResolve, EvidenceResolves, RequestsResolve, SessionsResolve;
  }

  /**
   * `replay_deletion_ledger`, run as one transaction. It returns a result exactly when the database is the expected
   * one, its earlier deletions verify and every other member of the ledger may go when its turn comes; the members
   * are then deleted and the counts are those of the old database. Otherwise nothing has changed. In an orderly
   * database every member may go.
   */
  method ReplayDeletionLedger(db: Database, ledger: Ledger, now: Timestamp, databaseName: string, expectedName: string)
    returns (r: Option<ReplayResult>)
    requires WellFormed(ledger) && Resolves(db.tables)
    modifies db
    ensures r.Some? <==> && 1 <= |expectedName| <= 63 && databaseName == expectedName
                         && Replayable(old(db.tables), ledger.deletions)
                         && InTurn(old(db.tables), ledger.deletions, now)
    ensures Orderly(old(db.tables)) ==> InTurn(old(db.tables), ledger.deletions, now)
    ensures r.None? ==> db.tables == old(db.tables)
    ensures r.Some? ==> && db.tables == Replayed(old(db.tables), ledger.deletions, now)
                        && r.value == Tally(old(db.tables).users, ledger.deletions)
  {
    hide InTurn, Resolves, Orderly, Deleted, MembersIn, DeletionsIn, Verified, StandingOf;
    var entries, before := ledger.deletions, db.tables;
    if Orderly(before) { OrderlyGoInTurn(before, entries, now); }
    if !(1 <= |expectedName| <= 63) || databaseName != expectedName { return None; }
    var standings: seq<Standing> := [];
    for i := 0 to |entries|
      invariant |standings| == i
      invariant forall k :: 0 <= k < i ==> standings[k] == StandingOf(before.users, entries[k].userId) != Refused
    {
      var standing := StandingOf(db.tables.users, entries[i].userId);
      if standing == Refused { return None; }
      standings := standings + [standing];
    }
    if !Verified(db.tables, MembersIn(db.tables.users, entries, AlreadyDeleted)) { return None; }
    var ok, tally := ReplayEntries(db, entries, standings, now);
    if !ok { db.tables := before; return None; }
    ReplayedAreVerified(before, entries, now);
    var verified := Verified(db.tables, MembersIn(before.users, entries, Deletable));
    db.tables := if verified then db.tables else before;
    r := if verified then Some(tally) else None;
  }

  /** The loop over the classified entries, in whatever order they come. */
  method ReplayEntries(db: Database, entries: seq<Entry>, standings: seq<Standing>, now: Timestamp)
    returns (ok: bool, tally: ReplayResult)
    requires Distinct(entries) && Resolves(db.tables)
    requires |standings| == |entries|
    requires forall k :: 0 <= k < |entries| ==>
            standings[k] == StandingOf(db.tables.users, entries[k].userId) != Refused
    modifies db
    ensures ok <==> InTurn(old(db.tables), entries, now)
    ensures ok ==> && db.tables == Replayed(old(db.tables), entries, now)
                   && tally == Tally(old(db.tables).users, entries)
  {
    hide Erased, MayDelete, Resolves, WithTombstones, Deleted, StandingOf, DeletionsIn, MembersIn, Tally;
    var before := db.tables;
    var absent, alreadyDeleted, replayed := 0, 0, 0;
    NothingYet(before, entries, now);
    for i := 0 to |entries|
      invariant db.tables == LeftSoFar(before, entries, i, now) && Resolves(db.tables)
      invariant forall k :: 0 <= k < i && StandingOf(before.users, entries[k].userId) == Deletable ==>
              MayDelete(LeftSoFar(before, entries, k, now), entries[k].userId, entries[k].deletedAt, now)
      invariant ReplayResult(absent, alreadyDeleted, replayed) == Tally(before.users, entries[..i])
    {
      PrefixStep(before.users, entries, i);
      if standings[i] == Absent {
        absent := absent + 1;
      } else if standings[i] == AlreadyDeleted {
        alreadyDeleted := alreadyDeleted + 1;
      } else {
        StillDeletable(before, entries, i, now);
        ok := TombstoneMember(db, entries[i].userId, entries[i].deletedAt, now);
        if !ok { return false, ReplayResult(absent, alreadyDeleted, replayed); }
        ReferencesAfterTombstone(LeftSoFar(before, entries, i, now), entries[i].userId, entries[i].deletedAt, now);
        DeletedStep(before, DeletionsIn(before.users, entries[..i]), entries[i].userId, entries[i].deletedAt, now);
        replayed := replayed + 1;
      }
    }
    assert entries[..|entries|] == entries;
    ok, tally := true, ReplayResult(absent, alreadyDeleted, replayed);
  }

  /** In an orderly database the accounts may go in every order, one after the other. */
  lemma OrderlyGoInTurn(db: Tables, entries: seq<Entry>, now: Timestamp)
    requires Orderly(db) && Resolves(db) && Distinct(entries)
    ensures InTurn(db, entries, now)
  {
    hide Erased, MayDelete, Resolves, Orderly, WithTombstones, Deleted, StandingOf, DeletionsIn, LeftSoFar;
    forall i | 0 <= i < |entries| && StandingOf(db.users, entries[i].userId) == Deletable
      ensures MayDelete(LeftSoFar(db, entries, i, now), entries[i].userId, entries[i].deletedAt, now)
    {
      OrderlyPrefix(db, entries, i, now);
      OrderlyAllowsPurge(LeftSoFar(db, entries, i, now), entries[i].userId, entries[i].deletedAt, now);
    }
  }

  /** What one entry changes of what is left. */
  lemma LeftNext(db: Tables, entries: seq<Entry>, i: nat, now: Timestamp)
    requires Distinct(entries) && i < |entries|
    ensures var left, e := LeftSoFar(db, entries, i, now), entries[i];
      && LeftSoFar(db, entries, i + 1, now)
         == (if StandingOf(db.users, e.userId) == Deletable then Deleted(left, map[e.userId := e.deletedAt], now)
             else left)
      && StandingOf(left.users, e.userId) == StandingOf(db.users, e.userId)
  {
    hide Deleted, StandingOf, DeletionsIn, Tally;
    PrefixStep(db.users, entries, i);
    StillDeletable(db, entries, i, now);
    if StandingOf(db.users, entries[i].userId) == Deletable {
      DeletedStep(db, DeletionsIn(db.users, entries[..i]), entries[i].userId, entries[i].deletedAt, now);
    }
  }

  lemma {:induction false} OrderlyPrefix(db: Tables, entries: seq<Entry>, i: nat, now: Timestamp)
    requires Orderly(db) && Resolves(db) && Distinct(entries) && i <= |entries|
    ensures var left := LeftSoFar(db, entries, i, now);
      && Orderly(left) && Resolves(left)
      && (i < |entries| ==> StandingOf(left.users, entries[i].userId) == StandingOf(db.users, entries[i].userId))
  {
    hide Resolves, Orderly, Deleted, StandingOf, DeletionsIn;
    if i == 0 {
      NothingYet(db, entries, now);
    } else {
      hide LeftSoFar;
      var e := entries[i - 1];
      OrderlyPrefix(db, entries, i - 1, now);
      LeftNext(db, entries, i - 1, now);
      if StandingOf(db.users, e.userId) == Deletable {
        OrderlyStays(LeftSoFar(db, entries, i - 1, now), e.userId, e.deletedAt, now);
      }
    }
    if i < |entries| { LeftNext(db, entries, i, now); }
  }

  lemma NothingYet(db: Tables, entries: seq<Entry>, now: Timestamp)
    ensures Deleted(db, DeletionsIn(db.users, entries[..0]), now) == db
    ensures Tally(db.users, entries[..0]) == ReplayResult(0, 0, 0)
  {
    hide Deleted;
    assert entries[..0] == [];
    DeletingNobody(db, now);
  }

  lemma PrefixStep(users: map<Id, User>, entries: seq<Entry>, i: nat)
    requires i < |entries|
    ensures var t, t', s := Tally(users, entries[..i]), Tally(users, entries[..i + 1]),
              StandingOf(users, entries[i].userId);
      t' == ReplayResult(t.absent + (if s == Absent then 1 else 0),
          t.alreadyDeleted + (if s == AlreadyDeleted then 1 else 0),
                         t.replayed + (if s == Deletable then 1 else 0))
    ensures var earlier := DeletionsIn(users, entries[..i]);
      DeletionsIn(users, entries[..i + 1])
      == if StandingOf(users, entries[i].userId) == Deletable
          then earlier[entries[i].userId := entries[i].deletedAt] else earlier
  {
    hide StandingOf;
    assert entries[..i + 1][..i] == entries[..i];
  }

  /** Deleting the accounts before an entry leaves that entry's own account as it was. */
  lemma StillDeletable(db: Tables, entries: seq<Entry>, i: nat, now: Timestamp)
    requires Distinct(entries) && i < |entries|
    ensures entries[i].userId !in DeletionsIn(db.users, entries[..i])
    ensures StandingOf(Deleted(db, DeletionsIn(db.users, entries[..i]), now).users, entries[i].userId)
         == StandingOf(db.users, entries[i].userId)
  {
    hide Deleted, WithTombstones, DeletionsIn, StandingOf;
    var earlier := entries[..i];
    var who := DeletionsIn(db.users, earlier);
    DeletionsAreListed(db.users, earlier);
    forall k | 0 <= k < |earlier| ensures earlier[k].userId != entries[i].userId {}
    DeletedUsers(db, who, now);
    StandingOutside(db.users, who, entries[i].userId, now);
  }

  lemma DeletedUsers(db: Tables, who: Deletions, now: Timestamp)
    ensures Deleted(db, who, now).users == WithTombstones(db.users, who, now)
  {
    hide Erased, WithTombstones;
    ErasureIgnoresUsers(WithUsers(db, WithTombstones(db.users, who, now)), db.users, who, now);
  }

  lemma StandingOutside(users: map<Id, User>, who: Deletions, u: Id, now: Timestamp)
    requires u !in who
    ensures StandingOf(WithTombstones(users, who, now), u) == StandingOf(users, u)
  {
  }

  lemma MayDeleteMeans(db: Tables, user: Id, at: Timestamp, now: Timestamp)
    ensures MayDelete(db, user, at, now)
       <==> MayErase(WithUsers(db, WithTombstones(db.users, map[user := at], now)), user)
  {}

  lemma ReferencesAfterTombstone(db: Tables, user: Id, at: Timestamp, now: Timestamp)
    requires Resolves(db)
    requires MayDelete(db, user, at, now)
    ensures Resolves(Deleted(db, map[user := at], now))
  {
    hide *;
    MayEraseMeans();
    WithUsersMeans();
    DeletedMeans();
    ResolvesMeans();
    MayDeleteMeans(db, user, at, now);
    ReferencesResolveExactlyWhenAllowed(WithUsers(db, WithTombstones(db.users, map[user := at], now)), user, at, now);
  }

  lemma TombstonesAreComplete(users: map<Id, User>, who: Deletions, u: Id, now: Timestamp)
    requires u in who && StandingOf(users, u) == Deletable
    ensures var after := WithTombstones(users, who, now);
      && u in after && IsTombstone(after[u]) && after[u].profileDescription.None? && after[u].deletedAt == Some(who[u])
  {
  }

  /** The second verification of the replay can never fail. */
  lemma ReplayedAreVerified(db: Tables, entries: seq<Entry>, now: Timestamp)
    requires Increasing(entries)
    ensures Verified(Replayed(db, entries, now), MembersIn(db.users, entries, Deletable))
  {
    hide Deleted, HasResidue, TombstoneAt, StandingOf, MembersIn, DeletionsIn;
    var members := MembersIn(db.users, entries, Deletable);
    MembersAreDistinct(db.users, entries, Deletable);
    DeletionsAreMembers(db.users, entries);
    ReplayedHaveNoResidue(db, entries, now);
    forall i | 0 <= i < |members| ensures TombstoneAt(Replayed(db, entries, now), members[i].0, members[i].1) {
      ReplayedIsTombstone(db, entries, members[i], now);
    }
  }

  lemma ReplayedHaveNoResidue(db: Tables, entries: seq<Entry>, now: Timestamp)
    ensures !HasResidue(Replayed(db, entries, now), DeletionsIn(db.users, entries).Keys)
  {
    hide Erased, HasResidue, WithTombstones, DeletionsIn, WithUsers;
    var who := DeletionsIn(db.users, entries);
    ErasureSatisfiesVerifier(WithUsers(db, WithTombstones(db.users, who, now)), who, {}, now);
  }

  lemma ReplayedIsTombstone(db: Tables, entries: seq<Entry>, m: (Id, Timestamp), now: Timestamp)
    requires Increasing(entries) && m in MembersIn(db.users, entries, Deletable)
    ensures TombstoneAt(Replayed(db, entries, now), m.0, m.1)
  {
    hide Deleted, StandingOf, MembersIn, DeletionsIn, IsTombstone, WithTombstones;
    MembersAreListed(db.users, entries, Deletable);
    DeletionsAreMembers(db.users, entries);
    DeletedUsers(db, DeletionsIn(db.users, entries), now);
    assert m.0 in UserIds(MembersIn(db.users, entries, Deletable)) by {
      var ms := MembersIn(db.users, entries, Deletable);
      var i :| 0 <= i < |ms| && ms[i] == m;
    }
    TombstonesAreComplete(db.users, DeletionsIn(db.users, entries), m.0, now);
  }

  // ---- what a replay guarantees ----

  /** After a successful replay every ledger member still present is a verified tombstone at the ledger's time. */
  lemma ReplayLeavesVerifiedTombstones(db: Tables, entries: seq<Entry>, now: Timestamp)
    requires Increasing(entries) && Replayable(db, entries)
    ensures forall i :: 0 <= i < |entries| && entries[i].userId in db.users ==>
              Verified(Replayed(db, entries, now), [(entries[i].userId, entries[i].deletedAt)])
  {
    forall i | 0 <= i < |entries| && entries[i].userId in db.users
      ensures Verified(Replayed(db, entries, now), [(entries[i].userId, entries[i].deletedAt)])
    {
      EntryIsVerified(db, entries, i, now);
    }
  }

  lemma EntryIsVerified(db: Tables, entries: seq<Entry>, i: nat, now: Timestamp)
    requires Increasing(entries) && Replayable(db, entries) && i < |entries| && entries[i].userId in db.users
    ensures Verified(Replayed(db, entries, now), [(entries[i].userId, entries[i].deletedAt)])
  {
    var m := (entries[i].userId, entries[i].deletedAt);
    MembersAreListed(db.users, entries, AlreadyDeleted);
    MembersAreListed(db.users, entries, Deletable);
    ReplayedAreVerified(db, entries, now);
    EarlierStayVerified(db, entries, now);
    var already, gone := MembersIn(db.users, entries, AlreadyDeleted), MembersIn(db.users, entries, Deletable);
    assert m in already || m in gone by {
      assert Listed(db.users, entries, StandingOf(db.users, m.0), m);
      hide Verified, MembersIn, Replayed;
    }
    hide Replayed, MembersIn, Replayable;
    if m in already {
      VerifiedOne(Replayed(db, entries, now), already, m);
    } else {
      VerifiedOne(Replayed(db, entries, now), gone, m);
    }
  }

  lemma VerifiedOne(db: Tables, members: seq<(Id, Timestamp)>, m: (Id, Timestamp))
    requires Verified(db, members) && m in members
    ensures Verified(db, [m])
  {
    hide HasResidue, TombstoneAt;
    assert [m][0].0 in UserIds([m]);
    assert UserIds([m]) == {m.0};
    assert UserIds(members) == {m.0} + (UserIds(members) - {m.0});
    ResidueSplits(db, {m.0}, UserIds(members) - {m.0});
  }

  lemma ResidueIgnoresUsers(db: Tables, users: map<Id, User>, who: set<Id>)
    ensures HasResidue(WithUsers(db, users), who) == HasResidue(db, who)
  {
    hide *;
    ResidueMeans();
    WithUsersMeans();
  }

  /** Tombstones verified before the replay are verified after it. */
  lemma EarlierStayVerified(db: Tables, entries: seq<Entry>, now: Timestamp)
    requires Increasing(entries) && Replayable(db, entries)
    ensures Verified(Replayed(db, entries, now), MembersIn(db.users, entries, AlreadyDeleted))
  {
    hide Deleted, HasResidue, StandingOf, MembersIn, DeletionsIn, TombstoneAt;
    var members := MembersIn(db.users, entries, AlreadyDeleted);
    NoResidueComesBack(db, entries, UserIds(members), now);
    forall i | 0 <= i < |members| ensures TombstoneAt(Replayed(db, entries, now), members[i].0, members[i].1) {
      TombstoneStays(db, entries, members[i], now);
    }
  }

  lemma NoResidueComesBack(db: Tables, entries: seq<Entry>, others: set<Id>, now: Timestamp)
    ensures HasResidue(Replayed(db, entries, now), others) ==> HasResidue(db, others)
  {
    hide Erased, HasResidue, WithTombstones, DeletionsIn, WithUsers;
    var who := DeletionsIn(db.users, entries);
    ErasureSatisfiesVerifier(WithUsers(db, WithTombstones(db.users, who, now)), who, others, now);
    ResidueIgnoresUsers(db, WithTombstones(db.users, who, now), others);
  }

  lemma TombstoneStays(db: Tables, entries: seq<Entry>, m: (Id, Timestamp), now: Timestamp)
    requires Increasing(entries) && m in MembersIn(db.users, entries, AlreadyDeleted) && TombstoneAt(db, m.0, m.1)
    ensures TombstoneAt(Replayed(db, entries, now), m.0, m.1)
  {
    hide Deleted, StandingOf, MembersIn, DeletionsIn, IsTombstone, WithTombstones;
    MembersAreListed(db.users, entries, AlreadyDeleted);
    DeletionsAreListed(db.users, entries);
    DeletedUsers(db, DeletionsIn(db.users, entries), now);
    SameRow(db.users, DeletionsIn(db.users, entries), m.0, now);
  }

  lemma SameRow(users: map<Id, User>, who: Deletions, u: Id, now: Timestamp)
    requires u in users && u !in who
    ensures u in WithTombstones(users, who, now) && WithTombstones(users, who, now)[u] == users[u]
  {
  }

  lemma StandingAfter(users: map<Id, User>, who: Deletions, u: Id, now: Timestamp)
    requires u in who ==> StandingOf(users, u) == Deletable
    ensures StandingOf(WithTombstones(users, who, now), u) == if u in who then AlreadyDeleted else StandingOf(users, u)
  {
  }

  /** After a replay nobody in the ledger is left to delete; the deleted ones are the earlier and the new ones. */
  lemma {:induction false} MembersAfter(users: map<Id, User>, after: map<Id, User>, entries: seq<Entry>)
    requires forall i :: 0 <= i < |entries| ==>
      StandingOf(after, entries[i].userId)
      == if StandingOf(users, entries[i].userId) == Deletable then AlreadyDeleted
          else StandingOf(users, entries[i].userId)
    ensures DeletionsIn(after, entries) == map[]
    ensures Tally(after, entries)
              == var t := Tally(users, entries); ReplayResult(t.absent, t.alreadyDeleted + t.replayed, 0)
    ensures forall m :: m in MembersIn(after, entries, AlreadyDeleted) <==>
              m in MembersIn(users, entries, AlreadyDeleted) || m in MembersIn(users, entries, Deletable)
  {
    hide StandingOf;
    if entries != [] {
      var n := |entries| - 1;
      forall i | 0 <= i < n ensures entries[..n][i] == entries[i] {
      }
      MembersAfter(users, after, entries[..n]);
    }
  }

  /**
   * Replaying the same ledger again goes through, deletes nobody, counts every member deleted by the first run as
   * already deleted, and changes nothing.
   */
  lemma SecondReplayChangesNothing(db: Tables, entries: seq<Entry>, now: Timestamp, later: Timestamp)
    requires Increasing(entries) && Replayable(db, entries)
    ensures var after := Replayed(db, entries, now);
      && Replayable(after, entries) && InTurn(after, entries, later)
      && Replayed(after, entries, later) == after
      && Tally(after.users, entries)
         == var t := Tally(db.users, entries); ReplayResult(t.absent, t.alreadyDeleted + t.replayed, 0)
  {
    hide Deleted, HasResidue, TombstoneAt, StandingOf, MembersIn, DeletionsIn, Verified, Tally, MayDelete, LeftSoFar;
    var who, after := DeletionsIn(db.users, entries), Replayed(db, entries, now);
    DeletedUsers(db, who, now);
    DeletionsAreListed(db.users, entries);
    forall i | 0 <= i < |entries|
      ensures StandingOf(after.users, entries[i].userId)
        == if StandingOf(db.users, entries[i].userId) == Deletable then AlreadyDeleted
            else StandingOf(db.users, entries[i].userId)
    {
      StandingAfter(db.users, who, entries[i].userId, now);
    }
    MembersAfter(db.users, after.users, entries);
    DeletingNobody(after, later);
    AllVerifiedAfter(db, entries, now);
  }

  lemma AllVerifiedAfter(db: Tables, entries: seq<Entry>, now: Timestamp)
    requires Increasing(entries) && Replayable(db, entries)
    requires var after := Replayed(db, entries, now).users;
      forall m :: m in MembersIn(after, entries, AlreadyDeleted) <==>
        m in MembersIn(db.users, entries, AlreadyDeleted) || m in MembersIn(db.users, entries, Deletable)
    ensures Verified(Replayed(db, entries, now), MembersIn(Replayed(db, entries, now).users, entries, AlreadyDeleted))
  {
    hide Replayed, MembersIn, Replayable, HasResidue, TombstoneAt;
    var after := Replayed(db, entries, now);
    var old1, old2, all := MembersIn(db.users, entries, AlreadyDeleted), MembersIn(db.users, entries, Deletable),
                           MembersIn(after.users, entries, AlreadyDeleted);
    EarlierStayVerified(db, entries, now);
    ReplayedAreVerified(db, entries, now);
    MembersAreDistinct(after.users, entries, AlreadyDeleted);
    VerifiedTogether(after, old1, old2, all);
  }

  /** Two verified batches make one verified batch, in whatever order its members are listed. */
  lemma VerifiedTogether(db: Tables, a: seq<(Id, Timestamp)>, b: seq<(Id, Timestamp)>, all: seq<(Id, Timestamp)>)
    requires Verified(db, a) && Verified(db, b)
    requires forall m :: m in all <==> m in a || m in b
    requires forall i, j :: 0 <= i < j < |all| ==> all[i].0 < all[j].0
    ensures Verified(db, all)
  {
    hide HasResidue, TombstoneAt;
    if all != [] {
      IdsOfUnion(a, b, all);
      ResidueSplits(db, UserIds(a), UserIds(b));
      NobodyHasNoResidue(db);
      forall i | 0 <= i < |all| ensures TombstoneAt(db, all[i].0, all[i].1) {
        assert all[i] in a || all[i] in b;
      }
    }
  }

  lemma IdsOfUnion(a: seq<(Id, Timestamp)>, b: seq<(Id, Timestamp)>, all: seq<(Id, Timestamp)>)
    requires forall m :: m in all <==> m in a || m in b
    ensures UserIds(all) == UserIds(a) + UserIds(b)
  {
    forall u | u in UserIds(all) ensures u in UserIds(a) + UserIds(b) {
      var i :| 0 <= i < |all| && all[i].0 == u;
      assert all[i] in all;
    }
    forall u | u in UserIds(a) ensures u in UserIds(all) {
      var i :| 0 <= i < |a| && a[i].0 == u;
      assert a[i] in all;
    }
    forall u | u in UserIds(b) ensures u in UserIds(all) {
      var i :| 0 <= i < |b| && b[i].0 == u;
      assert b[i] in all;
    }
  }

  // ---- the checks of the tables ----

  lemma TombstonesAllowed(users: map<Id, User>, who: Deletions, now: Timestamp)
    requires forall k :: k in users ==> UserAllowed(users[k])
    requires forall u :: u in who ==> StandingOf(users, u) in {Deletable, Absent}
    ensures forall k :: k in WithTombstones(users, who, now) ==> UserAllowed(WithTombstones(users, who, now)[k])
  {
    forall k | k in users && k in who ensures UserAllowed(Tombstone(users[k], who[k], now)) {
      assert DELETED_COOK_DISPLAY_NAME[0] == 'D';
    }
    hide UserAllowed, Tombstone, StandingOf;
  }

  /** No row that a deletion of members writes is one that the checks of its table refuse. */
  lemma DeletionKeepsChecks(db: Tables, who: Deletions, now: Timestamp)
    requires ChecksHold(db) && forall u :: u in who ==> StandingOf(db.users, u) in {Deletable, Absent}
    ensures ChecksHold(Deleted(db, who, now))
  {
    hide Erased, UserAllowed, DraftAllowed, RequestAllowed, EventAllowed, StandingOf, WithTombstones, ErasedDrafts,
         ErasedRequests, ErasedAuditEvents;
    ErasedTables(WithUsers(db, WithTombstones(db.users, who, now)), who, now);
    TombstonesAllowed(db.users, who, now);
    ErasedDraftsAllowed(db.drafts, who);
    ErasedRequestsAllowed(db.requests, who.Keys, now);
    ErasedEventsAllowed(db.requests, db.auditEvents, who.Keys);
  }

  /** So a replay keeps them too. */
  lemma ReplayKeepsChecks(db: Tables, entries: seq<Entry>, now: Timestamp)
    requires ChecksHold(db) && Distinct(entries)
    ensures ChecksHold(Replayed(db, entries, now))
  {
    hide Deleted, ChecksHold, StandingOf, DeletionsIn;
    DeletionsAreListed(db.users, entries);
    DeletionKeepsChecks(db, DeletionsIn(db.users, entries), now);
  }

  // ---- the order of the deletions ----

  /**
   * In an orderly database every order of the same deletions is let through, and all leave one database. (A ledger
   * has one order; an orderly database is one the loop could take in any.)
   */
  lemma ReplayIsOrderFree(db: Tables, xs: seq<Entry>, ys: seq<Entry>, now: Timestamp)
    requires Distinct(xs) && Distinct(ys) && forall e :: e in xs <==> e in ys
    ensures Replayed(db, xs, now) == Replayed(db, ys, now)
    ensures Orderly(db) && Resolves(db) ==> InTurn(db, xs, now) && InTurn(db, ys, now)
  {
    hide Deleted, StandingOf, DeletionsIn, Orderly, Resolves, InTurn;
    DistinctDeletions(db.users, xs);
    DistinctDeletions(db.users, ys);
    assert DeletionsIn(db.users, xs) == DeletionsIn(db.users, ys);
    if Orderly(db) && Resolves(db) {
      OrderlyGoInTurn(db, xs, now);
      OrderlyGoInTurn(db, ys, now);
    }
  }

  /** Two members: the first has a pending request, and the second's active draft has an ingredient that names it. */
  function Entangled(at: Timestamp): Tables {
    EMPTY.(users := map[1 := User(Member, ActiveAccount, Some("ada@home.org"), None, "Ada", None, None, at, ""),
                        2 := User(Member, ActiveAccount, Some("bob@home.org"), None, "Bob", None, None, at, "")],
           drafts := map[3 := Draft(2, ActiveDraft, 1, "", None, None, None, None, None, None, at, "")],
           draftIngredients := map[4 := DraftIngredient(3, Some(5), "")],
           requests := map[5 := Request(1, Pending, None, None, at, "")])
  }

  /** Where only draft ingredients and requests are, a purge is refused exactly for a request that is still named. */
  lemma OnlyCitationsMatter(db: Tables, user: Id, at: Timestamp, now: Timestamp)
    requires db.publications == map[] && db.preflights == map[] && db.auditEvents == map[]
    requires db.moderationEvents == map[]
    ensures MayDelete(db, user, at, now)
       <==> !PendingCited(db.requests, KeptIngredients(db.drafts, db.draftIngredients, {user}), user)
  {
    hide PendingCited, KeptIngredients, WithTombstones;
  }

  /** In other databases the order decides: here the first member may go only after the second. */
  lemma OrderMatters(at: Timestamp, now: Timestamp)
    ensures var db, first, second := Entangled(at), Entry(1, at), Entry(2, at);
      && Resolves(db) && ChecksHold(db)
      && !InTurn(db, [first, second], now) && InTurn(db, [second, first], now)
  {
    var db, first, second := Entangled(at), Entry(1, at), Entry(2, at);
    hide InTurn, Resolves, ChecksHold;
    EntangledResolves(db, at);
    EntangledIsAllowed(db, at);
    FirstIsNamed(db, first, second, now);
    SecondGoesFirst(db, first, second, now);
  }

  lemma EntangledIsAllowed(db: Tables, at: Timestamp)
    requires db == Entangled(at)
    ensures ChecksHold(db)
  {
    assert "ada@home.org"[0] == 'a' && "bob@home.org"[0] == 'b' && "Ada"[0] == 'A' && "Bob"[0] == 'B';
  }

  lemma EntangledResolves(db: Tables, at: Timestamp)
    requires db == Entangled(at)
    ensures Resolves(db)
  {}

  lemma FirstIsNamed(db: Tables, first: Entry, second: Entry, now: Timestamp)
    requires db == Entangled(first.deletedAt) && first.userId == 1
    ensures !InTurn(db, [first, second], now)
  {
    hide Deleted, MayDelete, DeletionsIn;
    NothingYet(db, [first, second], now);
    OnlyCitationsMatter(db, 1, first.deletedAt, now);
    var kept := KeptIngredients(db.drafts, db.draftIngredients, {1});
    assert 4 in kept && PendingOf(db.requests, kept[4].request.value, {1});
    assert [first, second][0] == first;
  }

  lemma SecondGoesFirst(db: Tables, first: Entry, second: Entry, now: Timestamp)
    requires db == Entangled(first.deletedAt) && first.userId == 1 && second.userId == 2
    ensures InTurn(db, [second, first], now)
  {
    hide Deleted, MayDelete, PendingCited, KeptIngredients, StandingOf;
    var order := [second, first];
    NothingYet(db, order, now);
    NoneNamed(db);
    assert DeletionsIn(db.users, [second]) == map[2 := second.deletedAt];
    assert order[..1] == [second];
    OnlyCitationsMatter(db, 2, second.deletedAt, now);
    var left := LeftSoFar(db, order, 1, now);
    LeftBySecond(db, second.deletedAt, now);
    OnlyCitationsMatter(left, 1, first.deletedAt, now);
  }

  lemma NoneNamed(db: Tables)
    requires exists at :: db == Entangled(at)
    ensures !PendingCited(db.requests, KeptIngredients(db.drafts, db.draftIngredients, {2}), 2)
    ensures StandingOf(db.users, 2) == Deletable
  {}

  lemma LeftBySecond(db: Tables, at: Timestamp, now: Timestamp)
    requires exists at :: db == Entangled(at)
    ensures var left := Deleted(db, map[2 := at], now);
      && left.publications == map[] && left.preflights == map[] && left.auditEvents == map[]
      && left.moderationEvents == map[]
      && !PendingCited(left.requests, KeptIngredients(left.drafts, left.draftIngredients, {1}), 1)
  {
    hide Erased, WithTombstones, ErasedDrafts, KeptIngredients, ErasedRequests, ErasedAuditEvents, KeptPreflights,
         ScrubbedModeration, PendingCited;
    var who := map[2 := at];
    assert who.Keys == {2};
    ErasedTables(WithUsers(db, WithTombstones(db.users, who, now)), who, now);
    NothingKept(db, at, now);
  }

  lemma NothingKept(db: Tables, at: Timestamp, now: Timestamp)
    requires exists at :: db == Entangled(at)
    ensures KeptPreflights(db.preflights, db.publications, {2}) == map[]
    ensures ErasedAuditEvents(db.requests, db.auditEvents, {2}) == map[]
    ensures ScrubbedModeration(db.moderationEvents, {2}) == map[]
    ensures !PendingCited(ErasedRequests(db.requests, {2}, now),
                          KeptIngredients(ErasedDrafts(db.drafts, map[2 := at]),
                                          KeptIngredients(db.drafts, db.draftIngredients, {2}), {1}), 1)
  {
    hide ErasedDrafts;
    assert DraftOf(db.drafts, 3, {2});
    assert KeptIngredients(db.drafts, db.draftIngredients, {2}) == map[];
    assert ErasedRequests(db.requests, {2}, now) == db.requests;
  }

  lemma {:induction false} DistinctDeletions(users: map<Id, User>, entries: seq<Entry>)
    requires Distinct(entries)
    ensures forall u :: u in DeletionsIn(users, entries) ==>
              && StandingOf(users, u) == Deletable
              && exists e :: e in entries && e.userId == u && e.deletedAt == DeletionsIn(users, entries)[u]
    ensures forall e :: e in entries && StandingOf(users, e.userId) == Deletable ==>
              e.userId in DeletionsIn(users, entries) && DeletionsIn(users, entries)[e.userId] == e.deletedAt
  {
    hide StandingOf;
    if entries != [] {
      var n := |entries| - 1;
      DistinctDeletions(users, entries[..n]);
      assert entries == entries[..n] + [entries[n]];
      assert forall e :: e in entries <==> e in entries[..n] || e == entries[n];
      assert forall e :: e in entries[..n] ==> e.userId != entries[n].userId;
    }
  }
}
