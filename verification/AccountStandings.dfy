/**
 * Who a replay deletes, refuses and counts, said from the columns of the users and the entries of the ledger
 * (backend/app/recovery/account_deletions.py:505-595).
 */
module AccountStandings {
  import opened Outcomes
  import opened Timestamps
  import opened DeletionLedgers
  import opened AccountTables
  import opened AccountReplay
  import opened AccountStatements
  import opened AccountVerifier

  /** A present member who is active or suspended. */
  ghost predicate Living(users: map<Id, User>, u: Id) {
    u in users && users[u].kind == Member && (users[u].status == ActiveAccount || users[u].status == SuspendedAccount)
  }

  /** A present member who is marked deleted. */
  ghost predicate Marked(users: map<Id, User>, u: Id) {
    u in users && users[u].kind == Member && users[u].status == DeletedAccount
  }

  /** A present user who is no member. */
  ghost predicate Foreign(users: map<Id, User>, u: Id) {
    u in users && users[u].kind != Member
  }

  lemma StandingColumns(users: map<Id, User>, u: Id)
    ensures StandingOf(users, u) == Absent <==> u !in users
    ensures StandingOf(users, u) == Refused <==> Foreign(users, u)
    ensures StandingOf(users, u) == AlreadyDeleted <==> Marked(users, u)
    ensures StandingOf(users, u) == Deletable <==> Living(users, u)
  {}

  // ---- who is deleted ----

  /** The accounts deleted are the listed living members, at the ledger's times, and no others. */
  lemma DeletedExactly(users: map<Id, User>, entries: seq<Entry>, u: Id)
    requires Distinct(entries)
    ensures u in DeletionsIn(users, entries) <==>
              Living(users, u) && exists i :: 0 <= i < |entries| && entries[i].userId == u
    ensures forall i :: 0 <= i < |entries| && entries[i].userId == u && Living(users, u) ==>
              DeletionsIn(users, entries)[u] == entries[i].deletedAt
  {
    hide StandingOf, Living, DeletionsIn, Distinct;
    StandingColumns(users, u);
    DeletionsAreListed(users, entries);
  }

  /** The user table after a replay: tombstones for those deleted, and every other row as it was. */
  ghost predicate UsersAfter(before: map<Id, User>, after: map<Id, User>, entries: seq<Entry>, now: Timestamp) {
    && after.Keys == before.Keys
    && (forall u :: u in before && !(Living(before, u) && exists i :: 0 <= i < |entries| && entries[i].userId == u) ==>
         after[u] == before[u])
    && (forall i :: 0 <= i < |entries| && Living(before, entries[i].userId) ==>
         var u := entries[i].userId;
         && after[u].kind == Member && after[u].status == DeletedAccount
         && after[u].deletedAt == Some(entries[i].deletedAt) && after[u].email == None && after[u].handle == None
         && after[u].displayName == "Deleted cook" && after[u].profileDescription == None
         && after[u].updatedAt == now && after[u].rest == before[u].rest)
  }

  lemma TombstoneRow(users: map<Id, User>, who: Deletions, u: Id, now: Timestamp)
    requires u in users
    ensures u in WithTombstones(users, who, now)
    ensures var after := WithTombstones(users, who, now)[u];
      if u in who then
        && after.kind == users[u].kind && after.status == DeletedAccount && after.deletedAt == Some(who[u])
        && after.email == None && after.handle == None && after.displayName == "Deleted cook"
        && after.profileDescription == None && after.updatedAt == now && after.rest == users[u].rest
      else after == users[u]
  {}

  lemma SameUsers(users: map<Id, User>, who: Deletions, now: Timestamp)
    ensures WithTombstones(users, who, now).Keys == users.Keys
  {}

  lemma UsersAfterReplay(db: Tables, entries: seq<Entry>, now: Timestamp)
    requires Distinct(entries)
    ensures UsersAfter(db.users, Replayed(db, entries, now).users, entries, now)
  {
    hide Deleted, WithTombstones, DeletionsIn, Distinct;
    var who := DeletionsIn(db.users, entries);
    DeletedUsers(db, who, now);
    SameUsers(db.users, who, now);
    forall u | u in db.users && !(Living(db.users, u) && exists i :: 0 <= i < |entries| && entries[i].userId == u)
      ensures Replayed(db, entries, now).users[u] == db.users[u]
    {
      DeletedExactly(db.users, entries, u);
      TombstoneRow(db.users, who, u, now);
    }
    forall i | 0 <= i < |entries| && Living(db.users, entries[i].userId)
      ensures entries[i].userId in who && who[entries[i].userId] == entries[i].deletedAt
    {
      DeletedExactly(db.users, entries, entries[i].userId);
    }
    forall i | 0 <= i < |entries| && Living(db.users, entries[i].userId)
      ensures Tombstoned(Replayed(db, entries, now).users, entries[i].userId)
    {
      TombstoneRow(db.users, who, entries[i].userId, now);
    }
    TombstonesAreRows(db.users, who, now);
  }

  lemma TombstonesAreRows(users: map<Id, User>, who: Deletions, now: Timestamp)
    ensures forall u :: u in users && u in who ==>
      var after := WithTombstones(users, who, now)[u];
        && after.kind == users[u].kind && after.status == DeletedAccount && after.deletedAt == Some(who[u])
        && after.email == None && after.handle == None && after.displayName == "Deleted cook"
        && after.profileDescription == None && after.updatedAt == now && after.rest == users[u].rest
  {}

  // ---- when a replay goes through ----

  /** The user table once one more account has its tombstone. */
  ghost predicate OneMoreGone(before: map<Id, User>, after: map<Id, User>, user: Id, at: Timestamp, now: Timestamp) {
    && after.Keys == before.Keys
    && (forall u :: u in before && u != user ==> after[u] == before[u])
    && (user in before ==>
         after[user] == before[user].(status := DeletedAccount, deletedAt := Some(at), email := None, handle := None,
                                      displayName := "Deleted cook", profileDescription := None, updatedAt := now))
  }

  /** A deletion is let through exactly when the purge is, with nothing but that tombstone written before. */
  lemma MayDeleteMeans(db: Tables, user: Id, at: Timestamp, now: Timestamp)
    ensures exists users :: OneMoreGone(db.users, users, user, at, now)
                            && (MayDelete(db, user, at, now) <==> MayErase(db.(users := users), user))
  {
    var users := WithTombstones(db.users, map[user := at], now);
    assert OneMoreGone(db.users, users, user, at, now);
    hide MayErase, WithTombstones;
    assert WithUsers(db, users) == db.(users := users);
  }

  /**
   * A ledger can be replayed exactly when no entry names a present user who is no member and the members already
   * marked deleted verify; then every living member of it must be let go when its turn comes.
   */
  lemma ReplayableColumns(db: Tables, entries: seq<Entry>, now: Timestamp)
    requires Distinct(entries)
    ensures Replayable(db, entries) <==>
              && (forall i :: 0 <= i < |entries| ==> !Foreign(db.users, entries[i].userId))
              && Verified(db, MembersIn(db.users, entries, AlreadyDeleted))
    ensures forall m :: m in MembersIn(db.users, entries, AlreadyDeleted) <==>
              Marked(db.users, m.0)
              && exists i :: 0 <= i < |entries| && entries[i].userId == m.0 && entries[i].deletedAt == m.1
    ensures InTurn(db, entries, now) <==>
              forall i :: 0 <= i < |entries| && Living(db.users, entries[i].userId) ==>
                MayDelete(LeftSoFar(db, entries, i, now), entries[i].userId, entries[i].deletedAt, now)
  {
    hide StandingOf, Living, Marked, Foreign, MembersIn, Verified, MayDelete, LeftSoFar, Distinct;
    forall u ensures StandingOf(db.users, u) == Refused <==> Foreign(db.users, u)
             ensures StandingOf(db.users, u) == AlreadyDeleted <==> Marked(db.users, u)
             ensures StandingOf(db.users, u) == Deletable <==> Living(db.users, u)
    {
      StandingColumns(db.users, u);
    }
    MembersAreListed(db.users, entries, AlreadyDeleted);
  }

  // ---- the counts ----

  /** The entries whose user is such. */
  ghost function Places(entries: seq<Entry>, such: Id -> bool): set<nat> {
    set i: nat | i < |entries| && such(entries[i].userId)
  }

  ghost function Absents(users: map<Id, User>): Id -> bool {
    (u: Id) => u !in users
  }

  ghost function Markeds(users: map<Id, User>): Id -> bool {
    (u: Id) => Marked(users, u)
  }

  ghost function Livings(users: map<Id, User>): Id -> bool {
    (u: Id) => Living(users, u)
  }

  /** The counts are the numbers of entries without a user, of a marked member, and of a living one. */
  lemma {:induction false} CountsOfEntries(users: map<Id, User>, entries: seq<Entry>)
    ensures Tally(users, entries) == ReplayResult(|Places(entries, Absents(users))|, |Places(entries, Markeds(users))|,
                                                  |Places(entries, Livings(users))|)
  {
    hide StandingOf, Marked, Living;
    if entries == [] {
      assert Places([], Absents(users)) == {} && Places([], Markeds(users)) == {} && Places([], Livings(users)) == {};
    } else {
      var n := |entries| - 1;
      CountsOfEntries(users, entries[..n]);
      OneMorePlace(entries, Absents(users));
      OneMorePlace(entries, Markeds(users));
      OneMorePlace(entries, Livings(users));
      StandingColumns(users, entries[n].userId);
      hide Places;
    }
  }

  lemma OneMorePlace(entries: seq<Entry>, such: Id -> bool)
    requires entries != []
    ensures var n := |entries| - 1;
      |Places(entries, such)| == |Places(entries[..n], such)| + (if such(entries[n].userId) then 1 else 0)
  {
    var n: nat := |entries| - 1;
    var before := Places(entries[..n], such);
    assert n !in before;
    assert Places(entries, such) == before + if such(entries[n].userId) then {n} else {};
  }
}
