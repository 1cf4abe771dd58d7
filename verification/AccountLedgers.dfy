/**
 * What an export lists and demands and what a recovery gives, said from the columns of the users and the entries of
 * the ledger (backend/app/recovery/account_deletions.py:426-595).
 */
module AccountLedgers {
  import opened Outcomes
  import opened Timestamps
  import opened DeletionLedgers
  import opened AccountTables
  import opened AccountVerifier
  import opened AccountExport
  import opened AccountRecovery
  import opened AccountRefusals

  /** A member who is marked deleted. */
  ghost predicate Left(users: map<Id, User>, u: Id) {
    u in users && users[u].kind == Member && users[u].status == DeletedAccount
  }

  ghost function AllLeft(users: map<Id, User>): set<Id> {
    set u | u in users && Left(users, u)
  }

  lemma DeletedMembersAre(users: map<Id, User>)
    ensures forall u :: u in DeletedMembers(users) <==> Left(users, u)
    ensures DeletedMembers(users) == AllLeft(users)
  {}

  /** The query names members marked deleted only, in the order of their ids, and up to ten thousand all of them. */
  lemma ListingMeans(ids: seq<Id>, users: map<Id, User>)
    requires Listing(ids, users)
    ensures forall i :: 0 <= i < |ids| ==> Left(users, ids[i])
    ensures forall i, j :: 0 <= i < j < |ids| ==> ids[i] < ids[j]
    ensures |ids| <= 10_001 && (|ids| == 10_001 <==> |AllLeft(users)| > 10_000)
    ensures |AllLeft(users)| <= 10_000 ==> forall u :: Left(users, u) ==> u in ids
  {
    hide Listing, DeletedMembers, Left, AllLeft;
    ListingIsShort(ids, users);
    DeletedMembersAre(users);
    if |AllLeft(users)| <= 10_000 { ListingIsComplete(ids, users); }
  }

  lemma ListingIsShort(ids: seq<Id>, users: map<Id, User>)
    requires Listing(ids, users)
    ensures |ids| == if |DeletedMembers(users)| <= 10_000 then |DeletedMembers(users)| else 10_001
    ensures forall i :: 0 <= i < |ids| ==> ids[i] in DeletedMembers(users)
    ensures forall i, j :: 0 <= i < j < |ids| ==> ids[i] < ids[j]
  {
    hide DeletedMembers;
  }

  /** An export succeeds exactly for at most ten thousand, each a blank tombstone from before, with nothing left. */
  lemma ExportableColumns(db: Tables, through: Timestamp)
    ensures Exportable(db, through) <==>
              && |AllLeft(db.users)| <= 10_000
              && (forall u :: Left(db.users, u) ==>
                   && Gone(db.users, u) && db.users[u].profileDescription == None
                   && !db.users[u].deletedAt.value.After(through))
              && !HasResidue(db, AllLeft(db.users))
  {
    hide HasResidue, DeletedMembers, Left, AllLeft, IsTombstone, Gone;
    DeletedMembersAre(db.users);
    forall u | u in DeletedMembers(db.users)
      ensures u in db.users && (IsTombstone(db.users[u]) <==> Gone(db.users, u))
      ensures Gone(db.users, u) ==> db.users[u].deletedAt.Some?
    {
      DeletedMembersAreUsers(db.users);
      TombstonesAreGone(db.users, u);
    }
  }

  lemma TombstonesAreGone(users: map<Id, User>, u: Id)
    requires u in users
    ensures IsTombstone(users[u]) <==> Gone(users, u)
    ensures Gone(users, u) ==> users[u].deletedAt.Some?
  {}

  /** The ledger has an entry for each member marked deleted, with the time of the deletion, and no other. */
  lemma CoversMeans(l: Ledger, users: map<Id, User>)
    requires Covers(l, users)
    ensures forall i :: 0 <= i < |l.deletions| ==>
              && Left(users, l.deletions[i].userId)
              && users[l.deletions[i].userId].deletedAt == Some(l.deletions[i].deletedAt)
    ensures forall u :: Left(users, u) ==> exists i :: 0 <= i < |l.deletions| && l.deletions[i].userId == u
  {
    hide DeletedMembers, Left;
    DeletedMembersAre(users);
    forall i | 0 <= i < |l.deletions|
      ensures Left(users, l.deletions[i].userId)
      ensures users[l.deletions[i].userId].deletedAt == Some(l.deletions[i].deletedAt)
    {
      assert l.deletions[i] in l.deletions;
    }
  }

  /** Who is marked deleted in the one database and present in the other is gone there, at the same time, with all. */
  lemma RecoveredMeans(live: map<Id, User>, restored: map<Id, User>, after: Tables, u: Id)
    requires Recovered(live, restored, after) && Left(live, u) && u in restored
    ensures Gone(after.users, u) && after.users[u].deletedAt == live[u].deletedAt
    ensures after.users[u].profileDescription == None && !HasResidue(after, {u})
  {
    hide Verified, HasResidue;
    var members := [(u, live[u].deletedAt.value)];
    assert Verified(after, members);
    VerifiedMeansGone(after, members);
    assert members[0] == (u, live[u].deletedAt.value);
    assert (set i | 0 <= i < |members| :: members[i].0) == {u};
  }
}
