/** Exporting the ledger of a live database, and why its reader always accepts it. */
module AccountExport {
  import opened Outcomes
  import opened Text
  import opened Timestamps
  import opened DeletionLedgers
  import opened AccountTables
  import opened AccountVerifier

  function DeletedMembers(users: map<Id, User>): set<Id> {
    set u | u in users && users[u].kind == Member && users[u].status == DeletedAccount
  }

  predicate Ascending(ids: seq<Id>) {
    forall i, j :: 0 <= i < j < |ids| ==> ids[i] < ids[j]
  }

  /** What the query returns: deleted members in UUID order, at most one more than a ledger may hold. */
  predicate Listing(ids: seq<Id>, users: map<Id, User>) {
    && Ascending(ids)
    && (forall u :: u in ids ==> u in DeletedMembers(users))
    && |ids| == if |DeletedMembers(users)| <= MAX_LEDGER_ENTRIES then |DeletedMembers(users)|
        else MAX_LEDGER_ENTRIES + 1
  }

  function Elements(ids: seq<Id>): set<Id> {
    set u | u in ids
  }

  lemma {:induction false} AscendingHasNoRepeats(ids: seq<Id>)
    requires Ascending(ids)
    ensures |Elements(ids)| == |ids|
  {
    if ids != [] {
      var n := |ids| - 1;
      AscendingHasNoRepeats(ids[..n]);
      assert ids == ids[..n] + [ids[n]];
      assert Elements(ids) == Elements(ids[..n]) + {ids[n]};
      assert ids[n] !in ids[..n];
    }
  }

  lemma SubsetOfSameSize(small: set<Id>, large: set<Id>)
    requires small <= large && |small| == |large|
    ensures small == large
  {
    if u :| u in large && u !in small {
      assert |small + {u}| == |small| + 1;
      SizeIsMonotone(small + {u}, large);
    }
  }

  lemma {:induction false} SizeIsMonotone(small: set<Id>, large: set<Id>)
    requires small <= large
    ensures |small| <= |large|
    decreases small
  {
    if small != {} {
      var u :| u in small;
      SizeIsMonotone(small - {u}, large - {u});
    }
  }

  /** A listing below the limit is complete. */
  lemma ListingIsComplete(ids: seq<Id>, users: map<Id, User>)
    requires Listing(ids, users) && |ids| <= MAX_LEDGER_ENTRIES
    ensures forall u :: u in ids <==> u in DeletedMembers(users)
  {
    AscendingHasNoRepeats(ids);
    SubsetOfSameSize(Elements(ids), DeletedMembers(users));
    assert forall u :: u in ids <==> u in Elements(ids);
  }

  /** The ledger lists exactly the deleted members, with their times. */
  ghost predicate Covers(l: Ledger, users: map<Id, User>) {
    && (forall e :: e in l.deletions ==>
        e.userId in DeletedMembers(users) && users[e.userId].deletedAt == Some(e.deletedAt))
    && (forall u :: u in DeletedMembers(users) ==> exists i :: 0 <= i < |l.deletions| && l.deletions[i].userId == u)
  }

  /** Every deleted member is a complete tombstone from before the coverage time. */
  ghost predicate TombstonesCovered(users: map<Id, User>, through: Timestamp) {
    forall u :: u in DeletedMembers(users) ==>
      && IsTombstone(users[u]) && users[u].profileDescription.None? && !users[u].deletedAt.value.After(through)
  }

  ghost predicate Exportable(db: Tables, through: Timestamp) {
    && |DeletedMembers(db.users)| <= MAX_LEDGER_ENTRIES
    && TombstonesCovered(db.users, through)
    && !HasResidue(db, DeletedMembers(db.users))
  }

  /** The loop over the listed members: one entry each, unless a time is missing or past the coverage time. */
  method CollectEntries(users: map<Id, User>, ids: seq<Id>, through: Timestamp) returns (r: Option<seq<Entry>>)
    requires forall u :: u in ids ==> u in users && u < Hexadecimal.Power(32)
    ensures r.Some? <==>
            forall k :: 0 <= k < |ids| ==>
                users[ids[k]].deletedAt.Some? && !users[ids[k]].deletedAt.value.After(through)
    ensures r.Some? ==> |r.value| == |ids| && Covered(r.value, through)
    ensures r.Some? ==> forall k :: 0 <= k < |ids| ==>
              r.value[k].userId == ids[k] && users[ids[k]].deletedAt == Some(r.value[k].deletedAt)
  {
    var entries: seq<Entry> := [];
    for i := 0 to |ids|
      invariant |entries| == i && Covered(entries, through)
      invariant forall k :: 0 <= k < i ==>
              entries[k].userId == ids[k] && users[ids[k]].deletedAt == Some(entries[k].deletedAt)
    {
      var deletedAt := users[ids[i]].deletedAt;
      if deletedAt.None? || deletedAt.value.After(through) { return None; }
      entries := entries + [Entry(ids[i], deletedAt.value)];
    }
    r := Some(entries);
  }

  /**
   * `export_deletion_ledger`, up to writing the file. It succeeds exactly when the database is exportable; the
   * ledger written is well formed and complete, and its bytes fit the reader's limit. By `ParseDeletionLedger`
   * and `RenderIsInjective` the reader returns exactly this ledger.
   */
  method ExportDeletionLedger(db: Tables, listed: seq<Id>, coveredThrough: Timestamp)
    returns (r: Option<(Ledger, string)>)
    requires Listing(listed, db.users)
    requires forall u :: u in listed ==> u < Hexadecimal.Power(32)
    ensures r.Some? <==> Exportable(db, coveredThrough)
    ensures r.Some? ==>
            && WellFormed(r.value.0) && r.value.0.coveredThrough == coveredThrough && Covers(r.value.0, db.users)
                        && r.value.1 == Render(r.value.0) && 0 < |r.value.1| <= MAX_LEDGER_BYTES
  {
    hide Render, HasResidue, IsTombstone, DeletedMembers;
    if |listed| > MAX_LEDGER_ENTRIES { return None; }
    ListingIsComplete(listed, db.users);
    DeletedMembersAreUsers(db.users);
    var entries := CollectEntries(db.users, listed, coveredThrough);
    CollectedMeans(db.users, listed, coveredThrough);
    if entries.None? { return None; }
    var members := seq(|listed|, i requires 0 <= i < |listed| => (listed[i], entries.value[i].deletedAt));
    VerifiedMeans(db, listed, members, coveredThrough);
    if !Verified(db, members) { return None; }
    var ledger := Ledger(coveredThrough, entries.value, LEDGER_VERSION);
    RenderLength(ledger);
    LedgerCovers(ledger, listed, db.users);
    r := Some((ledger, Render(ledger)));
  }

  lemma DeletedMembersAreUsers(users: map<Id, User>)
    ensures forall u :: u in DeletedMembers(users) ==> u in users
  {
  }

  lemma CollectedMeans(users: map<Id, User>, ids: seq<Id>, through: Timestamp)
    requires forall k :: 0 <= k < |ids| ==> ids[k] in users
    requires forall u :: u in ids <==> u in DeletedMembers(users)
    ensures TombstonesCovered(users, through) ==>
              forall k :: 0 <= k < |ids| ==>
                  users[ids[k]].deletedAt.Some? && !users[ids[k]].deletedAt.value.After(through)
  {
    hide DeletedMembers;
    DeletedMembersAreUsers(users);
    forall k | 0 <= k < |ids| ensures ids[k] in DeletedMembers(users) {
    }
  }

  lemma LedgerCovers(l: Ledger, ids: seq<Id>, users: map<Id, User>)
    requires |l.deletions| == |ids| && forall u :: u in ids <==> u in DeletedMembers(users)
    requires forall k :: 0 <= k < |ids| ==>
      ids[k] in users && l.deletions[k].userId == ids[k] && users[ids[k]].deletedAt == Some(l.deletions[k].deletedAt)
    ensures Covers(l, users)
  {
    hide DeletedMembers;
    DeletedMembersAreUsers(users);
    forall e | e in l.deletions
        ensures e.userId in DeletedMembers(users) && users[e.userId].deletedAt == Some(e.deletedAt) {
      var k :| 0 <= k < |l.deletions| && l.deletions[k] == e;
      assert ids[k] in ids;
    }
    forall u | u in DeletedMembers(users) ensures exists i :: 0 <= i < |l.deletions| && l.deletions[i].userId == u {
      var k :| 0 <= k < |ids| && ids[k] == u;
      assert l.deletions[k].userId == u;
    }
  }

  /** For the whole listing, the batch verification is the condition on tombstones and residue. */
  lemma VerifiedMeans(db: Tables, ids: seq<Id>, members: seq<(Id, Timestamp)>, through: Timestamp)
    requires |members| == |ids| && Ascending(ids) && forall u :: u in ids <==> u in DeletedMembers(db.users)
    requires forall k :: 0 <= k < |ids| ==>
      && members[k].0 == ids[k] && ids[k] in db.users && db.users[ids[k]].deletedAt == Some(members[k].1)
      && !members[k].1.After(through)
    ensures Verified(db, members) <==> TombstonesCovered(db.users, through) && !HasResidue(db, DeletedMembers(db.users))
  {
    hide HasResidue, IsTombstone, DeletedMembers;
    DeletedMembersAreUsers(db.users);
    SameIds(ids, members);
    assert UserIds(members) == DeletedMembers(db.users);
    if members == [] { NobodyHasNoResidue(db); }
    if TombstonesCovered(db.users, through) {
      assert forall k :: 0 <= k < |ids| ==> ids[k] in ids;
    }
    if members != [] && Verified(db, members) {
      forall u | u in DeletedMembers(db.users)
        ensures IsTombstone(db.users[u]) && db.users[u].profileDescription.None?
                  && !db.users[u].deletedAt.value.After(through)
      {
        assert u in ids;
        var k :| 0 <= k < |ids| && ids[k] == u;
        assert TombstoneAt(db, members[k].0, members[k].1);
      }
    }
  }

  lemma SameIds(ids: seq<Id>, members: seq<(Id, Timestamp)>)
    requires |members| == |ids| && forall k :: 0 <= k < |ids| ==> members[k].0 == ids[k]
    ensures forall u :: u in UserIds(members) <==> u in ids
  {
    forall u | u in ids ensures u in UserIds(members) {
      var k :| 0 <= k < |ids| && ids[k] == u;
      assert members[k].0 == u;
    }
  }
}
