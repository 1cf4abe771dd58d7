/** Recovery as a whole: the ledger of a live database, read back and replayed into an older, restored one. */
module AccountRecovery {
  import opened Outcomes
  import opened Timestamps
  import opened Text
  import opened DeletionLedgers
  import opened AccountTables
  import opened AccountVerifier
  import opened AccountExport
  import opened AccountPurge
  import opened AccountReplay

  /** Every member deleted in the live database and present in the restored one is a verified tombstone at its time. */
  ghost predicate Recovered(live: map<Id, User>, restored: map<Id, User>, after: Tables) {
    forall u :: u in DeletedMembers(live) && u in restored ==>
      live[u].deletedAt.Some? && Verified(after, [(u, live[u].deletedAt.value)])
  }

  /** A complete ledger replayed into any database that takes it recovers every deletion. */
  lemma CoveringLedgerRecovers(live: map<Id, User>, ledger: Ledger, restored: Tables, now: Timestamp)
    requires WellFormed(ledger) && Covers(ledger, live) && Replayable(restored, ledger.deletions)
    ensures Recovered(live, restored.users, Replayed(restored, ledger.deletions, now))
  {
    hide Verified, Replayed, Replayable, DeletedMembers;
    ReplayLeavesVerifiedTombstones(restored, ledger.deletions, now);
    forall u | u in DeletedMembers(live) && u in restored.users
      ensures u in live && live[u].deletedAt.Some?
              && Verified(Replayed(restored, ledger.deletions, now), [(u, live[u].deletedAt.value)])
    {
      var i :| 0 <= i < |ledger.deletions| && ledger.deletions[i].userId == u;
      assert ledger.deletions[i] in ledger.deletions;
      DeletedMembersAreUsers(live);
    }
  }

  /**
   * Export from the live database, then replay of that text into the restored one. Nothing is lost in between: the
   * text is accepted, and it succeeds exactly when the live database is exportable, the ledger reaches the time
   * required, the database is the expected one, its earlier deletions verify and every other member of the ledger may
   * go when its turn comes.
   */
  method Recover(live: Tables, listed: seq<Id>, coveredThrough: Timestamp, required: Timestamp, restored: Database,
      now: Timestamp, databaseName: string, expectedName: string)
    returns (r: Option<ReplayResult>, ghost ledger: Ledger)
    requires Listing(listed, live.users) && forall u :: u in listed ==> u < Hexadecimal.Power(32)
    requires Resolves(restored.tables)
    modifies restored
    ensures Exportable(live, coveredThrough) ==>
              WellFormed(ledger) && ledger.coveredThrough == coveredThrough && Covers(ledger, live.users)
    ensures r.Some? <==> && Exportable(live, coveredThrough) && !required.After(coveredThrough)
                         && 1 <= |expectedName| <= 63 && databaseName == expectedName
                         && Replayable(old(restored.tables), ledger.deletions)
                         && InTurn(old(restored.tables), ledger.deletions, now)
    ensures r.None? ==> restored.tables == old(restored.tables)
    ensures r.Some? ==> && restored.tables == Replayed(old(restored.tables), ledger.deletions, now)
                        && r.value == Tally(old(restored.tables).users, ledger.deletions)
    ensures r.Some? ==> Recovered(live.users, old(restored.tables).users, restored.tables)
  {
    hide Exportable, Covers, Replayable, Replayed, InTurn, Recovered, Render, WellFormed, Resolves, Listing, Orderly;
    ledger := Ledger(coveredThrough, [], LEDGER_VERSION);
    var exported := ExportDeletionLedger(live, listed, coveredThrough);
    if exported.None? { return None, ledger; }
    ledger := exported.value.0;
    var parsed := ParseDeletionLedger(exported.value.1);
    RenderIsInjective(parsed.value, ledger);
    if required.After(parsed.value.coveredThrough) { return None, ledger; }
    r := ReplayDeletionLedger(restored, parsed.value, now, databaseName, expectedName);
    if r.Some? { CoveringLedgerRecovers(live.users, ledger, old(restored.tables), now); }
  }
}
