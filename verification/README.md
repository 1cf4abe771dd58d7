# Verified model of Recipe Lab's stateful cores

This project models the parts of Recipe Lab that keep state or meet the outside world: account deletion and its
recovery ledger, the supervisor of the disposable portfolio sandbox, the ingredient-name index, paged and literal
queries, the idempotent stores, the source archive and two request middlewares. `dafny verify dfyconfig.toml` checks it.

## What is modelled

**Account deletion and recovery** (`Text`, `Uuids`, `Timestamps`, `Json`, `DeletionLedger`, `LedgerText`, `Account*`).
The ledger of deleted members has one printed form. Its printer and its strict parser are modelled character by
character, over UUIDs below 2^128 (text form of section 4 of RFC 9562), UTC timestamps with microseconds (section 5.6
of RFC 3339) and the subset of JSON that the printer emits (sections 2 to 7 of RFC 8259). The 28 tables that a purge
touches or that refer to them are maps from key to row. A purge is the source's sequence of deletes and updates on a
`Database` object, with the RESTRICT and CASCADE keys and the append-only triggers as conditions under which a
statement is refused; a ghost trail keeps the tables after each statement. Export and replay are the source's loops
over it, and recovery is both together.

**Portfolio sandbox** (`Sandbox*`). The container daemon may do anything between two calls: resources vanish, names are
bound to new ids, calls fail, are interrupted and take any time up to their timeout. Only what an id denotes never
changes. Such behaviour is written as assignments of `*`, so every contract holds for every interleaving. The daemon
keeps a log, and the contracts say what that log shows: removal of one resource, of a generation, of what an earlier
supervisor left, and whole runs of the main loop.

**Ingredient names** (`CatalogNames`, `CatalogLookups`, `NameLocks`). A flush hook keeps one row per canonical name and
alias; lookups read only those rows. Name locks are a state machine of any number of transactions. Normalisation, digest
and lock key are arbitrary functions.

**Queries** (`LikePatterns`, `MemberActivity`, `ActivityPages`). LIKE is defined as in section 8.5 of ISO/IEC 9075-2. A
member's activity is the union of four sources; a client that follows cursors is a recursive function.

**Duplicates and stores** (`Overlap`, `LongestCommon`, `DuplicateScoring`, `DuplicateCandidates`, `DuplicateRules`,
`DuplicateEvidence`, `DuplicateCalls`, `DuplicateAnswers`, `RateLimits`). The scorer of recipe pairs works on parsed
structures, with reals for its exact fractions. The duplicate stores run one statement at a time among arbitrary other
calls that only add well-formed rows. Rate-limit buckets are a table with bounded pruning, compared with counting all
attempts.

**Archive and middlewares** (`SourceArchive`, `SourceTree`, `SourcePaths`, `ResponseEnvelope`, `BodyLimit`). Listing,
reading, writing and verifying the source archive as loops over entries; the two middlewares for any wrapped
application, given by the messages it sends and how it ends, or by the messages it receives.

The functions that give a program's tables, texts, names and answers are those its contract speaks of, so what they
mean is stated a second time without them, from columns, characters, numbers and messages: in `LedgerText`,
`AccountRows`, `AccountKeys`, `AccountRefusals`, `AccountStandings`, `AccountLedgers`, `SandboxResources`,
`DuplicateRules` and `DuplicateAnswers`, and in the lemmas whose names end in `Means`, `Columns` or `Spelling`.

## Where the code does less than a first reading suggests

- A purge cannot always be repeated: the append-only trigger of the catalog audit refuses to remove a context that is
  not there. `AccountReferences.SecondPurgeAllowedExactlyWithoutReviewedSubmissions` gives the exact condition, and
  `SecondPurgeRefused` a database. Replay never purges a member twice, so it is not affected.
- A purge can be refused at all: `AccountPurge.Database.Purge` gives the exact condition (`MayErase`), and
  `AccountReplay.OrderlyAllowsPurge` what the application keeps true that implies it.
- Two deletions need not commute as programs: one can remove the row that refuses the other
  (`AccountReplay.OrderMatters`). `AccountReplay.ReplayDeletionLedger` says exactly when a ledger goes through, and
  `AccountReplay.ReplayIsOrderFree` that in an orderly database the order does not matter.
- A heartbeat file can stay behind without a marker and with status 1 or 0, namely when `create` fails after making it
  and cannot remove it (`SandboxSupervisor.LeftHeartbeatHappens`). `SandboxSupervisor.RunGenerations` says exactly
  when; the next start-up withdraws it.
- A path with a slash at its end passes the path policy, and the archive written from it is refused
  (`SourcePaths.SlashedPathIsRefused`; `SourceTree.ListedArchiveIsAccepted` is the exact statement). Git lists no such
  path.
- Sorted locking is free of deadlocks exactly when the names that share a lock key are neighbours in the sort order
  (`NameLocks.DeadlockFreeExactlyWhenConvex`). Lock keys are 64-bit hashes, so this is not a theorem about all strings.
- A decision stored in a race can reuse a row where the same call alone would conflict
  (`DuplicateCalls.LateReuseHappens`; `DuplicateEvidence.DecisionsAreWriteOnce` says exactly when).
- A response whose headers are an iterable other than a list keeps whatever correlation headers the application gave it
  (`ResponseEnvelope.TupleHeadersStayUncorrelated`; `ResponseEnvelope.OneCorrelationHeader` is the exact statement).
- A score just below 1 rounds to 10000 points, so a probable candidate may be stored with a full score
  (`DuplicateCandidates.RoundedToFullScore`; `DuplicateCandidates.ThresholdInPoints` says exactly which).
- Clearing the context of a reviewed request also sets its `updated_at`, through the column's `onupdate`.

## Model

| member | source | states |
|---|---|---|
| Uuids.CanonicalUuid | backend/app/recovery/account_deletions.py:138-147 | a text is accepted only when it is the canonical spelling of the UUID returned |
| Uuids.CanonicalRoundTrip | backend/app/recovery/account_deletions.py:138-147 | every UUID is read back from its canonical text |
| Uuids.CanonicalOrder | backend/app/recovery/account_deletions.py:203-211 | comparing canonical texts is comparing the numbers |
| Uuids.CanonicalInjective | backend/app/recovery/account_deletions.py:203-211 | different UUIDs have different canonical texts |
| Timestamps.Parse | backend/app/recovery/account_deletions.py:125-135 | a timestamp is accepted only in the spelling the printer gives it |
| Timestamps.FormatRoundTrip | backend/app/recovery/account_deletions.py:121-135 | every timestamp is read back from its printed form |
| Timestamps.FormatOrder | backend/app/recovery/account_deletions.py:121-122 | printed forms sort like the instants |
| Json.TakeValueUndoes | backend/app/recovery/account_deletions.py:173-191 | parsing a printed JSON value followed by any text returns the value and leaves that text |
| Json.LoadsUndoesDump | backend/app/recovery/account_deletions.py:173-191 | a document printed with sorted keys and tight separators is read back as the same value |
| DeletionLedgers.RenderedValueIsReadBack | backend/app/recovery/account_deletions.py:159-180 | printing loses nothing, for ledgers of any version and order |
| DeletionLedgers.RenderLength | backend/app/recovery/account_deletions.py:61-63 | the exact number of bytes of a rendering; ten thousand entries stay within the byte limit |
| DeletionLedgers.FollowsExtends | backend/app/recovery/account_deletions.py:203-216 | comparing each entry with the last text alone keeps the whole list increasing |
| DeletionLedgers.ReadEntries | backend/app/recovery/account_deletions.py:203-216 | the loop accepts exactly increasing entries at or before the coverage time, and returns them |
| DeletionLedgers.ParseDeletionLedger | backend/app/recovery/account_deletions.py:183-224 | the accepted texts are exactly the renderings of well-formed ledgers, which `LedgerText` spells out, and the ledger rendered is returned |
| DeletionLedgers.RenderIsInjective | backend/app/recovery/account_deletions.py:173-180 | two well-formed ledgers with one rendering are equal, so the parser's answer is the only one |
| LedgerText.FormatSpelling | backend/app/recovery/account_deletions.py:121-122 | a timestamp is written as its decimal digits with `--T::.Z` at places 4, 7, 10, 13, 16, 19 and 26 |
| LedgerText.CanonicalSpelling | backend/app/recovery/account_deletions.py:138-147 | an id is written as 32 hexadecimal digits, most significant first, with hyphens at places 8, 13, 18 and 23 |
| LedgerText.RenderSpelling | backend/app/recovery/account_deletions.py:159-180 | the whole text of any well-formed ledger: keys, quotes, commas and brackets in this order, and a newline |
| LedgerText.SampleSpelling | backend/app/recovery/account_deletions.py:173-180 | the text of a concrete ledger with one entry, character by character |
| LedgerText.WellFormedMeans | backend/app/recovery/account_deletions.py:183-224 | what is accepted: version 1, at most ten thousand entries of strictly ascending ids, none deleted after the coverage time |
| AccountPurge.Database.PurgeDrafts | backend/app/repositories/account_lifecycle.py:108-178 | draft statements in order, each leaving the tables listed for it: refused exactly when a publication names a draft that would go, else the drafts' part of the erasure |
| AccountPurge.Database.PurgeEvidence | backend/app/repositories/account_lifecycle.py:180-200 | evidence without a publication goes; refused exactly when there is some and its owner is no tombstone |
| AccountPurge.Database.PurgeRequests | backend/app/repositories/account_lifecycle.py:202-234 | pending requests go with their audit, reviewed ones lose their context; refused exactly when a key or trigger objects |
| AccountPurge.Database.PurgeAccess | backend/app/repositories/account_lifecycle.py:236-284 | marks, follows, reports, notes, grants and sign-in state; refused exactly when a moderation note may not be scrubbed |
| AccountPurge.Database.Purge | backend/app/repositories/account_lifecycle.py:100-284 | goes through exactly when `MayErase` holds and then leaves exactly the erased tables (row by row in `AccountRows.RowsAfterErasure`), else changes nothing; the tables after each statement are the first of the 27 listed for a purge, all of them exactly when it goes through, and every reference resolves in each |
| AccountRows.RowsAfterErasure | backend/app/repositories/account_lifecycle.py:100-284 | what a purge leaves in each table: which rows are there, with which columns, said from the rows before it; follows go at either end, reports and notes stay and are scrubbed, sessions take their dependent rows along |
| AccountRefusals.PurgeRefusedExactlyFor | backend/app/repositories/account_lifecycle.py:100-284 | the seven kinds of rows for which alone a purge is refused, each said from its columns |
| AccountStatements.DraftStatementsResolve | backend/app/repositories/account_lifecycle.py:115-178 | after each of the nine statements on recipes and drafts every reference resolves, after the last two exactly because no publication names a draft that goes |
| AccountStatements.EvidenceStatementsResolve | backend/app/repositories/account_lifecycle.py:180-200 | the same after each of the three statements on duplicate evidence, without any condition |
| AccountStatements.RequestStatementsResolve | backend/app/repositories/account_lifecycle.py:202-234 | the same after each of the four statements on catalog requests, past the first when no other row names a pending request |
| AccountStatements.SignInStatementsResolve | backend/app/repositories/account_lifecycle.py:252-284 | the same after each statement on notes, grants and sign-in state, sessions going with what is bound to them |
| AccountErasure.ErasedRoundsCompose | backend/app/repositories/account_lifecycle.py:100-284 | erasing some accounts and then others is erasing all of them together |
| AccountErasure.ErasureCommutes | backend/app/repositories/account_lifecycle.py:100-284 | on the tables, erasing different accounts commutes; whether the database lets both go may depend on the order (AccountReplay.OrderMatters) |
| AccountVerifier.ErasureSatisfiesVerifier | backend/app/recovery/account_deletions.py:341-423 | from any database, erasing a set of accounts satisfies every criterion for the whole set, and no erasure brings back residue of another account |
| AccountVerifier.ResidueSplits | backend/app/recovery/account_deletions.py:341-423 | a batch is free of residue exactly when its parts are |
| AccountRefusals.TombstoneColumns | backend/app/models/user.py:30-64 | what counts as a tombstone, and when the table accepts a deleted member |
| AccountRefusals.ResidueIsOneOf | backend/app/recovery/account_deletions.py:341-423 | the verifier finds residue exactly when one of the listed rows is there, each said from its columns |
| AccountRefusals.VerifiedMeansGone | backend/app/recovery/account_deletions.py:317-423 | a batch verifies exactly when it names nobody twice, everybody is a blank tombstone with the time given, and nothing is left |
| AccountReferences.ReferencesResolveExactlyWhenAllowed | backend/app/repositories/account_lifecycle.py:108-284 | every surviving reference resolves after the purge exactly when no publication names a draft that goes and no surviving row names a pending request that goes |
| AccountKeys.ResolvesColumns | backend/app/models/recipe_draft.py:217-497 | references resolve exactly when every foreign key holds, each as an inclusion of the referring columns in those referred to, here and between evidence, requests and sessions |
| AccountReferences.PublicTopologyStays | backend/app/repositories/account_lifecycle.py:108-284 | users and publications are untouched; recipes, published drafts, reviewed requests and cited evidence stay, without owner and private text |
| AccountReferences.OthersUntouched | backend/app/repositories/account_lifecycle.py:108-284 | in all tables, no row of another account is removed, changed or added, where a row belongs to the account it names or to the owner of the draft, action, preflight, request or session it names |
| AccountReferences.ErasureIsIdempotent | backend/app/repositories/account_lifecycle.py:100-284 | on the tables, erasing again changes nothing |
| AccountReferences.SecondPurgeAllowedExactlyWithoutReviewedSubmissions | backend/migrations/versions/20260826_0017_add_account_lifecycle.py:30-71 | a second purge is let through exactly when the account has no reviewed request with its submission on record |
| AccountReferences.SecondPurgeRefused | backend/migrations/versions/20260826_0017_add_account_lifecycle.py:30-71 | a concrete database, with references and checks in order, in which the first purge is allowed and the second is refused |
| AccountReplay.TombstoneMember | backend/app/services/account_lifecycle.py:38-67 | succeeds exactly for a deletable member whose purge is allowed, and leaves the tombstone and the erased tables, else changes nothing |
| AccountReplay.OrderlyAllowsPurge | backend/app/repositories/account_lifecycle.py:108-284 | in an orderly database with resolved references every deletable member can be tombstoned and purged |
| AccountReplay.OrderlyStays | backend/app/recovery/account_deletions.py:558-575 | deleting one member keeps the database orderly and its references resolved |
| AccountReplay.TallyCountsEveryEntry | backend/app/recovery/account_deletions.py:558-595 | absent, already deleted and replayed add up to the length of the ledger |
| AccountReplay.ReplayDeletionLedger | backend/app/recovery/account_deletions.py:529-595 | returns a result exactly when the database is the expected one, its earlier deletions verify and every other member may be purged on the tables left when its turn comes, which an orderly database always allows; then exactly the deletable members of the ledger are deleted, with the counts of the old database, else nothing has changed |
| AccountStandings.ReplayableColumns | backend/app/recovery/account_deletions.py:505-575 | refused exactly when a listed user is present and no member, the members already marked deleted do not verify, or a living one may not go in turn |
| AccountStandings.DeletedExactly | backend/app/recovery/account_deletions.py:505-575 | deleted are exactly the listed present members who are active or suspended, at the ledger's times |
| AccountStandings.UsersAfterReplay | backend/app/recovery/account_deletions.py:558-575 | the user table afterwards: tombstones for those, column by column, and every other row as it was |
| AccountStandings.CountsOfEntries | backend/app/recovery/account_deletions.py:558-595 | the counts are the numbers of entries without a user, with a member marked deleted, and with a living member |
| AccountStandings.MayDeleteMeans | backend/app/services/account_lifecycle.py:38-67 | a deletion may go through exactly when the purge may on the tables in which only the tombstone was written |
| AccountReplay.ReplayEntries | backend/app/recovery/account_deletions.py:558-575 | the loop over entries in any order: goes through exactly when each member may go in its turn, and leaves the same deletions |
| AccountReplay.OrderlyGoInTurn | backend/app/recovery/account_deletions.py:558-575 | in an orderly database the members of any list may go one after the other, whatever the order |
| AccountReplay.ReplayedAreVerified | backend/app/recovery/account_deletions.py:578-589 | the second verification of a replay never fails |
| AccountReplay.ReplayLeavesVerifiedTombstones | backend/app/recovery/account_deletions.py:529-595 | afterwards every ledger member still present is a verified tombstone at the ledger's time |
| AccountReplay.EarlierStayVerified | backend/app/recovery/account_deletions.py:545-556 | tombstones verified before a replay are verified after it |
| AccountReplay.SecondReplayChangesNothing | backend/app/recovery/account_deletions.py:529-595 | replaying again goes through, reports none replayed, counts the earlier ones as already deleted, and changes nothing |
| AccountReplay.ReplayKeepsChecks | backend/app/models/user.py:30-64 | no row that a replay writes is refused by the checks on users, drafts, requests and audit events, among them the shape of a deleted member |
| AccountChecks.UserRefused | backend/app/models/user.py:30-64 | the users refused by these checks, by what is wrong with a column |
| AccountChecks.DraftRefused | backend/app/models/recipe_draft.py:78-118 | the drafts refused |
| AccountChecks.RequestRefused | backend/app/models/catalog.py:114-220 | the requests and audit events refused |
| AccountReplay.ReplayIsOrderFree | backend/app/recovery/account_deletions.py:558-575 | in an orderly database every order of the same deletions goes through, and all leave one database |
| AccountReplay.OrderMatters | backend/app/recovery/account_deletions.py:558-575 | elsewhere the order decides: a concrete database, with references and checks in order, in which two deletions go through in one order and not in the other |
| AccountExport.CollectEntries | backend/app/recovery/account_deletions.py:448-457 | one entry for each listed member, or failure exactly when a time is missing or past the coverage time |
| AccountExport.ListingIsComplete | backend/app/recovery/account_deletions.py:434-446 | a listing below the limit holds every deleted member |
| AccountExport.ExportDeletionLedger | backend/app/recovery/account_deletions.py:426-465 | succeeds exactly when the database is exportable; the ledger is well formed, covers every deleted member, and its text fits the parser's limit |
| AccountLedgers.ListingMeans | backend/app/recovery/account_deletions.py:430-446 | the query names members marked deleted only, ascending by id, up to ten thousand all of them and else one more |
| AccountLedgers.ExportableColumns | backend/app/recovery/account_deletions.py:434-459 | exportable means at most ten thousand such members, each a blank tombstone from before the coverage time, and no residue |
| AccountLedgers.CoversMeans | backend/app/recovery/account_deletions.py:448-463 | the ledger has an entry for each such member with the time of the deletion, and no other |
| AccountRecovery.CoveringLedgerRecovers | backend/app/recovery/account_deletions.py:529-595 | replaying a complete ledger leaves every member deleted in the one database and present in the other a verified tombstone at its time |
| AccountRecovery.Recover | backend/app/recovery/account_deletions.py:426-595 | export, parse and replay as one: the text is always accepted and nothing of the ledger is lost; it succeeds exactly under the conditions of export and replay, with the replay's tables and counts, and then every deletion of the live database is recovered in the restored one |
| AccountLedgers.RecoveredMeans | backend/app/recovery/account_deletions.py:426-595 | recovered means: gone in the restored database at the same time, blank and without residue |
| SandboxNames.IdentifierIsExact | scripts/run_portfolio_sandbox.py:423-433 | a resource is attributed to a generation exactly when it has one of its names and its label |
| SandboxNames.NamesAreDisjoint | scripts/run_portfolio_sandbox.py:195-206 | different generations never share a resource name |
| SandboxDaemon.Daemon.ListName | scripts/run_portfolio_sandbox.py:485-490 | the listing call: when it answers it holds exactly the live resources of that name, otherwise it fails or is interrupted |
| SandboxRemoval.CheckAndRemove | scripts/run_portfolio_sandbox.py:573-586 | after a listing of one id: inspect it, end with a refusal for a mismatch and with any interruption, ask at once for the removal of that id after a match, and try again only after a call that failed or a removal that was asked for |
| SandboxRemoval.TryOnce | scripts/run_portfolio_sandbox.py:563-592 | one guarded pass: exactly the outcome that the last call's reply or the expired time calls for, or else one more listing and on with the loop |
| SandboxRemoval.RemoveOwnedResource | scripts/run_portfolio_sandbox.py:555-598 | the log is a listing and then, event by event, what may follow; the first event that calls for an outcome is the last and decides it: absence, a mismatch or another id, an interruption, ten seconds over; without one, 40 listings are spent and nothing is owed |
| SandboxRemoval.RemovalIsAttempted | scripts/run_portfolio_sandbox.py:555-598 | however it ends, a removal listed the name at least once and at most 40 times, and gave up only with its attempts or its time spent |
| SandboxRemoval.RemovalIsChecked | scripts/run_portfolio_sandbox.py:568-586 | every removal request directly follows a listing of its id alone and a matching inspection of it |
| SandboxRemoval.OneIdThroughout | scripts/run_portfolio_sandbox.py:566-572 | every earlier listing that showed the name bound showed the id that is asked to go |
| SandboxRemoval.RemovalIsOwned | scripts/run_portfolio_sandbox.py:496-545 | whatever happens between the calls, what is asked to be removed was created with this generation's name and label |
| SandboxRemoval.DoneMeansAbsent | scripts/run_portfolio_sandbox.py:568-570 | a normal return means that at its last call no live resource had the name |
| SandboxResources.ListingEndings | scripts/run_portfolio_sandbox.py:563-572 | which replies to a listing end a removal, and how |
| SandboxResources.OtherEndings | scripts/run_portfolio_sandbox.py:573-598 | which inspections, requests and interruptions end it, and how |
| SandboxResources.WhatComesNext | scripts/run_portfolio_sandbox.py:563-598 | what follows each event of a removal that goes on: what is inspected and removed is the id just listed |
| SandboxGenerations.DestroyGeneration | scripts/run_portfolio_sandbox.py:601-607 | one removal after another in the given order, each with its own outcome in the log, up to the first that fails; a normal return means all six resources were seen absent in that order, whose names `SandboxResources.TargetsInOrder` spells out |
| SandboxResources.TargetsInOrder | scripts/run_portfolio_sandbox.py:601-607 | the six resources by their spelled names: frontend, backend, initialize, database, ingress network, private network |
| SandboxResources.OneTargetPerName | scripts/run_portfolio_sandbox.py:601-607 | each name that reconciliation attributes to a generation is the target of exactly one removal |
| SandboxResources.ClearedMeans | scripts/run_portfolio_sandbox.py:601-607 | a normal return means a listing of each of the six names that showed nothing |
| SandboxResources.ClearedInOrder | scripts/run_portfolio_sandbox.py:601-607 | and these listings come in the order of removal |
| SandboxResources.OwnedMeans | scripts/run_portfolio_sandbox.py:496-545 | what is removed has a name of the generation and its label |
| SandboxGenerations.DestructionIsAttempted | scripts/run_portfolio_sandbox.py:601-607 | however it ends, the first resource was looked for |
| SandboxGenerations.EachIsOwned | scripts/run_portfolio_sandbox.py:601-607 | every removal request belongs to the generation and is made in its resource's turn |
| SandboxReconciliation.Collect | scripts/run_portfolio_sandbox.py:455-475 | accepts exactly when every resource names its own generation and no name repeats, and collects all names and generations |
| SandboxReconciliation.DestroyAll | scripts/run_portfolio_sandbox.py:477-480 | the log is the destruction of one generation after another in the order of their text, all of them or up to and with the first that failed; success means each was seen gone |
| SandboxReconciliation.ReconcileOrphanedGenerations | scripts/run_portfolio_sandbox.py:452-481 | all or nothing: no removal unless the full discovery is accepted, then the destruction of exactly the discovered generations in order, up to the first that fails; the count is theirs and all were seen gone on success |
| SandboxResources.AcceptableMeans | scripts/run_portfolio_sandbox.py:455-475 | an accepted discovery shows resources with a generation's name and label only, none twice |
| SandboxResources.RefusalMeans | scripts/run_portfolio_sandbox.py:455-475 | a refused discovery is never one that is acceptable as a whole |
| SandboxResources.DestroyedInOrder | scripts/run_portfolio_sandbox.py:477-480 | the generations destroyed are a beginning of those found in the order of their text, each after the other, all of them on success |
| SandboxSupervisor.SupervisorHeartbeat.Refresh | scripts/run_portfolio_sandbox.py:305-312 | logs a refresh exactly when it succeeds, and never succeeds once invalidated |
| SandboxSupervisor.SupervisorHeartbeat.Invalidate | scripts/run_portfolio_sandbox.py:314-336 | repeating it has no effect; otherwise an attempt is logged, which is a withdrawal exactly on success |
| SandboxSupervisor.CreateHeartbeat | scripts/run_portfolio_sandbox.py:232-258 | four ways: no file, a file left behind with an exception, a file removed again with an exception, or a heartbeat refreshed once |
| SandboxSupervisor.RefreshedWhileAlive | scripts/run_portfolio_sandbox.py:305-312 | in every run of the main loop a refresh comes after the making of its file with no withdrawal in between |
| SandboxSupervisor.LeftHeartbeatHappens | scripts/run_portfolio_sandbox.py:250-258 | a concrete round in which the first refresh and then the removal of the file fail: status 1, nothing marked, and the file stays |
| SandboxSupervisor.InvalidateOrphanedHeartbeats | scripts/run_portfolio_sandbox.py:339-357 | succeeds exactly when the directory can be listed, all names are heartbeats' and each was withdrawn in order; a foreign name or a failed listing touches none, and any other failure is that of one heartbeat after the earlier ones were withdrawn |
| SandboxSupervisor.StartUp | scripts/run_portfolio_sandbox.py:1004-1033 | ready unless a heartbeat could not be withdrawn, the marker is there, or reconciliation refused or a destruction failed as the log shows; ready means an accepted, complete reconciliation; each failure but a found marker tries to leave one; with the marker nothing but heartbeats is touched |
| SandboxResources.IrreconcilableMeans | scripts/run_portfolio_sandbox.py:1014-1033 | a reconciliation that failed was refused, or accepted its discovery and got stuck in the destruction of one of the generations found |
| SandboxSupervisor.RunGeneration | scripts/run_portfolio_sandbox.py:1042-1098 | the events of a round are those of its course: the life of the heartbeat, what was raised, the attempt to withdraw it, and then the destruction of the generation, whatever was raised; proven exactly when a returned heartbeat was withdrawn and every removal returned normally |
| SandboxSupervisor.EveryRoundRemoves | scripts/run_portfolio_sandbox.py:1078-1090 | in every run, after every generation its resources are looked for, the listener first, and a round that went well has six removals |
| SandboxSupervisor.RunGenerations | scripts/run_portfolio_sandbox.py:1042-1112 | the log is one round after another; all but the last let the loop go on, and the last one's proof and exception decide the ending: 78 unproven, 0 for an interrupt or a single run, 1 for an exception, propagation for anything else; any other ending than 78 leaves no resources, and no heartbeat exactly when `create` left none in the last round |
| SandboxSupervisor.Supervise | scripts/run_portfolio_sandbox.py:996-1123 | in every run each generation begins only after reconciliation and after all earlier ones were seen gone and withdrawn; start-up and the rounds end it as above; any other status than 78 leaves no resources behind, 78 goes with an attempt to leave the marker, and a run that finds the marker starts and removes nothing |
| SandboxResources.StatusByException | scripts/run_portfolio_sandbox.py:1093-1112 | the status by what was raised: 78 for an unproven round, 0 for an interrupt or a single run, 1 for an exception, propagation for anything else |
| SandboxResources.RoundByHeartbeat | scripts/run_portfolio_sandbox.py:1042-1090 | the events of a round before its removals, spelled out for each way its heartbeat fared |
| SandboxResources.AllNamesFoundNone | scripts/run_portfolio_sandbox.py:1078-1112 | after a run that leaves nothing, every name of every generation begun was seen unbound after its beginning |
| CatalogNames.Catalog.StageNames | backend/app/models/ingredient.py:378-429 | maintaining rows for new and changed sources only gives the index computed from scratch |
| CatalogNames.Catalog.Flush | backend/app/models/ingredient.py:83-135 | every flush keeps the index complete; it succeeds exactly when the outcome keeps all keys apart and no new id is taken or referenced row deleted, unless a passing clash is refused on the way; failure changes nothing |
| CatalogNames.RefusedExactlyForPassingClash | backend/app/models/ingredient.py:83-135 | between two allowed catalogs, some order of the row-by-row statements is refused exactly when a row's new name has the key of another row's old one |
| CatalogNames.HookStep | backend/app/models/ingredient.py:395-429 | each step of the hook keeps the index complete, also when an unchanged name is skipped |
| CatalogNames.AliasWritten | backend/app/models/ingredient.py:378-429 | a written alias has the object's spelling and ingredient |
| CatalogNames.OthersNotWritten | backend/app/models/ingredient.py:378-429 | a row that is not written stays as it was, and none appears |
| CatalogNames.SurvivingRows | backend/app/models/ingredient.py:83-135 | deleted rows go, aliases also with their ingredient, and nothing else changes |
| CatalogNames.IndexRows | backend/app/models/ingredient.py:365-376 | the index row of each name: kind, spelling, normalised form and digest |
| CatalogNames.SourcesAllowedMeans | backend/app/models/ingredient.py:190-275 | what the two source tables allow, from their columns |
| CatalogNames.KeysApartMeans | backend/app/models/ingredient.py:80-142 | what the index adds: no two names of either table have one digest |
| CatalogLookups.ResolveByOwner | backend/app/repositories/ingredients.py:120-140 | the one name with a key is the row that is found |
| CatalogLookups.ResolveIsAFullScan | backend/app/repositories/ingredients.py:155-174 | a name resolves to an ingredient exactly when one of the ingredient's names has its key, and is an error exactly when its key is empty |
| CatalogLookups.LabelAgreesWithIndex | backend/app/repositories/ingredients.py:143-152 | a label is curated for exactly the ingredient the index resolves it to, and is the spelling the index holds |
| NameLocks.LockCatalogNames | backend/app/catalog_names.py:32-40 | one lock for each name of the set, in sorted order |
| NameLocks.NoNameIsHeldTwice | backend/app/catalog_names.py:32-40 | in every state of every run no key, and so no name, is held by two transactions |
| NameLocks.ExclusiveMeans | backend/app/catalog_names.py:32-40 | that is, of two running transactions no lock taken by the one has the key of a lock taken by the other |
| NameLocks.DeadlockMeans | backend/app/catalog_names.py:32-40 | a deadlock is a state with an uncommitted transaction from which no step leads |
| NameLocks.ConvexNeverDeadlocks | backend/app/catalog_names.py:32-40 | with convex keys some transaction can always go on |
| NameLocks.NonConvexDeadlocks | backend/app/catalog_names.py:32-40 | two names of one key around a name of another lead two transactions into a deadlock |
| NameLocks.DeadlockFreeExactlyWhenConvex | backend/app/catalog_names.py:32-40 | no run of any number of transactions deadlocks, exactly when the names of each key are neighbours |
| NameLocks.DistinctKeysAreConvex | backend/app/catalog_names.py:32-40 | distinct keys for distinct names are such a case |
| NameLocks.RunsAreBounded | backend/app/catalog_names.py:32-40 | a run is no longer than the locks and commits it starts with, so without deadlock all commit |
| LikePatterns.ReplacementsEscapeEachCharacter | backend/app/db/query.py:6-9 | three replacements, each over the last one's result, escape each special character exactly once |
| LikePatterns.LikeEscaped | backend/app/db/query.py:6-9 | an escaped text matches itself and nothing else |
| LikePatterns.ContainsPatternMeansOccurs | backend/app/db/query.py:12-15 | the pattern matches exactly the strings in which the text occurs |
| LikePatterns.ContainsPatternIsValid | backend/app/db/query.py:12-15 | no text makes a pattern the database refuses |
| LikePatterns.ValidPatternSplits | backend/app/db/query.py:12-15 | valid patterns are exactly the sequences of plain characters and escaped special ones |
| LikePatterns.Wildcards | backend/app/db/query.py:3-15 | what the wildcards and their escaped forms match |
| MemberActivity.SourceIsDistinct | backend/app/repositories/member_activity.py:76-169 | the four sources never repeat a kind and entity |
| MemberActivity.SourceCountsTableRows | backend/app/repositories/member_activity.py:76-169 | `UNION ALL` counts no row twice: each source has as many rows as its table has qualifying ones, and the union their sum |
| MemberActivity.ShownExactlyWhen | backend/app/repositories/member_activity.py:76-169 | own active drafts, own publications under their state, own reviewed requests, and saved recipes only while publicly readable |
| MemberActivity.RowColumns | backend/app/repositories/member_activity.py:76-169 | time, title, state and entity of every row, by its source |
| MemberActivity.SearchTexts | backend/app/repositories/member_activity.py:76-169 | the text that each row is searched by |
| ActivityPages.SourceHasDistinctKeys | backend/app/repositories/member_activity.py:76-169 | no two rows share time, kind and entity, as paging needs |
| MemberActivity.RankFollowsNames | backend/app/repositories/member_activity.py:220-224 | ordering kinds by rank is ordering their names |
| MemberActivity.NewestFirst | backend/app/repositories/member_activity.py:220-224 | newer rows come first; of one time by the name of the kind, then by entity |
| ActivityPages.OrderedIsSorted | backend/app/repositories/member_activity.py:220-224 | the order lists every row once, each before the next |
| ActivityPages.ActivityRows | backend/app/repositories/member_activity.py:203-227 | the first rows, up to the limit, of those all filters accept |
| ActivityPages.FiltersMean | backend/app/repositories/member_activity.py:242-271 | the filters together select the rows of the tab in which the search occurs and that come after the cursor |
| ActivityPages.BrowseMemberActivity | backend/app/repositories/member_activity.py:230-287 | a page is the first rows after the cursor, with a next cursor exactly when more follow a non-empty page |
| ActivityPages.PastOfOrdered | backend/app/repositories/member_activity.py:256-271 | what comes after a row is the rest of the order |
| ActivityPages.FollowingShowsEachOnce | backend/app/repositories/member_activity.py:230-287 | following cursors shows every row once in order, on as few pages as hold them and at least one, all but the last full |
| ActivityPages.CountsAddUp | backend/app/repositories/member_activity.py:172-187 | the tabs' counts are those of their sources and add up to all |
| ActivityPages.TabsShow | backend/app/repositories/member_activity.py:203-218 | which kinds each tab shows |
| ActivityPages.CountsMean | backend/app/repositories/member_activity.py:172-187 | what each count counts |
| DuplicateCandidates.CheckCandidate | backend/app/repositories/recipe_duplicates.py:147-196 | one candidate passes exactly when its table accepts the row, its reasons are tidy and its versions are the preflight's |
| DuplicateCandidates.CheckClassification | backend/app/repositories/recipe_duplicates.py:198-211 | the result's class must be the one the evidence implies |
| DuplicateCandidates.ValidateCandidates | backend/app/repositories/recipe_duplicates.py:123-211 | accepts exactly the evidence that both tables accept and that is coherent as a whole |
| DuplicateRules.PassesMeans | backend/app/repositories/recipe_duplicates.py:147-196 | a candidate passes exactly as exact evidence or as probable evidence with one known reason of each family in order, from its columns; the checks of the codes' form refuse nothing more |
| DuplicateRules.SnakeCaseMeans | backend/app/repositories/recipe_duplicates.py:32 | a code is in snake case exactly when it is words of letters and digits with one underscore between any two |
| DuplicateCandidates.ChecksMeanAcceptable | backend/app/models/recipe_duplicate.py:151-217 | the single checks together mean the table constraints on rank, score, reasons, versions and same parent |
| DuplicateCandidates.RoundsToNearest | backend/app/repositories/recipe_duplicates.py:74-81 | a score is rounded to the nearest basis point, ties upward |
| DuplicateCandidates.PointsFollowScores | backend/app/repositories/recipe_duplicates.py:74-81 | a larger score never has fewer points, whatever the denominators |
| DuplicateCandidates.ThresholdInPoints | backend/app/services/recipe_duplicate_scoring.py:40-41 | exactly which scores reach the threshold and the full score in points; four fifths always does |
| Overlap.ImageOverlaps | backend/app/services/recipe_duplicate_scoring.py:584-588 | comparing what elements map to never finds less in common, and finds as much when the images tell them apart |
| LongestCommon.LcsLength | backend/app/services/recipe_duplicate_scoring.py:659-669 | the table computed row by row holds the recurrence of the longest common subsequence |
| LongestCommon.LengthIsLongest | backend/app/services/recipe_duplicate_scoring.py:659-669 | which is the greatest length of a common subsequence |
| LongestCommon.LengthIsSymmetric | backend/app/services/recipe_duplicate_scoring.py:659-669 | and the same in both directions |
| DuplicateScoring.CandidateScales | backend/app/services/recipe_duplicate_scoring.py:601-623 | 1 and then exactly the positive ratios of compatible values of one ingredient, ascending and without repetition |
| DuplicateScoring.FromPairMeans | backend/app/services/recipe_duplicate_scoring.py:591-623 | a scale comes from a pair exactly when both are measured alike and it takes a value of the one to the other's at its place |
| DuplicateScoring.CandidatesSuffice | backend/app/services/recipe_duplicate_scoring.py:601-656 | no positive scale outside the candidates matches more than 1 does, so trying the finitely many candidates is trying all scales |
| DuplicateScoring.QuantityScore | backend/app/services/recipe_duplicate_scoring.py:642-656 | the scale found matches as much as any positive scale, is 1 whenever 1 does and else the least candidate, and the score is its multiset Dice |
| DuplicateScoring.MatchesSwap | backend/app/services/recipe_duplicate_scoring.py:626-639 | scaling one recipe matches what scaling the other by the inverse does |
| DuplicateScoring.ScoreIsSymmetric | backend/app/services/recipe_duplicate_scoring.py:774-850 | all components, and so the score, are the same in both directions |
| DuplicateScoring.ScoreIsBounded | backend/app/services/recipe_duplicate_scoring.py:774-850 | components, the actions' part and the total lie between 0 and 1 |
| DuplicateScoring.QuantitiesNeverExceedIngredients | backend/app/services/recipe_duplicate_scoring.py:584-656 | the quantity component is never above the ingredient component |
| DuplicateScoring.FullScoreExactlyWhenSame | backend/app/services/recipe_duplicate_scoring.py:774-850 | the full score is given exactly to recipes whose measured ingredients are proportional and whose action inputs and parameters are the same in order |
| DuplicateScoring.ActionReasonMeans | backend/app/services/recipe_duplicate_scoring.py:749-758 | the action reason names what differs first in the recipes themselves: kinds, their order, inputs or parameters |
| DuplicateScoring.QuantityReasonMeans | backend/app/services/recipe_duplicate_scoring.py:740-747 | matching means equal at scale 1, proportional means equal at another scale only |
| DuplicateScoring.DifferentQuantitiesMeans | backend/app/services/recipe_duplicate_scoring.py:740-747 | quantities differ exactly when none match at any positive scale, and match partially otherwise |
| DuplicateScoring.IngredientReasonMeans | backend/app/services/recipe_duplicate_scoring.py:733-738 | the ingredient reason: the same bag, one in common, or none |
| DuplicateScoring.Weights | backend/app/services/recipe_duplicate_scoring.py:34-40 | the weights of the components in total and within the actions |
| DuplicateScoring.WorkMeans | backend/app/services/recipe_duplicate_scoring.py:550-561 | the estimate of the work, and its limit |
| DuplicateScoring.ScorePair | backend/app/services/recipe_duplicate_scoring.py:774-864 | refused exactly over the work budget; otherwise components, score, scale, class and reasons are those of the best scale, or the fixed ones of an exact match |
| DuplicateScoring.ProbableResultsAreStorable | backend/app/services/recipe_duplicate_scoring.py:850-864 | what the scorer calls a probable duplicate meets the constraints of a stored candidate |
| DuplicateEvidence.PreflightsAreWriteOnce | backend/app/repositories/recipe_duplicates.py:214-313 | whatever ran in between: a created or reused preflight would be reused by the same call, a conflict would conflict again, and the unresolved error is never raised; a call that does not create writes nothing, every new row but the one created comes from another call |
| DuplicateEvidence.DecisionsAreWriteOnce | backend/app/repositories/recipe_duplicates.py:348-456 | the same for decisions, with nothing written but the decision created; a reused decision would be reused again unless its action has been taken for another preflight |
| DuplicateEvidence.OneCallCreatesPreflight | backend/app/repositories/recipe_duplicates.py:252-275 | of all interleaved calls for one action at most one creates a preflight |
| DuplicateEvidence.OneCallCreatesDecision | backend/app/repositories/recipe_duplicates.py:421-439 | of all interleaved calls for one preflight or one action at most one creates a decision |
| DuplicateEvidence.DecisionStays | backend/app/models/recipe_duplicate.py:240-281 | a stored decision never changes, is the only one of its preflight and of its action, and acknowledges its preflight |
| DuplicateCalls.InsertKeepsPreflights | backend/app/repositories/recipe_duplicates.py:251-273 | an accepted insert keeps one preflight per action, and all evidence valid |
| DuplicateCalls.InsertKeepsDecisions | backend/app/repositories/recipe_duplicates.py:420-434 | an insert keeps one decision per preflight and per action, each matching its preflight |
| DuplicateCalls.EvidenceTables.StorePreflight | backend/app/repositories/recipe_duplicates.py:214-313 | run among other calls, it ends as the specification says for the stores its statements saw; its own writes are one insert when it creates and none otherwise; the tables stay well formed |
| DuplicateAnswers.PreflightAlone | backend/app/repositories/recipe_duplicates.py:214-313 | a call alone: reused exactly for a row of its actor, action and fingerprint, a conflict exactly for one with another fingerprint, then the evidence decides |
| DuplicateAnswers.ReusedPreflightColumns | backend/app/repositories/recipe_duplicates.py:214-313 | whatever ran in between, a reused preflight has the request's actor, action and fingerprint at the end |
| DuplicateAnswers.CreatedPreflightColumns | backend/app/repositories/recipe_duplicates.py:251-275 | a created one is the request, column by column |
| DuplicateCalls.EvidenceTables.StoreDecision | backend/app/repositories/recipe_duplicates.py:348-456 | the same for decisions; what an answer means for the stored columns is in `DuplicateAnswers` |
| DuplicateAnswers.ReusedDecisionColumns | backend/app/repositories/recipe_duplicates.py:316-456 | whatever ran in between, a reused decision has the request's decision, preflight, policy, digest and actor at the end |
| DuplicateAnswers.RowOfActionDecides | backend/app/repositories/recipe_duplicates.py:377-397 | the row found for the action decides: equal in these columns it is reused, and any difference is a conflict |
| DuplicateAnswers.RowOfPreflightDecides | backend/app/repositories/recipe_duplicates.py:399-418 | without one, the row found for the preflight decides in the same way |
| DuplicateAnswers.RefusedRequests | backend/app/repositories/recipe_duplicates.py:348-375 | what is refused before: an unknown decision, a preflight of another actor, another policy or digest |
| DuplicateAnswers.DecisionAlone | backend/app/repositories/recipe_duplicates.py:348-456 | a call alone creates exactly when an admitted request finds nothing in its way |
| DuplicateAnswers.CreatedDecisionColumns | backend/app/repositories/recipe_duplicates.py:420-434 | a created decision is the request, column by column |
| DuplicateCalls.LateReuse | backend/app/repositories/recipe_duplicates.py:435-456 | in the one race that differs, the call reuses a decision where it would conflict alone |
| DuplicateCalls.LateReuseHappens | backend/app/repositories/recipe_duplicates.py:435-456 | a concrete history of that race |
| RateLimits.BucketTable.ExpiredKeys | backend/app/repositories/abuse_limits.py:37-53 | at most 256 expired buckets, and those that come first |
| RateLimits.BucketTable.RecordAttempt | backend/app/repositories/abuse_limits.py:20-105 | prune a batch, drop what is stale of this subject, count the attempt; the new row's count and expiry are returned |
| RateLimits.RecordedMeans | backend/app/repositories/abuse_limits.py:37-105 | a live bucket is counted on and any other starts at one; the account of a live bucket stays; only expired buckets disappear and no other changes |
| RateLimits.PruningMeans | backend/app/repositories/abuse_limits.py:37-73 | no expired row of the subject stays; of others at most 256 go, those that expired first, and at most the excess over 256 stays |
| RateLimits.PruningOrder | backend/app/repositories/abuse_limits.py:37-53 | which rows have expired, and the order in which they are pruned |
| RateLimits.BucketCountsAttempts | backend/app/repositories/abuse_limits.py:75-105 | until a call sees a key expired, its bucket counts every call on it |
| RateLimits.WindowHoldsNow | backend/app/services/abuse_limits.py:154-159 | a window holds the time it is computed from, starts at a multiple of its length and has the full length |
| RateLimits.CountIsExact | backend/app/repositories/abuse_limits.py:20-105 | for calls whose time never goes back, the count returned is the number of attempts of that subject in that window so far |
| SourceTree.ListTree | scripts/package_source.py:870-930 | succeeds exactly when every record is in order, no two paths collide and the limits hold; the entries are those of the records, sorted |
| SourceTree.ReadSources | scripts/package_source.py:1013-1053 | succeeds exactly when every object has the listed size and may be exported; sizes and digests are those of the data |
| SourceTree.ListedArchiveIsAccepted | scripts/package_source.py:1180-1201 | an archive written from what was listed and read is accepted by its verification exactly when no listed path looks like a directory, which listing does not check |
| SourceTree.PackageSource | scripts/package_source.py:1469-1482 | returns the sources of everything listed, with the objects' data, exactly when all may be listed and read, the archive of these sources is not too large and no listed path looks like a directory |
| SourceTree.PackagedColumns | scripts/package_source.py:1013-1053 | what is packaged, in path order: for each record a source with its path, mode, size, data and digest, and no other |
| SourceTree.RecordColumns | scripts/package_source.py:870-930 | what a record must be to be listed, from its columns |
| SourceTree.ListableMeans | scripts/package_source.py:870-930 | when a whole tree may be listed: its records, their number, their sizes and that no two collide |
| SourceTree.ListedModes | scripts/package_source.py:870-930 | the mode of an entry is the number its octal text says |
| SourcePaths.SlashAddsNoPart | scripts/package_source.py:835-845 | a slash at the end of a path changes none of the parts the path policy looks at |
| SourcePaths.RootFiles | scripts/package_source.py:823-853 | a plain file name is valid exactly when its characters and the policy for the root allow it |
| SourcePaths.FilesBelow | scripts/package_source.py:823-867 | names joined by slashes are valid exactly when the characters and the policy on these names allow it |
| SourcePaths.TrailingSlashIsAccepted | scripts/package_source.py:823-867 | so a file below the root is accepted with a slash at its end as without |
| SourcePaths.SlashedPathIsRefused | scripts/package_source.py:1227-1270 | and every accepted path that ends in a slash has a record that is listed, read and written, and then refused |
| SourcePaths.SlashedDocumentIsValid | scripts/package_source.py:823-867 | `docs/a.md/` is accepted by every policy that accepts the parts of `docs/a.md` |
| SourceArchive.WrittenIsReadBack | scripts/package_source.py:1204-1278 | verification of a written archive returns the entries it was written from |
| SourceArchive.MemberPathIsInjective | scripts/package_source.py:1176-1177 | different sources have different member paths |
| SourceArchive.WriteArchive | scripts/package_source.py:1180-1201 | exactly one member for each entry, in order |
| SourceArchive.CheckMember | scripts/package_source.py:1227-1270 | the conditions on a member, with the mode read back from the attributes it was written to |
| SourceArchive.VerifyCompletedArchive | scripts/package_source.py:1204-1278 | accepts exactly the archives that meet all conditions at once, and returns each entry with the data read |
| SourceArchive.AcceptedIsABijection | scripts/package_source.py:1204-1278 | acceptance alone means a bijection: no path is expected twice, every expected entry is there once with size and digest, nothing else is, and the limits hold |
| SourceArchive.WrittenIsAccepted | scripts/package_source.py:1180-1278 | an archive written from exportable entries that stay apart is accepted for them exactly when none looks like a directory |
| ResponseEnvelope.ReplacedHasOne | backend/app/middleware/privacy_safe_observability.py:22-29 | afterwards exactly one correlation header is there with the new id, and all other headers as before |
| ResponseEnvelope.Exchange.SendWithCorrelation | backend/app/middleware/privacy_safe_observability.py:70-81 | what is forwarded, and when the flags for a started and a complete response are set |
| ResponseEnvelope.Exchange.Call | backend/app/middleware/privacy_safe_observability.py:56-119 | all that the client is sent, for every application and ending |
| ResponseEnvelope.ForwardedMessages | backend/app/middleware/privacy_safe_observability.py:70-81 | each message is forwarded in its turn, bodies and statuses as they are |
| ResponseEnvelope.NothingAdded | backend/app/middleware/privacy_safe_observability.py:83-119 | nothing is added after a normal return |
| ResponseEnvelope.SafeFailure | backend/app/middleware/privacy_safe_observability.py:87-119 | what is sent instead when nothing had been sent: the status by the error, a body and the correlation header |
| ResponseEnvelope.ErrorsLeaveACompleteResponse | backend/app/middleware/privacy_safe_observability.py:87-119 | an application that raises at any point of a well-formed exchange leaves one start, one final body and nothing after it, beginning with all it had sent |
| ResponseEnvelope.OneCorrelationHeader | backend/app/middleware/privacy_safe_observability.py:70-81 | that start has exactly one correlation header with this id, unless the application's headers are no list, which are sent as they are |
| ResponseEnvelope.TupleHeadersStayUncorrelated | backend/app/middleware/privacy_safe_observability.py:74-76 | a concrete application whose response gets no correlation header |
| BodyLimit.DeclaredContentLength | backend/app/middleware/request_body_limit.py:14-24 | a length is declared exactly when the first content-length header reads as that natural number |
| BodyLimit.Limit | backend/app/middleware/request_body_limit.py:43-67 | too large exactly when the declared length or some prefix read exceeds the limit; otherwise exactly the messages of the whole body are passed on |
| BodyLimit.Replay.Receive | backend/app/middleware/request_body_limit.py:69-77 | each receive gives the next message read, then a disconnect |
| BodyLimit.ReplayIsFaithful | backend/app/middleware/request_body_limit.py:69-77 | the messages read are given once and in order, and then only disconnects |

## Left out

- Json.LoadsUndoesDump: covers the JSON subset that the printer emits; other JSON text is rejected at once, where the source parses it and then rejects it because printing it again gives another text.
- Uuids.CanonicalUuid: spellings that `UUID` reads and the comparison with `str` then rejects (braces, URN, upper case, misplaced hyphens) are rejected without being decoded.
- Timestamps.Parse: likewise for the other forms that `datetime.fromisoformat` reads.
- SHA-256 of the ledger, its file, permissions and synchronisation to disk; the validation token of a prepared replay.
- Row locks and advisory locks of export and replay: both run as one atomic step on the tables.
- SandboxSupervisor.RunGenerations: follows the endless main loop for any given number of rounds.
- Starting and monitoring a generation: any number of refreshes, any exception or none, any change of the world.
- Signals between the guarded blocks of the main loop, where an interrupt ends it with status 0 and without cleanup.
- Clock overshoot of `docker` calls beyond their timeout and of `time.sleep`.
- Arguments, listeners, proxies, images and health probes of the sandbox.
- CatalogNames.Catalog.Flush: the order of the row-by-row statements is not modelled, so whether a passing clash is met is the argument `refused`; row ids and creation times of name rows are not modelled, and at most one row per source is built into the map.
- A catalog database that has no name table yet, where the hook does nothing.
- Unicode normalisation and case folding, SHA-256 and `hashtextextended`: arbitrary functions. ILIKE is LIKE over text that is already folded.
- The encoding of activity cursors as text; titles and dashboards; rows changing while a client pages.
- DuplicateEvidence.DecisionsAreWriteOnce: other calls only add rows; an account purge that removes evidence at the same time is not among them, and a random id is never drawn twice.
- DuplicateScoring.ScorePair: parsing of the canonical structures with its own limits and errors, and the messages of the reasons; whether two fingerprints are exact is an argument.
- The shortlisting of candidates by their ingredients; reason sets and threshold are the constants of the scoring service.
- The draft revision in the key from publications to drafts, and the policy and digest columns in the keys of duplicate evidence; the inserts of a preflight and of its candidates are one step.
- RateLimits.RecordedMeans: one call at a time, as the row locks of the upsert and the deletes arrange; the rejection and its retry time are not modelled.
- The secret scan and the manifest of the archive; the path allowlist and the opaque-file and text checks are arbitrary predicates on paths and data.
- SourceTree.ListedArchiveIsAccepted: assumes that a common directory prefix does not make different paths fold together.
- Compression and the ZIP container: members are read back as they were written, or not at all.
- ResponseEnvelope.Exchange.Call: sends themselves do not fail; the content-length header of the safe failure and the operational events are left out.
- BodyLimit.Limit: the integer syntax of a declared length is an arbitrary function; a client that sends nothing more leaves the request waiting.
- Websocket and lifespan traffic, which both middlewares pass through.
- Recipe publication, editions, measurement conversion, sign-in and the frontend.
