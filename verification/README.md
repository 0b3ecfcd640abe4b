# Verification of porte

A Dafny model of the stateful protocols of porte, the authentication kit, with proofs of what they guarantee over
every input, every run or every interleaving. `dafny verify dfyconfig.toml` checks the whole project.

| module | models |
|---|---|
| `PurgeProtocol`, `PurgeInvariant`, `PurgeSafety`, `PurgeDecision` | logins, federated saves, erases and bound inserts of porte/pg, one SQL statement at a time, in every interleaving |
| `Accounts` | the same writers as whole transactions: who a login resolves to, and what runs of them keep |
| `DeletionPages`, `Deletions` | the deletion receiver of porte/directory: polls, pushes, failed calls and saves, restarts |
| `Decimal`, `PlanValues`, `PlanStore` | the plan store of porte/forfait, against keeping the last document raw and decoding on read |
| `Sealing`, `ResealLog`, `Resealing` | token sealing, resealing beside other writers, and key rotation in porte/pg |
| `MagicLinks`, `MagicLinkLimits`, `MagicLinkMemory`, `MagicLinkProtocol` | magic links: the table's promises, the request limits, the in-memory store, the interleavings in porte/pg |
| `Syncer` | the nudge channel, the pull loop and overlapping calls of `Sync` |
| `Sessions` | issuing, authenticating and sweeping sessions |
| `KeyCaches` | the two caches of signing keys and what an unverified kid can cost |
| `DevicePoll` | the polling schedule of the device grant |
| `Spaces`, `SpaceRuns` | the role ladder, the membership guard, and runs of guarded role changes |

`Wrappers` holds what they share.

How the world is modelled:

- Tables are maps or sequences with their unique keys. Under READ COMMITTED a statement sees the committed tables and
  the transaction's own writes; advisory and row locks last until the transaction ends. Interleavings are arbitrary
  sequences of events, and an event whose statement would wait changes nothing.
- Whatever a program cannot decide (the database failing, a callback failing, time passing) is an arbitrary value,
  kept only if it is possible: the clock does not go back, a server answers by its contract. What other processes
  write is given beforehand where a result speaks of it, and calls, fetches, pages and writes are logged.
- Where a run needs a bound to end (how far the clock runs during one poll, the highest key a table ever holds), it is
  a parameter, so every finite run has one.
- Hashes, tokens and session ids are never reused; encryption is ideal, a sealed value being its key, nonce and
  plaintext. Times are integers, nanoseconds, with 0 for the zero time.

What the proofs found, where a guarantee has a condition:

- When a purge commits, a late `Save` of an identity it purged would be written exactly if the identity is of another
  provider than the login that purged (`LateSaveWritesExactly`); one of the same provider is refused for as long as that
  login's identity stays (`LateSaveIsRefused`).
- A deletion notice is lost exactly when it is not recorded and was, when it first became visible, a minute or more
  behind the cursor stored by then (`LostExactly`). That can happen to a notice stamped after the cursor a poll starts
  from, if it appears between two of its pages: paging has no overlap (`LateBetweenPagesIsLost`). Nobody is lost if
  notices become visible soon enough for the time a poll takes (`PromptArrivesInTime`, `TimelyRunLosesNobody`).
- A held plan goes back exactly by a snapshot with version 0 at the revision held, which clears the version guard
  (`BackExactlyWhen`, `ZeroVersionClearsTheGuard`), and an export taken at a negative version cannot be imported
  (`PlanStore.Restore`).
- Dropping an old key is safe exactly when no readable token needs it (`DropIsSafeExactly`). A reseal that could not
  read random bytes leaves a row and reports nothing; the rotation theorem counts such a run as unfinished.
- A session refused as dead can come back if and only if the store failed to delete it and it was idle rather than
  expired (`RefusedForGood`); the way back is a bearer request (`FailedDeleteRevives`).
- The in-memory link store ends no link when a link is created at the zero time, and spends none at it.
- A space loses its last member of the top rank exactly when that member demotes itself, which the guard allows
  (`TopIsLostExactly`, `TopIsKept`); two who check `CanLeave` outside one lock may both leave (`ChecksApartLoseBoth`).
- A sweep of magic links never shows exactly up to a cutoff that depends on how long links live (`LatestCutoff`).
- A directory restored to the version number an app already applied is skipped, whatever it holds by then
  (`RestoredVersionIsSkipped`).

## Model

| member | source | states |
|---|---|---|
| PurgeInvariant.RunKeeps | pg/bound.go:41-98 | in every interleaving of logins, saves, bound inserts and erases, the locks exclude each other, a purging transaction sees every bound row of its account, and nothing it does not see can commit beside it |
| PurgeInvariant.ApplyKeeps | pg/takeover.go:30-69 | each single statement, from any reachable state, keeps that invariant |
| PurgeSafety.PurgeIsComplete | pg/takeover.go:57-69 | when a purge commits, whatever ran beside it, every bound session and code of the account is gone, and every federated identity but the login's own |
| PurgeSafety.PurgedStaysPurged | pg/bound.go:61-98 | after a purge commits no event ever commits, on its account, a session, code or named token vouched for by what it deleted, through any chain of issuing sessions; deleted sessions and identity rows never come back |
| PurgeSafety.LateSaveIsRefused | pg/pg.go:323-352 | while the owner's identity of the provider stays on the account, no purged identity of that provider returns to it and a late Save of one writes nothing |
| PurgeSafety.LateSaveWritesExactly | pg/pg.go:325-352 | when a purge commits, whatever else is under way, the INSERT of a late Save of a purged identity would write its row if and only if the identity is of another provider than the login's |
| PurgeSafety.LateSaveOfAnotherProviderIsAccepted | pg/pg.go:325-352 | the steps by which a late Save of a purged identity of another provider puts it back |
| PurgeDecision.UnverifiedIsPurged | pg/takeover.go:24-69 | in every interleaving a login about to commit onto an account it matched by an address nobody verified has purged it: the commit verifies the account and leaves it no bound session or code and no federated identity but the login's |
| PurgeDecision.PurgeTakesAll | pg/takeover.go:57-69 | whatever runs between a login's purge and its commit, every identity (a password too), session and code of the account that its statement found is gone at the commit, bound or not |
| PurgeDecision.RowsFollowClaims | pg/linking.go:132-174 | in every interleaving a user's row changes only by a registration, which adds an unverified one, or a login, which writes its claim; an unverified claim touches no row that exists |
| PurgeDecision.SubjectLoginRefreshes | pg/linking.go:157-174 | a subject's login ends at once: a verified claim moves the address and verifies it unless another account has it, and no credential changes |
| Accounts.Tx.ExistingUser | pg/linking.go:114-130 | the subject's row first, then the verified address: what it finds is what the claims resolve to, and it finds nothing exactly when they create or are refused |
| Accounts.Tx.ByVerifiedEmail | pg/takeover.go:24-55 | a row with an unverified address is taken over even if linked; a verified one only if it holds no identity of the provider |
| Accounts.Tx.FindOrInsert | pg/linking.go:96-112 | resolves, inserts, or resolves again after a lost insert; user 0 exactly when the login is refused |
| Accounts.Tx.InsertUser | pg/linking.go:132-155 | creates the row, or changes nothing when the address is taken |
| Accounts.Tx.Purge | pg/takeover.go:57-69 | the loop of deletes leaves the account no identity, session, code or link, and touches no other account |
| Accounts.Tx.UpdateUser | pg/linking.go:157-174 | only a verified claim moves the address, email_verified never clears, an empty name keeps the old one; it fails if the address is somebody else's |
| Accounts.Tx.ResolveOrCreate | pg/linking.go:77-94 | the account and the tables of the login's resolution, or its refusal |
| Accounts.Store.UpsertFromOIDC | pg/linking.go:39-66 | the committed tables are the resolution's, an error changes nothing, and without a database failure the answer is exactly the resolution's |
| Accounts.Store.SaveFederated | pg/pg.go:323-352 | a federated identity is written exactly when it is already the account's or new beside no other subject of its provider; it is never re-pointed |
| Accounts.SavedExactlyWhen | pg/pg.go:323-352 | a Save is let through exactly when the identity stays with its account and no account gets two subjects of one provider |
| Accounts.Store.EraseIdentity | pg/erase.go:22-75 | at most three rounds of reading the owner, waiting for that owner's lock and looking again, whatever others commit before either; Moved exactly when the identity changed hands in all three, and the tables are what the others left with the whole erase or nothing added |
| Accounts.RunKeeps | pg/linking.go:39-66 | every run keeps addresses unique and at most one subject per federated provider on an account |
| Accounts.UnverifiedClaimStaysHome | pg/linking.go:114-130 | an unverified claim reaches its own subject's account or a new one, never another |
| Accounts.VerifiedAccountIsNeverPurged | pg/takeover.go:53-54 | a login takes no identity, session, code or link from an account verified before it, and adds only its own verified one |
| Accounts.TakeOverLeavesNothing | pg/linking.go:77-94 | a verified claim of a new subject to the address of an unverified account is answered that account, which keeps the login's identity and nothing else, verified under that address |
| Accounts.LoginAnswers | pg/linking.go:114-130 | a login answers its subject's account, else the holder of the address if the claim is verified, else a new one |
| Accounts.KnownSubjectGetsIn | pg/linking.go:157-174 | a known subject is refused exactly when its verified claim is to the address of another account |
| Accounts.LoginRefreshes | pg/linking.go:157-174 | a verified claim moves the address and verifies it, an unverified one does neither, a name is taken unless empty |
| Accounts.LoginTouchesOneAccount | pg/linking.go:39-66 | nothing of another account changes, and the login's own loses nothing unless it is taken over |
| Accounts.RefusedExactlyWhen | pg/takeover.go:12-22 | a login is refused if and only if its subject is new and its address belongs to an account it may not join |
| Accounts.LoginIsIdempotent | pg/linking.go:39-66 | signing in again answers the same account and changes nothing |
| Accounts.AccountsOverARun | pg/linking.go:157-174 | over every run an account stays, stays verified, and keeps its address unless a verified claim of its own subject moves it |
| Accounts.EraseTakesOneAccount | pg/erase.go:53-75 | an erase removes one identity and all credentials of its account, nothing of anybody else's, and a second one nothing |
| DeletionPages.NextPage | directory/deletions_poll.go:80-92 | the next page starts a microsecond before the last time listed and strictly after this one, or there is none |
| DeletionPages.PagesMeet | directory/deletions_poll.go:80-92 | a notice after since that a page leaves out is after the next page's start: no gap |
| DeletionPages.SameInstantMeans | directory/deletions_poll.go:80-92 | the same-instant error arises exactly when a full page lies within one microsecond of since |
| DeletionPages.CursorAfter | directory/deletions_poll.go:104-113 | the newest time handled, of those before any failure |
| DeletionPages.Record | directory/deletions_state.go:33-42 | marks the subject and forgets exactly those handled longer ago than Registre lists |
| Deletions.Receiver.Load | directory/deletions_state.go:44-61 | memory if there is any, else what is stored; a failed load changes nothing |
| Deletions.Receiver.Erase | directory/deletions.go:148-160 | succeeds exactly when the app's call did, and then this library's where it keeps rows; the calls made are those and no other |
| Deletions.Receiver.Handle | directory/deletions.go:120-136 | a person not recorded is recorded exactly when both calls for them succeeded, and one recorded is not called again; a failed call records nobody, and nobody still listed is forgotten |
| Deletions.Receiver.Persist | directory/deletions.go:138-146 | a failed save drops the copy in memory, whether or not the store took it |
| Deletions.Receiver.HandleAll | directory/deletions_poll.go:94-102 | every notice of the page was delivered and recorded, or a call for it failed and the earliest failure is no later; one failure blocks nobody |
| Deletions.Receiver.Drain | directory/deletions_poll.go:54-78 | ends, stops early only for a failed listing or save or a thousand notices of one instant, and hands every notice listed after since to Handle, but for those that no page could have listed |
| DeletionPages.AdvanceKeepsVisible | directory/deletions_poll.go:32-37 | moving the cursor to the newest time handled before any failure leaves everyone listed when the poll began recorded or listed again |
| Deletions.Receiver.Poll | directory/deletions_poll.go:13-39 | loses nobody listed when it begins and moves the cursor neither back nor to a failure; succeeds exactly when nothing failed, and then everyone it could list was erased and recorded and is at or behind the cursor |
| Deletions.Receiver.Receive | directory/secevent.go:66-95 | 503 exactly without keys, 400 exactly for no acceptable notice, both changing nothing; 202 only once every call for the person succeeded and a restart would load them as done; 500 only when a call or the store failed |
| Deletions.Receiver.Run | directory/deletions.go:78-118 | over every run of polls, pushes, waits and restarts, with any failures, nobody who was listed and safe is lost, everyone recorded was erased by successful calls, a stored cursor never goes back and moves only in a poll, and with a store nobody recorded at any moment is called for again while Registre lists them, by a poll or by a replayed push |
| Deletions.LostExactly | directory/deletions_state.go:20-42 | at the end of any run a listed notice is lost if and only if it is not recorded and was a minute or more behind the cursor stored when it first became visible |
| Deletions.TimelyRunLosesNobody | directory/deletions_poll.go:13-39 | a run loses nobody if whatever becomes visible during an operation is less than a minute behind the cursor at its end |
| Deletions.PromptArrivesInTime | directory/deletions_poll.go:13-39 | which holds of an operation when the delay of notices and the time it takes are together under a minute |
| Deletions.LateBetweenPagesIsLost | directory/deletions_poll.go:56-78 | the inputs on which a notice ahead of the saved cursor is lost between two pages |
| Deletions.HasAudience | directory/secevent.go:132-139 | whether the client is in the audience list |
| Deletions.Accept | directory/secevent.go:121-130 | accepts exactly a deletion notice of our issuer, for us, in time and short-lived |
| Deletions.EachCheckRefuses | directory/secevent.go:121-130 | of an acceptable notice, changing the event, subject, issuer, audience, time of arrival or lifetime is refused exactly when that one check fails |
| Deletions.ReplaySpan | directory/secevent.go:121-130 | two times at which one notice is acceptable are less than an hour and two minutes apart |
| Decimal.PrintParses | forfait/persist.go:136-142 | a printed integer is a JSON integer that parses back to the same number |
| Decimal.ParsePrints | forfait/decode.go:24-37 | a JSON integer is the only spelling of its number, but for minus zero |
| Decimal.SpelledOnlyAs | forfait/decode.go:24-37 | a JSON integer means a number exactly when it is its print, or minus zero for zero |
| PlanValues.Decode | forfait/decode.go:24-37 | what decodes fits its kind: a Bool carries no limit, a Limit is at least -1, and no other kind has values |
| PlanValues.DecodeEncode | forfait/persist.go:136-142 | a held value decodes from what it is exported as |
| PlanValues.DecodesExactly | forfait/decode.go:24-37 | a value decodes from exactly its own spelling, with space around it or not, and a zero limit from minus zero too |
| PlanValues.Index | forfait/decode.go:39-56 | the loop keeps exactly what decodes of the declared features, and nothing of a scope over 200 keys |
| PlanValues.IndexedEncoded | forfait/persist.go:114-134 | an exported scope has at most 200 keys and indexes back to the same values |
| PlanStore.Declare | forfait/store.go:44-64 | the features are the first well-formed declarations of their keys, and a bad default denies |
| PlanStore.FindMeans | forfait/store.go:44-64 | a key is declared by its first declaration, if it has the shape of a key |
| PlanStore.KeyShape | forfait/decode.go:13-14 | a key is two parts around one dot, in lower case letters, digits and underscores |
| PlanStore.AppliedExactly | forfait/store.go:112-122 | a snapshot is held exactly when its revision is newer, or the same with a version that is not older or is 0; otherwise nothing changes |
| PlanStore.ImportedExactly | forfait/persist.go:69-112 | which document gets which error, and that one is held exactly by a store that held nothing |
| PlanStore.ReadAfterApply | forfait/store.go:165-186 | a read after a snapshot is the scope's own value if it decodes and the scope is within 200 keys, else the declared default, else nothing |
| PlanStore.Store.Apply | forfait/store.go:85-122 | the cache follows the simple form: the snapshot is held whole, or refused as older and nothing changes |
| PlanStore.Store.Import | forfait/persist.go:69-112 | the document is held, or nothing changes; each refusal is answered as the simple form answers it |
| PlanStore.Store.Export | forfait/persist.go:42-57 | the versions and every held scope, each value as JSON |
| PlanStore.Store.Reset | forfait/recovery.go:17-22 | the store holds nothing and accepts any next snapshot |
| PlanStore.Store.Read | forfait/store.go:165-186 | a read of the cache is the read that decodes the accepted raw document |
| PlanStore.Store.Check | forfait/store.go:138-163 | the 64-bit comparison cannot wrap and passes exactly when nothing is added, there is no ceiling, or the unbounded sum is within it |
| PlanStore.Store.Run | forfait/store.go:66-122 | over every run of Apply, Import and Reset the cache holds what the simple form holds |
| PlanStore.LimitsAtLeast | forfait/decode.go:24-37 | no limit is ever below -1 |
| PlanStore.FailsOpenExactly | forfait/store.go:165-186 | a read is open if and only if nothing is held and the feature is declared of that kind |
| PlanStore.RevisionNeverBack | forfait/store.go:112-122 | between resets the held revision never decreases and what is held stays held |
| PlanStore.BackExactlyWhen | forfait/store.go:112-122 | one operation takes the held revision and version back exactly when it is a snapshot of version 0 at the revision held with a version |
| PlanStore.VersionNeverBack | forfait/store.go:112-122 | between resets no operation takes the held revision and version back, if and only if none is a snapshot of version 0 at the revision held with a version |
| PlanStore.ZeroVersionClearsTheGuard | forfait/store.go:112-122 | after one, an older snapshot of the same revision is accepted |
| PlanStore.AgreeEverAfter | forfait/persist.go:59-89 | two stores that agree on every read still do after any operations applied to both |
| PlanStore.Store.constructor | forfait/store.go:44-64 | a new store holds nothing and fails open |
| PlanStore.Restore | forfait/persist.go:42-112 | importing an export into a new store succeeds exactly when the version is not negative, and then both agree on every scope and key, now and after any later operations |
| Sealing.NewSealer | pg/sealer.go:44-71 | a key list exactly from one or more secrets of 32 bytes, in their order |
| Sealing.OpenValue | pg/sealer.go:127-149 | the loop opens with whichever key made the value and says whether it was the first |
| Sealing.SettledExactly | pg/sealer.go:127-149 | nothing is left to reseal of a value exactly when it is empty, unreadable, or sealed under the first key |
| Sealing.OpenSeal | pg/sealer.go:104-149 | what is written is what is read, if and only if there is a key or the token does not look sealed |
| Sealing.ResealValue | pg/reseal.go:99-109 | reads the same before and after; changed only if readable and not current, and then current |
| Resealing.IdentityStore.TokenBatch | pg/reseal.go:56-80 | an answer is the first 200 rows with a token after a key, in order, leaving out none before its last |
| Resealing.IdentityStore.ResealRow | pg/reseal.go:82-97 | writes only over the very row it read, so another writer's change stands; the row reads the same; failing or missing randomness leaves it |
| Resealing.IdentityStore.ResealRows | pg/reseal.go:44-54 | one batch beside other writers, in order: the table went where the log of writes says, all of them others' or guarded updates, and nothing is left to reseal up to its last key |
| Resealing.IdentityStore.ResealIdentities | pg/reseal.go:15-42 | ends; the table went where the log of writes says, others' being those they were given to make; outside these it comes to each row with a token once, rewrites and counts exactly unsettled ones, and changes no reading and no unreadable token; fails only with the database or without a key; finds nothing to do where a run finished |
| ResealLog.AloneIsExact | pg/reseal.go:15-42 | a run nobody disturbs comes to exactly the rows with a token, once each, keeps every row, its reading and every unreadable value, and when it finishes has rewritten exactly the unsettled rows and left every readable token sealed under the first key |
| Sealing.DropIsSafeExactly | pg/sealer.go:127-149 | dropping later keys changes no reading if and only if no readable token needs one |
| Resealing.IdentityStore.Save | pg/pg.go:288-295 | tokens are stored so that they read back, and sealed under the first key when there is one; a failure changes nothing |
| Resealing.IdentityStore.Rotate | pg/sealer.go:37-39 | over any keys added, saves, others' writes, reseals and drops, with any failures: old keys go exactly when a reseal has finished since the last key came and every writer kept to the first key since; a row's last saved tokens read back, and a row nobody wrote reads as at the start |
| ResealLog.LastIsLastSaved | pg/sealer.go:37-39 | a row that others left alone was last written by the last successful Save of it, if any |
| MagicLinks.StepsAreTidy | magiclink.go:54-79 | over any run an account has at most one unconsumed link, a token is spent at most once, and never after being superseded |
| MagicLinks.DeadStaysDead | magiclink.go:56-69 | a spent or superseded token is never spent again, whatever follows |
| MagicLinks.CreatedMeans | pg/magiclink.go:42-50 | a creation ends the account's unconsumed links, touches no other row and adds one |
| MagicLinks.ConsumedMeans | pg/magiclink.go:59-76 | a consume marks the unconsumed, unexpired row of the hash and no other, and nothing without one |
| MagicLinks.CountSinceMeans | pg/magiclink.go:78-107 | the count is the number of rows of the account and the source at or after the time, whichever of the two is named |
| MagicLinkProtocol.CommitIsCreate | pg/magiclink.go:29-57 | with the locks held, what a commit writes is one atomic create |
| MagicLinkProtocol.RunIsAtomic | pg/magiclink.go:29-76 | every interleaving of creations, consumes, deletions and purges commits what some sequence of atomic ones does |
| MagicLinkProtocol.OneLiveLink | pg/magiclink.go:19-28 | in every interleaving an account has at most one unconsumed link committed |
| MagicLinkProtocol.SpentAtMostOnce | pg/magiclink.go:59-76 | in every interleaving a token is spent at most once, and never after its link was superseded |
| MagicLinkProtocol.PurgeOrLinkFirst | pg/magiclink.go:19-28 | in every interleaving a purge's commit leaves no link of the account and finds none past the account's lock; links committed later were created later, and none it deleted is spent afterwards |
| MagicLinkLimits.WindowsAreLimited | magiclink/request.go:35-104 | with serialised requests any closed hour holds at most MaxPerEmail links of an account and MaxPerIP of a known source |
| MagicLinkLimits.RequestExactly | magiclink/request.go:35-73 | a link is issued exactly for a known account under its limit and a source that is unknown or under its own; else nothing changes |
| MagicLinkLimits.RedeemExactly | magiclink/consume.go:18-49 | an allowed user with a live link is signed in as that link's account; the link is spent also for a refused one |
| MagicLinkLimits.SweepNeverShows | pg/magiclink.go:109-116 | a sweep of what is expired and, for as long as links live, outside the hour that counts changes no later decision of Request and no later outcome of Consume |
| MagicLinkLimits.LatestCutoff | pg/magiclink.go:109-116 | over every run before and after, a sweep at a cutoff shows in nothing if and only if the cutoff is at most a link's life after the hour's start and at most the next instant |
| MagicLinkMemory.Memory.Create | magiclink/magiclinktest/memory.go:37-47 | the rows edited in place are the table's create, for any creation time but zero |
| MagicLinkMemory.Memory.Consume | magiclink/magiclinktest/memory.go:50-60 | the table's consume, for any time but zero |
| MagicLinkMemory.Memory.CountSince | magiclink/magiclinktest/memory.go:63-78 | the table's count, which is 0 for a zero key |
| MagicLinkMemory.Memory.DeleteExpired | magiclink/magiclinktest/memory.go:81-95 | compacting in place leaves exactly the unexpired rows in order, and counts the rest |
| MagicLinkMemory.Kit.Request | magiclink/request.go:35-73 | issues exactly within both limits to a known account, and is quiet otherwise |
| MagicLinkMemory.Kit.Consume | magiclink/consume.go:18-49 | signs in exactly with a spendable link of an allowed user, and spends it also when the user is refused |
| MagicLinkMemory.Kit.Run | magiclink/request.go:35-104 | over any run the answers are the table's and every hour is within the limits |
| Syncer.RunKeeps | directory/syncer.go:54-106 | every interleaving of nudges, ticks, the loop and calls of Sync keeps the invariant the results below read off |
| Syncer.NoNudgeIsLost | directory/syncer.go:52-83 | a nudge no pull has followed is in the slot or the loop is committed to a pull not yet started |
| Syncer.EveryStepGetsNearer | directory/syncer.go:62-83 | while one is pending every step of the loop brings its next pull nearer, and that pull serves it |
| Syncer.PullsAreEarned | directory/syncer.go:52-83 | in every interleaving the loop pulls once at the start and at most once for each nudge and tick |
| Syncer.CommitsInFetchOrder | directory/syncer.go:85-106 | snapshots commit in the order fetched, each of the directory at that moment or a later one, whenever the answer was computed |
| Syncer.VersionsNeverGoBack | directory/syncer.go:85-106 | so the version applied never goes back if the directory's own does not |
| Syncer.OneApplyAtATime | directory/syncer.go:85-106 | two applies never overlap |
| Syncer.NudgedVersionsArrive | directory/syncer.go:62-83 | once every nudge was followed by a pull that ended well, the version applied is the directory's of a moment not before the last nudge |
| Syncer.OnlyTheLastCommitIsSkipped | directory/syncer.go:98-100 | an answer is skipped exactly when its version is not 0 and equals the last commit's |
| Syncer.RestoredVersionIsSkipped | directory/syncer.go:98-100 | the events by which a restored directory that comes by the applied version again is not applied |
| Syncer.FailedApplyStaysEligible | directory/syncer.go:101-104 | what failed to apply reaches Apply again when the next pull brings its version |
| Sessions.NamedTokensAreBound | session/bind.go:11-23 | a named token for oneself is bound exactly when it was, or the caller has a session, or a subject and an issuer; an explicit binding is kept |
| Sessions.OthersAreNotBound | session/bind.go:11-23 | a login or a token for somebody else is never bound to the caller |
| Sessions.Manager.IssueFor | session/session.go:202-223 | stored exactly when what vouches for it exists, with a fresh id, and an expiry only for a login |
| Sessions.Manager.Touch | pg/pg.go:445-454 | the column moves only when more than a minute behind |
| Sessions.Manager.Authenticate | session/session.go:357-404 | the table and the answer the rules give, whatever the store fails to do |
| Sessions.AnsweredExactly | session/session.go:357-404 | when each answer is given, and that whoever is let in is the user and session of the row |
| Sessions.AuthenticatedRow | session/session.go:382-397 | the row goes exactly on a refusal whose delete worked, and its last use moves exactly on a use more than a minute later |
| Sessions.LetInAsIssued | session/session.go:357-404 | over any run with any faults, whoever is let in is the user of the session issued with that hash, under its id and within its expiry |
| Sessions.RunIsExact | session/session.go:357-404 | with a working store the recorded use trails the true last use by at most a minute, and what was refused is gone |
| Sessions.UnusedIsRefused | session/session.go:460-477 | a cookie unused for the idle window is refused |
| Sessions.UsedIsKept | session/session.go:460-477 | one used within the window less a minute is refused only if expired or ended |
| Sessions.RefusedForGood | session/session.go:382-391 | after any run with any faults, a session refused as dead can ever be let in again, by either transport, if and only if the store failed to delete it then and it had not expired |
| Sessions.FailedDeleteRevives | session/session.go:387-390 | the way back: a bearer request touches it, and the cookie refused for idling authenticates again |
| Sessions.ExpiredForGood | session.go:56-60 | an expired session is refused for ever, whatever fails |
| Sessions.SweepNeverShows | pg/pg.go:528-537 | a sweep deletes only what would be refused from then on |
| KeyCaches.ReadKeys | directory/keys.go:120-149 | the loop keeps the last usable entry of each kid |
| KeyCaches.HeldWhenUsable | oidc/jwt/cache.go:86-91 | a kid is held exactly when one of its entries is usable: a bad entry costs the others nothing |
| KeyCaches.HeldIsLastUsable | oidc/jwt/cache.go:86-91 | and its key is that of the last usable entry |
| KeyCaches.SpacedIsRated | oidc/jwt/cache.go:10-23 | moments a gap apart number at most one and the whole gaps that fit, in any span |
| KeyCaches.Verifier.TakeRefetchSlot | oidc/jwt/cache.go:61-70 | a slot is given exactly thirty seconds or more after the last |
| KeyCaches.Verifier.Fetch | oidc/jwt/cache.go:79-95 | every fetch is logged with its cause; a failed one leaves the held set and its age as they were |
| KeyCaches.Verifier.Lookup | oidc/jwt/cache.go:38-59 | a key comes from a set younger than the TTL or fetched by this call, and one held after a fetch that worked is always answered; a call costs one fetch exactly when the set is stale, or lacks the kid and a slot is free, and none otherwise |
| KeyCaches.Verifier.Serve | oidc/jwt/cache.go:25-70 | whatever kids arrive, each costs one fetch at most, fetches made for unknown ones number at most 1 + D/30s in any span D, and every key answered was read by a logged fetch |
| KeyCaches.KeySet.Lookup | directory/keys.go:41-71 | a held kid is answered at once; another costs one fetch exactly when a minute is over since the last ended; a failed fetch counts and drops nothing |
| KeyCaches.KeySet.Serve | directory/keys.go:41-71 | whatever kids arrive, each costs one fetch at most, at most 1 + D/60s fetches start in any span D, failed ones included, and every key answered was read by one |
| DevicePoll.Schedule.Wait | devicelogin/poll.go:28-40 | true only after a full interval begun before the deadline |
| DevicePoll.Read | devicelogin/poll.go:87-108 | each answer exactly when: a token from a 2xx answer that has one, and otherwise by the RFC's error; the client goes on exactly on two of them, and slows down exactly on one |
| DevicePoll.Poll | devicelogin/poll.go:61-85 | ends; each poll is a full interval, five seconds longer per slow_down so far, after the one before; the first n - 1 waits fit before the deadline; the outcome is the last answer's; it gives up only past the deadline and uncancelled, and reports a cancellation only after one |
| DevicePoll.PollsAreBounded | devicelogin/poll.go:61-85 | n polls take n - 1 intervals at least |
| DevicePoll.SlowedPollsAreFew | devicelogin/poll.go:42-43 | if every poll is slowed down, their number is bounded quadratically |
| Spaces.NewLadder | spaces/ladder.go:29-37 | the loop builds the ranked roles |
| Spaces.RankedMeans | spaces/ladder.go:23-37 | exactly the roles named, once each |
| Spaces.RankedOrder | spaces/ladder.go:23-37 | in the order first named |
| Spaces.AtLeastIsTotal | spaces/ladder.go:56-77 | a total order on the ranked roles with Top its greatest, and no relation on others |
| Spaces.AtLeastFollowsOrder | spaces/ladder.go:56-77 | which is the order the roles are ranked in |
| Spaces.Vetted | spaces/guard.go:47-67 | a scope exactly for a row that carries both ids asked for and a ranked role |
| Spaces.ResolvedExactly | spaces/guard.go:47-67 | the user alone where no space is named, else a ranked member, else the error |
| Spaces.AssignableByIsNarrower | spaces/assign.go:23-56 | changing a member needs the grant and rank over the role taken away |
| Spaces.SeededMeans | spaces/spacestest/memory.go:43-56 | seeding changes the one row of that user in that space, and no other, and keeps rows unique |
| Spaces.Memory.Seed | spaces/spacestest/memory.go:44-56 | inserts or replaces one row and keeps rows unique |
| Spaces.Memory.Membership | spaces/spacestest/memory.go:59-69 | the user's row, or absence |
| Spaces.Memory.Memberships | spaces/spacestest/memory.go:72-83 | the user's rows, in the order stored |
| Spaces.OfUserMeans | spaces/spacestest/memory.go:72-83 | each row of the user as often as it is stored, and no other |
| Spaces.Memory.CountRole | spaces/spacestest/memory.go:86-97 | the number of rows of the space with the role |
| Spaces.CountAdds | spaces/spacestest/memory.go:86-97 | a row counts for one where its space and role are those asked for |
| Spaces.Guard.Require | spaces/guard.go:79-96 | a scope exactly for a member of a named space ranked at least so high, and Forbidden exactly for a ranked one below |
| Spaces.Guard.CanLeave | spaces/guard.go:120-143 | lets every ranked member go but one of the top rank in a space where nobody else holds it, who alone is answered SoleOwner |
| Spaces.LeavingMeans | spaces/guard.go:120-143 | which answer each user gets, in terms of the ranked members and the only holder of the top rank |
| Spaces.Guard.Spaces | spaces/guard.go:153-171 | the store's list without what is not the user's own, named and ranked |
| Spaces.Guard.Kept | spaces/guard.go:163-169 | whatever list a store answers, the rows that show, in its order |
| Spaces.ShownMeans | spaces/guard.go:145-152 | each row of the user, named and ranked, as often as it is listed, and no other |
| Spaces.ShownInOrder | spaces/guard.go:163-169 | what is listed first is shown first |
| SpaceRuns.Execute | spaces/guard.go:98-143 | checks and changes under one lock, made with the guard and the store, are the runs the results are about |
| SpaceRuns.StepExactly | spaces/assign.go:23-56 | an operation changes the one membership it names, exactly if the guard lets it, and to the role asked for |
| SpaceRuns.NobodyClimbs | spaces/assign.go:23-56 | if nobody above a role acts in a space, everyone above it keeps their row and nobody else rises above it, over any run |
| SpaceRuns.TopIsLostExactly | spaces/assign.go:23-56 | a guarded change leaves a space without a top member exactly when its only one gives itself a lower ranked role |
| SpaceRuns.TopIsKept | spaces/guard.go:98-143 | over any run a space that has a top member has one at the end, if and only if at no step its only one demotes itself |
| SpaceRuns.LastTopMayStepDown | spaces/assign.go:48-56 | the guard lets the only top member demote itself |
| SpaceRuns.ChecksApartLoseBoth | spaces/guard.go:107-119 | two top members who check before either leaves are both let go; one lock keeps one |

## Left out

- Deletions.Receiver.Run: the app and Registre share one clock, and a missing callback, a setting error that fails every call, is not modelled.
- Deletions.ReplaySpan: signature and header checks are one input, the verdict of verification; times are unbounded integers.
- Resealing.IdentityStore.ResealIdentities: no row is keyed by two empty strings, which the keyset query never reaches, and keys are numbered by the table's order.
- MagicLinkLimits.WindowsAreLimited: requests are serialised, as two that count before either inserts can both pass; a purge or an erase, which deletes links, is not among the operations (it is in `MagicLinkProtocol`).
- MagicLinkProtocol.RunIsAtomic: a purge's other deletes are in `PurgeProtocol`, a sweep is single deletions, and a token's hash is never reused.
- PurgeSafety.PurgedStaysPurged: sessions and codes issued without a voucher are outside the guarantee, as in the code; magic links are purged in `Accounts` only.
- PurgeInvariant.RunKeeps: the subject match of a login and a local `Save` take no account lock and are one event each.
- Accounts.Tx.UpdateUser: one profile field stands for name, avatar and locale; the optional tables are always present.
- Sessions.UnusedIsRefused: stated for a store that works, as `RefusedForGood` shows it must be.
- KeyCaches.KeySet.Lookup: calls are one at a time, as the fetch mutex makes them; the lock-free read of a held kid is its first branch.
- DevicePoll.Poll: a positive interval is required, which a provider's fraction of a second would break.
- Syncer.NoNudgeIsLost: a nudge pending when the context ends is not served.
- Syncer.FailedApplyStaysEligible: an Apply that fails is taken to leave the app as it was.
- Spaces.Guard.Spaces: the in-memory store answers always; an app's store that fails has its error passed on.
- HTTP handlers, cookies and redirects, discovery, token parsing and cryptography, mail delivery, logging.
- JSON beyond booleans and integers, and the byte size of an exported document.
- Avatars, locale and address normalisation, configuration defaults other than the limits and the idle window.
