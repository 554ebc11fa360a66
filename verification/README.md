# Miuchio: the album key-epoch protocol, verified

A Dafny model of the Miuchio server's album protocol, of its prekey store and of the byte formats around them, with
proofs of what holds over every run.

**The server.** An album is a roster of member tokens, a sequence of key epochs, wraps of each epoch key, a rotation debt,
photos, avatars and a counter; a durable queue holds the storage keys whose objects are to be deleted. `Schema` holds the
tables, `Albums`, `ObjectStore` and `Transactions` say what each transaction does to them, and `World` makes the server a
state machine: every committed transaction and every storage call is one event, and a run is any sequence of events. A
crash is a run that stops; requests that read, check and commit in several steps are runs with other events in between.
`World` also keeps history no table remembers: who was ever given each epoch key (it survives the erasure of wrap rows),
every key ever written to a row, every reservation as first stored, and the confirmed set of each accepted deletion.
`ObjectRuns`, `UploadRuns`, `AccountRuns` and `Runs` prove the invariants for every event; `KeyRuns`, `RosterRuns`,
`ReservationRuns`, `ClockRuns`, `NumberRuns`, `AvatarRuns`, `ReceiptRuns` and `DeletionRuns` prove the promises over whole
runs; `FinerSteps`, `AvatarSteps` and `AcceptSteps` look between the statements of a transaction.

**The code that runs.** `Database` and the repository modules are classes whose methods work on the tables statement by
statement, loop over rows, and commit or return early; each is proved equal to its transaction in `Transactions`, which is
what the run theorems are about. `AlbumOutcomes`, `UploadOutcomes`, `AvatarOutcomes` and `AccountOutcomes` say of the rows
alone, with the vocabulary of `Frames`, exactly when each of these transactions succeeds in a reachable state, what each
refusal means, what is stored and what stays as it was. The service modules sit above them: request validation, the
confirm decision, the cleanup loop and the deletion worker.

**Formats.** `EpochEnvelope` is what a rotation signs and `EnvelopeReader` a reader of it, `CanonicalJson` with `Utf8` and
`JsonDecoder` the canonical JSON of signed messages, `KeystoreEnvelope` the file both phones read, `Handle` the account
handles; `Prekeys` is one account's identity, signed prekey and one-time prekeys. `Basics` and `Sorting` are shared.

## How the model reads the code

- Random identifiers, tokens and storage keys are parameters that a feasible run draws fresh; UUIDs are numbers. SHA-256 is a
  free constructor over its preimage in the state machine and an arbitrary function, with collisions named, in
  `EpochEnvelope`. Ed25519 verification, the sealed user links and authenticated encryption stay abstract.
- Identity and roster rows are one membership row, because they are inserted and deleted together. A member token is the
  primary key of one identity, so the foreign keys of uploaders, avatars and wrap recipients are checked inside the album.
  For wrap recipients this differs from the schema only on rotations that validation refuses (`Albums.RotationIsStorable`).
- Transactions that lock the album row are atomic with respect to each other. Those that do not (the pending cleanups and
  avatar drops and sweeps) may fall between another's statements: `FinerSteps` covers the photo confirm, `AvatarSteps` the
  avatar confirm. Accepting a deletion locks an account and no album: `AcceptSteps`. The reservations hold the row they replace.
- A confirm of an avatar reads its row, asks storage and commits in separate transactions: `AvatarService`. The run theorems
  treat its commit as one step; `AvatarSteps.AvatarWriteInv` says that the commit statement by statement keeps the invariants
  on keys and avatars they rest on.
- `World.Feasible` states what a caller has made sure of before its transaction. For rotations and invites that is what
  `EpochService` and `InviteService` prove of a request they pass on; for the cleaner, that it deletes only keys it was given
  from the queue and acknowledges only deleted ones, which `MediaService.CleanupObjectKeys` proves of its loop.
- Every statement in the server that writes the modelled tables is an event, except two that no request reaches:
  `AddMember` (server/internal/repository/album_repo.go:298-334), a fixture that skips key delivery, and the unguarded `Delete`
  (server/internal/repository/album_repo.go:534-537), which would drop object keys with the rows.
- Masks and shifts on bytes are written as remainders and quotients. Go's conversions to uint32 and uint64 and Kotlin's to
  short and byte keep the low bits; Swift's stop the process when a value does not fit.

Where code and comments differ the model follows the code. The comment on the serializer promises `\uXXXX` for every control
character (server/internal/crypto/canonical_json.go:21), but the code writes the short escapes of backspace, form feed, newline,
return and tab (server/internal/crypto/canonical_json.go:112-121). The avatar sweep says it skips rows a confirm is holding
(server/internal/repository/avatar_repo.go:170-171), but a confirm holds none until its update; `AvatarSteps` says what follows. The
schema says a rotation is verified against any co-admin (server/migrations/000001_initial_schema.up.sql:94-96), but the service
verifies it against the calling admin's key alone (server/internal/e2ee/epoch/service.go:118-127).

## Model

| member | source | states |
|---|---|---|
| KeyRuns.RemovalLocksOutTheFuture | server/internal/repository/media_repo.go:173-208 | In every run, a token outside the album when a photo is confirmed has never been given that photo's epoch key, wrap rows erased since included, and has it in a later state only if an invite let that token in again in between. |
| KeyRuns.ConfirmedKeyIsHeldByActiveOnly | server/internal/repository/media_repo.go:189-208 | The key a photo is confirmed under was ever given to exactly the active members. |
| KeyRuns.ReservedKeyIsHeldByActiveOnly | server/internal/repository/media_repo.go:57-79 | So is the key every accepted reservation is tagged with. |
| KeyRuns.KeysSpreadOnlyByInvite | server/internal/e2ee/invite/repo.go:182-202 | Along any run a token that lacks an existing epoch key gets it through an invite naming that token and in no other way. |
| KeyRuns.ClearFlagMeansExactKeySet | server/internal/repository/rotation.go:5-24 | In every reachable album with an epoch, drift of the current wraps implies the stored debt, so the whole expression equals the flag; with the flag clear, holders ever, wrap rows and active members are one set. |
| KeyRuns.NobodyIsStranded | server/internal/e2ee/epoch/repo.go:142-204 | Epochs are exactly 0..n and every active member holds a wrap for each, through rotations, joins and returns under a reused token. |
| KeyRuns.EveryAlbumHasItsAdmin | server/internal/repository/album_repo.go:486-498 | Every reachable album has one active admin and no second one, active or not. |
| KeyRuns.JoiningActivates | server/internal/e2ee/invite/repo.go:224-292 | An invite that succeeds makes a token active that was not active before. |
| RosterRuns.OnlyTheAdminActs | server/internal/e2ee/invite/repo.go:126-178 | Rotations, invites and album deletions commit only on the token of the album's one admin, active at commit; an invite involves no account that is being deleted. |
| RosterRuns.RevocationTakesOneMember | server/internal/repository/album_repo.go:448-512 | A revocation takes out exactly one active plain member, never the admin, and leaves a rotation owed. |
| RosterRuns.AccountsOutliveMemberships | server/internal/repository/account_deletion_repo.go:333-355 | In every run an account row stays as long as any album has an identity of it, although the schema has no such foreign key. |
| ObjectRuns.NoObjectIsLost | server/internal/repository/media_repo.go:104-128 | Once any media or avatar row has named a key, every later state has it in exactly one place: named by a row, queued, or acknowledged after storage confirmed the delete. |
| ObjectRuns.NoLiveObjectIsDeleted | server/internal/service/media_service.go:570-597 | No object a row names was ever deleted, and no second row names it, for retries, removals, failed deletes and crashes between any two steps. |
| ObjectRuns.RetiredKeysStayDead | server/internal/repository/avatar_repo.go:68-78 | A key that was ever visible in the queue is never named by a row again. |
| ObjectRuns.KeysKeepTheirClaim | server/internal/repository/media_repo.go:106-120 | A key is never reused for other bytes: while any row names it, it stays in one slot under one claimed hash and size, through every retry that keeps it. |
| ReservationRuns.ConfirmCommitsWhatWasChecked | server/internal/service/media_service.go:238-320 | Whatever runs between the read, the storage check and the commit, a successful commit confirms exactly the row that was read: same keys, sizes, hashes, tag. |
| ReservationRuns.AbortRetiresWhatWasRead | server/internal/service/media_service.go:464-478 | An abort or failed check retires exactly the row it read, never a replacement. |
| ReservationRuns.OutcomeIsFinal | server/internal/repository/media_repo.go:134-151 | A reservation that was confirmed, retired, replaced or erased is never pending or confirmed again. |
| ReservationRuns.ConfirmedAtMostOnce | server/internal/repository/media_repo.go:210-221 | No run confirms one reservation twice. |
| ReservationRuns.ConfirmedRowNeverChanges | server/internal/repository/media_repo.go:99-103 | A confirmed row keeps its number, keys and hashes as long as it exists. |
| ReservationRuns.WhoRemovesAPhoto | server/internal/repository/removal_repo.go:60-93 | A confirmed photo disappears only through its uploader's deletion, the album's deletion or a departing account; sweeps, aborts, retries and revocations leave it as it is. |
| ClockRuns.DisturbanceKillsReservations | server/internal/repository/album_repo.go:507-512 | A revocation, departure or rotation permanently kills every outstanding reservation of the album: no later commit under one succeeds. |
| ClockRuns.ActiveSetOnlyGrowsUntilConfirm | server/internal/repository/media_repo.go:175-208 | Between a reservation and its own confirmation the album keeps its epoch, owes nothing, and its active set only grows. |
| NumberRuns.PhotosAreNumberedInCommitOrder | server/internal/repository/media_repo.go:223-244 | In every run the confirms of an album return 1, 2, 3, ... in commit order, whatever is deleted in between. |
| NumberRuns.NumbersIdentifyPhotos | server/internal/repository/media_repo.go:234-238 | Confirmed photos of an album share a number only if they are the same photo, and none is above the counter. |
| MediaService.RepeatedConfirmReadsOwnNumber | server/internal/service/media_service.go:250-260 | However much later a confirm is repeated, the row under the same reservation still reads confirmed with its own number. |
| AvatarRuns.AvatarsBelongToActiveMembers | server/internal/repository/avatar_repo.go:111-153 | In every run each avatar belongs to an active member, who has at most one current and one pending avatar in the album. |
| ReceiptRuns.AbandonedReceiptStartsNothing | server/internal/repository/account_deletion_repo.go:199-214 | Once abandon reported "not accepted", every later accept with that receipt fails and changes nothing, until the receipt is pruned. |
| ReceiptRuns.AcceptedReceiptCannotBeAbandoned | server/internal/repository/account_deletion_repo.go:170-187 | Once accepted, every later abandon reports acceptance and changes nothing, until the receipt is pruned. |
| ReceiptRuns.NoSharedAlbumIsDestroyedUnasked | server/internal/repository/account_deletion_repo.go:139-151 | In every run, an album the deletion job removes while another account is active in it was in the confirmed set of the request that started that deletion. |
| DeletionRuns.DeletionConverges | server/internal/repository/account_deletion_repo.go:246-357 | Any complete schedule of the jobs of any set of accounts, repeated, reordered, cut short or run by several workers, ends in one database state, written down independently as Settled. |
| DeletionRuns.DeletionConvergesWithCleaner | server/internal/service/account_deletion.go:186-206 | With any steps of the object cleaner in between, as the worker takes after each removal, the rows still end up the same and only the queue differs. |
| DeletionRuns.FirstPassFinishes | server/internal/service/account_deletion.go:180-199 | When every album listed at the start of a pass has been processed, with anything else in between, FinishAccount succeeds: no second pass is needed. |
| DeletionRuns.MembershipsOnlyShrink | server/internal/repository/account_deletion_repo.go:120-151 | No transaction gives an account that is being deleted or gone a membership it did not have. |
| FinerSteps.ConfirmIsAtomic | server/internal/repository/media_repo.go:206-221 | Transactions that skip the album lock may run between the reads and the guarded update of MarkConfirmed; the outcome is that of the whole transaction at one moment. |
| AvatarSteps.AvatarConfirmKeepsAvatarIffRowSurvives | server/internal/repository/avatar_repo.go:113-153 | For any unlocked transactions between the reads, the DELETE and the UPDATE of a confirm: it leaves the new avatar, confirmed, as the member's only one if and only if none of them dropped, removed or swept the row; otherwise a commit leaves the member with no avatar. |
| AvatarSteps.AvatarConfirmHitsForeignRowIff | server/internal/repository/avatar_repo.go:147-149 | The update is by avatar id alone: it confirms another member's upload if and only if the row was taken, its id then reserved in another album and still pending there for a member without a current avatar; with one the whole confirm rolls back. |
| AvatarSteps.AvatarConfirmCanConfirmAnother | server/internal/repository/avatar_repo.go:31-90 | Such a run: drop, then reserve the id elsewhere. The commit makes that member's unchecked upload current and leaves this member with none. |
| AvatarSteps.TwoAlbumsOneUpload | server/internal/repository/avatar_repo.go:31-90 | A reachable state in which such a run can start. |
| AvatarSteps.AvatarWriteInv | server/internal/repository/avatar_repo.go:140-153 | Whatever fell in between, a commit loses no storage key and keeps one current avatar per member. |
| AvatarSteps.AvatarConfirmCanLoseAvatar | server/internal/repository/avatar_repo.go:155-190 | One drop, removal or sweep of the row in between is enough: the confirm commits and the member has no avatar. |
| AvatarService.AvatarCommitsWhatWasCheckedIff | server/internal/service/avatar_service.go:97-135 | Whatever runs between the read of the row and the commit, the commit confirms the upload whose object was checked if and only if no reservation in between gave the avatar id another key. |
| AvatarService.AvatarDropRetiresWhatFailedIff | server/internal/service/avatar_service.go:114-117 | The drop after a failed check retires the upload that failed under the same condition. |
| AvatarService.AvatarCommitCanBeUnchecked | server/internal/service/avatar_service.go:107-120 | A run where it does not: the member reserves the id again for other bytes, and the commit makes an object current that nothing looked at. |
| AvatarService.CheckAvatar | server/internal/service/avatar_service.go:97-119 | Goes on to the commit exactly for the owner's row that is confirmed already or whose object is stored with the claimed size and, where storage reports one, hash. |
| AvatarService.FinishAvatar | server/internal/service/avatar_service.go:120-130 | Commits as the transaction does, tells a revoked member from a reservation that is gone, and hands exactly the replaced keys to the cleaner. |
| AcceptSteps.AcceptIsAtomic | server/internal/repository/account_deletion_repo.go:113-167 | Acceptance locks the account and its receipt but no album. Whatever runs between the claim, the plan check and the writes, the outcome is that of the whole transaction at one moment, up to a receipt that was there before and is pruned meanwhile. |
| AcceptSteps.PlanStaysGood | server/internal/repository/account_deletion_repo.go:120-151 | Along any run that does not wait for the account's row, a plan that covers every shared album the account would destroy keeps doing so. |
| AlbumOutcomes.CreateOutcome | server/internal/repository/album_repo.go:46-109 | Only a live account creates an album; it is then the only member, as admin, of an album with no epoch, wrap or debt, and nothing else changes. |
| AlbumOutcomes.RotateOutcome | server/internal/e2ee/epoch/repo.go:107-214 | In reachable states a rotation succeeds exactly on the sole admin's token, for the next epoch, with the active members as recipients; each refusal has its exact cause. It stores the signature and one wrap per member as sent, clears the debt, and leaves every other row, album and account as it was. |
| AlbumOutcomes.DeliverOutcome | server/internal/e2ee/invite/repo.go:126-329 | The same for invites: every envelope is stored as sent, under the account's old token or else the minted one; members, wraps of others, epochs, other albums and accounts stay as they were. |
| AlbumOutcomes.RevokeOutcome | server/internal/repository/album_repo.go:432-524 | The same for revocations: only the target's revocation and the debt change, and exactly the target's avatars go. |
| AlbumOutcomes.DeleteAlbumOutcome | server/internal/repository/removal_repo.go:26-58 | Exactly the sole admin deletes an album; each refusal has its exact cause and changes nothing. |
| AlbumOutcomes.DeletionEffect | server/internal/repository/removal_repo.go:104-125 | After a deletion the album and all its photos and avatars are gone, exactly their keys have joined the queue, and every other album, row and account is as it was. |
| AlbumOutcomes.DeletedAlbumStaysGone | server/internal/repository/removal_repo.go:105-125 | In every later state of the run there is no such album, and no photo or avatar of it. |
| UploadOutcomes.ReserveOutcome | server/internal/repository/media_repo.go:38-152 | In reachable states a reservation succeeds exactly when the tag is the album's newest epoch, no rotation is owed, the uploader is on the roster and the id is free or the uploader's own pending row; each refusal has its exact cause. The row is stored as requested, with the old key exactly where the bytes are the same, and exactly the keys it lost are queued. |
| UploadOutcomes.ConfirmOutcome | server/internal/repository/media_repo.go:156-244 | A confirmation succeeds exactly for the pending row of that reservation in an album open at its tag; the row gets the next number and nothing else changes. |
| UploadOutcomes.AbortOutcome | server/internal/repository/media_repo.go:256-287 | An abort takes the caller's pending row under that reservation or nothing. |
| UploadOutcomes.SweepOutcome | server/internal/repository/media_repo.go:290-339 | A sweep takes exactly the pending rows among those picked. |
| UploadOutcomes.DeletePhotoOutcome | server/internal/repository/removal_repo.go:60-93 | Exactly the uploader deletes a confirmed photo, and only that row goes. |
| UploadOutcomes.CleanerOutcomes | server/internal/repository/media_repo.go:369-389 | Acknowledging takes one key off the queue; rescheduling adds one attempt to one key. |
| AvatarOutcomes.ReserveAvatarOutcome | server/internal/repository/avatar_repo.go:31-90 | An avatar is reserved exactly by an active member under a free id or its own pending one; it replaces the member's pending upload, keeps the key exactly for the same bytes, and leaves the current avatar and everybody else's alone. |
| AvatarOutcomes.ConfirmAvatarOutcome | server/internal/repository/avatar_repo.go:113-153 | An avatar is confirmed exactly by its active member while pending; it becomes the member's only one. |
| AvatarOutcomes.AvatarRemovalOutcomes | server/internal/repository/avatar_repo.go:155-190 | A drop, a removal and a sweep take exactly the avatars they name. |
| AccountOutcomes.AcceptOutcome | server/internal/repository/account_deletion_repo.go:113-167 | A deletion is accepted exactly for a known account and a receipt not abandoned, when every album the account runs with others active is confirmed or the deletion was accepted before; it then marks the account and queues its job. |
| AccountOutcomes.AbandonOutcome | server/internal/repository/account_deletion_repo.go:199-214 | Abandoning claims an unknown receipt for good and otherwise reports whether it was accepted. |
| AccountOutcomes.RemoveMembershipOutcome | server/internal/repository/account_deletion_repo.go:247-323 | A revoked identity is erased, an active plain member leaves with a rotation owed, and the album goes with its last active member or its admin; exactly the rows that belong to what goes are removed. |
| AccountOutcomes.FinishOutcome | server/internal/repository/account_deletion_repo.go:326-357 | The account row and its job go exactly when no album knows the account any more. |
| Albums.InsertEpochInv | server/internal/e2ee/epoch/repo.go:142-213 | A validated rotation that passes the recheck keeps the album invariant and hands the new key to exactly the active members. |
| Albums.RotationIsStorable | server/internal/e2ee/epoch/repo.go:182-204 | Such a rotation cannot fail on a table constraint. |
| Albums.DeliverInv | server/internal/e2ee/invite/repo.go:206-329 | A join or return keeps the invariant, including the member cap, and adds exactly that token to the active set and to every epoch's holders. |
| Albums.RevokeInv | server/internal/repository/album_repo.go:432-512 | Revocation keeps the invariant: the last-admin guard means the admin stays. |
| Albums.EraseInv | server/internal/repository/account_deletion_repo.go:315-319 | Erasing a departed identity, its roster row and received wraps keeps the invariant. |
| World.AlbumsStep | server/internal/repository/album_repo.go:430-524 | Every event of the server keeps every album's roster, epochs, wraps, debt and holders in order. |
| ObjectRuns.ObjectsStep | server/internal/repository/avatar_repo.go:203-239 | Every event keeps each committed key in one place with at most one owner. |
| ObjectStore.MovingKeysKeepsInv | server/internal/repository/media_repo.go:391-401 | Whatever moves keys from rows to the queue, and mints only new ones, keeps that invariant. |
| UploadRuns.RowsStep | server/internal/repository/media_repo.go:134-151 | Every event keeps each media row tied to its album, member, epoch and first stored reservation, and numbers distinct. |
| AccountRuns.AccountsStep | server/internal/repository/account_deletion_repo.go:120-166 | Every event keeps the agreement: a departing admin's album was confirmed or has nobody else in it. |
| AlbumRepository.Repository.CreateWithAdmin | server/internal/repository/album_repo.go:46-109 | Tables and result are those of the creation transaction; a deleting or unknown account creates nothing. |
| AlbumRepository.Repository.RevokeMemberTx | server/internal/repository/album_repo.go:432-524 | Tables and result are those of the revocation transaction, with the active admins counted row by row. |
| AlbumRepository.Repository.DeleteAlbumTx | server/internal/repository/removal_repo.go:26-58 | Tables are those of the deletion transaction, and the keys returned are exactly those of the album's photos and avatars, queued. |
| EpochRepo.Repo.InsertEpoch | server/internal/e2ee/epoch/repo.go:107-214 | Tables and result are those of the rotation transaction; any failure leaves the tables alone. |
| EpochRepo.ActiveTokens | server/internal/e2ee/epoch/repo.go:154-175 | Collects every active token exactly once. |
| EpochRepo.InsertWraps | server/internal/e2ee/epoch/repo.go:189-204 | Stores all rows, or reports a broken constraint exactly when one row breaks it. |
| EpochRepo.AnyListing | server/internal/e2ee/epoch/repo.go:177-180 | Any order of the active rows hashes to the digest of the member set. |
| InviteRepo.RecheckUnderLock | server/internal/e2ee/invite/repo.go:126-203 | Refuses for the first failing condition among sender, accounts, epoch and debt. |
| InviteRepo.Repo.DeliverMember | server/internal/e2ee/invite/repo.go:206-329 | Tables and result are those of the delivery transaction, join or return. |
| MediaRepository.Repository.ReserveUploadRow | server/internal/repository/media_repo.go:38-152 | Tables and stored row are those of the reservation transaction, kept and stale keys included. |
| MediaRepository.StaleKeyList | server/internal/repository/media_repo.go:104-120 | Keeps exactly the keys whose bytes did not change and lists exactly the others. |
| MediaRepository.Repository.MarkConfirmed | server/internal/repository/media_repo.go:156-244 | Tables and generation are those of the confirmation transaction. |
| MediaRepository.Repository.QueuePendingCleanup | server/internal/repository/media_repo.go:256-287 | Retires the owned pending row of that reservation or nothing, and returns exactly the retired keys. |
| MediaRepository.Repository.QueueStalePendingCleanup | server/internal/repository/media_repo.go:290-339 | Retires exactly the pending rows among those picked. |
| MediaRepository.Repository.DeleteOwnedMedia | server/internal/repository/removal_repo.go:60-93 | Only the uploader deletes a confirmed photo, and its keys are queued. |
| MediaRepository.Repository.DeleteObjectCleanupKey | server/internal/repository/media_repo.go:369-373 | Takes exactly that key off the queue. |
| MediaRepository.Repository.RescheduleObjectCleanupKey | server/internal/repository/media_repo.go:376-389 | Counts one more attempt, or reports zero when the key is gone. |
| AvatarRepository.Repository.Reserve | server/internal/repository/avatar_repo.go:31-90 | Tables and stored row are those of the reservation transaction; a reused key leaves the queue in the same commit. |
| AvatarRepository.UnqueueObjectCleanup | server/internal/repository/avatar_repo.go:228-239 | Takes the kept key off the queue if this transaction queued it, and nothing else. |
| AvatarRepository.Repository.Confirm | server/internal/repository/avatar_repo.go:113-153 | Tables and result are those of the confirmation in one piece; the keys returned are exactly the replaced ones, queued. |
| AvatarRepository.Repository.DropPending | server/internal/repository/avatar_repo.go:156-161 | Retires that pending upload or nothing, and returns exactly its key. |
| AvatarRepository.Repository.Remove | server/internal/repository/avatar_repo.go:164-168 | Retires every avatar of the member and returns exactly their keys. |
| AccountDeletionRepository.Repository.Memberships | server/internal/repository/account_deletion_repo.go:81-110 | Describes every membership of the account once and nothing else. |
| AccountDeletionRepository.Repository.Accept | server/internal/repository/account_deletion_repo.go:113-167 | Tables and result are those of the acceptance; a refused plan leaves no receipt behind. |
| AccountDeletionRepository.Repository.AbandonReceipt | server/internal/repository/account_deletion_repo.go:199-214 | Claims an unknown receipt as abandoned, else reports whether it was accepted. |
| AccountDeletionRepository.Repository.RemoveMembership | server/internal/repository/account_deletion_repo.go:247-323 | Tables and outcome are those of the removal, the outcome re-derived under the lock, and the keys returned are exactly those of the rows removed. |
| AccountDeletionRepository.Repository.FinishAccount | server/internal/repository/account_deletion_repo.go:326-357 | Removes the account exactly when no membership is left. |
| Database.EnqueueObjectCleanup | server/internal/repository/media_repo.go:391-401 | Queues every key once and keeps the attempts of keys already queued. |
| Database.RemoveMedia | server/internal/repository/removal_repo.go:129-151 | Whatever order rows come back in, the rows go and exactly their keys are queued and returned. |
| Database.RemoveAvatars | server/internal/repository/avatar_repo.go:206-225 | The same for avatar rows. |
| Database.RemoveAlbum | server/internal/repository/removal_repo.go:105-125 | Every object of the album is queued in the transaction that drops the album row. |
| EpochService.SetEpoch | server/internal/e2ee/epoch/service.go:64-172 | Commits exactly when the caller is admin, the request is valid, the signature over the envelope bytes verifies and the transaction succeeds; otherwise nothing changes, and each refusal says which of these failed. |
| EpochService.CheckRequest | server/internal/e2ee/epoch/service.go:68-113 | The validation loops accept exactly the requests with well-formed wraps, distinct recipients and their digest. |
| EpochService.RequestIsValidated | server/internal/e2ee/epoch/service.go:107-139 | What passes validation is what the rotation transaction relies on. |
| EpochService.CommitStoresTheSignedWraps | server/internal/e2ee/epoch/repo.go:182-213 | A committed rotation stores the verified signature as its epoch and each signed wrap so that it can be read back byte for byte, for exactly the active members, and changes no earlier epoch or row. |
| InviteService.DeliverExistingUser | server/internal/e2ee/invite/service.go:72-161 | Delivers exactly when the request is admissible and the transaction succeeds; what it delivers counts up from epoch zero; says exactly when it refuses for the caller, the target, the epoch or the store. |
| InviteService.CheckEnvelopes | server/internal/e2ee/invite/service.go:102-129 | The sort-and-compare loop accepts exactly the envelope lists that hold one well-sized envelope per epoch 0..current, in any order. |
| InviteService.SortingDecidesCoverage | server/internal/e2ee/invite/service.go:106-119 | Sorted by epoch, a list counts up from zero exactly when it covers every epoch once. |
| InviteService.DeliveryStoresTheEnvelopes | server/internal/e2ee/invite/repo.go:284-314 | Every envelope of a delivered request is stored under the member's token with its nonce, ciphertext and signature in their places, the request's key and prekey index, and the caller as sender. |
| MediaService.CheckUpload | server/internal/service/media_service.go:238-292 | Decides to commit exactly when both objects are in storage with the claimed sizes and, where storage reports them, hashes. |
| MediaService.FinishConfirm | server/internal/service/media_service.go:294-320 | Commits as the transaction does; when the reservation is no longer pending it succeeds only on a row that is confirmed, with that row's own number; each refusal has its exact cause. |
| MediaService.ReadAgain | server/internal/service/media_service.go:304-317 | The second read, in whatever state it meets: the row's own number, the album's count for a row from before numbering, a replaced reservation or an aborted upload. |
| MediaService.CleanupObjectKeys | server/internal/service/media_service.go:570-597 | The loop commits a run of the delete, acknowledge and reschedule events, so stopping it anywhere keeps every object promise; exactly the acknowledged keys leave the queue, and the counters are the numbers of cleared, failed and long-failing keys. |
| AccountDeletionService.Process | server/internal/service/account_deletion.go:180-199 | Undisturbed and free of errors the job finishes in its first pass and leaves exactly the settled state. |
| EpochEnvelope.MemberSetHashInput | server/internal/e2ee/epoch/service.go:201-213 | The loop writes the preimage of the member-set hash. |
| EpochEnvelope.WrapsHashInput | server/internal/e2ee/epoch/service.go:225-252 | The loop writes the preimage of the wraps hash. |
| EpochEnvelope.EnvelopeSignMsg | server/internal/e2ee/epoch/service.go:259-269 | The appends produce the signed message. |
| EpochEnvelope.MemberSetBytesIdentifySet | server/internal/e2ee/epoch/service.go:200-213 | Two token lists have one preimage exactly when they are the same tokens in any order. |
| EpochEnvelope.WrapsBytesIdentifyWraps | server/internal/e2ee/epoch/service.go:215-252 | Two valid wrap lists have one preimage exactly when they are the same wraps in any order. |
| EpochEnvelope.OpkFieldIdentifiesIndex | server/internal/e2ee/epoch/service.go:238-243 | 0xFFFFFFFF never clashes with an index. |
| EpochEnvelope.SignBytesIdentify | server/internal/e2ee/epoch/service.go:254-269 | The signed message fixes album, both hashes, and the epoch modulo 2^32 - no more, no less. |
| EpochEnvelope.EnvelopeBindsRequest | server/internal/e2ee/epoch/service.go:107-127 | One signed message covers one rotation: album, epoch below 2^32, recipients and wraps, unless SHA-256 collides on the preimages shown. |
| EnvelopeReader.ReaderReadsSigned | server/internal/e2ee/epoch/service.go:254-269 | A reader that cuts the signed message at fixed places finds the label, the album, the epoch as 32 bits, the member-set hash and the wraps hash, in that order. |
| EnvelopeReader.ReaderReadsMemberSet | server/internal/e2ee/epoch/service.go:198-213 | A reader of the member-set preimage finds the count and every token, in dictionary order. |
| EnvelopeReader.ReaderReadsRecord | server/internal/e2ee/epoch/service.go:233-250 | A reader of one wrap record finds each field in its place, whatever follows. |
| EnvelopeReader.ReaderReadsWraps | server/internal/e2ee/epoch/service.go:215-252 | A reader of the wraps preimage finds exactly the wraps of the request, by ascending recipient. |
| Sorting.LessIsDictionaryOrder | server/internal/e2ee/epoch/service.go:204 | The byte comparison is dictionary order: a prefix first, else by the first byte that differs. |
| Prekeys.BundlesSelfVerify | server/internal/e2ee/prekey/repo.go:57-131 | Under any interleaving of publish, refresh and rotate the stored signature verifies for the stored prekey and timestamp under the stored identity, and audit rows are increasing non-overlapping intervals. |
| Prekeys.NothingMovesBack | server/internal/e2ee/prekey/repo.go:60-88 | Identity keys never change once set, timestamps never decrease, audit rows are only appended, an index keeps its first key, consumed stays consumed. |
| Prekeys.OneTimePrekeysAreHandedOutOnce | server/internal/repository/prekey_repo.go:41-60 | A one-time prekey handed out once can never be claimed again, re-uploads included. |
| Prekeys.InvitedPrekeysAreNotHandedOut | server/internal/e2ee/invite/repo.go:316-323 | Nor one an invite used. |
| Prekeys.SpkSelfMsgIdentifies | server/internal/e2ee/prekey/service.go:256-265 | The self-signed message fixes the prekey and any int64 timestamp, negative ones included. |
| Prekeys.SpkSelfMsgReads | server/internal/e2ee/prekey/service.go:256-265 | The message is the prekey followed by the timestamp as eight bytes, most significant first. |
| Prekeys.AddBatch | server/internal/e2ee/prekey/repo.go:147-184 | A batch either leaves every requested index with its key and every old row as it was, or changes nothing, and it fails exactly on a clash. |
| Prekeys.Repo.PublishOrRefreshIdentity | server/internal/e2ee/prekey/repo.go:60-88 | A first publication sets all five columns; a repeated one must name the same keys and moves signature and timestamp together, only forward; anything else is a conflict and changes nothing. |
| Prekeys.Repo.RotateKey | server/internal/e2ee/prekey/repo.go:95-131 | Exactly a later timestamp of a known account replaces the prekey, its signature and the timestamp, and appends the audit row; identity keys, one-time prekeys and other accounts stay. |
| Prekeys.Repo.CreateBatchAtomic | server/internal/e2ee/prekey/repo.go:147-184 | All or nothing on the account's prekeys, nobody else's touched. |
| Prekeys.Repo.PopRandom | server/internal/repository/prekey_repo.go:41-60 | Hands out one unlocked unconsumed row and consumes exactly that row, or reports none when all unlocked rows are consumed. |
| Prekeys.Repo.GetPrekeyBundle | server/internal/e2ee/prekey/service.go:218-251 | A published account's bundle carries its own five columns and, unless every unlocked one-time prekey is consumed, one of these, which is then the only row changed; the count is what is left. It verifies whenever the account does. |
| Prekeys.Repo.Count | server/internal/repository/prekey_repo.go:62-69 | Counts the unconsumed prekeys. |
| Prekeys.HandingOutPops | server/internal/repository/prekey_repo.go:41-60 | Handing out a row is the claim event of the run theorems. |
| CanonicalJson.CanonicalSerialize | server/internal/crypto/canonical_json.go:30-36 | Returns the canonical text of exactly the encodable values and refuses every other one. |
| CanonicalJson.EncodeCanonical | server/internal/crypto/canonical_json.go:38-99 | Appends the canonical text to the shared buffer, whatever order each map is walked in. |
| CanonicalJson.EncodeString | server/internal/crypto/canonical_json.go:101-132 | The rune loop appends the escaped string exactly when it is valid UTF-8. |
| CanonicalJson.AnyKeyOrder | server/internal/crypto/canonical_json.go:76-80 | Keys collected in any order sort to one list. |
| Utf8.RuneCopiesBytes | server/internal/crypto/canonical_json.go:106-127 | Writing the rune a loop read copies its bytes, for every well-formed character. |
| JsonDecoder.DecodeInvertsText | server/internal/crypto/canonical_json.go:38-132 | A strict reader, which takes no space, no longer escape than needed, no leading zero and no object whose keys do not ascend, gives back every encodable value from its canonical text, at any depth. |
| JsonDecoder.ShortestSpelling | server/internal/crypto/canonical_json.go:107-127 | A character is two bytes where there is a short escape, six for the other control characters, one otherwise. |
| JsonDecoder.TextIdentifiesValue | server/internal/crypto/canonical_json.go:12-29 | Two encodable values share their bytes exactly when they are equal. |
| KeystoreEnvelope.KotlinEncode | client/android/app/src/main/kotlin/com/freytastic/miuchio/KeystoreBridge.kt:257-271 | No put overflows and the buffer ends up filled to exactly the estimated size, for every map. |
| KeystoreEnvelope.EstimateSize | client/android/app/src/main/kotlin/com/freytastic/miuchio/KeystoreBridge.kt:289-293 | The estimate is the length of the envelope. |
| KeystoreEnvelope.SwiftEncode | client/ios/Runner/SecureEnclaveBridge.swift:306-323 | Produces the same envelope as Android for maps within the field limits and refuses all others. |
| KeystoreEnvelope.Decode | client/ios/Runner/SecureEnclaveBridge.swift:325-342 | The cursor loop reads the envelope, failing exactly when it would read past the end. |
| KeystoreEnvelope.DecodeInvertsEnvelope | client/android/app/src/main/kotlin/com/freytastic/miuchio/KeystoreBridge.kt:273-287 | Within the limits every walk of the map decodes to the map and consumes every byte. |
| KeystoreEnvelope.RoundTripIffFits | client/android/app/src/main/kotlin/com/freytastic/miuchio/KeystoreBridge.kt:255-287 | What Android stores decodes to what was stored if and only if the map fits the length fields. |
| KeystoreEnvelope.LongIdLosesTheMap | client/android/app/src/main/kotlin/com/freytastic/miuchio/KeystoreBridge.kt:257-287 | At an id of 256 digits the stored length is zero, the digits are read as the length of the label, and nothing can be read back. |
| KeystoreEnvelope.KeyStore.SaveMap | client/android/app/src/main/kotlin/com/freytastic/miuchio/KeystoreBridge.kt:233-253 | After a save the store reads back as the map exactly when the map fits. |
| KeystoreEnvelope.KeyStore.PutMany | client/android/app/src/main/kotlin/com/freytastic/miuchio/KeystoreBridge.kt:140-152 | All entries arrive in one save, exactly when together with the old ones they fit. |
| KeystoreEnvelope.KeyStore.Delete | client/android/app/src/main/kotlin/com/freytastic/miuchio/KeystoreBridge.kt:159-163 | Removes exactly that entry, and what could be read can always be saved again. |
| Handle.GenerateWritesTheNumber | server/internal/handle/handle.go:17-33 | A handle writes the big-endian number of its five bytes in base 32. |
| Handle.GenerateIsABijection | server/internal/handle/handle.go:9-33 | Five-byte inputs and canonical handles correspond one to one. |
| Handle.Normalize | server/internal/handle/handle.go:38-67 | The loop with its early exits computes the simple specification: skip, upper-case, fold, check. |
| Handle.NormalFormsAreCanonical | server/internal/handle/handle.go:35-67 | Results are canonical and canonical handles are fixed, so normalizing is idempotent. |
| Handle.NormalizeUndoesFormat | server/internal/handle/handle.go:69-76 | Normalizing the display form gives the stored handle back. |
| Handle.SeparatorsAndCaseDoNotMatter | server/internal/handle/handle.go:41-47 | Inserting a separator or lowering a letter anywhere never changes what an input names. |
| Handle.NormalizesExactly | server/internal/handle/handle.go:38-67 | An input names a handle exactly when, without separators, it is eight digits or letters other than U; I and L read as 1, O as 0, lower case as upper. |
| Handle.FormatLayout | server/internal/handle/handle.go:69-76 | The display form is four letters, a hyphen, four letters. |

## Left out

- HTTP handlers, routing, JSON request decoding, notifications and websocket fan-out: plumbing around the transactions.
- Clocks: hour-quantized timestamps, the two-hour age limit and row limits of the sweeps (the rows picked are a parameter), retry
  backoff, job leases and `ClaimDue`, timestamp skew, session and receipt expiry (pruning is an event with any set).
- Album names, member display names, MIME types and the other columns no transaction decides on; media columns that
  confirmation never looks at travel as one opaque field. Sessions are not modelled.
- Late uploads through a presigned URL that outlives its object's deletion; "deleted" is a successful delete after the key was retired.
- What a member does with a key it was given: holding means having been sent a wrap, not learning the key elsewhere.
- Rows confirmed before photos were numbered, and the dormant co-admin role.
- `RequestUploadURL` above `ReserveUploadRow`: its early reads repeat the checks made under the lock.
- EpochService.SetEpoch: the messages that tell one invalid request from another are not modelled.
- InviteService.DeliverExistingUser: the same; handle lookup is a parameter, and the current epoch it read may be stale.
- MediaService.FinishConfirm: reads the row again at once; MediaService.ReadAgain answers for any later state.
- AccountDeletionService.Process: is the undisturbed worker; with other events in between DeletionRuns.FirstPassFinishes applies.
- KeystoreEnvelope.Decode: ids and labels are their bytes, so the replacement of malformed text on Android and the stop on iOS are not told apart.
- Prekeys.Repo.PublishOrRefreshIdentity: runs its two statements back to back; as events of a run they are separate.
- Prekeys models one account at a time; the OPK consumption inside an invite is the event `Invited` there.
- Wipe and probe of the key store, the outer layouts of its sealed file, safety numbers, the sliding-window limiter, image transcoding and the Dart client.
