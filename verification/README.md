# Passbubble, verified

Passbubble is an end-to-end encrypted password manager. Its clients change keys, tokens and
entry data on their own, and nobody can restore what they lose. This Dafny project models the
parts where that can happen and proves what they keep:

| module | what it models | form |
|---|---|---|
| `DataKey`, `Upgrade` | the wire formats of an entry key and the post-quantum key upgrade of the command line, with failing requests and deaths anywhere | functions; a class over configuration and server state |
| `TokenProtocol`, `TokenLosses`, `SignOut`, `TokenOwners`, `UnlockWaiters` | the refresh token of the extension: single flight, rotation, worker deaths; what loses it, what ends a login, whose token is stored, what an unlock waits for | a state machine whose steps are the code between two awaits |
| `ListingStamp`, `TagsCache`, `TagsLifetime` | the fingerprint of a listing and the tags cache kept under it, against a server other devices write to and share with | functions; a state machine |
| `EntryData`, `TotpSecret`, `ImportMerge` | the merging overwrite of an import, and when two TOTP secrets are one | functions, and the two loops as methods |
| `FolderCache` | the path cache of an import against the remote folder tree | a class for the cache, one for the server |
| `EntryJson` | decoding and encoding entries without losing unknown keys | functions, and the two loops as methods |
| `DataUris`, `Bitwarden`, `EntryKeys` | Bitwarden export followed by import, and the keys it has a place for | functions, and the loops as methods |
| `Sponge`, `MlKemPacking` | the Keccak sponge and the ML-KEM packing of the checked-in crypto bundle | a class over the state array; in-place methods over arrays |
| `Shuffle`, `Generator` | the strong password generator and its in-place shuffle | methods over an array and a random source |
| `PinUnlock` | PIN quick-unlock and the PIN block of the configuration file | a class, and runs of events over its states |
| `Tags` | tag normal form, edits and counts | functions, and the loops as methods |
| `Prelude` | Option, Result, text helpers | functions |

`dafny verify dfyconfig.toml` checks everything. Cryptographic primitives are function values
with laws of correct use (`DataKey.Lawful`); `DataKey.ToyIsLawful` gives an instance, so the laws
do not contradict each other.

## Where the code does less than its comments say

Each of these is a lemma with a concrete run or input, next to the exact condition under which the
property holds.

* The key upgrade is called safe to re-run (cli/internal/vault/upgrade.go:53-54). It is, behind the
  guard of the command. Run on an account with hybrid entries, an entry whose update fails can no
  longer be opened, because its ML-KEM key has been replaced: `Upgrade.UnguardedRerunLosesAnEntry`,
  `Upgrade.SafeToUpgradeExactly`. It also ignores a configuration that cannot be saved, and what it
  re-wraps then does not open from disk: `Upgrade.RewrappedOpensExactly`.
* Trashing and restoring an entry do not bump `updated_at`, nor do revoking a share and sharing again,
  so tags read in between are served after the entry is back: `TagsCache.TrashAndRestoreLeaveStaleTags`,
  `TagsCache.RevokeAndShareLeaveStaleTags`. A new entry is listed before its key is stored, and tags
  read in between stay missing: `TagsCache.LateKeyLeavesStaleTags`. Whether an answer is right:
  `TagsCache.CachedAnswerExactly`; without entries that leave and keys that come late every one is:
  `TagsCache.AnswersAreFreshUnlessEntriesLeave`.
* A refresh whose reply is lost signs the device out once the grace period of the old token is
  over: `TokenLosses.LostReplyCostsTheLogin`; which steps lose the login:
  `TokenLosses.LossesAreReal`, `TokenLosses.NoRejectionExactly`. After the death of a worker two
  requests with one token can be under way: `TokenProtocol.TwoRequestsAfterADeath`,
  `TokenProtocol.RequestsUnderWayExactly`. A login while a refresh of another account is under way
  pairs the new keys with a token of the old account: `TokenOwners.LateReplyMixesAccounts`,
  `TokenOwners.LoginKeepsOneAccountExactly`. An unlock that waits for its refresh while the device is
  signed out reopens the vault when the reply arrives: `SignOut.UnlockInFlightReopens`,
  `SignOut.ReopensExactly`, `SignOut.SignOutLastsExactly`.
* The PIN failure count is saved before an attempt, but the limit is only enforced after a wrong
  PIN has been answered, and saves that fail are ignored. Unsaved attempts are not counted
  (`PinUnlock.UnsavedAttemptsAreFree`, `PinUnlock.WrongAnswerIsCountedExactly`); lock-outs whose wipe
  is not saved go on answering (`PinUnlock.UnwipedLockOutsGoOn`,
  `PinUnlock.WrongAnswersStayBelowTheLimitExactly`); attempts killed before the answer are not locked
  out (`PinUnlock.KilledAttemptsAreNotLockedOut`, `PinUnlock.CountStaysBelowTheLimitExactly`).
* A folder path with a NUL in a segment resolves to another folder: `FolderCache.NulSegmentMisleads`,
  `FolderCache.ResolvedExactly`.
* A tag whose normal form starts with `#` has another normal form the next time, and is not found
  under the name it was added with: `Tags.AddedTagIsNotFound`, `Tags.AddedTagIsFoundExactly`.
* A masked Bitwarden value, or the value of a secret key without a place in its item, that reads like
  a base64 data URI comes back as a file: `Bitwarden.DataUriBecomesFile`,
  `Bitwarden.SecretKeyBecomesFile`, `Bitwarden.FieldReturnsExactly`.

## Model

| member | source | states |
|---|---|---|
| DataKey.HybridRoundTrip | cli/internal/crypto/crypto.go:119-197 | wrapping any data key for a key pair succeeds, the length marks the result as hybrid, and the private keys open it to the same data key |
| DataKey.HybridLayout | cli/internal/crypto/crypto.go:119-197 | a hybrid wrapping is 32 bytes of ephemeral key, 1088 of ML-KEM ciphertext, and the data key sealed under the combination of both secrets, with nonce and tag |
| DataKey.LegacyRoundTrip | cli/internal/crypto/crypto.go:165-233 | an X25519-only wrapping is told from a hybrid one by its length exactly for data keys below 1060 bytes, and then opens with the X25519 key and any ML-KEM key |
| DataKey.ForeignKeyOpensNothing | cli/internal/crypto/crypto.go:175-197 | a hybrid wrapping does not open with another generated ML-KEM key |
| DataKey.ForeignX25519OpensNothing | cli/internal/crypto/crypto.go:175-197 | nor does it open with an X25519 key that agrees on another secret, the ML-KEM key being right |
| DataKey.ForeignX25519OpensNoLegacyKey | cli/internal/crypto/crypto.go:216-233 | nor does an X25519-only wrapping |
| DataKey.TruncatedOpensNothing | cli/internal/crypto/crypto.go:87-89 | a wrapping too short for its format is refused; any other X25519-only one opens to what its sealed part does |
| DataKey.ToyIsLawful | cli/internal/crypto/crypto.go:58-115 | the assumed laws of the primitives have an instance |
| Upgrade.LeavesAtOnce | cli/internal/vault/upgrade.go:82-99 | once the new record is on the server and its save has been tried nothing else has changed: a state the upgrade may leave behind |
| Upgrade.LeavesAfterUpdate | cli/internal/vault/upgrade.go:124-140 | one applied update keeps what a run may leave behind and keeps every entry re-wrapped before re-wrapped |
| Upgrade.FailedExactly | cli/internal/vault/upgrade.go:108-141 | the reported failures are exactly the listed entries whose re-wrap was not confirmed |
| Upgrade.SucceedsExactly | cli/internal/vault/upgrade.go:108-141 | of the owner's account, an entry is counted as re-wrapped exactly if it can be read with the keys on disk and its update is confirmed |
| Upgrade.Session.UpgradeToHybrid | cli/internal/vault/upgrade.go:55-143 | every outcome is given exactly when it is due: a wrong password exactly if a private key does not open, keys not updated exactly if they cannot be sealed or the server does not confirm them, not listed exactly if it gets that far and the listing fails, finished exactly if the process lives for all its effects, and died otherwise; and each outcome leaves exactly the named record, configuration and entry keys, so that a pass to the end has re-wrapped + failed = entries |
| Upgrade.Session.RewrapOne | cli/internal/vault/upgrade.go:108-141 | one turn of the loop sends the entry exactly if it was fetched, opened and re-wrapped, counts it exactly if that was confirmed, dies exactly if it has to send and cannot, and touches no other entry |
| Upgrade.Session.RewrapAll | cli/internal/vault/upgrade.go:103-142 | the loop finishes exactly if the process lives for every entry it sends, counts every listed entry once, and exactly the entries sent and not refused have their new key; if it dies, exactly those before |
| Upgrade.NewRecordOpens | cli/internal/vault/upgrade.go:72-99 | the record the upgrade writes opens with the master password to the kept X25519 key and the new ML-KEM key |
| Upgrade.RewrappedOpens | cli/internal/vault/upgrade.go:119-140 | a re-wrapped entry opens to its data key with the record the upgrade put on the server |
| Upgrade.RewrappedOpensExactly | cli/internal/vault/upgrade.go:94-99 | with what is on disk a re-wrapped entry opens exactly if the configuration could be saved, a failure the upgrade ignores |
| Upgrade.LegacyAccountStaysReadable | cli/internal/vault/upgrade.go:50-54 | from an X25519-only account, if the configuration can be saved, every entry opens to its original data key from disk in every state the upgrade can leave behind |
| Upgrade.EntryStaysReadableExactly | cli/internal/vault/upgrade.go:101-142 | for any account, a re-wrapped entry opens afterwards exactly if the configuration could be saved, and another one exactly if it is X25519-only or the configuration was not replaced |
| Upgrade.HybridEntryIsLost | cli/internal/vault/upgrade.go:72-99 | the record the upgrade writes opens no entry wrapped for the ML-KEM key it replaces |
| Upgrade.SafeToUpgradeExactly | cli/internal/vault/upgrade.go:53-54 | every run from an account whose configuration can be saved keeps every entry readable exactly if no entry of the account is hybrid |
| Upgrade.GuardedRunsKeepEntries | cli/internal/cli/upgrade_keys.go:38-49 | any number of guarded runs with a configuration that can be saved, each dying or failing anywhere else, keep every entry readable |
| Upgrade.NeedsUpgradeExactly | cli/internal/vault/upgrade.go:25-38 | the configuration asks for the upgrade exactly if its public key is not as long as a generated one |
| Upgrade.UnguardedRerunLosesAnEntry | cli/internal/vault/upgrade.go:53-54 | without the guard there is a run after which an entry cannot be opened |
| TokenProtocol.StepKeepsSingleFlight | extension/src/background/vault-client.ts:94-99 | every step keeps at most one refresh running, and the flight variable says whether there is one |
| TokenProtocol.AtMostOneRefresh | extension/src/background/vault-client.ts:83-127 | in every state of every run a worker runs at most one refresh, and the flight variable says whether it does |
| TokenProtocol.StepCountsOrphans | extension/src/background/vault-client.ts:83-127 | a request under way is left behind exactly when its worker dies or gives it up, and stops counting when it reaches the server |
| TokenProtocol.RequestsUnderWayExactly | extension/src/background/vault-client.ts:83-127 | the refresh requests under way are exactly that of the worker, at most one, one for each that a worker died with or gave up and the server has not seen, and those sent by sign-outs outside the single flight: of the first two kinds at most one unless one was left behind so |
| TokenProtocol.TwoRequestsAfterADeath | extension/src/background/vault-client.ts:83-127 | two requests with the same token can be under way, after a death |
| TokenProtocol.ReplyWaits | extension/src/background/vault-client.ts:101-118 | a rotated token waits in its worker until it is stored or its reply is dropped: lost, not saved or dead with the worker |
| TokenProtocol.NextRequestAfterStored | extension/src/background/vault-client.ts:101-118 | from a reply to the next request, the rotated token was stored or its reply was dropped |
| TokenLosses.StepLosesNothingExactly | extension/src/background/vault-client.ts:101-127 | a step keeps every token this device goes on with one the server accepts exactly if it is no loss |
| TokenLosses.RejectedOnlyAfterALoss | extension/src/background/vault-client.ts:85-118 | in every run in which this device's own token is not lost (revoked, expired or rotated for someone else, or its successor lost, not stored or dead with its worker) no refresh is rejected, whatever happens to other sessions, requests and workers |
| TokenProtocol.StepStaysSane | extension/src/background/vault-client.ts:94-127 | every step keeps one refresh at a time and every token in use or stored one the server issued |
| TokenProtocol.RunsStaySane | extension/src/background/vault-client.ts:94-127 | so does every run |
| TokenLosses.NoRejectionExactly | extension/src/background/vault-client.ts:85-118 | from any sane state, every continuation without a loss is free of rejections exactly if nothing was lost so far |
| TokenLosses.IdleClientExactly | extension/src/background/vault-client.ts:85-118 | for an idle client with a complete login: exactly if its stored token is active |
| TokenLosses.LossesAreReal | extension/src/background/vault-client.ts:85-118 | a step after which a rejection can come without a further loss is exactly one of the losses, of every kind |
| TokenLosses.LostReplyCostsTheLogin | backend/internal/api/handlers/auth.go:276-324 | a lost reply and the end of the grace period lead to a rejected refresh and a sign-out |
| TokenLosses.RejectedRefreshSignsOut | extension/src/background/vault-client.ts:111-115 | a rejected refresh ends with no login state and a locked vault |
| TokenLosses.FailuresNeverLock | extension/src/background/vault-client.ts:129-140 | in every run in which nobody locks or signs out and no refresh is answered with a rejection, which a run without a loss guarantees, an open vault stays open and logged in: lost replies, failed saves and deaths included |
| TokenLosses.OnlyRejectionsLock | extension/src/background/vault-client.ts:129-140 | in every run in which nobody locks or signs out, an open vault stays open and logged in, in every state, exactly if no rejection arrives |
| TokenLosses.LoginLastsExactly | extension/src/background/vault-client.ts:52-75 | in every run a login lasts, in every state, exactly if nobody signs out and no rejection arrives, whatever locks, idle deaths and failures interleave |
| TokenLosses.LockKeepsTheLogin | extension/src/background/vault-client.ts:52-66 | a whole lock closes the session and changes nothing else |
| TokenLosses.StepChangesExactly | extension/src/background/vault-client.ts:52-127 | each step leaves login and session as they were, but for the ones named: login, storing a rotated token, the last step of a sign-out; unlock, the first step of a lock, a death |
| SignOut.SignedOutStep | extension/src/background/account-store.ts:161-206 | once signed out, no step but a login makes the stored login usable or a session appear |
| SignOut.SignOutAdvances | extension/src/background/vault-client.ts:54-75 | whatever interleaves, a sign-out under way has locked the session as far as it has come |
| SignOut.SignOutIsFinal | extension/src/background/vault-client.ts:71-75 | with no unlock in flight, after a sign-out no refresh, lock or late reply brings back the login or a session until the next login |
| SignOut.UnlockInFlightReopens | extension/src/background/message-handler.ts:284-306 | an unlock that waits for its refresh during a whole sign-out sets the session when the reply arrives after it |
| SignOut.StepStaysShut | extension/src/background/message-handler.ts:284-306 | a closed vault that no unlock in flight can open stays so in every step but a login |
| SignOut.ReopensExactly | extension/src/background/message-handler.ts:284-306 | from a signed-out state, some run without a login opens a session exactly if an unlock has its tokens, or one is under way and the running refresh can still succeed |
| SignOut.SignOutLastsExactly | extension/src/background/vault-client.ts:54-75 | before signing out the same condition tells whether the sign-out can be undone without a login |
| TokenOwners.TokenBelongsToAccountExactly | extension/src/background/account-store.ts:168-196 | in every run the tokens stored and in use were issued to the user whose keys are stored, in every state, exactly if every login finds no refresh that carries a token of another user |
| TokenOwners.LoginKeepsOneAccountExactly | extension/src/background/account-store.ts:168-196 | a login keeps token and keys of one account exactly if every running refresh carries a token of the user that logs in, or none |
| TokenOwners.StoredTokenIsOfAccount | extension/src/background/account-store.ts:168-196 | the stored token of a usable login then belongs to the stored keys |
| TokenOwners.LateReplyMixesAccounts | extension/src/background/vault-client.ts:110-118 | a login during a refresh of another user leaves a token of one user with the keys of the other |
| UnlockWaiters.StepMovesExactly | extension/src/background/vault-client.ts:83-127 | each step moves the waiting unlocks, and starts and ends refreshes, locks and sign-outs, exactly so: a refresh that succeeds resumes all that wait for it, one that fails none |
| UnlockWaiters.EveryUnlockIsAccounted | extension/src/background/message-handler.ts:278-306 | in every run each unlock that was begun is completed, has failed with its refresh or its worker, or still waits |
| UnlockWaiters.UnlockFollowsAStoredToken | extension/src/background/vault-client.ts:117-127 | in every run an unlock opens the session only after the refresh it waited for has stored its rotated token and then succeeded, all in one life of the worker |
| UnlockWaiters.RefreshAdvances | extension/src/background/vault-client.ts:101-127 | a running refresh is never stuck, each kind of failure can hit it where the code awaits, and every move brings it nearer to its end |
| UnlockWaiters.OthersMayAdvance | extension/src/background/vault-client.ts:54-75 | requests nobody waits for, requests of a logout, locks and sign-outs can go on at any time |
| ListingStamp.LineInjective | extension/src/background/message-handler.ts:268-273 | a line of the fingerprint determines the entry and its version |
| ListingStamp.JoinInjective | extension/src/background/message-handler.ts:268-273 | the joined text determines the lines |
| ListingStamp.StampExactly | extension/src/background/message-handler.ts:265-273 | two listings have the same fingerprint exactly if they list the same versions of the same entries, in whatever order |
| TagsCache.StepKeepsServer | backend/internal/api/handlers/entries.go:239 | data writes strictly bump the version, so each record of the server's history only becomes later, even through trash, shares and keys that come and go |
| TagsCache.RunsStayOk | extension/src/background/message-handler.ts:674-693 | in every run every cached listing, cached tags and answer stems from moments of the server's history |
| TagsCache.TagsOfExactly | extension/src/background/message-handler.ts:681-691 | the tags of a view are those of each readable entry that has any, all of them, and of no other |
| TagsCache.CachedAnswerExactly | extension/src/background/message-handler.ts:677-679 | an answer read before its listing is right for that listing exactly if no entry with readable tags came or went in between |
| TagsCache.LaterListingExactly | extension/src/background/message-handler.ts:265-273 | tags kept under equal fingerprints are right for the later listing exactly if the entries with readable tags are in both views |
| TagsCache.AnswersAreFreshUnlessEntriesMove | extension/src/background/message-handler.ts:674-693 | in every interleaving an answer has, entry by entry, all tags of exactly the readable tagged entries the server showed at a moment no earlier than its listing, unless an entry with readable tags came or went between |
| TagsCache.AnswersAreFreshUnlessEntriesLeave | extension/src/background/message-handler.ts:670-693 | in every run in which no listed entry leaves (trashed, deleted, no longer shared, its key taken) and no key comes after the tags were read without it, every answer has all tags of exactly the readable tagged entries shown at such a moment, whatever is created, written, restored or shared, here or elsewhere |
| TagsCache.WellStep | extension/src/background/message-handler.ts:674-693 | a step that is none of these keeps the listing growing, the kept tags settled and every answer fresh |
| TagsCache.EqualStampsExactly | extension/src/background/message-handler.ts:680-691 | if the full listing the tags were read from has the fingerprint too, they are right for the listing exactly if no key of an entry with tags came or went |
| TagsCache.FillWhileAway | extension/src/background/message-handler.ts:680-691 | tags read while an entry is away or its key is missing are cached under the fingerprint of the listing before |
| TagsCache.TrashAndRestoreLeaveStaleTags | backend/internal/api/handlers/trash_versions.go:101-102 | restoring bumps no version, and there is a run whose cached answer is stale |
| TagsCache.RevokeAndShareLeaveStaleTags | backend/internal/api/handlers/shares.go:127-137 | nor do revoking a share and sharing again |
| TagsCache.LateKeyLeavesStaleTags | backend/internal/api/handlers/entries.go:174-194 | an entry is listed before its key is stored; tags read in between stay missing |
| TagsLifetime.ServerShowsExactly | backend/internal/api/handlers/entries.go:69-76 | a write, create, trash, restore, share, revoke, key or purge shows, hides or changes its own entry exactly so, and no other |
| TagsLifetime.StepCachesExactly | extension/src/background/session-store.ts:119-180 | what each step leaves in the tags cache and the entries cache, and whether the vault is open |
| TagsLifetime.AnswersAreReadAfterAClear | extension/src/background/session-store.ts:119-180 | in every run what is answered after a write here, a lock or a restart was read after it, and after a lock or restart listed after it too, answers under way excepted |
| TagsLifetime.LockedRunsKeepNone | extension/src/background/message-handler.ts:690-691 | in every run no tags are kept while the vault is locked, also when the lock falls into a decryption |
| TagsLifetime.LockedAnswersNothing | extension/src/background/message-handler.ts:674-676 | a locked vault answers nothing until it is unlocked |
| ImportMerge.MergedByRank | cli/internal/cli/importexport.go:416-449 | label by label: max(existing, imported) fields, the k-th existing one updated by the k-th imported one, the surplus appended in order |
| ImportMerge.SurplusByRank | cli/internal/cli/importexport.go:434-437 | the appended fields of a label are those whose rank no existing field has, in order |
| ImportMerge.MergeCustomFields | cli/internal/cli/importexport.go:423-449 | the greedy pairing loop computes the rank specification |
| ImportMerge.MergingFieldsAgain | cli/internal/cli/importexport.go:416-449 | merging the same fields again changes nothing |
| ImportMerge.MergeImportedData | cli/internal/cli/importexport.go:373-414 | the loop over the string fields and the rest compute the merge specification |
| ImportMerge.MergedTextByKey | cli/internal/cli/importexport.go:366-405 | a non-empty value of the file wins, an empty one or a key it cannot express leaves the entry's |
| ImportMerge.MergedKeysExactly | cli/internal/cli/importexport.go:380-405 | the keys a file can express, by name |
| ImportMerge.MergeKeepsTheRest | cli/internal/cli/importexport.go:366-373 | what the record leaves empty or cannot express stays, unknown keys included; tags are the file's if it has any |
| ImportMerge.CodeOptionsFollowTheSecret | cli/internal/cli/importexport.go:406-408 | period, digits and algorithm are the stored ones while the secret is the same up to spelling, and the file's otherwise |
| TotpSecret.GroupingIsIgnored | cli/pkg/totp/totp.go:114-127 | a separator anywhere inside a secret makes no other secret |
| TotpSecret.PaddingIsIgnored | cli/pkg/totp/totp.go:124-127 | nor does padding at its end |
| TotpSecret.CaseIsIgnored | cli/pkg/totp/totp.go:114-127 | nor does its case |
| TotpSecret.BareSecretsExactly | cli/pkg/totp/totp.go:114-127 | secrets without separators, spaces and padding are one exactly if they are equal in upper case |
| ImportMerge.MergingAgain | cli/internal/cli/importexport.go:373-414 | importing the same record again changes nothing |
| FolderCache.PathOfKeyExactly | cli/internal/cli/importexport.go:559-563 | a path is found again from its key exactly if no segment holds a NUL |
| FolderCache.KeyOfPath | cli/internal/cli/importexport.go:559-563 | every key is the key of the path it spells |
| FolderCache.Walk | cli/internal/cli/importexport.go:569-575 | the walk keeps the cache right and prefix-closed and enters every folder below it |
| FolderCache.BuildFolderCache | cli/internal/cli/importexport.go:565-578 | the cache built from a listing maps each path to a folder at it, is prefix-closed and misses no folder of the listing, and none of the tree if the listing is whole; it has no other key, and of the folders with one key it holds the last in the walk |
| FolderCache.LastEnteredWins | cli/internal/cli/importexport.go:569-575 | of the folders with one key the last one of the walk is found |
| FolderCache.FolderIsCovered | cli/internal/cli/importexport.go:565-578 | every folder of a tree that is listed whole is found in the cache under its path |
| FolderCache.ResolveFolderID | cli/internal/cli/importexport.go:580-603 | it succeeds exactly if every missing prefix is granted by the server, and a refusal leaves exactly the folders for the prefixes before it, cached; either way the cache stays right and prefix-closed, and if it missed no folder it still misses none and no folder was created beside one at its path; a success creates one folder for each missing prefix and none when repeated |
| FolderCache.ReachedCreated | cli/internal/cli/importexport.go:594-600 | one create adds one folder and one cache entry, for the first prefix that was missing |
| FolderCache.CreatedIsSound | cli/internal/cli/importexport.go:594-600 | a new folder sits where its cache key says, and the cache stays prefix-closed |
| FolderCache.CreatedIsNew | cli/internal/cli/importexport.go:594-600 | a folder created under a key that was not cached is the only one at its path, and the cache still misses none |
| FolderCache.ResolvingCreated | cli/internal/cli/importexport.go:587-602 | one turn of the loop that creates keeps all of this |
| FolderCache.ResolvedExactly | cli/internal/cli/importexport.go:580-603 | a resolved folder sits at the requested path exactly if the path is NUL-free |
| FolderCache.OnePath | cli/internal/vault/vault.go:505-507 | a folder of the remote tree sits at one path only |
| FolderCache.NulSegmentMisleads | cli/internal/cli/importexport.go:559-563 | a segment "a NUL b" resolves to folder b in a |
| EntryJson.DecodeEncoded | cli/internal/vault/entry_json.go:38-79 | decoding an encoded entry gives it back |
| EntryJson.EncodeDecoded | cli/internal/vault/entry_json.go:38-79 | encoding a decoded object gives it back up to empty modelled values, also inside custom fields |
| EntryJson.UnchangedExactly | cli/internal/vault/entry_json.go:38-79 | an object comes back unchanged exactly if it holds no empty modelled value and its fields and tags are written the encoder's way |
| EntryJson.FieldRoundTrip | cli/internal/vault/entry_json.go:59-79 | decoding an encoded custom field gives it back |
| EntryJson.EncodeDecodedField | cli/internal/vault/entry_json.go:59-79 | encoding a decoded custom field drops empty optional values and nothing else |
| EntryJson.FieldLayout | cli/internal/vault/entry_json.go:59-79 | each member of an encoded custom field holds what its key says |
| EntryJson.EntryLayout | cli/internal/vault/entry_json.go:53-57 | numbers and lists of an entry stand under their own keys, and only if not empty |
| EntryJson.NumbersFitExactly | cli/internal/vault/entry_json.go:38-51 | a number can be read exactly if it fits 64 bits |
| EntryJson.EditExactly | cli/internal/vault/entry_json.go:27-30 | an edit changes its own value and no other |
| EntryJson.DecodedIsEntry | cli/internal/vault/entry_json.go:118-145 | kept unknown keys never overlap modelled ones, in entries and custom fields |
| EntryJson.RunKeepsUnknown | cli/internal/vault/entry_json.go:27-30 | any sequence of edits keeps the unknown part of the entry and of every custom field that is left |
| EntryJson.EditsKeepUnknownKeys | cli/internal/vault/entry_json.go:27-30 | decode, any edits, encode: every unknown key has its old value and none appears |
| EntryJson.EditsKeepUnknownKeysOfFields | cli/internal/vault/entry_json.go:27-30 | the same for the unknown keys of each custom field, followed to where it came from |
| EntryJson.DecodeKnown | cli/internal/vault/entry_json.go:122-145 | the loop splits the object into its modelled keys and the rest |
| EntryJson.EncodeWithExtra | cli/internal/vault/entry_json.go:150-165 | the loop merges the extra keys and never lets one replace a modelled key |
| EntryJson.UnmarshalEntry | cli/internal/vault/entry_json.go:38-51 | null changes nothing, an object decodes exactly if each modelled key has its type or is null, anything else fails |
| EntryJson.MarshalEntry | cli/internal/vault/entry_json.go:54-57 | encodes to the object the round trips are about |
| Bitwarden.KeyedValueReturns | backend/pkg/exporters/bitwarden.go:160-209 | every non-empty keyed value of a named record of any type comes back in its own field, or as a custom field under its key with the same value exactly if the key is not secret or the value is no base64 data URI |
| Bitwarden.FieldReturnsExactly | backend/pkg/importers/bitwarden.go:140-153 | an item field comes back under its name, with its value exactly if it is not masked or is no base64 data URI |
| Bitwarden.SecretKeyBecomesFile | backend/pkg/importers/bitwarden.go:148-150 | a licence key that reads like a data URI comes back as a file |
| Bitwarden.KeyedOnce | backend/pkg/exporters/fields.go:75-85 | no two fields outside carry the same key |
| Bitwarden.OutsideExactly | backend/pkg/exporters/fields.go:29-85 | a keyed field is emitted outside exactly if it has a value and its item has no place for it |
| Bitwarden.SecretsAreMaskedExactly | backend/pkg/exporters/fields.go:29-72 | a value outside is masked exactly if it is one of the seven secret ones, and is the record's |
| Bitwarden.NumbersExactly | backend/pkg/exporters/fields.go:30-35 | a number is left out exactly if it is zero, and its digits spell it |
| EntryKeys.ExportedKeysExactly | backend/pkg/exporters/fields.go:27-72 | the export has a key for the address and for every modelled member of an entry but the notes, the custom fields and the tags, and no other |
| Bitwarden.FieldsOutside | backend/pkg/exporters/fields.go:77-85 | the filter loop computes the list those lemmas are about |
| Bitwarden.ExportCustomFields | backend/pkg/exporters/bitwarden.go:131-158 | the loop emits one field for each custom field but the files the options leave out, in order |
| Bitwarden.ExportRecord | backend/pkg/exporters/bitwarden.go:123-223 | the item of a record, with its fields in order: custom, outside, type, unknown, tags |
| Bitwarden.ExportedExactly | backend/pkg/exporters/bitwarden.go:160-209 | the kind of an item, and each value of a record in its place there |
| Bitwarden.TagsFieldExactly | backend/pkg/exporters/bitwarden.go:219-222 | the tags travel last, as one plain field |
| Bitwarden.ImportItem | backend/pkg/importers/bitwarden.go:111-136 | the loop over the item's fields computes the imported record |
| Bitwarden.ImportedExactly | backend/pkg/importers/bitwarden.go:171-237 | an item is left out exactly if its kind is unknown or it has neither a name nor a login to name it by; kind, name and notes of the others |
| Bitwarden.LoginTypeExactly | backend/pkg/importers/types.go:97-107 | an imported login is a TOTP entry exactly if it has a secret and no password, and a password entry otherwise |
| Bitwarden.ImportedTextExactly | backend/pkg/importers/bitwarden.go:184-229 | each value of a login or card comes under its own key, and no other key has one |
| Bitwarden.IdentityTextExactly | backend/pkg/importers/bitwarden.go:209-229 | so does each value of an identity |
| Bitwarden.FieldKindExactly | backend/pkg/importers/bitwarden.go:140-153 | an item field becomes a text field exactly if it is not masked, a file exactly if it is and reads like a base64 data URI, and a password otherwise |
| Bitwarden.CustomsInExactly | backend/pkg/importers/bitwarden.go:116-134 | exactly the fields with a name, but for the tags, become custom fields |
| Bitwarden.SplitTags | backend/pkg/importers/types.go:109-119 | the loop yields the non-blank pieces, trimmed |
| Bitwarden.RecordReturns | backend/pkg/importers/bitwarden.go:111-237 | a named record is imported, with name, notes, type, text, custom fields and tags each given by one equation |
| Bitwarden.RecordFieldsComeBack | backend/pkg/exporters/bitwarden.go:131-218 | all custom fields the options keep come back first and all unknown keys last, each in order under its name, and with its value exactly if that survives the export, as long as none of the names is empty or that of the tags field; between them are the fields outside and the type and no other |
| Bitwarden.CustomsComeBack | backend/pkg/exporters/bitwarden.go:131-158 | the custom fields come back one for one, in order |
| Bitwarden.UnknownComeBack | backend/pkg/exporters/bitwarden.go:215-218 | the unknown keys come back one for one, in order |
| Bitwarden.TextReturns | backend/pkg/importers/bitwarden.go:184-229 | exactly the keys with a place come back in their own fields, each with its value |
| Bitwarden.LabelledValueReturnsExactly | backend/pkg/importers/bitwarden.go:140-153 | a labelled value comes back unchanged exactly if it is not masked or no base64 data URI |
| Bitwarden.DataUriBecomesFile | backend/pkg/importers/bitwarden.go:148-150 | a masked value that is a data URI is imported as a file |
| DataUris.DataUriExactly | backend/pkg/importers/bitwarden.go:155-169 | a data URI splits into its MIME type and content exactly if the content is base64 and the type does not hold the separator |
| DataUris.Base64IsBase64 | backend/pkg/importers/bitwarden.go:163-166 | the base64 of any bytes is taken for base64 |
| DataUris.NotBase64 | backend/pkg/importers/bitwarden.go:163-166 | a content with another character, or of another length than a multiple of four, is not |
| DataUris.NewlinesAreIgnored | backend/pkg/importers/bitwarden.go:163-166 | line breaks anywhere in a content change nothing |
| Bitwarden.FileReturnsExactly | backend/pkg/exporters/bitwarden.go:136-156 | an exported file comes back exactly under that condition |
| Bitwarden.TagsExactly | backend/pkg/exporters/csv.go:25 | joining and splitting tags is the identity exactly if each is trimmed, not empty and without a comma |
| Bitwarden.TagsReturnExactly | backend/pkg/importers/bitwarden.go:120-124 | the tags of a named record come back exactly under that condition |
| Bitwarden.TypeReturnsExactly | backend/pkg/importers/types.go:100-107 | the type of a named record comes back exactly if it is no login type, is totp with a secret and no password, or is password and not that; otherwise it is kept in a custom field |
| Bitwarden.ExportAll | backend/pkg/exporters/bitwarden.go:115-227 | one item for each record, in order |
| Bitwarden.ParseAll | backend/pkg/importers/bitwarden.go:98-138 | every item is imported or counted as skipped |
| Bitwarden.NamedRecordsAllReturn | backend/pkg/importers/bitwarden.go:98-138 | of an export of named records nothing is skipped, and the order stays |
| Sponge.AbsorbSplit | flutter_app/web/passbubble_crypto.js:1 | absorbing does not depend on how the message is cut (`updateUnsafe` of class `it`) |
| Sponge.SqueezeSplit | flutter_app/web/passbubble_crypto.js:1 | squeezing in two pieces gives the stream of one squeeze (`writeIntoUnsafe`) |
| Sponge.SqueezeIsOutput | flutter_app/web/passbubble_crypto.js:1 | the lazily permuted stream is the output of the construction of section 4 of FIPS 202 |
| Sponge.AbsorbIsBlocks | flutter_app/web/passbubble_crypto.js:1 | absorbing byte by byte and finishing is absorbing the padded message block by block |
| Sponge.PaddingInBits | flutter_app/web/passbubble_crypto.js:1 | the padding bytes of `finish` are the domain bits and pad10*1 of section 5.1 of FIPS 202, also when they spill into another block |
| Sponge.PoolSuffixes | flutter_app/web/passbubble_crypto.js:1 | the suffixes of the pools append 01 for SHA-3 and 1111 for SHAKE |
| Sponge.SpongeIsReference | flutter_app/web/passbubble_crypto.js:1 | a fresh sponge gives the bytes of FIPS 202 for every message, cut and split of the output |
| Sponge.Keccak.Update | flutter_app/web/passbubble_crypto.js:1 | the chunked in-place loop absorbs byte by byte, and the position stays below the rate |
| Sponge.Keccak.Finish | flutter_app/web/passbubble_crypto.js:1 | pads and permutes in place, once |
| Sponge.Keccak.WriteInto | flutter_app/web/passbubble_crypto.js:1 | fills the buffer with the next bytes of the stream |
| Sponge.Keccak.Hash | flutter_app/web/passbubble_crypto.js:1 | one use of a pooled sponge (`_g`) gives the bytes of FIPS 202 |
| MlKemPacking.UnpackIsByteDecode | flutter_app/web/passbubble_crypto.js:1 | three bytes unpack to the two 12-bit digits of their little-endian number (section 4.2.1 of FIPS 203) |
| MlKemPacking.UnpackPack | flutter_app/web/passbubble_crypto.js:1 | packing writes the residues of coefficients below 2q |
| MlKemPacking.PackUnpackExactly | flutter_app/web/passbubble_crypto.js:1 | unpacking and packing three bytes is the identity exactly if both coefficients are below q |
| MlKemPacking.PolyRoundTrip | flutter_app/web/passbubble_crypto.js:1 | packing reduced coefficients and unpacking them is the identity |
| MlKemPacking.RepackExactly | flutter_app/web/passbubble_crypto.js:1 | unpacking and packing a byte string is the identity exactly if every coefficient is below q |
| MlKemPacking.PolyToBytes | flutter_app/web/passbubble_crypto.js:1 | the loop of `_polyToBytes` writes the packed polynomial at its place and nothing else |
| MlKemPacking.PolyFromBytes | flutter_app/web/passbubble_crypto.js:1 | the loop of `_polyFromBytes` fills the array with the unpacked coefficients |
| MlKemPacking.SameBytes | flutter_app/web/passbubble_crypto.js:1 | `wr` answers whether the byte strings are equal |
| MlKemPacking.AcceptsKey | flutter_app/web/passbubble_crypto.js:1 | the check in `_encapCore` and `_encap` accepts a key exactly if its length is right and every coefficient is below q (section 7.2 of FIPS 203) |
| Shuffle.ShuffledKeepsElements | cli/pkg/generator/generator.go:519-529 | the shuffle loses no element and invents none |
| Shuffle.ShuffleMovesPositions | cli/pkg/generator/generator.go:519-529 | the shuffle moves positions and never looks at the elements |
| Shuffle.ShuffleReaches | cli/pkg/generator/generator.go:519-529 | every rearrangement arises from some choices |
| Shuffle.ShuffleIsInjective | cli/pkg/generator/generator.go:519-529 | different choices give different results |
| Shuffle.ShuffleIsExact | cli/pkg/generator/generator.go:465-476 | every reordering of the positions arises from exactly one vector of choices, so uniform indices give uniform permutations |
| Shuffle.ChoicesReorder | cli/pkg/generator/generator.go:519-529 | every vector of choices stands for a reordering of the positions, and the result is the input in that order |
| Shuffle.ShuffleTurn | cli/pkg/generator/generator.go:521-527 | one turn of the loop settles its position for good |
| Shuffle.RandomSource.RandomIndex | cli/pkg/generator/generator.go:465-476 | an index below the bound, or a failure for an empty range or a failing reader |
| Shuffle.ShuffleRunes | cli/pkg/generator/generator.go:520-529 | in place: succeeds exactly if the source serves every call, and then holds the shuffle of its choices |
| Generator.CleanedKeepsFirstOccurrences | cli/pkg/generator/generator.go:160-179 | a cleaned symbol set has every usable character once, in the order of first occurrence |
| Generator.CleanSymbolSet | cli/pkg/generator/generator.go:163-179 | the loop computes the cleaned set |
| Generator.KeptMembers | cli/pkg/generator/generator.go:206-211 | filtering keeps exactly the characters that are not removed |
| Generator.FilteredExactly | cli/pkg/generator/generator.go:202-216 | the classes exist exactly if each enabled class keeps a character, one for each enabled class |
| Generator.ValidOptionsExactly | cli/pkg/generator/generator.go:153-158 | the options are accepted exactly if some class is enabled, each enabled one keeps a character and the length covers them |
| Generator.ErrorsExactly | cli/pkg/generator/generator.go:183-225 | which error: an enabled class without a character left, no class at all, or a length that does not cover one of each |
| Generator.Classes | cli/pkg/generator/generator.go:183-225 | the nested loops compute the filtered classes or the first error |
| Generator.Validate | cli/pkg/generator/generator.go:155-158 | answers exactly the error the classes have |
| Generator.UnionMembers | cli/pkg/generator/generator.go:245-252 | the fill alphabet lists each character of the classes once and no other |
| Generator.ExtendUnion | cli/pkg/generator/generator.go:247-252 | the loop adds the characters that are new |
| Generator.StrongPasswordCovers | cli/pkg/generator/generator.go:227-267 | whatever is drawn: the length asked for, only offered characters, one from every enabled class, also after the shuffle |
| Generator.PasswordHonoursOptions | cli/pkg/generator/generator.go:183-267 | whatever is drawn: the length asked for, only letters, digits and symbols that were asked for, none excluded or ambiguous, and one of each kind |
| Generator.DrawableExactly | cli/pkg/generator/generator.go:183-267 | the characters that can come up are exactly those of the kinds asked for, but for the excluded and ambiguous ones |
| Generator.AcceptedOptionsCanBeServed | cli/pkg/generator/generator.go:229-267 | accepted options leave no call without choices, so a working source succeeds |
| Generator.Draw | cli/pkg/generator/generator.go:235-261 | draws one character of each class and fills up, consuming exactly one answer for each |
| Generator.GenerateStrong | cli/pkg/generator/generator.go:229-267 | fails exactly with the options' error or when the reader fails; otherwise gives the password of the answers |
| PinUnlock.ClampDays | cli/internal/vault/pin.go:58-67 | the interval is in [1, 60], and kept if it was |
| PinUnlock.IntervalDays | cli/internal/vault/pin.go:79-84 | the interval in force is the configured one if that is in [1, 60], 60 above it, and 14 if none is set |
| PinUnlock.Vault.Save | cli/internal/config/config.go:119-176 | a save makes the file hold the PIN block of memory, or none without a PIN |
| PinUnlock.Vault.ClearPIN | cli/internal/config/config.go:193-203 | clears the whole PIN block, the wrapped key included |
| PinUnlock.Vault.DisablePIN | cli/internal/vault/pin.go:160-163 | the PIN is gone from memory, and from disk if the save succeeds |
| PinUnlock.Vault.OnMasterUnlock | cli/internal/vault/pin.go:108-115 | restarts the interval and the count, and does nothing without a PIN |
| PinUnlock.Vault.EnablePIN | cli/internal/vault/pin.go:120-157 | a wrong master password changes nothing; otherwise the new block is in memory, and on disk exactly if it reports success |
| PinUnlock.Vault.UnlockWithPIN | cli/internal/vault/pin.go:169-215 | the in-place attempt, dying anywhere, has the outcome and leaves the state the lemmas on runs are about |
| PinUnlock.AnswersExactly | cli/internal/vault/pin.go:169-215 | each answer is given exactly when it is due: not enabled, expired exactly if the interval is over or never began, opened, wrong, locked out exactly if the last try is wrong |
| PinUnlock.AttemptLeavesExactly | cli/internal/vault/pin.go:169-215 | what each answer leaves of the count and the PIN, in memory and on disk |
| PinUnlock.GuessesUpToTheLimit | cli/internal/vault/pin.go:177-204 | with working saves, wrong guess number tries is locked out and wipes the PIN, the ones before are answered wrong, and the right PIN opens until then |
| PinUnlock.DisablingExactly | cli/internal/vault/pin.go:160-163 | a disabled PIN is gone from memory, and from disk with this save or the next that succeeds; a restart before that brings it back |
| PinUnlock.DisabledStaysDisabled | cli/internal/vault/pin.go:160-173 | in every run without a set-up after that no attempt is answered |
| PinUnlock.StepCounts | cli/internal/vault/pin.go:177-204 | every step with a save that reaches the disk keeps the wrong answers, lock-outs included, within the count |
| PinUnlock.StepLimitsExactly | cli/internal/vault/pin.go:177-204 | such a step keeps the wrong answers below the limit exactly if it is no earned lock-out whose wipe is not saved |
| PinUnlock.WrongAnswersAreCounted | cli/internal/vault/pin.go:177-204 | in every run of attempts, unlocks, set-ups and restarts in which each attempt saves once, the answers to wrong guesses since the last reset, lock-outs included, never exceed the count in memory and on disk |
| PinUnlock.WrongAnswersStayBelowTheLimitExactly | cli/internal/vault/pin.go:177-204 | in every such run they stay below the limit while the PIN exists, in every state, exactly if every lock-out they earned saves its wipe |
| PinUnlock.WrongAnswerIsCountedExactly | cli/internal/vault/pin.go:179-203 | after a wrong answer, a lock-out included, the count on disk covers the answers exactly if a save reached the disk or the count was ahead |
| PinUnlock.LockedOutWipesExactly | cli/internal/vault/pin.go:198-201 | a locked-out answer has wiped the key in memory, and on disk exactly if the save succeeded |
| PinUnlock.LastTryWipesExactly | cli/internal/vault/pin.go:177-204 | a wrong last try wipes the PIN from disk exactly if the process lives and its last save succeeds |
| PinUnlock.StepStaysBelowExactly | cli/internal/vault/pin.go:177-214 | a step leaves a try in memory and on disk exactly if it is no last try, or one that gets to its wipe or reset there |
| PinUnlock.CountStaysBelowTheLimitExactly | cli/internal/vault/pin.go:177-214 | in every run, whatever dies or is not saved, there is a try left in every state with a PIN exactly if every last try settles so |
| PinUnlock.SmoothRunsStayBelowTheLimit | cli/internal/vault/pin.go:177-214 | without deaths, failing last saves and broken keys there always is |
| PinUnlock.RunsStayAnchored | cli/internal/vault/pin.go:106-157 | in every run the start of the interval, in memory and on disk, is the second of some unlock or set-up with the master password |
| PinUnlock.BlocksAreSetUp | cli/internal/vault/pin.go:120-157 | in every run key, tries and interval of a PIN, in memory and on disk, are those of one set-up |
| PinUnlock.MasterUnlockRestarts | cli/internal/vault/pin.go:79-115 | after an unlock with the master password the right PIN opens exactly until the configured days are over, and is answered expired after that |
| PinUnlock.PinUnlockIsRecent | cli/internal/vault/pin.go:86-95 | in every run a PIN opens the vault only if it is that of some set-up, and at most the days asked for there, clamped to 1 to 60, after an unlock or set-up with the master password |
| PinUnlock.AttemptsKeepTheDeadline | cli/internal/vault/pin.go:210-214 | no attempt moves the deadline, and an expired one consumes no try |
| PinUnlock.UnsavedAttemptsAreFree | cli/internal/vault/pin.go:179-180 | with failing saves and restarts any number of wrong answers is given |
| PinUnlock.UnwipedLockOutsGoOn | cli/internal/vault/pin.go:198-201 | with lock-outs whose wipe is not saved and restarts, any number of wrong guesses is answered and the PIN still opens the vault |
| PinUnlock.KilledAttemptsAreNotLockedOut | cli/internal/vault/pin.go:177-180 | after any number of killed attempts the PIN is still there and opens the vault |
| Tags.NormalizeTwiceExactly | cli/internal/vault/tags.go:32-38 | normalising is idempotent exactly where the result does not start with `#` |
| Tags.TrimHashesExactly | cli/internal/vault/tags.go:35-36 | all leading `#` are dropped and nothing else |
| Tags.NormalizedExactly | cli/internal/vault/tags.go:40-63 | normalising a list keeps exactly its non-empty keys, each once |
| Tags.FirstSpellingWins | cli/internal/vault/tags.go:40-63 | the spelling kept for a key is that of the first tag with it |
| Tags.NormalizedKeepsOrder | cli/internal/vault/tags.go:40-63 | the tags kept are the normal forms of the first tag of each key, in their order |
| Tags.NormalizeTags | cli/internal/vault/tags.go:44-63 | fails exactly if a normalised tag is longer than 40 characters, otherwise the loop computes that list |
| Tags.WithoutKeys | cli/internal/vault/tags.go:86-100 | removing tags removes exactly their keys |
| Tags.WithoutKeepsOrder | cli/internal/vault/tags.go:86-100 | exactly the tags of other keys stay, in their order |
| Tags.RemoveTags | cli/internal/vault/tags.go:88-100 | the loops compute the tags without the removed keys |
| Tags.HasTags | cli/internal/vault/tags.go:71-84 | answers whether the keys of the wanted tags are among the keys of the tags |
| Tags.EditTags | cli/internal/vault/tags.go:105-112 | a successful edit has exactly the keys ((clear ? none : current minus remove) plus add) without the empty one, one spelling each |
| Tags.ListedKeys | cli/internal/vault/tags.go:102-112 | the keys of the kept and the added tags are the keys the edit is meant to leave |
| Tags.AddedTagIsFoundExactly | cli/internal/vault/tags.go:102-112 | an added tag is found again exactly if the first spelling of its key is stored without a leading `#`, or another stored with one answers to that key |
| Tags.StoredExactly | cli/internal/vault/tags.go:44-63 | what is stored is the normal form of the first spelling of each non-empty key, and nothing else |
| Tags.StoredKeyExactly | cli/internal/vault/tags.go:32-38 | a stored spelling answers to the key it was stored under exactly if it does not start with `#` |
| Tags.AddedTagIsNotFound | cli/internal/vault/tags.go:35-38 | "# #foo" is saved as "#foo" and then not found |
| Tags.CountingAgain | cli/internal/vault/tags.go:134-137 | counting a known key raises exactly its own line |
| Tags.CountingNew | cli/internal/vault/tags.go:138-139 | a new key gets a line with count one at the position the index gives |
| Tags.EntryDone | cli/internal/vault/tags.go:126-141 | a key met twice in one entry counts once |
| Tags.SortKeepsLines | cli/internal/vault/tags.go:142-144 | sorting keeps the lines and puts different keys in order |
| Tags.SortPermutes | cli/internal/vault/tags.go:142-144 | sorting only permutes the lines |
| Tags.CountTags | cli/internal/vault/tags.go:122-146 | lists each non-empty key once, in order, in its first spelling, with the number of entries that carry it |

## Left out

- The memorable and the passphrase generator and the strength estimate: would only add easy members.
- Bitwarden.AllImported: folder names and timestamps of items are not modelled.
- Bitwarden.Converted: an import of files written by other programs is only modelled as far as these item structures go.
- EntryJson.Decoded: works on objects as maps; the text of JSON, duplicate keys in it and the conversion of invalid UTF-8 are not modelled. `UnknownFields` is left out.
- FolderCache.Remote.CreateFolder: the server may refuse any request and refuses a name with a NUL, which its database cannot store; other clients do not change the tree meanwhile.
- Upgrade.Session.UpgradeToHybrid: other clients do not write entries during the upgrade; a write of the configuration file happens at once or not at all.
- PinUnlock.Vault.Save: a write of the configuration file happens at once or not at all; two processes over one file are not modelled.
- PinUnlock.Attempted: a PIN is right if it is the one the key was wrapped under; key derivation and sealing are not modelled, nor guessing with a copy of the file.
- TokenProtocol.StepClient: the migration of login state written by older versions, the alarms and failing storage reads are left out; a storage area applies its operations in the order they are issued. Running calls interleave, so the protocol is modelled on values, one step for each stretch of code between two awaits.
- TagsCache.StepClient: modelled on values for the same reason; an entry can be read exactly if the user has a working key for it, and `ensureSessionRestored` is not modelled beyond a worker that dies and comes back.
- TagsCache.StepServer: the clock of the database never goes back, and an imported entry has no date in the future; who may share, revoke or write is not modelled.
- Tags.Key: the case mapping of Unicode is a parameter that maps character by character; strings are code points, so invalid UTF-8 is not modelled. The sort of the standard library is an insertion sort here.
- Sponge.Keccak.Hash: the permutation is a parameter, and `destroy`, cloning and the length checks of the public entry points are left out.
- MlKemPacking.AcceptsKey: compression, sampling and the number-theoretic transform of ML-KEM are left out.
- Generator.GenerateStrong: the reader of random bytes is a list of answers; that they are uniform is assumed, not modelled.
- The extension's PIN handlers, 1PUX, KeePass and Psono files, HTTP, the database, the user interfaces and the content script.
