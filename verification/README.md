# Academic verification pallets: a verified model

This project models the three FRAME pallets of the academic-verification chain - `did`, `credential` and
`reputation` - as one state machine over shared storage, and proves what their redundant storage items mean
over arbitrary runs of calls.

## How the model is built

- **Pallets in place.** `DidPallet`, `CredentialPallet` and `ReputationPallet` are classes whose fields are the
  storage items. Each dispatchable is a method that checks and writes in source order; `?`, `ensure!` and `ok_or`
  become `:-`. `issue_credential` and `endorse` therefore write before a full list can still stop them, and their
  contracts say what has been written by then.
- **Dispatch with rollback.** `Runtime.Dispatch` runs a call in a storage transaction: it takes a snapshot, and on an
  error restores all storage and the event log.
- **Atomic steps.** `DidStep`, `CredentialStep` and `ReputationStep` give each call as a check-then-commit function on
  storage values. Every method is proved against its step, so `Dispatch` equals `Step` although the methods write
  first and fail later.
- **Ledgers.** `CredentialLedger` and `ReputationLedger` run the same calls on one ordered sequence each, deciding by
  scanning and counting. The stored lists, flags, indexes, counters and scores are proved to be projections of it in
  every state reachable from genesis (`After(cfg, actions)`), with equal outcomes and equal errors.
- **Histories.** `History` lists the accepted calls of a run. `IdentityHistory`, `CredentialHistory` and
  `ReputationHistory` read from that list alone, in terms of last, first and counted entries, what every stored field
  should be, why a further call should be refused, and what an accepted one should announce. `HistoryRuns` proves that
  storage, outcomes and the event log are exactly that, and that the list itself follows from the submitted calls.
  Encoded buffers are described there by what they decode to (`Spells`, `IsBuffer`).
- **Runs.** An `Action` is a call with its origin, or the start of the next block; failing calls may occur anywhere.

The remaining modules draw the consequences: `Endorsements`, `CredentialRuns`, `Identity`, `KeyErasure`, `Provenance`,
`Replay`, `Authority`, and `Saturation` and `Collision`, which say exactly in which runtimes identifiers can repeat.
`Staging` builds the runs from genesis that these two exhibit.

## Reading the model

- The bounds of the runtime are parameters in `Config`; nothing depends on their values at
  `runtime/src/configs/mod.rs:326-355`.
- `blake2_256` is a parameter too. No property of it is assumed. Where identifiers matter, results are stated as
  equivalences: for one credential with "its id is not drawn again" (`NotRedrawn`, `Undisturbed`), for all of them with
  "the ids issued in this run are distinct" (`DistinctIds`). `DistinctIdsExactly` says when that is: no collision among
  the buffers hashed in the run, and no issuer-holder pair again once the counter is at `u64::MAX`. `Saturation` and
  `Collision` say which runtimes have a run on which each half fails: the second half fails whatever the hash, the first
  wherever the hash collides on the buffers of two counters.
- Accounts are the 32 bytes of an AccountId32, which encode as themselves; 32-byte arrays are represented by the number
  their bytes spell. Saturating `u32` and `u64` arithmetic is written out.
- A `ValueQuery` map reads an absent entry as the default, so states are compared through their getters.
- The block number starts at 1, since FRAME drops events deposited at block 0, and the log keeps all blocks' events.

Where comments in the source and its code differ, the model follows the code. The comment at
`pallets/reputation/src/lib.rs:333` says the credential pallet calls `record_credential_issuance`; the code lets only
root call it and nothing else does. `credentials_issued` therefore counts recorded issuances, not issued credentials.
The status `Expired` at `pallets/credential/src/lib.rs:68` is never assigned; expiry is judged when verifying.

## Model

| member | source | states |
|---|---|---|
| `Did.DidPallet.CreateDid` | pallets/did/src/lib.rs:170-205 | an account without a document gets an active one stamped with the block, holding the given key and type under the hash of the key's 32 bytes; otherwise the exact error and no write |
| `Did.DidPallet.AddPublicKey` | pallets/did/src/lib.rs:209-249 | an active document gains a key of new id at the end if there is room, and is stamped; errors in source order, without a write |
| `Did.DidPallet.RemovePublicKey` | pallets/did/src/lib.rs:254-279 | the retained keys replace the list if it got shorter, also on an inactive document; otherwise PublicKeyNotFound and no write |
| `Did.DidPallet.DeactivateDid` | pallets/did/src/lib.rs:284-299 | clears the flag of the caller's own document and stamps it |
| `Did.DidPallet.ReactivateDid` | pallets/did/src/lib.rs:304-319 | sets the flag of the caller's own document and stamps it |
| `Did.DidPallet.RegisterInstitution` | pallets/did/src/lib.rs:324-354 | records an unverified institution once, for an account with a document and a non-empty name |
| `Did.DidPallet.VerifyInstitution` | pallets/did/src/lib.rs:359-378 | root alone sets the verified flag of a registered institution, and that is announced |
| `Did.DidPallet.RevokeInstitution` | pallets/did/src/lib.rs:383-402 | root alone clears the verified flag, and the revocation is announced |
| `Credential.CredentialPallet.IssueCredential` | pallets/credential/src/lib.rs:230-315 | agrees with the atomic issue step, with its errors in order; on a full list the counter and the credential are already written, on every other error nothing is; the credential stored has every given field, under the hash of a 72-byte buffer that decodes to counter, issuer and holder |
| `Credential.CredentialPallet.WriteCredential` | pallets/credential/src/lib.rs:261-314 | all five storage items and the event if both lists have room, else the partial writes just named; the key is the hash of a 72-byte buffer that decodes to counter, issuer and holder |
| `Credential.CredentialPallet.RevokeCredential` | pallets/credential/src/lib.rs:320-347 | the issuer alone turns a credential that is not yet revoked into Revoked, changing nothing else |
| `Credential.CredentialPallet.VerifyCredential` | pallets/credential/src/lib.rs:352-384 | changes no storage; reports the credential found by hash if it is active and the block is not past its last one, else the exact error |
| `Credential.CredentialPallet.UpdateCredentialMetadata` | pallets/credential/src/lib.rs:389-417 | the issuer alone replaces the metadata of an active credential by the argument, changing nothing else |
| `Reputation.ReputationPallet.Endorse` | pallets/reputation/src/lib.rs:197-280 | agrees with the atomic endorse step, with its errors in order; only a full received list is noticed after a write, that of the given list |
| `Reputation.ReputationPallet.WriteEndorsement` | pallets/reputation/src/lib.rs:244-279 | both lists, flag, both counters, score and event if both lists have room, else at most the given list is written |
| `Reputation.ReputationPallet.RemoveEndorsement` | pallets/reputation/src/lib.rs:289-330 | with the flag set: both lists retained, flag cleared, counters lowered, score recomputed; else EndorsementNotFound and no write |
| `Reputation.ReputationPallet.RecordCredentialIssuance` | pallets/reputation/src/lib.rs:340-363 | root alone adds one issuance for an account, rescoring it and reporting both |
| `Reputation.ReputationPallet.RecordCredentialVerification` | pallets/reputation/src/lib.rs:372-394 | any signed caller adds one verification for itself, rescoring and reporting both |
| `Reputation.ReputationPallet.UpdateReputationScore` | pallets/reputation/src/lib.rs:403-420 | root alone recomputes an account's score and reports it |
| `Runtime.Runtime.Dispatch` | pallets/credential/src/lib.rs:225-315 | a call through the runtime is atomic: it succeeds with the step's storage and events, or fails with the step's error and leaves all storage and the log as they were, although the body had written |
| `HistoryRuns.StorageIsHistory` | pallets/credential/src/lib.rs:230-417 | after every run each field of every document, institution, credential and score, all lists, flags and indexes, and the counter are those that the accepted calls spell out |
| `HistoryRuns.OutcomeIsHistory` | pallets/reputation/src/lib.rs:197-420 | whether any call of any pallet is accepted after a run, and with which error it is refused otherwise, is the first failing test in source order, each test put to the accepted calls and the block number |
| `HistoryRuns.LogIsHistory` | pallets/reputation/src/lib.rs:197-420 | the event log is, in order and with nothing else, what each accepted call announces |
| `HistoryRuns.AcceptedIsChronicle` | pallets/did/src/lib.rs:170-402 | the accepted calls follow from the submitted ones without reference to any stored item |
| `HistoryRuns.KeysExactly` | pallets/did/src/lib.rs:182-279 | a reachable document's key list is the ordered fold of its owner's accepted creations, additions and removals; a key is on it exactly if an accepted call of the owner added it with that type and no later one removed it, and its id is the hash of the 32 bytes that spell it |
| `HistoryRuns.InstitutionsExactly` | pallets/did/src/lib.rs:324-402 | an account is an institution exactly if an accepted call registered it, and verified exactly if an accepted call verified it and no later one revoked it |
| `HistoryRuns.MetadataExactly` | pallets/credential/src/lib.rs:266-411 | a stored credential's metadata is the argument of the last accepted update since its id was last issued, or else that of the issue; it is Revoked exactly if it was revoked since |
| `HistoryRuns.UpdateSucceedsExactly` | pallets/credential/src/lib.rs:389-417 | an update succeeds exactly for the account that last issued the id, if it was not revoked since, and then its argument is stored |
| `HistoryRuns.EndorsementsExactly` | pallets/reputation/src/lib.rs:235-309 | an endorsement is on its endorser's given list, and on its endorsee's received list, exactly if an accepted call made it and no later accepted call of the endorser removed it |
| `ReputationLedger.ScoreIsExact` | pallets/reputation/src/lib.rs:427-436 | scoring saturated counters with saturating arithmetic gives the capped score of the unbounded counts |
| `ReputationLedger.DropProjects` | pallets/reputation/src/lib.rs:302-309 | retaining by one endpoint on each side is deleting exactly the pair from the ledger |
| `ReputationLedger.DropCounts` | pallets/reputation/src/lib.rs:302-322 | deleting a present pair shortens both lists by exactly one |
| `ReputationLedger.StepRefines` | pallets/reputation/src/lib.rs:197-420 | each call has the same outcome and error on storage as on the ledger, and preserves their agreement |
| `ReputationLedger.ReputationRefinesLedger` | pallets/reputation/src/lib.rs:137-181 | in every reachable state given and received lists are the ordered projections of one ledger with distinct pairs, the flag says whether the pair is on it, list counters are exact, activity counters are capped, and scores are those of the unbounded counts |
| `ReputationLedger.CountersAreExact` | pallets/reputation/src/lib.rs:262-322 | both list counters equal the list lengths within bound, and the cached score is fresh |
| `ReputationLedger.UpdateReputationScoreIsNoOp` | pallets/reputation/src/lib.rs:403-420 | root can always rescore, and no getter of any pallet changes |
| `Endorsements.EndorseSucceedsExactly` | pallets/reputation/src/lib.rs:206-256 | endorsing succeeds exactly when the arguments are in range, two distinct accounts are active, and the ledger has room and lacks the pair |
| `Endorsements.Erasure` | pallets/reputation/src/lib.rs:197-330 | endorse, any successful calls of all pallets, then remove: the calls also succeed without the endorsement, the removal succeeds, and all storage ends alike through every getter |
| `Endorsements.Independence` | pallets/reputation/src/lib.rs:244-322 | calls on two different pairs may be swapped; flags, counters and scores agree, lists agree up to order, and exactly unless two new entries share that endpoint |
| `Endorsements.Handshake` | pallets/reputation/src/lib.rs:244-322 | summed over accounts, both counters, both list maps and the number of flags are equal after every run |
| `CredentialLedger.IssueRefines` | pallets/credential/src/lib.rs:238-315 | issuing has the same outcome and error on storage as on the ledger, and appends one entry |
| `CredentialLedger.CredentialsRefineLedger` | pallets/credential/src/lib.rs:176-221 | in every reachable state, for any hash: holder and issuer lists and the hash index are projections of the ledger in issue order, the counter is its capped length, and each stored credential is the latest one issued under its id, never marked Expired |
| `CredentialLedger.PreimageInjective` | pallets/credential/src/lib.rs:429-433 | the buffer determines counter, issuer and holder |
| `CredentialLedger.IdBytes` | pallets/credential/src/lib.rs:424-434 | the k-th credential's id is the hash of 72 bytes that decode to min(k, u64::MAX) in the first 8, the issuer in the next 32 and the holder in the last 32 |
| `CredentialLedger.DistinctIdsExactly` | pallets/credential/src/lib.rs:262-264 | the ids of any run are distinct exactly when the hash does not collide on the buffers used and no issuer-holder pair recurs at the counter's maximum |
| `CredentialLedger.DistinctBelowMaximum` | pallets/credential/src/lib.rs:262-264 | up to 2^64 issues, distinct ids are exactly absence of collisions |
| `CredentialLedger.IssueIsFresh` | pallets/credential/src/lib.rs:261-280 | after any run the key a successful issue writes is unused exactly when its buffer collides with none hashed before and its pair is new since saturation; the ids of the longer run are distinct exactly when they were and the key is unused |
| `CredentialLedger.FreshBelowMaximum` | pallets/credential/src/lib.rs:261-280 | below the maximum the counter is the number of issues, and the insert overwrites nothing exactly when the new buffer collides with none before it |
| `Saturation.SaturatedCounterOverwrites` | pallets/credential/src/lib.rs:264-303 | whatever the hash, wherever an account may have a key and two credentials: for every account x some run from genesis brings the counter to its maximum, where two issues by x to itself draw the same id; the first credential is lost, its hash leads to the second, and both lists of x name one id twice |
| `Saturation.SaturationExactly` | pallets/credential/src/lib.rs:264-300 | some run repeats an issuer-holder pair at the counter's maximum exactly in runtimes where an account may have a key and two credentials |
| `Saturation.RevokedHashVerifiesAgain` | pallets/credential/src/lib.rs:264-384 | in every such runtime some run revokes a credential, so that verifying its hash fails, and one more issue makes the same hash verify |
| `Collision.CollisionLosesACredential` | pallets/credential/src/lib.rs:261-303 | for every hash and every two buffers of different counters on which it collides, if the bounds leave their parties room, some run from genesis issues exactly these two at their counters: the first is lost and its hash leads to the second |
| `Collision.CollisionExactly` | pallets/credential/src/lib.rs:261-303 | some run of at most 2^64 issues repeats an id exactly in runtimes whose hash collides on the buffers of two counters for parties the bounds leave room for |
| `CredentialRuns.IssueSucceedsExactly` | pallets/credential/src/lib.rs:238-300 | issuing succeeds exactly when the issuer is verified, both parties are active, the hash was never issued, and both parties' histories have room |
| `CredentialRuns.StoreIsLedger` | pallets/credential/src/lib.rs:176-221 | everything stored is found through its hash; every issued credential is stored under its id with the fields of its issue, and there are as many as issues, exactly when ids are distinct |
| `CredentialRuns.IndexIsSoundExactly` | pallets/credential/src/lib.rs:303 | no indexed hash dangles; one hash leads to its own credential exactly when its id was not drawn again later, and all do exactly when no buffers collide and no pair recurs at the counter's maximum |
| `CredentialRuns.VerifyIsScan` | pallets/credential/src/lib.rs:352-384 | in every reachable state verification says not found exactly for hashes never issued, and a scan of all credentials finds a live one with the hash exactly when verification succeeds and the id behind it was not drawn again |
| `CredentialRuns.ExpiryDecides` | pallets/credential/src/lib.rs:366-377 | verifying a credential that is stored as issued and active succeeds exactly if it has no expiry or the block number is at most its expiry, and otherwise ends in CredentialExpired |
| `CredentialRuns.ExpiryBoundary` | pallets/credential/src/lib.rs:366-377 | in the block of its expiry such a credential verifies, and one block later it is expired |
| `CredentialRuns.VerifyIgnoresIdentity` | pallets/credential/src/lib.rs:352-384 | no sequence of DID or reputation calls changes the outcome of a verification |
| `CredentialRuns.Lifecycle` | pallets/credential/src/lib.rs:320-417 | between any two points of any run a stored credential stays stored, and everything set at its issue is unchanged, revocation final, revoked metadata frozen and status never Expired, exactly when its id is not drawn again in between |
| `CredentialRuns.FailedVerificationIsFinal` | pallets/credential/src/lib.rs:256-384 | an issued hash that fails verification stays indexed, and fails at every later point of every run exactly when no later issue draws its id with an expiry not already past |
| `CredentialRuns.Conservation` | pallets/credential/src/lib.rs:261-303 | the hash index, both list maps summed over accounts and the counter all count the issues; so does the credential map exactly when ids are distinct |
| `CredentialRuns.ListsNameOnce` | pallets/credential/src/lib.rs:283-300 | an account's stored holder list names no credential twice exactly when no two buffers of its credentials collide and no two of them share issuer and holder at the counter's maximum; likewise its stored issuer list |
| `Identity.RemoveKey` | pallets/did/src/lib.rs:262-268 | retaining by id drops exactly one entry if the id is present and none otherwise, keeping the order |
| `Identity.RemovePublicKeyExactly` | pallets/did/src/lib.rs:254-279 | in a reachable state removal succeeds exactly for a present key id of an existing document, and drops that entry only |
| `KeyErasure.KeyErasure` | pallets/did/src/lib.rs:209-279 | from any storage: add a key, any successful calls of all pallets, then remove it: the calls also succeed without the key, the removal succeeds, and all storage ends as after the calls alone but for the document's timestamp |
| `Identity.IdentityInvariant` | pallets/did/src/lib.rs:112-140 | controllers are storage keys, key ids are distinct, within bound and hashes of their keys, times are in order, and institutions have names and older documents |
| `Identity.UnreachableErrors` | pallets/did/src/lib.rs:219-310 | from genesis no DID call ends in NotAuthorized, and no issue in IssuerHasNoDid |
| `Identity.IdentityIsPermanent` | pallets/did/src/lib.rs:201-402 | documents and institutions are never deleted, and controller, creation time, name and registration never change |
| `Provenance.CredentialProvenance` | pallets/credential/src/lib.rs:240-280 | every stored credential was made by an earlier call of its issuer, then a verified institution, with both parties active, at the recorded block and with the recorded id and expiry |
| `Provenance.EndorsementProvenance` | pallets/reputation/src/lib.rs:206-256 | every stored endorsement is on both sides and was made by an earlier call between distinct active accounts, with weight 1 to 10, at the recorded block |
| `Provenance.ListsInOrder` | pallets/reputation/src/lib.rs:235-256 | both lists are in order of creation and nothing in them is from the future |
| `Replay.ReplayReconstructs` | pallets/reputation/src/lib.rs:272-394 | folding the events alone gives active and verified flags and names; each credential's parties, type, hash and status, the holder and issuer lists, the hash index and the capped counter; both endorsement lists in order but for comments and times, the flags, and the activity counters up to the u32 cap |
| `Replay.ScoreFromEvents` | pallets/reputation/src/lib.rs:427-436 | after every run an account's stored score is min(1000, 10 x issuance events + 5 x verification events + 20 x live endorsements) folded from the events alone, also after counters saturate |
| `Replay.PublishedScores` | pallets/reputation/src/lib.rs:353-418 | every ReputationUpdated event of every run carries the score folded from the events before it |
| `Authority.OnlyRootVerifiesAndRecords` | pallets/did/src/lib.rs:359-402 | over any run in which root makes no call, no institution, old or new, gains or loses verification, and no issuance is recorded |
| `Authority.OnlyOwnerChanges` | pallets/reputation/src/lib.rs:197-330 | over any run in which an account signs nothing, its document, given list and flags, and its entries in everyone's received list stay as they are |
| `Authority.OnlyIssuerChanges` | pallets/credential/src/lib.rs:320-417 | over any run in which its issuer signs nothing, a stored credential stays as it is exactly when its id is not drawn again |

## Left out

- The React frontend and its blockchain client: interface and network code; its lookups read the indexes proved here.
- Node, genesis presets, XCM and other runtime wiring: configuration of library code that is not part of the repository.
- Weights and fees: constants evaluated by library code.
- The template pallet: the stock example of the SDK.
- Signature checking and SCALE decoding: a call arrives with its origin, and byte strings arrive within the bounds their
  types impose (`MaxDocumentSize`, `MaxMetadataSize`, 256 bytes of comment); the explicit `MaxCommentSize` check is modelled.
- The block number is unbounded, where the runtime's is a `u32`.
- Per-block clearing of the event storage: the log stands for all events an archive has seen.
- Physical presence of default entries: an endorsement that was removed leaves empty lists behind, which no getter shows.
