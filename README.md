# LCP client enforcement core, modelled in Dafny

This project models two parts of the Readium LCP client's enforcement logic and proves properties of them.

**The rights service** (`rights_service.dfy`, module `LcpRights`) stores consumption-limited rights of a license (print, copy, ...) in a key-value vault.
- Vault keys have the form `provider@user@license@right`. When the license has no user id, a configured unknown-user id takes its place.
- A key is parsed back to a right id by taking the text after its last `@`.
- A sync loads into the license's rights manager every vault entry whose key contains the license's key prefix. This is a substring match, not an anchored one.
- Consuming a right writes the right's new value back under that right's key and no other.
- Overriding a right writes the new value both to the manager and to the vault.
- Every operation except reading a value first checks two things: that a storage provider is configured, and that the license's rights have the manager capability.

The vault is a `map<string, string>` field of the `RightsService` class. The license's rights are a `Rights` object whose `values` map the service updates in place. The manager capability is a tagged datatype, `ReadOnlyView | Manager(canUse, consume)`. The manager's eligibility and decrement rules are not part of the source, so the manager capability carries them as abstract functions.

**The acquisition** (`acquisition.dfy`, module `LcpAcquisition`) fetches a license's publication. `Start` runs these steps in order:
1. It requires a publication link.
2. It requires the link's content type to be exactly `application/epub+zip`.
3. It asks the file system for the destination file and requires a non-null handle.
4. It dispatches the download once.
5. It returns the verdict of the integrity check.

The integrity check succeeds when the link has no hash. Otherwise it passes through a failing status from hashing or hex encoding. Failing that, it compares the hex digest with the link's hash exactly. Download events reach the observer only when `Start` was given one, and an ended event keeps its result.

The file system and crypto providers appear as functions given to the `Acquisition` constructor. The link lookup is the constructor's `publicationLink` value. Every call to a collaborator is appended, in order, to a ghost trace `effects`, and the observer's notifications go to a ghost trace `notified`. The ordering and "no effect on early failure" properties are stated over these traces.

`wrappers.dfy` holds the `Option`, `Result` and `Outcome` datatypes. These stand in for null pointers and C++ exceptions.

Three points where the code departs from what it evidently intends, and the model follows the code:
- The intended hash comparison is case-insensitive hex; the code compares exactly, with a case-sensitive `!=`.
- The integrity check runs right after the download is dispatched, as the code does, not after the download completes.
- Sync selects keys by substring containment, as `std::string::find` does. `SubstringSelectsOtherLicense` proves the consequence. When two licenses share provider and user and one license id starts with the other ("L" and "L2"), a sync of the shorter one loads the other's rights.

## Model

| member | source | states |
|---|---|---|
| `LcpRights.BuildStorageProviderRightsKey` | src/LcpCryptoLib/RightsService.cpp:106-128 | The key of a right is exactly the license's key prefix, then `@`, then the right id. The prefix is provider, effective user id and license id joined by `@`, and the effective user id falls back to the unknown-user id when the license's is empty. |
| `LcpRights.FindLastOf` | src/LcpCryptoLib/RightsService.cpp:132 | Yields no position exactly when the character does not occur. Otherwise it yields an in-range position holding the character, with no occurrence after it. |
| `LcpRights.ExtractRightsKey` | src/LcpCryptoLib/RightsService.cpp:130-138 | Fails with a malformed-key error naming the key exactly when the key has no `@` or ends with `@`. Otherwise it returns the non-empty, `@`-free suffix that directly follows the last `@`. |
| `LcpRights.KeyRoundTrip` | src/LcpCryptoLib/RightsService.cpp:106-138 | For a non-empty right id without `@`, parsing the key built for it gives back that right id. |
| `LcpRights.ContainsIffOccurrence` | src/LcpCryptoLib/RightsService.cpp:47 | The selection test holds exactly when the license prefix occurs at some position of the key, which is what `find` returning a position other than `npos` means. |
| `LcpRights.BuiltKeySelected` | src/LcpCryptoLib/RightsService.cpp:41-47 | Every key built for a license contains that license's key prefix, so that license's sync selects it. |
| `LcpRights.SelectedKeyMalformedIffEmptyRightId` | src/LcpCryptoLib/RightsService.cpp:47-49 | A key the sync selects is never empty, and parsing it fails exactly when it ends with `@`. |
| `LcpRights.SubstringSelectsOtherLicense` | src/LcpCryptoLib/RightsService.cpp:47 | Take two licenses with the same provider and effective user, where one license id starts with the other. The sync of the shorter one selects the other license's keys, and they parse to well-formed right ids. |
| `LcpRights.SyncedFromStep` | src/LcpCryptoLib/RightsService.cpp:46-50 | Storing one more selected, well-formed key's value under its parsed right id keeps the sync relation over the keys visited so far. |
| `LcpRights.SyncedFromSkip` | src/LcpCryptoLib/RightsService.cpp:46-47 | Passing over a key that does not contain the prefix keeps the sync relation. |
| `LcpRights.SyncedValueOfUniqueKey` | src/LcpCryptoLib/RightsService.cpp:44-52 | After a complete sync, a right id that exactly one selected vault key parses to holds that key's vault value. |
| `LcpRights.SyncedReadsOwnKey` | src/LcpCryptoLib/RightsService.cpp:38-53 | After a complete sync, suppose the license's own key for a well-formed right is in the vault and no other selected key parses to that right. Then reading the right gives that key's vault value. |
| `LcpRights.Rights.UseRight` | src/LcpCryptoLib/RightsService.cpp:69 | The manager's consume step succeeds exactly when its rule allows it. It then installs the rule's post-consumption values, and otherwise leaves the values unchanged. |
| `LcpRights.RightsService.constructor` | src/LcpCryptoLib/RightsService.cpp:32-36 | The service keeps the storage provider (present or not) and the unknown-user id it is given. |
| `LcpRights.RightsService.PerformChecks` | src/LcpCryptoLib/RightsService.cpp:140-152 | Passes exactly when a storage provider is configured and the rights have the manager capability. A missing storage provider is reported first, and then a rights object that is not a manager. |
| `LcpRights.RightsService.SyncRightsFromStorage` | src/LcpCryptoLib/RightsService.cpp:38-53 | The vault is never modified. A failed check changes nothing. The sync succeeds exactly when every selected key parses. On success, every selected key's right id holds the value of a selected key that parses to it, right ids no selected key parses to keep their old value, and no right id is dropped. On failure, the error is the parse failure of a selected vault key (the one that stopped the sync), and every change made so far comes from a selected key. |
| `LcpRights.RightsService.CanUseRight` | src/LcpCryptoLib/RightsService.cpp:55-59 | Fails exactly when the checks fail, with their error. Otherwise it returns the manager's eligibility answer for the current values. |
| `LcpRights.RightsService.UseRight` | src/LcpCryptoLib/RightsService.cpp:61-82 | A failed check changes nothing. Otherwise the result is true exactly when the manager consumes `amount` units (one when omitted). A refusal leaves vault and values unchanged. A success installs the consumed values and writes the right's new value (empty when absent) under that right's key only. |
| `LcpRights.RightsService.SetValue` | src/LcpCryptoLib/RightsService.cpp:84-94 | Returns the checks' outcome, and a failed check changes nothing. Otherwise, with no eligibility check, the manager holds the value for the right, the vault holds it under the right's key, nothing else changes, and reading the right gives the value. |
| `LcpRights.RightsService.GetValue` | src/LcpCryptoLib/RightsService.cpp:96-104 | Returns the right's stored value, or the empty string when the rights hold none. It makes no checks. |
| `LcpAcquisition.HashVerdict` | src/LcpCryptoLib/Acquisition.cpp:68-88 | Succeeds exactly when there is no expected hash, or when hashing and hex encoding both succeed and the hex digest equals the expected hash. A failing hash status is returned unchanged, and so is a failing hex status after a successful hash. With both successful, the verdict is corrupted exactly when the digests differ. |
| `LcpAcquisition.HashEffects` | src/LcpCryptoLib/Acquisition.cpp:70-80 | The crypto provider is not called for an empty hash. Otherwise the file is hashed first. Hex encoding of the raw digest follows only when hashing succeeded. No download is dispatched. |
| `LcpAcquisition.Acquisition.constructor` | src/LcpCryptoLib/Acquisition.cpp:13-27 | A new acquisition keeps its collaborators and destination path, and starts with no observer, no file, no request and no collaborator calls. |
| `LcpAcquisition.Acquisition.Start` | src/LcpCryptoLib/Acquisition.cpp:29-66 | The observer is recorded first. Without a publication link, Start returns no-acquisition-link with no collaborator call. With a link of another content type, it returns wrong-type before asking for a file. A null file gives invalid-file-path after that one file request, with no download. Otherwise it builds a fresh, uncanceled request bound to the link's href and the file, and dispatches it exactly once. It then returns the integrity verdict, with the trace showing file request, then dispatch, then the crypto calls. |
| `LcpAcquisition.Acquisition.CheckPublicationHash` | src/LcpCryptoLib/Acquisition.cpp:68-88 | Returns the integrity verdict for the current file and appends exactly the crypto calls that verdict requires. |
| `LcpAcquisition.Acquisition.Cancel` | src/LcpCryptoLib/Acquisition.cpp:90-93 | The dispatched request is marked canceled. |
| `LcpAcquisition.Forwarded` | src/LcpCryptoLib/Acquisition.cpp:105-132 | A request event yields one notification exactly when an observer is set and none otherwise. The notification goes to that observer and reports the same kind of event, and an ended notification carries the same result. |
| `LcpAcquisition.EndedPassesResultThrough` | src/LcpCryptoLib/Acquisition.cpp:126-132 | With an observer set, an ended event becomes exactly one ended notification with the unchanged result. |
| `LcpAcquisition.Acquisition.OnRequestStarted` | src/LcpCryptoLib/Acquisition.cpp:105-111 | The observer receives the forwarded started notification, if any, and nothing else. |
| `LcpAcquisition.Acquisition.OnRequestProgressed` | src/LcpCryptoLib/Acquisition.cpp:112-118 | The observer receives the forwarded progress notification, if any, and nothing else. |
| `LcpAcquisition.Acquisition.OnRequestCanceled` | src/LcpCryptoLib/Acquisition.cpp:119-125 | The observer receives the forwarded canceled notification, if any, and nothing else. |
| `LcpAcquisition.Acquisition.OnRequestEnded` | src/LcpCryptoLib/Acquisition.cpp:126-132 | The observer receives the forwarded ended notification with the unchanged result, if any, and nothing else. |

## Left out

- LcpAcquisition.Acquisition.OnRequestProgressed: the progress amount and its scaling by 0.9 are not modelled, because they are floating-point. Only the fact that a progress event is forwarded is stated.
- LcpAcquisition.Acquisition.Cancel: requires a dispatched request. The source dereferences a null request when Cancel comes before a dispatch, and that behaviour is undefined.
- LcpRights.Rights.UseRight: a refused consumption leaves the manager's values unchanged. This is a modelling choice, because the manager's code is not part of this model.
- The try/catch in `Start` is not modelled. It turns collaborator exceptions into a status, but the collaborators here are total functions that do not throw.
- `PublicationPath` and `SuggestedFileName` are left out. They only read the file handle's path and the download request's suggested name, and neither of those is part of this model.
- The asynchronous download lifecycle is left out: completion, and the race between dispatch and the integrity check. The model follows the code's sequential order.
- Hashing, hex encoding, file-system handles and network transport are abstract functions, and the trace records calls to them.
- The rights manager's eligibility and decrement rules and the `UNLIMITED = -1` sentinel are abstract functions carried by `Capability.Manager`. The manager's `SetRightValue` is modelled as a plain map update.
- Concurrency is left out, including the check-then-consume race between concurrent `UseRight` calls. The source has no synchronisation.
- `dynamic_cast` is modelled by the tagged `Capability` datatype, and thrown exceptions by `Result` and `Outcome` values. The exception messages are not modelled.
- The storage provider's vault identifier is left out. The one rights vault is the `vault` field.
- A license whose user object is null is not modelled. The license's user id is a plain string.
