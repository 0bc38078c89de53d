# politeiad backend: proposal-record lifecycle

A Dafny model of the core of politeiad's storage backend (package `backend`):
the proposal storage record (PSR) status enumeration and its display names,
the one-way status transition rule, the backend's error values, and the
`Backend` interface as an in-memory store of proposals keyed by token.

- `wrappers.dfy` (`Wrappers`): `Option` and `Result`, the Go `(value, error)` pair.
- `status.dfy` (`Status`): `PsrStatus` with codes 0 to 3, the `PsrStatusNames`
  table, `IsValidTransition` (unvetted to vetted, unvetted to censored) and its consequences.
- `errors.dfy` (`Errors`): `ErrProposalNotFound`, `ErrShutdown`,
  `ErrInvalidTransition`, `ContentVerificationError` wrapping a cause, and their messages.
- `records.dfy` (`Records`): `File`, the PSR `Record`, a 32-byte `Digest`, and the
  `Collaborators` the interface relies on without showing them (the merkle root
  of a file list and the content check).
- `lifecycle.dfy` (`Lifecycle`): a reference model of the `Backend` interface
  as functions from a `Store` (proposals by token, shutting-down flag) to the
  new store and the caller's reply. Lemmas here cover whole sequences of calls:
  the store invariant holds throughout, stored content never changes, and a
  vetted or censored record is final.
- `backend.dfy` (`Backend`): `MemoryBackend`, a class with a `proposals` map
  field and a `closed` flag. Its methods update them in place, and each method
  is proved equal to the matching `Lifecycle` function.

Choices where the interface leaves the behaviour open:
- Every operation checks the shutting-down flag first and reports `ErrShutdown`
  after `Close`. This includes the two reads.
- `GetUnvetted` and `GetVetted` are scoped by status. A token whose record has
  another status reports `ErrProposalNotFound`.
- `SetUnvettedStatus` on a stored record that is not unvetted reports
  `ErrInvalidTransition`. So does a requested code outside 0 to 3, because
  `PSRStatusT` is an integer type and can hold such a code.
- `New` stores the record at version 1 with status unvetted. The source gives no
  starting value for `Version` (an iteration count); the model starts it at 1.

## Model

| member | source | states |
|---|---|---|
| Status.PsrStatus.Code | politeiad/backend/backend.go:44-50 | each status's code is one of 0 to 3, the values of the four PSRStatusT constants |
| Status.PsrStatus.Name | politeiad/backend/backend.go:52-59 | each status's name is the entry the status-name table gives for its code |
| Status.IsValidTransition | politeiad/backend/backend.go:19-22 | a move is legal exactly when it leaves unvetted for vetted or censored, so it is never a self-transition |
| Status.FromCode | politeiad/backend/backend.go:42-50 | an integer is a status code exactly when it is 0 to 3, and the status read back carries that code |
| Status.CodeRoundTrip | politeiad/backend/backend.go:44-50 | each status round-trips through its code, and distinct statuses have distinct codes |
| Status.NameTableMatchesEnumeration | politeiad/backend/backend.go:52-59 | the name table has keys for exactly the four codes, maps them to "invalid", "unvetted", "vetted", "censored", and no two statuses share a name |
| Status.TransitionRule | politeiad/backend/backend.go:19-22 | no self-transition is legal; nothing leaves invalid, vetted or censored; nothing enters invalid or unvetted; a move is legal iff it goes from unvetted to vetted or censored |
| Status.ChainsMakeOneMove | politeiad/backend/backend.go:19-22 | every chain of legal moves that moves at all starts at unvetted, ends at vetted or censored, and has exactly one move |
| Errors.ContentVerificationMessage | politeiad/backend/backend.go:31-33 | a content-verification error's message is exactly the wrapped error's message |
| Errors.Error.Message | politeiad/backend/backend.go:25-33 | a content-verification error's message, however deeply wrappers are nested, is the message of the innermost cause |
| Errors.SentinelMessagesDistinct | politeiad/backend/backend.go:12-23 | the three sentinel errors have pairwise distinct, non-empty messages |
| Lifecycle.New | politeiad/backend/backend.go:71-72 | on a shut-down backend: ErrShutdown, nothing stored; on rejected content: ContentVerificationError wrapping the cause; otherwise a version-1 unvetted record with the given name, token and the files' merkle root is returned and stored under the token, all else unchanged |
| Lifecycle.Lookup | politeiad/backend/backend.go:12-17 | a lookup succeeds iff the backend is open and the token holds a record of the wanted status, and then returns that stored proposal; otherwise ErrShutdown if closed, else ErrProposalNotFound |
| Lifecycle.GetUnvetted | politeiad/backend/backend.go:74-75 | succeeds iff the backend is open and the token's record is unvetted, returning the stored files and record; otherwise ErrShutdown if closed, else ErrProposalNotFound |
| Lifecycle.GetVetted | politeiad/backend/backend.go:77-78 | succeeds iff the backend is open and the token's record is vetted, returning the stored files and record; otherwise ErrShutdown if closed, else ErrProposalNotFound |
| Lifecycle.SetUnvettedStatus | politeiad/backend/backend.go:80-81 | succeeds iff open, the token is stored, the code is a status, and the move is legal; then returns the requested status and changes only that record's status; on failure nothing changes and the error is ErrShutdown, else ErrProposalNotFound, else ErrInvalidTransition |
| Lifecycle.Close | politeiad/backend/backend.go:83-84 | the backend is shutting down afterwards and every stored proposal is unchanged |
| Lifecycle.Step | politeiad/backend/backend.go:70-85 | no call removes a token or changes anything but a status; a record that is not unvetted is untouched; a shut-down backend does not change |
| Lifecycle.Run | politeiad/backend/backend.go:70-85 | a sequence of calls never removes a token, and leaves a shut-down backend as it was |
| Lifecycle.StepPreservesConsistency | politeiad/backend/backend.go:62-68 | every call keeps each record filed under its own token, at version 1 or more, not invalid, with the merkle root of its files |
| Lifecycle.RunPreservesConsistency | politeiad/backend/backend.go:62-68 | every sequence of calls keeps that invariant |
| Lifecycle.StoredContentIsImmutable | politeiad/backend/backend.go:62-68 | after any sequence of calls a stored token is still stored, with the same files, version, merkle root, name and token |
| Lifecycle.DecisionIsFinal | politeiad/backend/backend.go:19-22 | once a record is vetted or censored, no later sequence of calls changes anything stored under its token |
| Lifecycle.ClosedBackendRefusesCalls | politeiad/backend/backend.go:16-17 | after Close, GetUnvetted, GetVetted and SetUnvettedStatus report ErrShutdown for every token, stored or not, and New for every fresh token; none changes anything |
| Lifecycle.OnlyOneDecisionWins | politeiad/backend/backend.go:19-22 | after one successful status change on a token, a second request on it reports ErrInvalidTransition |
| Lifecycle.FetchedRecordsAreConsistent | politeiad/backend/backend.go:62-68 | a record handed out carries the requested token, the requested status (never invalid) and the merkle root of the files handed out with it |
| Lifecycle.SubmitThenVet | politeiad/backend/backend.go:70-81 | a new proposal is found by GetUnvetted but not by GetVetted; vetting it returns vetted; afterwards GetVetted returns the same files with the record now vetted, and GetUnvetted reports ErrProposalNotFound |
| Backend.MemoryBackend.constructor | politeiad/backend/backend.go:70-85 | a new backend stores nothing, accepts calls and satisfies the store invariant |
| Backend.MemoryBackend.New | politeiad/backend/backend.go:71-72 | updates the proposal map in place as Lifecycle.New describes, returns its reply, and keeps the store invariant |
| Backend.MemoryBackend.GetUnvetted | politeiad/backend/backend.go:74-75 | returns exactly Lifecycle.GetUnvetted's reply for the current store; a record it hands out carries the requested token, status unvetted, and the merkle root of the files handed out with it |
| Backend.MemoryBackend.GetVetted | politeiad/backend/backend.go:77-78 | returns exactly Lifecycle.GetVetted's reply for the current store; a record it hands out carries the requested token, status vetted, and the merkle root of the files handed out with it |
| Backend.MemoryBackend.Find | politeiad/backend/backend.go:74-78 | the status-scoped lookup both reads share returns exactly Lifecycle.Lookup's reply |
| Backend.MemoryBackend.SetUnvettedStatus | politeiad/backend/backend.go:80-81 | overwrites the stored record's status in place as Lifecycle.SetUnvettedStatus describes, returns its reply, and keeps the store invariant |
| Backend.MemoryBackend.Close | politeiad/backend/backend.go:83-84 | sets the shutting-down flag and leaves the proposals unchanged |

## Left out

- SHA-256 and base64 decoding of `File.Payload` are foreign library calls. The merkle root is an opaque function `Collaborators.merkleRoot` from a file list to 32 bytes. How the root is computed is not shown, so it is not modelled.
- The checks behind `ContentVerificationError` (MIME types, digest against payload) have no code in the source. They are the opaque `Collaborators.verifyContent`, which either accepts the files or names the cause of rejection.
- Token generation is randomness, so the token `New` stores under is a parameter.
- Lifecycle.New: requires the token to be unused. This models the token generator's promise of fresh tokens; a collision is not modelled.
- Backend.MemoryBackend.New: requires the token to be unused, for the same reason.
- Persistence to disk or a database, and any RPC layer, are I/O and are left out; the store lives in memory.
- Concurrent callers, per-token locking, and the draining of in-flight calls during `Close` are concurrency. `Close` is one sequential flag flip.
- Version bumping on resubmission is performed by no operation of the interface. `Version` is stored at 1 and never changed.
- A `ContentVerificationError` with a nil cause is not modelled: the `ContentVerification` constructor always holds a cause. In Go, `ContentVerificationError{Err: nil}.Error()` panics on the nil interface; the model cannot represent a nil cause, so it does not show that panic.
- `New`, `GetUnvetted` and `GetVetted` return `*ProposalStorageRecord`, which an implementation may point at its stored record. The model returns `Record` and `Proposal` values, so callers always get copies and no aliasing of stored records is modelled.
- `Close` releasing resources beyond the shutting-down flag is not modelled.
