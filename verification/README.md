# HDIP Phase 1 credential protocol, in Dafny

HDIP issues credentials, lets their issuer revoke or supersede them, and lets a
verifier ask for a decision on a submitted artifact. Three write handlers in two
services share one SQL database and run concurrently against it. This project
models those handlers, the tables and the text formats between them, and proves
what holds in every run.

`dafny verify dfyconfig.toml` checks the whole project.

## How the model is built

**The database.** `Tables` holds one map per table and one function per SQL
statement. A statement is one atomic step (the sequence transaction too) and may
fail in three ways: `Refused` (an error, nothing written), `Lost` (the write took
effect, the caller sees an error) and `Uncounted` (the write took effect, the
driver cannot report the affected rows). The deferred release is a statement like
any other; it runs on the request's context and its error is ignored, so it may be
refused too.

**The handlers.** `Handlers` gives each in-flight request a program counter, and one
step function for each statement together with the pure code up to the next one.
`System` puts any number of requests over one database. A run is a list of labels:
a request arrives, a request takes a step (with any fault), a request crashes without
its deferred release, or the trust registry rewrites its table. Every theorem that
speaks of `Exec(lib, Start(issuers), ls)` holds for every such list, that is, for
every interleaving with every pattern of failures.

**The handlers as written.** `Store` is the SQL store as a class, and `Serial` has the
three handlers as methods against it, with the `reservationOpen` flag and the deferred
release. Each is proved to be its process run with nothing in between, so the run
theorems are about the handlers' own code. `Transitions` uses that to compare requests
served one at a time with interleaved ones.

**Who and why.** `Authority` ties keys, credentials and their status to the caller they
belong to and an issuance to the registry it was checked against; `Refusals` gives every
reason a request can be refused for; `Reasons` gives every reason a submission can be denied
for. They state these from the tables, the submission and the faults alone.

**Formats.** `Text`, `Decimal`, `Identifiers`, `Json`, `Bytes` and `Artifact` model white
space trimming, the padded decimal identifiers, the evaluation clock, JSON strings
(section 7 of RFC 8259, in the escaping the services use), UTF-8, unpadded base64url
(sections 3.2 and 5 of RFC 4648) and the artifact envelope. Times are integers, in
nanoseconds since 0001-01-01T00:00:00Z; int64 durations wrap around explicitly.

**Assumptions.** They are hypotheses of the lemmas that need them, never axioms.
`CollisionFree` says that SHA-256 is injective and that its hexadecimal form has no
white space at its ends. `PrintsTimes` says that a printed RFC 3339 timestamp passes the
syntax check. Primary keys are those of
`services/internal/phase1sql/migrations/0001_phase1_schema.sql`; in particular the index
on artifact digests is not unique, and an audit identifier is a primary key.

## What the proofs found

These are properties one might expect, with the exact condition under which the code has
them.

- The two-statement reservation is not always an atomic test-and-set. It fails to be one exactly
  when its INSERT takes a free key without being acknowledged (`AtomicReservation.LinearisesExactly`);
  when only the count of rows is missing, the request meets its own row and is told that another
  request holds the key (`AtomicReservation.UncountedInsert`).
- One idempotency key can create two credentials (`IssueRuns.RetryCreatesTwo`): exactly when an
  owner whose credential is inserted gives the key back uncompleted, and somebody inserts under it
  again (`GivingBack.TwoCreatedExactly`). An unacknowledged INSERT and a refused completing UPDATE
  lead to such a release. A crash does not: it leaves the key stranded, as does a release that is
  refused.
- A reservation can be stranded. Exactly three kinds of step strand one: an INSERT that
  takes effect unacknowledged, a refused DELETE, and a crash of the owner
  (`Leaks.OrphanExactly`). No timeout exists, so the key never yields a result again
  (`Leaks.StrandedForever`).
- A lookup that fails in passing is final. When the digest lookup of an issued artifact fails, the
  record is found by its identifier, and the answer is a deny however allowable the submission is;
  when both lookups fail, it is that the credential is unknown (`Verdicts.VerdictDecided`,
  `Verdicts.NotFoundExactly`). Either answer is stored under the key and replayed for good
  (`EndToEnd.FailedLookupDenies`, `EndToEnd.AnswerSticks`).
- The status handler reads, checks and writes in separate statements. Served one at a time a
  credential changes at most once; interleaved, it can go from active to revoked and on to
  superseded (`Transitions.InterleavedTwoTransitions`). A write replaces an earlier change
  exactly when the row is no longer the one the handler read
  (`StatusChanges.ReplacesExactly`); a credential changes at most once in exactly the runs without
  such a write (`StatusChanges.TransitionsCounted`).
- The artifact keeps the template as requested, the column keeps it trimmed. So the stored
  digest is that of the artifact rebuilt from the row exactly when the template had no white
  space around it (`Minting.DigestRebuilds`), and only such credentials are ever allowed
  (`Decisions.FreshDecision`). A padded template does get through when the registry lists it
  that way (`IssueRuns.PaddedTemplateRun`).
- An artifact submitted with white space around it has the same fingerprint as without, but is
  not found by its digest (`Resubmission.FoundExactlyUnpadded`) and is denied in every run
  (`Resubmission.PaddedIsDenied`).
- A line break inside the base64url text of an artifact does not change the envelope read from
  it (`Artifact.LineBreakKeepsEnvelope`); the digest is what ties a submission to a record.
- The evaluation clock is exact for the first 153722868 verifications and then wraps around,
  after which an expired credential can read as active (`Identifiers.ClockExact`,
  `EvaluationClock.ExpiryForgotten`).
- A token lifetime is exact up to 9223372066 seconds and negative for the next value
  (`TokenCache.LifetimeExactly`, `TokenCache.LifetimeWraps`).
- Rewriting a query to numbered placeholders keeps its meaning exactly when no `$` and no `?`
  is directly followed by a digit (`QueryBinding.RewriteKeepsMeaning`).
- A trust bootstrap document cannot be applied twice at one instant from one source: the audit
  key repeats (`TrustBootstrap.SecondApplicationStops`).

Where the code and its documentation differ, the model follows the code.
`docs/adr/0007-phase1-state-and-persistence-model.md:73` speaks of the resolved credential
identifier in a verification request; the code stores the one the submitted envelope claims,
before anything is resolved. A status response repeats the requested status as it was sent,
while the table holds it trimmed.

## Model

| member | source | states |
|---|---|---|
| Ownership.SingleOwner | services/internal/phase1sql/store.go:762-926 | in every run, with any statement failing in any way, at most one request has a key's reservation open; its row exists, has its fingerprint, and is reserved unless that request completed it |
| Ownership.CompletionHitsOwnReservation | services/internal/phase1sql/store.go:852-893 | the completing UPDATE, which has no condition on the state, always meets the caller's own reserved row: it never matches zero rows and never overwrites a completed one |
| Ownership.NextKeeps | services/issuer-api/internal/httpapi/phase1.go:209-229 | ownership of reservations survives every step, crash and registry write |
| Ownership.RunsAreOwned | services/verifier-api/internal/httpapi/phase1.go:229-249 | ownership holds after every run |
| Replay.ReplayStability | services/internal/phase1sql/store.go:859-869 | once a key is completed, its row (fingerprint, status code, resource, location, body) is the same in every continuation of the run |
| Replay.ResponsesAgree | services/issuer-api/internal/httpapi/phase1.go:620-703 | all results ever given under one key, first answers and replays, are one response to one fingerprint |
| Replay.ReserveOnCompleted | services/internal/phase1sql/store.go:832-849 | reserving a completed key changes nothing and answers the stored row for the same fingerprint, a conflict for every other |
| AtomicReservation.WinningReserve | services/internal/phase1sql/store.go:772-830 | a reservation won by its INSERT is the atomic test-and-set at that instant |
| AtomicReservation.LinearisesExactly | services/internal/phase1sql/store.go:772-849 | whatever runs between its statements and however they go, the two-statement reservation, its writes and its outcome, is one atomic test-and-set at its INSERT or at its SELECT, or fails having written nothing, exactly unless the INSERT takes a free key unacknowledged (its error is lost, or its row is not counted) |
| AtomicReservation.UncountedInsert | services/internal/phase1sql/store.go:812-849 | the failing input: the INSERT takes the free key, the affected rows cannot be counted, the call's own SELECT finds the row, and the client is told that another request holds the key |
| AtomicReservation.WritesNothingExactly | services/internal/phase1sql/store.go:772-830 | a reservation that goes on to its SELECT has written nothing exactly when the key was taken |
| AtomicReservation.LosingReserve | services/internal/phase1sql/store.go:832-849 | such a reservation is answered from the row at its SELECT; if the row is gone, its owner released it in between, and the request fails and changes nothing more |
| AtomicReservation.GoneMeansReleased | services/internal/phase1sql/store.go:895-926 | in every run a row disappears only by its owner's release |
| Leaks.OrphanExactly | services/issuer-api/internal/httpapi/phase1.go:217-228 | a key is reserved with no owner after a step exactly when it was before or this step stranded it |
| Leaks.OrphansOfRun | services/issuer-api/internal/httpapi/phase1.go:403-414 | over any run: orphaned exactly when it was at the start or some step of the run stranded it |
| Leaks.ReservedExactlyWhileOpen | services/verifier-api/internal/httpapi/phase1.go:237-248 | a key that no step stranded is reserved exactly while some request has it open; so every early return of the three handlers gives its reservation back |
| Leaks.StrandedForever | services/internal/phase1sql/store.go:762-850 | in every continuation of a run a stranded key stays reserved, and no request under it is ever given a result, its own or a replayed one |
| Issuance.IssuanceConserved | services/issuer-api/internal/httpapi/phase1.go:212-306 | in every run the credential rows created under a key = one for its completed row + one for a live owner that inserted + owners that inserted and left without completing |
| DoubleIssuance.DoomedExactly | services/issuer-api/internal/httpapi/phase1.go:217-306 | an owner that inserted its credential can no longer complete the key exactly after one of three steps: its INSERT took effect unacknowledged, its completing UPDATE was refused, or it crashed in between |
| DoubleIssuance.IssuanceCounted | services/issuer-api/internal/httpapi/phase1.go:212-306 | in every run the credential rows created under a key = one if completed + one if its owner is at the completing UPDATE + the number of such steps |
| GivingBack.CreatedBeforeExactly | services/issuer-api/internal/httpapi/phase1.go:217-271 | in every run a request about to insert its credential finds one already created under its key exactly when some step gave the key back: a release by an owner that had inserted and not completed |
| GivingBack.TwoCreatedExactly | services/issuer-api/internal/httpapi/phase1.go:212-306 | in every run a key creates two or more credentials exactly when a step inserts under it after an earlier step gave it back; without a give-back at most one, crashes or not |
| IssueRuns.RetryCreatesTwo | services/issuer-api/internal/httpapi/phase1.go:217-271 | the failing input: from any reachable state with the key free, an unacknowledged credential INSERT, its release and a retry leave two credentials under the key |
| Issuance.CompletedIssuanceFaithful | services/issuer-api/internal/httpapi/phase1.go:268-306 | a completed issuance row names an existing credential, and its 201 response repeats that row's immutable columns up to trimming |
| Numbering.IdentifiersUnique | services/internal/phase1sql/store.go:73-89 | over any run, no two requests of one kind are given the same identifier, whatever their templates |
| Numbering.AdvanceDraws | services/internal/phase1sql/store.go:928-967 | the sequence transaction yields one more than the current value and leaves the other sequence alone |
| FreshKeys.InsertsNeverCollide | services/internal/phase1sql/store.go:206-529 | in every run the primary key of each plain INSERT (credential, request, result) is free when its turn comes, so none fails on a taken key |
| Identifiers.CredentialIdsDistinct | services/internal/phase1sql/store.go:1190-1197 | equal credential identifiers have equal sequence numbers, although `-`, `.` and `_` collapse |
| Identifiers.CredentialIdText | services/internal/phase1sql/store.go:1190-1197 | the text of a credential identifier: `cred_`, the trimmed template with `_` for each `-` and `.` (the default one when blank), `_`, and the number in at least three digits, padded only to three |
| Identifiers.VerificationIdsDistinct | services/internal/phase1sql/store.go:82-89 | equal verification identifiers have equal sequence numbers |
| Identifiers.IdentifiersAreTight | services/internal/phase1sql/store.go:1190-1197 | every printed identifier is its own trimmed form, so keys survive storage |
| Identifiers.EvaluatedAtOfPrinted | services/verifier-api/internal/httpapi/phase1.go:625-637 | reading the clock back from a printed identifier inverts the `%03d` printer |
| Identifiers.ClockExact | services/verifier-api/internal/httpapi/phase1.go:625-637 | the evaluation time is base + (n - 1) minutes exactly when n is at most 153722868 |
| Identifiers.ClockIncreasing | services/verifier-api/internal/httpapi/phase1.go:625-637 | in that range the evaluation time is strictly increasing |
| EvaluationClock.ExpiredStaysExpired | services/verifier-api/internal/httpapi/phase1.go:625-652 | in every run a credential found expired by one verification is never found active by a later-numbered one in range, whichever ran first |
| EvaluationClock.ResultTimes | services/verifier-api/internal/httpapi/phase1.go:257-336 | every stored result carries its request's time, and that is the time its identifier stands for |
| Identifiers.ClockIncreasingExactly | services/verifier-api/internal/httpapi/phase1.go:625-637 | the evaluation time is strictly increasing over the first N verifications exactly when N is at most 153722868 |
| EvaluationClock.ExpiryForgotten | services/verifier-api/internal/httpapi/phase1.go:625-652 | an active credential is expired for verification 153722868 and active again for the next one exactly when its expiry lies between their two times, the later verification having the earlier time |
| CredentialTable.StatusesWellFormed | services/issuer-api/internal/httpapi/phase1.go:554-574 | in every run each stored status is active, revoked or superseded, superseded exactly with a successor, under its own identifier |
| CredentialTable.NeverActiveAgain | services/internal/phase1sql/store.go:380-409 | in every run no credential is deleted, only its status columns change, and once not active it is never active again |
| StatusChanges.CompletedChangeFaithful | services/issuer-api/internal/httpapi/phase1.go:438-479 | a completed status change names an existing credential that is not active in that and every later state, with a valid pair of status and successor |
| Authority.RowChangesExactly | services/issuer-api/internal/httpapi/phase1.go:417-454 | in every reachable state a label changes a credential row only by a status write whose caller's organization issued that credential and whose request named it; the row then has the requested status and successor and the time of the write, and is otherwise as it was |
| Authority.WriteReported | services/issuer-api/internal/httpapi/phase1.go:438-470 | an acknowledged status write is answered with what it wrote: the credential, the status as sent, the successor and the time in the row |
| Authority.ChangedByIssuer | services/issuer-api/internal/httpapi/phase1.go:428-431 | a completed status change came from the organization that issued the credential it changed, which is the organization of its key |
| StatusChanges.ReplacesExactly | services/issuer-api/internal/httpapi/phase1.go:417-454 | when a status write is about to run, it replaces an earlier change exactly when the row is not the one that was read |
| StatusChanges.TransitionsCounted | services/issuer-api/internal/httpapi/phase1.go:378-495 | in every run the status writes a credential has seen = one if it has left active + the writes whose row was not the one their handler had read; so it changes at most once exactly when there is no such write |
| Transitions.SerialOneTransition | services/issuer-api/internal/httpapi/phase1.go:378-495 | with requests served one at a time, each failing as it may, a credential changes at most once |
| Transitions.InterleavedTwoTransitions | services/issuer-api/internal/httpapi/phase1.go:417-454 | from any state with an active credential, two interleaved handlers take it to revoked and on to superseded |
| Minting.RowHasMinter | services/issuer-api/internal/httpapi/phase1.go:237-268 | every credential row was written by one issuance, whose request fixes its issuer, template, subject, claims, times, artifact and digest |
| Authority.CredentialWasListed | services/issuer-api/internal/httpapi/phase1.go:198-207 | for every credential row of every run, the run has an earlier point, the issuance's own check, at which the registry held the row's issuer and listed the template verbatim as requested |
| Authority.CredentialsComplete | services/issuer-api/internal/httpapi/phase1.go:516-552 | every credential row of every run has an issuer, a template, a subject, complete claims with two capital letters for each country, both times, and a status reference that names it |
| Minting.DigestRebuilds | services/issuer-api/internal/httpapi/phase1.go:857-885 | the stored digest is the digest of the stored artifact; and of the artifact rebuilt from the row exactly when the template was requested without surrounding white space |
| IssueRuns.PaddedTemplateRun | services/issuer-api/internal/httpapi/phase1.go:195-271 | the input on which it is not: the registry lists a template with a space in front, an issuer asks for it, and the run ends with a row whose digest its own columns do not rebuild |
| IssueRuns.PlainMeetsAssumptions | services/issuer-api/internal/httpapi/phase1.go:882-885 | the assumptions on the library can be met |
| Minting.DigestLookup | services/internal/phase1sql/store.go:352-378 | in every reachable state the digest index finds, for an issued artifact and for nothing else, the one row with that artifact |
| Minting.IndexAgreesWithKey | services/internal/phase1sql/store.go:324-378 | in every run lookup by digest and lookup by identifier return the same row |
| Minting.DigestsAreUnique | services/internal/phase1sql/store.go:206-256 | in every run no two rows share a digest, although the index is not declared unique |
| Artifact.ParseOfArtifactValue | services/verifier-api/internal/httpapi/phase1.go:574-602 | the verifier reads back exactly the envelope the issuer wrote, for all strings, and refuses it exactly when it is not acceptable |
| Artifact.ArtifactValueInjective | services/issuer-api/internal/httpapi/phase1.go:857-880 | different envelopes have different artifacts |
| Artifact.ArtifactValueIsTight | services/issuer-api/internal/httpapi/phase1.go:857-880 | an artifact has no white space at its ends |
| Artifact.LineBreakKeepsEnvelope | services/verifier-api/internal/httpapi/phase1.go:574-602 | a line break inside the encoded part gives another text with the same envelope |
| Json.ScanFill | services/issuer-api/internal/httpapi/phase1.go:857-880 | printing strings into a JSON shape and reading them back is the identity, for all strings |
| Json.FillInjective | services/issuer-api/internal/httpapi/phase1.go:786-842 | two lists of strings printed into one shape agree only if the lists do |
| Bytes.DecodeEncodedBase64 | services/verifier-api/internal/httpapi/phase1.go:574-602 | unpadded base64url decodes to the bytes it encodes, for all byte strings |
| Bytes.DecodeEncodedText | services/verifier-api/internal/httpapi/phase1.go:574-602 | UTF-8 decodes to the text it encodes, for all texts |
| Requests.SameKeyExactly | services/internal/phase1sql/store.go:796-802 | two requests reserve the same key exactly when their trimmed headers agree and so do operation and trimmed organization, principal and actor type; none without a header |
| Authority.RowsHaveCallers | services/internal/phase1sql/store.go:762-830 | in every run the columns of every idempotency key are the operation, caller and header of a request that arrived |
| Authority.ReplayedToItsCaller | services/internal/phase1sql/store.go:832-849 | in every run a response is replayed only to the caller it was stored for: same operation, organization, principal, actor type and header, and the same fingerprint |
| Authority.CompletedForOrganization | services/internal/phase1sql/store.go:796-802 | the organization of a completed issuance key issued the credential it names; that of a completed verification key is the verifier of its request |
| Requests.SameFingerprint | services/issuer-api/internal/httpapi/phase1.go:786-842 | two requests of one operation share a fingerprint exactly when their trimmed fields agree |
| Requests.SameIssueFingerprint | services/issuer-api/internal/httpapi/phase1.go:786-816 | for issuances: exactly when template, subject and the five claim texts agree up to white space and the two times print alike |
| Requests.SameStatusFingerprint | services/issuer-api/internal/httpapi/phase1.go:818-842 | for status changes: exactly when credential, status and successor agree up to white space |
| Requests.SameVerifyFingerprint | services/verifier-api/internal/httpapi/phase1.go:808-832 | for submissions: exactly when policy, credential, kind, artifact and media type agree up to white space |
| Resubmission.FoundExactlyUnpadded | services/verifier-api/internal/httpapi/phase1.go:264-265 | a submission that is an issued artifact up to surrounding white space is found by its digest exactly when there is none |
| Resubmission.PaddedIsSameSubmission | services/verifier-api/internal/httpapi/phase1.go:808-832 | white space around the artifact changes neither the fingerprint nor the envelope |
| Resubmission.PaddedIsDenied | services/verifier-api/internal/httpapi/phase1.go:496-515 | in every run each verdict on a submission with white space around its artifact is a deny |
| Evaluation.EvaluateVerification | services/verifier-api/internal/httpapi/phase1.go:496-572 | the result updated step by step is the judgement whose every field the next row gives |
| Evaluation.ReasonsExactly | services/verifier-api/internal/httpapi/phase1.go:496-572 | each single reason (mismatch, continuity, suspended, not trusted, revoked, superseded, expired, template) is given exactly when its own check fails and all earlier ones pass, the three reasons of an allow exactly when all pass; and the snapshot, the trust column and the issuer of the result |
| Reasons.RunAccounted | services/verifier-api/internal/httpapi/phase1.go:496-572 | over any run, whatever was submitted, every field of a verdict is the one the row above gives for the envelope, the record as read and the registry's answer |
| Reasons.ReasonDecided | services/verifier-api/internal/httpapi/phase1.go:478-572 | in every run and for every pattern of failures, which reason a verdict on an unmodified issued artifact carries, with its snapshot, trust column and issuer: revoked exactly when the named credential agrees, the digest lookup did not miss, the template was requested tight, the issuer is active and the record was read revoked, and so on for each reason |
| Reasons.VerdictReaches | services/verifier-api/internal/httpapi/phase1.go:323-364 | in every run the stored result repeats the verdict column by column, and so do the answer and the response kept under the key |
| Evaluation.AllowExactly | services/verifier-api/internal/httpapi/phase1.go:496-572 | the decision is allow exactly when every check passes |
| Decisions.AllowSound | services/verifier-api/internal/httpapi/phase1.go:264-336 | in every run each fresh allow is for an artifact exactly as one issuance wrote it, whose record read back active and unexpired, under an issuer read as active |
| Decisions.FreshDecision | services/verifier-api/internal/httpapi/phase1.go:478-572 | an unmodified issued artifact is found by its digest and allowed exactly when: template without surrounding white space, default policy and template, matching named credential, issuer active, credential active and unexpired |
| Verdicts.VerdictDecided | services/verifier-api/internal/httpapi/phase1.go:478-572 | in every run and for every pattern of failures, a verdict on an unmodified issued artifact is an allow exactly when its digest lookup did not miss and the conditions of the row above hold of the record as it was read, at the time its number stands for |
| Verdicts.NotFoundExactly | services/verifier-api/internal/httpapi/phase1.go:281-321 | in every run, whatever was submitted and whatever fails, an answer or stored response is the 404 exactly when both lookups erred or found nothing, and a 201 otherwise |
| Verdicts.MissesExactly | services/verifier-api/internal/httpapi/phase1.go:478-494 | for an unmodified issued artifact a lookup misses exactly when its statement errs |
| EndToEnd.SubmissionDecided | services/verifier-api/internal/httpapi/phase1.go:212-381 | a valid submission of an unmodified issued artifact arrives in any reachable state, with an idempotency key or without; its own writes do not fail and the key is free when it reserves it. Whatever its two lookups and all other requests do, after eight of its own steps it is answered: with the 404 when both lookups missed, else with a 201 that is an allow exactly as in Verdicts.VerdictDecided; the result table holds that decision or no result, and the key the completed response |
| EndToEnd.FailedLookupDenies | services/verifier-api/internal/httpapi/phase1.go:483-521 | the denied input: from any reachable state with the key free, a submission of an issued artifact whose digest lookup alone fails is answered with a deny, and the key holds that deny in every continuation |
| EndToEnd.AnswerSticks | services/internal/phase1sql/store.go:859-869 | whatever a request was answered under its key, an answer to a failed lookup included, is what the key holds in every continuation |
| EndToEnd.AloneIsCalm | services/verifier-api/internal/httpapi/phase1.go:212-381 | the runs the row above speaks of exist: undisturbed, a submission under a free key is one |
| Decisions.RevocationFinal | services/verifier-api/internal/httpapi/phase1.go:552-562 | in every interleaving a verification that reads a credential after it left active is never an allow |
| ToldAllows.ToldAllowSound | services/verifier-api/internal/httpapi/phase1.go:229-364 | in every run, behind each allow a client is told, first answer or replay, stands one request that computed it, with the very row that was replayed, soundly in the sense of Decisions.AllowSound |
| ToldAllows.OnlyOldAllows | services/verifier-api/internal/httpapi/phase1.go:229-364 | after a credential has left active, every allow anybody is told about it repeats the work of a request that had read the record before |
| VerificationTables.ResultsHaveRequests | services/internal/phase1sql/store.go:411-529 | in every run each result has a request with its identifier, and neither ever changes |
| VerificationTables.FilesExactly | services/internal/phase1sql/store.go:411-441 | the row a verification files, column by column |
| VerificationTables.CompletedVerificationsFaithful | services/verifier-api/internal/httpapi/phase1.go:276-364 | at every point of every run, a completed 201 row repeats the stored request and result up to trimming; a completed 404 row has a request and no result |
| Store.SqlStore.ReserveIdempotencyRecord | services/internal/phase1sql/store.go:762-850 | without faults the two statements are the atomic test-and-set; with them, every outcome and the whole new state |
| Store.SqlStore.NextSequence | services/internal/phase1sql/store.go:928-967 | insert if missing, increment, read is one advance of that sequence |
| Store.SqlStore.GetCredentialRecordByArtifactDigest | services/internal/phase1sql/store.go:352-378 | some row with that digest, absent only when there is none; with unique digests, that row |
| Refusals.StepRefuses | services/issuer-api/internal/httpapi/phase1.go:184-454 | for each of the nine reasons, a statement refuses a request for that reason exactly when the tables and the way the statement goes are as listed: a missing issuer, an unlisted template, an unknown or another issuer's credential, a credential not active, and so on |
| Refusals.ToldExactly | services/issuer-api/internal/httpapi/phase1.go:184-454 | in every run a request that has not crashed is told a reason exactly when it was turned away for it on arrival or one of its own statements refused it for that reason |
| Refusals.IssuanceAdmittedExactly | services/issuer-api/internal/httpapi/phase1.go:198-207 | an issuance goes on exactly when its issuer is read and lists the requested template verbatim |
| Refusals.ChangeAdmittedExactly | services/issuer-api/internal/httpapi/phase1.go:417-436 | a status change goes on exactly when the credential is read, is there, was issued by the caller's organization and is active |
| Serial.IssueCredential | services/issuer-api/internal/httpapi/phase1.go:181-323 | the handler, with its reservation flag and deferred release, is its process run alone: same tables, same reply, under any faults; an answer it sends under a key is the response stored there. So the rows above hold of it: it issues only listed templates, and refuses exactly for those reasons |
| Serial.UpdateCredentialStatus | services/issuer-api/internal/httpapi/phase1.go:378-495 | the same for the status handler; so it changes only credentials of the caller's own organization (`Authority.RowChangesExactly`) |
| Serial.CreateVerification | services/verifier-api/internal/httpapi/phase1.go:212-381 | the same for the verification handler; so its response is replayed only to its own caller (`Authority.ReplayedToItsCaller`) and carries the reasons of `Reasons.ReasonDecided` |
| Serial.ResolveCredential | services/verifier-api/internal/httpapi/phase1.go:478-494 | by digest first, on any failure by the envelope's identifier |
| Serial.Complete | services/issuer-api/internal/httpapi/phase1.go:705-739 | an answer sent under a reserved key is the completed response stored under it; otherwise the reservation stays open for the release |
| Serial.Deferred | services/verifier-api/internal/httpapi/phase1.go:237-248 | the deferred release runs exactly when the reservation is still open |
| QueryBinding.Bind | services/internal/phase1sql/store.go:1037-1057 | the loop computes the rewriting, and nothing for other dialects |
| QueryBinding.RewriteKeepsMeaning | services/internal/phase1sql/store.go:1037-1057 | lexing the rewritten query with maximal-munch parameters gives the query as written exactly when no `$` and no `?` is followed by a digit |
| QueryBinding.BoundArguments | services/internal/phase1sql/store.go:1037-1057 | for such queries every argument reaches the placeholder it was written for |
| TokenCache.HydraTokenSource.CachedAccessToken | services/verifier-api/internal/phase1/hydra_token_source.go:127-141 | the cached token while unexpired; an expired one is cleared with its expiry |
| TokenCache.HydraTokenSource.CacheAccessToken | services/verifier-api/internal/phase1/hydra_token_source.go:143-158 | token and expiry are set together from one response |
| TokenCache.HydraTokenSource.GetToken | services/verifier-api/internal/phase1/hydra_token_source.go:72-117 | a call is one lookup and, after a miss, one exchange |
| TokenCache.AcceptedExactly | services/verifier-api/internal/phase1/hydra_token_source.go:104-116 | a response is accepted exactly when it was granted, its trimmed token is not blank and its type is blank or `bearer` in any case; the token kept is the trimmed one |
| TokenCache.CacheExactly | services/verifier-api/internal/phase1/hydra_token_source.go:127-158 | after any interleaving the cache is token and expiry of the last accepted response, or empty once somebody has asked past the expiry |
| TokenCache.ServedExactly | services/verifier-api/internal/phase1/hydra_token_source.go:72-141 | a token is served exactly when it is the last accepted response's and nobody has asked past its expiry |
| TokenCache.ServedForLifetime | services/verifier-api/internal/phase1/hydra_token_source.go:143-158 | on a clock that does not go back, a token is served exactly from its storing until expires_in less 30 seconds (expires_in up to 30, none if not positive) have passed |
| TokenCache.LifetimeExactly | services/verifier-api/internal/phase1/hydra_token_source.go:149-157 | the int64 lifetime is the intended one exactly when expires_in is at most 9223372066 |
| TokenCache.LifetimeWraps | services/verifier-api/internal/phase1/hydra_token_source.go:149-157 | one second more and the lifetime is negative |
| TrustBootstrap.ApplyTrustBootstrapDocument | services/internal/phase1sql/trust_bootstrap.go:55-116 | the loop over the store is the application of the document, with any call failing; what that application is, the rows below say field by field |
| TrustBootstrap.ApplicationExactly | services/internal/phase1sql/trust_bootstrap.go:55-116 | an application stops at the first failing entry and nowhere else; the tables then hold exactly what the entries that reached them call for, each issuer field by field as its last entry says |
| TrustBootstrap.SucceedsExactly | services/internal/phase1sql/trust_bootstrap.go:70-115 | applied = document length exactly when every entry is valid, no call fails and no audit key is taken |
| TrustBootstrap.InvalidEntryStops | services/internal/phase1sql/trust_bootstrap.go:118-135 | an invalid entry k leaves exactly the first k entries applied and audited |
| TrustBootstrap.AuditKeysExactly | services/internal/phase1sql/trust_bootstrap.go:99-108 | two audit keys agree exactly when source and issuer spell the same text, the index is the same and the instant is |
| TrustBootstrap.AuditsOfExactly | services/internal/phase1sql/trust_bootstrap.go:99-108 | a document calls for exactly one audit record an entry |
| TrustBootstrap.AuditRowsExactly | services/internal/phase1sql/trust_bootstrap.go:99-108 | each entry that reached the audit table has its record: the key's text, by whom, about which issuer, at the time of the application |
| TrustBootstrap.SecondApplicationStops | services/internal/phase1sql/trust_bootstrap.go:99-112 | a second application at the same instant upserts its first entry and stops at its audit record |
| TrustBootstrap.CreatedWhenFirstNamed | services/internal/phase1sql/trust_bootstrap.go:82-91 | over any sequence of applications, failing ones too, an issuer's creation time is that of the first application that wrote it |
| TrustBootstrap.UpdatedWhenLastNamed | services/internal/phase1sql/trust_bootstrap.go:92-96 | display name, trust state, allowed templates, key references and update time are those of the last entry, for that issuer, of the last application that wrote it |
| RecentCredentials.MergedIsLatest | apps/issuer-console/lib/issuer-console-state.ts:102-110 | keeping only eight at every step shows exactly the eight latest of the unbounded list |
| RecentCredentials.LatestExactly | apps/issuer-console/lib/issuer-console-state.ts:102-110 | the unbounded list holds the last entry of each handled credential and nothing else |
| RecentCredentials.LatestDistinct | apps/issuer-console/lib/issuer-console-state.ts:102-110 | no credential is listed twice |
| Text.TrimSplits | services/internal/phase1sql/store.go:762-850 | trimming removes exactly a white space prefix and suffix |

## Left out

- HTTP routing, header parsing, middleware, configuration, logging and server startup: no deep property.
- The read endpoints and list queries: each is one SELECT over tables whose invariants are proved here.
- Authentication and scopes: a request arrives with a caller that was authenticated and authorised; only the check that its attribution is complete is modelled.
- The audit records the handlers append: their errors are ignored and nothing reads them back. Audit records are modelled for the trust bootstrap, which stops on them.
- Trust registry and Hydra over HTTP: a trust read gives some state, unavailable, or refused; a token exchange gives a payload or nothing. `check` of the token source only wraps its error.
- SHA-256: a function parameter, injective where a lemma says so.
- Timestamp syntax and printing: function parameters. Years past 9999, which RFC 3339 cannot print, are not treated.
- JSON decoding on texts that the services do not themselves print: a function parameter, any answer is possible. Invalid UTF-8 cannot occur in the model's strings.
- Columns no other code reads (row times of idempotency records, the resource type, which the operation determines) and columns that are constants (artifact kind and media type).
- Response and error bodies are values, not JSON texts; the request identifier inside an error body is left out.
- A statement that reports an error has taken effect by then or never will: effects that arrive later are not modelled.
- The sequence column's integer width: sequence numbers are unbounded.
- Serial.CreateVerification: requires that no two rows share a digest, which `Minting.DigestsAreUnique` proves of every reachable database; otherwise the first match of the query is the database's choice.
- Each handler method of Serial takes a list of surroundings (fault, clock, trust answer) with at least as many elements as it has statements.
- The statements inside the sequence transaction are not separate steps; its rollback is a refused call.
- Bootstrap applications that overlap in time, deletions of issuers between them, and reading the document from a file.
- The services' seed helpers, in-memory stubs, the Rust crates, the schema packages, and the consoles except for the list of recent credentials.
