# Verified models of silicon-iam

These Dafny modules model the parts of silicon-iam whose correctness depends on all runs, all
orders of events or all inputs, and prove what those parts promise.

| modules | what they model |
|---|---|
| `ReplayExpiry`, `ReleaseProtocol`, `Release` | the public-identifier release: two databases, three services, backups, replay expiry, migration, and the operator's fallback, where any command may fail before, during or after taking effect |
| `SqlGrammar`, `SqlComments` | the SQL comment remover, against a grammar of comments, quotations and dollar-quoted bodies |
| `MembershipIds`, `PrincipalIds` | rewriting of membership identifiers in JSON bodies and of internal key names in responses |
| `SessionRefresh`, `Gateway` | the browser gateway: single-flight session refresh, and which session a browser is left with |
| `ApprovalRetries`, `Mutation`, `ApprovalLifetime` | idempotency keys of a form's submissions, their copies in session storage, and how long those last |
| `ScopeReviewPage` | the filtered pager over a shared inbox |
| `FormSchemas`, `FormText`, `Forms` | a record as form values and back |
| `TelemetryRoutes`, `TelemetryPolicy` | the telemetry sanitizer that runs in the browser and again in the gateway |
| `LinuxAbi` | the reader of ELF version requirements |
| `SpanTelemetry` | diagnostics that a span can opt out of |

`Wrappers`, `Sequences`, `Bytes`, `Json` and `JsValues` hold what several modules share. Code that the repository writes as
loops over changing variables is a method with loop invariants, proved equal to a specification
function; objects and closures with changing fields are classes; what the repository promises is
then proved of the specification, mostly by induction over runs or over the data.

## How the environment enters

- Failing commands are nondeterministic: a release step may fail without effect, with its effect, or
  report success. A release run is the sequence of all worlds the host passes through; an invariant
  of a run therefore also holds where the process is killed.
- Clocks are integers that never run backwards. Token digests, signature digests and the SQL
  resolver are injective or bijective maps handed in as parameters. JSON printing, pattern tests, the
  URL parser and the calendar are parameters with the one property that is needed of them.
- Whatever the network answers is a parameter: the theorems hold for all answers.

## Where the code is weaker than it looks

Each of these is proved, with the exact condition under which the expected property does hold.

- A saved approval key is not limited to 12 hours from its first save. The form keeps the key in
  memory, and saving it again after its stored entry has expired, been evicted or been cleared starts
  a new window (`Mutation.KeyOutlivesItsWindow`). Over any run of a form, a saved key stays within
  the window of a save if and only if at every later save of its signature the entry was still offered
  (`Mutation.KeyDeadlineIff`). With fewer than 100 saves of other signatures in between, that is so exactly
  if the store was not emptied since the first save and the later one comes within the window
  (`ApprovalLifetime.OfferedIff`, `ApprovalLifetime.KeyKeepsItsWindowIff`).
- One pass of `remove_principal_ids` leaves a `_principal_id` key behind exactly when
  `principal_principal_id`, or a key ending in `_principal_principal_id`, stands in something the pass
  keeps (`PrincipalIds.OnePassCleansIff`, `PrincipalIds.OnePassCanFail`); without such a key anywhere one
  pass is enough (`PrincipalIds.OnePassCleans`). Any other key that merely ends in
  `principal_principal_id` is no obstacle.
- The transport skips `decode` when `needs_translation` is false; a number or truth value under a
  membership key then passes where `decode` would refuse it (`MembershipIds.DecodeSkipped`,
  `MembershipIds.NumberSkipsDecode`).
- The gateway forgets a session it has just refreshed on four early answers: a method other than GET
  on `/api/session`, an unavailable route, and on API routes an oversized body or a missing idempotency
  key. IAM has rotated the tokens by then (`Gateway.Handle`, `Gateway.RefreshedSessionLost`).
- The telemetry keys `kind`, `tag` and `role` are compared by their spelling, so they also accept a
  word wrapped in lists of one (`TelemetryPolicy.SpelledIff`, `TelemetryPolicy.ListAroundWord`).
- A nullable nested record that was null can be filled in only if every blank field is one that is made
  up for and no filled field is itself a nested record; otherwise the form throws
  (`Forms.NullRecordIff`, `Forms.NullRecordFails`, `Forms.NullParentFails`).

## Model

| member | source | states |
|---|---|---|
| SqlComments.LexIsTheGrammar | scripts/sql_comments.rb:11-65 | For every text, the scanner's reading is the one and only token sequence that the grammar of line comments, nested block comments, quotations, dollar bodies and other bytes allows for it |
| SqlComments.GrammarUnique | scripts/sql_comments.rb:11-65 | Printing any grammatical token sequence and reading it again gives that sequence |
| SqlComments.LexPrints | scripts/sql_comments.rb:11-65 | No byte is lost or moved by reading a text |
| SqlComments.LexGrammatical | scripts/sql_comments.rb:11-65 | Every reading is grammatical, inside dollar bodies too |
| SqlComments.BlockShape | scripts/sql_comments.rb:16-31 | Counting depth finds a properly nested comment, or the rest of the text if it is never closed |
| SqlComments.BlockScanned | scripts/sql_comments.rb:16-31 | A properly nested comment is scanned to exactly its end, whatever follows |
| SqlComments.QuotedShape | scripts/sql_comments.rb:32-49 | Scanning a quotation ends at its first quote that is neither doubled nor behind a backslash |
| SqlComments.QuotedScanned | scripts/sql_comments.rb:32-49 | A well-formed quotation is scanned to exactly its end |
| SqlComments.RemovedBlanksComments | scripts/sql_comments.rb:7-67 | Removal keeps the length and every newline, and blanks exactly the comment bytes of the grammar's reading at every depth of dollar quoting |
| SqlComments.BleachedGrammatical | scripts/sql_comments.rb:11-65 | Blanking the comments of a grammatical sequence leaves a grammatical sequence: no quote, comment or dollar body opens or closes anywhere else |
| SqlComments.RemovedIdempotent | scripts/sql_comments.rb:7-67 | A second removal changes nothing, for every text |
| SqlComments.SkipComment | scripts/sql_comments.rb:17-30 | The depth-counting loop ends where the comment does |
| SqlComments.SkipQuoted | scripts/sql_comments.rb:33-48 | The quotation loop ends where the quotation does, also past a final backslash |
| SqlComments.Remove | scripts/sql_comments.rb:7-67 | The loop computes the removal defined by the grammar's reading |
| SqlComments.RemoveToken | scripts/sql_comments.rb:12-64 | One turn of the loop appends the blanked first token and moves past it |
| SqlComments.RemoveDollar | scripts/sql_comments.rb:50-60 | A dollar body that closes is cleaned by a removal of its own; a dollar that opens none is kept |
| ReplayExpiry.CommitsIff | deploy/aws/release-public-identifiers.py:67-88 | The transaction commits if and only if the list is distinct, all its rows exist, it covers every live row, and the update leaves each listed row otherwise as it was |
| ReplayExpiry.CommittedExpiresExactly | deploy/aws/release-public-identifiers.py:67-88 | A commit keeps all rows and all other columns, expires exactly the listed rows and leaves no live row |
| ReplayExpiry.SpellingsOfOneUuidRollBack | deploy/aws/release-public-identifiers.py:67-70 | The check compares texts and the transaction ids: a list with two spellings of one UUID would be sent and always roll back |
| ReplayExpiry.ReadListIsSent | deploy/aws/release-public-identifiers.py:258-274 | A list read from the table has no such spellings: it passes the check and is sent as it is |
| ReplayExpiry.ReadListCommitsIff | deploy/aws/release-public-identifiers.py:258-274 | A list read from the table commits if and only if, since it was read, no listed row is gone, no other row is live, and the update leaves the listed rows acceptable; on an unchanged table only the last matters |
| ReplayExpiry.DistinctCount | deploy/aws/release-public-identifiers.py:76-78 | Counting the rows found equals the length of the list exactly when the list is distinct and all found |
| ReleaseProtocol.StepSafe | deploy/aws/release-public-identifiers.py:558-650 | Every guarded event of a release keeps all six safety properties |
| ReleaseProtocol.RunSafe | deploy/aws/release-public-identifiers.py:498-650 | At every moment of every run: the saved state admits every migration and expiry set going, the previous image never runs after the migration is launched, the new one only on fully migrated databases, backups equal the databases but for replay expiry until then, nothing live is touched before the rehearsal has passed and the gate was consumed, the schema commands ran in their order, and nothing else has changed |
| ReleaseProtocol.StepGated | deploy/aws/release-public-identifiers.py:554-599 | No event touches anything live before the rehearsal and the coordinator's gate, and the schema commands run in their order, each at most once |
| ReleaseProtocol.RunRestorable | deploy/aws/release-public-identifiers.py:566-594 | In every run, whatever has happened since the migration was launched, the backups are those of the moment it was launched from: both databases exactly before the migration and without live replay rows, and each backup its database but for replay expiry |
| Release.RunRelease | deploy/aws/release-public-identifiers.py:674-693 | Wherever the release fails, also in the check after execute has returned: every moment was safe and, once the migration was launched, restorable; without the option no replay window is expired; no service runs after a failure once a stop was issued or the migration launched; the recovery text is true; a rehearsal, failed or not, leaves services, units, configuration, backups, gate and schemas alone; success means the rehearsal passed, and for a cutover that all schema commands ran, the configuration is rewritten and all services run the new image on migrated databases |
| Release.Release.Execute | deploy/aws/release-public-identifiers.py:498-632 | A rehearsal, however it ends, touches no live service, unit, configuration or schema and consumes no gate, and passes only if it was rehearsed; a completed cutover has replaced all of them; all effects are events of the protocol |
| Release.Release.Failure | deploy/aws/release-public-identifiers.py:634-650 | After a failure with services stopped or a migration announced no service runs if stopping works, and otherwise nothing live is touched; the recovery text is chosen by what was admitted, and is true of the databases, services, units and of what the backups hold, also after the migration was launched |
| Release.Release.Checkpoint | deploy/aws/release-public-identifiers.py:154-157 | Only the stage changes in memory, and success means exactly that state is on disk |
| Release.Release.PreparePublicIds | deploy/aws/release-public-identifiers.py:253-277 | Success leaves no live replay row in that plane; only rows that were live change, only with writers stopped, both backups made, the expiry admitted on disk first and the option given: without it nothing in the database changes |
| Release.Release.ExpireAuthorized | deploy/aws/release-public-identifiers.py:264-277 | With the option given, an expiry changes only the listed live rows of that plane, and success leaves none of them live |
| Release.Release.AdmitExpiry | deploy/aws/release-public-identifiers.py:264-272 | Before an expiry is launched writers are seen stopped and replay_expiry_started is saved |
| Release.Release.Preflight | deploy/aws/release-public-identifiers.py:502-555 | Rehearsal and preflight change nothing but the release's own files, and success means the rehearsal passed and both ledgers precede the migration |
| Release.Release.ConsumeCutoverGate | deploy/aws/release-public-identifiers.py:230-251 | Success means the coordinator's receipt, or the ready flag, was taken, and nothing live has changed |
| Release.Release.Rehearse | deploy/aws/release-public-identifiers.py:378-496 | Given that its isolated steps touch nothing live, the rehearsal changes nothing but the release's own files, and a failure after its first checkpoint is recorded as such |
| Release.Release.CheckLedgers | deploy/aws/release-public-identifiers.py:192-208 | Comparing both ledgers changes nothing, and success means both databases are exactly before, or exactly after, the migration |
| Release.Release.Quiesce | deploy/aws/release-public-identifiers.py:559-580 | Success means a stop was issued, no service runs and both databases are backed up as they now are |
| Release.Release.DrainReplays | deploy/aws/release-public-identifiers.py:581-583 | Both planes have no live replay row when the migration is announced, and the first stays so while the second is drained |
| Release.Release.MigrateDatabases | deploy/aws/release-public-identifiers.py:584-599 | migration_started is on disk before iam-migrate is launched, and success means all four schema commands ran, in order |
| Release.Release.VerifyMigration | deploy/aws/release-public-identifiers.py:600-608 | Success means both ledgers are complete and the configuration is rewritten, with services still stopped |
| Release.Release.Restart | deploy/aws/release-public-identifiers.py:609-632 | Services start only after all units name the new image, and success means all run it and the state on disk says healthy and no longer stopped |
| Release.Release.InstallUnits | deploy/aws/release-public-identifiers.py:609-617 | Success means every unit names the new image, with services still stopped |
| Release.Release.InspectServices | deploy/aws/release-public-identifiers.py:622-630 | Success means every service was seen running the new image |
| Release.Host.StopServices | deploy/aws/release-public-identifiers.py:562 | systemctl stop starts nothing, and stops everything when it works |
| Release.Host.WritersStopped | deploy/aws/release-public-identifiers.py:222-228 | A passed check means no service runs |
| Release.Host.Ledger | deploy/aws/release-public-identifiers.py:192-208 | A passed check fixes the schema: exactly before, or exactly after the migration |
| Release.Host.ExpireReplays | deploy/aws/release-public-identifiers.py:67-88 | The transaction may commit although its command fails; success leaves the plane without live rows |
| Release.RunExpiry | deploy/aws/release-public-identifiers.py:67-88 | Whatever times the database's clock shows, the transaction leaves unlisted rows alone, and after a commit no row is live |
| MembershipIds.ParsePrint | src/api/membership_ids.rs:164-169 | A printed key parses back to itself |
| MembershipIds.CanonicalIff | src/api/membership_ids.rs:53-72 | The accepted identifiers are exactly a carbon or silicon handle in front of an organization handle in brackets |
| MembershipIds.HandlesMakeIds | src/api/membership_ids.rs:53-72 | Handles of lower-case letters, digits, underscores and hyphens within their lengths make canonical identifiers |
| MembershipIds.CanonicalIsNoKey | src/api/membership_ids.rs:60-72 | No canonical identifier parses as a private key |
| MembershipIds.DecodeForm | src/api/membership_ids.rs:141-179 | Decoding fails exactly on an unacceptable membership value, a failing query for identifiers or an unresolved one, and otherwise rewrites every resolved identifier, its shortcut included |
| MembershipIds.EncodeForm | src/api/membership_ids.rs:181-212 | Encoding fails exactly on a failing query for keys or a membership field with an unknown key, and otherwise rewrites every known key, its shortcut included |
| MembershipIds.EncodeUndoesDecode | src/api/membership_ids.rs:141-212 | With a bijective resolver that answers, encode accepts whatever decode produced, and gives the original back if and only if no identifier field of it held a raw key the resolver knows |
| MembershipIds.DecodeWrites | src/api/membership_ids.rs:141-179 | A successful decode has put the printed key of its member at every identifier position that held a canonical identifier, and everything else is as it was, so no canonical identifier is left; it refuses exactly a membership value that is neither null nor canonical |
| MembershipIds.EncodeWrites | src/api/membership_ids.rs:181-212 | A successful encode has put the member's identifier at every identifier position that held its printed key, and everything else is as it was, so no such key is left; it refuses exactly a membership value that parses as a key but is none of a known member |
| MembershipIds.TranslationKeepsShape | src/api/membership_ids.rs:86-212 | Both directions keep containers, lengths, object keys and every value that is not identifier text |
| MembershipIds.EncodeIdentity | src/api/membership_ids.rs:108-125 | Encoding is the identity whenever needs_translation says there is nothing to encode |
| MembershipIds.DecodeSkipped | src/api/membership_ids.rs:108-125 | Skipping decode agrees with decoding if and only if every membership field holds nothing but null |
| MembershipIds.NumberSkipsDecode | src/api/membership_ids.rs:108-125 | A body with a number as membership_id needs no translation by the test and is refused by decode |
| MembershipIds.Collect | src/api/membership_ids.rs:146-160 | The gathering walk fails exactly on an unacceptable leaf and otherwise finds exactly the wanted identifier texts |
| MembershipIds.Rewrite | src/api/membership_ids.rs:86-106 | The rewriting walk, in any key order, fails exactly on an unacceptable leaf, rewrites all identifiers if it does not, and if it does leaves each one either as it was or rewritten |
| MembershipIds.Body.DecodeInPlace | src/api/membership_ids.rs:141-179 | Decoding is all or nothing: on an error, the query's included, the tree is untouched |
| MembershipIds.Body.EncodeInPlace | src/api/membership_ids.rs:181-212 | Encoding rewrites the tree as specified; a failing query leaves it untouched, and an unknown key leaves nothing changed but identifiers to what they stand for |
| PrincipalIds.ChangedIff | src/api/membership_ids.rs:319-358 | The pass reports a change exactly when it makes one, which is exactly when some key was an internal name |
| PrincipalIds.OnePassCleansIff | src/api/membership_ids.rs:319-358 | One pass leaves no internal name if and only if no stubborn key stands in an object or in a value the pass keeps, told from the input's keys alone |
| PrincipalIds.OnePassCleans | src/api/membership_ids.rs:319-358 | One pass leaves no internal name at any depth when no key is principal_principal_id or ends in _principal_principal_id |
| PrincipalIds.OnePassCanFail | src/api/membership_ids.rs:331-342 | An object whose only key is principal_principal_id has principal_id after one pass |
| PrincipalIds.OwnValues | src/api/membership_ids.rs:321-343 | The values an object keeps are those of its public keys, of a principal without another identity, and of the first redundant key for each free short name |
| PrincipalIds.KeptValue | src/api/membership_ids.rs:321-343 | Every kept value stands under its key's new name: its own for a public key, the short one for a redundant key, id for the principal |
| PrincipalIds.ShortReplaces | src/api/membership_ids.rs:339 | The first _principal_id of a name becomes _id, and so on behind it |
| PrincipalIds.ShortKeeps | src/api/membership_ids.rs:339 | A name without _principal_id stays as it is |
| PrincipalIds.ShortInternal | src/api/membership_ids.rs:339 | The keys whose replacement is still internal are exactly principal_principal_id and those ending in _principal_principal_id |
| PrincipalIds.OwnKeys | src/api/membership_ids.rs:321-343 | The keys an object ends up with are exactly its public ones, the short forms of its redundant ones, and id for a principal without another identity; internal ones are left exactly if it had stubborn ones |
| PrincipalIds.PrincipalKeepsIdentity | src/api/membership_ids.rs:322-330 | An object that had principal_id keeps an identity key, with that very value when it had no other |
| PrincipalIds.RemovedWeight | src/api/membership_ids.rs:319-358 | A pass that changes anything shortens the keys of the tree in total |
| PrincipalIds.PassesReachClean | src/api/membership_ids.rs:319-358 | Repeated passes reach a clean tree and stay there, after at most as many passes as the tree has key characters |
| PrincipalIds.Remove | src/api/membership_ids.rs:319-358 | The recursive loops over keys and values compute the specified tree and flag |
| PrincipalIds.Response.RemovePrincipalIds | src/api/membership_ids.rs:319-358 | In place: the new tree is the specified one, and the flag is true if and only if the tree changed |
| SessionRefresh.OneRequestPerToken | frontend/server/session.ts:229-267 | In every interleaving, of one refresh token at most one request is unresolved, a second one leaves only after the first one's failure was caught or it landed longer ago than it is kept, and the table has at most 1001 entries |
| SessionRefresh.AnswerIff | frontend/server/session.ts:211-260 | In every run a call keeps its session if and only if it is neither forced nor due; otherwise it joins the live flight of its token; without one it is turned away if and only if more than 1000 flights are live, and else launches exactly one request with itself as caller |
| SessionRefresh.EndsAsAnswered | frontend/server/session.ts:246-259 | In every run a flight ends as its reply says, rejected with that status, lost, or landed with the session its tokens make, and no other flight changes |
| SessionRefresh.FailureRemovesItsOwn | frontend/server/session.ts:261-266 | A settling flight changes no entry; when its launcher catches its failure, exactly its own entry goes |
| SessionRefresh.CallersShare | frontend/server/session.ts:232-233 | While a flight is pending, and after landing for as long as it is kept, every call of its token gets that flight unless its session is not due |
| SessionRefresh.WaitsForItsOwn | frontend/server/session.ts:211-233 | A caller only ever waits for a flight of its own token, at most a minute old, whose failure, if it has just failed, has not been caught |
| SessionRefresh.RunGrows | frontend/server/session.ts:235-260 | How a flight ended never changes, so all who wait for it see the same |
| SessionRefresh.NeverOutlivesItsToken | frontend/server/session.ts:248-258 | In every run, for any replica and any repeated reply, a refreshed session's recorded expiry is no later than its token's |
| SessionRefresh.DueAgainIff | frontend/server/session.ts:190-211 | A refreshed session is due again exactly when its lifetime is used up by the call, the 600 s allowance and the 30 s margin |
| SessionRefresh.NotDueOnReceipt | frontend/server/session.ts:211 | With the configured lifetime no caller is handed a session that is already due, neither on landing nor on joining a landed flight |
| SessionRefresh.FromTokens | frontend/server/session.ts:168-205 | A session is made only of a future deadline and a positive lifetime, and expires that lifetime after the given bound |
| SessionRefresh.TokensIff | frontend/server/session.ts:168-205 | When a token response makes a session, and which: every field checked and carried over, its cookie new or the previous one |
| SessionRefresh.Refresher.Cleanup | frontend/server/session.ts:230-231 | The loop removes exactly the entries past their time |
| SessionRefresh.Refresher.Refreshed | frontend/server/session.ts:211-260 | A call leaves the table and gets the answer that the protocol's step prescribes |
| SessionRefresh.Refresher.Land | frontend/server/session.ts:246-259 | The end of a flight leaves the table the protocol's step prescribes |
| SessionRefresh.Refresher.CatchFailure | frontend/server/session.ts:261-266 | The launcher's catch leaves the table the protocol's step prescribes |
| Gateway.Handle | frontend/server/gateway.ts:71-504 | For every request and all upstream outcomes: the exact conversation with IAM; the cookie is cleared if and only if IAM refused a renewal with 401, a logout succeeded or a sessionless navigation was turned away; any other reply after an API call carries the newest session; without one a renewed session is carried unless the answer is one of those that forget it; and what is answered |
| Gateway.Serve | frontend/server/gateway.ts:223-504 | After the session was looked at: which requests reach the API, and what the others are told and left with |
| Gateway.Pass | frontend/server/gateway.ts:339-397 | A request is passed on only with a session or on a public route, with a body within limits and an idempotency key |
| Gateway.Ask | frontend/server/gateway.ts:397-503 | After the API was asked, cookie and answer follow from the calls made and the last answer |
| Gateway.AuthenticatedFetch | frontend/server/gateway.ts:208-222 | Asks, and only after a 401 with a session renews it and asks the same again; the session and the change are the newest ones obtained |
| Gateway.AskedAtMostTwice | frontend/server/gateway.ts:208-222 | In every conversation the API is asked at most twice, with the same method, path, key and body, the second time right after a 401 and a renewal, each time with the newest session; public requests show none |
| Gateway.AskedForTheBrowser | frontend/server/gateway.ts:265-276 | Whatever is asked carries the browser's idempotency key; off /api/session its method, path and whole body, and on it a GET of /api/v1/me |
| Gateway.WellFormedIsPassedOn | frontend/server/gateway.ts:164-222 | Every well-formed request of a signed-in browser is passed on with its key and body, after the renewal of a due session, and once more after a 401 and a forced renewal; the conversation is exactly that |
| Gateway.SessionAndLoginAreAsked | frontend/server/gateway.ts:265-276 | Whose session it is is asked of IAM with the session, and a login without any |
| Gateway.AskedOnlyIf | frontend/server/gateway.ts:74-163 | IAM is asked only for a trusted host and, but for navigations, only for the frontend itself, for changes only from its own origin |
| Gateway.RoutesAsked | frontend/server/gateway.ts:22-41 | Only the browser's routes are asked, none that belong to servers, and without a session only those that lead to one |
| Gateway.RefusedEarly | frontend/server/gateway.ts:74-163 | What a browser is told that may not ask: no configuration, a bad path, an untrusted host or a forged request |
| Gateway.RefusedQuietly | frontend/server/gateway.ts:339-396 | What a change is told on a server's route, without a session, with an oversized body or without its key |
| Gateway.Concluded | frontend/server/gateway.ts:279-316 | A browser is redirected only on a navigation and only to a safe place, and an upstream redirect or failure is never passed through to a navigation |
| Gateway.ConcludedIff | frontend/server/gateway.ts:279-503 | Exactly when an answer is passed through, served, redirected or replaced by an error |
| Gateway.NavigationsPass | frontend/server/gateway.ts:33-41 | Every navigation route is available, needs a session and needs no key |
| Gateway.RefreshedSessionLost | frontend/server/gateway.ts:387-396 | A concrete request after whose renewal no lawful reply carries the new session |
| Gateway.BoundedBody | frontend/server/gateway.ts:42-70 | The buffer holds exactly the concatenated chunks, and a body is refused exactly if it announces or brings more than the limit or breaks off |
| Gateway.Measure | frontend/server/gateway.ts:47-62 | Reading stops as soon as the chunks exceed the limit, and otherwise gives their total length |
| Gateway.Copy | frontend/server/gateway.ts:63-69 | The buffer is filled with exactly the concatenated chunks |
| ApprovalRetries.DeadlineKeptIff | frontend/src/api.ts:155-163 | Given that all entries of a hash expire by a limit, one more save writes a deadline by that limit if and only if the hash is still offered or a whole new window ends by it |
| ApprovalRetries.SavedWithinIff | frontend/src/api.ts:155-172 | The same of the store that the save leaves: the new entry is never among those dropped |
| ApprovalRetries.SavedWithinWindow | frontend/src/api.ts:155-172 | After a save every entry expires within 12 h, the saved one is there, at most 100 are, and a dropped one expires no later than any kept one |
| ApprovalRetries.NewestIsNewest | frontend/src/api.ts:165-168 | The kept entries are the newest |
| ApprovalRetries.RetriesKeep | frontend/src/api.ts:131-154 | What storage offers are stored usable entries, at most 100, in their order |
| ApprovalRetries.AssignTidy | frontend/src/api.ts:158-163 | Saving keeps hashes and keys distinct and entries in order of expiry, and loses no other entry |
| ApprovalRetries.RemoveTidy | frontend/src/api.ts:164 | Forgetting removes exactly the entry of that hash |
| Mutation.SameKeyUntilDecided | frontend/src/api.ts:197-250 | For any sequence of attempts in a form, two attempts with one signature use the same key unless a definitive outcome of that signature lies between them |
| Mutation.DifferentSignaturesDifferentKeys | frontend/src/api.ts:211-216 | In every run, attempts that use the same key have the same signature |
| Mutation.RetiredDrawsAnew | frontend/src/api.ts:211-248 | After a definitive outcome, with storage working, the next attempt draws a new key |
| Mutation.PendingIff | frontend/src/api.ts:211-248 | In every run of a form a signature is pending if and only if it was attempted and none of its outcomes since has been definitive |
| Mutation.DecidedStatuses | frontend/src/api.ts:238-248 | The refusals that end a key are the 4xx but 408, 425 and 429, and never one that awaits approval or concerns the key |
| Mutation.EndedSessionEmpties | frontend/src/api.ts:94-112 | An accepted logout and an ended session leave no stored key |
| Mutation.KeyDeadlineIff | frontend/src/api.ts:131-172 | In every run, at every later point the stored key expires within 12 h of a save if and only if at every later save of its signature its entry was still offered (or no time had passed) |
| Mutation.SavesOfOneKey | frontend/src/api.ts:211-237 | Until a definitive outcome those saves are all of the same key |
| ApprovalLifetime.OfferedIff | frontend/src/api.ts:131-179 | With fewer than 100 saves of other signatures and no definitive outcome in between, a key's entry is offered at every later save if and only if the store was not emptied since its first save and the last of them comes before the first one's window ends |
| ApprovalLifetime.KeyKeepsItsWindowIff | frontend/src/api.ts:131-179 | Under the same condition, and only then, the stored key keeps the window of its first save |
| ApprovalLifetime.FreshFormUsesKeyIff | frontend/src/api.ts:211-215 | A form opened anew over the store that a run has left sends the key the run saved if and only if it does so before that key's window ends, and draws a new one later |
| ApprovalLifetime.EmptiedNotOffered | frontend/src/api.ts:173-179 | After the store was emptied the next save of the signature finds no entry |
| ApprovalRetries.SavedStands | frontend/src/api.ts:155-172 | A save of another signature puts at most one more entry behind a stored one, forgetting a key none, and saving the same again leaves its place and deadline |
| Mutation.KeyOutlivesItsWindow | frontend/src/api.ts:159-163 | Two attempts 12 h and 1 ms apart leave one key stored until more than 24 h after its first save |
| Mutation.StepOwned | frontend/src/api.ts:211-248 | Every attempt keeps each key, in memory and in storage, with one signature |
| Mutation.MutationForm.SaveApprovalRetry | frontend/src/api.ts:155-172 | In place, the store becomes the specified one |
| Mutation.MutationForm.Send | frontend/src/api.ts:195-251 | In place, one attempt uses the specified key and leaves the specified form and store |
| ScopeReviewPage.ReadPage | frontend/src/scope-review-page.ts:18-38 | Each call ends, over distinct cursors, at the first page that is not skipped, or with an error exactly where no new cursor leads on |
| ScopeReviewPage.CallInInbox | frontend/src/scope-review-page.ts:18-38 | On a finite inbox a call never fails and returns the next matching reviews in order |
| ScopeReviewPage.FollowedInbox | frontend/src/scope-review-page.ts:26-37 | The pages a call skips are consecutive and hold no match |
| ScopeReviewPage.LoadAll | frontend/src/ui.tsx:406-426 | Loading page by page until none is left yields exactly the matching reviews of the whole inbox, in order, without loss or duplicate |
| ScopeReviewPage.FilterJoin | frontend/src/scope-review-page.ts:28-30 | Filtering pages one by one is filtering their concatenation |
| ScopeReviewPage.FilterPicks | frontend/src/scope-review-page.ts:28-30 | Filtering keeps exactly the reviews at matching positions, in their order, each once |
| FormSchemas.ResolveEnds | frontend/src/forms.tsx:18-42 | References that lead only downwards are always resolved |
| FormSchemas.MoreDepth | frontend/src/forms.tsx:18-42 | A resolved schema does not depend on how many references in a row are allowed |
| FormSchemas.CircleNeverEnds | frontend/src/forms.tsx:20-26 | A schema that refers to itself never resolves |
| FormSchemas.OwnKeywordsWin | frontend/src/forms.tsx:20-41 | A schema's own keywords win over those it refers to |
| FormSchemas.ReferenceFills | frontend/src/forms.tsx:20-26 | A reference gives its resolved target's keywords and type wherever the schema has none of its own |
| FormSchemas.AllOfFills | frontend/src/forms.tsx:27-34 | The resolved parts of an allOf lie over one another, the later over the earlier, below the schema's own keywords |
| FormSchemas.OneOfFills | frontend/src/forms.tsx:35-41 | An alternative without type or fields stands for its first object branch made nullable, or for itself if there is none |
| FormText.EntriesOfJoinIff | frontend/src/forms.tsx:318-321 | A list of texts comes back from its field's text if and only if every text is nonempty, trimmed and free of commas and line ends |
| FormText.TrimTwice | frontend/src/forms.tsx:320 | Trimming is idempotent and invents no character |
| FormText.TrimCuts | frontend/src/forms.tsx:320 | Trimming cuts nothing but spaces, and all of them at both ends |
| FormText.JoinBegins | frontend/src/forms.tsx:315-317 | The text of a list of plain words begins as its first word does |
| Forms.RoundTrip | frontend/src/forms.tsx:255-351 | For every schema and every fitting record, the form gives the record back restricted to the schema's properties that are not null, nested records and picked scopes included |
| Forms.RoundTripFirst | frontend/src/forms.tsx:280-349 | The same for every number of properties, for shown values and for values handed over as they are |
| Forms.InputHas | frontend/src/forms.tsx:255-279 | The form holds a value for exactly the properties that are not null |
| Forms.Shown | frontend/src/forms.tsx:263-276 | Words are shown line by line, other lists and records as printed JSON, and plain values as they are |
| Forms.KindIff | frontend/src/forms.tsx:43-44 | The kind of a schema is its type, or of several types the first that is not null |
| Forms.WordsTripIff | frontend/src/forms.tsx:313-321 | A shown list of texts comes back if and only if all are plain, unless its text opens like JSON |
| Forms.BlankFailsIff | frontend/src/forms.tsx:290-300 | A blank field throws if and only if its record was null before and nothing is made up for the field |
| Forms.BlankGives | frontend/src/forms.tsx:290-300 | What a blank field sends: an emptied list, the empty text, null where a value was and may be null, and else nothing, each under its exact condition |
| Forms.FilledIsChecked | frontend/src/forms.tsx:301-348 | What a filled field must satisfy and what is sent of it: an object, a list within its limits, or the value itself if it matches its pattern and format |
| Forms.NullRecordIff | frontend/src/forms.tsx:290-305 | A form that is fine for a new record is fine for one that was null if and only if every blank field is made up for and no filled field is a nested record, and then gives the same |
| Forms.NullParentFails | frontend/src/forms.tsx:303-305 | A concrete form without a blank field throws because the record around a nested record was null |
| Forms.NullRecordFails | frontend/src/forms.tsx:290-305 | A record that was null cannot be filled in with an optional field left out |
| Forms.OutputValues | frontend/src/forms.tsx:280-351 | The loop, ending at its first failure, computes the specified result |
| TelemetryRoutes.NamesStay | frontend/src/telemetry-policy.ts:41-65 | Naming an address twice gives the same name, for every list of regular routes |
| TelemetryRoutes.SameFirstFit | frontend/src/telemetry-policy.ts:52-63 | The first route that fits a path is the first that fits its own encoded name |
| TelemetryRoutes.FitsBack | frontend/src/telemetry-policy.ts:52-63 | A route that fits another route's encoded name fits every path the other fits |
| TelemetryRoutes.NamesKnown | frontend/src/telemetry-policy.ts:49-64 | Only pages, known routes and two fixed names come out |
| TelemetryRoutes.NamedBy | frontend/src/telemetry-policy.ts:41-65 | An address is named by its page, the join page, the first known route that fits its path, and unmatched only if there is none |
| TelemetryRoutes.SplitEncode | frontend/src/telemetry-policy.ts:51-54 | Percent-encoding a path encodes its parts one by one |
| TelemetryPolicy.DataFixedIff | frontend/src/telemetry-policy.ts:75-144 | An object passes unchanged if and only if each of its entries is allowed and its keys are distinct, and whatever comes out is such an object and passes unchanged |
| TelemetryPolicy.DataKept | frontend/src/telemetry-policy.ts:79-141 | An entry comes out, with its value, if and only if its key lets that value through |
| TelemetryPolicy.RouteKept | frontend/src/telemetry-policy.ts:141 | The route that comes out is the name of the last address that went in |
| TelemetryPolicy.SpelledIff | frontend/src/telemetry-policy.ts:107-137 | A value is spelled like a word if and only if it is the word, or lists of one around it, and such a value can always be spelled |
| TelemetryPolicy.ListAroundWord | frontend/src/telemetry-policy.ts:107-112 | A concrete kind in two lists passes the sanitizer as it is |
| TelemetryPolicy.BatchStays | frontend/src/telemetry-policy.ts:145-189 | The second pass over a sanitized batch changes nothing |
| TelemetryPolicy.BatchSafe | frontend/src/telemetry-policy.ts:158-187 | Every event sent has a UUID, a known type, only allowed data, and a known name for its path |
| TelemetryPolicy.EventIsItsOwn | frontend/src/telemetry-policy.ts:158-187 | An event sent has its own id, type, sanitized data and path name, and of its metadata each allowed entry as it was, dates in standard form |
| TelemetryPolicy.EventAcceptedIff | frontend/src/telemetry-policy.ts:158-160 | An event is accepted if and only if it has a UUID, a known type and data that can be spelled |
| TelemetryPolicy.BatchIff | frontend/src/telemetry-policy.ts:145-189 | A batch is accepted if and only if it has its table and one to forty accepted events, and all of them are sent in order |
| TelemetryPolicy.SanitizeData | frontend/src/telemetry-policy.ts:75-144 | The loop over entries computes the specified object, or fails where a value that is spelled out cannot be |
| TelemetryPolicy.SanitizeBatch | frontend/src/telemetry-policy.ts:145-189 | The batch is refused exactly when it or one of its events is, and is otherwise sanitized event by event |
| LinuxAbi.RequirementIff | scripts/check_linux_abi.py:75-78 | A requirement is read as a version if and only if it is GLIBC_ and two or more dotted decimal numbers, and as exactly the version it spells |
| LinuxAbi.StringAtIff | scripts/check_linux_abi.py:20-27 | The string read at a place is exactly the ASCII text that stands there before the next zero byte |
| LinuxAbi.WalkIff | scripts/check_linux_abi.py:61-93 | The walk succeeds if and only if the bytes are a linked chain of well-formed records with supported names, and then returns exactly their versions and number |
| LinuxAbi.RequiredVersionsIff | scripts/check_linux_abi.py:30-93 | The versions returned are exactly those of the executable's records, and an answer is given if and only if there are such records |
| LinuxAbi.TablesIff | scripts/check_linux_abi.py:36-60 | The version tables are exactly the bytes of the only version-requirement section and of the string table it links to, by the entries of the section table |
| LinuxAbi.VerifyGlibcRequirements | scripts/check_linux_abi.py:96-101 | An executable passes if and only if every requirement is at most 2.28, and the greatest one is reported |
| LinuxAbi.RequiredGlibcVersions | scripts/check_linux_abi.py:30-93 | Reading the file computes the specified versions or the specified error |
| LinuxAbi.WalkRecords | scripts/check_linux_abi.py:62-92 | The loop over records ends on all bytes, reads in bounds and computes the specified walk |
| LinuxAbi.WalkRecordNames | scripts/check_linux_abi.py:71-84 | The loop over a record's names computes the specified versions |
| LinuxAbi.ReadSections | scripts/check_linux_abi.py:42-45 | The section headers are read in order, up to the first truncated one |
| LinuxAbi.AtMostTotal | scripts/check_linux_abi.py:97-98 | The order of versions is total and antisymmetric |
| LinuxAbi.AtMostTransitive | scripts/check_linux_abi.py:97-98 | The order of versions is transitive |
| LinuxAbi.AtMostIff | scripts/check_linux_abi.py:97-98 | A version is at most another if it is a beginning of it or smaller where they first differ |
| LinuxAbi.BaselineAdmits | scripts/check_linux_abi.py:10 | The versions admitted are those up to 2.28 |
| SpanTelemetry.RecordedIff | src/telemetry.rs:142-175 | In every run an event is recorded if and only if its target is ours and neither it nor any enclosing span ever recorded telemetry_enabled=false before it |
| SpanTelemetry.CarriesOwnThenInnermost | src/telemetry.rs:142-175 | A recorded event goes out under its name with its level, target and line, and carries under every other name its own last value or else the innermost enclosing span's |
| SpanTelemetry.SpansHold | src/telemetry.rs:128-141 | A span starts with what its attributes hold and takes each update over that; no other span changes |
| SpanTelemetry.VisitedLast | src/telemetry.rs:94-125 | Under each name stands the value of the last update held under it |
| SpanTelemetry.InnermostWins | src/telemetry.rs:147-154 | Of the enclosing spans the innermost one that holds a name wins |
| SpanTelemetry.FlagIsHistory | src/telemetry.rs:94-141 | In every run a span's flag says exactly whether its history ever opted out; a later true never undoes it |
| SpanTelemetry.RunSendsSafeText | src/telemetry.rs:107-125 | Recorded events hold text only under the safe keys and the event's own level and target |
| SpanTelemetry.StationLayer.OnNewSpan | src/telemetry.rs:128-134 | In place, a span with its visited attributes is added and the layer is that of the longer run |
| SpanTelemetry.StationLayer.OnRecord | src/telemetry.rs:135-141 | In place, the span's fields take the update and the layer is that of the longer run |
| SpanTelemetry.StationLayer.OnEvent | src/telemetry.rs:142-175 | In place, the event is recorded or dropped and the layer is that of the longer run |

## Left out

- Release.Release.Rehearse: the isolated steps, like image and container details and the rewriting of the runtime configuration text, are commands that may fail; that they touch no live service is assumed of them.
- The saved copies of units and environment files, which a restore needs beside the backups.
- `KeyboardInterrupt` and a killed release process skip the fallback; the invariants over all moments of a run still hold there, the fallback's own promises do not.
- A crash or restart of a service outside the release's commands is not an event of the release model.
- `state.json` may under-report that services were stopped when the checkpoint before the stop failed; what is proved is that it never under-reports a database effect.
- PostgreSQL itself: the release model trusts that a transaction is atomic and that an exclusive lock excludes other writers.
- The database resolver of membership identifiers is a bijection that answers only what it is asked; the UUID parser is modelled as the four spellings its library accepts.
- The query-string branch of the membership transport, which decodes one flat object the same way.
- Environment checks, cookie sealing, response headers and the text of redirect targets in the gateway; a redirect target is reduced to missing, unparsable, unsafe or safe.
- Overlapping submissions of one signature in one form.
- A storage that works for reading and fails for writing within one submission.
- Browser pages, fields and pickers that show the forms; invalid regular expressions in a schema.
- FormSchemas.ResolveEnds: reads an endless chain of references as a schema without keywords, where the original runs out of stack; it says which schemas never have one.
- Forms.InputHas: leaves out that listing the items of an array throws for an object in it with a property of its own named toString; such an array is then no list of words.
- Object keys that JavaScript reorders (whole numbers) and reading text by index in telemetry and forms.
- The rate limit, origin checks and upload of the telemetry endpoint.
- Span identifiers are never reused in the model, and closing a span is no operation.
- The canonical-identity and honeycomb release scripts, which are earlier versions of the same machine.
