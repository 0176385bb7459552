# Verification of the negotiation service

A Dafny 4.11 model of a procurement API in which clients publish requests, suppliers make offers, and the two
parties of each negotiation counter, accept or reject in turns. The project proves what the service promises: to
both parties, to a client that retries, to whoever reads the audit trail, and to PostgreSQL running many requests
at once. `dafny verify dfyconfig.toml` checks everything.

## What is modelled

**One meaning, three refinements.** `Negotiations` says what each operation means for the tables, and
`UnitOfWork.Handle` what one POST means with its role guard, key lookup, effect and single commit. Three other
modules run the same service and are proved against that meaning:

* `Sessions` is the program as written: a session object whose methods assign rows, append audit rows, loop over
  the siblings, flush, save the key and commit. The database may raise at any flush and at the commit.
* `RowLocks` is the program under PostgreSQL: one step per SQL statement, row locks, interleaved with any number
  of other transactions, any of which may abort at any time.
* `SoloRuns` is the converse: every sequence of whole requests that succeeds is the history of some run of the
  lock machine, so the theorems about runs are about something.

**The lock argument** is in four modules. `LockFacts` states what a transaction knows at each statement and the
exact set of rows it has locked there. `LockStability` shows that a commit changes only rows its transaction has
locked, and so leaves everybody else's knowledge true. `Serializability` puts the two together into the invariant
of the machine. `ConcurrentRuns` draws the conclusions. `Deadlock` shows who can wait for whom; `DeadlockRuns` that
deadlocks do occur, and that whatever is live can always be brought to an end.

**What happened in between.** `Overlaps` looks at a run from inside a live transaction. `KeyRaces` uses it to say
exactly when a call loses its idempotency key to another one, and what every repeat is answered. `SiblingGaps` says
exactly when an accept's sibling list goes stale. `StaleSiblings` builds a run where it does. `AuditOrder` shows that
reading the log by id instead of by commit gives the same negotiations.

**What a caller sees.** `Answers` and `Listings` read every answer from the tables alone: which user may do what, which
error comes first, what a reply shows, and which rows a listing holds. They are about every reachable database and
about whole requests, so they fix the meaning that the three refinements are proved against.

**Over the meaning**, `Invariants` has turns, closure, agreements and what never changes again; `AuditTrail` folds
the log back into negotiations; `ClosingRecords` counts and reads the closing rows; `Retries` has the idempotency
keys. `RateLimit` is the login limiter, with its deques proved to decide as the full history would, and
`Pagination` walks the listings while other transactions commit.

## Where the definitions come from

* `Tables`: app/models.py. Each table is a map from primary key to row; the audit trail is in commit order.
* `Negotiations.Creating`, `Offering`, `LoadActive`, `Accepting`, `Rejecting`, `Countering`:
  app/services/negotiation.py:28-42, 69-99, 206-218, 128-145, 148-155, 158-166.
* `UnitOfWork.Guard`, `Lookup`, `SavedKeys`, `Handle`: app/deps.py:23-50, 65-73, 75-87, app/routers/_helpers.py:14-36.
* `RowLocks.Next`, `Wanted`, `PickOk`: the statements of app/services/negotiation.py in order, and what each waits for.
* `RateLimit.Serve`: app/ratelimit.py:37-48. `Pagination.ListRequests`, `ListNegotiations`:
  app/services/negotiation.py:45-54, 102-114.

## Assumptions

* READ COMMITTED, PostgreSQL's default, since app/database.py:30 sets no isolation level: a statement sees the
  latest committed rows and its own transaction's writes. A row locked by `FOR UPDATE`, an update or an insert stays
  locked until commit or abort. A statement that waits is evaluated when the lock is free.
* Any live transaction may abort, as a deadlock victim or because its process dies; its writes are then dropped.
* A `Draw` holds what the database chooses: new ids, and the order in which the sibling query returns its rows (the
  program gives no ORDER BY). Ids are new, and a thread's proposals get increasing ids.
* The user directory is fixed and a user's role never changes; nothing in the service changes one.
* The limiter's lock holders see clock readings that never go back, its settings are constant and its limit is at
  least 1.

## Where the code and a stated promise disagree

* **One closing record per closed negotiation** holds when requests run one at a time (`ClosingRecords.ClosedOnce`)
  and fails under concurrency. A reject that commits after an accept has fetched its siblings and before it updates
  them leaves that negotiation with a rejected and a superseded row: `StaleSiblings.SomeRunClosesTwice` builds such
  a run. It holds if and only if no reject of a listed sibling commits while an accept that later commits stands in
  its sibling loop (`SiblingGaps.ClosedOnceIffNoGaps`), which is to say that no accept commits with a listed sibling
  that is no longer active (`ClosedOnceIffExact`). Under that same condition the log is the serial one
  (`SameLogIffExact`). The tables, the stored responses and the replayed log are right in every run.
* **A retry returns the first response** holds for the same user exactly when the role guard of the endpoint lets
  the retry through, because the guard runs before the lookup (app/routers/requests.py:23): a client who reuses a
  key on the supplier's endpoint gets 403. `Retries.FirstResponseReturns` states all three outcomes, and
  `Retries.KeyOnTheOtherEndpoint` gives the input that is refused.
* **A retry with the same key is safe** (app/deps.py:56-57) holds for the tables, but not always for the answer: of
  two calls with one key under way at once, the one that comes second to its commit fails with an unhandled integrity
  error (500) and nothing of it committed. `KeyRaces.SomeCallLosesItsKey` builds such a run. A call fails so if and
  only if another call with its key committed since its own lookup (`LosesIffTaken`); so a client that waits for
  one attempt to end before it sends the next is never refused there (`AloneNeverLoses`). Repeating the call that
  failed returns the winner's response if the winner was the same user, and a 409 if not (`LoserRepeats`); any other
  call with that key may first be refused by its guard (`RepeatIsAnswered`).
* app/ratelimit.py:3 says fixed window. The code keeps a sliding log, which gives the stronger bound of `WindowBound`.
* Arquitectura/maquina-estados.md:87 lists "not the counterparty whose turn it is" under 403, line 89 under 409.
  The code answers 409.
* The model's `RequestStatus` has no `cancelled`: no code path reaches it.

## Model

| member | source | states |
|---|---|---|
| Negotiations.LastActorAgrees | app/services/negotiation.py:187-196 | the last proposal by descending id is the end of the ordered chain, so the turn check and `last_actor_id` never disagree |
| Negotiations.ChainInsert | app/models.py:75-82 | a proposal with a new largest id is appended to its own chain and to no other, however the threads' ids interleave |
| Invariants.Loaded | app/services/negotiation.py:206-218 | passing the checks means the thread is active, its request open, and the user is the party whom the parity of the chain makes next |
| Invariants.CreateKeeps | app/services/negotiation.py:28-42 | a new request keeps links, pairs, threads and closure in order |
| Invariants.OfferKeeps | app/services/negotiation.py:69-99 | an offer keeps one thread per request and supplier, opens a chain with the supplier's offer, and only under an open request |
| Invariants.RejectKeeps | app/services/negotiation.py:148-155 | a reject keeps the whole invariant |
| Invariants.CounterKeeps | app/services/negotiation.py:158-166 | a counter keeps alternation, matching roles and one currency |
| Invariants.AcceptKeeps | app/services/negotiation.py:128-145 | an accept leaves one winner, a closed request, no active sibling, and the last amount agreed, with a fresh or a stale sibling list |
| Invariants.RunsKeep | app/services/negotiation.py:69-166 | every state reached by any number of successful requests satisfies the invariant |
| Invariants.OneMover | app/services/negotiation.py:199-218 | an active negotiation has exactly one user in the system for whom accept, reject and counter succeed, the party who is not `last_actor_id`; a terminal one has none |
| Invariants.AcceptSettles | app/services/negotiation.py:128-145 | served alone, an accept empties the active siblings, raises the rejected ones by their number, writes one superseded row for each before the accepted row, and touches no other request or negotiation |
| Invariants.SiblingsAreLosers | app/services/negotiation.py:222-228 | the fresh sibling list has one entry for each active sibling but the winner |
| Invariants.PerformEvolves | app/services/negotiation.py:69-166 | no operation removes a row, changes a link, shortens a chain, or changes a closed request or terminal thread |
| Invariants.RunsEvolve | app/services/negotiation.py:128-166 | accepted, rejected and closed are absorbing and chains append-only over any run |
| Invariants.AgreementFinal | app/services/negotiation.py:132-133 | once accepted, the row, the amount and the chain are the same in every later state, and the amount is the last proposal's |
| Answers.StrangersAreUnauthorized | app/deps.py:23-36 | a user not in the directory gets 401, whatever the call, and nothing changes |
| Answers.OtherRolesAreForbidden | app/deps.py:39-50 | a creation by a supplier and an offer by a client get 403, stored key or not, and nothing changes |
| Answers.AnswerToRepeat | app/deps.py:65-73 | a call with a stored key gets the role refusal, the conflict of another user's key, or the stored response, and nothing changes |
| Answers.AnswerToCreate | app/routers/requests.py:18-31 | a first creation succeeds if and only if its user is a client, with 201 and the new request, open and the user's; no other request changes |
| Answers.OfferErrors | app/services/negotiation.py:72-85 | an offer succeeds if and only if the request exists, is open, and no negotiation on it is by this supplier; each error has its own condition, in order |
| Answers.AnswerToOffer | app/routers/negotiations.py:24-42 | the answer to any first offer: 403 for a client, 404, a conflict if a negotiation of the request has been accepted, a conflict if the supplier has a thread on it, else success |
| Answers.ReplyToOffer | app/services/negotiation.py:87-99 | a successful offer gets 201 and its active thread with its own user as last actor; the thread holds that one proposal, of the call's amount and currency; nothing else changes |
| Answers.AnswerToResponse | app/services/negotiation.py:199-218 | the answer to any first accept, reject or counter: 404, 403 for whoever is no party, a conflict on a terminal thread, a conflict for who spoke last, else success; nothing else can go wrong |
| Answers.OneMoverAnswers | app/routers/negotiations.py:67-116 | a first accept, reject or counter succeeds, whatever the role of its user, if and only if the negotiation is active and the user is the one to move |
| Answers.ReplyToResponse | app/models.py:79-82 | a successful response gets 200 and the row as it now is: accepted at the last amount, rejected, or as before; the last actor is the other party, or the user itself after a counter, which adds one proposal of the call's amount in the chain's currency |
| Answers.OtherThreadsStay | app/services/negotiation.py:148-166 | a reject and a counter change no request and no other thread |
| Answers.ProposalComesLast | app/services/negotiation.py:172-184 | after an offer or a counter the thread ends with the call's amount and user |
| Answers.AcceptedAtItsAmount | app/services/negotiation.py:129-133 | accepting an offer or a counter agrees to the amount that call proposed, and the accepting user is another |
| AuditTrail.EntriesShow | app/models.py:85-100 | what the folded chain lists is each proposal's actor, amount and currency, in order |
| AuditTrail.ReplaySuperseded | app/services/negotiation.py:229-232 | folding the superseded rows rejects exactly the listed threads |
| AuditTrail.ReplayAccept | app/services/negotiation.py:141-143 | the rows of an accept carry the folded log to the tables the accept left |
| AuditTrail.ReplayCounter | app/services/negotiation.py:162-164 | the row of a counter appends the proposal to the folded chain of its thread |
| AuditTrail.ReplayStep | app/services/audit.py:12-36 | every operation's rows carry the folded log to the tables it left |
| AuditTrail.ReplayRebuilds | app/services/audit.py:26-36 | after any run the log alone gives exactly the negotiations: status, agreed amount, and who proposed what in order |
| ClosingRecords.ClosersOfStep | app/services/negotiation.py:229-232 | which closing rows an operation adds: one for each listed sibling and one for its own negotiation |
| ClosingRecords.NewRowsOk | app/services/negotiation.py:141-143 | the rows of an operation are true of what it left: a superseded row names an accepted winner of its request, an accepted row a party who did not make the last proposal |
| ClosingRecords.LogTruthful | app/services/audit.py:26-36 | every row of a reachable log stays true of the present tables, and a negotiation has a closing row exactly when it is terminal |
| ClosingRecords.TerminalAfter | app/services/negotiation.py:206-233 | which threads an operation makes terminal, and that its own was not terminal before |
| ClosingRecords.ClosedOnce | app/services/negotiation.py:229-232 | one request at a time, each terminal negotiation has exactly one closing row and an active one none |
| ClosingRecords.ClosedOnceIffExact | app/services/negotiation.py:222-232 | over any commit history, that holds if and only if every sibling list was still active when its accept committed |
| ClosingRecords.ClosedTwice | app/services/negotiation.py:222-232 | otherwise it names a negotiation with more than one closing row |
| ClosingRecords.TightenStep | app/services/negotiation.py:221-233 | leaving stale siblings out of one accept changes neither tables, keys nor response, and drops exactly the redundant rows |
| ClosingRecords.OneAtATime | app/services/negotiation.py:221-233 | every history has a one-at-a-time history with the same calls, tables and keys, and the log without redundant rows |
| ClosingRecords.SameLogIffExact | app/services/negotiation.py:222-232 | the two logs are equal if and only if no sibling list was stale |
| LockFacts.OfferStep | app/services/negotiation.py:72-99 | from the locked open request on, an offer's statements never lose what it has checked |
| LockFacts.RespondStep | app/services/negotiation.py:129-164 | the step that answers a proposal writes what the operation means on the committed rows |
| LockFacts.ListStep | app/services/negotiation.py:222-228 | the sibling query inside the accept names each committed active sibling once |
| LockFacts.SiblingStep | app/services/negotiation.py:229-232 | one turn of the loop extends the written siblings and their rows by one, without reading the sibling again |
| LockFacts.StepKeepsFacts | app/services/negotiation.py:69-233 | every statement keeps the facts of its transaction and locks exactly the rows it adds to its footprint |
| LockStability.PublishRespects | app/database.py:30-31 | every row a commit changes is one its transaction has locked; accepting a negotiation needs its request too |
| LockStability.SiblingsStable | app/services/negotiation.py:137-139 | while the request is locked, a fetched sibling list stays complete and never comes to name an accepted row |
| LockStability.FactsStable | app/services/negotiation.py:206-218 | another transaction's commit leaves true everything a transaction has read under its locks |
| LockStability.PublishIsHandle | app/routers/_helpers.py:31-36 | what a transaction has collected statement by statement is, when it commits, what its request does when served alone |
| Serializability.MoveKeeps | app/services/negotiation.py:69-233 | a statement of one transaction keeps every transaction's facts and locks |
| Serializability.PublishKeeps | app/deps.py:89-90 | a commit extends the serial history by one effective request and keeps every other transaction's facts |
| Serializability.FinishKeeps | app/database.py:44-51 | an abort or refusal leaves the committed rows alone and only frees its own locks |
| Serializability.EventKeeps | app/database.py:44-51 | beginning, stepping and aborting all keep the invariant of the machine |
| Serializability.AlwaysGood | app/services/negotiation.py:69-233 | in every interleaving the committed database is that of the committed requests run serially in commit order |
| ConcurrentRuns.Serializable | app/services/negotiation.py:69-233 | in every interleaving tables, keys and stored responses equal those of the same calls one at a time with fresh sibling lists, with the same ids; the log too, but for redundant superseded rows, and entirely if and only if no list was stale |
| ConcurrentRuns.Safe | app/services/negotiation.py:128-139 | in every interleaving at most one negotiation of a request is accepted, it is closed exactly when one is, then none is active, and every chain alternates between two different users |
| ConcurrentRuns.SiblingWriteIsSafe | app/services/negotiation.py:229-232 | the unchecked sibling write lands on a committed active or rejected row of the same request, and no active sibling is missing from the list |
| ConcurrentRuns.EventEvolves | app/services/negotiation.py:69-233 | no event of the machine changes a closed request, a terminal negotiation or the start of a chain |
| ConcurrentRuns.Absorbing | app/services/negotiation.py:206-233 | accepted, rejected and closed are absorbing between any two points of any interleaving |
| ConcurrentRuns.ReplayUnderConcurrency | app/services/audit.py:26-36 | folding the committed log in commit order rebuilds the committed negotiations in every interleaving, redundant rows included |
| ConcurrentRuns.AtMostOnce | app/models.py:118-123 | in every interleaving a key is behind at most one committed effect, and the key table holds exactly the keys of the committed effects |
| ConcurrentRuns.SameAnswer | app/deps.py:65-87 | all successful answers ever given under one key are equal and went to one user |
| ConcurrentRuns.RefusedByOffer | app/services/negotiation.py:72-85 | an offer is refused, in whichever statement, with the error it has on the rows committed then |
| ConcurrentRuns.RefusedByLoad | app/services/negotiation.py:206-218 | so is an accept, reject or counter, and none of them ever meets a missing row |
| ConcurrentRuns.LoopNeverFails | app/services/negotiation.py:229-233 | the sibling loop never raises by itself |
| ConcurrentRuns.RefusalsAreServedAlone | app/routers/_helpers.py:26-35 | a refused call gets the answer it would get alone at that moment; the only other failure comes of a key that is stored when its own is inserted |
| ConcurrentRuns.RepliesAreServedAlone | app/routers/_helpers.py:31-36 | a successful answer is the one the call would get if it were served alone on the rows its commit finds |
| KeyRaces.StoredIffTaken | app/deps.py:65-73 | past its lookup, a call finds its key stored if and only if another call with that key committed since |
| KeyRaces.LosesIffTaken | app/routers/_helpers.py:31-35 | a call is refused after its effect is complete if and only if it has a key and another call with that key committed between its lookup and now |
| KeyRaces.AloneNeverLoses | app/deps.py:53-57 | a call during which no other call with its key is live is never refused there |
| KeyRaces.RepeatIsAnswered | app/deps.py:65-73 | in every continuation, a call with a stored key is answered at its first statement: by the guard, with the stored response, or with the conflict of another user's key |
| KeyRaces.LoserRepeats | app/deps.py:56-57 | repeating the call that lost gives the winner's stored response if the winner was the same user and a conflict if not |
| KeyRaces.CreatesRace | app/routers/_helpers.py:26-36 | from any state where nothing is live, two creations with one key can both find it absent, one commit and the other stand complete |
| KeyRaces.SomeCallLosesItsKey | app/deps.py:75-90 | for any two clients and any key there is a run after which one call holds a response and the other can only be refused |
| SiblingGaps.OnlyRejectsEnd | app/services/negotiation.py:137-139 | while an accept has its list, no commit but a reject can end a listed sibling, and that only during the loop |
| SiblingGaps.StaleIffRejected | app/services/negotiation.py:222-232 | a listed sibling is no longer active if and only if a reject of it committed while the accept stood in its loop |
| SiblingGaps.ExactIffNoGaps | app/services/negotiation.py:222-232 | the sibling lists of a run were all fresh at their commits if and only if no reject of a listed sibling fell into the loop of an accept that committed |
| SiblingGaps.ClosedOnceIffNoGaps | app/services/negotiation.py:229-232 | in every interleaving the log closes each terminal negotiation exactly once if and only if there was no such reject |
| AuditOrder.EarlyIdsAreIndependent | app/services/audit.py:26-36 | when a transaction commits, every row for which another live one may already have drawn an id is about another thread, or is the superseding row of a thread that the commit counters or rejects |
| AuditOrder.ReplayReordered | app/services/audit.py:26-36 | any order of a log that swaps only such rows folds to the same threads |
| AuditOrder.ReplayInIdOrder | app/models.py:103-108 | folding the committed log in any such order rebuilds the committed negotiations |
| DeadlockRuns.AcceptsDeadlock | app/services/negotiation.py:129-139 | whenever two negotiations of one request may both be accepted, some interleaving of the two accepts ends in a deadlocked pair |
| DeadlockRuns.SomeRunDeadlocks | app/services/negotiation.py:129-139 | a concrete run that reaches such a pair, each waiting for the other |
| DeadlockRuns.DrainStep | app/database.py:44-51 | while something is live, a statement, or the abort of one of a deadlocked pair, leaves strictly less to do |
| DeadlockRuns.EverythingEnds | app/database.py:44-51 | from every reachable state some continuation with no new call ends everything that is live, and aborts none but members of deadlocked pairs |
| Deadlock.WaitsForWhatItLocks | app/services/negotiation.py:69-233 | a statement that waits for a row locks it when it goes on |
| Deadlock.OnlyAcceptsHoldAndWait | app/services/negotiation.py:129-139 | only an accept ever waits for a row of the tables while it holds one |
| Deadlock.KeyHolderCommits | app/deps.py:75-90 | who has inserted a key not yet committed waits for nobody |
| Deadlock.RequestHolder | app/services/negotiation.py:137-139 | the request an accept waits for is held by one that, if it waits for a row, is an accept in its sibling loop |
| Deadlock.SiblingHolder | app/services/negotiation.py:229-232 | the sibling an accept waits for is held, if its holder waits for a row, by the accept of that sibling, waiting for the request |
| Deadlock.CyclesArePairs | app/services/negotiation.py:129-139 | every cycle of waits, of any length, is exactly two accepts on sibling negotiations of one request |
| Deadlock.ChoiceExists | app/services/negotiation.py:69-233 | a transaction that waits for nobody can take its next statement |
| Deadlock.AbortFrees | app/database.py:47-49 | aborting the transaction somebody waits for lets the waiter step |
| Deadlock.Progress | app/services/negotiation.py:128-139 | whenever transactions are live, one can step, or two are such a pair and aborting either lets the other step |
| SoloRuns.StatementsRunOut | app/services/negotiation.py:229-233 | no transaction takes statements for ever |
| SoloRuns.SoloStep | app/services/negotiation.py:69-233 | a transaction whose request would succeed when served alone is not refused by its next statement and still would succeed after it |
| SoloRuns.FinishAlone | app/routers/_helpers.py:31-36 | a lone transaction runs from any statement to the commit its request means |
| SoloRuns.EveryScriptRuns | app/routers/_helpers.py:31-36 | every one-at-a-time history of successful requests is reached by some run of the machine |
| StaleSiblings.RejectInBetween | app/services/negotiation.py:148-155 | a reject runs to its commit whatever else is live, if nobody has its row |
| StaleSiblings.RejectInTheGap | app/services/negotiation.py:222-232 | whenever a user may accept one negotiation and reject a sibling, both can commit with the sibling list fetched before the reject |
| StaleSiblings.SomeRunClosesTwice | app/services/negotiation.py:229-232 | a concrete run after which the log closes one negotiation twice |
| Retries.UnchangedOrEffective | app/database.py:44-51 | a request that has no effect of its own leaves the database as it was |
| Retries.KeysStay | app/deps.py:75-87 | a stored response is never overwritten or forgotten |
| Retries.ReplyIsStored | app/routers/_helpers.py:31-36 | a keyed success leaves its own response under its key |
| Retries.FirstResponseReturns | app/routers/_helpers.py:26-29 | every later request with the key of a success gets the first response, a role refusal, or, for another user, a conflict: whatever happened since and whatever it asks for |
| Retries.KeyOnTheOtherEndpoint | app/deps.py:39-50 | the failing input: a client creates a request under a key, sends an offer under it, and is refused although the key is stored |
| Retries.RetriesAreInvisible | app/routers/_helpers.py:26-36 | deleting all replays and all failed attempts from any sequence of requests reaches the same database |
| Retries.KeyTable | app/deps.py:75-90 | the key table holds exactly the keys of the effects |
| Retries.OneEffectPerKey | app/models.py:118-123 | no key is behind two effects |
| Sessions.Session.constructor | app/database.py:38-44 | an empty database, nothing committed |
| Sessions.Session.Record | app/services/audit.py:26-36 | one row appended to the open transaction, then a flush that may raise |
| Sessions.Session.AddProposal | app/services/negotiation.py:172-184 | one proposal under the next id of its sequence, then a flush |
| Sessions.Session.LoadActiveForResponse | app/services/negotiation.py:206-218 | the checks in program order give the error, or the proposal, that the reference states |
| Sessions.Session.CreateRequest | app/services/negotiation.py:28-42 | raises exactly when one of its flushes does; else leaves what creating means |
| Sessions.Session.MakeOffer | app/services/negotiation.py:69-99 | raises exactly when refused or at a flush; else leaves what offering means, with ids of the sequences |
| Sessions.Session.RejectNegotiation | app/services/negotiation.py:148-155 | raises exactly when refused or at a flush; else leaves what rejecting means |
| Sessions.Session.CounterOffer | app/services/negotiation.py:158-166 | raises exactly when refused or at a flush; else leaves what countering means |
| Sessions.Session.SelectSiblings | app/services/negotiation.py:222-228 | every active sibling but the winner, each once |
| Sessions.Session.SupersedeSiblings | app/services/negotiation.py:221-233 | the loop rejects exactly the siblings and records one row each in the same order; it completes exactly when there is a flush for each and one more |
| Sessions.LoopSettles | app/services/negotiation.py:221-233 | accepting one row and looping over its siblings gives the settled negotiations |
| Sessions.Session.AcceptNegotiation | app/services/negotiation.py:128-145 | row, request, loop and audit row together are what accepting means, or it raises exactly when refused or at one of its flushes |
| Sessions.Session.Save | app/deps.py:75-87 | the record is staged only when there is a key |
| Sessions.Session.CommitWork | app/deps.py:89-90 | everything staged becomes visible together, or nothing does |
| Sessions.Session.Idempotent | app/routers/_helpers.py:14-36 | replay, or run, save and commit once: exactly the meaning of the request, or nothing when any flush or the commit raises |
| Sessions.Session.Post | app/database.py:38-51 | all or nothing: for every number of flushes before the database raises, the committed database is what the request means alone or untouched; and it is always the one its history of effects reaches |
| RateLimit.Limiter.Check | app/ratelimit.py:30-48 | the prune loop and the deque update, in place, compute the stated decision and touch no other key |
| RateLimit.PrunedSplits | app/ratelimit.py:39-40 | on a sorted deque the loop drops exactly the hits older than the window |
| RateLimit.PrunedTracks | app/ratelimit.py:39-41 | after pruning, the deque's length is the count of the key's recent hits over the full history |
| RateLimit.AlwaysTracks | app/ratelimit.py:37-48 | after any ordered run every key's deque is the tail of its admitted hits, and all it has lost is stale |
| RateLimit.DecidesAsFullHistory | app/ratelimit.py:38-48 | in any ordered run over any keys, a call is admitted if and only if fewer than `limit` admitted hits of its key are at most `window` old, counted over the full history |
| RateLimit.AdmitsTheHistory | app/ratelimit.py:38-48 | over a whole run the hits the deques admit are exactly those that counting the full history admits |
| RateLimit.AdmittedSpaced | app/ratelimit.py:37-48 | hits of a key that were admitted `limit` places apart are strictly more than `window` apart |
| RateLimit.WindowBound | app/ratelimit.py:37-48 | any closed interval of length `window` holds at most `limit` hits of a key that were admitted, over runs of any length |
| RateLimit.DequeWaits | app/ratelimit.py:39-41 | from a refusal until a hit of its key is admitted, the key's deque stays full and does not change |
| RateLimit.RetryAfterExact | app/ratelimit.py:42 | the truncated arithmetic gives the least whole wait after which the oldest hit is stale, between 1 and `window` + 1 |
| RateLimit.RetryAfterIsExact | app/ratelimit.py:41-47 | with no other hit of the key admitted meanwhile, a call that many whole seconds later is admitted if and only if the wait is at least the Retry-After |
| Pagination.DescAt | app/services/negotiation.py:53 | a row's place in the listing is the number of matching rows with larger ids |
| Pagination.PageDescends | app/services/negotiation.py:53 | a page runs from larger ids to smaller ones |
| Pagination.PageHolds | app/services/negotiation.py:53-54 | a page holds exactly the matching rows whose place falls in it |
| Pagination.WalkCovers | app/services/negotiation.py:113-114 | over listings that grow between fetches, in any place, the pages up to the first short one return every row of the first listing |
| Pagination.StaticPagesPartition | app/services/negotiation.py:53-54 | when nothing changes, those pages are the descending list, cut up |
| Pagination.MarketsGrow | app/services/negotiation.py:105-112 | in any concurrent run no negotiation leaves a party's listing and no request leaves its client's |
| Pagination.PartiesAreListed | app/services/negotiation.py:105-112 | a negotiation is listed for a user if and only if the user is its supplier or the client of its request |
| Pagination.NegotiationWalkCovers | app/services/negotiation.py:102-114 | the walk misses no negotiation of which the user is a party at the first fetch, whatever commits between fetches |
| Pagination.RequestWalkCovers | app/services/negotiation.py:45-54 | the walk misses no request that is the client's own at the first fetch |
| Listings.ClientsSeeTheirRequests | app/services/negotiation.py:49-50 | a client's pages together show exactly the requests it made |
| Listings.SuppliersSeeTheMarketplace | app/services/negotiation.py:51-52 | a supplier's pages together show exactly the requests to which an offer is not refused for want of an open request: those of which no negotiation has been accepted |
| Listings.PartiesSeeTheirNegotiations | app/services/negotiation.py:105-112 | a user's pages together show exactly the negotiations of which it is a party, the one that spoke last or the one to answer |

## Left out

- Authentication, password hashing and payload validation: a call carries an authenticated user id, and amounts are integer cents.
- HTTP, middleware, logging, metrics, health probes, configuration, the browser UI and deployment.
- Registration: the user directory is fixed, so `users` never grows.
- The reads of a single request or negotiation (app/services/negotiation.py:57-63, 117-122): easy members.
- Message texts, product fields, timestamps, correlation ids, and the method and path stored with a key: no decision reads them.
- JSON encoding of stored responses: a body is a value returned unchanged.
- ReplayInIdOrder: the machine's log is in commit order and has no id column. It holds for every order that swaps only independent rows; `EarlyIdsAreIndependent` shows that a row can have its id before another that commits earlier only if the two are independent.
- Share locks of foreign-key checks: they touch only rows the transaction already has locked and user rows, which nobody locks.
- SQLite, where `FOR UPDATE` does nothing (app/services/negotiation.py:207-208).
- Identity map: `Sessions` keeps rows as values in maps, so two Python references to one row object are not modelled.
- Limiter: clocks that go back between the reading (app/ratelimit.py:35) and the lock, and rounding of floating point, are not modelled; times are reals.
- Pagination: suppliers browsing open requests get only the static partition, because rows leave that listing when a request closes.
- RetryAfterIsExact: speaks of whole seconds, the unit of the header.
- OnlyAcceptsHoldAndWait: speaks of rows of the tables; inserting a key already inserted by an uncommitted transaction is a further wait, which `KeyHolderCommits` shows is never part of a cycle.
