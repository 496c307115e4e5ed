# Verified semantics of the challenge escrow and its readers

Two wallets stake the same amount on an outcome. A contract holds the money, walks a challenge through nine states and
six deadlines, and pays by pull. Four other programs redo its reasoning: a projector reads the event log, a client reads
one storage tuple, a small JavaScript machine abstracts the calls, and portable verifiers in Rust and Python check terms
and evidence. An observer feeds the projector from a chain that may reorganize; a quorum of providers says which heads to
trust. The project states what each of these programs does and proves that they agree, on every run and every input.

## How it is laid out

Code that changes things in place is a class or a method with loops, proved equal to a function; the laws are proved about
the function. `Kernel` holds the contract's calls as functions from storage, caller, block time and token behaviour to a
reply; `ChallengeEscrow.dfy` is the contract as an object that performs them field by field.

| cluster | files | main results |
|---|---|---|
| contract | ProtocolTypes, Kernel, ChallengeEscrow, Refusals, KernelInvariant, Conservation, Authorization, Liveness | when each call commits and why it is refused, the invariant over all runs, conservation of money, guards that never fire, no record without its author, exits that always work |
| projector | Projector, ProjectorIntake, ProjectorSafety, ProjectorExactness, EventDecoder, EventSimulation, RawProjection | safety and status on arbitrary logs; which raw logs are taken in and read; every run of the contract is projected exactly, whatever order its logs come in; what is accepted is what the contract can emit, one family apart |
| client | ClientView, ClientAcceptance, ClientExactness, ClientInspection | the client accepts exactly the tuples some legal history leaves behind, in any one release too; an inspection with the right shares is a history of tuple and entitlements |
| abstract machine | JsNumber, ModelSteps, ChallengeModel, ModelRefusals, ModelSafety, ModelRefinement | forward simulation and its converse; with money in any unit 2^-k its own invariant check is safe exactly up to 2^53 units |
| observer | ReorgObserver, ReorgSafeObserver, ObserverFailures, ObserverSafety, ObserverHonest | atomic, fails for cause only, anchored under a lying provider, equal to a first scan under honest views |
| quorum | Finality, Sorting, Quorum, RpcQuorum, Receipt, QuorumSafety, QuorumAgreement | quorum intersection over three tags, an honest threshold always agrees, independence of input order, three implementations alike |
| portable | TextOrder, Decimal, Condition, JsonText, CanonicalJson, CanonicalMeaning, JsonIntake, EvidenceWalk | exact comparisons and verdicts, injective commitments in the shortest text, Rust and Python alike |
| event data | Utf8, AbiString, EventLayout | the decoder accepts exactly the canonical encodings and, for release events, the same with byte order marks before names; the layouts of contract and decoder agree on every kind of event but one |
| end to end | ObservedLogs, EndToEnd | the observer's logs are taken in exactly when a block's transactions and positions agree; from the contract through a reorganizing chain, beside heads a quorum agreed on, to its projection |

## What is taken as given

- Hashes and the signature check are arbitrary functions of the release. `ProjectorFollowsContract` needs the entitlement
  id of a challenge to be injective in the wallet; the decoder lemmas need the hashes it checks to be nonzero. Addresses
  have 160 bits and hashes 256; the table from signature topics to kinds of event is a parameter.
- The token may answer anything. Its readings pass through the exact-delta check of the contract, and every safety result
  holds for every answer; only the liveness lemmas ask for a token that moves exactly the amount. Credits nobody asked for
  may arrive between any two calls.
- Block times are uint64 and never fall from one committed transaction to the next. A call is atomic.
- A provider is an arbitrary function of the moment and the question. Where a result asks for honest views it says so: a
  block hash fixes number, parent and logs, and one synchronization sees one chain, with logs in any order, repeated, or
  beside logs marked as removed. `EndToEnd.ObservedProjectionShowsContract` further asks that the events of the run lie on
  the observed chain in their order, and that within a block positions follow transactions.
- Unicode normalization is an arbitrary function on strings, idempotent where a lemma says so.

## Results that differ from what one would expect

- `ModelSafety.OverflowThrows`, `ModelSafety.FractionsThrow`: the abstract machine adds JavaScript numbers and its guard
  asks neither for whole stakes nor for a bound on their sum (tools/model/challenge-model.mjs:182). Stakes of 0.1, 0.2 and
  0.3 make its invariant check throw within five actions, with a debt that never reaches 1; so do whole stakes once the
  debt is 2^53 + 1. `SafeExactlyUpTo` is the exact condition, for every k: on runs whose stakes are multiples of 2^-k the
  check never throws up to a bound on the debt if and only if the bound is at most 2^53 units of 2^-k. For whole stakes
  that is 2^53; for all the stakes the guard lets through k is 1074, and no bound worth having is left.
- `EventLayout.LayoutsAgree`, `EventDecoder.TraceDecodes`: the contract indexes the caller of a pause change
  (contracts/src/ChallengeEscrow.sol:19), the decoder expects no indexed parameter and three words
  (tools/client/events.ts:366-372). So the decoder turns away the log of every pause change, and one such log makes the
  whole projection fail: `EndToEnd.ObservedProjectionShowsContract` holds with that condition in its if-and-only-if.
  `EventSimulation` starts from decoded events and shows that the fold itself would follow pause changes.
- `EventLayout.MarkedReleaseIsRead`: the text decoder drops one leading byte order mark (tools/client/events.ts:298), so the
  decoder does not only read what the contract writes. Each of the four names of a release may stand after the bytes
  EF BB BF: sixteen logs decode to one release event (`MarkedReleasesAreRead`). `DecodesExactly` says which logs these are,
  and `DecodesExactlyEmissions` that a decoded log is the emission bit for bit exactly when no name carries a mark.
- `EventDecoder.TraceDecodes`, `ClientAcceptance.ReachableDecodes`: the contract accepts a zero terms hash, the event
  decoder and the client do not. With nonzero hash outputs that is the only creation either of them turns away.
- `ObservedLogs.CarelessLogsRefused`: the observer checks a log's block and position but not the order of a block's
  transactions, the projector does. A provider that gets that order wrong leaves a successful observer with logs the
  projector refuses. `HeldLogsTakenIn` shows that nothing else can be refused.
- `ProjectorExactness.HastyDisputeIsAccepted`: the projector compares the start of arbitration with the correction cutoff and
  the dispute deadline, not with the proposal (tools/client/projector.ts:298-306). It accepts a dispute whose arbitration
  starts before the proposal it answers was made, which the contract never emits. `AcceptsExactlyEmittable` shows that this
  is the only family of events, parameters in order, that it accepts beyond the contract's own.
- `ClientInspection.LootIsInspected`: an inspection checks that the entitlements read add up, not whose they are
  (tools/client/index.ts:608-638). It succeeds on a won challenge whose winnings the loser holds. `InspectionIsHistory` has
  the missing condition: each wallet holds the share that the end of the challenge awards it.
- `ObserverHonest.HonestSyncSucceeds`: with no shared stored block left, the search can exceed its traversal limit although
  span and depth are within theirs; the lemma gives the exact condition. `WithinDepthIsWithinTraversal` shows this never
  happens while a shared block within the reorganization depth is still stored.
- A falling head number shrinks the header window, so completeness of the ancestor search is
  stated for full windows (`SearchFindsFork`), which runs with rising heads keep (`RisingRunsKeepWindow`).
- `CanonicalMeaning.CanonicalIsStable` needs the normalized strings to fit: the length limit is checked before
  normalization, which may lengthen a string.

## Model

| member | source | states |
|---|---|---|
| `ChallengeEscrowContract.ChallengeEscrow.Deploy` | contracts/src/ChallengeEscrow.sol:21-41 | deployment fails on exactly the role, token and decimals faults the two constructors list, in their order, and otherwise starts unpaused or paused as told, with no debt and the release declared in the log |
| `ChallengeEscrowContract.ChallengeEscrow.CreateAndFund` | contracts/src/ChallengeEscrowKernel.sol:290-336 | the in-place write of storage, nonce set, liability and log is the commit of the specification, and every refusal leaves all of them as they were |
| `ChallengeEscrowContract.ChallengeEscrow.Accept` | contracts/src/ChallengeEscrowKernel.sol:338-404 | same for acceptance: second stake pulled, both liabilities raised, the acceptor recorded, or nothing at all |
| `ChallengeEscrowContract.ChallengeEscrow.AdvanceAcceptanceNonce` | contracts/src/ChallengeEscrowKernel.sol:406-418 | only the challenger of an open challenge moves its nonce, by one; otherwise nothing changes |
| `ChallengeEscrowContract.ChallengeEscrow.CancelOpen` | contracts/src/ChallengeEscrowKernel.sol:420-429 | a cancelled open challenge makes the one stake claimable to the challenger |
| `ChallengeEscrowContract.ChallengeEscrow.ExpireOpen` | contracts/src/ChallengeEscrowKernel.sol:431-441 | anyone may expire an open challenge from its acceptance deadline on |
| `ChallengeEscrowContract.ChallengeEscrow.Propose` | contracts/src/ChallengeEscrowKernel.sol:443-484 | the proposal record, its dispute deadline and the event, or no change |
| `ChallengeEscrowContract.ChallengeEscrow.DisputeOutcome` | contracts/src/ChallengeEscrowKernel.sol:486-536 | the dispute record with its arbitration interval and the event, or no change |
| `ChallengeEscrowContract.ChallengeEscrow.FinalizeUncontested` | contracts/src/ChallengeEscrowKernel.sol:538-567 | an undisputed proposal ends the challenge as resolved or as an evidence void |
| `ChallengeEscrowContract.ChallengeEscrow.Arbitrate` | contracts/src/ChallengeEscrowKernel.sol:569-614 | the arbiter ends a disputed challenge inside the arbitration interval |
| `ChallengeEscrowContract.ChallengeEscrow.VoidUnproposed` | contracts/src/ChallengeEscrowKernel.sol:616-629 | timeout void of an active challenge nobody proposed for |
| `ChallengeEscrowContract.ChallengeEscrow.VoidUnarbitrated` | contracts/src/ChallengeEscrowKernel.sol:631-644 | timeout void of a dispute nobody arbitrated |
| `ChallengeEscrowContract.ChallengeEscrow.ClaimWinnings` | contracts/src/ChallengeEscrowKernel.sol:646-661 | the winning wallet is paid both stakes, or nothing changes |
| `ChallengeEscrowContract.ChallengeEscrow.RefundPrincipal` | contracts/src/ChallengeEscrowKernel.sol:663-683 | a refundable participant is paid its stake, or nothing changes |
| `ChallengeEscrowContract.ChallengeEscrow.Pay` | contracts/src/ChallengeEscrowKernel.sol:1020-1055 | storage is written before the transfer, and a refused transfer or an insolvent balance undoes every write |
| `ChallengeEscrowContract.ChallengeEscrow.EndResolved` | contracts/src/ChallengeEscrowKernel.sol:898-939 | a resolution writes the final record and one claimable entitlement of two stakes |
| `ChallengeEscrowContract.ChallengeEscrow.EndInVoid` | contracts/src/ChallengeEscrowKernel.sol:941-1018 | both kinds of void write one final record and two claimable stakes, with the reason code each kind reports |
| `ChallengeEscrowContract.ChallengeEscrow.SetPaused` | contracts/src/ChallengeEscrow.sol:43-49 | the pauser flips the flag and nothing else, and never to the value it already has |
| `KernelInvariant.ReadsTell` | contracts/src/ChallengeEscrowKernel.sol:736-750 | in a reachable state getChallenge reads as present exactly for stored ids and as all zero otherwise, and getEntitlement as present exactly for the wallets that the challenge's end entitles |
| `KernelInvariant.AcceptAdvances` | contracts/src/ChallengeEscrowKernel.sol:338-404 | acceptance keeps the record legal, moves one challenge only, and moves the aggregate by what it moves the challenge |
| `KernelInvariant.ProposeAdvances` | contracts/src/ChallengeEscrowKernel.sol:443-484 | same for a proposal, whose dispute deadline stays below the timeout |
| `KernelInvariant.DisputeAdvances` | contracts/src/ChallengeEscrowKernel.sol:486-536 | same for a dispute, whose arbitration interval stays below the timeout |
| `KernelInvariant.ResolveAdvances` | contracts/src/ChallengeEscrowKernel.sol:898-939 | same for a resolution: exactly one wallet is owed exactly the deposit |
| `KernelInvariant.VoidAdvances` | contracts/src/ChallengeEscrowKernel.sol:941-1018 | same for a void: the two owed stakes make up the deposit |
| `KernelInvariant.PayAdvances` | contracts/src/ChallengeEscrowKernel.sol:1020-1055 | same for a payment: the entitlement goes from wholly claimable to wholly paid and the debt falls by it |
| `KernelInvariant.CallAdvances` | contracts/src/ChallengeEscrowKernel.sol:338-683 | every committed call on an existing challenge changes that challenge alone, keeps its terms and its legality, and keeps the escrow solvent |
| `KernelInvariant.CreateKeeps` | contracts/src/ChallengeEscrowKernel.sol:290-336 | creation keeps the invariant of the whole contract: the new id was free and the nonce unused |
| `KernelInvariant.CommitKeepsInv` | contracts/src/ChallengeEscrowKernel.sol:290-683 | every committed call, the pause switch included, keeps the invariant, whatever the token answered |
| `KernelInvariant.RunKeepsInv` | contracts/src/ChallengeEscrowKernel.sol:290-683 | the invariant holds after every run of calls and unsolicited credits, over any number of challenges |
| `Conservation.CommitMovesCash` | contracts/src/ChallengeEscrowKernel.sol:309-335 | a commit changes balance and aggregate debt by exactly the money its event names |
| `Conservation.CashConservation` | contracts/src/ChallengeEscrowKernel.sol:290-683 | over a whole run, balance = start + donations + inflows - outflows and debt = inflows - outflows, all read off the event log |
| `Conservation.CommitPays` | contracts/src/ChallengeEscrowKernel.sol:1020-1055 | a wallet's paid amount changes exactly when the call emits its payout event, from zero to the amount in that event |
| `Conservation.PaidExactlyOnce` | contracts/src/ChallengeEscrowKernel.sol:646-683 | over a whole run the recorded payment is the sum of the payout events of that wallet, and there is at most one |
| `Conservation.RunConserves` | contracts/src/ChallengeEscrowKernel.sol:898-1079 | after every run each challenge has deposited = outstanding + paid, terminal entitlements sum to the deposit, the aggregate is the sum of all challenge debts, and the balance covers it |
| `Conservation.NoAccountingErrors` | contracts/src/ChallengeEscrowKernel.sol:1027-1053 | in a reachable state the misaccounting, insolvency and overflow guards refuse no call, save a nonce already advanced 2^256 - 1 times |
| `Conservation.FinalizationNeverPanics` | contracts/src/ChallengeEscrowKernel.sol:538-644 | doubling a stake never overflows when a reachable challenge ends |
| `Conservation.PullsNeverMisaccount` | contracts/src/ChallengeEscrowKernel.sol:646-683 | no pull from a reachable terminal challenge meets an accounting guard |
| `Conservation.CommitSucceeds` | contracts/src/ChallengeEscrowKernel.sol:290-683 | whatever commits, every other and the same challenge keep terms and opening time, make at most one lifecycle move, and a terminal record loses only debt |
| `Conservation.TerminalIsFinal` | contracts/src/ChallengeEscrowKernel.sol:898-1055 | over every later run a terminal record keeps every field but its debt, which never grows |
| `Liveness.DeadlinesWithinTimeout` | contracts/src/ChallengeEscrowKernel.sol:799-811 | every deadline computed later fits uint64 and is at most the timeout of the terms |
| `Liveness.OneCallTerminates` | contracts/src/ChallengeEscrowKernel.sol:538-644 | from any reachable non-terminal state, at or after the timeout, paused or not, one call by anybody commits and ends the challenge |
| `Liveness.UnpaidMeansOwed` | contracts/src/ChallengeEscrowKernel.sol:1007-1079 | a terminal challenge owes nothing exactly when nothing is claimable, and at most two wallets can claim |
| `Liveness.PullPays` | contracts/src/ChallengeEscrowKernel.sol:1020-1055 | with an exact token a wallet with something to claim is paid all of it, paused or not |
| `Liveness.TwoPullsSettle` | contracts/src/ChallengeEscrowKernel.sol:646-683 | one pull by each participant, in either order, brings the debt of a terminal challenge to zero |
| `Liveness.ThreeCallsSettle` | contracts/src/ChallengeEscrowKernel.sol:538-683 | from any reachable non-terminal state, at or after its timeout, paused or not, one call by anybody, one pull by the challenger and one by the other participant (the challenger again, where nobody accepted) make a legal run that leaves the challenge owing nothing |
| `Liveness.CommitsMakeProgress` | contracts/src/ChallengeEscrowKernel.sol:290-683 | every committed call on a challenge but a nonce advance strictly decreases (moves left, unpaid entitlements) |
| `Refusals.CommitsExactly` | contracts/src/ChallengeEscrowKernel.sol:290-683 | in any state whatever, a call commits if and only if it gives cause for none of the errors listed for it, each stated by its meaning; and a refused call is refused for an error it gives cause for |
| `Refusals.DeploysExactly` | contracts/src/ChallengeEscrow.sol:21-41 | a deployment goes through if and only if it gives cause for none of its errors, and is refused for one it gives cause for |
| `Authorization.AcceptorWasPermitted` | contracts/src/ChallengeEscrowKernel.sol:338-404 | over whole runs: whoever stands as acceptor called for it, while not paused, under a permit the challenger signed for that wallet, those terms and the nonce the challenge still has |
| `Authorization.NonceNeverFalls` | contracts/src/ChallengeEscrowKernel.sol:406-418 | over whole runs the acceptance nonce of a challenge never falls |
| `Authorization.RevokedPermitsStayRevoked` | contracts/src/ChallengeEscrowKernel.sol:359-361 | a permit whose nonce has been passed is refused after every later run |
| `Authorization.PauseTakesNothingIn` | contracts/src/ChallengeEscrow.sol:43-49 | a pause the pauser does not lift holds over every run: no challenge is created and no stake is taken in |
| `Authorization.ProposalHasAuthor` | contracts/src/ChallengeEscrowKernel.sol:443-484 | every proposal on record at the end of a run was made by a committed call of the resolver with that outcome, reason and evidence, while not paused, and its event says the same |
| `Authorization.DisputeHasAuthor` | contracts/src/ChallengeEscrowKernel.sol:486-536 | every dispute on record was made by a committed call of the very wallet it names, at the time it names, with that outcome, reason, evidence and parent, and its event says the same |
| `Authorization.EndingHasAuthor` | contracts/src/ChallengeEscrowKernel.sol:538-644 | every final record was made by the wallet it names, through the call of the path it names, and its event announces it as it stands |
| `Authorization.CreationHasAuthor` | contracts/src/ChallengeEscrowKernel.sol:290-336 | every challenge was created by its challenger's own call, while not paused, at the time it names and with exactly the terms it has |
| `Authorization.ArbitrationHasAuthor` | contracts/src/ChallengeEscrowKernel.sol:569-614 | every final record on the arbiter's path repeats a committed call of the arbiter |
| `Authorization.DecisionHasAuthor` | contracts/src/ChallengeEscrowKernel.sol:538-614 | a challenge that did not time out was decided by an authority: its final record adopts the resolver's undisputed proposal or repeats the arbiter's call |
| `EventLayout.LayoutsAgree` | tools/client/events.ts:366-504 | the decoder demands as many topics and data words as the contract writes, for every kind of event but one: pause changes |
| `EventLayout.DecodeUndoesEmission` | tools/client/events.ts:506-526 | at byte level, decoding the log of any event whose parameters fit their words gives the event back, or fails; it fails exactly for pause changes and for parameters the decoder does not admit |
| `EventLayout.DecodesExactly` | tools/client/events.ts:296-526 | conversely a log, pause changes aside, decodes to an event if and only if the event is admissible and the log is laid out as its emission, each of a release's four names with a byte order mark before it or none |
| `EventLayout.DecodesExactlyEmissions` | tools/client/events.ts:296-526 | a log decodes to an event and carries no mark before any name, if and only if it is, bit for bit, the emission of that event, and the event is admissible |
| `EventLayout.MarkedReleasesAreRead` | tools/client/events.ts:296-364 | every admissible release event is read off sixteen different logs, of which the contract writes one |
| `EventLayout.MarkedReleaseIsRead` | tools/client/events.ts:296-364 | a concrete log with a mark before its first name decodes, although no contract writes it |
| `EventLayout.PauseDecodesExactly` | tools/client/events.ts:366-372 | what the decoder takes for a pause change: a log without indexed parameters and with three words, and nothing else |
| `EventLayout.WordsOfData` | tools/client/events.ts:216-228 | splitting the data into words gives the words that were written |
| `EventDecoder.EventDecodes` | tools/client/events.ts:366-504 | the log of a call committed in a reachable state decodes to the event emitted, exactly when that is no pause change and no creation with a zero terms hash; otherwise decoding fails |
| `EventDecoder.TraceDecodes` | tools/client/events.ts:366-526 | of all logs a run leaves, the decoder reads each back as it was, except that it turns away exactly the pause changes and the creations with a zero terms hash |
| `EventDecoder.ReleaseDecodes` | tools/client/events.ts:327-364 | the log of every possible deployment decodes to its release event, names, value mode, roles and offsets included |
| `Projector.EventProjector.ProjectEvent` | tools/client/projector.ts:179-430 | the in-place update of one map entry, the anomaly list, the release and the pause value is one step of the fold |
| `Projector.EventProjector.ProjectLogs` | tools/client/projector.ts:498-506 | the loop over decoded logs leaves the fold of all of them, with the release-first anomaly added before |
| `ProjectorSafety.LogStepsOrFlags` | tools/client/projector.ts:202-430 | on arbitrary decoded logs one log either adds exactly one anomaly and leaves state, acceptor, evidence and payouts of every challenge alone, or adds none and makes a legal step of one challenge |
| `ProjectorSafety.AnyLogsAreSafe` | tools/client/projector.ts:202-430 | whatever was logged: at most three evidence hashes, all distinct, and accepted payouts never above the deposit the state implies |
| `ProjectorSafety.TerminalStays` | tools/client/projector.ts:147-160 | a terminal projected state, its acceptor and its evidence never change, whatever is logged afterwards |
| `ProjectorSafety.CodeMeans` | tools/client/projector.ts:202-430 | the code of an anomaly says what it is: an orphan is about an unknown challenge, a second ending is told from a wrong one, a second payout is one that would pass had nothing been paid |
| `ProjectorSafety.ConflictedExactly` | tools/client/projector.ts:498-508 | on arbitrary logs the status is conflicted if and only if a release is declared but not first, or some log is flagged where it stands |
| `ProjectorSafety.ConflictStays` | tools/client/projector.ts:507-508 | a conflict stays, whatever is logged later |
| `ProjectorSafety.SecondReleaseConflicts` | tools/client/projector.ts:179-195 | two declared releases always make a conflict |
| `ProjectorSafety.ConsistentExactly` | tools/client/projector.ts:498-511 | on arbitrary logs the status is consistent if and only if a release comes first, nothing is flagged, and every challenge seen has ended |
| `ProjectorSafety.BooksAreKept` | tools/client/projector.ts:217-244 | on arbitrary logs an entry has the terms it was created with, counts its creation and every later log about it, and holds the blocks of the first and the last of them |
| `ProjectorExactness.AcceptsExactlyEmittable` | tools/client/projector.ts:243-430 | an event with its parameters in order moves an entry that some contract state shows, if and only if some contract state that shows the same entry emits that very event; one family of disputes apart |
| `ProjectorExactness.HastyDisputeIsAccepted` | tools/client/projector.ts:298-312 | a concrete dispute of that family: its arbitration starts before the proposal it answers, the projector accepts it, and no contract state emits it |
| `ProjectorExactness.CreatesExactlyEmittable` | tools/client/projector.ts:202-235 | a creation with its parameters in order, for an unknown id, is accepted if and only if the contract of some release the projection may have seen emits it |
| `EventSimulation.MoveShown` | tools/client/projector.ts:243-430 | each lifecycle call's event moves the projected entry to the contract's new record without an anomaly |
| `EventSimulation.PullIsShown` | tools/client/projector.ts:316-353 | each payment's event adds one payout wallet and id and no anomaly |
| `EventSimulation.CreateMirrored` | tools/client/projector.ts:202-235 | a creation event adds the projected entry and leaves every other one mirrored |
| `EventSimulation.CommitMirrored` | tools/client/projector.ts:179-430 | the event of any committed call carries the whole projection to the contract's next state |
| `EventSimulation.RunMirrored` | tools/client/projector.ts:506 | induction over runs: the fold of the emitted events mirrors the storage, records, evidence and payouts included |
| `EventSimulation.CountMatches` | tools/client/projector.ts:507 | the number of distinct payout ids is the number of paid entitlements |
| `EventSimulation.ProjectorFollowsContract` | tools/client/projector.ts:497-512 | for every run from deployment the projection of its decoded events has no anomaly, the contract's pause flag, exactly its challenges with state, nonce, acceptor and terms, payout count = paid entitlements, and status consistent exactly when all challenges are terminal |
| `ProjectorIntake.TakeIn` | tools/client/projector.ts:448-496 | the first pass over raw logs with its three collections, the sort and the second pass compute the specified list or its first fault |
| `ProjectorIntake.IntakeAccepts` | tools/client/projector.ts:448-496 | raw logs are taken in exactly when each is well formed and not above the head, one contract and one fork are seen, the head block matches, positions are unique, and within a block later transactions have later positions |
| `ProjectorIntake.IntakeIgnoresOrder` | tools/client/projector.ts:140-146 | whatever order the logs are returned in, they are taken in or not alike and come out as one list |
| `ProjectorIntake.RefusedTruly` | tools/client/projector.ts:448-496 | logs that are refused have the fault they are refused for |
| `ObservedLogs.HeldLogsTakenIn` | tools/client/projector.ts:448-496 | after any synchronizations, with lying providers too, the projector takes the observer's logs in if and only if transactions and positions agree within each block; every other check always passes |
| `ObservedLogs.CarelessLogsRefused` | tools/client/observer.ts:247-351 | one synchronization with a provider that gets that order wrong succeeds, and leaves logs the projector refuses |
| `ObservedLogs.HonestLogsTakenIn` | tools/client/observer.ts:369-374 | with honest views the projector takes in exactly the logs of the final chain, in their order |
| `RawProjection.ProjectProtocolLogs` | tools/client/projector.ts:438-512 | the check of the safe and finalized heads, intake, decoding and folding as they run, each failure included |
| `RawProjection.ProjectionIgnoresOrder` | tools/client/projector.ts:438-512 | the projection does not depend on the order its logs were returned in |
| `EndToEnd.ObservedProjectionShowsContract` | tools/client/observer.ts:369-374 | contract to projection through a reorganizing chain: what an observer with honest views holds projects without failure if and only if the safe and finalized heads fit the observed one, the run changed no pause and every challenge named its terms; and then the projection shows the contract's state |
| `EndToEnd.ChainHeadsFit` | tools/client/projector.ts:102-115 | safe and finalized heads taken from the observed chain, in order, never fail the projection |
| `EndToEnd.QuorumProjectionShowsContract` | tools/client/rpc.ts:185-222 | nor do the heads a quorum agrees on beside the observed one, whatever its minority answered: then only pause changes and challenges without terms stand between the observer's logs and a projection of the contract's state |
| `ClientView.SummarizeAccounting` | tools/client/index.ts:608-638 | the loop succeeds exactly on a valid tuple with at most two valid entitlements whose sums fit, and returns their sums and the three flags; otherwise it names the first fault |
| `ClientView.InspectChallenge` | tools/client/index.ts:701-745 | an inspection succeeds exactly when snapshot (release constants and roles), tuple, boundary and entitlements all pass; otherwise it reports the first fault, and when release and tuple, read side by side, are both at fault, one of theirs |
| `ClientInspection.FlagsMean` | tools/client/index.ts:608-638 | each accounting flag, as an equivalence over deposit, liability, state and the amounts of the entitlements read |
| `ClientInspection.InspectsExactly` | tools/client/index.ts:701-745 | an inspection succeeds if and only if the tuple is accepted beside a valid release, the entitlements read are valid, and what is owed, claimable and paid adds up |
| `ClientInspection.InspectionIsHistory` | tools/client/index.ts:701-745 | in any release: some legal history leaves tuple and entitlements in storage, with nonzero hashes, if and only if the inspection succeeds, the release vouches for the tuple, and each wallet holds the share the end of the challenge awards it |
| `ClientInspection.LootIsInspected` | tools/client/index.ts:608-638 | a concrete inspection that succeeds although the loser holds the winnings, which no history leaves behind |
| `ClientAcceptance.SevenChecks` | tools/client/index.ts:327-540 | the long check list, tried in order, finds nothing exactly when its seven groups do |
| `ClientAcceptance.ReachableDecodes` | tools/client/index.ts:542-573 | in a reachable state any id's tuple decodes, exactly when its hashes are nonzero |
| `ClientAcceptance.ReachableEntitlement` | tools/client/index.ts:585-606 | in a reachable state every wallet's entitlement passes the client |
| `ClientAcceptance.ReachableSummary` | tools/client/index.ts:608-638 | for a reachable challenge all three accounting flags come out true |
| `ClientAcceptance.DeploymentMatchesClient` | tools/client/index.ts:667-699 | constructor and client draw the same line: a deployment is accepted exactly when the token has code and the client accepts the snapshot, its constants and its roles |
| `ClientAcceptance.ReachableInspected` | tools/client/index.ts:701-745 | at the end of every run of a deployed release, inspecting any challenge succeeds exactly when its hashes are nonzero |
| `ClientExactness.AcceptsExactlyHistories` | tools/client/index.ts:327-540 | beside a valid release, the client accepts a tuple exactly when its hashes are nonzero and some legal history of a release with those roles leaves it in storage |
| `ClientExactness.SoundIsReachable` | tools/client/index.ts:280-540 | for every tuple without a fault, and every release whose hashes are the tuple's and whose challenger signed a permit for it, there is a run of that release that ends in it: the history is rebuilt stage by stage |
| `ClientExactness.ReachableExactly` | tools/client/index.ts:327-540 | in any one release: the tuples with nonzero hashes that some legal history leaves there are exactly those the client accepts and the release's own hashes and the challenger's permit vouch for |
| `JsNumber.ExactRange` | tools/model/challenge-model.mjs:78-118 | sums of doubles are exact up to 2^53 units and already wrong one above |
| `JsNumber.RoundingIgnoresUnit` | tools/model/challenge-model.mjs:78-118 | counting in halves of a unit rounds the same number to the same number, so fractions are whole numbers of a small enough unit |
| `ChallengeModel.ChallengeModel.Apply` | tools/model/challenge-model.mjs:62-76 | in place: an accepted action leaves the specified state, a refused one every field as it was, a throw from the check escapes |
| `ChallengeModel.ChallengeModel.AssertInvariants` | tools/model/challenge-model.mjs:78-118 | the loop throws for the first violated challenge in insertion order or for the aggregate |
| `ChallengeModel.ChallengeModel.Perform` | tools/model/challenge-model.mjs:128-163 | the dispatch performs the step of its action |
| `ChallengeModel.ChallengeModel.Consume` | tools/model/challenge-model.mjs:359-369 | the in-place consumption of an entitlement, rounded sums included |
| `ModelSafety.ApplyIsSafe` | tools/model/challenge-model.mjs:62-118 | for money counted in units of any 2^-k: from a state in order, an action whose true debt fits 2^53 units never throws, keeps the order, and a refusal changes nothing |
| `ModelSafety.RunKeepsOk` | tools/model/challenge-model.mjs:62-118 | for any unit 2^-k, on every sequence of actions whose debt stays within 2^53 units the invariants never throw |
| `ModelSafety.OverflowThrows` | tools/model/challenge-model.mjs:78-118 | in every unit five concrete actions, with a debt of 2^53 + 1 units, after which the invariant check throws |
| `ModelSafety.FiveThrows` | tools/model/challenge-model.mjs:78-118 | any three admissible stakes whose running and recomputed totals are rounded apart make the check throw within five actions |
| `ModelSafety.FractionsThrow` | tools/model/challenge-model.mjs:177-217 | stakes of 0.1, 0.2 and 0.3, which create lets through, make the check throw with a debt that stays below 1 |
| `ModelSafety.SafeExactlyUpTo` | tools/model/challenge-model.mjs:78-118 | for every k: the invariants never throw on the runs whose stakes are multiples of 2^-k and whose debt stays within a bound, if and only if the bound is at most 2^53 such units |
| `ModelSafety.ViolatedExactly` | tools/model/challenge-model.mjs:78-118 | where no sum is rounded, the check passes if and only if every challenge is accounted for, shares of winners and of voids included, and the total is the sum of what is owed |
| `ModelRefusals.ActsExactly` | tools/model/challenge-model.mjs:128-369 | an action gets past the guards if and only if it gives cause for none of the rejections listed for it, each stated by its meaning; and a rejected action is rejected for a code it gives cause for |
| `ModelRefusals.ThrowsTell` | tools/model/challenge-model.mjs:62-76 | a refusal changes nothing, and a throw is an atomicity failure if and only if the model looks different afterwards |
| `ModelRefinement.CommitRefined` | tools/model/challenge-model.mjs:128-369 | every committed call within the model's range (stakes, being whole, in units of 1) is an accepted model action that abstracts the contract's next state |
| `ModelRefinement.RunRefined` | tools/model/challenge-model.mjs:51-163 | every legal run of the contract in that range is a run of the model ending in its abstraction |
| `ModelRefinement.ModelAcceptsWhatCommits` | tools/model/challenge-model.mjs:165-369 | conversely, a call whose action the model accepts commits, or is refused for something the model leaves out, listed per call |
| `ReorgSafeObserver.ReorgSafeObserver.Create` | tools/client/observer.ts:198-226 | construction succeeds exactly on valid limits and starts empty |
| `ReorgObserver.ConfigMeans` | tools/client/observer.ts:198-226 | the limits an observer can be given: positive, capped, and more headers kept than a reorganization may be deep |
| `ReorgSafeObserver.ReorgSafeObserver.SyncOnce` | tools/client/observer.ts:247-351 | a synchronization changes the fields only when it succeeds; every failure leaves head, headers and logs untouched |
| `ReorgSafeObserver.ReorgSafeObserver.Replace` | tools/client/observer.ts:272-351 | the stretch above the ancestor is read, checked and swapped in as a whole |
| `ReorgSafeObserver.ReorgSafeObserver.FindCommonAncestor` | tools/client/observer.ts:376-396 | the loop is the recursive search, traversal limit and error order included |
| `ReorgSafeObserver.ReorgSafeObserver.LoadRange` | tools/client/observer.ts:398-417 | the loop loads the linked run of headers or stops at the first broken link |
| `ReorgSafeObserver.ReorgSafeObserver.AddLogs` | tools/client/observer.ts:299-323 | the intake of fetched logs and the count of new ones |
| `ReorgSafeObserver.ReorgSafeObserver.DropLogs` | tools/client/observer.ts:280-286 | exactly the logs above the ancestor go, and are counted |
| `ReorgSafeObserver.ReorgSafeObserver.PruneHeaders` | tools/client/observer.ts:335-338 | exactly the headers below the window go |
| `ReorgSafeObserver.ReorgSafeObserver.Reconcile` | tools/client/observer.ts:353-367 | succeeds if and only if a head is held, or one synchronization gives one, the state can be read for it, and the last read gives that very header; otherwise it fails as the step that failed; an answer pairs state, head and logs of one observation |
| `ObserverSafety.SyncKeepsAnchored` | tools/client/observer.ts:247-351 | with any provider, lying or not, a success keeps headers a parent-linked run up to the head and all logs on one chain that ends there |
| `ObserverSafety.AlwaysAnchored` | tools/client/observer.ts:247-351 | so does every sequence of attempts, failed ones included |
| `ObserverSafety.SizesAddUp` | tools/client/observer.ts:341-350 | the log count changes by added minus removed, logs below the stretch stay, and head and result agree |
| `ObserverSafety.RisingWindow` | tools/client/observer.ts:335-338 | a head no lower than the last keeps every header the limit allows |
| `ObserverSafety.RisingRunsKeepWindow` | tools/client/observer.ts:335-338 | on runs whose head number never falls the window stays full, whatever the provider says |
| `ObserverHonest.HonestSearch` | tools/client/observer.ts:376-396 | on one honest view the search returns the highest shared stored block, and hits its traversal limit exactly when the walk is longer than the limit |
| `ObserverHonest.WithinDepthIsWithinTraversal` | tools/client/observer.ts:376-396 | a shared stored block within the reorg depth is always found before the limit |
| `ObserverHonest.SearchFindsFork` | tools/client/observer.ts:376-396 | with a full window and a fork no deeper than the limit, the ancestor is the highest block both whole chains share |
| `ObserverHonest.HonestSync` | tools/client/observer.ts:247-351 | a success that saw one chain throughout shows exactly that chain, whatever was held before |
| `ObserverHonest.AlwaysFaithful` | tools/client/observer.ts:247-351 | after any attempts whose successes each saw one chain, the observer shows the last of them |
| `ObserverHonest.IncrementalIsFresh` | tools/client/observer.ts:247-351 | the logs and head held after any reorganizations and failures equal those of a first scan of the final chain |
| `ObserverHonest.HonestSyncSucceeds` | tools/client/observer.ts:247-351 | an honest synchronization succeeds if and only if span, walk, depth, answer and history are within the limits |
| `ObserverFailures.SyncFailsTruly` | tools/client/observer.ts:247-417 | with any provider, a synchronization that fails names something that is there: a limit passed, a header unread or out of line, two reads that differ, or a fetched log that does not fit its fields, its block or another log |
| `Quorum.QuorumHeadByInsertion` | tools/client/rpc.ts:141-183 | the map filled in provider order and sorted afterwards gives the specified head |
| `Quorum.QuorumHeadByKey` | tools/observer/verify_receipt.py:209-245 | keys sorted first and groups built in that order give the same head |
| `QuorumSafety.AtMostOneWinner` | tools/client/rpc.ts:162-163 | under a strict majority at most one group wins, and a block's group wins exactly when enough providers voted for it |
| `QuorumSafety.AgreesExactly` | tools/client/rpc.ts:162-183 | a head agrees on a block if and only if the threshold supports it, and then lists exactly its voters, sorted |
| `QuorumSafety.HeadPartitions` | tools/client/rpc.ts:146-183 | every provider stands in exactly one of supporters, dissenters and unavailable, by how it voted, each list strictly sorted |
| `QuorumSafety.StatusMeans` | tools/client/rpc.ts:141-183 | a head agrees when a threshold voted for one block, is conflicted when none did and two blocks were voted for, and unavailable otherwise; its groups are listed by rank |
| `QuorumSafety.ReportStatusMeans` | tools/client/rpc.ts:185-222 | a report agrees when all three heads do and is conflicted when one of them is |
| `QuorumSafety.MajoritiesMeet` | tools/client/rpc.ts:192-194 | two majorities over the same providers share one |
| `QuorumSafety.AgreedPair` | tools/client/rpc.ts:116-124 | any two agreed heads were reported together by one healthy provider |
| `QuorumSafety.AgreedReportIsCoherent` | tools/client/rpc.ts:79-124 | when all three heads agree, neighbouring agreed heads can stand on one chain and the projector's finality check takes the triple |
| `Finality.CoherentExactly` | tools/client/projector.ts:89-100 | two headers are coherent if and only if some run of headers, each the parent of the next, leads from the older to the newer |
| `RpcQuorum.CompareRpcQuorum` | tools/client/rpc.ts:185-222 | a comparison fails on exactly the listed input faults, in their order, and else reports the three heads of the sorted snapshots |
| `RpcQuorum.SnapshotIsHealthy` | tools/client/rpc.ts:86-128 | whatever a provider answers, a snapshot without an error has three heads, neighbours coherent |
| `RpcQuorum.SnapshotExactly` | tools/client/rpc.ts:86-128 | a snapshot has no error if and only if its provider was sincere: tags supported, all headers in range, number and second read agreeing, heads coherent; and then it carries the very headers given |
| `RpcQuorum.SnapshotErrorMeans` | tools/client/rpc.ts:86-128 | what each of the eight errors of a snapshot says of the answers given |
| `RpcQuorum.InputsExactly` | tools/client/rpc.ts:185-204 | a comparison starts for two to sixteen differently named providers and a threshold of more than half and no more than all of them |
| `QuorumAgreement.AgreesOnGiven` | tools/client/rpc.ts:141-222 | a head of a comparison agrees on a block if and only if a threshold of sincere providers gives it |
| `QuorumAgreement.HonestThresholdAgrees` | tools/client/rpc.ts:141-222 | when a threshold of providers answers alike and sincerely, the comparison agrees on their three heads, whatever the others answer |
| `Receipt.BuildRpcQuorum` | tools/observer/receipt.mjs:177-196 | the receipt builder's quorum of the normalized, sorted providers, or the first fault |
| `Receipt.BuildQuorumByKey` | tools/observer/verify_receipt.py:247-270 | the Python verifier computes the same quorum and faults |
| `QuorumAgreement.ReceiptIgnoresOrder` | tools/observer/receipt.mjs:177-196 | permuting the providers of a receipt changes neither acceptance nor quorum |
| `QuorumAgreement.ComparisonIgnoresOrder` | tools/client/rpc.ts:185-222 | permuting the providers of a comparison changes nothing in the report |
| `QuorumAgreement.ReceiptMatchesComparison` | tools/observer/receipt.mjs:141-196 | the snapshots of a comparison, written down in any order, are a valid receipt input with the comparison's own heads and status |
| `QuorumAgreement.NormalExactly` | tools/observer/receipt.mjs:112-139 | the provider records a receipt may hold are exactly those that the snapshot of some provider is written as |
| `QuorumAgreement.RecordsExactly` | tools/observer/receipt.mjs:177-196 | the lists of records that make a receipt are exactly those that the snapshots of some valid comparison are written as |
| `QuorumAgreement.ComparisonIsCoherent` | tools/client/projector.ts:102-115 | the agreed triple of any comparison passes the projector's finality check |
| `QuorumAgreement.ReceiptHeadMeans` | tools/observer/receipt.mjs:220-235 | a receipt head is supported under a tag exactly when the threshold reported it, and without one exactly when some provider did |
| `TextOrder.TextsTransitive` | rust/portable-verifier/src/lib.rs:388-393 | the codepoint order used for keys and texts is transitive |
| `Decimal.UnsignedCompares` | rust/portable-verifier/src/lib.rs:1199-1205 | comparing by trimmed length and then by text compares the natural numbers |
| `Decimal.ComparisonsAgree` | rust/portable-verifier/src/lib.rs:1188-1227 | on all accepted numerals, integer or decimal, with leading and trailing zeros and minus zero, the digit walk gives the sign of the exact rational difference |
| `Decimal.NumericOrder` | rust/portable-verifier/src/lib.rs:1207-1227 | hence a total order up to equality: reflexive, antisymmetric in its answers, transitive, and equal numerals interchangeable |
| `Decimal.NumeralMeans` | rust/portable-verifier/src/lib.rs:1188-1227 | a numeral written out of sign, whole digits and fraction is read as just that number over a power of ten |
| `Condition.EvaluateNode` | rust/portable-verifier/src/lib.rs:1362-1443 | the early-return loops compute the recursive evaluation |
| `Condition.ValuesAgree` | tools/portable/verify_portable.py:241-258 | on validated values both comparisons give the same sign or both refuse |
| `Condition.ValidExactly` | rust/portable-verifier/src/lib.rs:559-610 | the values validation lets through, kind by kind: signed decimal writings of the natural numbers within 78 characters, with a fraction within 128, timestamps of up to 20 digits, texts up to 4096, hashes of 64 hexadecimal digits |
| `Condition.OrderMeans` | rust/portable-verifier/src/lib.rs:1233-1299 | values compare exactly when they are of one kind, numbers being one; flags, timestamps and texts in their own order |
| `Condition.CaselessCompares` | rust/portable-verifier/src/lib.rs:1284-1289 | two hashes compare equal if and only if they differ in nothing but the case of letters; else the first other difference decides, by the small letters there |
| `Condition.ComparisonMeans` | rust/portable-verifier/src/lib.rs:1330-1443 | each of the six relations between two numbers holds exactly when it holds of the rationals they stand for |
| `Condition.BetweenMeans` | rust/portable-verifier/src/lib.rs:1330-1443 | a number lies between two others, bounds included or not, exactly when it does as a rational; bounds the wrong way round are refused |
| `Condition.ConnectivesMean` | rust/portable-verifier/src/lib.rs:1362-1443 | where every part has a verdict, all, any and not mean what they say |
| `Condition.RefusalMeans` | rust/portable-verifier/src/lib.rs:1301-1330 | a comparison without a verdict lacks an observation or compares values of different kinds, and says which |
| `Condition.NodesAgree` | tools/portable/verify_portable.py:268-293 | on validated conditions and observations both evaluators give the same boolean or both refuse |
| `Condition.MoreObservations` | rust/portable-verifier/src/lib.rs:1362-1443 | a verdict once reached stays under any added observations, despite short-circuiting |
| `Condition.MeaningDecides` | rust/portable-verifier/src/lib.rs:1233-1299 | values of the same meaning compare alike with every value on either side |
| `Condition.MeaningIs` | rust/portable-verifier/src/lib.rs:1233-1299 | values cannot be told apart exactly when they are equal rationals, instants, texts or flags, or hashes equal up to case |
| `Condition.VerdictDependsOnMeaning` | rust/portable-verifier/src/lib.rs:1330-1443 | rewriting observed numerals without changing their value never changes a verdict |
| `JsonText.ScanQuoted` | rust/portable-verifier/src/lib.rs:382-386 | unescaping a quoted string gives it back and stops right behind it |
| `JsonText.EscapeIsShortest` | rust/portable-verifier/src/lib.rs:382-386 | the escape of a character is two characters long for the seven that have a short one, six for the other control characters, one for all else; no spelling of it is shorter, and none as short without capital hexadecimal digits is another |
| `JsonText.PrintParses` | rust/portable-verifier/src/lib.rs:399-465 | a parser undoes the canonical printer, with anything behind |
| `JsonText.PrintIsPrefixFree` | rust/portable-verifier/src/lib.rs:399-465 | different values print differently and none is a prefix of another |
| `JsonText.PrintIsShortest` | rust/portable-verifier/src/lib.rs:399-465 | of all texts without spaces that are read as a value, in any spelling section 7 of RFC 8259 allows for its strings, the canonical one is the shortest |
| `CanonicalJson.CanonicalizeInner` | rust/portable-verifier/src/lib.rs:399-465 | the pushes to the output and the in-place sort compute the specified text or the first error |
| `CanonicalJson.NormalizeKeys` | rust/portable-verifier/src/lib.rs:431-446 | the loop finds the first key that is too long or collides after normalization |
| `CanonicalMeaning.AcceptsExactly` | rust/portable-verifier/src/lib.rs:399-465 | success exactly on values free of numbers, within depth and length limits, with keys distinct after normalization |
| `CanonicalMeaning.CanonicalIsPrint` | rust/portable-verifier/src/lib.rs:399-465 | the text is the print of the value with strings normalized and members sorted |
| `CanonicalMeaning.CanonicalParses` | rust/portable-verifier/src/lib.rs:399-465 | parsing the text gives back the normalized value |
| `CanonicalMeaning.CommitmentsAreInjective` | rust/portable-verifier/src/lib.rs:471-486 | two preimages are equal exactly when domain and normalized value are |
| `CanonicalMeaning.MemberOrderIsIrrelevant` | rust/portable-verifier/src/lib.rs:431-463 | permuting members changes neither acceptance nor text |
| `CanonicalMeaning.NormalizedTwice` | rust/portable-verifier/src/lib.rs:369-380 | normalizing is idempotent on whole values |
| `CanonicalMeaning.CanonicalIsStable` | rust/portable-verifier/src/lib.rs:467-469 | canonicalizing a canonical text again gives the same text, when the normalized strings still fit the limit |
| `CanonicalMeaning.CanonicalizersAgree` | tools/portable/verify_portable.py:64-84 | on everything the Rust canonicalizer accepts the Python one writes the same text |
| `CanonicalMeaning.CanonicalizersPart` | tools/portable/verify_portable.py:64-84 | the Rust canonicalizer accepts exactly what the Python one accepts within depth and length limits |
| `CanonicalMeaning.LimitsAreReached` | rust/portable-verifier/src/lib.rs:399-465 | the limits of 64 levels and 1048576 characters are reached and not passed, and each refusal has its code |
| `JsonIntake.RejectNumbers` | rust/portable-verifier/src/lib.rs:336-363 | the early-return loops find the first number or overlong nesting in document order |
| `JsonIntake.RejectsExactly` | rust/portable-verifier/src/lib.rs:336-363 | the check passes exactly the values without numbers and within the depth limit, counted over the whole tree |
| `JsonIntake.LimitIsReached` | rust/portable-verifier/src/lib.rs:336-363 | the limit of 64 levels is reached and not passed |
| `JsonIntake.ParsedFailsOnlyOnKeys` | rust/portable-verifier/src/lib.rs:318-334 | a parsed value that passed is canonicalized if and only if normalization keeps the keys of every object apart and within the length limit; depth and numbers never come up again |
| `EvidenceWalk.BoundedEvidence` | tools/observer/receipt.mjs:247-274 | the explicit-stack walk terminates and accepts exactly when recursive node count, depth, string length and total bytes are in limits and no number occurs |
| `EvidenceWalk.BoundedEvidencePy` | tools/observer/verify_receipt.py:329-353 | the Python walk, which pushes in another order, accepts the same set |
| `EvidenceWalk.PopMeasure` | tools/observer/receipt.mjs:247-274 | popping a value and pushing its children keeps the recursive measures of the stack |
| `EvidenceWalk.PartsAreBounded` | tools/observer/receipt.mjs:247-274 | every part of accepted evidence is accepted evidence |
| `EvidenceWalk.LimitsAreReached` | tools/observer/receipt.mjs:247-274 | each limit is reached and not passed: 64 levels, two million values, 16384 bytes a string, 67108864 bytes in all |
| `AbiString.DecodeReleaseDeclared` | tools/client/events.ts:327-339 | the loop over the four strings, framing and UTF-8 of each, computes the recursive walk and its texts, or refuses as it does |
| `AbiString.AcceptedIsCanonical` | tools/client/events.ts:304-339 | any data that passes the framing checks equals, byte for byte, the encoding of its strings and words |
| `AbiString.DecodesEncoded` | tools/client/events.ts:304-339 | the framing undoes the encoder, for any four strings of bytes |
| `AbiString.AcceptsExactlyEncodings` | tools/client/events.ts:304-339 | the data that passes the framing checks are the encodings and nothing else |
| `AbiString.DeclaredExactly` | tools/client/events.ts:296-339 | the data read as four texts and eight words are their encodings, each text in UTF-8 with a byte order mark before it or none (one at least, when the text starts with that character), and nothing else |
| `Utf8.DecodesEncodings` | tools/client/events.ts:296-302 | strict decoding gives a text exactly on the UTF-8 encoding of that text: no overlong form, surrogate or torn character is read |
| `Utf8.TextExactly` | tools/client/events.ts:296-302 | the text decoder reads a text off two spellings: its encoding after a byte order mark, and its bare encoding unless that starts like a mark |

## Left out

- Token internals, reentrancy and callbacks: every entry point but `setPaused` is guarded against reentrancy, and a call is one step here.
- Payloads of custom errors and the text of messages: an error is its kind.
- Cryptography: digests, permits' typed data and signature recovery are functions of the release.
- Bookkeeping text of the projector: `lastEvent` and the JSON form of a record; event count and first and last block are kept.
- `finalityOf` and the fields of the evidence record that copy their inputs.
- Storage layout: the terms of a challenge and its records are grouped in nested values instead of one flat struct.
- Times in the abstract machine are exact integers: fractional times, and times beyond 2^53, which JavaScript would round, are not covered. Its wallets and hashes are numbers of 160 and 256 bits, zero standing for a missing value.
- Stakes that are not finite numbers: the guard of the abstract machine rejects the infinities but lets NaN through, and a string would be concatenated; `Create` takes a number of units.
- The hexadecimal form of logs: topics are numbers and data is bytes, so malformed hex text is not covered.
- Sharing of one pending synchronization between callers, the sorted `logs` getter and `evidence` of the observer: awaits matter only as points where the view may change.
- Hex patterns and letter case of addresses and hashes outside conditions: they are numbers, so two spellings of one value are one value.
- Patterns of provider names and the text of block keys: names are ordered tokens and groups are keyed by the block itself.
- `localeCompare`, `<` and Python's order on names and block keys: one arbitrary strict order on blocks and one on names stand for all, so a difference between these orders in tools/observer/receipt.mjs:153 and 323 is not captured.
- Receipts beyond quorum, head and evidence bounds: release checks, receipt hash, commitment lists.
- Envelopes of terms and evidence, locale, media-type and timestamp patterns: the Rust and Python validators differ there on multi-part locales (rust/portable-verifier/src/lib.rs:636-646) and on an empty size (rust/portable-verifier/src/lib.rs:1172-1178), and no agreement is stated for them.
- The JSON readers of serde and Python: the parser here reads canonical text, and a canonicalizer starts from a parsed value with distinct keys.
- Unpaired surrogates: text is a sequence of Unicode scalar values, so a JavaScript string that is none has no counterpart here.
- InspectChallenge: release and tuple are read side by side, so when both are at fault the order of the answers decides which fault is reported; the contract allows either. Every other outcome is fixed.
- BoundedEvidence: does not say which fault is named first when evidence breaks several limits, because the two walks visit values in different orders; acceptance is exact.
- `compareRpcHeads`, release manifests, authority policy, vector generators and test runners are not modelled.
