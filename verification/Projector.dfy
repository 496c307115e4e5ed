/** The event projector: challenge states rebuilt from decoded logs alone, with an anomaly for every log that does
    not fit. */
module Projector {
  import opened Wrappers
  import opened ProtocolTypes

  datatype AnomalyCode = OrphanEvent | InvalidTransition | DuplicateTerminal | ReleaseConflict | DuplicatePayout

  datatype Anomaly = Anomaly(code: AnomalyCode, challengeId: Option<Bytes32>)

  datatype ProjectedChallenge = ProjectedChallenge(
    terms: Terms,
    state: LifecycleState,
    eventCount: nat,
    firstEventBlock: nat,
    lastEventBlock: nat,
    acceptanceNonce: nat,
    acceptingWallet: Option<Address>,
    proposalEvidenceHash: Option<Bytes32>,
    proposalOutcome: Option<Outcome>,
    proposalReasonCode: Option<nat>,
    proposalDisputeDeadline: Option<nat>,
    disputeEvidenceHash: Option<Bytes32>,
    disputeOutcome: Option<Outcome>,
    evidenceHashes: seq<Bytes32>,
    payoutIds: set<Bytes32>,
    payoutWallets: set<Address>)

  datatype Logged = Logged(blockNumber: nat, event: Event)

  datatype Projection = Projection(
    challenges: map<Bytes32, ProjectedChallenge>,
    anomalies: seq<Anomaly>,
    release: Option<Event>,
    paused: Option<bool>)

  const EMPTY := Projection(map[], [], None, None)

  type EntitlementIds = (Bytes32, Address) -> Bytes32

  /** What one log does to one known challenge. */
  datatype Verdict = Changed(challenge: ProjectedChallenge) | Flagged(code: AnomalyCode)

  predicate OverlapsReleaseBoundary(wallet: Address, release: Option<Event>) {
    match release
    case Some(ReleaseDeclared(_, _, escrow, token, _, resolver, arbiter, _)) =>
      wallet in {escrow, token, resolver, arbiter}
    case _ => false
  }

  function NewProjected(block: nat, terms: Terms, nonce: nat): ProjectedChallenge {
    ProjectedChallenge(terms, Open, 1, block, block, nonce, None, None, None, None, None, None, None, [], {}, {})
  }

  function AddEvidence(hashes: seq<Bytes32>, hash: Bytes32): seq<Bytes32> {
    if hash in hashes then hashes else hashes + [hash]
  }

  /** The wallet that wins with the given outcome, as far as the projection knows it. */
  function ExpectedWinner(c: ProjectedChallenge, outcome: Outcome): Option<Address> {
    if (c.terms.challengerSide == SideA && outcome == OutcomeA) || (c.terms.challengerSide == SideB && outcome == OutcomeB)
    then Some(c.terms.challengerWallet)
    else c.acceptingWallet
  }

  function OnAccepted(release: Option<Event>, c: ProjectedChallenge, e: Event): Verdict
    requires e.ChallengeAccepted?
  {
    if c.state != Open then Flagged(InvalidTransition)
    else if
      || e.acceptingWallet == c.terms.challengerWallet
      || OverlapsReleaseBoundary(e.acceptingWallet, release)
      || e.acceptingSide != (if c.terms.challengerSide == SideA then SideB else SideA)
      || e.consumedNonce != c.acceptanceNonce
      || e.stakeAmount != c.terms.stakeAmount
      || e.permitExpiresAt <= c.terms.createdAt
      || e.permitExpiresAt > c.terms.acceptanceDeadline
    then Flagged(InvalidTransition)
    else Changed(c.(acceptingWallet := Some(e.acceptingWallet), state := Active))
  }

  function OnOpenRefund(c: ProjectedChallenge, challenger: Address, amount: nat, next: LifecycleState): Verdict {
    if c.state != Open || challenger != c.terms.challengerWallet || amount != c.terms.stakeAmount then
      Flagged(InvalidTransition)
    else Changed(c.(state := next))
  }

  function OnProposed(release: Option<Event>, c: ProjectedChallenge, e: Event): Verdict
    requires e.OutcomeProposed?
  {
    var proposedAt: int := e.disputeDeadline - c.terms.disputeWindowSeconds;
    if c.state != Active then Flagged(InvalidTransition)
    else if
      || (release.Some? && release.value.ReleaseDeclared? && e.resolver != release.value.resolver)
      || e.disputeDeadline < c.terms.observationTime + c.terms.disputeWindowSeconds
      || e.disputeDeadline >= c.terms.proposalDeadline + c.terms.disputeWindowSeconds
      || (e.assertedOutcome == OutcomeVoid && e.reasonCode != TERMS_UNRESOLVABLE
          && proposedAt < c.terms.sourceCorrectionCutoff)
    then Flagged(InvalidTransition)
    else
      Changed(c.(proposalEvidenceHash := Some(e.evidenceHash), proposalOutcome := Some(e.assertedOutcome),
                 proposalReasonCode := Some(e.reasonCode), proposalDisputeDeadline := Some(e.disputeDeadline),
                 evidenceHashes := c.evidenceHashes + [e.evidenceHash], state := Proposed))
  }

  function OnDisputed(c: ProjectedChallenge, e: Event): Verdict
    requires e.OutcomeDisputed?
  {
    if c.state != Proposed then Flagged(InvalidTransition)
    else if
      || c.acceptingWallet == None
      || (e.disputingWallet != c.terms.challengerWallet && Some(e.disputingWallet) != c.acceptingWallet)
      || Some(e.parentEvidenceHash) != c.proposalEvidenceHash
      || Some(e.assertedOutcome) == c.proposalOutcome
      || e.arbitrationStart < c.terms.sourceCorrectionCutoff
      || c.proposalDisputeDeadline == None
      || e.arbitrationStart >= c.proposalDisputeDeadline.value
      || e.arbitrationDeadline - e.arbitrationStart != c.terms.arbitrationWindowSeconds
    then Flagged(InvalidTransition)
    else
      Changed(c.(disputeEvidenceHash := Some(e.evidenceHash), disputeOutcome := Some(e.assertedOutcome),
                 evidenceHashes := AddEvidence(c.evidenceHashes, e.evidenceHash), state := Disputed))
  }

  function OnPayout(ids: EntitlementIds, c: ProjectedChallenge, e: Event): Verdict
    requires e.WinningsClaimed? || e.PrincipalRefunded?
  {
    var fitsState :=
      if e.WinningsClaimed? then c.state == ResolvedA || c.state == ResolvedB
      else c.state in {Cancelled, Expired, Void} && e.originState == c.state;
    var expectedAmount := if e.WinningsClaimed? then c.terms.stakeAmount * 2 else c.terms.stakeAmount;
    var fitsRecipient :=
      if e.WinningsClaimed? then
        Some(e.wallet) == ExpectedWinner(c, if c.state == ResolvedA then OutcomeA else OutcomeB)
      else
        e.wallet == c.terms.challengerWallet || (c.state == Void && Some(e.wallet) == c.acceptingWallet);
    if e.entitlementId != ids(e.challengeId, e.wallet) then Flagged(InvalidTransition)
    else if !fitsState then Flagged(InvalidTransition)
    else if e.amount != expectedAmount || !fitsRecipient then Flagged(InvalidTransition)
    else if e.entitlementId in c.payoutIds || e.wallet in c.payoutWallets then Flagged(DuplicatePayout)
    else Changed(c.(payoutIds := c.payoutIds + {e.entitlementId}, payoutWallets := c.payoutWallets + {e.wallet}))
  }

  function OnResolved(release: Option<Event>, c: ProjectedChallenge, e: Event): Verdict
    requires e.ChallengeResolved?
  {
    var uncontested := e.resolutionPath == UncontestedResolution;
    if Terminal(c.state) then Flagged(DuplicateTerminal)
    else if c.state != (if uncontested then Proposed else Disputed) then Flagged(InvalidTransition)
    else if
      || Some(e.parentEvidenceHash) != (if uncontested then Some(ZERO_HASH) else c.disputeEvidenceHash)
      || (uncontested && Some(e.finalEvidenceHash) != c.proposalEvidenceHash)
      || (uncontested
          && (Some(e.finalOutcome) != c.proposalOutcome || Some(e.reasonCode) != c.proposalReasonCode))
      || Some(e.winnerWallet) != ExpectedWinner(c, e.finalOutcome)
      || e.claimAmount != c.terms.stakeAmount * 2
      || (!uncontested && release.Some? && release.value.ReleaseDeclared? && e.finalizedBy != release.value.arbiter)
    then Flagged(InvalidTransition)
    else
      Changed(c.(state := match e.finalOutcome
                          case OutcomeA => ResolvedA
                          case OutcomeB => ResolvedB
                          case OutcomeVoid => Void,
                 evidenceHashes := AddEvidence(c.evidenceHashes, e.finalEvidenceHash)))
  }

  function OnVoided(release: Option<Event>, c: ProjectedChallenge, e: Event): Verdict
    requires e.ChallengeVoided?
  {
    var expectedState := match e.voidPath
      case UncontestedVoid => Proposed
      case ArbiterVoid => Disputed
      case ArbitrationTimeoutVoid => Disputed
      case ProposalTimeoutVoid => Active;
    if Terminal(c.state) then Flagged(DuplicateTerminal)
    else if c.state != expectedState then Flagged(InvalidTransition)
    else if
      || e.refundAmountEach != c.terms.stakeAmount
      || (e.voidPath == UncontestedVoid && Some(e.finalEvidenceHash) != c.proposalEvidenceHash)
      || Some(e.parentEvidenceHash) != (if e.voidPath == ArbiterVoid then c.disputeEvidenceHash else Some(ZERO_HASH))
      || (e.voidPath == UncontestedVoid
          && (c.proposalOutcome != Some(OutcomeVoid) || Some(e.voidReason) != c.proposalReasonCode))
      || (e.voidPath == ArbiterVoid && release.Some? && release.value.ReleaseDeclared?
          && e.materializedBy != release.value.arbiter)
    then Flagged(InvalidTransition)
    else
      Changed(c.(state := Void,
                 evidenceHashes := if e.finalEvidenceHash == ZERO_HASH then c.evidenceHashes
                                   else AddEvidence(c.evidenceHashes, e.finalEvidenceHash)))
  }

  predicate IsGlobal(e: Event) {
    e.ReleaseDeclared? || e.PauseStatusChanged?
  }

  /** What a log says of a challenge the projection knows. */
  function OnChallenge(ids: EntitlementIds, release: Option<Event>, c: ProjectedChallenge, e: Event): Verdict
    requires !IsGlobal(e) && !e.ChallengeCreated?
  {
    match e
    case AcceptanceNonceAdvanced(_, wallet, previous, next) =>
      if c.state != Open || wallet != c.terms.challengerWallet || previous != c.acceptanceNonce then
        Flagged(InvalidTransition)
      else Changed(c.(acceptanceNonce := next))
    case ChallengeAccepted(_, _, _, _, _, _) => OnAccepted(release, c, e)
    case ChallengeCancelled(_, challenger, amount) => OnOpenRefund(c, challenger, amount, Cancelled)
    case ChallengeExpired(_, _, challenger, amount) => OnOpenRefund(c, challenger, amount, Expired)
    case OutcomeProposed(_, _, _, _, _, _) => OnProposed(release, c, e)
    case OutcomeDisputed(_, _, _, _, _, _, _, _) => OnDisputed(c, e)
    case WinningsClaimed(_, _, _, _) => OnPayout(ids, c, e)
    case PrincipalRefunded(_, _, _, _, _) => OnPayout(ids, c, e)
    case ChallengeResolved(_, _, _, _, _, _, _, _, _) => OnResolved(release, c, e)
    case ChallengeVoided(_, _, _, _, _, _, _) => OnVoided(release, c, e)
  }

  function Flag(p: Projection, code: AnomalyCode, id: Option<Bytes32>): Projection {
    p.(anomalies := p.anomalies + [Anomaly(code, id)])
  }

  function Counted(c: ProjectedChallenge, block: nat): ProjectedChallenge {
    c.(eventCount := c.eventCount + 1, lastEventBlock := block)
  }

  function Project(ids: EntitlementIds, p: Projection, log: Logged): Projection {
    var e := log.event;
    match e
    case ReleaseDeclared(_, _, _, _, _, _, _, initialPaused) =>
      (if p.release.Some? then Flag(p, ReleaseConflict, None) else p.(release := Some(e)))
        .(paused := Some(initialPaused))
    case PauseStatusChanged(_, previous, next) =>
      (if p.paused.Some? && p.paused.value != previous then Flag(p, InvalidTransition, None) else p)
        .(paused := Some(next))
    case ChallengeCreated(id, terms, nonce) =>
      if id in p.challenges || OverlapsReleaseBoundary(terms.challengerWallet, p.release) then
        Flag(p, InvalidTransition, Some(id))
      else p.(challenges := p.challenges[id := NewProjected(log.blockNumber, terms, nonce)])
    case _ =>
      var id := e.challengeId;
      if id !in p.challenges then Flag(p, OrphanEvent, Some(id))
      else
        var c := Counted(p.challenges[id], log.blockNumber);
        match OnChallenge(ids, p.release, c, e)
        case Changed(c') => p.(challenges := p.challenges[id := c'])
        case Flagged(code) => Flag(p.(challenges := p.challenges[id := c]), code, Some(id))
  }

  function ProjectFrom(ids: EntitlementIds, p: Projection, logs: seq<Logged>): Projection {
    if logs == [] then p else Project(ids, ProjectFrom(ids, p, logs[..|logs| - 1]), logs[|logs| - 1])
  }

  /** A release declared anywhere but first is itself an anomaly. */
  function Start(logs: seq<Logged>): Projection {
    if (exists i | 0 <= i < |logs| :: logs[i].event.ReleaseDeclared?) && !logs[0].event.ReleaseDeclared? then
      Flag(EMPTY, ReleaseConflict, None)
    else EMPTY
  }

  /** The projection of decoded logs in canonical order. */
  function ProjectAll(ids: EntitlementIds, logs: seq<Logged>): Projection {
    ProjectFrom(ids, Start(logs), logs)
  }

  datatype Status = Consistent | Incomplete | Conflicted

  function StatusOf(p: Projection): Status {
    if |p.anomalies| > 0 then Conflicted
    else if p.release == None || exists id :: id in p.challenges && !Terminal(p.challenges[id].state) then Incomplete
    else Consistent
  }

  // ---------- The projector as it runs ----------

  class EventProjector {
    const entitlementIds: EntitlementIds
    var challenges: map<Bytes32, ProjectedChallenge>
    var anomalies: seq<Anomaly>
    var release: Option<Event>
    var paused: Option<bool>

    constructor (entitlementIds: EntitlementIds)
      ensures this.entitlementIds == entitlementIds && Value() == EMPTY
    {
      this.entitlementIds := entitlementIds;
      challenges := map[];
      anomalies := [];
      release := None;
      paused := None;
    }

    ghost function Value(): Projection
      reads this
    {
      Projection(challenges, anomalies, release, paused)
    }

    method AddAnomaly(code: AnomalyCode, id: Option<Bytes32>)
      modifies this`anomalies
      ensures anomalies == old(anomalies) + [Anomaly(code, id)]
    {
      anomalies := anomalies + [Anomaly(code, id)];
    }

    method ProjectEvent(log: Logged)
      modifies this
      ensures Value() == Project(entitlementIds, old(Value()), log)
    {
      var e := log.event;
      if e.ReleaseDeclared? {
        if release.Some? {
          AddAnomaly(ReleaseConflict, None);
        } else {
          release := Some(e);
        }
        paused := Some(e.initialPaused);
        return;
      }
      if e.PauseStatusChanged? {
        if paused.Some? && paused.value != e.previousPaused {
          AddAnomaly(InvalidTransition, None);
        }
        paused := Some(e.newPaused);
        return;
      }
      var id := e.challengeId;
      if id !in challenges {
        if !e.ChallengeCreated? {
          AddAnomaly(OrphanEvent, Some(id));
          return;
        }
        if OverlapsReleaseBoundary(e.terms.challengerWallet, release) {
          AddAnomaly(InvalidTransition, Some(id));
          return;
        }
        challenges := challenges[id := NewProjected(log.blockNumber, e.terms, e.acceptanceNonce)];
        return;
      }
      if e.ChallengeCreated? {
        AddAnomaly(InvalidTransition, Some(id));
        return;
      }
      var c := challenges[id];
      c := c.(eventCount := c.eventCount + 1);
      c := c.(lastEventBlock := log.blockNumber);
      challenges := challenges[id := c];
      match OnChallenge(entitlementIds, release, c, e)
      case Changed(next) => challenges := challenges[id := next];
      case Flagged(code) => AddAnomaly(code, Some(id));
    }

    method ProjectLogs(logs: seq<Logged>)
      requires Value() == EMPTY
      modifies this
      ensures Value() == ProjectAll(entitlementIds, logs)
    {
      if (exists i | 0 <= i < |logs| :: logs[i].event.ReleaseDeclared?) && !logs[0].event.ReleaseDeclared? {
        AddAnomaly(ReleaseConflict, None);
      }
      for i := 0 to |logs|
        invariant Value() == ProjectFrom(entitlementIds, Start(logs), logs[..i])
      {
        ProjectEvent(logs[i]);
        assert logs[..i + 1][..i] == logs[..i];
      }
      assert logs[..|logs|] == logs;
    }
  }
}
