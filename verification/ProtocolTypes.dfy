/** The protocol's ABI and storage types, and the events its entry points emit.
    Addresses are 160-bit and hashes 256-bit numbers; zero is the zero address or the zero hash.
    Calldata integers carry their Solidity width as a subset type; storage integers are plain
    naturals, so that staying within the width is something to prove. */
module ProtocolTypes {
  import opened Wrappers

  const MAX_UINT64: nat := 0xFFFF_FFFF_FFFF_FFFF
  const MAX_UINT256: nat := 0xFFFF_FFFF_FFFF_FFFF_FFFF_FFFF_FFFF_FFFF_FFFF_FFFF_FFFF_FFFF_FFFF_FFFF_FFFF_FFFF
  const MAX_STAKE: nat := 0x7FFF_FFFF_FFFF_FFFF_FFFF_FFFF_FFFF_FFFF_FFFF_FFFF_FFFF_FFFF_FFFF_FFFF_FFFF_FFFF

  const MAX_ADDRESS: nat := 0xFFFF_FFFF_FFFF_FFFF_FFFF_FFFF_FFFF_FFFF_FFFF_FFFF

  type Uint64 = n: nat | n <= MAX_UINT64
  type Uint256 = n: nat | n <= MAX_UINT256
  type Byte = n: nat | n < 256
  type Address = n: nat | n <= MAX_ADDRESS
  type Bytes32 = n: nat | n <= MAX_UINT256

  const ZERO_ADDRESS: Address := 0
  const ZERO_HASH: Bytes32 := 0

  datatype LifecycleState = Open | Active | Proposed | Disputed | Cancelled | Expired | ResolvedA | ResolvedB | Void

  datatype Side = SideA | SideB

  datatype Outcome = OutcomeA | OutcomeB | OutcomeVoid

  datatype ResolutionPath = UncontestedResolution | ArbiterResolution

  datatype VoidPath = UncontestedVoid | ArbiterVoid | ProposalTimeoutVoid | ArbitrationTimeoutVoid

  /** The last member of each reason enumeration, by its numeric code. */
  const MAX_AB_REASON: nat := 3
  const MAX_VOID_REASON: nat := 5
  const TERMS_UNRESOLVABLE: nat := 5
  const NO_PROPOSAL_TIMEOUT: nat := 0
  const ARBITRATION_TIMEOUT: nat := 1

  datatype Permit = Permit(
    challengeId: Bytes32,
    specHash: Bytes32,
    acceptingWallet: Address,
    acceptanceNonce: Uint256,
    expiresAt: Uint64)

  type Signature = seq<nat>

  datatype Execution = Execution(
    nonce: Bytes32,
    createdAt: Uint64,
    chainId: Uint256,
    escrowContract: Address,
    challengerWallet: Address,
    challengerSide: Side,
    token: Address,
    tokenDecimals: nat,
    stakeAmount: Uint256,
    acceptanceDeadline: Uint64,
    observationTime: Uint64,
    sourceCorrectionCutoff: Uint64,
    proposalDeadline: Uint64,
    disputeWindowSeconds: Uint64,
    arbitrationWindowSeconds: Uint64,
    timeoutVoidAt: Uint64)

  datatype Proposal = Proposal(
    present: bool,
    outcome: Outcome,
    abReason: nat,
    evidenceVoidReason: nat,
    evidenceHash: Bytes32,
    proposedAt: nat,
    disputeDeadline: nat)

  datatype Dispute = Dispute(
    present: bool,
    disputingWallet: Address,
    outcome: Outcome,
    abReason: nat,
    evidenceVoidReason: nat,
    evidenceHash: Bytes32,
    parentEvidenceHash: Bytes32,
    disputedAt: nat,
    arbitrationStart: nat,
    arbitrationDeadline: nat)

  datatype FinalResolution = FinalResolution(
    present: bool,
    outcome: Outcome,
    abReason: nat,
    evidenceVoidReason: nat,
    timeoutVoidReason: nat,
    resolutionPath: ResolutionPath,
    voidPath: VoidPath,
    finalEvidenceHash: Bytes32,
    parentEvidenceHash: Bytes32,
    finalizedBy: Address)

  /** What a challenge commits to when it is created; the contract never writes these fields again. */
  datatype Terms = Terms(
    specHash: Bytes32,
    executionHash: Bytes32,
    termsHash: Bytes32,
    instanceNonce: Bytes32,
    challengerWallet: Address,
    challengerSide: Side,
    stakeAmount: nat,
    createdAt: nat,
    acceptanceDeadline: nat,
    observationTime: nat,
    sourceCorrectionCutoff: nat,
    proposalDeadline: nat,
    disputeWindowSeconds: nat,
    arbitrationWindowSeconds: nat,
    timeoutVoidAt: nat)

  datatype Challenge = Challenge(
    present: bool,
    terms: Terms,
    openedAt: nat,
    state: LifecycleState,
    acceptanceNonce: nat,
    acceptingWallet: Address,
    acceptedAt: nat,
    depositedAmount: nat,
    outstandingLiability: nat,
    proposal: Proposal,
    dispute: Dispute,
    finalResolution: FinalResolution)

  datatype Entitlement = Entitlement(present: bool, claimableAmount: nat, paidAmount: nat)

  /** The zero tuples that untouched storage reads as. */
  const NO_PROPOSAL := Proposal(false, OutcomeA, 0, 0, ZERO_HASH, 0, 0)
  const NO_DISPUTE := Dispute(false, ZERO_ADDRESS, OutcomeA, 0, 0, ZERO_HASH, ZERO_HASH, 0, 0, 0)
  const NO_FINAL := FinalResolution(false, OutcomeA, 0, 0, 0, UncontestedResolution, UncontestedVoid,
                                    ZERO_HASH, ZERO_HASH, ZERO_ADDRESS)
  const NO_TERMS := Terms(0, 0, 0, 0, 0, SideA, 0, 0, 0, 0, 0, 0, 0, 0, 0)
  const NO_CHALLENGE := Challenge(false, NO_TERMS, 0, Open, 0, ZERO_ADDRESS, 0, 0, 0, NO_PROPOSAL, NO_DISPUTE, NO_FINAL)
  const NO_ENTITLEMENT := Entitlement(false, 0, 0)

  predicate Terminal(state: LifecycleState) {
    state in {Cancelled, Expired, ResolvedA, ResolvedB, Void}
  }

  /** The lifecycle moves the protocol documents. */
  predicate LifecycleMove(from: LifecycleState, to: LifecycleState) {
    match from
    case Open => to in {Active, Cancelled, Expired}
    case Active => to in {Proposed, Void}
    case Proposed => to in {Disputed, ResolvedA, ResolvedB, Void}
    case Disputed => to in {ResolvedA, ResolvedB, Void}
    case _ => false
  }

  datatype Event =
    | ReleaseDeclared(releaseId: Bytes32, chainId: nat, escrowContract: Address, canonicalToken: Address,
                      tokenDecimals: nat, resolver: Address, arbiter: Address, initialPaused: bool)
    | PauseStatusChanged(changedBy: Address, previousPaused: bool, newPaused: bool)
    | ChallengeCreated(challengeId: Bytes32, terms: Terms, acceptanceNonce: nat)
    | AcceptanceNonceAdvanced(challengeId: Bytes32, challengerWallet: Address, previousNonce: nat, newNonce: nat)
    | ChallengeAccepted(challengeId: Bytes32, acceptingWallet: Address, acceptingSide: Side, consumedNonce: nat,
                        permitExpiresAt: nat, stakeAmount: nat)
    | ChallengeCancelled(challengeId: Bytes32, challengerWallet: Address, refundAmount: nat)
    | ChallengeExpired(challengeId: Bytes32, materializedBy: Address, challengerWallet: Address, refundAmount: nat)
    | OutcomeProposed(challengeId: Bytes32, resolver: Address, assertedOutcome: Outcome, reasonCode: nat,
                      evidenceHash: Bytes32, disputeDeadline: nat)
    | OutcomeDisputed(challengeId: Bytes32, disputingWallet: Address, assertedOutcome: Outcome, reasonCode: nat,
                      evidenceHash: Bytes32, parentEvidenceHash: Bytes32, arbitrationStart: nat,
                      arbitrationDeadline: nat)
    | ChallengeResolved(challengeId: Bytes32, finalizedBy: Address, finalOutcome: Outcome, reasonCode: nat,
                        finalEvidenceHash: Bytes32, parentEvidenceHash: Bytes32, resolutionPath: ResolutionPath,
                        winnerWallet: Address, claimAmount: nat)
    | ChallengeVoided(challengeId: Bytes32, materializedBy: Address, voidReason: nat, finalEvidenceHash: Bytes32,
                      parentEvidenceHash: Bytes32, voidPath: VoidPath, refundAmountEach: nat)
    | WinningsClaimed(challengeId: Bytes32, entitlementId: Bytes32, wallet: Address, amount: nat)
    | PrincipalRefunded(challengeId: Bytes32, entitlementId: Bytes32, wallet: Address, originState: LifecycleState,
                        amount: nat)

  /** The hashing and signature recovery the contract calls, as arbitrary functions. */
  datatype Cryptography = Cryptography(
    executionHash: Execution -> Bytes32,
    specHash: (Bytes32, Bytes32) -> Bytes32,
    challengeId: Bytes32 -> Bytes32,
    entitlementId: (Bytes32, Address) -> Bytes32,
    releaseId: (Uint256, Address) -> Bytes32,
    recover: (Permit, Signature) -> Option<Address>)

  /** The texts a release is known by. */
  datatype Identity = Identity(
    protocolVersion: string,
    eventProtocolId: string,
    challengeSchemaId: string,
    evidenceSchemaId: string,
    conditionLanguageId: string,
    termsDomain: string,
    specDomain: string,
    evidenceDomain: string)

  /** The contract's own constants. */
  function ContractIdentity(): Identity {
    Identity(
      "challenge-escrow-protocol/v1",
      "challenge-escrow-event/v1",
      "challenge-escrow.spec/v1",
      "challenge-escrow.evidence/v1",
      "challenge-escrow.condition-language/v1",
      "challenge-escrow.terms/v1",
      "challenge-escrow.spec/v1",
      "challenge-escrow.evidence/v1")
  }

  /** The immutable part of a deployed contract. */
  datatype Release = Release(
    self: Address,
    canonicalToken: Address,
    tokenDecimals: nat,
    resolver: Address,
    arbiter: Address,
    pauser: Address,
    chainId: Uint256,
    crypto: Cryptography)
}
