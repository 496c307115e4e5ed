/** What one call does to the contract: for every entry point, the guards in the order the source tries
    them and the state and event that a call passing all of them commits. A reverted call commits nothing. */
module Kernel {
  import opened Wrappers
  import opened ProtocolTypes

  datatype Error =
    | ZeroCanonicalToken | CanonicalTokenHasNoCode | CanonicalTokenEqualsEscrow | ZeroResolver | ZeroArbiter
    | ResolverEqualsArbiter | UnsupportedTokenDecimals | ResolverRoleOverlap | ArbiterRoleOverlap | ZeroPauser
    | PauserRoleOverlap | CallerNotPauser | PauseStatusUnchanged | ParticipantIsPauser
    | ContractPaused | ZeroInstanceNonce | InvalidExecutionChain | InvalidExecutionEscrow | InvalidExecutionToken
    | InvalidExecutionTokenDecimals | InvalidChallengerWallet | CallerNotChallenger | InvalidStakeAmount
    | CreatedAtAfterOpening | InvalidAcceptanceDeadline | InvalidObservationTime | InvalidSourceCorrectionCutoff
    | InvalidProposalDeadline | InvalidDisputeWindow | InvalidArbitrationWindow | InvalidTimeoutVoidAt
    | SpecHashMismatch | ChallengeAlreadyExists | InstanceNonceAlreadyUsed | ChallengeNotFound | ChallengeNotOpen
    | AcceptanceWindowClosed | CallerNotAcceptingWallet | InvalidAcceptingWallet | PermitChallengeIdMismatch
    | PermitSpecHashMismatch | PermitNonceMismatch | InvalidPermitExpiry | InvalidPermitSignature
    | InvalidPermitSigner | ChallengeNotActive | ChallengeNotProposed | ChallengeNotDisputed | CallerNotResolver
    | CallerNotParticipant | CallerNotArbiter | ObservationNotReached | ProposalWindowClosed
    | ProposalDeadlineNotReached | SourceCorrectionCutoffNotReached | DisputeWindowClosed
    | DisputeDeadlineNotReached | ArbitrationWindowClosed | ArbitrationDeadlineNotReached | ZeroEvidenceHash
    | InvalidOutcomeReason | ParentEvidenceHashMismatch | DisputeOutcomeUnchanged | ChallengeNotResolved
    | ChallengeNotRefundable | CallerNotWinningWallet | CallerNotRefundRecipient | InvalidEntitlement
    | LiabilityAccountingMismatch | EscrowInsolvent
    | TokenBalanceQueryFailed | TokenTransferReverted | TokenTransferReturnedFalse | TokenTransferMalformedReturn
    | TokenBalanceDeltaMismatch | TokenSenderBalanceDeltaMismatch | TokenRecipientBalanceDeltaMismatch
    | ArithmeticPanic

  /** What the token answers during one call; nothing is assumed about it. */
  datatype ReturnData = NoData | Word(word: nat) | OtherLength

  datatype TokenReply = TokenReply(
    balanceReadable: bool,
    callSucceeded: bool,
    returnData: ReturnData,
    escrowAfter: Uint256,
    recipientBefore: Uint256,
    recipientAfter: Uint256)

  /** The caller, the block time and the token's behaviour for one transaction. */
  datatype Env = Env(sender: Address, now: Uint64, token: TokenReply)

  datatype EntitlementKey = EntitlementKey(challengeId: Bytes32, wallet: Address)

  datatype NonceKey = NonceKey(wallet: Address, nonce: Bytes32)

  /** Contract storage, beside the token's record of the escrow balance and the time of the last commit. */
  datatype State = State(
    paused: bool,
    totalOutstandingLiability: nat,
    challenges: map<Bytes32, Challenge>,
    entitlements: map<EntitlementKey, Entitlement>,
    usedInstanceNonces: set<NonceKey>,
    escrowBalance: nat,
    clock: nat)

  datatype Reply = Committed(state: State, event: Event) | Reverted(error: Error)

  datatype Call =
    | CreateAndFund(execution: Execution, termsHash: Bytes32, suppliedSpecHash: Bytes32)
    | Accept(challengeId: Bytes32, permit: Permit, signature: Signature)
    | AdvanceAcceptanceNonce(challengeId: Bytes32)
    | CancelOpen(challengeId: Bytes32)
    | ExpireOpen(challengeId: Bytes32)
    | Propose(challengeId: Bytes32, outcome: Outcome, reasonCode: nat, evidenceHash: Bytes32)
    | DisputeOutcome(challengeId: Bytes32, outcome: Outcome, reasonCode: nat, evidenceHash: Bytes32,
                     parentEvidenceHash: Bytes32)
    | FinalizeUncontested(challengeId: Bytes32)
    | Arbitrate(challengeId: Bytes32, outcome: Outcome, reasonCode: nat, evidenceHash: Bytes32,
                parentEvidenceHash: Bytes32)
    | VoidUnproposed(challengeId: Bytes32)
    | VoidUnarbitrated(challengeId: Bytes32)
    | ClaimWinnings(challengeId: Bytes32)
    | RefundPrincipal(challengeId: Bytes32)
    | SetPaused(newPaused: bool)

  // ---------- Storage reads ----------

  function ChallengeAt(s: State, id: Bytes32): Challenge {
    if id in s.challenges then s.challenges[id] else NO_CHALLENGE
  }

  function EntitlementAt(s: State, id: Bytes32, wallet: Address): Entitlement {
    var key := EntitlementKey(id, wallet);
    if key in s.entitlements then s.entitlements[key] else NO_ENTITLEMENT
  }

  // ---------- Token movements ----------

  function CheckReturn(token: TokenReply): Option<Error> {
    if !token.callSucceeded then Some(TokenTransferReverted)
    else match token.returnData
      case NoData => None
      case OtherLength => Some(TokenTransferMalformedReturn)
      case Word(w) =>
        if w == 0 then Some(TokenTransferReturnedFalse)
        else if w != 1 then Some(TokenTransferMalformedReturn)
        else None
  }

  /** The escrow balance after an accepted pull. */
  function PullExact(before: nat, amount: nat, token: TokenReply): Result<nat, Error> {
    if !token.balanceReadable then Err(TokenBalanceQueryFailed)
    else if CheckReturn(token).Some? then Err(CheckReturn(token).value)
    else if token.escrowAfter < before || token.escrowAfter - before != amount then Err(TokenBalanceDeltaMismatch)
    else Ok(token.escrowAfter)
  }

  /** The escrow balance after an accepted push. */
  function PushExact(before: nat, amount: nat, token: TokenReply): Result<nat, Error> {
    if !token.balanceReadable then Err(TokenBalanceQueryFailed)
    else if CheckReturn(token).Some? then Err(CheckReturn(token).value)
    else if token.escrowAfter > before || before - token.escrowAfter != amount then
      Err(TokenSenderBalanceDeltaMismatch)
    else if token.recipientAfter < token.recipientBefore || token.recipientAfter - token.recipientBefore != amount then
      Err(TokenRecipientBalanceDeltaMismatch)
    else Ok(token.escrowAfter)
  }

  // ---------- Validation ----------

  function ValidateChallengerWallet(r: Release, wallet: Address): Option<Error> {
    if wallet in {ZERO_ADDRESS, r.self, r.canonicalToken, r.resolver, r.arbiter} then Some(InvalidChallengerWallet)
    else if wallet == r.pauser then Some(ParticipantIsPauser)
    else None
  }

  function ValidateParticipantWallet(r: Release, wallet: Address, challenger: Address): Option<Error> {
    if wallet in {ZERO_ADDRESS, r.self, r.canonicalToken, r.resolver, r.arbiter, challenger} then
      Some(InvalidAcceptingWallet)
    else if wallet == r.pauser then Some(ParticipantIsPauser)
    else None
  }

  function ValidateExecution(r: Release, env: Env, x: Execution): Option<Error> {
    if x.nonce == ZERO_HASH then Some(ZeroInstanceNonce)
    else if x.chainId != r.chainId then Some(InvalidExecutionChain)
    else if x.escrowContract != r.self then Some(InvalidExecutionEscrow)
    else if x.token != r.canonicalToken then Some(InvalidExecutionToken)
    else if x.tokenDecimals != r.tokenDecimals then Some(InvalidExecutionTokenDecimals)
    else if ValidateChallengerWallet(r, x.challengerWallet).Some? then ValidateChallengerWallet(r, x.challengerWallet)
    else if env.sender != x.challengerWallet then Some(CallerNotChallenger)
    else if x.stakeAmount == 0 || x.stakeAmount > MAX_STAKE then Some(InvalidStakeAmount)
    else if x.createdAt > env.now then Some(CreatedAtAfterOpening)
    else if env.now >= x.acceptanceDeadline then Some(InvalidAcceptanceDeadline)
    else if x.acceptanceDeadline >= x.observationTime then Some(InvalidObservationTime)
    else if x.observationTime >= x.proposalDeadline then Some(InvalidProposalDeadline)
    else if x.disputeWindowSeconds == 0 then Some(InvalidDisputeWindow)
    else if x.arbitrationWindowSeconds == 0 then Some(InvalidArbitrationWindow)
    else if x.observationTime >= x.sourceCorrectionCutoff || x.sourceCorrectionCutoff >= x.proposalDeadline then
      Some(InvalidSourceCorrectionCutoff)
    else if x.sourceCorrectionCutoff >= x.observationTime + x.disputeWindowSeconds then
      Some(InvalidSourceCorrectionCutoff)
    else if x.proposalDeadline + x.disputeWindowSeconds + x.arbitrationWindowSeconds > x.timeoutVoidAt
         || x.sourceCorrectionCutoff + x.arbitrationWindowSeconds > x.timeoutVoidAt then
      Some(InvalidTimeoutVoidAt)
    else None
  }

  /** A reason code read as the reason of an A/B outcome and the reason of an evidence void. */
  datatype Reasons = Reasons(abReason: nat, evidenceVoidReason: nat)

  function ValidateReason(outcome: Outcome, reasonCode: nat): Result<Reasons, Error> {
    if outcome == OutcomeVoid then
      if reasonCode > MAX_VOID_REASON then Err(InvalidOutcomeReason) else Ok(Reasons(0, reasonCode))
    else
      if reasonCode > MAX_AB_REASON then Err(InvalidOutcomeReason) else Ok(Reasons(reasonCode, 0))
  }

  /** The reason code that the two stored reasons came from. */
  function CodeOf(outcome: Outcome, abReason: nat, voidReason: nat): nat {
    if outcome == OutcomeVoid then voidReason else abReason
  }

  /** Rejects a challenge that does not exist or is not in the state a call needs. */
  function RequireState(s: State, id: Bytes32, state: LifecycleState, otherwise: Error): Option<Error> {
    if !ChallengeAt(s, id).present then Some(ChallengeNotFound)
    else if ChallengeAt(s, id).state != state then Some(otherwise)
    else None
  }

  function WinnerWallet(c: Challenge, outcome: Outcome): Address {
    if (c.terms.challengerSide == SideA && outcome == OutcomeA)
       || (c.terms.challengerSide == SideB && outcome == OutcomeB) then
      c.terms.challengerWallet
    else
      c.acceptingWallet
  }

  // ---------- Funding ----------

  function TermsOf(x: Execution, specHash: Bytes32, executionHash: Bytes32, termsHash: Bytes32): Terms {
    Terms(specHash, executionHash, termsHash, x.nonce, x.challengerWallet, x.challengerSide, x.stakeAmount,
          x.createdAt, x.acceptanceDeadline, x.observationTime, x.sourceCorrectionCutoff, x.proposalDeadline,
          x.disputeWindowSeconds, x.arbitrationWindowSeconds, x.timeoutVoidAt)
  }

  function NewChallenge(terms: Terms, now: nat): Challenge {
    Challenge(true, terms, now, Open, 0, ZERO_ADDRESS, 0, terms.stakeAmount, terms.stakeAmount,
              NO_PROPOSAL, NO_DISPUTE, NO_FINAL)
  }

  function CreateReply(r: Release, s: State, env: Env, x: Execution, termsHash: Bytes32, supplied: Bytes32): Reply {
    var executionHash := r.crypto.executionHash(x);
    var specHash := r.crypto.specHash(executionHash, termsHash);
    var id := r.crypto.challengeId(specHash);
    var nonceKey := NonceKey(x.challengerWallet, x.nonce);
    if s.paused then Reverted(ContractPaused)
    else if ValidateExecution(r, env, x).Some? then Reverted(ValidateExecution(r, env, x).value)
    else if supplied != specHash then Reverted(SpecHashMismatch)
    else if ChallengeAt(s, id).present then Reverted(ChallengeAlreadyExists)
    else if nonceKey in s.usedInstanceNonces then Reverted(InstanceNonceAlreadyUsed)
    else match PullExact(s.escrowBalance, x.stakeAmount, env.token)
      case Err(e) => Reverted(e)
      case Ok(balance) =>
        if s.totalOutstandingLiability + x.stakeAmount > MAX_UINT256 then Reverted(ArithmeticPanic)
        else
          var c := NewChallenge(TermsOf(x, specHash, executionHash, termsHash), env.now);
          Committed(s.(totalOutstandingLiability := s.totalOutstandingLiability + x.stakeAmount,
                       challenges := s.challenges[id := c],
                       usedInstanceNonces := s.usedInstanceNonces + {nonceKey},
                       escrowBalance := balance,
                       clock := env.now),
                    ChallengeCreated(id, c.terms, c.acceptanceNonce))
  }

  function CheckPermit(r: Release, c: Challenge, env: Env, id: Bytes32, p: Permit, signature: Signature)
    : Option<Error>
  {
    if p.challengeId != id then Some(PermitChallengeIdMismatch)
    else if p.specHash != c.terms.specHash then Some(PermitSpecHashMismatch)
    else if env.sender != p.acceptingWallet then Some(CallerNotAcceptingWallet)
    else if ValidateParticipantWallet(r, p.acceptingWallet, c.terms.challengerWallet).Some? then
      ValidateParticipantWallet(r, p.acceptingWallet, c.terms.challengerWallet)
    else if p.acceptanceNonce != c.acceptanceNonce then Some(PermitNonceMismatch)
    else if env.now >= p.expiresAt || p.expiresAt > c.terms.acceptanceDeadline || p.expiresAt == 0 then
      Some(InvalidPermitExpiry)
    else match r.crypto.recover(p, signature)
      case None => Some(InvalidPermitSignature)
      case Some(signer) => if signer != c.terms.challengerWallet then Some(InvalidPermitSigner) else None
  }

  function AcceptReply(r: Release, s: State, env: Env, id: Bytes32, p: Permit, signature: Signature): Reply {
    var c := ChallengeAt(s, id);
    if s.paused then Reverted(ContractPaused)
    else if RequireState(s, id, Open, ChallengeNotOpen).Some? then
      Reverted(RequireState(s, id, Open, ChallengeNotOpen).value)
    else if env.now >= c.terms.acceptanceDeadline then Reverted(AcceptanceWindowClosed)
    else if CheckPermit(r, c, env, id, p, signature).Some? then
      Reverted(CheckPermit(r, c, env, id, p, signature).value)
    else match PullExact(s.escrowBalance, c.terms.stakeAmount, env.token)
      case Err(e) => Reverted(e)
      case Ok(balance) =>
        if c.depositedAmount + c.terms.stakeAmount > MAX_UINT256
           || c.outstandingLiability + c.terms.stakeAmount > MAX_UINT256
           || s.totalOutstandingLiability + c.terms.stakeAmount > MAX_UINT256 then Reverted(ArithmeticPanic)
        else
          var c' := c.(acceptingWallet := p.acceptingWallet,
                       acceptedAt := env.now,
                       depositedAmount := c.depositedAmount + c.terms.stakeAmount,
                       outstandingLiability := c.outstandingLiability + c.terms.stakeAmount,
                       state := Active);
          Committed(s.(totalOutstandingLiability := s.totalOutstandingLiability + c.terms.stakeAmount,
                       challenges := s.challenges[id := c'],
                       escrowBalance := balance,
                       clock := env.now),
                    ChallengeAccepted(id, p.acceptingWallet, if c.terms.challengerSide == SideA then SideB else SideA,
                                      p.acceptanceNonce, p.expiresAt, c.terms.stakeAmount))
  }

  // ---------- Open challenges ----------

  function AdvanceNonceReply(s: State, env: Env, id: Bytes32): Reply {
    var c := ChallengeAt(s, id);
    if RequireState(s, id, Open, ChallengeNotOpen).Some? then
      Reverted(RequireState(s, id, Open, ChallengeNotOpen).value)
    else if env.sender != c.terms.challengerWallet then Reverted(CallerNotChallenger)
    else if env.now >= c.terms.acceptanceDeadline then Reverted(AcceptanceWindowClosed)
    else if c.acceptanceNonce + 1 > MAX_UINT256 then Reverted(ArithmeticPanic)
    else
      Committed(s.(challenges := s.challenges[id := c.(acceptanceNonce := c.acceptanceNonce + 1)], clock := env.now),
                AcceptanceNonceAdvanced(id, c.terms.challengerWallet, c.acceptanceNonce, c.acceptanceNonce + 1))
  }

  /** Grants a wallet an entitlement, keeping what it was already paid. */
  function Grant(s: State, id: Bytes32, wallet: Address, amount: nat): State {
    var e := EntitlementAt(s, id, wallet);
    s.(entitlements :=
      s.entitlements[EntitlementKey(id, wallet) := e.(present := true, claimableAmount := amount)])
  }

  function CreateOpenRefund(s: State, id: Bytes32, terminalState: LifecycleState): State {
    var c := ChallengeAt(s, id);
    Grant(s.(challenges := s.challenges[id := c.(state := terminalState)]), id, c.terms.challengerWallet,
          c.terms.stakeAmount)
  }

  function CancelReply(s: State, env: Env, id: Bytes32): Reply {
    var c := ChallengeAt(s, id);
    if RequireState(s, id, Open, ChallengeNotOpen).Some? then
      Reverted(RequireState(s, id, Open, ChallengeNotOpen).value)
    else if env.sender != c.terms.challengerWallet then Reverted(CallerNotChallenger)
    else if env.now >= c.terms.acceptanceDeadline then Reverted(AcceptanceWindowClosed)
    else
      Committed(CreateOpenRefund(s, id, Cancelled).(clock := env.now),
                ChallengeCancelled(id, c.terms.challengerWallet, c.terms.stakeAmount))
  }

  function ExpireReply(s: State, env: Env, id: Bytes32): Reply {
    var c := ChallengeAt(s, id);
    if RequireState(s, id, Open, ChallengeNotOpen).Some? then
      Reverted(RequireState(s, id, Open, ChallengeNotOpen).value)
    else if env.now < c.terms.acceptanceDeadline then Reverted(AcceptanceWindowClosed)
    else
      Committed(CreateOpenRefund(s, id, Expired).(clock := env.now),
                ChallengeExpired(id, env.sender, c.terms.challengerWallet, c.terms.stakeAmount))
  }

  // ---------- Proposal and dispute ----------

  function ProposeReply(r: Release, s: State, env: Env, id: Bytes32, outcome: Outcome, reasonCode: nat,
                        evidenceHash: Bytes32): Reply
  {
    var c := ChallengeAt(s, id);
    if s.paused then Reverted(ContractPaused)
    else if RequireState(s, id, Active, ChallengeNotActive).Some? then
      Reverted(RequireState(s, id, Active, ChallengeNotActive).value)
    else if env.sender != r.resolver then Reverted(CallerNotResolver)
    else if env.now < c.terms.observationTime then Reverted(ObservationNotReached)
    else if env.now >= c.terms.proposalDeadline then Reverted(ProposalWindowClosed)
    else if evidenceHash == ZERO_HASH then Reverted(ZeroEvidenceHash)
    else match ValidateReason(outcome, reasonCode)
      case Err(e) => Reverted(e)
      case Ok(Reasons(abReason, voidReason)) =>
        if outcome == OutcomeVoid && voidReason != TERMS_UNRESOLVABLE && env.now < c.terms.sourceCorrectionCutoff then
          Reverted(SourceCorrectionCutoffNotReached)
        else if env.now + c.terms.disputeWindowSeconds > MAX_UINT64 then Reverted(ArithmeticPanic)
        else
          var deadline := env.now + c.terms.disputeWindowSeconds;
          var proposal := Proposal(true, outcome, abReason, voidReason, evidenceHash, env.now, deadline);
          Committed(s.(challenges := s.challenges[id := c.(proposal := proposal, state := Proposed)],
                       clock := env.now),
                    OutcomeProposed(id, r.resolver, outcome, reasonCode, evidenceHash, deadline))
  }

  function DisputeReply(s: State, env: Env, id: Bytes32, outcome: Outcome, reasonCode: nat, evidenceHash: Bytes32,
                        parent: Bytes32): Reply
  {
    var c := ChallengeAt(s, id);
    if RequireState(s, id, Proposed, ChallengeNotProposed).Some? then
      Reverted(RequireState(s, id, Proposed, ChallengeNotProposed).value)
    else if env.sender != c.terms.challengerWallet && env.sender != c.acceptingWallet then Reverted(CallerNotParticipant)
    else if env.now >= c.proposal.disputeDeadline then Reverted(DisputeWindowClosed)
    else if outcome == c.proposal.outcome then Reverted(DisputeOutcomeUnchanged)
    else if evidenceHash == ZERO_HASH then Reverted(ZeroEvidenceHash)
    else if parent != c.proposal.evidenceHash then Reverted(ParentEvidenceHashMismatch)
    else match ValidateReason(outcome, reasonCode)
      case Err(e) => Reverted(e)
      case Ok(Reasons(abReason, voidReason)) =>
        var start := if env.now < c.terms.sourceCorrectionCutoff then c.terms.sourceCorrectionCutoff else env.now;
        if start + c.terms.arbitrationWindowSeconds > MAX_UINT64 then Reverted(ArithmeticPanic)
        else
          var deadline := start + c.terms.arbitrationWindowSeconds;
          var dispute := Dispute(true, env.sender, outcome, abReason, voidReason, evidenceHash, parent, env.now,
                                 start, deadline);
          Committed(s.(challenges := s.challenges[id := c.(dispute := dispute, state := Disputed)],
                       clock := env.now),
                    OutcomeDisputed(id, env.sender, outcome, reasonCode, evidenceHash, parent, start, deadline))
  }

  // ---------- Finalization ----------

  function FinalizeResolved(s: State, env: Env, id: Bytes32, outcome: Outcome, abReason: nat, evidenceHash: Bytes32,
                            parent: Bytes32, path: ResolutionPath): Reply
  {
    var c := ChallengeAt(s, id);
    var final := FinalResolution(true, outcome, abReason, 0, NO_PROPOSAL_TIMEOUT, path, UncontestedVoid, evidenceHash,
                                 parent, env.sender);
    var winner := WinnerWallet(c, outcome);
    if c.terms.stakeAmount * 2 > MAX_UINT256 then Reverted(ArithmeticPanic)
    else
      var c' := c.(state := if outcome == OutcomeA then ResolvedA else ResolvedB, finalResolution := final);
      Committed(Grant(s.(challenges := s.challenges[id := c'], clock := env.now), id, winner, c.terms.stakeAmount * 2),
                ChallengeResolved(id, env.sender, outcome, abReason, evidenceHash, parent, path, winner,
                                  c.terms.stakeAmount * 2))
  }

  function CreateAcceptedRefunds(s: State, id: Bytes32): State {
    var c := ChallengeAt(s, id);
    Grant(Grant(s, id, c.terms.challengerWallet, c.terms.stakeAmount), id, c.acceptingWallet, c.terms.stakeAmount)
  }

  function FinalizeEvidenceVoid(s: State, env: Env, id: Bytes32, reason: nat, evidenceHash: Bytes32, parent: Bytes32,
                                path: VoidPath): Reply
  {
    var c := ChallengeAt(s, id);
    var final := FinalResolution(true, OutcomeVoid, 0, reason, NO_PROPOSAL_TIMEOUT, UncontestedResolution, path,
                                 evidenceHash, parent, env.sender);
    var voided := s.(challenges := s.challenges[id := c.(state := Void, finalResolution := final)], clock := env.now);
    Committed(CreateAcceptedRefunds(voided, id),
              ChallengeVoided(id, env.sender, reason, evidenceHash, parent, path, c.terms.stakeAmount))
  }

  function FinalizeTimeoutVoid(s: State, env: Env, id: Bytes32, reason: nat, path: VoidPath): Reply {
    var c := ChallengeAt(s, id);
    var final := FinalResolution(true, OutcomeVoid, 0, 0, reason, UncontestedResolution, path, ZERO_HASH, ZERO_HASH,
                                 env.sender);
    var voided := s.(challenges := s.challenges[id := c.(state := Void, finalResolution := final)], clock := env.now);
    Committed(CreateAcceptedRefunds(voided, id),
              ChallengeVoided(id, env.sender, reason, ZERO_HASH, ZERO_HASH, path, c.terms.stakeAmount))
  }

  function FinalizeUncontestedReply(s: State, env: Env, id: Bytes32): Reply {
    var p := ChallengeAt(s, id).proposal;
    if RequireState(s, id, Proposed, ChallengeNotProposed).Some? then
      Reverted(RequireState(s, id, Proposed, ChallengeNotProposed).value)
    else if env.now < p.disputeDeadline then Reverted(DisputeDeadlineNotReached)
    else if p.outcome == OutcomeVoid then
      FinalizeEvidenceVoid(s, env, id, p.evidenceVoidReason, p.evidenceHash, ZERO_HASH, UncontestedVoid)
    else
      FinalizeResolved(s, env, id, p.outcome, p.abReason, p.evidenceHash, ZERO_HASH, UncontestedResolution)
  }

  function ArbitrateReply(r: Release, s: State, env: Env, id: Bytes32, outcome: Outcome, reasonCode: nat,
                          evidenceHash: Bytes32, parent: Bytes32): Reply
  {
    var c := ChallengeAt(s, id);
    if RequireState(s, id, Disputed, ChallengeNotDisputed).Some? then
      Reverted(RequireState(s, id, Disputed, ChallengeNotDisputed).value)
    else if env.sender != r.arbiter then Reverted(CallerNotArbiter)
    else if env.now < c.terms.sourceCorrectionCutoff then Reverted(SourceCorrectionCutoffNotReached)
    else if env.now >= c.dispute.arbitrationDeadline then Reverted(ArbitrationWindowClosed)
    else if evidenceHash == ZERO_HASH then Reverted(ZeroEvidenceHash)
    else if parent != c.dispute.evidenceHash then Reverted(ParentEvidenceHashMismatch)
    else match ValidateReason(outcome, reasonCode)
      case Err(e) => Reverted(e)
      case Ok(Reasons(abReason, voidReason)) =>
        if outcome == OutcomeVoid then
          FinalizeEvidenceVoid(s, env, id, voidReason, evidenceHash, parent, ArbiterVoid)
        else
          FinalizeResolved(s, env, id, outcome, abReason, evidenceHash, parent, ArbiterResolution)
  }

  function VoidUnproposedReply(s: State, env: Env, id: Bytes32): Reply {
    if RequireState(s, id, Active, ChallengeNotActive).Some? then
      Reverted(RequireState(s, id, Active, ChallengeNotActive).value)
    else if env.now < ChallengeAt(s, id).terms.proposalDeadline then Reverted(ProposalDeadlineNotReached)
    else FinalizeTimeoutVoid(s, env, id, NO_PROPOSAL_TIMEOUT, ProposalTimeoutVoid)
  }

  function VoidUnarbitratedReply(s: State, env: Env, id: Bytes32): Reply {
    if RequireState(s, id, Disputed, ChallengeNotDisputed).Some? then
      Reverted(RequireState(s, id, Disputed, ChallengeNotDisputed).value)
    else if env.now < ChallengeAt(s, id).dispute.arbitrationDeadline then Reverted(ArbitrationDeadlineNotReached)
    else FinalizeTimeoutVoid(s, env, id, ARBITRATION_TIMEOUT, ArbitrationTimeoutVoid)
  }

  // ---------- Pull payments ----------

  function ConsumeAndPay(s: State, env: Env, id: Bytes32, wallet: Address, amount: nat): Result<State, Error> {
    var c := ChallengeAt(s, id);
    var e := EntitlementAt(s, id, wallet);
    if !e.present || e.claimableAmount != amount || e.paidAmount != 0 then Err(InvalidEntitlement)
    else if c.outstandingLiability < amount || s.totalOutstandingLiability < amount then
      Err(LiabilityAccountingMismatch)
    else if !env.token.balanceReadable then Err(TokenBalanceQueryFailed)
    else if s.escrowBalance < s.totalOutstandingLiability then Err(EscrowInsolvent)
    else match PushExact(s.escrowBalance, amount, env.token)
      case Err(error) => Err(error)
      case Ok(balance) =>
        if balance < s.totalOutstandingLiability - amount then Err(EscrowInsolvent)
        else
          Ok(s.(entitlements := s.entitlements[EntitlementKey(id, wallet) := e.(claimableAmount := 0,
                                                                               paidAmount := amount)],
                challenges := s.challenges[id := c.(outstandingLiability := c.outstandingLiability - amount)],
                totalOutstandingLiability := s.totalOutstandingLiability - amount,
                escrowBalance := balance,
                clock := env.now))
  }

  function ClaimReply(r: Release, s: State, env: Env, id: Bytes32): Reply {
    var c := ChallengeAt(s, id);
    if !c.present then Reverted(ChallengeNotFound)
    else if c.state != ResolvedA && c.state != ResolvedB then Reverted(ChallengeNotResolved)
    else if env.sender != WinnerWallet(c, c.finalResolution.outcome) then Reverted(CallerNotWinningWallet)
    else if c.terms.stakeAmount * 2 > MAX_UINT256 then Reverted(ArithmeticPanic)
    else match ConsumeAndPay(s, env, id, env.sender, c.terms.stakeAmount * 2)
      case Err(e) => Reverted(e)
      case Ok(s') =>
        Committed(s', WinningsClaimed(id, r.crypto.entitlementId(id, env.sender), env.sender, c.terms.stakeAmount * 2))
  }

  function RefundReply(r: Release, s: State, env: Env, id: Bytes32): Reply {
    var c := ChallengeAt(s, id);
    var openTerminal := c.state == Cancelled || c.state == Expired;
    var acceptedTerminal := c.state == Void;
    if !c.present then Reverted(ChallengeNotFound)
    else if !openTerminal && !acceptedTerminal then Reverted(ChallengeNotRefundable)
    else if (openTerminal && env.sender != c.terms.challengerWallet)
         || (acceptedTerminal && env.sender != c.terms.challengerWallet && env.sender != c.acceptingWallet) then
      Reverted(CallerNotRefundRecipient)
    else match ConsumeAndPay(s, env, id, env.sender, c.terms.stakeAmount)
      case Err(e) => Reverted(e)
      case Ok(s') =>
        Committed(s', PrincipalRefunded(id, r.crypto.entitlementId(id, env.sender), env.sender, c.state,
                                        c.terms.stakeAmount))
  }

  // ---------- Pausing ----------

  function SetPausedReply(r: Release, s: State, env: Env, newPaused: bool): Reply {
    if env.sender != r.pauser then Reverted(CallerNotPauser)
    else if newPaused == s.paused then Reverted(PauseStatusUnchanged)
    else
      Committed(s.(paused := newPaused, clock := env.now), PauseStatusChanged(env.sender, s.paused, newPaused))
  }

  // ---------- Any call ----------

  function Execute(r: Release, s: State, env: Env, call: Call): Reply {
    match call
    case CreateAndFund(x, terms, spec) => CreateReply(r, s, env, x, terms, spec)
    case Accept(id, permit, signature) => AcceptReply(r, s, env, id, permit, signature)
    case AdvanceAcceptanceNonce(id) => AdvanceNonceReply(s, env, id)
    case CancelOpen(id) => CancelReply(s, env, id)
    case ExpireOpen(id) => ExpireReply(s, env, id)
    case Propose(id, outcome, reason, evidence) => ProposeReply(r, s, env, id, outcome, reason, evidence)
    case DisputeOutcome(id, outcome, reason, evidence, parent) =>
      DisputeReply(s, env, id, outcome, reason, evidence, parent)
    case FinalizeUncontested(id) => FinalizeUncontestedReply(s, env, id)
    case Arbitrate(id, outcome, reason, evidence, parent) =>
      ArbitrateReply(r, s, env, id, outcome, reason, evidence, parent)
    case VoidUnproposed(id) => VoidUnproposedReply(s, env, id)
    case VoidUnarbitrated(id) => VoidUnarbitratedReply(s, env, id)
    case ClaimWinnings(id) => ClaimReply(r, s, env, id)
    case RefundPrincipal(id) => RefundReply(r, s, env, id)
    case SetPaused(newPaused) => SetPausedReply(r, s, env, newPaused)
  }

  // ---------- Deployment ----------

  function DeploymentError(r: Release, tokenHasCode: bool): Option<Error> {
    if r.canonicalToken == ZERO_ADDRESS then Some(ZeroCanonicalToken)
    else if r.canonicalToken == r.self then Some(CanonicalTokenEqualsEscrow)
    else if !tokenHasCode then Some(CanonicalTokenHasNoCode)
    else if r.resolver == ZERO_ADDRESS then Some(ZeroResolver)
    else if r.arbiter == ZERO_ADDRESS then Some(ZeroArbiter)
    else if r.resolver == r.arbiter then Some(ResolverEqualsArbiter)
    else if r.tokenDecimals > 18 then Some(UnsupportedTokenDecimals)
    else if r.resolver == r.canonicalToken || r.resolver == r.self then Some(ResolverRoleOverlap)
    else if r.arbiter == r.canonicalToken || r.arbiter == r.self then Some(ArbiterRoleOverlap)
    else if r.pauser == ZERO_ADDRESS then Some(ZeroPauser)
    else if r.pauser in {r.self, r.canonicalToken, r.resolver, r.arbiter} then Some(PauserRoleOverlap)
    else None
  }

  function ReleaseEvent(r: Release, initialPaused: bool): Event {
    ReleaseDeclared(r.crypto.releaseId(r.chainId, r.self), r.chainId, r.self, r.canonicalToken, r.tokenDecimals,
                    r.resolver, r.arbiter, initialPaused)
  }

  function DeployedState(initialPaused: bool, balance: nat, now: nat): State {
    State(initialPaused, 0, map[], map[], {}, balance, now)
  }

  // ---------- Runs ----------

  /** Between transactions anyone may send the escrow tokens it did not ask for. */
  datatype Stimulus = Transaction(env: Env, call: Call) | Donation(amount: nat)

  /** Time does not run backwards, a caller is not the zero address, a token balance fits uint256. */
  predicate LegalStimulus(s: State, m: Stimulus) {
    match m
    case Transaction(env, _) => env.sender != ZERO_ADDRESS && s.clock <= env.now
    case Donation(amount) => s.escrowBalance + amount <= MAX_UINT256
  }

  function Next(r: Release, s: State, m: Stimulus): State {
    match m
    case Donation(amount) => s.(escrowBalance := s.escrowBalance + amount)
    case Transaction(env, call) =>
      var reply := Execute(r, s, env, call);
      if reply.Committed? then reply.state else s
  }

  function Emitted(r: Release, s: State, m: Stimulus): seq<Event> {
    match m
    case Donation(_) => []
    case Transaction(env, call) =>
      var reply := Execute(r, s, env, call);
      if reply.Committed? then [reply.event] else []
  }

  /** The state after a run, and the events it emitted. */
  function Run(r: Release, s: State, ms: seq<Stimulus>): State {
    if ms == [] then s else Next(r, Run(r, s, ms[..|ms| - 1]), ms[|ms| - 1])
  }

  function Trace(r: Release, s: State, ms: seq<Stimulus>): seq<Event> {
    if ms == [] then []
    else Trace(r, s, ms[..|ms| - 1]) + Emitted(r, Run(r, s, ms[..|ms| - 1]), ms[|ms| - 1])
  }

  predicate LegalRun(r: Release, s: State, ms: seq<Stimulus>) {
    ms == []
    || (LegalRun(r, s, ms[..|ms| - 1]) && LegalStimulus(Run(r, s, ms[..|ms| - 1]), ms[|ms| - 1]))
  }
}
