/** Why a call is refused. For every entry point, what each of its errors says; a call commits exactly when none of them
    is deserved, and a refused call names one that is. */
module Refusals {
  import opened Wrappers
  import opened ProtocolTypes
  import opened Kernel

  // ---------- What an error says ----------

  predicate PullRefused(before: nat, amount: nat, token: TokenReply, e: Error) {
    || (e == TokenBalanceQueryFailed && !token.balanceReadable)
    || (e == TokenTransferReverted && !token.callSucceeded)
    || (e == TokenTransferReturnedFalse && token.returnData == Word(0))
    || (e == TokenTransferMalformedReturn
        && (token.returnData == OtherLength || (token.returnData.Word? && token.returnData.word > 1)))
    || (e == TokenBalanceDeltaMismatch && token.escrowAfter != before + amount)
  }

  predicate PushRefused(before: nat, amount: nat, token: TokenReply, e: Error) {
    || (e == TokenSenderBalanceDeltaMismatch && token.escrowAfter + amount != before)
    || (e == TokenRecipientBalanceDeltaMismatch && token.recipientAfter != token.recipientBefore + amount)
    || (e != TokenBalanceDeltaMismatch && PullRefused(before, amount, token, e))
  }

  function Sum(a: nat, b: nat): nat {
    a + b
  }

  predicate ExecutionRefused(r: Release, env: Env, x: Execution, e: Error) {
    || (e == ZeroInstanceNonce && x.nonce == ZERO_HASH)
    || (e == InvalidExecutionChain && x.chainId != r.chainId)
    || (e == InvalidExecutionEscrow && x.escrowContract != r.self)
    || (e == InvalidExecutionToken && x.token != r.canonicalToken)
    || (e == InvalidExecutionTokenDecimals && x.tokenDecimals != r.tokenDecimals)
    || (e == InvalidChallengerWallet
        && x.challengerWallet in {ZERO_ADDRESS, r.self, r.canonicalToken, r.resolver, r.arbiter})
    || (e == ParticipantIsPauser && x.challengerWallet == r.pauser)
    || (e == CallerNotChallenger && env.sender != x.challengerWallet)
    || (e == InvalidStakeAmount && (x.stakeAmount == 0 || Sum(x.stakeAmount, x.stakeAmount) > MAX_UINT256))
    || (e == CreatedAtAfterOpening && env.now < x.createdAt)
    || (e == InvalidAcceptanceDeadline && x.acceptanceDeadline <= env.now)
    || (e == InvalidObservationTime && x.observationTime <= x.acceptanceDeadline)
    || (e == InvalidProposalDeadline && x.proposalDeadline <= x.observationTime)
    || (e == InvalidDisputeWindow && x.disputeWindowSeconds == 0)
    || (e == InvalidArbitrationWindow && x.arbitrationWindowSeconds == 0)
    || (e == InvalidSourceCorrectionCutoff
        && (|| x.sourceCorrectionCutoff <= x.observationTime || x.proposalDeadline <= x.sourceCorrectionCutoff
            || x.sourceCorrectionCutoff - x.observationTime >= x.disputeWindowSeconds))
    || (e == InvalidTimeoutVoidAt
        && (|| x.timeoutVoidAt - x.arbitrationWindowSeconds - x.disputeWindowSeconds < x.proposalDeadline
            || x.timeoutVoidAt - x.arbitrationWindowSeconds < x.sourceCorrectionCutoff))
  }

  predicate CreateRefused(r: Release, s: State, env: Env, x: Execution, termsHash: Bytes32, supplied: Bytes32, e: Error)
  {
    var specHash := r.crypto.specHash(r.crypto.executionHash(x), termsHash);
    || (e == ContractPaused && s.paused)
    || ExecutionRefused(r, env, x, e)
    || (e == SpecHashMismatch && supplied != specHash)
    || (e == ChallengeAlreadyExists && ChallengeAt(s, r.crypto.challengeId(specHash)).present)
    || (e == InstanceNonceAlreadyUsed && NonceKey(x.challengerWallet, x.nonce) in s.usedInstanceNonces)
    || (e == ArithmeticPanic && Sum(s.totalOutstandingLiability, x.stakeAmount) > MAX_UINT256)
    || PullRefused(s.escrowBalance, x.stakeAmount, env.token, e)
  }

  predicate PermitRefused(r: Release, c: Challenge, env: Env, id: Bytes32, p: Permit, signature: Signature, e: Error) {
    || (e == PermitChallengeIdMismatch && p.challengeId != id)
    || (e == PermitSpecHashMismatch && p.specHash != c.terms.specHash)
    || (e == CallerNotAcceptingWallet && env.sender != p.acceptingWallet)
    || (e == InvalidAcceptingWallet
        && p.acceptingWallet in {ZERO_ADDRESS, r.self, r.canonicalToken, r.resolver, r.arbiter,
                                 c.terms.challengerWallet})
    || (e == ParticipantIsPauser && p.acceptingWallet == r.pauser)
    || (e == PermitNonceMismatch && p.acceptanceNonce != c.acceptanceNonce)
    || (e == InvalidPermitExpiry && (p.expiresAt <= env.now || c.terms.acceptanceDeadline < p.expiresAt))
    || (e == InvalidPermitSignature && r.crypto.recover(p, signature) == None)
    || (e == InvalidPermitSigner
        && r.crypto.recover(p, signature).Some? && r.crypto.recover(p, signature).value != c.terms.challengerWallet)
  }

  predicate AcceptRefused(r: Release, s: State, env: Env, id: Bytes32, p: Permit, signature: Signature, e: Error) {
    var c := ChallengeAt(s, id);
    || (e == ContractPaused && s.paused)
    || (e == ChallengeNotFound && !c.present)
    || (e == ChallengeNotOpen && c.state != Open)
    || (e == AcceptanceWindowClosed && c.terms.acceptanceDeadline <= env.now)
    || PermitRefused(r, c, env, id, p, signature, e)
    || (e == ArithmeticPanic
        && (|| Sum(c.depositedAmount, c.terms.stakeAmount) > MAX_UINT256
            || Sum(c.outstandingLiability, c.terms.stakeAmount) > MAX_UINT256
            || Sum(s.totalOutstandingLiability, c.terms.stakeAmount) > MAX_UINT256))
    || PullRefused(s.escrowBalance, c.terms.stakeAmount, env.token, e)
  }

  predicate OpenRefused(s: State, env: Env, call: Call, e: Error)
    requires call.AdvanceAcceptanceNonce? || call.CancelOpen? || call.ExpireOpen?
  {
    var c := ChallengeAt(s, call.challengeId);
    || (e == ChallengeNotFound && !c.present)
    || (e == ChallengeNotOpen && c.state != Open)
    || (e == CallerNotChallenger && !call.ExpireOpen? && env.sender != c.terms.challengerWallet)
    || (e == AcceptanceWindowClosed && (call.ExpireOpen? <==> env.now < c.terms.acceptanceDeadline))
    || (e == ArithmeticPanic && call.AdvanceAcceptanceNonce? && c.acceptanceNonce >= MAX_UINT256)
  }

  /** Five reasons of an evidence void and three of an outcome have a number, beside zero. */
  predicate UnknownReason(outcome: Outcome, code: nat) {
    code >= if outcome == OutcomeVoid then 6 else 4
  }

  predicate ProposeRefused(r: Release, s: State, env: Env, id: Bytes32, outcome: Outcome, code: nat, evidence: Bytes32,
                           e: Error)
  {
    var c := ChallengeAt(s, id);
    || (e == ContractPaused && s.paused)
    || (e == ChallengeNotFound && !c.present)
    || (e == ChallengeNotActive && c.state != Active)
    || (e == CallerNotResolver && env.sender != r.resolver)
    || (e == ObservationNotReached && env.now < c.terms.observationTime)
    || (e == ProposalWindowClosed && c.terms.proposalDeadline <= env.now)
    || (e == ZeroEvidenceHash && evidence == ZERO_HASH)
    || (e == InvalidOutcomeReason && UnknownReason(outcome, code))
    || (e == SourceCorrectionCutoffNotReached
        && outcome == OutcomeVoid && code != 5 && env.now < c.terms.sourceCorrectionCutoff)
    || (e == ArithmeticPanic && Sum(env.now, c.terms.disputeWindowSeconds) > MAX_UINT64)
  }

  function Later(a: nat, b: nat): nat {
    if a < b then b else a
  }

  predicate DisputeRefused(s: State, env: Env, id: Bytes32, outcome: Outcome, code: nat, evidence: Bytes32,
                           parent: Bytes32, e: Error)
  {
    var c := ChallengeAt(s, id);
    || (e == ChallengeNotFound && !c.present)
    || (e == ChallengeNotProposed && c.state != Proposed)
    || (e == CallerNotParticipant && env.sender !in {c.terms.challengerWallet, c.acceptingWallet})
    || (e == DisputeWindowClosed && c.proposal.disputeDeadline <= env.now)
    || (e == DisputeOutcomeUnchanged && outcome == c.proposal.outcome)
    || (e == ZeroEvidenceHash && evidence == ZERO_HASH)
    || (e == ParentEvidenceHashMismatch && parent != c.proposal.evidenceHash)
    || (e == InvalidOutcomeReason && UnknownReason(outcome, code))
    || (e == ArithmeticPanic
        && Sum(Later(env.now, c.terms.sourceCorrectionCutoff), c.terms.arbitrationWindowSeconds) > MAX_UINT64)
  }

  predicate ArbitrateRefused(r: Release, s: State, env: Env, id: Bytes32, outcome: Outcome, code: nat,
                             evidence: Bytes32, parent: Bytes32, e: Error)
  {
    var c := ChallengeAt(s, id);
    || (e == ChallengeNotFound && !c.present)
    || (e == ChallengeNotDisputed && c.state != Disputed)
    || (e == CallerNotArbiter && env.sender != r.arbiter)
    || (e == SourceCorrectionCutoffNotReached && env.now < c.terms.sourceCorrectionCutoff)
    || (e == ArbitrationWindowClosed && c.dispute.arbitrationDeadline <= env.now)
    || (e == ZeroEvidenceHash && evidence == ZERO_HASH)
    || (e == ParentEvidenceHashMismatch && parent != c.dispute.evidenceHash)
    || (e == InvalidOutcomeReason && UnknownReason(outcome, code))
    || (e == ArithmeticPanic && outcome != OutcomeVoid && Sum(c.terms.stakeAmount, c.terms.stakeAmount) > MAX_UINT256)
  }

  predicate DeadlineRefused(s: State, env: Env, call: Call, e: Error)
    requires call.FinalizeUncontested? || call.VoidUnproposed? || call.VoidUnarbitrated?
  {
    var c := ChallengeAt(s, call.challengeId);
    || (e == ChallengeNotFound && !c.present)
    || (e == ChallengeNotProposed && call.FinalizeUncontested? && c.state != Proposed)
    || (e == DisputeDeadlineNotReached && call.FinalizeUncontested? && env.now < c.proposal.disputeDeadline)
    || (e == ArithmeticPanic
        && call.FinalizeUncontested? && c.proposal.outcome != OutcomeVoid
        && Sum(c.terms.stakeAmount, c.terms.stakeAmount) > MAX_UINT256)
    || (e == ChallengeNotActive && call.VoidUnproposed? && c.state != Active)
    || (e == ProposalDeadlineNotReached && call.VoidUnproposed? && env.now < c.terms.proposalDeadline)
    || (e == ChallengeNotDisputed && call.VoidUnarbitrated? && c.state != Disputed)
    || (e == ArbitrationDeadlineNotReached && call.VoidUnarbitrated? && env.now < c.dispute.arbitrationDeadline)
  }

  predicate PaymentRefused(s: State, env: Env, id: Bytes32, amount: nat, e: Error) {
    || (e == InvalidEntitlement && EntitlementAt(s, id, env.sender) != Entitlement(true, amount, 0))
    || (e == LiabilityAccountingMismatch
        && (ChallengeAt(s, id).outstandingLiability < amount || s.totalOutstandingLiability < amount))
    || (e == EscrowInsolvent
        && (s.escrowBalance < s.totalOutstandingLiability
            || Sum(env.token.escrowAfter, amount) < s.totalOutstandingLiability))
    || PushRefused(s.escrowBalance, amount, env.token, e)
  }

  predicate ClaimRefused(s: State, env: Env, id: Bytes32, e: Error) {
    var c := ChallengeAt(s, id);
    var double := Sum(c.terms.stakeAmount, c.terms.stakeAmount);
    || (e == ChallengeNotFound && !c.present)
    || (e == ChallengeNotResolved && c.state !in {ResolvedA, ResolvedB})
    || (e == CallerNotWinningWallet && env.sender != WinnerWallet(c, c.finalResolution.outcome))
    || (e == ArithmeticPanic && double > MAX_UINT256)
    || PaymentRefused(s, env, id, double, e)
  }

  predicate RefundRefused(s: State, env: Env, id: Bytes32, e: Error) {
    var c := ChallengeAt(s, id);
    || (e == ChallengeNotFound && !c.present)
    || (e == ChallengeNotRefundable && c.state !in {Cancelled, Expired, Void})
    || (e == CallerNotRefundRecipient
        && (env.sender != c.terms.challengerWallet && (c.state == Void ==> env.sender != c.acceptingWallet)))
    || PaymentRefused(s, env, id, c.terms.stakeAmount, e)
  }

  /** Whether a call gives cause for an error. */
  predicate Deserved(r: Release, s: State, env: Env, call: Call, e: Error) {
    match call
    case CreateAndFund(x, terms, supplied) => CreateRefused(r, s, env, x, terms, supplied, e)
    case Accept(id, p, signature) => AcceptRefused(r, s, env, id, p, signature, e)
    case AdvanceAcceptanceNonce(_) => OpenRefused(s, env, call, e)
    case CancelOpen(_) => OpenRefused(s, env, call, e)
    case ExpireOpen(_) => OpenRefused(s, env, call, e)
    case Propose(id, outcome, code, evidence) => ProposeRefused(r, s, env, id, outcome, code, evidence, e)
    case DisputeOutcome(id, outcome, code, evidence, parent) =>
      DisputeRefused(s, env, id, outcome, code, evidence, parent, e)
    case Arbitrate(id, outcome, code, evidence, parent) =>
      ArbitrateRefused(r, s, env, id, outcome, code, evidence, parent, e)
    case ClaimWinnings(id) => ClaimRefused(s, env, id, e)
    case RefundPrincipal(id) => RefundRefused(s, env, id, e)
    case SetPaused(newPaused) =>
      (e == CallerNotPauser && env.sender != r.pauser) || (e == PauseStatusUnchanged && newPaused == s.paused)
    case _ => DeadlineRefused(s, env, call, e)
  }

  // ---------- Refused for cause, committed without ----------

  /** A refusal names an error that is deserved, and a commit leaves none. */
  ghost predicate JustlyAnswered(r: Release, s: State, env: Env, call: Call) {
    match Execute(r, s, env, call)
    case Reverted(e) => Deserved(r, s, env, call, e)
    case Committed(_, _) => forall e :: !Deserved(r, s, env, call, e)
  }

  lemma PullAnswers(before: nat, amount: nat, token: TokenReply)
    ensures match PullExact(before, amount, token)
            case Err(e) => PullRefused(before, amount, token, e)
            case Ok(_) => forall e :: !PullRefused(before, amount, token, e)
  {
  }

  lemma PushAnswers(before: nat, amount: nat, token: TokenReply)
    ensures match PushExact(before, amount, token)
            case Err(e) => PushRefused(before, amount, token, e)
            case Ok(balance) => balance == token.escrowAfter && forall e :: !PushRefused(before, amount, token, e)
  {
  }

  lemma ExecutionAnswers(r: Release, env: Env, x: Execution)
    ensures match ValidateExecution(r, env, x)
            case Some(e) => ExecutionRefused(r, env, x, e)
            case None => forall e :: !ExecutionRefused(r, env, x, e)
  {
  }

  lemma PermitAnswers(r: Release, c: Challenge, env: Env, id: Bytes32, p: Permit, signature: Signature)
    ensures match CheckPermit(r, c, env, id, p, signature)
            case Some(e) => PermitRefused(r, c, env, id, p, signature, e)
            case None => forall e :: !PermitRefused(r, c, env, id, p, signature, e)
  {
  }

  lemma CreateAnswered(r: Release, s: State, env: Env, call: Call)
    requires call.CreateAndFund?
    ensures JustlyAnswered(r, s, env, call)
  {
    hide ValidateExecution, ExecutionRefused, PullExact, PullRefused;
    ExecutionAnswers(r, env, call.execution);
    PullAnswers(s.escrowBalance, call.execution.stakeAmount, env.token);
  }

  lemma AcceptAnswered(r: Release, s: State, env: Env, call: Call)
    requires call.Accept?
    ensures JustlyAnswered(r, s, env, call)
  {
    hide CheckPermit, PermitRefused, PullExact, PullRefused;
    var c := ChallengeAt(s, call.challengeId);
    PermitAnswers(r, c, env, call.challengeId, call.permit, call.signature);
    PullAnswers(s.escrowBalance, c.terms.stakeAmount, env.token);
  }

  lemma OpenAnswered(r: Release, s: State, env: Env, call: Call)
    requires call.AdvanceAcceptanceNonce? || call.CancelOpen? || call.ExpireOpen?
    ensures JustlyAnswered(r, s, env, call)
  {
  }

  lemma ProposeAnswered(r: Release, s: State, env: Env, call: Call)
    requires call.Propose? || call.DisputeOutcome?
    ensures JustlyAnswered(r, s, env, call)
  {
  }

  lemma ArbitrateAnswered(r: Release, s: State, env: Env, call: Call)
    requires call.Arbitrate? || call.FinalizeUncontested? || call.VoidUnproposed? || call.VoidUnarbitrated?
    ensures JustlyAnswered(r, s, env, call)
  {
  }

  lemma PaymentAnswers(s: State, env: Env, id: Bytes32, amount: nat)
    ensures match ConsumeAndPay(s, env, id, env.sender, amount)
            case Err(e) => PaymentRefused(s, env, id, amount, e)
            case Ok(_) => forall e :: !PaymentRefused(s, env, id, amount, e)
  {
    hide PushExact, PushRefused;
    PushAnswers(s.escrowBalance, amount, env.token);
    OnlyTokenErrors(s.escrowBalance, amount, env.token);
  }

  lemma OnlyTokenErrors(before: nat, amount: nat, token: TokenReply)
    ensures !PushRefused(before, amount, token, InvalidEntitlement)
    ensures !PushRefused(before, amount, token, EscrowInsolvent)
    ensures !token.balanceReadable ==> PushRefused(before, amount, token, TokenBalanceQueryFailed)
  {
  }

  lemma PullAnswered(r: Release, s: State, env: Env, call: Call)
    requires call.ClaimWinnings? || call.RefundPrincipal?
    ensures JustlyAnswered(r, s, env, call)
  {
    hide ConsumeAndPay, PaymentRefused;
    var c := ChallengeAt(s, call.challengeId);
    PaymentAnswers(s, env, call.challengeId,
                   if call.ClaimWinnings? then c.terms.stakeAmount * 2 else c.terms.stakeAmount);
  }

  /** In any state whatever, a call commits if and only if it deserves no error, and a refused call is refused for an
      error it deserves. */
  lemma CommitsExactly(r: Release, s: State, env: Env, call: Call)
    ensures Execute(r, s, env, call).Committed? <==> forall e :: !Deserved(r, s, env, call, e)
    ensures Execute(r, s, env, call).Reverted? ==> Deserved(r, s, env, call, Execute(r, s, env, call).error)
  {
    assert JustlyAnswered(r, s, env, call) by {
      hide Execute, Deserved, JustlyAnswered;
      match call
      case CreateAndFund(_, _, _) => CreateAnswered(r, s, env, call);
      case Accept(_, _, _) => AcceptAnswered(r, s, env, call);
      case AdvanceAcceptanceNonce(_) => OpenAnswered(r, s, env, call);
      case CancelOpen(_) => OpenAnswered(r, s, env, call);
      case ExpireOpen(_) => OpenAnswered(r, s, env, call);
      case Propose(_, _, _, _) => ProposeAnswered(r, s, env, call);
      case DisputeOutcome(_, _, _, _, _) => ProposeAnswered(r, s, env, call);
      case ClaimWinnings(_) => PullAnswered(r, s, env, call);
      case RefundPrincipal(_) => PullAnswered(r, s, env, call);
      case SetPaused(_) => PauseAnswered(r, s, env, call);
      case _ => ArbitrateAnswered(r, s, env, call);
    }
    hide Execute, Deserved;
  }

  lemma PauseAnswered(r: Release, s: State, env: Env, call: Call)
    requires call.SetPaused?
    ensures JustlyAnswered(r, s, env, call)
  {
  }

  // ---------- Deployment ----------

  predicate DeploymentRefused(r: Release, tokenHasCode: bool, e: Error) {
    || (e == ZeroCanonicalToken && r.canonicalToken == ZERO_ADDRESS)
    || (e == CanonicalTokenEqualsEscrow && r.canonicalToken == r.self)
    || (e == CanonicalTokenHasNoCode && !tokenHasCode)
    || (e == ZeroResolver && r.resolver == ZERO_ADDRESS)
    || (e == ZeroArbiter && r.arbiter == ZERO_ADDRESS)
    || (e == ResolverEqualsArbiter && r.resolver == r.arbiter)
    || (e == UnsupportedTokenDecimals && r.tokenDecimals >= 19)
    || (e == ResolverRoleOverlap && r.resolver in {r.canonicalToken, r.self})
    || (e == ArbiterRoleOverlap && r.arbiter in {r.canonicalToken, r.self})
    || (e == ZeroPauser && r.pauser == ZERO_ADDRESS)
    || (e == PauserRoleOverlap && r.pauser in {r.self, r.canonicalToken, r.resolver, r.arbiter})
  }

  /** A deployment goes through if and only if it gives cause for no error, and is refused for one it gives cause for. */
  lemma DeploysExactly(r: Release, tokenHasCode: bool)
    ensures DeploymentError(r, tokenHasCode) == None <==> forall e :: !DeploymentRefused(r, tokenHasCode, e)
    ensures DeploymentError(r, tokenHasCode).Some? ==>
              DeploymentRefused(r, tokenHasCode, DeploymentError(r, tokenHasCode).value)
  {
    var error := DeploymentError(r, tokenHasCode);
    assert error.Some? ==> DeploymentRefused(r, tokenHasCode, error.value);
  }
}
