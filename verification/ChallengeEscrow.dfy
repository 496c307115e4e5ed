/** The deployed contract as an object: storage written field by field, in the order of the source, with every
    entry point proved to do what Kernel says. */
module ChallengeEscrowContract {
  import opened Wrappers
  import opened ProtocolTypes
  import opened Kernel

  /** How a method's outcome reflects a reply: the committed state and one more event, or nothing but an error. */
  ghost predicate Performs(reply: Reply, before: State, logBefore: seq<Event>, after: State, logAfter: seq<Event>,
                           error: Option<Error>)
  {
    match reply
    case Committed(state, event) => error == None && after == state && logAfter == logBefore + [event]
    case Reverted(e) => error == Some(e) && after == before && logAfter == logBefore
  }

  class ChallengeEscrow {
    const release: Release
    var paused: bool
    var totalOutstandingLiability: nat
    var challenges: map<Bytes32, Challenge>
    var entitlements: map<EntitlementKey, Entitlement>
    var usedInstanceNonces: set<NonceKey>
    var log: seq<Event>
    /** The token's record of this contract's balance. */
    var escrowBalance: nat
    ghost var clock: nat

    ghost function Snapshot(): State
      reads this
    {
      State(paused, totalOutstandingLiability, challenges, entitlements, usedInstanceNonces, escrowBalance, clock)
    }

    constructor (release: Release, initialPaused: bool, balance: nat, ghost now: nat)
      ensures this.release == release
      ensures Snapshot() == DeployedState(initialPaused, balance, now)
      ensures log == [ReleaseEvent(release, initialPaused)]
    {
      this.release := release;
      paused := initialPaused;
      totalOutstandingLiability := 0;
      challenges := map[];
      entitlements := map[];
      usedInstanceNonces := {};
      escrowBalance := balance;
      clock := now;
      log := [ReleaseDeclared(release.crypto.releaseId(release.chainId, release.self), release.chainId, release.self,
                              release.canonicalToken, release.tokenDecimals, release.resolver, release.arbiter,
                              initialPaused)];
    }

    static method Deploy(release: Release, tokenHasCode: bool, initialPaused: bool, balance: nat, ghost now: nat)
      returns (r: Result<ChallengeEscrow, Error>)
      ensures match r
              case Err(e) => DeploymentError(release, tokenHasCode) == Some(e)
              case Ok(escrow) =>
                && DeploymentError(release, tokenHasCode) == None
                && fresh(escrow) && escrow.release == release
                && escrow.Snapshot() == DeployedState(initialPaused, balance, now)
                && escrow.log == [ReleaseEvent(release, initialPaused)]
    {
      var error := DeploymentError(release, tokenHasCode);
      if error.Some? { return Err(error.value); }
      var escrow := new ChallengeEscrow(release, initialPaused, balance, now);
      return Ok(escrow);
    }

    function GetChallenge(id: Bytes32): (c: Challenge)
      reads this
      ensures c == ChallengeAt(Snapshot(), id)
    {
      if id in challenges then challenges[id] else NO_CHALLENGE
    }

    function GetEntitlement(id: Bytes32, wallet: Address): (e: Entitlement)
      reads this
      ensures e == EntitlementAt(Snapshot(), id, wallet)
    {
      var key := EntitlementKey(id, wallet);
      if key in entitlements then entitlements[key] else NO_ENTITLEMENT
    }

    method CreateAndFund(env: Env, x: Execution, termsHash: Bytes32, suppliedSpecHash: Bytes32)
      returns (error: Option<Error>)
      modifies this
      ensures Performs(CreateReply(release, old(Snapshot()), env, x, termsHash, suppliedSpecHash),
                       old(Snapshot()), old(log), Snapshot(), log, error)
    {
      if paused { return Some(ContractPaused); }
      error := ValidateExecution(release, env, x);
      if error.Some? { return; }
      var executionHash := release.crypto.executionHash(x);
      var specHash := release.crypto.specHash(executionHash, termsHash);
      if suppliedSpecHash != specHash { return Some(SpecHashMismatch); }
      var id := release.crypto.challengeId(specHash);
      if GetChallenge(id).present { return Some(ChallengeAlreadyExists); }
      var nonceKey := NonceKey(x.challengerWallet, x.nonce);
      if nonceKey in usedInstanceNonces { return Some(InstanceNonceAlreadyUsed); }
      var pulled := PullExact(escrowBalance, x.stakeAmount, env.token);
      if pulled.Err? { return Some(pulled.error); }
      if totalOutstandingLiability + x.stakeAmount > MAX_UINT256 { return Some(ArithmeticPanic); }
      escrowBalance := pulled.value;
      usedInstanceNonces := usedInstanceNonces + {nonceKey};
      totalOutstandingLiability := totalOutstandingLiability + x.stakeAmount;
      var terms := Terms(specHash, executionHash, termsHash, x.nonce, x.challengerWallet, x.challengerSide,
                         x.stakeAmount, x.createdAt, x.acceptanceDeadline, x.observationTime,
                         x.sourceCorrectionCutoff, x.proposalDeadline, x.disputeWindowSeconds,
                         x.arbitrationWindowSeconds, x.timeoutVoidAt);
      var c := NO_CHALLENGE.(present := true, state := Open, terms := terms);
      c := c.(depositedAmount := x.stakeAmount);
      c := c.(outstandingLiability := x.stakeAmount);
      c := c.(openedAt := env.now);
      challenges := challenges[id := c];
      log := log + [ChallengeCreated(id, c.terms, c.acceptanceNonce)];
      clock := env.now;
    }

    method Accept(env: Env, id: Bytes32, permit: Permit, signature: Signature) returns (error: Option<Error>)
      modifies this
      ensures Performs(AcceptReply(release, old(Snapshot()), env, id, permit, signature),
                       old(Snapshot()), old(log), Snapshot(), log, error)
    {
      if paused { return Some(ContractPaused); }
      error := CheckState(id, Open, ChallengeNotOpen);
      if error.Some? { return; }
      var c := challenges[id];
      if env.now >= c.terms.acceptanceDeadline { return Some(AcceptanceWindowClosed); }
      error := CheckPermit(release, c, env, id, permit, signature);
      if error.Some? { return; }
      var pulled := PullExact(escrowBalance, c.terms.stakeAmount, env.token);
      if pulled.Err? { return Some(pulled.error); }
      if c.depositedAmount + c.terms.stakeAmount > MAX_UINT256
         || c.outstandingLiability + c.terms.stakeAmount > MAX_UINT256
         || totalOutstandingLiability + c.terms.stakeAmount > MAX_UINT256 { return Some(ArithmeticPanic); }
      escrowBalance := pulled.value;
      c := c.(acceptingWallet := permit.acceptingWallet);
      c := c.(acceptedAt := env.now);
      c := c.(depositedAmount := c.depositedAmount + c.terms.stakeAmount);
      c := c.(outstandingLiability := c.outstandingLiability + c.terms.stakeAmount);
      totalOutstandingLiability := totalOutstandingLiability + c.terms.stakeAmount;
      c := c.(state := Active);
      challenges := challenges[id := c];
      var acceptingSide := if c.terms.challengerSide == SideA then SideB else SideA;
      log := log + [ChallengeAccepted(id, permit.acceptingWallet, acceptingSide, permit.acceptanceNonce,
                                      permit.expiresAt, c.terms.stakeAmount)];
      clock := env.now;
    }

    method AdvanceAcceptanceNonce(env: Env, id: Bytes32) returns (error: Option<Error>)
      modifies this
      ensures Performs(AdvanceNonceReply(old(Snapshot()), env, id),
                       old(Snapshot()), old(log), Snapshot(), log, error)
    {
      error := CheckState(id, Open, ChallengeNotOpen);
      if error.Some? { return; }
      var c := challenges[id];
      if env.sender != c.terms.challengerWallet { return Some(CallerNotChallenger); }
      if env.now >= c.terms.acceptanceDeadline { return Some(AcceptanceWindowClosed); }
      var previousNonce := c.acceptanceNonce;
      if previousNonce + 1 > MAX_UINT256 { return Some(ArithmeticPanic); }
      challenges := challenges[id := c.(acceptanceNonce := previousNonce + 1)];
      log := log + [AcceptanceNonceAdvanced(id, c.terms.challengerWallet, previousNonce, previousNonce + 1)];
      clock := env.now;
    }

    method CancelOpen(env: Env, id: Bytes32) returns (error: Option<Error>)
      modifies this
      ensures Performs(CancelReply(old(Snapshot()), env, id), old(Snapshot()), old(log), Snapshot(), log, error)
    {
      error := CheckState(id, Open, ChallengeNotOpen);
      if error.Some? { return; }
      var c := challenges[id];
      if env.sender != c.terms.challengerWallet { return Some(CallerNotChallenger); }
      if env.now >= c.terms.acceptanceDeadline { return Some(AcceptanceWindowClosed); }
      GrantOpenRefund(id, Cancelled);
      log := log + [ChallengeCancelled(id, c.terms.challengerWallet, c.terms.stakeAmount)];
      clock := env.now;
    }

    method ExpireOpen(env: Env, id: Bytes32) returns (error: Option<Error>)
      modifies this
      ensures Performs(ExpireReply(old(Snapshot()), env, id), old(Snapshot()), old(log), Snapshot(), log, error)
    {
      error := CheckState(id, Open, ChallengeNotOpen);
      if error.Some? { return; }
      var c := challenges[id];
      if env.now < c.terms.acceptanceDeadline { return Some(AcceptanceWindowClosed); }
      GrantOpenRefund(id, Expired);
      log := log + [ChallengeExpired(id, env.sender, c.terms.challengerWallet, c.terms.stakeAmount)];
      clock := env.now;
    }

    method Propose(env: Env, id: Bytes32, outcome: Outcome, reasonCode: nat, evidenceHash: Bytes32)
      returns (error: Option<Error>)
      modifies this
      ensures Performs(ProposeReply(release, old(Snapshot()), env, id, outcome, reasonCode, evidenceHash),
                       old(Snapshot()), old(log), Snapshot(), log, error)
    {
      if paused { return Some(ContractPaused); }
      error := CheckState(id, Active, ChallengeNotActive);
      if error.Some? { return; }
      var c := challenges[id];
      if env.sender != release.resolver { return Some(CallerNotResolver); }
      if env.now < c.terms.observationTime { return Some(ObservationNotReached); }
      if env.now >= c.terms.proposalDeadline { return Some(ProposalWindowClosed); }
      if evidenceHash == ZERO_HASH { return Some(ZeroEvidenceHash); }
      var reasons := ValidateReason(outcome, reasonCode);
      if reasons.Err? { return Some(reasons.error); }
      if outcome == OutcomeVoid && reasons.value.evidenceVoidReason != TERMS_UNRESOLVABLE
         && env.now < c.terms.sourceCorrectionCutoff { return Some(SourceCorrectionCutoffNotReached); }
      if env.now + c.terms.disputeWindowSeconds > MAX_UINT64 { return Some(ArithmeticPanic); }
      var deadline := env.now + c.terms.disputeWindowSeconds;
      c := c.(proposal := Proposal(true, outcome, reasons.value.abReason, reasons.value.evidenceVoidReason,
                                   evidenceHash, env.now, deadline));
      c := c.(state := Proposed);
      challenges := challenges[id := c];
      log := log + [OutcomeProposed(id, release.resolver, outcome, reasonCode, evidenceHash, deadline)];
      clock := env.now;
    }

    method DisputeOutcome(env: Env, id: Bytes32, outcome: Outcome, reasonCode: nat, evidenceHash: Bytes32,
                          parent: Bytes32) returns (error: Option<Error>)
      modifies this
      ensures Performs(DisputeReply(old(Snapshot()), env, id, outcome, reasonCode, evidenceHash, parent),
                       old(Snapshot()), old(log), Snapshot(), log, error)
    {
      error := CheckState(id, Proposed, ChallengeNotProposed);
      if error.Some? { return; }
      var c := challenges[id];
      if env.sender != c.terms.challengerWallet && env.sender != c.acceptingWallet {
        return Some(CallerNotParticipant);
      }
      if env.now >= c.proposal.disputeDeadline { return Some(DisputeWindowClosed); }
      if outcome == c.proposal.outcome { return Some(DisputeOutcomeUnchanged); }
      if evidenceHash == ZERO_HASH { return Some(ZeroEvidenceHash); }
      if parent != c.proposal.evidenceHash { return Some(ParentEvidenceHashMismatch); }
      var reasons := ValidateReason(outcome, reasonCode);
      if reasons.Err? { return Some(reasons.error); }
      var start: nat := env.now;
      if env.now < c.terms.sourceCorrectionCutoff { start := c.terms.sourceCorrectionCutoff; }
      if start + c.terms.arbitrationWindowSeconds > MAX_UINT64 { return Some(ArithmeticPanic); }
      var deadline := start + c.terms.arbitrationWindowSeconds;
      c := c.(dispute := Dispute(true, env.sender, outcome, reasons.value.abReason, reasons.value.evidenceVoidReason,
                                 evidenceHash, parent, env.now, start, deadline));
      c := c.(state := Disputed);
      challenges := challenges[id := c];
      log := log + [OutcomeDisputed(id, env.sender, outcome, reasonCode, evidenceHash, parent, start, deadline)];
      clock := env.now;
    }

    method FinalizeUncontested(env: Env, id: Bytes32) returns (error: Option<Error>)
      modifies this
      ensures Performs(FinalizeUncontestedReply(old(Snapshot()), env, id),
                       old(Snapshot()), old(log), Snapshot(), log, error)
    {
      error := CheckState(id, Proposed, ChallengeNotProposed);
      if error.Some? { return; }
      var p := challenges[id].proposal;
      if env.now < p.disputeDeadline { return Some(DisputeDeadlineNotReached); }
      if p.outcome == OutcomeVoid {
        EndInVoid(env, id, p.evidenceVoidReason, NO_PROPOSAL_TIMEOUT, p.evidenceVoidReason, p.evidenceHash, ZERO_HASH,
                  UncontestedVoid);
      } else {
        error := EndResolved(env, id, p.outcome, p.abReason, p.evidenceHash, ZERO_HASH, UncontestedResolution);
      }
    }

    method Arbitrate(env: Env, id: Bytes32, outcome: Outcome, reasonCode: nat, evidenceHash: Bytes32, parent: Bytes32)
      returns (error: Option<Error>)
      modifies this
      ensures Performs(ArbitrateReply(release, old(Snapshot()), env, id, outcome, reasonCode, evidenceHash, parent),
                       old(Snapshot()), old(log), Snapshot(), log, error)
    {
      error := CheckState(id, Disputed, ChallengeNotDisputed);
      if error.Some? { return; }
      var c := challenges[id];
      if env.sender != release.arbiter { return Some(CallerNotArbiter); }
      if env.now < c.terms.sourceCorrectionCutoff { return Some(SourceCorrectionCutoffNotReached); }
      if env.now >= c.dispute.arbitrationDeadline { return Some(ArbitrationWindowClosed); }
      if evidenceHash == ZERO_HASH { return Some(ZeroEvidenceHash); }
      if parent != c.dispute.evidenceHash { return Some(ParentEvidenceHashMismatch); }
      var reasons := ValidateReason(outcome, reasonCode);
      if reasons.Err? { return Some(reasons.error); }
      if outcome == OutcomeVoid {
        var reason := reasons.value.evidenceVoidReason;
        EndInVoid(env, id, reason, NO_PROPOSAL_TIMEOUT, reason, evidenceHash, parent, ArbiterVoid);
      } else {
        error := EndResolved(env, id, outcome, reasons.value.abReason, evidenceHash, parent, ArbiterResolution);
      }
    }

    method VoidUnproposed(env: Env, id: Bytes32) returns (error: Option<Error>)
      modifies this
      ensures Performs(VoidUnproposedReply(old(Snapshot()), env, id),
                       old(Snapshot()), old(log), Snapshot(), log, error)
    {
      error := CheckState(id, Active, ChallengeNotActive);
      if error.Some? { return; }
      if env.now < challenges[id].terms.proposalDeadline { return Some(ProposalDeadlineNotReached); }
      EndInVoid(env, id, 0, NO_PROPOSAL_TIMEOUT, NO_PROPOSAL_TIMEOUT, ZERO_HASH, ZERO_HASH, ProposalTimeoutVoid);
    }

    method VoidUnarbitrated(env: Env, id: Bytes32) returns (error: Option<Error>)
      modifies this
      ensures Performs(VoidUnarbitratedReply(old(Snapshot()), env, id),
                       old(Snapshot()), old(log), Snapshot(), log, error)
    {
      error := CheckState(id, Disputed, ChallengeNotDisputed);
      if error.Some? { return; }
      if env.now < challenges[id].dispute.arbitrationDeadline { return Some(ArbitrationDeadlineNotReached); }
      EndInVoid(env, id, 0, ARBITRATION_TIMEOUT, ARBITRATION_TIMEOUT, ZERO_HASH, ZERO_HASH, ArbitrationTimeoutVoid);
    }

    method ClaimWinnings(env: Env, id: Bytes32) returns (error: Option<Error>)
      modifies this
      ensures Performs(ClaimReply(release, old(Snapshot()), env, id), old(Snapshot()), old(log), Snapshot(), log, error)
    {
      var c := GetChallenge(id);
      if !c.present { return Some(ChallengeNotFound); }
      if c.state != ResolvedA && c.state != ResolvedB { return Some(ChallengeNotResolved); }
      var winnerWallet := WinnerWallet(c, c.finalResolution.outcome);
      if env.sender != winnerWallet { return Some(CallerNotWinningWallet); }
      var amount := c.terms.stakeAmount * 2;
      if amount > MAX_UINT256 { return Some(ArithmeticPanic); }
      error := Pay(env, id, env.sender, amount);
      if error.Some? { return; }
      log := log + [WinningsClaimed(id, release.crypto.entitlementId(id, env.sender), env.sender, amount)];
    }

    method RefundPrincipal(env: Env, id: Bytes32) returns (error: Option<Error>)
      modifies this
      ensures Performs(RefundReply(release, old(Snapshot()), env, id),
                       old(Snapshot()), old(log), Snapshot(), log, error)
    {
      var c := GetChallenge(id);
      if !c.present { return Some(ChallengeNotFound); }
      var originState := c.state;
      var openTerminal := originState == Cancelled || originState == Expired;
      var acceptedTerminal := originState == Void;
      if !openTerminal && !acceptedTerminal { return Some(ChallengeNotRefundable); }
      if (openTerminal && env.sender != c.terms.challengerWallet)
         || (acceptedTerminal && env.sender != c.terms.challengerWallet && env.sender != c.acceptingWallet) {
        return Some(CallerNotRefundRecipient);
      }
      var amount := c.terms.stakeAmount;
      error := Pay(env, id, env.sender, amount);
      if error.Some? { return; }
      log := log + [PrincipalRefunded(id, release.crypto.entitlementId(id, env.sender), env.sender, originState,
                                      amount)];
    }

    method SetPaused(env: Env, newPaused: bool) returns (error: Option<Error>)
      modifies this
      ensures Performs(SetPausedReply(release, old(Snapshot()), env, newPaused),
                       old(Snapshot()), old(log), Snapshot(), log, error)
    {
      if env.sender != release.pauser { return Some(CallerNotPauser); }
      var previousPaused := paused;
      if newPaused == previousPaused { return Some(PauseStatusUnchanged); }
      paused := newPaused;
      log := log + [PauseStatusChanged(env.sender, previousPaused, newPaused)];
      clock := env.now;
      return None;
    }

    // ---------- Internal steps ----------

    function CheckState(id: Bytes32, state: LifecycleState, otherwise: Error): (error: Option<Error>)
      reads this
      ensures error == RequireState(Snapshot(), id, state, otherwise)
      ensures error == None ==> id in challenges && challenges[id].present && challenges[id].state == state
    {
      if !GetChallenge(id).present then Some(ChallengeNotFound)
      else if GetChallenge(id).state != state then Some(otherwise)
      else None
    }

    method GrantOpenRefund(id: Bytes32, terminalState: LifecycleState)
      requires id in challenges
      modifies this`challenges, this`entitlements
      ensures Snapshot() == CreateOpenRefund(old(Snapshot()), id, terminalState)
    {
      var c := challenges[id].(state := terminalState);
      challenges := challenges[id := c];
      GrantEntitlement(id, c.terms.challengerWallet, c.terms.stakeAmount);
    }

    method GrantEntitlement(id: Bytes32, wallet: Address, amount: nat)
      modifies this`entitlements
      ensures Snapshot() == Grant(old(Snapshot()), id, wallet, amount)
    {
      var e := GetEntitlement(id, wallet);
      e := e.(present := true);
      e := e.(claimableAmount := amount);
      entitlements := entitlements[EntitlementKey(id, wallet) := e];
    }

    method EndResolved(env: Env, id: Bytes32, outcome: Outcome, abReason: nat, evidenceHash: Bytes32,
                       parent: Bytes32, path: ResolutionPath) returns (error: Option<Error>)
      requires id in challenges
      modifies this
      ensures Performs(FinalizeResolved(old(Snapshot()), env, id, outcome, abReason, evidenceHash, parent, path),
                       old(Snapshot()), old(log), Snapshot(), log, error)
    {
      var c := challenges[id];
      var claimAmount := c.terms.stakeAmount * 2;
      if claimAmount > MAX_UINT256 { return Some(ArithmeticPanic); }
      c := c.(state := if outcome == OutcomeA then ResolvedA else ResolvedB);
      c := c.(finalResolution := FinalResolution(true, outcome, abReason, 0, NO_PROPOSAL_TIMEOUT, path,
                                                 UncontestedVoid, evidenceHash, parent, env.sender));
      challenges := challenges[id := c];
      var winnerWallet := WinnerWallet(c, outcome);
      GrantEntitlement(id, winnerWallet, claimAmount);
      log := log + [ChallengeResolved(id, env.sender, outcome, abReason, evidenceHash, parent, path, winnerWallet,
                                      claimAmount)];
      clock := env.now;
      return None;
    }

    /** Both kinds of void: an evidence void has a timeout reason of zero, a timeout void no evidence. */
    method EndInVoid(env: Env, id: Bytes32, evidenceReason: nat, timeoutReason: nat, eventReason: nat,
                     evidenceHash: Bytes32, parent: Bytes32, path: VoidPath)
      requires id in challenges
      requires if path in {UncontestedVoid, ArbiterVoid} then
                 timeoutReason == NO_PROPOSAL_TIMEOUT && eventReason == evidenceReason
               else evidenceReason == 0 && eventReason == timeoutReason && evidenceHash == parent == ZERO_HASH
      modifies this
      ensures Performs(if path in {UncontestedVoid, ArbiterVoid} then
                         FinalizeEvidenceVoid(old(Snapshot()), env, id, evidenceReason, evidenceHash, parent, path)
                       else FinalizeTimeoutVoid(old(Snapshot()), env, id, timeoutReason, path),
                       old(Snapshot()), old(log), Snapshot(), log, None)
    {
      var c := challenges[id];
      c := c.(state := Void);
      c := c.(finalResolution := FinalResolution(true, OutcomeVoid, 0, evidenceReason, timeoutReason,
                                                 UncontestedResolution, path, evidenceHash, parent, env.sender));
      challenges := challenges[id := c];
      GrantEntitlement(id, c.terms.challengerWallet, c.terms.stakeAmount);
      GrantEntitlement(id, c.acceptingWallet, c.terms.stakeAmount);
      log := log + [ChallengeVoided(id, env.sender, eventReason, evidenceHash, parent, path, c.terms.stakeAmount)];
      clock := env.now;
    }

    /** Storage is written before the token is called; a refused transfer undoes the writes. */
    method Pay(env: Env, id: Bytes32, wallet: Address, amount: nat) returns (error: Option<Error>)
      requires id in challenges
      modifies this
      ensures log == old(log)
      ensures match ConsumeAndPay(old(Snapshot()), env, id, wallet, amount)
              case Ok(state) => error == None && Snapshot() == state
              case Err(e) => error == Some(e) && Snapshot() == old(Snapshot())
    {
      var e, c := GetEntitlement(id, wallet), challenges[id];
      if !e.present || e.claimableAmount != amount || e.paidAmount != 0 { return Some(InvalidEntitlement); }
      var aggregateLiability := totalOutstandingLiability;
      if c.outstandingLiability < amount || aggregateLiability < amount { return Some(LiabilityAccountingMismatch); }
      if !env.token.balanceReadable { return Some(TokenBalanceQueryFailed); }
      if escrowBalance < aggregateLiability { return Some(EscrowInsolvent); }
      var savedEntitlements, savedChallenges, savedBalance := entitlements, challenges, escrowBalance;
      e := e.(claimableAmount := 0);
      e := e.(paidAmount := amount);
      entitlements := entitlements[EntitlementKey(id, wallet) := e];
      challenges := challenges[id := c.(outstandingLiability := c.outstandingLiability - amount)];
      totalOutstandingLiability := aggregateLiability - amount;
      var pushed := PushExact(escrowBalance, amount, env.token);
      error := None;
      if pushed.Err? {
        error := Some(pushed.error);
      } else {
        escrowBalance := pushed.value;
        if escrowBalance < totalOutstandingLiability { error := Some(EscrowInsolvent); }
      }
      if error.Some? {
        entitlements, challenges, escrowBalance := savedEntitlements, savedChallenges, savedBalance;
        totalOutstandingLiability := aggregateLiability;
        return;
      }
      clock := env.now;
    }
  }
}
