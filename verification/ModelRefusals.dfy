/** Why the abstract model rejects an action. For every action, what each of its codes says; an action that is carried out
    deserves none of them, and a rejected one names one that it deserves. */
module ModelRefusals {
  import opened Wrappers
  import opened JsNumber
  import opened ProtocolTypes
  import opened ModelSteps

  predicate CreateRejected(roles: Roles, m: Model, a: Action, e: Rejection)
    requires a.Create?
  {
    var t := a.schedule;
    || (e == ContractPaused && m.paused)
    || (e == ChallengeAlreadyExists && a.id in m.challenges)
    || (e == InstanceNonceAlreadyUsed && (a.challenger, a.nonce) in m.usedNonces)
    || (e == CallerNotChallenger && a.caller != a.challenger)
    || (e == InvalidExecution
        && (a.nonce == 0 || a.stake < 1 || a.stake + a.stake > MAX_SAFE_INTEGER * Pow2(roles.fractionBits)))
    || (e == InvalidDeadlines
        && !(&& a.now < t.acceptanceDeadline < t.observationTime < t.sourceCorrectionCutoff < t.proposalDeadline
             && 1 <= t.disputeWindow && 1 <= t.arbitrationWindow
             && t.sourceCorrectionCutoff - t.observationTime < t.disputeWindow
             && t.proposalDeadline <= t.timeoutVoidAt - t.arbitrationWindow - t.disputeWindow))
  }

  predicate AcceptRejected(roles: Roles, m: Model, a: Action, e: Rejection)
    requires a.Accept? && a.id in m.challenges
  {
    var c := m.challenges[a.id];
    || (e == ContractPaused && m.paused)
    || (e == ChallengeNotOpen && c.state != Open)
    || (e == AcceptanceWindowClosed && c.schedule.acceptanceDeadline <= a.now)
    || (e == CallerNotAcceptingWallet && a.caller != a.acceptor)
    || (e == InvalidAcceptingWallet
        && a.acceptor in {ZERO_ADDRESS, c.challenger, roles.resolver, roles.arbiter, roles.pauser})
    || (e == PermitNonceMismatch && a.permitNonce != c.acceptanceNonce)
    || (e == InvalidPermit && !(a.permitValid && a.now < a.expiresAt <= c.schedule.acceptanceDeadline))
  }

  predicate OpenRejected(m: Model, a: Action, e: Rejection)
    requires (a.AdvanceNonce? || a.Cancel? || a.Expire?) && a.id in m.challenges
  {
    var c := m.challenges[a.id];
    || (e == ChallengeNotOpen && c.state != Open)
    || (e == AcceptanceWindowOpen && a.Expire? && a.now < c.schedule.acceptanceDeadline)
    || (e == CallerNotChallenger && !a.Expire? && a.caller != c.challenger)
    || (e == AcceptanceWindowClosed && !a.Expire? && c.schedule.acceptanceDeadline <= a.now)
  }

  predicate ProposeRejected(roles: Roles, m: Model, a: Action, e: Rejection)
    requires a.Propose? && a.id in m.challenges
  {
    var c := m.challenges[a.id];
    || (e == ContractPaused && m.paused)
    || (e == ChallengeNotActive && c.state != Active)
    || (e == CallerNotResolver && a.caller != roles.resolver)
    || (e == ObservationNotReached && a.now < c.schedule.observationTime)
    || (e == ProposalWindowClosed && c.schedule.proposalDeadline <= a.now)
    || (e == InvalidProposal && (a.evidenceHash == ZERO_HASH || a.outcome == None))
    || (e == SourceCorrectionCutoffNotReached
        && a.outcome == Some(OutcomeVoid) && !a.unresolvable && a.now < c.schedule.sourceCorrectionCutoff)
  }

  predicate DisputeRejected(m: Model, a: Action, e: Rejection)
    requires a.Dispute? && a.id in m.challenges && m.challenges[a.id].proposal.Some?
  {
    var c, p := m.challenges[a.id], m.challenges[a.id].proposal.value;
    || (e == ChallengeNotProposed && c.state != Proposed)
    || (e == CallerNotParticipant && Some(a.caller) !in {Some(c.challenger), c.acceptor})
    || (e == DisputeWindowClosed && p.disputeDeadline <= a.now)
    || (e == InvalidDispute && a.outcome in {None, Some(p.outcome)})
    || (e == InvalidEvidenceLineage && (a.evidenceHash == ZERO_HASH || a.parentEvidenceHash != p.evidenceHash))
  }

  predicate EndRejected(roles: Roles, m: Model, a: Action, e: Rejection)
    requires a.Finalize? || a.Arbitrate? || a.VoidUnproposed? || a.VoidUnarbitrated?
    requires a.id in m.challenges
    requires a.Finalize? ==> m.challenges[a.id].proposal.Some?
    requires a.Arbitrate? || a.VoidUnarbitrated? ==> m.challenges[a.id].dispute.Some?
  {
    var c := m.challenges[a.id];
    match a
    case Finalize(now, _) =>
      || (e == ChallengeNotProposed && c.state != Proposed)
      || (e == DisputeDeadlineNotReached && now < c.proposal.value.disputeDeadline)
    case Arbitrate(caller, now, _, outcome, evidence, parent) =>
      || (e == ChallengeNotDisputed && c.state != Disputed)
      || (e == CallerNotArbiter && caller != roles.arbiter)
      || (e == SourceCorrectionCutoffNotReached && now < c.schedule.sourceCorrectionCutoff)
      || (e == ArbitrationWindowClosed && c.dispute.value.arbitrationDeadline <= now)
      || (e == InvalidEvidenceLineage
          && (evidence == ZERO_HASH || parent != c.dispute.value.evidenceHash || outcome == None))
    case VoidUnproposed(now, _) =>
      || (e == ChallengeNotActive && c.state != Active)
      || (e == ProposalDeadlineNotReached && now < c.schedule.proposalDeadline)
    case VoidUnarbitrated(now, _) =>
      || (e == ChallengeNotDisputed && c.state != Disputed)
      || (e == ArbitrationDeadlineNotReached && now < c.dispute.value.arbitrationDeadline)
  }

  predicate ConsumeRejected(m: Model, c: ModelChallenge, wallet: Option<Address>, amount: nat, e: Rejection) {
    || (e == InvalidEntitlement
        && !(wallet.Some? && wallet.value in c.entitlements && c.entitlements[wallet.value] == Balance(amount, 0)))
    || (e == LiabilityAccountingMismatch && (c.outstanding < amount || m.totalOutstandingLiability < amount))
  }

  predicate PullRejected(m: Model, a: Action, e: Rejection)
    requires (a.Claim? || a.Refund?) && a.id in m.challenges
    requires a.Claim? ==> m.challenges[a.id].final.Some?
  {
    var c := m.challenges[a.id];
    if a.Claim? then
      var winner := Winner(c, c.final.value.outcome);
      || (e == ChallengeNotResolved && c.state !in {ResolvedA, ResolvedB})
      || (e == CallerNotWinningWallet && winner != Some(a.caller))
      || ConsumeRejected(m, c, winner, c.stake + c.stake, e)
    else
      || (e == ChallengeNotRefundable && c.state !in {Cancelled, Expired, Void})
      || (e == CallerNotRefundRecipient
          && a.caller != c.challenger && (c.state == Void ==> c.acceptor != Some(a.caller)))
      || ConsumeRejected(m, c, Some(a.caller), c.stake, e)
  }

  /** The challenge an action is about carries the records its state promises. */
  predicate RecordsThere(m: Model, a: Action) {
    && (a.Dispute? || a.Finalize? ==> a.id in m.challenges ==> m.challenges[a.id].proposal.Some?)
    && (a.Arbitrate? || a.VoidUnarbitrated? ==> a.id in m.challenges ==> m.challenges[a.id].dispute.Some?)
    && (a.Claim? ==> a.id in m.challenges ==> m.challenges[a.id].final.Some?)
  }

  predicate NamesChallenge(a: Action) {
    !a.Warp? && !a.Unknown? && !a.Pause? && !a.Create?
  }

  /** Whether an action gives cause for a rejection. */
  predicate Deserved(roles: Roles, m: Model, a: Action, e: Rejection)
    requires RecordsThere(m, a)
  {
    if NamesChallenge(a) && a.id !in m.challenges then
      e == ChallengeNotFound || (e == ContractPaused && m.paused && (a.Accept? || a.Propose?))
    else match a
      case Warp => false
      case Unknown => e == UnknownAction
      case Pause(caller, paused) =>
        (e == CallerNotPauser && caller != roles.pauser) || (e == PauseStatusUnchanged && paused == m.paused)
      case Create(_, _, _, _, _, _, _, _) => CreateRejected(roles, m, a, e)
      case Accept(_, _, _, _, _, _, _) => AcceptRejected(roles, m, a, e)
      case AdvanceNonce(_, _, _) => OpenRejected(m, a, e)
      case Cancel(_, _, _) => OpenRejected(m, a, e)
      case Expire(_, _) => OpenRejected(m, a, e)
      case Propose(_, _, _, _, _, _) => ProposeRejected(roles, m, a, e)
      case Dispute(_, _, _, _, _, _) => DisputeRejected(m, a, e)
      case Claim(_, _) => PullRejected(m, a, e)
      case Refund(_, _) => PullRejected(m, a, e)
      case _ => EndRejected(roles, m, a, e)
  }

  ghost predicate JustlyAnswered(roles: Roles, m: Model, a: Action)
    requires RecordsThere(m, a)
  {
    match Step(roles, m, a)
    case Rejected(e) => Deserved(roles, m, a, e)
    case _ => forall e :: !Deserved(roles, m, a, e)
  }

  lemma EarlyAnswered(roles: Roles, m: Model, a: Action)
    requires a.Warp? || a.Unknown? || a.Pause? || a.Create? || a.Accept? || a.AdvanceNonce? || a.Cancel? || a.Expire?
    ensures JustlyAnswered(roles, m, a)
  {
    if a.Create? {
      HalfOfSafe(roles.fractionBits, a.stake);
      hide MaxStake, Pow2;
    }
  }

  /** Twice the stake is within the safe integers exactly when the stake is within half of them. */
  lemma HalfOfSafe(fractionBits: nat, stake: int)
    ensures stake <= MaxStake(fractionBits) <==> stake + stake <= MAX_SAFE_INTEGER * Pow2(fractionBits)
  {
    hide MaxStake, Pow2;
    var n := MaxStake(fractionBits);
  }

  lemma ArgumentAnswered(roles: Roles, m: Model, a: Action)
    requires (a.Propose? || a.Dispute?) && RecordsThere(m, a)
    ensures JustlyAnswered(roles, m, a)
  {
  }

  lemma EndAnswered(roles: Roles, m: Model, a: Action)
    requires (a.Finalize? || a.Arbitrate? || a.VoidUnproposed? || a.VoidUnarbitrated?) && RecordsThere(m, a)
    ensures JustlyAnswered(roles, m, a)
  {
    hide SetFinal;
  }

  lemma PullAnswered(roles: Roles, m: Model, a: Action)
    requires (a.Claim? || a.Refund?) && RecordsThere(m, a)
    ensures JustlyAnswered(roles, m, a)
  {
  }

  /** An action gets past the guards if and only if it deserves no rejection, and a rejected action is rejected for a code
      it deserves. */
  lemma ActsExactly(roles: Roles, m: Model, a: Action)
    requires RecordsThere(m, a)
    ensures !Step(roles, m, a).Rejected? <==> forall e :: !Deserved(roles, m, a, e)
    ensures Step(roles, m, a).Rejected? ==> Deserved(roles, m, a, Step(roles, m, a).code)
  {
    assert JustlyAnswered(roles, m, a) by {
      hide Step, Deserved, JustlyAnswered, RecordsThere;
      if a.Propose? || a.Dispute? {
        ArgumentAnswered(roles, m, a);
      } else if a.Finalize? || a.Arbitrate? || a.VoidUnproposed? || a.VoidUnarbitrated? {
        EndAnswered(roles, m, a);
      } else if a.Claim? || a.Refund? {
        PullAnswered(roles, m, a);
      } else {
        EarlyAnswered(roles, m, a);
      }
    }
    hide Step, Deserved;
  }

  // ---------- What a throw tells ----------

  /** The fields a snapshot shows. */
  predicate LooksAlike(m: Model, n: Model) {
    (m.paused, m.totalOutstandingLiability, m.challenges, m.order)
    == (n.paused, n.totalOutstandingLiability, n.challenges, n.order)
  }

  /** A throw is an atomicity failure exactly when the model looks different afterwards; a refusal changes nothing. */
  lemma ThrowsTell(roles: Roles, m: Model, a: Action)
    ensures var (outcome, m') := Apply(roles, m, a);
            && (outcome.Refused? ==> m' == m)
            && (outcome.Threw? ==> (outcome.error.AtomicityFailure? <==> !LooksAlike(m, m')))
            && (outcome == Threw(TypeError) ==> Step(roles, m, a) == Crashed(m'))
            && (outcome.Threw? && outcome.error.InvariantViolated? ==> Violated(m') == Some(outcome.error.violation))
            && (outcome.Accepted? <==> Step(roles, m, a) == Stepped(m') && Violated(m') == None)
  {
    hide Step, Violated;
  }
}
