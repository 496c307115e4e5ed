/** The invariant of every reachable contract state. */
module KernelInvariant {
  import opened Wrappers
  import opened ProtocolTypes
  import opened Kernel

  // ---------- One challenge ----------

  predicate ScheduleOk(t: Terms) {
    && t.createdAt < t.acceptanceDeadline < t.observationTime
    && t.observationTime < t.sourceCorrectionCutoff < t.proposalDeadline
    && 0 < t.disputeWindowSeconds && 0 < t.arbitrationWindowSeconds
    && t.sourceCorrectionCutoff < t.observationTime + t.disputeWindowSeconds
    && t.proposalDeadline + t.disputeWindowSeconds + t.arbitrationWindowSeconds <= t.timeoutVoidAt <= MAX_UINT64
  }

  /** No role of the release, nor the zero address, takes part in a challenge. */
  predicate Outsider(r: Release, wallet: Address) {
    wallet !in {ZERO_ADDRESS, r.self, r.canonicalToken, r.resolver, r.arbiter, r.pauser}
  }

  predicate TermsOk(r: Release, id: Bytes32, t: Terms) {
    && id == r.crypto.challengeId(t.specHash)
    && t.specHash == r.crypto.specHash(t.executionHash, t.termsHash)
    && t.instanceNonce != ZERO_HASH
    && Outsider(r, t.challengerWallet)
    && 0 < t.stakeAmount <= MAX_STAKE
    && ScheduleOk(t)
  }

  predicate AcceptanceOk(r: Release, c: Challenge) {
    && c.present
    && c.terms.createdAt <= c.openedAt < c.terms.acceptanceDeadline
    && c.acceptanceNonce <= MAX_UINT256
    && if c.state in {Open, Cancelled, Expired} then
        c.acceptingWallet == ZERO_ADDRESS && c.acceptedAt == 0
      else
        && Outsider(r, c.acceptingWallet) && c.acceptingWallet != c.terms.challengerWallet
        && c.openedAt <= c.acceptedAt < c.terms.acceptanceDeadline
  }

  predicate ReasonsOk(outcome: Outcome, abReason: nat, voidReason: nat) {
    if outcome == OutcomeVoid then abReason == 0 && voidReason <= MAX_VOID_REASON
    else voidReason == 0 && abReason <= MAX_AB_REASON
  }

  predicate ProposalOk(t: Terms, p: Proposal) {
    && p.present
    && ReasonsOk(p.outcome, p.abReason, p.evidenceVoidReason)
    && p.evidenceHash != ZERO_HASH
    && t.observationTime <= p.proposedAt < t.proposalDeadline
    && p.disputeDeadline == p.proposedAt + t.disputeWindowSeconds
    && (p.outcome == OutcomeVoid && p.evidenceVoidReason != TERMS_UNRESOLVABLE ==>
          t.sourceCorrectionCutoff <= p.proposedAt)
  }

  predicate DisputeOk(t: Terms, acceptor: Address, p: Proposal, d: Dispute) {
    && d.present
    && d.disputingWallet in {t.challengerWallet, acceptor}
    && ReasonsOk(d.outcome, d.abReason, d.evidenceVoidReason)
    && d.outcome != p.outcome
    && d.evidenceHash != ZERO_HASH
    && d.parentEvidenceHash == p.evidenceHash
    && p.proposedAt <= d.disputedAt < p.disputeDeadline
    && d.arbitrationStart == (if d.disputedAt < t.sourceCorrectionCutoff then t.sourceCorrectionCutoff else d.disputedAt)
    && d.arbitrationDeadline == d.arbitrationStart + t.arbitrationWindowSeconds
  }

  predicate HistoryOk(t: Terms, acceptor: Address, p: Proposal, d: Dispute) {
    if !p.present then p == NO_PROPOSAL && d == NO_DISPUTE
    else ProposalOk(t, p) && if !d.present then d == NO_DISPUTE else DisputeOk(t, acceptor, p, d)
  }

  predicate ResolvedOk(r: Release, p: Proposal, d: Dispute, f: FinalResolution) {
    && p.present
    && f.timeoutVoidReason == 0 && f.voidPath == UncontestedVoid
    && if f.resolutionPath == UncontestedResolution then
        && !d.present
        && (f.outcome, f.abReason, f.finalEvidenceHash) == (p.outcome, p.abReason, p.evidenceHash)
        && f.parentEvidenceHash == ZERO_HASH
      else
        && d.present && f.finalizedBy == r.arbiter
        && f.finalEvidenceHash != ZERO_HASH && f.parentEvidenceHash == d.evidenceHash
  }

  predicate VoidedOk(r: Release, p: Proposal, d: Dispute, f: FinalResolution) {
    && f.resolutionPath == UncontestedResolution
    && match f.voidPath
      case UncontestedVoid =>
        && p.present && !d.present && f.timeoutVoidReason == 0
        && (f.outcome, f.evidenceVoidReason, f.finalEvidenceHash) == (p.outcome, p.evidenceVoidReason, p.evidenceHash)
        && f.parentEvidenceHash == ZERO_HASH
      case ArbiterVoid =>
        && p.present && d.present && f.finalizedBy == r.arbiter && f.timeoutVoidReason == 0
        && f.finalEvidenceHash != ZERO_HASH && f.parentEvidenceHash == d.evidenceHash
      case ProposalTimeoutVoid =>
        && !p.present && f.timeoutVoidReason == NO_PROPOSAL_TIMEOUT
        && f.evidenceVoidReason == 0 && f.finalEvidenceHash == f.parentEvidenceHash == ZERO_HASH
      case ArbitrationTimeoutVoid =>
        && d.present && f.timeoutVoidReason == ARBITRATION_TIMEOUT
        && f.evidenceVoidReason == 0 && f.finalEvidenceHash == f.parentEvidenceHash == ZERO_HASH
  }

  predicate FinalOk(r: Release, p: Proposal, d: Dispute, f: FinalResolution) {
    && f.present
    && f.finalizedBy != ZERO_ADDRESS
    && ReasonsOk(f.outcome, f.abReason, f.evidenceVoidReason)
    && if f.outcome == OutcomeVoid then VoidedOk(r, p, d, f) else ResolvedOk(r, p, d, f)
  }

  /** Which records a state carries. */
  predicate StageOk(state: LifecycleState, p: Proposal, d: Dispute, f: FinalResolution) {
    match state
    case Open | Active | Cancelled | Expired => !p.present && f == NO_FINAL
    case Proposed => p.present && !d.present && f == NO_FINAL
    case Disputed => d.present && f == NO_FINAL
    case ResolvedA => f.present && f.outcome == OutcomeA
    case ResolvedB => f.present && f.outcome == OutcomeB
    case Void => f.present && f.outcome == OutcomeVoid
  }

  predicate LifecycleOk(r: Release, c: Challenge) {
    && AcceptanceOk(r, c)
    && HistoryOk(c.terms, c.acceptingWallet, c.proposal, c.dispute)
    && StageOk(c.state, c.proposal, c.dispute, c.finalResolution)
    && (c.finalResolution.present ==> FinalOk(r, c.proposal, c.dispute, c.finalResolution))
  }

  /** An entitlement that is wholly claimable or wholly paid. */
  predicate Granted(e: Entitlement, amount: nat) {
    e == Entitlement(true, amount, 0) || e == Entitlement(true, 0, amount)
  }

  predicate MoneyOk(t: Terms, state: LifecycleState, deposited: nat, outstanding: nat, challengers: Entitlement,
                    acceptors: Entitlement)
  {
    match state
    case Open =>
      deposited == outstanding == t.stakeAmount && challengers == acceptors == NO_ENTITLEMENT
    case Active | Proposed | Disputed =>
      deposited == outstanding == t.stakeAmount * 2 && challengers == acceptors == NO_ENTITLEMENT
    case Cancelled | Expired =>
      && deposited == t.stakeAmount && outstanding == challengers.claimableAmount
      && Granted(challengers, t.stakeAmount) && acceptors == NO_ENTITLEMENT
    case ResolvedA | ResolvedB =>
      && deposited == t.stakeAmount * 2
      && if (state == ResolvedA) == (t.challengerSide == SideA) then
          && Granted(challengers, t.stakeAmount * 2) && acceptors == NO_ENTITLEMENT
          && outstanding == challengers.claimableAmount
        else
          && Granted(acceptors, t.stakeAmount * 2) && challengers == NO_ENTITLEMENT
          && outstanding == acceptors.claimableAmount
    case Void =>
      && deposited == t.stakeAmount * 2
      && Granted(challengers, t.stakeAmount) && Granted(acceptors, t.stakeAmount)
      && outstanding == challengers.claimableAmount + acceptors.claimableAmount
  }

  predicate SlotOk(r: Release, s: State, id: Bytes32)
    requires id in s.challenges
  {
    var c := s.challenges[id];
    && TermsOk(r, id, c.terms)
    && LifecycleOk(r, c)
    && c.openedAt <= s.clock && c.proposal.proposedAt <= s.clock
    && MoneyOk(c.terms, c.state, c.depositedAmount, c.outstandingLiability,
               EntitlementAt(s, id, c.terms.challengerWallet), EntitlementAt(s, id, c.acceptingWallet))
  }

  // ---------- The whole contract ----------

  ghost function TotalLiability(challenges: map<Bytes32, Challenge>): nat {
    if challenges == map[] then 0
    else
      var id :| id in challenges;
      challenges[id].outstandingLiability + TotalLiability(challenges - {id})
  }

  ghost predicate SlotsOk(r: Release, s: State) {
    forall id :: id in s.challenges ==> SlotOk(r, s, id)
  }

  /** Only participants hold entitlements. */
  ghost predicate EntitlementsOwned(s: State) {
    forall key :: key in s.entitlements ==>
      && key.challengeId in s.challenges
      && key.wallet != ZERO_ADDRESS
      && (key.wallet == s.challenges[key.challengeId].terms.challengerWallet
          || key.wallet == s.challenges[key.challengeId].acceptingWallet)
  }

  function NonceOf(t: Terms): NonceKey {
    NonceKey(t.challengerWallet, t.instanceNonce)
  }

  /** The used nonces cover those of the existing challenges, and no two challenges share one. */
  ghost predicate NoncesOk(s: State) {
    && (forall id :: id in s.challenges ==> NonceOf(s.challenges[id].terms) in s.usedInstanceNonces)
    && (forall i, j :: i in s.challenges && j in s.challenges && i != j ==>
          NonceOf(s.challenges[i].terms) != NonceOf(s.challenges[j].terms))
  }

  ghost predicate Solvent(s: State) {
    && s.totalOutstandingLiability == TotalLiability(s.challenges)
    && s.totalOutstandingLiability <= s.escrowBalance <= MAX_UINT256
  }

  ghost predicate Inv(r: Release, s: State) {
    SlotsOk(r, s) && EntitlementsOwned(s) && NoncesOk(s) && Solvent(s)
  }

  /** The wallets a challenge's end entitles to something. */
  function OwedWallets(c: Challenge): set<Address> {
    match c.state
    case Cancelled | Expired => {c.terms.challengerWallet}
    case ResolvedA => {WinnerWallet(c, OutcomeA)}
    case ResolvedB => {WinnerWallet(c, OutcomeB)}
    case Void => {c.terms.challengerWallet, c.acceptingWallet}
    case _ => {}
  }

  /** What the getters tell: a challenge reads as present exactly when it is stored, and as all zero otherwise; an
      entitlement reads as present exactly for the wallets that the challenge's end entitles. */
  lemma ReadsTell(r: Release, s: State, id: Bytes32, wallet: Address)
    requires Inv(r, s)
    ensures ChallengeAt(s, id).present <==> id in s.challenges
    ensures id !in s.challenges ==> ChallengeAt(s, id) == NO_CHALLENGE
    ensures EntitlementAt(s, id, wallet).present <==> id in s.challenges && wallet in OwedWallets(s.challenges[id])
    ensures !EntitlementAt(s, id, wallet).present ==> EntitlementAt(s, id, wallet) == NO_ENTITLEMENT
  {
    hide TermsOk, HistoryOk, FinalOk, Solvent, NoncesOk;
    if id in s.challenges {
      assert SlotOk(r, s, id);
    }
    if EntitlementKey(id, wallet) in s.entitlements {
      assert EntitlementKey(id, wallet).challengeId in s.challenges;
    }
  }

  // ---------- Sums over challenges ----------

  lemma {:induction false} TotalWithout(challenges: map<Bytes32, Challenge>, id: Bytes32)
    requires id in challenges
    ensures TotalLiability(challenges) == challenges[id].outstandingLiability + TotalLiability(challenges - {id})
    decreases |challenges|
  {
    var picked :| picked in challenges
      && TotalLiability(challenges) == challenges[picked].outstandingLiability + TotalLiability(challenges - {picked});
    if picked != id {
      TotalWithout(challenges - {picked}, id);
      TotalWithout(challenges - {id}, picked);
      assert challenges - {picked} - {id} == challenges - {id} - {picked};
    }
  }

  lemma TotalAfterUpdate(challenges: map<Bytes32, Challenge>, id: Bytes32, c: Challenge)
    ensures TotalLiability(challenges[id := c]) ==
            TotalLiability(challenges) + c.outstandingLiability
            - (if id in challenges then challenges[id].outstandingLiability else 0)
  {
    TotalWithout(challenges[id := c], id);
    if id in challenges {
      TotalWithout(challenges, id);
      assert challenges[id := c] - {id} == challenges - {id};
    } else {
      assert challenges[id := c] - {id} == challenges;
    }
  }

  // ---------- A call touches one challenge ----------

  ghost predicate OwnedAt(s: State, id: Bytes32, c: Challenge) {
    forall wallet: Address :: EntitlementKey(id, wallet) in s.entitlements ==>
      wallet != ZERO_ADDRESS && (wallet == c.terms.challengerWallet || wallet == c.acceptingWallet)
  }

  /** What a call on challenge id may rely on. */
  ghost predicate Local(r: Release, s: State, id: Bytes32) {
    && id in s.challenges
    && SlotOk(r, s, id)
    && OwnedAt(s, id, s.challenges[id])
    && s.challenges[id].outstandingLiability <= s.totalOutstandingLiability <= s.escrowBalance <= MAX_UINT256
  }

  ghost predicate SameElsewhere(s: State, s': State, id: Bytes32) {
    forall key: EntitlementKey :: key.challengeId != id ==>
      && (key in s'.entitlements <==> key in s.entitlements)
      && (key in s.entitlements ==> s'.entitlements[key] == s.entitlements[key])
  }

  /** From s to s', challenge id alone changes, keeps its part of the invariant, and its liability is booked. */
  ghost predicate Advances(r: Release, s: State, s': State, id: Bytes32) {
    && id in s.challenges && id in s'.challenges
    && s'.challenges == s.challenges[id := s'.challenges[id]]
    && s'.challenges[id].terms == s.challenges[id].terms
    && SlotOk(r, s', id)
    && OwnedAt(s', id, s'.challenges[id])
    && SameElsewhere(s, s', id)
    && s'.usedInstanceNonces == s.usedInstanceNonces
    && s'.totalOutstandingLiability + s.challenges[id].outstandingLiability
       == s.totalOutstandingLiability + s'.challenges[id].outstandingLiability
    && s'.totalOutstandingLiability <= s'.escrowBalance <= MAX_UINT256
    && s.clock <= s'.clock
  }

  lemma InvLocal(r: Release, s: State, id: Bytes32)
    requires Inv(r, s) && id in s.challenges
    ensures Local(r, s, id)
  {
    TotalWithout(s.challenges, id);
    assert OwnedAt(s, id, s.challenges[id]);
  }

  lemma OtherSlot(r: Release, s: State, s': State, other: Bytes32)
    requires other in s.challenges && other in s'.challenges && s'.challenges[other] == s.challenges[other]
    requires SlotOk(r, s, other) && s.clock <= s'.clock
    requires var c := s.challenges[other];
             && EntitlementAt(s', other, c.terms.challengerWallet) == EntitlementAt(s, other, c.terms.challengerWallet)
             && EntitlementAt(s', other, c.acceptingWallet) == EntitlementAt(s, other, c.acceptingWallet)
    ensures SlotOk(r, s', other)
  {
  }

  lemma AdvanceKeepsSlots(r: Release, s: State, s': State, id: Bytes32)
    requires SlotsOk(r, s) && Advances(r, s, s', id)
    ensures SlotsOk(r, s')
  {
    forall other | other in s'.challenges
      ensures SlotOk(r, s', other)
    {
      if other != id {
        assert SlotOk(r, s, other);
        OtherSlot(r, s, s', other);
      }
    }
  }

  lemma AdvanceKeepsOwners(r: Release, s: State, s': State, id: Bytes32)
    requires EntitlementsOwned(s)
    requires id in s.challenges && id in s'.challenges && s'.challenges == s.challenges[id := s'.challenges[id]]
    requires OwnedAt(s', id, s'.challenges[id]) && SameElsewhere(s, s', id)
    ensures EntitlementsOwned(s')
  {
    forall key | key in s'.entitlements
      ensures key.challengeId in s'.challenges && key.wallet != ZERO_ADDRESS
      ensures key.wallet == s'.challenges[key.challengeId].terms.challengerWallet
           || key.wallet == s'.challenges[key.challengeId].acceptingWallet
    {
      if key.challengeId == id {
        assert key == EntitlementKey(id, key.wallet);
      }
    }
  }

  lemma AdvanceKeepsNonces(s: State, s': State, id: Bytes32)
    requires NoncesOk(s)
    requires id in s.challenges && id in s'.challenges && s'.challenges == s.challenges[id := s'.challenges[id]]
    requires s'.challenges[id].terms == s.challenges[id].terms && s'.usedInstanceNonces == s.usedInstanceNonces
    ensures NoncesOk(s')
  {
    assert forall other :: other in s'.challenges ==> s'.challenges[other].terms == s.challenges[other].terms;
  }

  lemma AdvanceKeepsInv(r: Release, s: State, s': State, id: Bytes32)
    requires Inv(r, s) && Advances(r, s, s', id)
    ensures Inv(r, s')
  {
    AdvanceKeepsSlots(r, s, s', id);
    AdvanceKeepsOwners(r, s, s', id);
    AdvanceKeepsNonces(s, s', id);
    TotalAfterUpdate(s.challenges, id, s'.challenges[id]);
  }

  // ---------- Each entry point ----------

  lemma CreatedSlot(r: Release, s: State, env: Env, x: Execution, terms: Bytes32, supplied: Bytes32)
    requires s.clock <= env.now && CreateReply(r, s, env, x, terms, supplied).Committed?
    requires forall key :: key in s.entitlements ==> key.challengeId in s.challenges
    requires var id := r.crypto.challengeId(r.crypto.specHash(r.crypto.executionHash(x), terms)); id !in s.challenges
    ensures var id := r.crypto.challengeId(r.crypto.specHash(r.crypto.executionHash(x), terms));
            SlotOk(r, CreateReply(r, s, env, x, terms, supplied).state, id)
  {
  }

  lemma CreateKeepsSlots(r: Release, s: State, s': State, id: Bytes32, c: Challenge)
    requires SlotsOk(r, s) && id !in s.challenges && s.clock <= s'.clock
    requires s'.challenges == s.challenges[id := c] && s'.entitlements == s.entitlements && SlotOk(r, s', id)
    ensures SlotsOk(r, s')
  {
    forall other | other in s'.challenges
      ensures SlotOk(r, s', other)
    {
      if other != id {
        assert SlotOk(r, s, other);
        OtherSlot(r, s, s', other);
      }
    }
  }

  lemma CreateKeepsNonces(s: State, s': State, id: Bytes32, c: Challenge)
    requires NoncesOk(s) && id !in s.challenges && NonceOf(c.terms) !in s.usedInstanceNonces
    requires s'.challenges == s.challenges[id := c]
    requires s'.usedInstanceNonces == s.usedInstanceNonces + {NonceOf(c.terms)}
    ensures NoncesOk(s')
  {
  }

  lemma CreateKeepsOwners(s: State, s': State, id: Bytes32, c: Challenge)
    requires EntitlementsOwned(s) && id !in s.challenges
    requires s'.challenges == s.challenges[id := c] && s'.entitlements == s.entitlements
    ensures EntitlementsOwned(s')
  {
  }

  lemma CreateKeeps(r: Release, s: State, env: Env, x: Execution, terms: Bytes32, supplied: Bytes32)
    requires Inv(r, s) && s.clock <= env.now
    requires CreateReply(r, s, env, x, terms, supplied).Committed?
    ensures Inv(r, CreateReply(r, s, env, x, terms, supplied).state)
  {
    hide SlotOk, ValidateExecution;
    var s' := CreateReply(r, s, env, x, terms, supplied).state;
    var id := r.crypto.challengeId(r.crypto.specHash(r.crypto.executionHash(x), terms));
    IdIsNew(r, s, id);
    CreatedSlot(r, s, env, x, terms, supplied);
    CreateKeepsSlots(r, s, s', id, s'.challenges[id]);
    CreateKeepsNonces(s, s', id, s'.challenges[id]);
    CreateKeepsOwners(s, s', id, s'.challenges[id]);
    TotalAfterUpdate(s.challenges, id, s'.challenges[id]);
  }

  lemma AcceptAdvances(r: Release, s: State, env: Env, id: Bytes32, p: Permit, signature: Signature)
    requires Local(r, s, id) && s.clock <= env.now
    requires AcceptReply(r, s, env, id, p, signature).Committed?
    ensures Advances(r, s, AcceptReply(r, s, env, id, p, signature).state, id)
  {
    assert EntitlementKey(id, p.acceptingWallet) !in s.entitlements;
  }

  lemma AdvanceNonceAdvances(r: Release, s: State, env: Env, id: Bytes32)
    requires Local(r, s, id) && s.clock <= env.now && AdvanceNonceReply(s, env, id).Committed?
    ensures Advances(r, s, AdvanceNonceReply(s, env, id).state, id)
  {
  }

  lemma OpenRefundAdvances(r: Release, s: State, env: Env, id: Bytes32, terminalState: LifecycleState)
    requires Local(r, s, id) && s.clock <= env.now && s.challenges[id].state == Open
    requires terminalState in {Cancelled, Expired}
    ensures Advances(r, s, CreateOpenRefund(s, id, terminalState).(clock := env.now), id)
  {
  }

  lemma ProposeAdvances(r: Release, s: State, env: Env, id: Bytes32, outcome: Outcome, reason: nat, evidence: Bytes32)
    requires Local(r, s, id) && s.clock <= env.now
    requires ProposeReply(r, s, env, id, outcome, reason, evidence).Committed?
    ensures Advances(r, s, ProposeReply(r, s, env, id, outcome, reason, evidence).state, id)
  {
  }

  lemma DisputeAdvances(r: Release, s: State, env: Env, id: Bytes32, outcome: Outcome, reason: nat, evidence: Bytes32,
                        parent: Bytes32)
    requires Local(r, s, id) && s.clock <= env.now
    requires DisputeReply(s, env, id, outcome, reason, evidence, parent).Committed?
    ensures Advances(r, s, DisputeReply(s, env, id, outcome, reason, evidence, parent).state, id)
  {
  }

  lemma ResolveAdvances(r: Release, s: State, env: Env, id: Bytes32, outcome: Outcome, abReason: nat,
                        evidence: Bytes32, parent: Bytes32, path: ResolutionPath)
    requires Local(r, s, id) && s.clock <= env.now && s.challenges[id].state in {Proposed, Disputed}
    requires FinalizeResolved(s, env, id, outcome, abReason, evidence, parent, path).Committed?
    requires outcome != OutcomeVoid
    requires var c := s.challenges[id];
             FinalOk(r, c.proposal, c.dispute,
                     FinalizeResolved(s, env, id, outcome, abReason, evidence, parent, path).state.challenges[id]
                     .finalResolution)
    ensures Advances(r, s, FinalizeResolved(s, env, id, outcome, abReason, evidence, parent, path).state, id)
  {
  }

  /** The state both kinds of void commit. */
  function Voided(s: State, env: Env, id: Bytes32, final: FinalResolution): State {
    CreateAcceptedRefunds(
      s.(challenges := s.challenges[id := ChallengeAt(s, id).(state := Void, finalResolution := final)],
         clock := env.now), id)
  }

  lemma VoidAdvances(r: Release, s: State, env: Env, id: Bytes32, final: FinalResolution)
    requires Local(r, s, id) && s.clock <= env.now && s.challenges[id].state in {Active, Proposed, Disputed}
    requires final.outcome == OutcomeVoid && FinalOk(r, s.challenges[id].proposal, s.challenges[id].dispute, final)
    ensures Advances(r, s, Voided(s, env, id, final), id)
  {
  }

  lemma FinalizeUncontestedAdvances(r: Release, s: State, env: Env, id: Bytes32)
    requires Local(r, s, id) && s.clock <= env.now && env.sender != ZERO_ADDRESS
    requires FinalizeUncontestedReply(s, env, id).Committed?
    ensures Advances(r, s, FinalizeUncontestedReply(s, env, id).state, id)
  {
    var p := s.challenges[id].proposal;
    if p.outcome == OutcomeVoid {
      VoidAdvances(r, s, env, id, FinalizeUncontestedReply(s, env, id).state.challenges[id].finalResolution);
    } else {
      ResolveAdvances(r, s, env, id, p.outcome, p.abReason, p.evidenceHash, ZERO_HASH, UncontestedResolution);
    }
  }

  lemma ArbitrateAdvances(r: Release, s: State, env: Env, id: Bytes32, outcome: Outcome, reason: nat,
                          evidence: Bytes32, parent: Bytes32)
    requires Local(r, s, id) && s.clock <= env.now && env.sender != ZERO_ADDRESS
    requires ArbitrateReply(r, s, env, id, outcome, reason, evidence, parent).Committed?
    ensures Advances(r, s, ArbitrateReply(r, s, env, id, outcome, reason, evidence, parent).state, id)
  {
    if outcome == OutcomeVoid {
      VoidAdvances(r, s, env, id,
                   ArbitrateReply(r, s, env, id, outcome, reason, evidence, parent).state.challenges[id].finalResolution);
    } else {
      ResolveAdvances(r, s, env, id, outcome, reason, evidence, parent, ArbiterResolution);
    }
  }

  lemma VoidUnproposedAdvances(r: Release, s: State, env: Env, id: Bytes32)
    requires Local(r, s, id) && s.clock <= env.now && env.sender != ZERO_ADDRESS
    requires VoidUnproposedReply(s, env, id).Committed?
    ensures Advances(r, s, VoidUnproposedReply(s, env, id).state, id)
  {
    VoidAdvances(r, s, env, id, VoidUnproposedReply(s, env, id).state.challenges[id].finalResolution);
  }

  lemma VoidUnarbitratedAdvances(r: Release, s: State, env: Env, id: Bytes32)
    requires Local(r, s, id) && s.clock <= env.now && env.sender != ZERO_ADDRESS
    requires VoidUnarbitratedReply(s, env, id).Committed?
    ensures Advances(r, s, VoidUnarbitratedReply(s, env, id).state, id)
  {
    VoidAdvances(r, s, env, id, VoidUnarbitratedReply(s, env, id).state.challenges[id].finalResolution);
  }

  lemma PayAdvances(r: Release, s: State, env: Env, id: Bytes32, wallet: Address, amount: nat)
    requires Local(r, s, id) && s.clock <= env.now && Terminal(s.challenges[id].state)
    requires ConsumeAndPay(s, env, id, wallet, amount).Ok?
    ensures Advances(r, s, ConsumeAndPay(s, env, id, wallet, amount).value, id)
  {
    assert EntitlementKey(id, wallet) in s.entitlements;
  }

  /** Only the pause flag, the balance or the clock changes. */
  lemma BooksUnchanged(r: Release, s: State, s': State)
    requires Inv(r, s) && s.clock <= s'.clock
    requires s'.escrowBalance == s.escrowBalance || s.escrowBalance <= s'.escrowBalance <= MAX_UINT256
    requires s' == s.(paused := s'.paused, escrowBalance := s'.escrowBalance, clock := s'.clock)
    ensures Inv(r, s')
  {
    forall id | id in s'.challenges
      ensures SlotOk(r, s', id)
    {
      OtherSlot(r, s, s', id);
    }
  }

  /** Every committed call on an existing challenge advances that challenge. */
  lemma CallAdvances(r: Release, s: State, env: Env, call: Call)
    requires OnExisting(call)
    requires Execute(r, s, env, call).Committed?
    requires Local(r, s, call.challengeId) && s.clock <= env.now && env.sender != ZERO_ADDRESS
    ensures Advances(r, s, Execute(r, s, env, call).state, call.challengeId)
  {
    hide Local, Advances, AcceptReply, AdvanceNonceReply, ProposeReply, DisputeReply, FinalizeUncontestedReply;
    hide ArbitrateReply, VoidUnproposedReply, VoidUnarbitratedReply, CreateOpenRefund, ConsumeAndPay;
    match call
    case Accept(id, permit, signature) => AcceptAdvances(r, s, env, id, permit, signature);
    case AdvanceAcceptanceNonce(id) => AdvanceNonceAdvances(r, s, env, id);
    case CancelOpen(id) => OpenRefundAdvances(r, s, env, id, Cancelled);
    case ExpireOpen(id) => OpenRefundAdvances(r, s, env, id, Expired);
    case Propose(id, outcome, reason, evidence) => ProposeAdvances(r, s, env, id, outcome, reason, evidence);
    case DisputeOutcome(id, outcome, reason, evidence, parent) =>
      DisputeAdvances(r, s, env, id, outcome, reason, evidence, parent);
    case FinalizeUncontested(id) => FinalizeUncontestedAdvances(r, s, env, id);
    case Arbitrate(id, outcome, reason, evidence, parent) =>
      ArbitrateAdvances(r, s, env, id, outcome, reason, evidence, parent);
    case VoidUnproposed(id) => VoidUnproposedAdvances(r, s, env, id);
    case VoidUnarbitrated(id) => VoidUnarbitratedAdvances(r, s, env, id);
    case ClaimWinnings(id) => PayAdvances(r, s, env, id, env.sender, s.challenges[id].terms.stakeAmount * 2);
    case RefundPrincipal(id) => PayAdvances(r, s, env, id, env.sender, s.challenges[id].terms.stakeAmount);
  }

  /** A call on a challenge that must be there already. */
  predicate OnExisting(call: Call) {
    !call.CreateAndFund? && !call.SetPaused?
  }

  lemma CommitNeedsChallenge(r: Release, s: State, env: Env, call: Call)
    requires OnExisting(call)
    requires Execute(r, s, env, call).Committed?
    ensures call.challengeId in s.challenges
  {
  }

  lemma PauseStays(r: Release, s: State, env: Env, call: Call)
    requires !call.SetPaused? && Execute(r, s, env, call).Committed?
    ensures Execute(r, s, env, call).state.paused == s.paused
  {
  }

  /** What a creation writes. */
  lemma CreateEffect(r: Release, s: State, env: Env, x: Execution, terms: Bytes32, supplied: Bytes32)
    requires CreateReply(r, s, env, x, terms, supplied).Committed?
    ensures var Committed(s', e) := CreateReply(r, s, env, x, terms, supplied);
            && e.ChallengeCreated? && e.acceptanceNonce == 0 && !ChallengeAt(s, e.challengeId).present
            && x.stakeAmount <= MAX_STAKE
            && Outsider(r, e.terms.challengerWallet)
            && s'.challenges == s.challenges[e.challengeId := NewChallenge(e.terms, env.now)]
            && e.terms == TermsOf(x, e.terms.specHash, e.terms.executionHash, e.terms.termsHash)
            && s'.entitlements == s.entitlements && s'.paused == s.paused
            && s'.usedInstanceNonces == s.usedInstanceNonces + {NonceKey(x.challengerWallet, x.nonce)}
            && s'.totalOutstandingLiability == s.totalOutstandingLiability + x.stakeAmount
  {
  }

  lemma IdIsNew(r: Release, s: State, id: Bytes32)
    requires SlotsOk(r, s) && !ChallengeAt(s, id).present
    ensures id !in s.challenges
  {
  }

  /** Every committed call keeps the invariant. */
  lemma CommitKeepsInv(r: Release, s: State, env: Env, call: Call)
    requires Inv(r, s) && s.clock <= env.now && env.sender != ZERO_ADDRESS
    requires Execute(r, s, env, call).Committed?
    ensures Inv(r, Execute(r, s, env, call).state)
  {
    hide Inv, Local, Advances, CreateReply, AcceptReply, AdvanceNonceReply, CancelReply, ExpireReply, ProposeReply;
    hide DisputeReply, FinalizeUncontestedReply, ArbitrateReply, VoidUnproposedReply, VoidUnarbitratedReply;
    hide ClaimReply, RefundReply;
    if call.CreateAndFund? {
      CreateKeeps(r, s, env, call.execution, call.termsHash, call.suppliedSpecHash);
    } else if call.SetPaused? {
      BooksUnchanged(r, s, Execute(r, s, env, call).state);
    } else {
      CommitNeedsChallenge(r, s, env, call);
      InvLocal(r, s, call.challengeId);
      CallAdvances(r, s, env, call);
      AdvanceKeepsInv(r, s, Execute(r, s, env, call).state, call.challengeId);
    }
  }

  lemma StimulusKeepsInv(r: Release, s: State, m: Stimulus)
    requires Inv(r, s) && LegalStimulus(s, m)
    ensures Inv(r, Next(r, s, m))
  {
    match m
    case Donation(_) =>
      BooksUnchanged(r, s, Next(r, s, m));
    case Transaction(env, call) =>
      if Execute(r, s, env, call).Committed? {
        CommitKeepsInv(r, s, env, call);
      }
  }

  lemma DeployedInv(r: Release, initialPaused: bool, balance: nat, now: nat)
    requires balance <= MAX_UINT256
    ensures Inv(r, DeployedState(initialPaused, balance, now))
  {
  }

  /** The invariant holds after every run. */
  lemma {:induction false} RunKeepsInv(r: Release, s: State, ms: seq<Stimulus>)
    requires Inv(r, s) && LegalRun(r, s, ms)
    ensures Inv(r, Run(r, s, ms))
  {
    if ms != [] {
      RunKeepsInv(r, s, ms[..|ms| - 1]);
      StimulusKeepsInv(r, Run(r, s, ms[..|ms| - 1]), ms[|ms| - 1]);
    }
  }
}
