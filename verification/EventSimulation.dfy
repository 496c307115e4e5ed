/** The projector follows the contract: folding the events of any run gives the contract's own state back, without a
    single anomaly. */
module EventSimulation {
  import opened Wrappers
  import opened ProtocolTypes
  import opened Kernel
  import opened KernelInvariant
  import opened Conservation
  import opened Projector

  // ---------- What the projection should show ----------

  function Presented<T>(present: bool, value: T): Option<T> {
    if present then Some(value) else None
  }

  function AcceptorOf(c: Challenge): Option<Address> {
    Presented(c.acceptingWallet != ZERO_ADDRESS, c.acceptingWallet)
  }

  function WithEvidence(hashes: seq<Bytes32>, present: bool, hash: Bytes32): seq<Bytes32> {
    if present then AddEvidence(hashes, hash) else hashes
  }

  /** The evidence of the records, in the order they were made, each hash once. */
  function EvidenceOf(c: Challenge): seq<Bytes32> {
    var p, d, f := c.proposal, c.dispute, c.finalResolution;
    WithEvidence(WithEvidence(WithEvidence([], p.present, p.evidenceHash), d.present, d.evidenceHash),
                 f.finalEvidenceHash != ZERO_HASH, f.finalEvidenceHash)
  }

  /** The participants already paid; unpaid ones are not in it. */
  function PaidWallets(s: State, id: Bytes32): set<Address> {
    var c := ChallengeAt(s, id);
    (if EntitlementAt(s, id, c.terms.challengerWallet).paidAmount > 0 then {c.terms.challengerWallet} else {})
    + (if EntitlementAt(s, id, c.acceptingWallet).paidAmount > 0 then {c.acceptingWallet} else {})
  }

  predicate MirrorsRecord(c: Challenge, pc: ProjectedChallenge) {
    var p, d := c.proposal, c.dispute;
    && pc.terms == c.terms
    && pc.state == c.state
    && pc.acceptanceNonce == c.acceptanceNonce
    && pc.acceptingWallet == AcceptorOf(c)
    && pc.proposalEvidenceHash == Presented(p.present, p.evidenceHash)
    && pc.proposalOutcome == Presented(p.present, p.outcome)
    && pc.proposalReasonCode == Presented(p.present, CodeOf(p.outcome, p.abReason, p.evidenceVoidReason))
    && pc.proposalDisputeDeadline == Presented(p.present, p.disputeDeadline)
    && pc.disputeEvidenceHash == Presented(d.present, d.evidenceHash)
    && pc.disputeOutcome == Presented(d.present, d.outcome)
    && pc.evidenceHashes == EvidenceOf(c)
  }

  /** The payouts seen are exactly the entitlements paid. */
  predicate MirrorsPayouts(ids: EntitlementIds, s: State, id: Bytes32, pc: ProjectedChallenge) {
    && pc.payoutWallets == PaidWallets(s, id)
    && pc.payoutIds == set w | w in PaidWallets(s, id) :: ids(id, w)
  }

  predicate MirrorsAt(ids: EntitlementIds, s: State, id: Bytes32, pc: ProjectedChallenge) {
    MirrorsRecord(ChallengeAt(s, id), pc) && MirrorsPayouts(ids, s, id, pc)
  }

  /** The release a projection has recorded, as far as it matters to later checks. */
  predicate KnowsRelease(r: Release, release: Option<Event>) {
    && release.Some? && release.value.ReleaseDeclared?
    && (release.value.escrowContract, release.value.canonicalToken, release.value.resolver, release.value.arbiter)
       == (r.self, r.canonicalToken, r.resolver, r.arbiter)
  }

  ghost predicate Mirrors(r: Release, s: State, p: Projection) {
    && p.anomalies == []
    && KnowsRelease(r, p.release)
    && p.paused == Some(s.paused)
    && p.challenges.Keys == s.challenges.Keys
    && forall id :: id in s.challenges ==> MirrorsAt(r.crypto.entitlementId, s, id, p.challenges[id])
  }

  /** Two wallets never share an entitlement id within a challenge. */
  ghost predicate InjectiveIds(ids: EntitlementIds) {
    forall id, v, w :: ids(id, v) == ids(id, w) ==> v == w
  }

  // ---------- One call, one challenge ----------

  predicate IsPull(call: Call) {
    call.ClaimWinnings? || call.RefundPrincipal?
  }

  /** A projected challenge and the record it mirrors, ready for the next call on it. */
  ghost predicate Ready(r: Release, release: Option<Event>, s: State, env: Env, id: Bytes32, pc: ProjectedChallenge) {
    && Local(r, s, id) && s.clock <= env.now && env.sender != ZERO_ADDRESS
    && MirrorsRecord(s.challenges[id], pc)
    && KnowsRelease(r, release)
  }

  /** The projector accepts the event, and its new entry mirrors the new record; payouts stay as they were. */
  predicate Shown(r: Release, release: Option<Event>, s': State, id: Bytes32, e: Event, pc: ProjectedChallenge) {
    && !IsGlobal(e) && !e.ChallengeCreated? && e.challengeId == id
    && var verdict := OnChallenge(r.crypto.entitlementId, release, pc, e);
    && verdict.Changed?
    && MirrorsRecord(ChallengeAt(s', id), verdict.challenge)
    && verdict.challenge.payoutIds == pc.payoutIds
    && verdict.challenge.payoutWallets == pc.payoutWallets
  }

  lemma AcceptShown(r: Release, release: Option<Event>, s: State, env: Env, id: Bytes32, p: Permit,
                    signature: Signature, pc: ProjectedChallenge)
    requires Ready(r, release, s, env, id, pc) && AcceptReply(r, s, env, id, p, signature).Committed?
    ensures var Committed(s', e) := AcceptReply(r, s, env, id, p, signature);
            Shown(r, release, s', id, e, pc)
  {
  }

  lemma OpenCallShown(r: Release, release: Option<Event>, s: State, env: Env, id: Bytes32, call: Call,
                      pc: ProjectedChallenge)
    requires call in {AdvanceAcceptanceNonce(id), CancelOpen(id), ExpireOpen(id)}
    requires Ready(r, release, s, env, id, pc) && Execute(r, s, env, call).Committed?
    ensures var Committed(s', e) := Execute(r, s, env, call);
            Shown(r, release, s', id, e, pc)
  {
  }

  lemma ProposeShown(r: Release, release: Option<Event>, s: State, env: Env, id: Bytes32, outcome: Outcome,
                     reason: nat, evidence: Bytes32, pc: ProjectedChallenge)
    requires Ready(r, release, s, env, id, pc) && ProposeReply(r, s, env, id, outcome, reason, evidence).Committed?
    ensures var Committed(s', e) := ProposeReply(r, s, env, id, outcome, reason, evidence);
            Shown(r, release, s', id, e, pc)
  {
  }

  lemma DisputeShown(r: Release, release: Option<Event>, s: State, env: Env, id: Bytes32, outcome: Outcome,
                     reason: nat, evidence: Bytes32, parent: Bytes32, pc: ProjectedChallenge)
    requires Ready(r, release, s, env, id, pc) && DisputeReply(s, env, id, outcome, reason, evidence, parent).Committed?
    ensures var Committed(s', e) := DisputeReply(s, env, id, outcome, reason, evidence, parent);
            Shown(r, release, s', id, e, pc)
  {
    hide MoneyOk, FinalOk, TermsOk, ScheduleOk;
    DisputeStartsInTime(r, s, env, id);
  }

  lemma DisputeStartsInTime(r: Release, s: State, env: Env, id: Bytes32)
    requires Local(r, s, id) && s.challenges[id].state == Proposed
    ensures var c := s.challenges[id];
            && c.terms.sourceCorrectionCutoff < c.proposal.disputeDeadline
            && c.proposal.present && !c.dispute.present && c.acceptingWallet != ZERO_ADDRESS
            && c.finalResolution == NO_FINAL
  {
  }

  /** What the projector needs of a resolution: it confirms the proposal or follows the dispute. */
  predicate ResolutionFits(r: Release, c: Challenge, env: Env, outcome: Outcome, reason: nat, evidence: Bytes32,
                           parent: Bytes32, path: ResolutionPath)
  {
    if path == UncontestedResolution then
      && c.state == Proposed && parent == ZERO_HASH
      && (outcome, reason, evidence) == (c.proposal.outcome, c.proposal.abReason, c.proposal.evidenceHash)
    else c.state == Disputed && parent == c.dispute.evidenceHash && env.sender == r.arbiter
  }

  lemma ResolvedShown(r: Release, release: Option<Event>, s: State, env: Env, id: Bytes32, outcome: Outcome,
                      reason: nat, evidence: Bytes32, parent: Bytes32, path: ResolutionPath, pc: ProjectedChallenge)
    requires Ready(r, release, s, env, id, pc) && outcome != OutcomeVoid && evidence != ZERO_HASH
    requires ResolutionFits(r, s.challenges[id], env, outcome, reason, evidence, parent, path)
    requires FinalizeResolved(s, env, id, outcome, reason, evidence, parent, path).Committed?
    ensures var Committed(s', e) := FinalizeResolved(s, env, id, outcome, reason, evidence, parent, path);
            Shown(r, release, s', id, e, pc)
  {
    hide MoneyOk;
  }

  predicate EvidenceVoidFits(r: Release, c: Challenge, env: Env, reason: nat, evidence: Bytes32, parent: Bytes32,
                             path: VoidPath)
  {
    if path == UncontestedVoid then
      && c.state == Proposed && c.proposal.outcome == OutcomeVoid && parent == ZERO_HASH
      && (reason, evidence) == (c.proposal.evidenceVoidReason, c.proposal.evidenceHash)
    else path == ArbiterVoid && c.state == Disputed && parent == c.dispute.evidenceHash && env.sender == r.arbiter
  }

  lemma EvidenceVoidShown(r: Release, release: Option<Event>, s: State, env: Env, id: Bytes32, reason: nat,
                          evidence: Bytes32, parent: Bytes32, path: VoidPath, pc: ProjectedChallenge)
    requires Ready(r, release, s, env, id, pc) && evidence != ZERO_HASH
    requires EvidenceVoidFits(r, s.challenges[id], env, reason, evidence, parent, path)
    ensures var Committed(s', e) := FinalizeEvidenceVoid(s, env, id, reason, evidence, parent, path);
            Shown(r, release, s', id, e, pc)
  {
    hide MoneyOk;
  }

  lemma TimeoutVoidShown(r: Release, release: Option<Event>, s: State, env: Env, id: Bytes32, reason: nat,
                         path: VoidPath, pc: ProjectedChallenge)
    requires Ready(r, release, s, env, id, pc)
    requires (path == ProposalTimeoutVoid && s.challenges[id].state == Active)
          || (path == ArbitrationTimeoutVoid && s.challenges[id].state == Disputed)
    ensures var Committed(s', e) := FinalizeTimeoutVoid(s, env, id, reason, path);
            Shown(r, release, s', id, e, pc)
  {
    hide MoneyOk;
  }

  lemma EndingShown(r: Release, release: Option<Event>, s: State, env: Env, id: Bytes32, call: Call,
                    pc: ProjectedChallenge)
    requires call.FinalizeUncontested? || call.Arbitrate? || call.VoidUnproposed? || call.VoidUnarbitrated?
    requires call.challengeId == id && Ready(r, release, s, env, id, pc) && Execute(r, s, env, call).Committed?
    ensures var Committed(s', e) := Execute(r, s, env, call);
            Shown(r, release, s', id, e, pc)
  {
    hide Shown, MirrorsRecord, FinalizeResolved, FinalizeEvidenceVoid, FinalizeTimeoutVoid, MoneyOk;
    match call
    case FinalizeUncontested(_) =>
      var p := s.challenges[id].proposal;
      if p.outcome == OutcomeVoid {
        EvidenceVoidShown(r, release, s, env, id, p.evidenceVoidReason, p.evidenceHash, ZERO_HASH, UncontestedVoid, pc);
      } else {
        ResolvedShown(r, release, s, env, id, p.outcome, p.abReason, p.evidenceHash, ZERO_HASH,
                      UncontestedResolution, pc);
      }
    case Arbitrate(_, outcome, reason, evidence, parent) =>
      if outcome == OutcomeVoid {
        EvidenceVoidShown(r, release, s, env, id, reason, evidence, parent, ArbiterVoid, pc);
      } else {
        ResolvedShown(r, release, s, env, id, outcome, reason, evidence, parent, ArbiterResolution, pc);
      }
    case VoidUnproposed(_) =>
      TimeoutVoidShown(r, release, s, env, id, NO_PROPOSAL_TIMEOUT, ProposalTimeoutVoid, pc);
    case VoidUnarbitrated(_) =>
      TimeoutVoidShown(r, release, s, env, id, ARBITRATION_TIMEOUT, ArbitrationTimeoutVoid, pc);
  }

  /** Every call that moves a challenge is shown. */
  lemma MoveShown(r: Release, release: Option<Event>, s: State, env: Env, call: Call, pc: ProjectedChallenge)
    requires OnExisting(call) && !IsPull(call)
    requires Ready(r, release, s, env, call.challengeId, pc) && Execute(r, s, env, call).Committed?
    ensures var Committed(s', e) := Execute(r, s, env, call);
            Shown(r, release, s', call.challengeId, e, pc)
  {
    hide Shown, Ready, AcceptReply, AdvanceNonceReply, CancelReply, ExpireReply, ProposeReply, DisputeReply;
    hide FinalizeUncontestedReply, ArbitrateReply, VoidUnproposedReply, VoidUnarbitratedReply;
    match call
    case Accept(id, permit, signature) => AcceptShown(r, release, s, env, id, permit, signature, pc);
    case Propose(id, outcome, reason, evidence) => ProposeShown(r, release, s, env, id, outcome, reason, evidence, pc);
    case DisputeOutcome(id, outcome, reason, evidence, parent) =>
      DisputeShown(r, release, s, env, id, outcome, reason, evidence, parent, pc);
    case AdvanceAcceptanceNonce(id) => OpenCallShown(r, release, s, env, id, call, pc);
    case CancelOpen(id) => OpenCallShown(r, release, s, env, id, call, pc);
    case ExpireOpen(id) => OpenCallShown(r, release, s, env, id, call, pc);
    case FinalizeUncontested(id) => EndingShown(r, release, s, env, id, call, pc);
    case Arbitrate(id, _, _, _, _) => EndingShown(r, release, s, env, id, call, pc);
    case VoidUnproposed(id) => EndingShown(r, release, s, env, id, call, pc);
    case VoidUnarbitrated(id) => EndingShown(r, release, s, env, id, call, pc);
  }

  // ---------- Payouts ----------

  lemma MoveKeepsPayouts(r: Release, s: State, env: Env, call: Call)
    requires OnExisting(call) && !IsPull(call)
    requires Local(r, s, call.challengeId) && Execute(r, s, env, call).Committed?
    ensures PaidWallets(Execute(r, s, env, call).state, call.challengeId) == PaidWallets(s, call.challengeId)
  {
    var Committed(s', e) := Execute(r, s, env, call);
    var id := call.challengeId;
    var c, c' := s.challenges[id], ChallengeAt(s', id);
    MoveKeepsWallets(r, s, env, call);
    CommitPays(r, s, env, call, id, c.terms.challengerWallet);
    CommitPays(r, s, env, call, id, c.acceptingWallet);
    CommitPays(r, s, env, call, id, c'.acceptingWallet);
    hide Execute;
    if call.Accept? {
      assert EntitlementKey(id, c'.acceptingWallet) !in s.entitlements;
    }
  }

  lemma MoveKeepsWallets(r: Release, s: State, env: Env, call: Call)
    requires OnExisting(call) && !IsPull(call)
    requires call.challengeId in s.challenges && Execute(r, s, env, call).Committed?
    ensures var Committed(s', e) := Execute(r, s, env, call);
            var c, c' := s.challenges[call.challengeId], ChallengeAt(s', call.challengeId);
            && c'.terms.challengerWallet == c.terms.challengerWallet
            && !e.WinningsClaimed? && !e.PrincipalRefunded?
            && if call.Accept? then c.state == Open && c'.acceptingWallet !in {ZERO_ADDRESS, c.terms.challengerWallet}
               else c'.acceptingWallet == c.acceptingWallet
  {
  }

  lemma PayFollows(r: Release, s: State, env: Env, id: Bytes32, amount: nat)
    requires Local(r, s, id) && Terminal(s.challenges[id].state) && amount > 0
    requires ConsumeAndPay(s, env, id, env.sender, amount).Ok?
    ensures var s' := ConsumeAndPay(s, env, id, env.sender, amount).value;
            && ChallengeAt(s', id)
               == s.challenges[id].(outstandingLiability := ChallengeAt(s', id).outstandingLiability)
            && env.sender !in PaidWallets(s, id)
            && env.sender in {s.challenges[id].terms.challengerWallet, s.challenges[id].acceptingWallet}
            && PaidWallets(s', id) == PaidWallets(s, id) + {env.sender}
  {
    assert EntitlementKey(id, env.sender) in s.entitlements;
  }

  /** The projector accepts a pull, and counts it as the new payment. */
  predicate PullShown(r: Release, release: Option<Event>, s': State, id: Bytes32, e: Event, pc: ProjectedChallenge) {
    && !IsGlobal(e) && !e.ChallengeCreated? && e.challengeId == id
    && var verdict := OnChallenge(r.crypto.entitlementId, release, pc, e);
    && verdict.Changed?
    && MirrorsAt(r.crypto.entitlementId, s', id, verdict.challenge)
  }

  lemma PullAccepted(r: Release, s: State, env: Env, id: Bytes32, call: Call, pc: ProjectedChallenge)
    requires call in {ClaimWinnings(id), RefundPrincipal(id)} && Execute(r, s, env, call).Committed?
    requires Local(r, s, id) && MirrorsRecord(s.challenges[id], pc)
    ensures var ids, e := r.crypto.entitlementId, Execute(r, s, env, call).event;
            && IsPayout(e, id, env.sender) && e.entitlementId == ids(id, env.sender)
            && (env.sender !in pc.payoutWallets && ids(id, env.sender) !in pc.payoutIds ==>
                  OnPayout(ids, pc, e) == Changed(pc.(payoutIds := pc.payoutIds + {ids(id, env.sender)},
                                                      payoutWallets := pc.payoutWallets + {env.sender})))
  {
    hide ConsumeAndPay, TermsOk, HistoryOk, MoneyOk;
  }

  lemma PullIsShown(r: Release, release: Option<Event>, s: State, env: Env, id: Bytes32, call: Call,
                    pc: ProjectedChallenge)
    requires call in {ClaimWinnings(id), RefundPrincipal(id)} && InjectiveIds(r.crypto.entitlementId)
    requires Ready(r, release, s, env, id, pc) && MirrorsPayouts(r.crypto.entitlementId, s, id, pc)
    requires Execute(r, s, env, call).Committed?
    ensures var Committed(s', e) := Execute(r, s, env, call);
            PullShown(r, release, s', id, e, pc)
  {
    hide ConsumeAndPay, PaidWallets, OnPayout, Local;
    var c, ids := s.challenges[id], r.crypto.entitlementId;
    var amount := if call.ClaimWinnings? then c.terms.stakeAmount * 2 else c.terms.stakeAmount;
    var s' := Execute(r, s, env, call).state;
    StakeIsPositive(r, s, id);
    PayFollows(r, s, env, id, amount);
    PullAccepted(r, s, env, id, call, pc);
    PayoutAdded(ids, s, s', id, env.sender, pc);
    hide InjectiveIds;
  }

  lemma PayoutAdded(ids: EntitlementIds, s: State, s': State, id: Bytes32, wallet: Address, pc: ProjectedChallenge)
    requires InjectiveIds(ids) && MirrorsPayouts(ids, s, id, pc)
    requires wallet !in PaidWallets(s, id) && PaidWallets(s', id) == PaidWallets(s, id) + {wallet}
    ensures ids(id, wallet) !in pc.payoutIds
    ensures (set w | w in PaidWallets(s', id) :: ids(id, w)) == pc.payoutIds + {ids(id, wallet)}
  {
    hide PaidWallets;
  }

  lemma StakeIsPositive(r: Release, s: State, id: Bytes32)
    requires Local(r, s, id)
    ensures s.challenges[id].terms.stakeAmount > 0 && ChallengeAt(s, id) == s.challenges[id]
  {
  }

  // ---------- One commit, the whole projection ----------

  lemma OthersStayMirrored(r: Release, s: State, s': State, id: Bytes32, other: Bytes32, pc: ProjectedChallenge)
    requires SameElsewhere(s, s', id) && other != id
    requires other in s.challenges && other in s'.challenges && s'.challenges[other] == s.challenges[other]
    requires MirrorsAt(r.crypto.entitlementId, s, other, pc)
    ensures MirrorsAt(r.crypto.entitlementId, s', other, pc)
  {
    hide MirrorsRecord;
    assert PaidWallets(s', other) == PaidWallets(s, other);
  }

  lemma CallMirrored(r: Release, s: State, env: Env, call: Call, p: Projection, block: nat)
    requires OnExisting(call) && Execute(r, s, env, call).Committed?
    requires Inv(r, s) && s.clock <= env.now && env.sender != ZERO_ADDRESS
    requires Mirrors(r, s, p) && InjectiveIds(r.crypto.entitlementId)
    ensures var Committed(s', e) := Execute(r, s, env, call);
            Mirrors(r, s', Project(r.crypto.entitlementId, p, Logged(block, e)))
  {
    hide Execute, Inv, Local, OnChallenge, MirrorsRecord, PaidWallets, SlotOk;
    var Committed(s', e) := Execute(r, s, env, call);
    var id, ids := call.challengeId, r.crypto.entitlementId;
    CommitNeedsChallenge(r, s, env, call);
    InvLocal(r, s, id);
    CallAdvances(r, s, env, call);
    EventShown(r, p.release, s, env, call, p.challenges[id], block);
    PauseStays(r, s, env, call);
    var p' := Project(ids, p, Logged(block, e));
    forall other | other in s'.challenges
      ensures MirrorsAt(ids, s', other, p'.challenges[other])
    {
      if other != id {
        OthersStayMirrored(r, s, s', id, other, p.challenges[other]);
      }
    }
  }

  /** What happens to the one entry a call's event names. */
  lemma EventShown(r: Release, release: Option<Event>, s: State, env: Env, call: Call, pc: ProjectedChallenge,
                   block: nat)
    requires OnExisting(call) && Execute(r, s, env, call).Committed? && Local(r, s, call.challengeId)
    requires s.clock <= env.now && env.sender != ZERO_ADDRESS && KnowsRelease(r, release)
    requires MirrorsAt(r.crypto.entitlementId, s, call.challengeId, pc) && InjectiveIds(r.crypto.entitlementId)
    ensures var Committed(s', e) := Execute(r, s, env, call);
            PullShown(r, release, s', call.challengeId, e, Counted(pc, block))
  {
    var counted := Counted(pc, block);
    assert Ready(r, release, s, env, call.challengeId, counted);
    hide Execute, Ready, Local, MirrorsRecord, OnChallenge, PaidWallets;
    if IsPull(call) {
      PullIsShown(r, release, s, env, call.challengeId, call, counted);
    } else {
      MoveShown(r, release, s, env, call, counted);
      MoveKeepsPayouts(r, s, env, call);
    }
  }

  /** A first entry for a new challenge leaves all others mirrored. */
  lemma NewEntryMirrored(ids: EntitlementIds, s: State, s': State, id: Bytes32, c: Challenge, p: Projection,
                         pc: ProjectedChallenge)
    requires EntitlementsOwned(s) && id !in s.challenges
    requires s'.challenges == s.challenges[id := c] && s'.entitlements == s.entitlements
    requires MirrorsRecord(c, pc) && pc.payoutWallets == {} && pc.payoutIds == {}
    requires p.challenges.Keys == s.challenges.Keys
    requires forall other :: other in s.challenges ==> MirrorsAt(ids, s, other, p.challenges[other])
    ensures forall other :: other in s'.challenges ==> MirrorsAt(ids, s', other, p.challenges[id := pc][other])
  {
    hide MirrorsRecord;
    assert forall w :: EntitlementKey(id, w) !in s.entitlements;
    assert PaidWallets(s', id) == {};
    forall other | other in s'.challenges
      ensures MirrorsAt(ids, s', other, p.challenges[id := pc][other])
    {
      if other != id {
        assert MirrorsAt(ids, s, other, p.challenges[other]);
        assert PaidWallets(s', other) == PaidWallets(s, other);
      }
    }
  }

  lemma CreateMirrored(r: Release, s: State, env: Env, x: Execution, terms: Bytes32, supplied: Bytes32, p: Projection,
                       block: nat)
    requires CreateReply(r, s, env, x, terms, supplied).Committed?
    requires Inv(r, s) && Mirrors(r, s, p)
    ensures var Committed(s', e) := CreateReply(r, s, env, x, terms, supplied);
            Mirrors(r, s', Project(r.crypto.entitlementId, p, Logged(block, e)))
  {
    hide CreateReply, SlotOk, Solvent, NoncesOk, MirrorsAt, MirrorsRecord, NewChallenge, NewProjected, Outsider;
    hide OnChallenge, EntitlementsOwned;
    var Committed(s', e) := CreateReply(r, s, env, x, terms, supplied);
    CreateEffect(r, s, env, x, terms, supplied);
    IdIsNew(r, s, e.challengeId);
    NoOverlap(r, p.release, e.terms.challengerWallet);
    NewIsMirrored(e.terms, env.now, block);
    NewEntryMirrored(r.crypto.entitlementId, s, s', e.challengeId, NewChallenge(e.terms, env.now), p,
                     NewProjected(block, e.terms, e.acceptanceNonce));
  }

  lemma NoOverlap(r: Release, release: Option<Event>, wallet: Address)
    requires Outsider(r, wallet) && KnowsRelease(r, release)
    ensures !OverlapsReleaseBoundary(wallet, release)
  {
  }

  lemma NewIsMirrored(t: Terms, now: nat, block: nat)
    ensures MirrorsRecord(NewChallenge(t, now), NewProjected(block, t, 0))
    ensures NewProjected(block, t, 0).payoutWallets == {} && NewProjected(block, t, 0).payoutIds == {}
  {
  }

  /** The event of any committed call carries the projection along. */
  lemma CommitMirrored(r: Release, s: State, env: Env, call: Call, p: Projection, block: nat)
    requires Execute(r, s, env, call).Committed?
    requires Inv(r, s) && s.clock <= env.now && env.sender != ZERO_ADDRESS
    requires Mirrors(r, s, p) && InjectiveIds(r.crypto.entitlementId)
    ensures var Committed(s', e) := Execute(r, s, env, call);
            Mirrors(r, s', Project(r.crypto.entitlementId, p, Logged(block, e)))
  {
    if OnExisting(call) {
      CallMirrored(r, s, env, call, p, block);
    } else if call.CreateAndFund? {
      CreateMirrored(r, s, env, call.execution, call.termsHash, call.suppliedSpecHash, p, block);
    } else {
      PauseMirrored(r, s, env, call.newPaused, p, block);
    }
  }

  lemma PauseMirrored(r: Release, s: State, env: Env, newPaused: bool, p: Projection, block: nat)
    requires SetPausedReply(r, s, env, newPaused).Committed? && Mirrors(r, s, p)
    ensures var Committed(s', e) := SetPausedReply(r, s, env, newPaused);
            Mirrors(r, s', Project(r.crypto.entitlementId, p, Logged(block, e)))
  {
    hide MirrorsRecord;
    var Committed(s', e) := SetPausedReply(r, s, env, newPaused);
    forall id | id in s'.challenges
      ensures MirrorsAt(r.crypto.entitlementId, s', id, p.challenges[id])
    {
      assert MirrorsAt(r.crypto.entitlementId, s, id, p.challenges[id]);
      assert PaidWallets(s', id) == PaidWallets(s, id);
    }
  }

  // ---------- Whole runs ----------

  /** The logs carry the given events, in order, each in some block. */
  ghost predicate Carries(logs: seq<Logged>, events: seq<Event>) {
    |logs| == |events| && forall i :: 0 <= i < |logs| ==> logs[i].event == events[i]
  }

  ghost function EventLog(r: Release, initialPaused: bool, s0: State, ms: seq<Stimulus>): seq<Event> {
    [ReleaseEvent(r, initialPaused)] + Trace(r, s0, ms)
  }

  lemma {:induction false} RunMirrored(r: Release, s0: State, initialPaused: bool, ms: seq<Stimulus>,
                                       logs: seq<Logged>)
    requires Inv(r, s0) && s0.challenges == map[] && s0.paused == initialPaused
    requires LegalRun(r, s0, ms) && InjectiveIds(r.crypto.entitlementId)
    requires Carries(logs, EventLog(r, initialPaused, s0, ms))
    ensures Mirrors(r, Run(r, s0, ms), ProjectFrom(r.crypto.entitlementId, EMPTY, logs))
  {
    hide Execute, Inv, Mirrors;
    var ids := r.crypto.entitlementId;
    if ms == [] {
      ReleaseMirrored(r, s0, initialPaused, logs);
    } else {
      var before, m := ms[..|ms| - 1], ms[|ms| - 1];
      var mid := Run(r, s0, before);
      RunKeepsInv(r, s0, before);
      RunEndsWith(r, s0, ms);
      if m.Transaction? && Execute(r, mid, m.env, m.call).Committed? {
        var n := |logs| - 1;
        var log, e := EventLog(r, initialPaused, s0, before), Execute(r, mid, m.env, m.call).event;
        assert EventLog(r, initialPaused, s0, ms) == log + [e];
        LastCarried(logs, log, e);
        RunMirrored(r, s0, initialPaused, before, logs[..n]);
        CommitMirrored(r, mid, m.env, m.call, ProjectFrom(ids, EMPTY, logs[..n]), logs[n].blockNumber);
      } else {
        RunMirrored(r, s0, initialPaused, before, logs);
        IdleMirrored(r, mid, m, ProjectFrom(ids, EMPTY, logs));
      }
    }
  }

  lemma ReleaseMirrored(r: Release, s0: State, initialPaused: bool, logs: seq<Logged>)
    requires s0.challenges == map[] && s0.paused == initialPaused
    requires Carries(logs, [ReleaseEvent(r, initialPaused)])
    ensures Mirrors(r, s0, ProjectFrom(r.crypto.entitlementId, EMPTY, logs))
  {
    var ids := r.crypto.entitlementId;
    assert ProjectFrom(ids, EMPTY, logs[..0]) == EMPTY;
    assert ProjectFrom(ids, EMPTY, logs) == Project(ids, EMPTY, logs[0]);
  }

  lemma LastCarried(logs: seq<Logged>, events: seq<Event>, e: Event)
    requires Carries(logs, events + [e])
    ensures var n := |events|;
            Carries(logs[..n], events) && logs[n] == Logged(logs[n].blockNumber, e)
  {
  }

  lemma IdleMirrored(r: Release, s: State, m: Stimulus, p: Projection)
    requires Mirrors(r, s, p) && (m.Donation? || Execute(r, s, m.env, m.call).Reverted?)
    ensures Mirrors(r, Next(r, s, m), p)
  {
    hide Execute, MirrorsRecord;
    var s' := Next(r, s, m);
    forall id | id in s'.challenges
      ensures MirrorsAt(r.crypto.entitlementId, s', id, p.challenges[id])
    {
      assert MirrorsAt(r.crypto.entitlementId, s, id, p.challenges[id]);
      assert PaidWallets(s', id) == PaidWallets(s, id);
    }
  }

  /** How many of a challenge's entitlements have been paid. */
  function PaidCount(s: State, id: Bytes32): nat {
    var c := ChallengeAt(s, id);
    (if EntitlementAt(s, id, c.terms.challengerWallet).paidAmount > 0 then 1 else 0)
    + (if EntitlementAt(s, id, c.acceptingWallet).paidAmount > 0 then 1 else 0)
  }

  lemma CountMatches(r: Release, s: State, id: Bytes32, pc: ProjectedChallenge)
    requires id in s.challenges && SlotOk(r, s, id) && InjectiveIds(r.crypto.entitlementId)
    requires MirrorsPayouts(r.crypto.entitlementId, s, id, pc)
    ensures |pc.payoutIds| == |pc.payoutWallets| == PaidCount(s, id)
  {
    var c, ids := s.challenges[id], r.crypto.entitlementId;
    var a, b := c.terms.challengerWallet, c.acceptingWallet;
    assert a != b;
    if a in PaidWallets(s, id) && b in PaidWallets(s, id) {
      assert PaidWallets(s, id) == {a, b};
      assert pc.payoutIds == {ids(id, a), ids(id, b)};
    } else if a in PaidWallets(s, id) {
      assert PaidWallets(s, id) == {a};
      assert pc.payoutIds == {ids(id, a)};
    } else if b in PaidWallets(s, id) {
      assert PaidWallets(s, id) == {b};
      assert pc.payoutIds == {ids(id, b)};
    }
  }

  /** A projected challenge has the contract's state, nonce, acceptor, terms, evidence and number of payments. */
  predicate ShowsChallenge(s: State, id: Bytes32, pc: ProjectedChallenge) {
    var c := ChallengeAt(s, id);
    && (pc.state, pc.acceptanceNonce, pc.acceptingWallet) == (c.state, c.acceptanceNonce, AcceptorOf(c))
    && pc.terms == c.terms && pc.evidenceHashes == EvidenceOf(c)
    && |pc.payoutIds| == PaidCount(s, id)
  }

  /** No anomaly, the contract's pause flag, exactly its challenges, and a status that says whether all have ended. */
  ghost predicate ShowsContract(s: State, p: Projection) {
    && p.anomalies == [] && p.paused == Some(s.paused) && p.challenges.Keys == s.challenges.Keys
    && (forall id :: id in s.challenges ==> ShowsChallenge(s, id, p.challenges[id]))
    && (StatusOf(p) == Consistent <==> forall id :: id in s.challenges ==> Terminal(s.challenges[id].state))
    && StatusOf(p) != Conflicted
  }

  lemma ChallengeShown(r: Release, s: State, id: Bytes32, pc: ProjectedChallenge)
    requires id in s.challenges && SlotOk(r, s, id) && InjectiveIds(r.crypto.entitlementId)
    requires MirrorsAt(r.crypto.entitlementId, s, id, pc)
    ensures ShowsChallenge(s, id, pc) && pc.state == s.challenges[id].state
  {
    hide SlotOk, MirrorsPayouts, PaidCount, InjectiveIds;
    CountMatches(r, s, id, pc);
  }

  lemma MirrorShows(r: Release, s: State, p: Projection)
    requires Inv(r, s) && Mirrors(r, s, p) && InjectiveIds(r.crypto.entitlementId)
    ensures ShowsContract(s, p)
  {
    hide SlotOk, MirrorsAt, ShowsChallenge, InjectiveIds, EntitlementsOwned, NoncesOk, Solvent;
    forall id | id in s.challenges
      ensures ShowsChallenge(s, id, p.challenges[id]) && p.challenges[id].state == s.challenges[id].state
    {
      ChallengeShown(r, s, id, p.challenges[id]);
    }
  }

  /** For every run from deployment, the projection of its events shows the contract. */
  lemma ProjectorFollowsContract(r: Release, initialPaused: bool, balance: nat, now: nat, ms: seq<Stimulus>,
                                 logs: seq<Logged>)
    requires balance <= MAX_UINT256 && InjectiveIds(r.crypto.entitlementId)
    requires var s0 := DeployedState(initialPaused, balance, now);
             LegalRun(r, s0, ms) && Carries(logs, EventLog(r, initialPaused, s0, ms))
    ensures ShowsContract(Run(r, DeployedState(initialPaused, balance, now), ms),
                          ProjectAll(r.crypto.entitlementId, logs))
  {
    hide SlotOk, Mirrors, ShowsContract, Trace, Run, LegalRun, Inv;
    var s0 := DeployedState(initialPaused, balance, now);
    DeployedInv(r, initialPaused, balance, now);
    RunKeepsInv(r, s0, ms);
    RunMirrored(r, s0, initialPaused, ms, logs);
    assert Start(logs) == EMPTY;
    MirrorShows(r, Run(r, s0, ms), ProjectAll(r.crypto.entitlementId, logs));
  }
}
