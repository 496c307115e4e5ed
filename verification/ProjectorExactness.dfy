/** The projector accepts no more than the contract emits: an event with parameters in order that moves an entry of the
    projection is the event of some call on a contract state that shows the very same entry. */
module ProjectorExactness {
  import opened Wrappers
  import opened ProtocolTypes
  import opened Kernel
  import opened KernelInvariant
  import opened EventLayout
  import opened Projector
  import opened EventSimulation
  import X = ClientExactness

  /** An event about a challenge that exists. */
  predicate Concerns(e: Event) {
    !IsGlobal(e) && !e.ChallengeCreated?
  }

  /** The contract stands so that the projection shows this entry, and this call emits this event. */
  ghost predicate Emits(r: Release, release: Option<Event>, s: State, env: Env, call: Call, pc: ProjectedChallenge,
                        e: Event)
  {
    && OnExisting(call) && Concerns(e) && call.challengeId == e.challengeId && env.sender != ZERO_ADDRESS && s.clock <= env.now
    && Local(r, s, call.challengeId) && KnowsRelease(r, release)
    && MirrorsAt(r.crypto.entitlementId, s, call.challengeId, pc)
    && Execute(r, s, env, call).Committed? && Execute(r, s, env, call).event == e
  }

  ghost predicate Emittable(ids: EntitlementIds, release: Option<Event>, pc: ProjectedChallenge, e: Event) {
    exists r: Release, s, env, call :: r.crypto.entitlementId == ids && Emits(r, release, s, env, call, pc, e)
  }

  /** An entry that some contract state shows. */
  ghost predicate Grounded(r: Release, release: Option<Event>, s: State, id: Bytes32, pc: ProjectedChallenge) {
    Local(r, s, id) && KnowsRelease(r, release) && MirrorsAt(r.crypto.entitlementId, s, id, pc)
  }

  // ---------- A state that is ready for the call ----------

  /** Not paused, with nothing in the escrow but what this challenge owes, and at the given time. */
  function Bare(s: State, id: Bytes32, c: Challenge, clock: nat): State {
    s.(paused := false, challenges := s.challenges[id := c], totalOutstandingLiability := c.outstandingLiability,
       escrowBalance := c.outstandingLiability, clock := clock)
  }

  lemma BareIsGrounded(r: Release, release: Option<Event>, s: State, id: Bytes32, pc: ProjectedChallenge, clock: nat)
    requires Grounded(r, release, s, id, pc)
    requires s.challenges[id].openedAt <= clock && s.challenges[id].proposal.proposedAt <= clock
    ensures Grounded(r, release, Bare(s, id, s.challenges[id], clock), id, pc)
  {
    var s' := Bare(s, id, s.challenges[id], clock);
    hide LifecycleOk, TermsOk, MirrorsRecord;
    assert MoneyFits(s.challenges[id]) by { MoneyIsBounded(r, s, id); }
    assert PaidWallets(s', id) == PaidWallets(s, id);
  }

  predicate MoneyFits(c: Challenge) {
    c.outstandingLiability <= MAX_UINT256 && c.terms.stakeAmount * 2 <= MAX_UINT256
  }

  lemma MoneyIsBounded(r: Release, s: State, id: Bytes32)
    requires Local(r, s, id)
    ensures MoneyFits(s.challenges[id])
  {
    hide LifecycleOk;
  }

  // ---------- One event after the other ----------

  lemma OpenCallEmits(r: Release, release: Option<Event>, s: State, id: Bytes32, pc: ProjectedChallenge, e: Event,
                      call: Call, env: Env)
    requires e.AcceptanceNonceAdvanced? || e.ChallengeCancelled? || e.ChallengeExpired?
    requires Grounded(r, release, s, id, pc) && e.challengeId == id
    requires FieldsPass(e) && OnChallenge(r.crypto.entitlementId, release, pc, e).Changed?
    requires call == if e.AcceptanceNonceAdvanced? then AdvanceAcceptanceNonce(id)
                     else if e.ChallengeCancelled? then CancelOpen(id) else ExpireOpen(id)
    requires env == Env(if e.ChallengeExpired? then e.materializedBy else e.challengerWallet,
                        if e.ChallengeExpired? then s.challenges[id].terms.acceptanceDeadline
                        else s.challenges[id].openedAt,
                        X.Accurate(0, 0))
    ensures Emits(r, release, Bare(s, id, s.challenges[id], s.challenges[id].openedAt), env, call, pc, e)
  {
    BareIsGrounded(r, release, s, id, pc, s.challenges[id].openedAt);
  }

  lemma ProposeEmits(r: Release, release: Option<Event>, s: State, id: Bytes32, pc: ProjectedChallenge, e: Event,
                     env: Env)
    requires e.OutcomeProposed? && e.challengeId == id && Grounded(r, release, s, id, pc)
    requires FieldsPass(e) && OnChallenge(r.crypto.entitlementId, release, pc, e).Changed?
    requires env.sender == e.resolver && env.token == X.Accurate(0, 0)
    requires env.now == e.disputeDeadline - s.challenges[id].terms.disputeWindowSeconds
    ensures Emits(r, release, Bare(s, id, s.challenges[id], s.challenges[id].openedAt), env,
                  Propose(id, e.assertedOutcome, e.reasonCode, e.evidenceHash), pc, e)
  {
    BareIsGrounded(r, release, s, id, pc, s.challenges[id].openedAt);
    hide MoneyOk, FinalOk, PaidWallets;
  }

  /** The one thing the projector does not look at: whether arbitration starts before the proposal was made. */
  predicate StartsEarly(pc: ProjectedChallenge, e: Event) {
    && e.OutcomeDisputed? && pc.proposalDisputeDeadline.Some?
    && e.arbitrationStart + pc.terms.disputeWindowSeconds < pc.proposalDisputeDeadline.value
  }

  lemma DisputeEmits(r: Release, release: Option<Event>, s: State, id: Bytes32, pc: ProjectedChallenge, e: Event,
                     env: Env)
    requires e.OutcomeDisputed? && e.challengeId == id && Grounded(r, release, s, id, pc)
    requires FieldsPass(e) && OnChallenge(r.crypto.entitlementId, release, pc, e).Changed? && !StartsEarly(pc, e)
    requires env == Env(e.disputingWallet, e.arbitrationStart, X.Accurate(0, 0))
    ensures Emits(r, release, Bare(s, id, s.challenges[id], s.challenges[id].proposal.proposedAt), env,
                  DisputeOutcome(id, e.assertedOutcome, e.reasonCode, e.evidenceHash, e.parentEvidenceHash), pc, e)
  {
    ProposedAfterOpening(r, s, id);
    BareIsGrounded(r, release, s, id, pc, s.challenges[id].proposal.proposedAt);
    hide MoneyOk, FinalOk, PaidWallets;
  }

  lemma ProposedAfterOpening(r: Release, s: State, id: Bytes32)
    requires Local(r, s, id) && s.challenges[id].proposal.present
    ensures s.challenges[id].openedAt < s.challenges[id].proposal.proposedAt
  {
    hide MoneyOk, FinalOk;
  }

  /** The call that resolves or voids a challenge as an event says. */
  function EndingFor(id: Bytes32, e: Event): Call
    requires e.ChallengeResolved? || e.ChallengeVoided?
  {
    if e.ChallengeResolved? then
      if e.resolutionPath == UncontestedResolution then FinalizeUncontested(id)
      else Arbitrate(id, e.finalOutcome, e.reasonCode, e.finalEvidenceHash, e.parentEvidenceHash)
    else match e.voidPath
      case UncontestedVoid => FinalizeUncontested(id)
      case ArbiterVoid => Arbitrate(id, OutcomeVoid, e.voidReason, e.finalEvidenceHash, e.parentEvidenceHash)
      case ProposalTimeoutVoid => VoidUnproposed(id)
      case ArbitrationTimeoutVoid => VoidUnarbitrated(id)
  }

  /** A time at which it may be called. */
  function EndingTime(c: Challenge, call: Call): nat {
    match call
    case FinalizeUncontested(_) => c.proposal.disputeDeadline
    case Arbitrate(_, _, _, _, _) => c.dispute.arbitrationStart
    case VoidUnarbitrated(_) => c.dispute.arbitrationDeadline
    case _ => c.terms.proposalDeadline
  }

  function EndingClock(c: Challenge): nat {
    if c.proposal.present then c.proposal.proposedAt else c.openedAt
  }

  lemma EndingTimeFits(r: Release, s: State, id: Bytes32, call: Call)
    requires Local(r, s, id)
    requires var state := s.challenges[id].state;
             match call
             case FinalizeUncontested(_) => state == Proposed
             case Arbitrate(_, _, _, _, _) => state == Disputed
             case VoidUnarbitrated(_) => state == Disputed
             case VoidUnproposed(_) => state == Active
             case _ => false
    ensures var c := s.challenges[id];
            && EndingClock(c) <= EndingTime(c, call) <= MAX_UINT64
            && c.openedAt <= EndingClock(c) && c.proposal.proposedAt <= EndingClock(c)
  {
    hide MoneyOk;
  }

  lemma ResolveEmits(r: Release, release: Option<Event>, s: State, id: Bytes32, pc: ProjectedChallenge, e: Event,
                     env: Env)
    requires e.ChallengeResolved? && e.challengeId == id && Grounded(r, release, s, id, pc)
    requires FieldsPass(e) && OnChallenge(r.crypto.entitlementId, release, pc, e).Changed?
    requires env.sender == e.finalizedBy && env.token == X.Accurate(0, 0)
    requires env.now == EndingTime(s.challenges[id], EndingFor(id, e))
    ensures Emits(r, release, Bare(s, id, s.challenges[id], EndingClock(s.challenges[id])), env, EndingFor(id, e), pc, e)
  {
    EndingTimeFits(r, s, id, EndingFor(id, e));
    BareIsGrounded(r, release, s, id, pc, EndingClock(s.challenges[id]));
    MoneyIsBounded(r, s, id);
    hide MoneyOk, TermsOk, PaidWallets;
  }

  lemma VoidEmits(r: Release, release: Option<Event>, s: State, id: Bytes32, pc: ProjectedChallenge, e: Event, env: Env)
    requires e.ChallengeVoided? && e.challengeId == id && Grounded(r, release, s, id, pc)
    requires FieldsPass(e) && OnChallenge(r.crypto.entitlementId, release, pc, e).Changed?
    requires env.sender == e.materializedBy && env.token == X.Accurate(0, 0)
    requires env.now == EndingTime(s.challenges[id], EndingFor(id, e))
    ensures Emits(r, release, Bare(s, id, s.challenges[id], EndingClock(s.challenges[id])), env, EndingFor(id, e), pc, e)
  {
    EndingTimeFits(r, s, id, EndingFor(id, e));
    BareIsGrounded(r, release, s, id, pc, EndingClock(s.challenges[id]));
    hide MoneyOk, TermsOk, PaidWallets;
  }

  lemma PayoutStands(r: Release, release: Option<Event>, s: State, id: Bytes32, pc: ProjectedChallenge, e: Event)
    requires (e.WinningsClaimed? || e.PrincipalRefunded?) && e.challengeId == id && Grounded(r, release, s, id, pc)
    requires OnChallenge(r.crypto.entitlementId, release, pc, e).Changed?
    ensures EntitlementAt(s, id, e.wallet) == Entitlement(true, e.amount, 0)
    ensures e.amount <= s.challenges[id].outstandingLiability <= MAX_UINT256
    ensures e.entitlementId == r.crypto.entitlementId(id, e.wallet)
    ensures s.challenges[id].present && e.amount > 0
  {
    hide HistoryOk;
  }

  /** The caller and the amount are the ones the contract would name. */
  lemma PayoutIsDue(r: Release, release: Option<Event>, s: State, id: Bytes32, pc: ProjectedChallenge, e: Event)
    requires (e.WinningsClaimed? || e.PrincipalRefunded?) && e.challengeId == id && Grounded(r, release, s, id, pc)
    requires OnChallenge(r.crypto.entitlementId, release, pc, e).Changed?
    ensures var c := s.challenges[id];
            if e.WinningsClaimed? then
              && c.state in {ResolvedA, ResolvedB} && e.wallet == WinnerWallet(c, c.finalResolution.outcome)
              && e.amount == c.terms.stakeAmount * 2
            else
              && c.state in {Cancelled, Expired, Void} && e.originState == c.state && e.amount == c.terms.stakeAmount
              && (e.wallet == c.terms.challengerWallet || (c.state == Void && e.wallet == c.acceptingWallet))
  {
    hide HistoryOk, MoneyOk, TermsOk, PaidWallets;
  }

  lemma PayoutEmits(r: Release, release: Option<Event>, s: State, id: Bytes32, pc: ProjectedChallenge, e: Event,
                    env: Env)
    requires (e.WinningsClaimed? || e.PrincipalRefunded?) && e.challengeId == id && Grounded(r, release, s, id, pc)
    requires FieldsPass(e) && OnChallenge(r.crypto.entitlementId, release, pc, e).Changed?
    requires e.amount <= s.challenges[id].outstandingLiability <= MAX_UINT256
    requires env == Env(e.wallet, s.challenges[id].terms.timeoutVoidAt,
                        X.Accurate(s.challenges[id].outstandingLiability - e.amount, e.amount))
    ensures Emits(r, release, Bare(s, id, s.challenges[id], s.challenges[id].terms.timeoutVoidAt), env,
                  if e.WinningsClaimed? then ClaimWinnings(id) else RefundPrincipal(id), pc, e)
  {
    hide SlotOk, MirrorsAt, OnPayout, KnowsRelease;
    PayoutStands(r, release, s, id, pc, e);
    PayoutIsDue(r, release, s, id, pc, e);
    MoneyIsBounded(r, s, id);
    OpeningBeforeTimeout(r, s, id);
    BareIsGrounded(r, release, s, id, pc, s.challenges[id].terms.timeoutVoidAt);
  }

  lemma OpeningBeforeTimeout(r: Release, s: State, id: Bytes32)
    requires Local(r, s, id)
    ensures s.challenges[id].openedAt <= s.challenges[id].terms.timeoutVoidAt <= MAX_UINT64
    ensures s.challenges[id].proposal.proposedAt <= s.challenges[id].terms.timeoutVoidAt
  {
    hide MoneyOk, FinalOk;
  }

  // ---------- Acceptance ----------

  function OtherAddress(a: Address, b: Address): (other: Address)
    ensures other !in {ZERO_ADDRESS, a, b}
  {
    if a != 1 && b != 1 then 1 else if a != 2 && b != 2 then 2 else 3
  }

  /** The same release with another pauser and a signature check that finds the challenger. */
  function Obliging(r: Release, pauser: Address, challenger: Address): Release {
    r.(pauser := pauser, crypto := r.crypto.(recover := (_, _) => Some(challenger)))
  }

  /** The permit an acceptance event tells of. */
  function PermitOf(specHash: Bytes32, e: Event): Permit
    requires e.ChallengeAccepted? && FieldsPass(e)
  {
    Permit(e.challengeId, specHash, e.acceptingWallet, e.consumedNonce, e.permitExpiresAt)
  }

  /** The challenge as if it had been opened the moment it was created. */
  function Prompt(c: Challenge): Challenge {
    c.(openedAt := c.terms.createdAt)
  }

  lemma PromptIsGrounded(r: Release, release: Option<Event>, s: State, id: Bytes32, pc: ProjectedChallenge,
                         pauser: Address)
    requires Grounded(r, release, s, id, pc) && s.challenges[id].state == Open
    requires pauser !in {ZERO_ADDRESS, s.challenges[id].terms.challengerWallet}
    ensures var c := s.challenges[id];
            Grounded(Obliging(r, pauser, c.terms.challengerWallet), release,
                     Bare(s, id, Prompt(c), c.terms.createdAt), id, pc)
  {
    var c := s.challenges[id];
    var s' := Bare(s, id, Prompt(c), c.terms.createdAt);
    MoneyIsBounded(r, s, id);
    assert PaidWallets(s', id) == PaidWallets(s, id);
  }

  lemma AcceptEmits(r: Release, release: Option<Event>, s: State, id: Bytes32, pc: ProjectedChallenge, e: Event,
                    pauser: Address, env: Env)
    requires e.ChallengeAccepted? && e.challengeId == id && Grounded(r, release, s, id, pc)
    requires FieldsPass(e) && OnChallenge(r.crypto.entitlementId, release, pc, e).Changed?
    requires var c := s.challenges[id];
             && c.terms.createdAt <= MAX_UINT64 && c.terms.stakeAmount * 2 <= MAX_UINT256
             && pauser !in {ZERO_ADDRESS, c.terms.challengerWallet, e.acceptingWallet}
             && env == Env(e.acceptingWallet, c.terms.createdAt, X.Accurate(c.terms.stakeAmount * 2, 0))
    ensures var c := s.challenges[id];
            Emits(Obliging(r, pauser, c.terms.challengerWallet), release, Bare(s, id, Prompt(c), c.terms.createdAt), env,
                  Accept(id, PermitOf(c.terms.specHash, e), []), pc, e)
  {
    var c := s.challenges[id];
    assert c.state == Open;
    PromptIsGrounded(r, release, s, id, pc, pauser);
    hide HistoryOk, FinalOk, PaidWallets;
  }

  lemma AcceptIsEmittable(r: Release, release: Option<Event>, s: State, id: Bytes32, pc: ProjectedChallenge, e: Event)
    requires e.ChallengeAccepted? && e.challengeId == id && Grounded(r, release, s, id, pc)
    requires FieldsPass(e) && OnChallenge(r.crypto.entitlementId, release, pc, e).Changed?
    ensures Emittable(r.crypto.entitlementId, release, pc, e)
  {
    hide Emits, OnChallenge, SlotOk, MirrorsAt;
    var c := s.challenges[id];
    var pauser := OtherAddress(c.terms.challengerWallet, e.acceptingWallet);
    MoneyIsBounded(r, s, id);
    CreationTimeFits(r, s, id);
    var env := Env(e.acceptingWallet, c.terms.createdAt, X.Accurate(c.terms.stakeAmount * 2, 0));
    AcceptEmits(r, release, s, id, pc, e, pauser, env);
  }

  // ---------- The characterization ----------

  lemma PayoutIsEmittable(r: Release, release: Option<Event>, s: State, pc: ProjectedChallenge, e: Event)
    requires (e.WinningsClaimed? || e.PrincipalRefunded?) && Grounded(r, release, s, e.challengeId, pc) && FieldsPass(e)
    requires OnChallenge(r.crypto.entitlementId, release, pc, e).Changed?
    ensures Emittable(r.crypto.entitlementId, release, pc, e)
  {
    hide Emits, SlotOk, OnChallenge, MirrorsAt;
    var id, c := e.challengeId, s.challenges[e.challengeId];
    OpeningBeforeTimeout(r, s, id);
    PayoutStands(r, release, s, id, pc, e);
    var env := Env(e.wallet, c.terms.timeoutVoidAt, X.Accurate(c.outstandingLiability - e.amount, e.amount));
    PayoutEmits(r, release, s, id, pc, e, env);
  }

  lemma EndingIsEmittable(r: Release, release: Option<Event>, s: State, pc: ProjectedChallenge, e: Event)
    requires (e.ChallengeResolved? || e.ChallengeVoided?) && Grounded(r, release, s, e.challengeId, pc) && FieldsPass(e)
    requires OnChallenge(r.crypto.entitlementId, release, pc, e).Changed?
    ensures Emittable(r.crypto.entitlementId, release, pc, e)
  {
    hide Emits, SlotOk, OnChallenge, MirrorsAt, EndingTime, FieldsPass;
    var id, c := e.challengeId, s.challenges[e.challengeId];
    EndingIsAllowed(r, release, s, id, pc, e);
    EndingTimeFits(r, s, id, EndingFor(id, e));
    var now := EndingTime(c, EndingFor(id, e));
    if e.ChallengeResolved? {
      ResolveEmits(r, release, s, id, pc, e, Env(e.finalizedBy, now, X.Accurate(0, 0)));
    } else {
      VoidEmits(r, release, s, id, pc, e, Env(e.materializedBy, now, X.Accurate(0, 0)));
    }
  }

  lemma OpenCallIsEmittable(r: Release, release: Option<Event>, s: State, pc: ProjectedChallenge, e: Event)
    requires e.AcceptanceNonceAdvanced? || e.ChallengeCancelled? || e.ChallengeExpired?
    requires Grounded(r, release, s, e.challengeId, pc) && FieldsPass(e)
    requires OnChallenge(r.crypto.entitlementId, release, pc, e).Changed?
    ensures Emittable(r.crypto.entitlementId, release, pc, e)
  {
    hide Emits, SlotOk, OnChallenge, MirrorsAt, FieldsPass;
    var id, c := e.challengeId, s.challenges[e.challengeId];
    CreationTimeFits(r, s, id);
    var env := Env(if e.ChallengeExpired? then e.materializedBy else e.challengerWallet,
                   if e.ChallengeExpired? then c.terms.acceptanceDeadline else c.openedAt, X.Accurate(0, 0));
    var call := if e.AcceptanceNonceAdvanced? then AdvanceAcceptanceNonce(id)
                else if e.ChallengeCancelled? then CancelOpen(id) else ExpireOpen(id);
    OpenCallEmits(r, release, s, id, pc, e, call, env);
  }

  /** Whatever moves an entry, with its parameters in order, is emittable, save a dispute that starts too early. */
  lemma AcceptedIsEmittable(r: Release, release: Option<Event>, s: State, pc: ProjectedChallenge, e: Event)
    requires Concerns(e) && Grounded(r, release, s, e.challengeId, pc) && FieldsPass(e) && !StartsEarly(pc, e)
    requires OnChallenge(r.crypto.entitlementId, release, pc, e).Changed?
    ensures Emittable(r.crypto.entitlementId, release, pc, e)
  {
    hide Emits, SlotOk, OnChallenge, MirrorsAt, FieldsPass, StartsEarly, KnowsRelease;
    var id := e.challengeId;
    if e.ChallengeAccepted? {
      AcceptIsEmittable(r, release, s, id, pc, e);
    } else if e.OutcomeProposed? {
      ProposalTimeFits(r, release, s, id, pc, e);
      var now := e.disputeDeadline - s.challenges[id].terms.disputeWindowSeconds;
      ProposeEmits(r, release, s, id, pc, e, Env(e.resolver, now, X.Accurate(0, 0)));
    } else if e.OutcomeDisputed? {
      DisputeTimeFits(e);
      DisputeEmits(r, release, s, id, pc, e, Env(e.disputingWallet, e.arbitrationStart, X.Accurate(0, 0)));
    } else if e.ChallengeResolved? || e.ChallengeVoided? {
      EndingIsEmittable(r, release, s, pc, e);
    } else if e.WinningsClaimed? || e.PrincipalRefunded? {
      PayoutIsEmittable(r, release, s, pc, e);
    } else {
      OpenCallIsEmittable(r, release, s, pc, e);
    }
  }

  lemma DisputeTimeFits(e: Event)
    requires e.OutcomeDisputed? && FieldsPass(e)
    ensures e.arbitrationStart <= MAX_UINT64
  {
  }

  lemma CreationTimeFits(r: Release, s: State, id: Bytes32)
    requires Local(r, s, id)
    ensures var c := s.challenges[id];
            c.terms.createdAt <= c.openedAt <= c.terms.acceptanceDeadline <= MAX_UINT64
  {
    hide MoneyOk, HistoryOk, FinalOk;
  }

  lemma ProposalTimeFits(r: Release, release: Option<Event>, s: State, id: Bytes32, pc: ProjectedChallenge, e: Event)
    requires e.OutcomeProposed? && e.challengeId == id && Grounded(r, release, s, id, pc)
    requires OnChallenge(r.crypto.entitlementId, release, pc, e).Changed?
    ensures 0 <= e.disputeDeadline - s.challenges[id].terms.disputeWindowSeconds <= MAX_UINT64
  {
    hide LifecycleOk, MoneyOk, PaidWallets;
  }

  lemma EndingIsAllowed(r: Release, release: Option<Event>, s: State, id: Bytes32, pc: ProjectedChallenge, e: Event)
    requires e.ChallengeResolved? || e.ChallengeVoided?
    requires e.challengeId == id && Grounded(r, release, s, id, pc)
    requires OnChallenge(r.crypto.entitlementId, release, pc, e).Changed?
    ensures var state := s.challenges[id].state;
            match EndingFor(id, e)
            case FinalizeUncontested(_) => state == Proposed
            case Arbitrate(_, _, _, _, _) => state == Disputed
            case VoidUnarbitrated(_) => state == Disputed
            case VoidUnproposed(_) => state == Active
            case _ => false
  {
    hide LifecycleOk, MoneyOk, TermsOk, PaidWallets;
  }

  lemma EmittedIsAccepted(r: Release, release: Option<Event>, s: State, env: Env, call: Call, pc: ProjectedChallenge,
                          e: Event)
    requires Concerns(e) && Emits(r, release, s, env, call, pc, e) && InjectiveIds(r.crypto.entitlementId)
    ensures OnChallenge(r.crypto.entitlementId, release, pc, e).Changed? && !StartsEarly(pc, e)
  {
    assert Ready(r, release, s, env, call.challengeId, pc);
    NeverStartsEarly(r, release, s, env, call, pc, e);
    hide Execute, Local, MirrorsRecord, OnChallenge, PaidWallets, StartsEarly, KnowsRelease;
    if IsPull(call) {
      PullIsShown(r, release, s, env, call.challengeId, call, pc);
    } else {
      MoveShown(r, release, s, env, call, pc);
    }
  }

  lemma NeverStartsEarly(r: Release, release: Option<Event>, s: State, env: Env, call: Call, pc: ProjectedChallenge,
                         e: Event)
    requires Emits(r, release, s, env, call, pc, e)
    ensures !StartsEarly(pc, e)
  {
    if call.DisputeOutcome? {
      hide MoneyOk, FinalOk, TermsOk, PaidWallets;
    } else {
      assert !e.OutcomeDisputed? by { OnlyDisputesSay(r, s, env, call); }
    }
  }

  lemma OnlyDisputesSay(r: Release, s: State, env: Env, call: Call)
    requires !call.DisputeOutcome? && Execute(r, s, env, call).Committed?
    ensures !Execute(r, s, env, call).event.OutcomeDisputed?
  {
    hide ConsumeAndPay, ValidateExecution, CheckPermit;
  }

  /** An event with its parameters in order moves an entry that some contract state shows, if and only if some contract
      state that shows that entry emits the event; one family apart, disputes whose arbitration starts before the
      proposal they answer. */
  lemma AcceptsExactlyEmittable(r: Release, release: Option<Event>, s: State, pc: ProjectedChallenge, e: Event)
    requires Concerns(e) && Grounded(r, release, s, e.challengeId, pc) && FieldsPass(e)
    requires InjectiveIds(r.crypto.entitlementId)
    ensures OnChallenge(r.crypto.entitlementId, release, pc, e).Changed? && !StartsEarly(pc, e)
       <==> Emittable(r.crypto.entitlementId, release, pc, e)
  {
    hide OnChallenge, Grounded, Emits, FieldsPass, StartsEarly, InjectiveIds;
    if OnChallenge(r.crypto.entitlementId, release, pc, e).Changed? && !StartsEarly(pc, e) {
      AcceptedIsEmittable(r, release, s, pc, e);
    }
    if Emittable(r.crypto.entitlementId, release, pc, e) {
      var q: Release, t, env, call :|
        q.crypto.entitlementId == r.crypto.entitlementId && Emits(q, release, t, env, call, pc, e);
      EmittedIsAccepted(q, release, t, env, call, pc, e);
    }
  }

  // ---------- Creation ----------

  /** The release with hashes that fit the terms, and another pauser. */
  function Founding(r: Release, id: Bytes32, t: Terms): Release {
    r.(pauser := OtherAddress(t.challengerWallet, t.challengerWallet),
       crypto := r.crypto.(executionHash := _ => t.executionHash, specHash := (_, _) => t.specHash, challengeId := _ => id))
  }

  ghost predicate EmitsCreation(r: Release, release: Option<Event>, s: State, env: Env, x: Execution, terms: Bytes32,
                                supplied: Bytes32, e: Event)
  {
    && e.ChallengeCreated? && KnowsRelease(r, release) && e.challengeId !in s.challenges
    && CreateReply(r, s, env, x, terms, supplied).Committed? && CreateReply(r, s, env, x, terms, supplied).event == e
  }

  lemma FoundingEmits(r: Release, release: Option<Event>, e: Event)
    requires e.ChallengeCreated? && FieldsPass(e) && KnowsRelease(r, release)
    requires !OverlapsReleaseBoundary(e.terms.challengerWallet, release)
    ensures X.OpeningFits(e.terms) && e.terms.stakeAmount <= MAX_UINT256
    ensures var q, t := Founding(r, e.challengeId, e.terms), e.terms;
            EmitsCreation(q, release, DeployedState(false, 0, t.createdAt),
                          Env(t.challengerWallet, t.createdAt, X.Accurate(t.stakeAmount, 0)), X.Opening(q, t),
                          t.termsHash, t.specHash, e)
  {
  }

  /** A creation with its parameters in order, for an id the projection does not know, is accepted if and only if the
      contract, of some release that the projection may have seen, emits it before the id is taken. */
  lemma CreatesExactlyEmittable(ids: EntitlementIds, r: Release, p: Projection, log: Logged)
    requires log.event.ChallengeCreated? && FieldsPass(log.event) && KnowsRelease(r, p.release)
    requires log.event.challengeId !in p.challenges
    ensures Project(ids, p, log).anomalies == p.anomalies
       <==> exists q, s, env, x, terms, supplied :: EmitsCreation(q, p.release, s, env, x, terms, supplied, log.event)
  {
    hide EmitsCreation, FieldsPass, KnowsRelease, OverlapsReleaseBoundary;
    var e := log.event;
    if !OverlapsReleaseBoundary(e.terms.challengerWallet, p.release) {
      FoundingEmits(r, p.release, e);
    }
    forall q, s, env, x, terms, supplied | EmitsCreation(q, p.release, s, env, x, terms, supplied, e)
      ensures !OverlapsReleaseBoundary(e.terms.challengerWallet, p.release)
    {
      CreatorIsOutside(q, p.release, s, env, x, terms, supplied, e);
    }
  }

  lemma CreatorIsOutside(r: Release, release: Option<Event>, s: State, env: Env, x: Execution, terms: Bytes32,
                         supplied: Bytes32, e: Event)
    requires EmitsCreation(r, release, s, env, x, terms, supplied, e)
    ensures !OverlapsReleaseBoundary(e.terms.challengerWallet, release)
  {
  }

  // ---------- A dispute that starts too early ----------

  const SCHEDULE := Terms(1, 1, 1, 1, 10, SideA, 100, 0, 1, 2, 4, 100, 10, 5, 200)

  const ASSERTED := Challenge(
    true, SCHEDULE, 0, Proposed, 0, 11, 0, 200, 200, Proposal(true, OutcomeA, 0, 0, 7, 50, 60), NO_DISPUTE, NO_FINAL)

  const SEEN := ProjectedChallenge(
    SCHEDULE, Proposed, 3, 0, 50, 0, Some(11), Some(7), Some(OutcomeA), Some(0), Some(60), None, None, [7], {}, {})

  const RELEASE := Release(
    6, 2, 6, 3, 4, 5, 1,
    Cryptography(_ => 1, (_, _) => 1, _ => 1, (_, w) => w, (_, _) => 1, (_, _) => None))

  const STORED := State(false, 200, map[1 := ASSERTED], map[], {}, 200, 50)

  /** The proposal was made at 50 and may be disputed until 60; the dispute says that arbitration starts at 4. */
  const HASTY := OutcomeDisputed(1, 11, OutcomeB, 0, 8, 7, 4, 9)

  lemma HastyDisputeIsAccepted()
    ensures var release := Some(ReleaseEvent(RELEASE, false));
            && Grounded(RELEASE, release, STORED, 1, SEEN) && FieldsPass(HASTY)
            && OnChallenge(RELEASE.crypto.entitlementId, release, SEEN, HASTY).Changed?
            && !Emittable(RELEASE.crypto.entitlementId, release, SEEN, HASTY)
  {
    var release := Some(ReleaseEvent(RELEASE, false));
    assert Grounded(RELEASE, release, STORED, 1, SEEN) by { SeenIsGrounded(); }
    hide Grounded, Emittable;
    assert StartsEarly(SEEN, HASTY);
    AcceptsExactlyEmittable(RELEASE, release, STORED, SEEN, HASTY);
  }

  lemma SeenIsGrounded()
    ensures Grounded(RELEASE, Some(ReleaseEvent(RELEASE, false)), STORED, 1, SEEN)
  {
    assert PaidWallets(STORED, 1) == {};
  }
}
