/** The contract refines the abstract model: every committed call is an accepted model action with the same effect,
    and what the model would accept beyond that the contract refuses for reasons the model does not have. */
module ModelRefinement {
  import opened Wrappers
  import opened JsNumber
  import opened ProtocolTypes
  import opened Kernel
  import opened KernelInvariant
  import opened Conservation
  import M = ModelSteps
  import MS = ModelSafety

  // ---------- The abstraction ----------

  function AbsProposal(p: Proposal): Option<M.ModelProposal> {
    if p.present then Some(M.ModelProposal(p.outcome, p.evidenceHash, p.proposedAt, p.disputeDeadline)) else None
  }

  function AbsDispute(d: Dispute): Option<M.ModelDispute> {
    if d.present then
      Some(M.ModelDispute(d.outcome, d.evidenceHash, d.parentEvidenceHash, d.disputedAt, d.arbitrationStart,
                          d.arbitrationDeadline))
    else None
  }

  function AbsFinal(f: FinalResolution): Option<M.ModelFinal> {
    if f.present then
      Some(M.ModelFinal(f.outcome, if f.finalEvidenceHash == ZERO_HASH then None else Some(f.finalEvidenceHash)))
    else None
  }

  function AbsSchedule(t: Terms): M.Schedule {
    M.Schedule(t.acceptanceDeadline, t.observationTime, t.sourceCorrectionCutoff, t.proposalDeadline,
               t.disputeWindowSeconds, t.arbitrationWindowSeconds, t.timeoutVoidAt)
  }

  function AbsBalance(e: Entitlement): M.Balance {
    M.Balance(e.claimableAmount, e.paidAmount)
  }

  function AbsEntitlements(c: Challenge, challengers: Entitlement, acceptors: Entitlement): map<Address, M.Balance> {
    if c.acceptingWallet == ZERO_ADDRESS then map[c.terms.challengerWallet := AbsBalance(challengers)]
    else map[c.terms.challengerWallet := AbsBalance(challengers)][c.acceptingWallet := AbsBalance(acceptors)]
  }

  function AbsRecord(c: Challenge, challengers: Entitlement, acceptors: Entitlement): M.ModelChallenge {
    M.ModelChallenge(
      c.terms.challengerWallet, if c.acceptingWallet == ZERO_ADDRESS then None else Some(c.acceptingWallet),
      c.terms.challengerSide, c.terms.stakeAmount, c.state, c.acceptanceNonce, c.depositedAmount,
      c.outstandingLiability, challengers.paidAmount, acceptors.paidAmount, AbsSchedule(c.terms),
      AbsProposal(c.proposal), AbsDispute(c.dispute), AbsFinal(c.finalResolution),
      AbsEntitlements(c, challengers, acceptors))
  }

  function AbsChallenge(s: State, id: Bytes32): M.ModelChallenge {
    var c := ChallengeAt(s, id);
    AbsRecord(c, EntitlementAt(s, id, c.terms.challengerWallet), EntitlementAt(s, id, c.acceptingWallet))
  }

  ghost predicate Refines(s: State, m: M.Model) {
    && m.paused == s.paused
    && m.totalOutstandingLiability == s.totalOutstandingLiability
    && m.challenges.Keys == s.challenges.Keys
    && (forall id :: id in s.challenges ==> m.challenges[id] == AbsChallenge(s, id))
    && (forall w: Address, n: Bytes32 :: (w, n) in m.usedNonces <==> NonceKey(w, n) in s.usedInstanceNonces)
  }

  function RolesOf(r: Release): M.Roles {
    M.Roles(r.resolver, r.arbiter, r.pauser, 0)
  }

  /** A permit the model would call valid: everything but its wallet, nonce and expiry. */
  predicate PermitValid(r: Release, c: Challenge, id: Bytes32, p: Permit, signature: Signature) {
    && p.challengeId == id && p.specHash == c.terms.specHash
    && r.crypto.recover(p, signature) == Some(c.terms.challengerWallet)
  }

  /** The model action that stands for a call. */
  function ActionOf(r: Release, s: State, env: Env, call: Call): M.Action {
    match call
    case CreateAndFund(x, termsHash, _) =>
      M.Create(env.sender, env.now, r.crypto.challengeId(r.crypto.specHash(r.crypto.executionHash(x), termsHash)),
               x.challengerWallet, x.nonce, x.stakeAmount, x.challengerSide,
               M.Schedule(x.acceptanceDeadline, x.observationTime, x.sourceCorrectionCutoff, x.proposalDeadline,
                          x.disputeWindowSeconds, x.arbitrationWindowSeconds, x.timeoutVoidAt))
    case Accept(id, p, signature) =>
      M.Accept(env.sender, env.now, id, p.acceptingWallet, p.acceptanceNonce,
               PermitValid(r, ChallengeAt(s, id), id, p, signature), p.expiresAt)
    case AdvanceAcceptanceNonce(id) => M.AdvanceNonce(env.sender, env.now, id)
    case CancelOpen(id) => M.Cancel(env.sender, env.now, id)
    case ExpireOpen(id) => M.Expire(env.now, id)
    case Propose(id, outcome, reason, evidence) =>
      M.Propose(env.sender, env.now, id, Some(outcome), reason == TERMS_UNRESOLVABLE, evidence)
    case DisputeOutcome(id, outcome, _, evidence, parent) =>
      M.Dispute(env.sender, env.now, id, Some(outcome), evidence, parent)
    case FinalizeUncontested(id) => M.Finalize(env.now, id)
    case Arbitrate(id, outcome, _, evidence, parent) =>
      M.Arbitrate(env.sender, env.now, id, Some(outcome), evidence, parent)
    case VoidUnproposed(id) => M.VoidUnproposed(env.now, id)
    case VoidUnarbitrated(id) => M.VoidUnarbitrated(env.now, id)
    case ClaimWinnings(id) => M.Claim(env.sender, id)
    case RefundPrincipal(id) => M.Refund(env.sender, id)
    case SetPaused(newPaused) => M.Pause(env.sender, newPaused)
  }

  // ---------- One call on one challenge ----------

  /** A challenge and its abstraction, small enough for exact numbers. */
  ghost predicate Shadow(r: Release, s: State, m: M.Model, id: Bytes32) {
    && Local(r, s, id)
    && m.paused == s.paused && m.totalOutstandingLiability == s.totalOutstandingLiability
    && id in m.challenges && m.challenges[id] == AbsChallenge(s, id)
    && s.totalOutstandingLiability <= MAX_EXACT && s.challenges[id].terms.stakeAmount <= M.MAX_WHOLE_STAKE
  }

  /** The model's step lands on the abstraction of the contract's new state. */
  predicate Follows(s': State, id: Bytes32, m: M.Model, result: M.StepResult) {
    && result.Stepped?
    && result.model == m.(challenges := m.challenges[id := AbsChallenge(s', id)],
                          totalOutstandingLiability := s'.totalOutstandingLiability)
  }

  lemma AcceptFollows(r: Release, s: State, env: Env, id: Bytes32, p: Permit, signature: Signature, m: M.Model)
    requires Shadow(r, s, m, id) && AcceptReply(r, s, env, id, p, signature).Committed?
    requires AcceptReply(r, s, env, id, p, signature).state.totalOutstandingLiability <= MAX_EXACT
    ensures Follows(AcceptReply(r, s, env, id, p, signature).state, id, m,
                    M.AcceptStep(RolesOf(r), m, ActionOf(r, s, env, Accept(id, p, signature))))
  {
    hide Plus;
    var c := s.challenges[id];
    assert EntitlementKey(id, p.acceptingWallet) !in s.entitlements;
    MS.SmallSums(c.terms.stakeAmount, c.terms.stakeAmount);
    MS.SmallSums(m.totalOutstandingLiability, c.terms.stakeAmount);
  }

  lemma OpenNonceFollows(r: Release, s: State, env: Env, id: Bytes32, m: M.Model)
    requires Shadow(r, s, m, id) && AdvanceNonceReply(s, env, id).Committed?
    requires s.challenges[id].acceptanceNonce < MAX_EXACT
    ensures Follows(AdvanceNonceReply(s, env, id).state, id, m, M.OpenStep(m, M.AdvanceNonce(env.sender, env.now, id)))
  {
    hide Plus;
    MS.SmallSums(s.challenges[id].acceptanceNonce, 1);
  }

  lemma OpenRefundFollows(r: Release, s: State, env: Env, id: Bytes32, call: Call, m: M.Model)
    requires call in {CancelOpen(id), ExpireOpen(id)}
    requires Shadow(r, s, m, id) && Execute(r, s, env, call).Committed?
    ensures Follows(Execute(r, s, env, call).state, id, m, M.OpenStep(m, ActionOf(r, s, env, call)))
  {
    hide Plus;
    var t := s.challenges[id].terms;
    hide FinalOk, ScheduleOk;
    assert map[t.challengerWallet := M.Balance(0, 0)][t.challengerWallet := M.Balance(t.stakeAmount, 0)]
        == map[t.challengerWallet := M.Balance(t.stakeAmount, 0)];
  }

  lemma ArgueFollows(r: Release, s: State, env: Env, id: Bytes32, call: Call, m: M.Model)
    requires (call.Propose? || call.DisputeOutcome?) && call.challengeId == id
    requires Shadow(r, s, m, id) && Execute(r, s, env, call).Committed?
    ensures Follows(Execute(r, s, env, call).state, id, m, M.Step(RolesOf(r), m, ActionOf(r, s, env, call)))
  {
    hide FinalOk, ScheduleOk, MoneyOk;
  }

  /** The model's final step on an abstracted challenge, whatever led to it. */
  predicate EndFollows(s': State, id: Bytes32, c: M.ModelChallenge, outcome: Outcome, evidence: Option<Bytes32>) {
    M.SetFinal(c, outcome, evidence) == M.Done(AbsChallenge(s', id))
  }

  lemma ResolvedFollows(r: Release, s: State, env: Env, id: Bytes32, outcome: Outcome, reason: nat, evidence: Bytes32,
                        parent: Bytes32, path: ResolutionPath)
    requires Local(r, s, id) && s.challenges[id].state in {Proposed, Disputed}
    requires outcome != OutcomeVoid && evidence != ZERO_HASH
    requires FinalizeResolved(s, env, id, outcome, reason, evidence, parent, path).Committed?
    ensures var s' := FinalizeResolved(s, env, id, outcome, reason, evidence, parent, path).state;
            && EndFollows(s', id, AbsChallenge(s, id), outcome, Some(evidence))
            && s'.challenges[id].outstandingLiability == s.challenges[id].outstandingLiability
            && s'.totalOutstandingLiability == s.totalOutstandingLiability
  {
    hide FinalOk, ScheduleOk, HistoryOk;
    var c := s.challenges[id];
    var w, a, zero, full := c.terms.challengerWallet, c.acceptingWallet, M.Balance(0, 0), M.Balance(c.terms.stakeAmount * 2, 0);
    assert map[w := zero][a := zero][w := full] == map[w := full][a := zero];
    assert map[w := zero][a := zero][a := full] == map[w := zero][a := full];
  }

  lemma VoidedFollows(r: Release, s: State, env: Env, id: Bytes32, final: FinalResolution)
    requires Local(r, s, id) && s.challenges[id].state in {Active, Proposed, Disputed}
    requires final.present && final.outcome == OutcomeVoid
    ensures var s' := Voided(s, env, id, final);
            && EndFollows(s', id, AbsChallenge(s, id), OutcomeVoid,
                          if final.finalEvidenceHash == ZERO_HASH then None else Some(final.finalEvidenceHash))
            && s'.totalOutstandingLiability == s.totalOutstandingLiability
  {
    hide FinalOk, ScheduleOk, HistoryOk;
    var c := s.challenges[id];
    var w, a, zero, full := c.terms.challengerWallet, c.acceptingWallet, M.Balance(0, 0), M.Balance(c.terms.stakeAmount, 0);
    assert map[w := zero][a := zero][w := full][a := full] == map[w := full][a := full];
  }

  lemma EndingFollows(r: Release, s: State, env: Env, id: Bytes32, call: Call, m: M.Model)
    requires call.FinalizeUncontested? || call.Arbitrate? || call.VoidUnproposed? || call.VoidUnarbitrated?
    requires call.challengeId == id && Shadow(r, s, m, id) && Execute(r, s, env, call).Committed?
    ensures Follows(Execute(r, s, env, call).state, id, m, M.EndStep(RolesOf(r), m, ActionOf(r, s, env, call)))
  {
    hide M.SetFinal, MoneyOk, ScheduleOk, CreateAcceptedRefunds, Grant, AbsEntitlements;
    var c := s.challenges[id];
    match call
    case FinalizeUncontested(_) =>
      var p := c.proposal;
      if p.outcome == OutcomeVoid {
        VoidedFollows(r, s, env, id, FinalResolution(true, OutcomeVoid, 0, p.evidenceVoidReason, NO_PROPOSAL_TIMEOUT,
                      UncontestedResolution, UncontestedVoid, p.evidenceHash, ZERO_HASH, env.sender));
      } else {
        ResolvedFollows(r, s, env, id, p.outcome, p.abReason, p.evidenceHash, ZERO_HASH, UncontestedResolution);
      }
    case Arbitrate(_, outcome, reason, evidence, parent) =>
      if outcome == OutcomeVoid {
        VoidedFollows(r, s, env, id, FinalResolution(true, OutcomeVoid, 0, reason, NO_PROPOSAL_TIMEOUT,
                      UncontestedResolution, ArbiterVoid, evidence, parent, env.sender));
      } else {
        ResolvedFollows(r, s, env, id, outcome, reason, evidence, parent, ArbiterResolution);
      }
    case VoidUnproposed(_) =>
      VoidedFollows(r, s, env, id, FinalResolution(true, OutcomeVoid, 0, 0, NO_PROPOSAL_TIMEOUT,
                    UncontestedResolution, ProposalTimeoutVoid, ZERO_HASH, ZERO_HASH, env.sender));
    case VoidUnarbitrated(_) =>
      VoidedFollows(r, s, env, id, FinalResolution(true, OutcomeVoid, 0, 0, ARBITRATION_TIMEOUT,
                    UncontestedResolution, ArbitrationTimeoutVoid, ZERO_HASH, ZERO_HASH, env.sender));
  }

  lemma PayFollows(r: Release, s: State, env: Env, id: Bytes32, wallet: Address, amount: nat, m: M.Model)
    requires Shadow(r, s, m, id) && Terminal(s.challenges[id].state) && wallet != ZERO_ADDRESS && amount > 0
    requires ConsumeAndPay(s, env, id, wallet, amount).Ok?
    ensures Follows(ConsumeAndPay(s, env, id, wallet, amount).value, id, m, M.Consume(m, id, Some(wallet), amount))
  {
    hide Plus, Minus, FinalOk, ScheduleOk, HistoryOk;
    var c := s.challenges[id];
    var w, a := c.terms.challengerWallet, c.acceptingWallet;
    assert EntitlementKey(id, wallet) in s.entitlements;
    MS.SmallSums(0, amount);
    MS.SmallDifference(c.outstandingLiability, amount);
    MS.SmallDifference(s.totalOutstandingLiability, amount);
    BalancesUpdate(w, a, AbsBalance(EntitlementAt(s, id, w)), AbsBalance(EntitlementAt(s, id, a)), M.Balance(0, amount));
  }

  lemma BalancesUpdate(w: Address, a: Address, e: M.Balance, f: M.Balance, paid: M.Balance)
    ensures map[w := e][w := paid] == map[w := paid]
    ensures a != w ==> map[w := e][a := f][w := paid] == map[w := paid][a := f]
    ensures map[w := e][a := f][a := paid] == map[w := e][a := paid]
  {
  }

  lemma PullFollows(r: Release, s: State, env: Env, id: Bytes32, call: Call, m: M.Model)
    requires call in {ClaimWinnings(id), RefundPrincipal(id)} && Shadow(r, s, m, id) && env.sender != ZERO_ADDRESS
    requires Execute(r, s, env, call).Committed?
    ensures Follows(Execute(r, s, env, call).state, id, m, M.PullStep(m, ActionOf(r, s, env, call)))
  {
    hide ConsumeAndPay, M.Consume, MoneyOk, ScheduleOk, HistoryOk, Follows;
    var c := s.challenges[id];
    assert c.terms.stakeAmount > 0;
    PayFollows(r, s, env, id, env.sender, if call.ClaimWinnings? then c.terms.stakeAmount * 2 else c.terms.stakeAmount, m);
  }

  lemma CallFollows(r: Release, s: State, env: Env, call: Call, m: M.Model)
    requires OnExisting(call) && Execute(r, s, env, call).Committed? && env.sender != ZERO_ADDRESS
    requires Shadow(r, s, m, call.challengeId)
    requires Execute(r, s, env, call).state.totalOutstandingLiability <= MAX_EXACT
    requires s.challenges[call.challengeId].acceptanceNonce < MAX_EXACT || !call.AdvanceAcceptanceNonce?
    ensures Follows(Execute(r, s, env, call).state, call.challengeId, m,
                    M.Step(RolesOf(r), m, ActionOf(r, s, env, call)))
  {
    hide Follows, Shadow, AcceptReply, AdvanceNonceReply, CancelReply, ExpireReply, ProposeReply, DisputeReply;
    hide FinalizeUncontestedReply, ArbitrateReply, VoidUnproposedReply, VoidUnarbitratedReply, ClaimReply, RefundReply;
    hide M.OpenStep, M.AcceptStep, M.ProposeStep, M.DisputeStep, M.EndStep, M.PullStep, PermitValid;
    match call
    case Accept(id, permit, signature) => AcceptFollows(r, s, env, id, permit, signature, m);
    case AdvanceAcceptanceNonce(id) => OpenNonceFollows(r, s, env, id, m);
    case CancelOpen(id) => OpenRefundFollows(r, s, env, id, call, m);
    case ExpireOpen(id) => OpenRefundFollows(r, s, env, id, call, m);
    case Propose(id, _, _, _) => ArgueFollows(r, s, env, id, call, m);
    case DisputeOutcome(id, _, _, _, _) => ArgueFollows(r, s, env, id, call, m);
    case FinalizeUncontested(id) => EndingFollows(r, s, env, id, call, m);
    case Arbitrate(id, _, _, _, _) => EndingFollows(r, s, env, id, call, m);
    case VoidUnproposed(id) => EndingFollows(r, s, env, id, call, m);
    case VoidUnarbitrated(id) => EndingFollows(r, s, env, id, call, m);
    case ClaimWinnings(id) => PullFollows(r, s, env, id, call, m);
    case RefundPrincipal(id) => PullFollows(r, s, env, id, call, m);
  }

  // ---------- The whole state ----------

  /** Small enough for every number the model adds up to be exact. */
  ghost predicate Small(s: State) {
    && s.totalOutstandingLiability <= MAX_EXACT
    && forall id :: id in s.challenges ==>
         s.challenges[id].terms.stakeAmount <= M.MAX_WHOLE_STAKE && s.challenges[id].acceptanceNonce <= MAX_EXACT
  }

  lemma OthersStayAbstracted(s: State, s': State, id: Bytes32, other: Bytes32)
    requires SameElsewhere(s, s', id) && other != id
    requires other in s.challenges && other in s'.challenges && s'.challenges[other] == s.challenges[other]
    ensures AbsChallenge(s', other) == AbsChallenge(s, other)
  {
    hide AbsRecord;
  }

  lemma CallRefined(r: Release, s: State, env: Env, call: Call, m: M.Model)
    requires OnExisting(call) && Execute(r, s, env, call).Committed? && env.sender != ZERO_ADDRESS && s.clock <= env.now
    requires Inv(r, s) && Refines(s, m) && Small(s) && Small(Execute(r, s, env, call).state)
    ensures var result := M.Step(RolesOf(r), m, ActionOf(r, s, env, call));
            result.Stepped? && Refines(Execute(r, s, env, call).state, result.model)
            && result.model.order == m.order && result.model.challenges.Keys == m.challenges.Keys
  {
    hide Execute, Inv, Local, AbsChallenge, M.Step, ActionOf, SlotOk, SameElsewhere;
    var s', id := Execute(r, s, env, call).state, call.challengeId;
    CommitNeedsChallenge(r, s, env, call);
    InvLocal(r, s, id);
    CallAdvances(r, s, env, call);
    if call.AdvanceAcceptanceNonce? {
      NonceCounts(s, env, id, r);
    }
    PauseStays(r, s, env, call);
    CallFollows(r, s, env, call, m);
    hide Follows, Advances;
    AdvanceIsRefined(r, s, s', id, m, M.Step(RolesOf(r), m, ActionOf(r, s, env, call)));
  }

  lemma AdvanceIsRefined(r: Release, s: State, s': State, id: Bytes32, m: M.Model, result: M.StepResult)
    requires Refines(s, m) && Advances(r, s, s', id) && s'.paused == s.paused && Follows(s', id, m, result)
    ensures Refines(s', result.model) && result.model.challenges.Keys == m.challenges.Keys
  {
    hide AbsChallenge, SameElsewhere, SlotOk, OwnedAt;
    forall other | other in s'.challenges && other != id
      ensures AbsChallenge(s', other) == AbsChallenge(s, other)
    {
      OthersStayAbstracted(s, s', id, other);
    }
  }

  lemma NonceCounts(s: State, env: Env, id: Bytes32, r: Release)
    requires Execute(r, s, env, AdvanceAcceptanceNonce(id)).Committed? && id in s.challenges
    ensures var s' := Execute(r, s, env, AdvanceAcceptanceNonce(id)).state;
            id in s'.challenges && s'.challenges[id].acceptanceNonce == s.challenges[id].acceptanceNonce + 1
  {
  }

  /** The model takes the creation too. */
  lemma CreateStepped(r: Release, s: State, env: Env, x: Execution, terms: Bytes32, supplied: Bytes32, m: M.Model)
    requires CreateReply(r, s, env, x, terms, supplied).Committed? && Refines(s, m)
    requires x.stakeAmount <= M.MAX_WHOLE_STAKE
    requires CreateReply(r, s, env, x, terms, supplied).event.challengeId !in m.challenges
    ensures var e := CreateReply(r, s, env, x, terms, supplied).event;
            M.CreateStep(RolesOf(r), m, ActionOf(r, s, env, CreateAndFund(x, terms, supplied)))
            == M.Stepped(m.(
                 challenges := m.challenges[e.challengeId := M.NewModelChallenge(x.challengerWallet, x.challengerSide,
                                                                                 x.stakeAmount, AbsSchedule(e.terms))],
                 order := m.order + [e.challengeId],
                 usedNonces := m.usedNonces + {(x.challengerWallet, x.nonce)},
                 totalOutstandingLiability := Plus(m.totalOutstandingLiability, x.stakeAmount)))
  {
    hide Plus, AbsRecord, M.NewModelChallenge;
  }

  /** The model's step is a new challenge at the end, and abstracts the committed creation. */
  ghost predicate CreationTaken(reply: Reply, m: M.Model, result: M.StepResult) {
    && reply.Committed? && reply.event.ChallengeCreated? && reply.event.challengeId !in m.challenges
    && result.Stepped? && Refines(reply.state, result.model)
    && result.model.order == m.order + [reply.event.challengeId]
  }

  lemma CreateRefined(r: Release, s: State, env: Env, x: Execution, terms: Bytes32, supplied: Bytes32, m: M.Model)
    requires CreateReply(r, s, env, x, terms, supplied).Committed?
    requires Inv(r, s) && Refines(s, m)
    requires x.stakeAmount <= M.MAX_WHOLE_STAKE
    requires CreateReply(r, s, env, x, terms, supplied).state.totalOutstandingLiability <= MAX_EXACT
    ensures CreationTaken(CreateReply(r, s, env, x, terms, supplied), m,
                          M.CreateStep(RolesOf(r), m, ActionOf(r, s, env, CreateAndFund(x, terms, supplied))))
  {
    hide Plus, SlotOk, NoncesOk, CreateReply, ActionOf, M.CreateStep, AbsRecord, M.NewModelChallenge, NewChallenge;
    hide AbsSchedule, Solvent;
    CreateEffect(r, s, env, x, terms, supplied);
    var Committed(s', e) := CreateReply(r, s, env, x, terms, supplied);
    var id := e.challengeId;
    IdIsNew(r, s, id);
    CreateStepped(r, s, env, x, terms, supplied, m);
    MS.SmallSums(m.totalOutstandingLiability, x.stakeAmount);
    NewKeepsTerms(e.terms, env.now);
    CreatedAbstraction(s, s', id, x, env.now);
    var m' := m.(challenges := m.challenges[id := AbsChallenge(s', id)], order := m.order + [id],
                 usedNonces := m.usedNonces + {(x.challengerWallet, x.nonce)},
                 totalOutstandingLiability := m.totalOutstandingLiability + x.stakeAmount);
    CreationAbstracts(s, s', id, NonceKey(x.challengerWallet, x.nonce), m, m');
  }

  lemma CreationAbstracts(s: State, s': State, id: Bytes32, key: NonceKey, m: M.Model, m': M.Model)
    requires Refines(s, m) && id !in s.challenges && id in s'.challenges
    requires s'.challenges == s.challenges[id := s'.challenges[id]] && s'.entitlements == s.entitlements
    requires s'.paused == s.paused && s'.usedInstanceNonces == s.usedInstanceNonces + {key}
    requires m'.challenges == m.challenges[id := AbsChallenge(s', id)] && m'.paused == m.paused
    requires m'.usedNonces == m.usedNonces + {(key.wallet, key.nonce)}
    requires m'.totalOutstandingLiability == s'.totalOutstandingLiability
    ensures Refines(s', m')
  {
    hide AbsRecord;
  }

  lemma NewKeepsTerms(t: Terms, now: nat)
    ensures NewChallenge(t, now).terms == t
  {
  }

  lemma CreatedAbstraction(s: State, s': State, id: Bytes32, x: Execution, now: nat)
    requires EntitlementsOwned(s) && id !in s.challenges && s'.entitlements == s.entitlements
    requires id in s'.challenges && x.stakeAmount <= MAX_STAKE
    requires s'.challenges[id] == NewChallenge(TermsOf(x, s'.challenges[id].terms.specHash, s'.challenges[id].terms.executionHash,
                                                       s'.challenges[id].terms.termsHash), now)
    ensures AbsChallenge(s', id)
            == M.NewModelChallenge(x.challengerWallet, x.challengerSide, x.stakeAmount, AbsSchedule(s'.challenges[id].terms))
  {
    assert EntitlementKey(id, x.challengerWallet) !in s.entitlements;
    assert EntitlementKey(id, ZERO_ADDRESS) !in s.entitlements;
  }

  lemma PauseRefined(r: Release, s: State, env: Env, newPaused: bool, m: M.Model)
    requires SetPausedReply(r, s, env, newPaused).Committed? && Refines(s, m)
    ensures var result := M.PauseStep(RolesOf(r), m, M.Pause(env.sender, newPaused));
            && result.Stepped? && Refines(SetPausedReply(r, s, env, newPaused).state, result.model)
            && result.model.order == m.order && result.model.challenges.Keys == m.challenges.Keys
  {
    hide AbsRecord;
    var s' := SetPausedReply(r, s, env, newPaused).state;
    assert forall id :: id in s.challenges ==> AbsChallenge(s', id) == AbsChallenge(s, id);
  }

  /** The unrounded sum over the model's order is the contract's aggregate. */
  lemma {:induction false} SumIsTotal(s: State, m: M.Model, order: seq<Bytes32>, challenges: map<Bytes32, Challenge>)
    requires MS.Unique(order) && (forall id :: id in order <==> id in challenges)
    requires forall id :: id in challenges ==>
               id in m.challenges && m.challenges[id].outstanding == challenges[id].outstandingLiability
    ensures MS.Sum(m.challenges, order) == TotalLiability(challenges)
  {
    if order == [] {
      assert challenges == map[];
    } else {
      var n := |order| - 1;
      assert order == order[..n] + [order[n]];
      SumIsTotal(s, m, order[..n], challenges - {order[n]});
      TotalWithout(challenges, order[n]);
    }
  }

  /** The model is in order and abstracts the contract. */
  ghost predicate Tracks(r: Release, s: State, m: M.Model) {
    Refines(s, m) && MS.ModelOk(m)
  }

  lemma TrackedLiability(r: Release, s: State, m: M.Model)
    requires Inv(r, s) && Refines(s, m) && MS.Unique(m.order) && (forall id :: id in m.order <==> id in m.challenges)
    ensures MS.TrueLiability(m) == s.totalOutstandingLiability
  {
    hide SlotOk;
    SumIsTotal(s, m, m.order, s.challenges);
  }

  lemma StepRefined(r: Release, s: State, env: Env, call: Call, m: M.Model)
    requires Execute(r, s, env, call).Committed? && env.sender != ZERO_ADDRESS && s.clock <= env.now
    requires Inv(r, s) && Refines(s, m) && Small(s) && Small(Execute(r, s, env, call).state)
    requires MS.Unique(m.order) && (forall id :: id in m.order <==> id in m.challenges)
    ensures var result := M.Step(RolesOf(r), m, ActionOf(r, s, env, call));
            && result.Stepped? && Refines(Execute(r, s, env, call).state, result.model)
            && MS.Unique(result.model.order)
            && (forall id :: id in result.model.order <==> id in result.model.challenges)
  {
    hide CreateReply, Inv, M.CreateStep, M.OpenStep, M.AcceptStep, M.ProposeStep, M.DisputeStep, M.EndStep, M.PullStep;
    hide AcceptReply, AdvanceNonceReply, CancelReply, ExpireReply, ProposeReply, DisputeReply, AbsChallenge;
    hide FinalizeUncontestedReply, ArbitrateReply, VoidUnproposedReply, VoidUnarbitratedReply, ClaimReply, RefundReply;
    if OnExisting(call) {
      CallRefined(r, s, env, call, m);
    } else if call.CreateAndFund? {
      CreatedStake(r, s, env, call.execution, call.termsHash, call.suppliedSpecHash);
      CreateRefined(r, s, env, call.execution, call.termsHash, call.suppliedSpecHash, m);
    } else {
      PauseRefined(r, s, env, call.newPaused, m);
    }
  }

  lemma CreatedStake(r: Release, s: State, env: Env, x: Execution, terms: Bytes32, supplied: Bytes32)
    requires CreateReply(r, s, env, x, terms, supplied).Committed?
    ensures var Committed(s', e) := CreateReply(r, s, env, x, terms, supplied);
            && e.ChallengeCreated? && e.challengeId in s'.challenges
            && s'.challenges[e.challengeId].terms.stakeAmount == x.stakeAmount
            && s'.challenges.Keys == s.challenges.Keys + {e.challengeId}
  {
  }

  /** A committed call is an accepted model action, invariants checked, that abstracts the new state. */
  lemma CommitRefined(r: Release, s: State, env: Env, call: Call, m: M.Model)
    requires Execute(r, s, env, call).Committed? && env.sender != ZERO_ADDRESS && s.clock <= env.now
    requires Inv(r, s) && Tracks(r, s, m) && Small(s) && Small(Execute(r, s, env, call).state)
    ensures var (outcome, m') := M.Apply(RolesOf(r), m, ActionOf(r, s, env, call));
            outcome == M.Accepted && Tracks(r, Execute(r, s, env, call).state, m')
  {
    hide Execute, M.Step, Inv, Refines, MS.TrueLiability, MS.ChallengeOk, ActionOf;
    var s' := Execute(r, s, env, call).state;
    StepRefined(r, s, env, call, m);
    CommitKeepsInv(r, s, env, call);
    var m' := M.Step(RolesOf(r), m, ActionOf(r, s, env, call)).model;
    TrackedLiability(r, s', m');
    MS.ApplyIsSafe(RolesOf(r), m, ActionOf(r, s, env, call));
  }

  // ---------- Whole runs ----------

  /** The model actions a run amounts to. */
  function ActionsOf(r: Release, s0: State, ms: seq<Stimulus>): seq<M.Action> {
    if ms == [] then if s0.paused then [M.Pause(r.pauser, true)] else []
    else
      var before, last := ms[..|ms| - 1], ms[|ms| - 1];
      var s := Run(r, s0, before);
      ActionsOf(r, s0, before)
      + if last.Transaction? && Execute(r, s, last.env, last.call).Committed? then [ActionOf(r, s, last.env, last.call)]
        else []
  }

  /** The run stays within what the model's numbers hold exactly. */
  ghost predicate SmallRun(r: Release, s0: State, ms: seq<Stimulus>) {
    forall k :: 0 <= k <= |ms| ==> Small(Run(r, s0, ms[..k]))
  }

  lemma FreshTracks(r: Release, initialPaused: bool, balance: nat, now: nat)
    ensures var s0 := DeployedState(initialPaused, balance, now);
            Tracks(r, s0, M.Ran(RolesOf(r), M.FRESH, ActionsOf(r, s0, [])))
  {
    var s0 := DeployedState(initialPaused, balance, now);
    var pause := M.Pause(r.pauser, true);
    assert [pause][..0] == [] && M.Ran(RolesOf(r), M.FRESH, []) == M.FRESH;
    MS.FreshOk();
    MS.PauseKeepsOk(M.FRESH, pause);
    MS.OkModelIsNotViolated(M.FRESH.(paused := true));
  }

  /** Every legal run of the contract within the model's range is a run of the model, which ends in its abstraction. */
  lemma {:induction false} RunRefined(r: Release, initialPaused: bool, balance: nat, now: nat, ms: seq<Stimulus>)
    requires balance <= MAX_UINT256
    requires var s0 := DeployedState(initialPaused, balance, now); LegalRun(r, s0, ms) && SmallRun(r, s0, ms)
    ensures var s0 := DeployedState(initialPaused, balance, now);
            Tracks(r, Run(r, s0, ms), M.Ran(RolesOf(r), M.FRESH, ActionsOf(r, s0, ms)))
  {
    hide Execute, Tracks, Inv, Small, M.Apply;
    var s0 := DeployedState(initialPaused, balance, now);
    if ms == [] {
      FreshTracks(r, initialPaused, balance, now);
    } else {
      var n := |ms| - 1;
      var before, last := ms[..n], ms[n];
      assert forall k :: 0 <= k <= n ==> before[..k] == ms[..k];
      RunRefined(r, initialPaused, balance, now, before);
      var mid := Run(r, s0, before);
      DeployedInv(r, initialPaused, balance, now);
      RunKeepsInv(r, s0, before);
      assert Small(mid) && Small(Run(r, s0, ms)) by { assert before[..n] == before && ms[..n + 1] == ms; }
      var actions := ActionsOf(r, s0, before);
      if last.Transaction? && Execute(r, mid, last.env, last.call).Committed? {
        CommitRefined(r, mid, last.env, last.call, M.Ran(RolesOf(r), M.FRESH, actions));
        var action := ActionOf(r, mid, last.env, last.call);
        assert (actions + [action])[..|actions|] == actions;
      } else {
        assert ActionsOf(r, s0, ms) == actions;
        IdleTracked(r, mid, last, M.Ran(RolesOf(r), M.FRESH, actions));
      }
    }
  }

  lemma IdleTracked(r: Release, s: State, last: Stimulus, m: M.Model)
    requires Tracks(r, s, m) && (last.Donation? || Execute(r, s, last.env, last.call).Reverted?)
    ensures Tracks(r, Next(r, s, last), m)
  {
    hide Execute, AbsRecord, MS.ModelOk;
    var s' := Next(r, s, last);
    assert forall id :: id in s.challenges ==> AbsChallenge(s', id) == AbsChallenge(s, id);
  }

  // ---------- What the contract adds ----------

  predicate TokenError(e: Error) {
    e in {TokenBalanceQueryFailed, TokenTransferReverted, TokenTransferReturnedFalse, TokenTransferMalformedReturn,
          TokenBalanceDeltaMismatch, TokenSenderBalanceDeltaMismatch, TokenRecipientBalanceDeltaMismatch}
  }

  /** Refusals for what the model leaves out: the release an execution names, participants that are the escrow or the
      token, creation times, hashes, reason codes and the token itself. */
  predicate BeyondModel(call: Call, e: Error) {
    match call
    case CreateAndFund(_, _, _) =>
      || TokenError(e)
      || e in {InvalidExecutionChain, InvalidExecutionEscrow, InvalidExecutionToken, InvalidExecutionTokenDecimals,
               InvalidChallengerWallet, ParticipantIsPauser, CreatedAtAfterOpening, SpecHashMismatch}
    case Accept(_, _, _) => TokenError(e) || e == InvalidAcceptingWallet
    case Propose(_, _, _, _) => e == InvalidOutcomeReason
    case DisputeOutcome(_, _, _, _, _) => e == InvalidOutcomeReason
    case Arbitrate(_, _, _, _, _) => e == InvalidOutcomeReason
    case ClaimWinnings(_) => TokenError(e)
    case RefundPrincipal(_) => TokenError(e)
    case _ => false
  }

  lemma CreateBeyond(r: Release, s: State, env: Env, call: Call, m: M.Model)
    requires call.CreateAndFund? && Refines(s, m) && SlotsOk(r, s)
    requires M.CreateStep(RolesOf(r), m, ActionOf(r, s, env, call)).Stepped? && Execute(r, s, env, call).Reverted?
    requires !AccountingError(Execute(r, s, env, call).error)
    ensures BeyondModel(call, Execute(r, s, env, call).error)
  {
    hide SlotOk, AbsRecord;
  }

  lemma FundBeyond(r: Release, s: State, env: Env, call: Call, m: M.Model)
    requires call.Accept? && Shadow(r, s, m, call.challengeId)
    requires M.AcceptStep(RolesOf(r), m, ActionOf(r, s, env, call)).Stepped? && Execute(r, s, env, call).Reverted?
    requires !AccountingError(Execute(r, s, env, call).error)
    ensures BeyondModel(call, Execute(r, s, env, call).error)
  {
    hide MoneyOk, HistoryOk, FinalOk, Plus, AbsEntitlements;
  }

  lemma OpenCommits(r: Release, s: State, env: Env, call: Call, m: M.Model)
    requires call.AdvanceAcceptanceNonce? || call.CancelOpen? || call.ExpireOpen?
    requires Shadow(r, s, m, call.challengeId)
    requires M.Step(RolesOf(r), m, ActionOf(r, s, env, call)).Stepped?
    requires Execute(r, s, env, call).Reverted? ==> !AccountingError(Execute(r, s, env, call).error)
    ensures Execute(r, s, env, call).Committed?
  {
    hide MoneyOk, FinalOk, Plus, AbsEntitlements;
  }

  lemma ProposeBeyond(r: Release, s: State, env: Env, call: Call, m: M.Model)
    requires call.Propose? && Shadow(r, s, m, call.challengeId)
    requires M.ProposeStep(RolesOf(r), m, ActionOf(r, s, env, call)).Stepped? && Execute(r, s, env, call).Reverted?
    requires !AccountingError(Execute(r, s, env, call).error)
    ensures BeyondModel(call, Execute(r, s, env, call).error)
  {
    hide MoneyOk, FinalOk, HistoryOk, TermsOk, AbsEntitlements;
  }

  lemma DisputeBeyond(r: Release, s: State, env: Env, call: Call, m: M.Model)
    requires call.DisputeOutcome? && Shadow(r, s, m, call.challengeId)
    requires M.DisputeStep(m, ActionOf(r, s, env, call)).Stepped? && Execute(r, s, env, call).Reverted?
    requires !AccountingError(Execute(r, s, env, call).error)
    ensures BeyondModel(call, Execute(r, s, env, call).error)
  {
    hide MoneyOk, FinalOk, TermsOk, AbsEntitlements;
  }

  lemma DeadlineCallCommits(r: Release, s: State, env: Env, call: Call, m: M.Model)
    requires call.FinalizeUncontested? || call.VoidUnproposed? || call.VoidUnarbitrated?
    requires Shadow(r, s, m, call.challengeId)
    requires M.EndStep(RolesOf(r), m, ActionOf(r, s, env, call)).Stepped?
    requires Execute(r, s, env, call).Reverted? ==> !AccountingError(Execute(r, s, env, call).error)
    ensures Execute(r, s, env, call).Committed?
  {
    hide MoneyOk, FinalOk, TermsOk, AbsEntitlements, M.SetFinal;
  }

  lemma ArbitrateBeyond(r: Release, s: State, env: Env, call: Call, m: M.Model)
    requires call.Arbitrate? && Shadow(r, s, m, call.challengeId)
    requires M.EndStep(RolesOf(r), m, ActionOf(r, s, env, call)).Stepped? && Execute(r, s, env, call).Reverted?
    requires !AccountingError(Execute(r, s, env, call).error)
    ensures BeyondModel(call, Execute(r, s, env, call).error)
  {
    hide MoneyOk, FinalOk, TermsOk, AbsEntitlements, M.SetFinal;
  }

  lemma PayBeyond(r: Release, s: State, env: Env, call: Call, m: M.Model)
    requires call.ClaimWinnings? || call.RefundPrincipal?
    requires Shadow(r, s, m, call.challengeId) && env.sender != ZERO_ADDRESS
    requires M.PullStep(m, ActionOf(r, s, env, call)).Stepped? && Execute(r, s, env, call).Reverted?
    requires !AccountingError(Execute(r, s, env, call).error)
    ensures BeyondModel(call, Execute(r, s, env, call).error)
  {
    hide HistoryOk, Plus, Minus;
  }

  /** A call the model would accept either commits or is refused for something the model does not cover. */
  lemma ModelAcceptsWhatCommits(r: Release, s: State, env: Env, call: Call, m: M.Model)
    requires Inv(r, s) && Tracks(r, s, m) && Small(s) && env.sender != ZERO_ADDRESS
    requires M.Step(RolesOf(r), m, ActionOf(r, s, env, call)).Stepped?
    ensures var reply := Execute(r, s, env, call);
            reply.Committed? || BeyondModel(call, reply.error)
  {
    hide Inv, Execute, BeyondModel, M.Step, ActionOf, MS.ModelOk, AccountingError, SlotsOk, Local, AbsChallenge;
    hide M.CreateStep;
    var reply := Execute(r, s, env, call);
    if reply.Reverted? {
      NotMisaccounted(r, s, env, call);
      if call.CreateAndFund? {
        StepIsCreate(r, s, env, call, m);
        InvSlots(r, s);
        CreateBeyond(r, s, env, call, m);
      } else if call.SetPaused? {
        PauseCommits(r, s, env, call, m);
      } else {
        StepNeedsChallenge(r, s, env, call, m);
        InvLocal(r, s, call.challengeId);
        assert Shadow(r, s, m, call.challengeId);
        ExistingBeyond(r, s, env, call, m);
      }
    }
  }

  lemma InvSlots(r: Release, s: State)
    requires Inv(r, s)
    ensures SlotsOk(r, s)
  {
  }

  lemma NotMisaccounted(r: Release, s: State, env: Env, call: Call)
    requires Inv(r, s) && Small(s) && Execute(r, s, env, call).Reverted?
    ensures !AccountingError(Execute(r, s, env, call).error)
  {
    hide Inv, Execute, AccountingError;
    if AccountingError(Execute(r, s, env, call).error) {
      NoAccountingErrors(r, s, env, call);
    }
  }

  lemma StepIsCreate(r: Release, s: State, env: Env, call: Call, m: M.Model)
    requires call.CreateAndFund?
    ensures M.Step(RolesOf(r), m, ActionOf(r, s, env, call)) == M.CreateStep(RolesOf(r), m, ActionOf(r, s, env, call))
  {
    hide Execute;
  }

  lemma PauseCommits(r: Release, s: State, env: Env, call: Call, m: M.Model)
    requires call.SetPaused? && Refines(s, m) && M.Step(RolesOf(r), m, ActionOf(r, s, env, call)).Stepped?
    ensures Execute(r, s, env, call).Committed?
  {
  }

  lemma StepNeedsChallenge(r: Release, s: State, env: Env, call: Call, m: M.Model)
    requires OnExisting(call) && Refines(s, m) && M.Step(RolesOf(r), m, ActionOf(r, s, env, call)).Stepped?
    ensures call.challengeId in s.challenges
  {
    hide AbsRecord;
  }

  lemma ExistingBeyond(r: Release, s: State, env: Env, call: Call, m: M.Model)
    requires OnExisting(call) && Shadow(r, s, m, call.challengeId) && env.sender != ZERO_ADDRESS
    requires M.Step(RolesOf(r), m, ActionOf(r, s, env, call)).Stepped? && Execute(r, s, env, call).Reverted?
    requires !AccountingError(Execute(r, s, env, call).error)
    ensures BeyondModel(call, Execute(r, s, env, call).error)
  {
    hide Execute, BeyondModel, Shadow, AccountingError, M.PullStep, M.AcceptStep, M.ProposeStep, M.DisputeStep;
    hide PermitValid, M.EndStep;
    if call.Accept? {
      FundBeyond(r, s, env, call, m);
    } else if call.ClaimWinnings? || call.RefundPrincipal? {
      PayBeyond(r, s, env, call, m);
    } else if call.AdvanceAcceptanceNonce? || call.CancelOpen? || call.ExpireOpen? {
      OpenCommits(r, s, env, call, m);
    } else if call.Propose? {
      ProposeBeyond(r, s, env, call, m);
    } else if call.DisputeOutcome? {
      DisputeBeyond(r, s, env, call, m);
    } else if call.Arbitrate? {
      ArbitrateBeyond(r, s, env, call, m);
    } else {
      DeadlineCallCommits(r, s, env, call, m);
    }
  }
}
