/** Who moved a challenge: over whole runs, nothing is accepted, proposed or decided without the wallet or role the
    protocol names, and a pause stops money from coming in. */
module Authorization {
  import opened Wrappers
  import opened ProtocolTypes
  import opened Kernel
  import opened KernelInvariant
  import opened Conservation

  /** A call of a run that committed. */
  ghost predicate CommittedAt(r: Release, s: State, ms: seq<Stimulus>, i: nat) {
    i < |ms| && ms[i].Transaction? && Execute(r, Run(r, s, ms[..i]), ms[i].env, ms[i].call).Committed?
  }

  lemma EarlierCommits(r: Release, s: State, ms: seq<Stimulus>, i: nat)
    requires ms != [] && CommittedAt(r, s, ms[..|ms| - 1], i)
    ensures CommittedAt(r, s, ms, i) && ms[..|ms| - 1][..i] == ms[..i]
  {
    hide Execute, Run;
    assert ms[..|ms| - 1][..i] == ms[..i];
  }

  // ---------- Acceptance ----------

  /** The challenger signed this permit for the caller, for these terms, this nonce and a time not yet over. */
  predicate Permitted(r: Release, t: Terms, env: Env, p: Permit, signature: Signature) {
    && env.sender == p.acceptingWallet && p.specHash == t.specHash
    && env.now < p.expiresAt <= t.acceptanceDeadline
    && r.crypto.recover(p, signature) == Some(t.challengerWallet)
  }

  predicate Accepts(r: Release, c: Challenge, id: Bytes32, env: Env, call: Call) {
    && call.Accept? && call.challengeId == call.permit.challengeId == id
    && Permitted(r, c.terms, env, call.permit, call.signature)
    && env.sender == c.acceptingWallet && env.now == c.acceptedAt
    && call.permit.acceptanceNonce == c.acceptanceNonce
  }

  predicate SameAcceptance(c: Challenge, c': Challenge) {
    && c.terms == c'.terms && c.acceptingWallet == c'.acceptingWallet && c.acceptedAt == c'.acceptedAt
    && c.acceptanceNonce == c'.acceptanceNonce
  }

  lemma EarlyAcceptanceStep(r: Release, s: State, env: Env, call: Call, id: Bytes32)
    requires EarlyCall(call) && Execute(r, s, env, call).Committed?
    requires id in s.challenges ==> SlotOk(r, s, id)
    requires id in Execute(r, s, env, call).state.challenges
    requires Execute(r, s, env, call).state.challenges[id].acceptingWallet != ZERO_ADDRESS
    ensures var c' := Execute(r, s, env, call).state.challenges[id];
            (id in s.challenges && SameAcceptance(s.challenges[id], c'))
            || (!s.paused && Accepts(r, c', id, env, call))
  {
    hide MoneyOk, HistoryOk, FinalOk, TermsOk;
  }

  lemma LateAcceptanceStep(r: Release, s: State, env: Env, call: Call, id: Bytes32)
    requires !EarlyCall(call) && Execute(r, s, env, call).Committed?
    requires id in Execute(r, s, env, call).state.challenges
    ensures id in s.challenges && SameAcceptance(s.challenges[id], Execute(r, s, env, call).state.challenges[id])
  {
    hide ConsumeAndPay;
    match call
    case ClaimWinnings(other) =>
      ConsumeKeepsRecord(s, env, other, env.sender, ChallengeAt(s, other).terms.stakeAmount * 2, id);
    case RefundPrincipal(other) =>
      ConsumeKeepsRecord(s, env, other, env.sender, ChallengeAt(s, other).terms.stakeAmount, id);
    case _ =>
  }

  lemma ConsumeKeepsRecord(s: State, env: Env, id: Bytes32, wallet: Address, amount: nat, other: Bytes32)
    requires ConsumeAndPay(s, env, id, wallet, amount).Ok? && ChallengeAt(s, id).present
    ensures var s' := ConsumeAndPay(s, env, id, wallet, amount).value;
            && s'.challenges.Keys == s.challenges.Keys
            && (other in s.challenges ==>
                  s'.challenges[other]
                  == s.challenges[other].(outstandingLiability := s'.challenges[other].outstandingLiability))
  {
  }

  lemma AcceptanceStep(r: Release, s: State, env: Env, call: Call, id: Bytes32)
    requires Inv(r, s) && Execute(r, s, env, call).Committed?
    requires id in Execute(r, s, env, call).state.challenges
    requires Execute(r, s, env, call).state.challenges[id].acceptingWallet != ZERO_ADDRESS
    ensures var c' := Execute(r, s, env, call).state.challenges[id];
            (id in s.challenges && SameAcceptance(s.challenges[id], c'))
            || (!s.paused && Accepts(r, c', id, env, call))
  {
    hide Execute, SlotOk, Accepts, SameAcceptance;
    if EarlyCall(call) {
      EarlyAcceptanceStep(r, s, env, call, id);
    } else {
      LateAcceptanceStep(r, s, env, call, id);
    }
  }

  ghost predicate AcceptedAt(r: Release, s: State, ms: seq<Stimulus>, i: nat, id: Bytes32, c: Challenge) {
    CommittedAt(r, s, ms, i) && Accepts(r, c, id, ms[i].env, ms[i].call) && !Run(r, s, ms[..i]).paused
  }

  /** Whoever stands as acceptor called for it, while not paused, under a permit the challenger signed for that wallet
      with the nonce the challenge still has. */
  lemma {:induction false} AcceptorWasPermitted(r: Release, s: State, ms: seq<Stimulus>, id: Bytes32)
    requires Inv(r, s) && s.challenges == map[] && LegalRun(r, s, ms)
    requires id in Run(r, s, ms).challenges && Run(r, s, ms).challenges[id].acceptingWallet != ZERO_ADDRESS
    ensures exists i: nat :: AcceptedAt(r, s, ms, i, id, Run(r, s, ms).challenges[id])
  {
    hide Execute, Inv, Accepts, LegalStimulus;
    assert ms != [];
    var before, m := ms[..|ms| - 1], ms[|ms| - 1];
    var mid, c' := Run(r, s, before), Run(r, s, ms).challenges[id];
    RunKeepsInv(r, s, before);
    if m.Transaction? && Execute(r, mid, m.env, m.call).Committed? {
      AcceptanceStep(r, mid, m.env, m.call, id);
    }
    if id in mid.challenges && SameAcceptance(mid.challenges[id], c') {
      AcceptorWasPermitted(r, s, before, id);
      var i: nat :| AcceptedAt(r, s, before, i, id, mid.challenges[id]);
      EarlierCommits(r, s, ms, i);
      SameAccepted(r, mid.challenges[id], c', id, ms[i].env, ms[i].call);
      assert AcceptedAt(r, s, ms, i, id, c');
    } else {
      assert AcceptedAt(r, s, ms, |ms| - 1, id, c');
    }
  }

  lemma SameAccepted(r: Release, c: Challenge, c': Challenge, id: Bytes32, env: Env, call: Call)
    requires SameAcceptance(c, c') && Accepts(r, c, id, env, call)
    ensures Accepts(r, c', id, env, call)
  {
  }

  // ---------- Revocation ----------

  lemma NonceStep(r: Release, s: State, env: Env, call: Call, id: Bytes32)
    requires Execute(r, s, env, call).Committed? && id in s.challenges && s.challenges[id].present
    ensures var s' := Execute(r, s, env, call).state;
            id in s'.challenges && s.challenges[id].acceptanceNonce <= s'.challenges[id].acceptanceNonce
  {
    if EarlyCall(call) {
      hide ValidateReason, ValidateExecution, CheckPermit;
    } else {
      hide Execute;
      CommitSucceeds(r, s, env, call, id);
      LateAcceptanceStep(r, s, env, call, id);
    }
  }

  lemma {:induction false} NonceNeverFalls(r: Release, s: State, ms: seq<Stimulus>, id: Bytes32)
    requires Inv(r, s) && LegalRun(r, s, ms) && id in s.challenges
    ensures id in Run(r, s, ms).challenges
    ensures s.challenges[id].acceptanceNonce <= Run(r, s, ms).challenges[id].acceptanceNonce
  {
    hide Execute, SlotOk, LegalStimulus;
    if ms != [] {
      var before, m := ms[..|ms| - 1], ms[|ms| - 1];
      NonceNeverFalls(r, s, before, id);
      RunKeepsInv(r, s, before);
      var mid := Run(r, s, before);
      SlotIsPresent(r, mid, id);
      if m.Transaction? && Execute(r, mid, m.env, m.call).Committed? {
        NonceStep(r, mid, m.env, m.call, id);
      }
    }
  }

  lemma SlotIsPresent(r: Release, s: State, id: Bytes32)
    requires id in s.challenges && SlotsOk(r, s)
    ensures s.challenges[id].present
  {
    hide TermsOk, MoneyOk, HistoryOk, FinalOk;
    assert SlotOk(r, s, id);
  }

  /** A permit whose nonce has been passed is refused for good, whatever happens in between. */
  lemma RevokedPermitsStayRevoked(r: Release, s: State, ms: seq<Stimulus>, id: Bytes32, env: Env, p: Permit,
                                  signature: Signature)
    requires Inv(r, s) && LegalRun(r, s, ms) && id in s.challenges
    requires p.acceptanceNonce < s.challenges[id].acceptanceNonce
    ensures Execute(r, Run(r, s, ms), env, Accept(id, p, signature)).Reverted?
  {
    hide Run, LegalRun, Inv;
    NonceNeverFalls(r, s, ms, id);
  }

  // ---------- Pause ----------

  /** No pauser's call to the pause switch. */
  predicate PauserIsSilent(r: Release, ms: seq<Stimulus>) {
    forall m :: m in ms && m.Transaction? && m.call.SetPaused? ==> m.env.sender != r.pauser
  }

  lemma PausedStep(r: Release, s: State, env: Env, call: Call)
    requires s.paused && Execute(r, s, env, call).Committed?
    requires call.SetPaused? ==> env.sender != r.pauser
    ensures var Committed(s', e) := Execute(r, s, env, call);
            s'.paused && Inflow(e) == 0 && s'.challenges.Keys == s.challenges.Keys
  {
    hide ConsumeAndPay, ValidateExecution, CheckPermit, ValidateReason;
    match call
    case ClaimWinnings(id) =>
      ConsumeKeepsRecord(s, env, id, env.sender, ChallengeAt(s, id).terms.stakeAmount * 2, id);
      ConsumeKeepsPause(s, env, id, env.sender, ChallengeAt(s, id).terms.stakeAmount * 2);
    case RefundPrincipal(id) =>
      ConsumeKeepsRecord(s, env, id, env.sender, ChallengeAt(s, id).terms.stakeAmount, id);
      ConsumeKeepsPause(s, env, id, env.sender, ChallengeAt(s, id).terms.stakeAmount);
    case _ =>
  }

  lemma ConsumeKeepsPause(s: State, env: Env, id: Bytes32, wallet: Address, amount: nat)
    requires ConsumeAndPay(s, env, id, wallet, amount).Ok?
    ensures ConsumeAndPay(s, env, id, wallet, amount).value.paused == s.paused
  {
  }

  /** A pause that the pauser does not lift holds: no challenge is created and no stake is taken in. */
  lemma {:induction false} PauseTakesNothingIn(r: Release, s: State, ms: seq<Stimulus>)
    requires s.paused && PauserIsSilent(r, ms)
    ensures Run(r, s, ms).paused && Inflows(Trace(r, s, ms)) == 0
    ensures Run(r, s, ms).challenges.Keys == s.challenges.Keys
  {
    hide Execute;
    if ms != [] {
      var before, m := ms[..|ms| - 1], ms[|ms| - 1];
      assert forall x :: x in before ==> x in ms;
      assert m in ms;
      PauseTakesNothingIn(r, s, before);
      RunEndsWith(r, s, ms);
      var mid := Run(r, s, before);
      if m.Transaction? && Execute(r, mid, m.env, m.call).Committed? {
        PausedStep(r, mid, m.env, m.call);
        AppendOne(Trace(r, s, before), Execute(r, mid, m.env, m.call).event);
      }
    }
  }

  // ---------- Proposal, dispute and decision ----------

  /** A call whose event is e makes this proposal. */
  predicate Proposes(r: Release, p: Proposal, id: Bytes32, env: Env, call: Call, e: Event) {
    var code := CodeOf(p.outcome, p.abReason, p.evidenceVoidReason);
    && env.sender == r.resolver && env.now == p.proposedAt
    && call == Call.Propose(id, p.outcome, code, p.evidenceHash)
    && e == OutcomeProposed(id, env.sender, p.outcome, code, p.evidenceHash, p.disputeDeadline)
  }

  predicate Disputes(d: Dispute, id: Bytes32, env: Env, call: Call, e: Event) {
    var code := CodeOf(d.outcome, d.abReason, d.evidenceVoidReason);
    && env.sender == d.disputingWallet && env.now == d.disputedAt
    && call == Call.DisputeOutcome(id, d.outcome, code, d.evidenceHash, d.parentEvidenceHash)
    && e == OutcomeDisputed(id, env.sender, d.outcome, code, d.evidenceHash, d.parentEvidenceHash, d.arbitrationStart,
                            d.arbitrationDeadline)
  }

  predicate Decides(r: Release, f: FinalResolution, id: Bytes32, env: Env, call: Call, e: Event) {
    var code := CodeOf(f.outcome, f.abReason, f.evidenceVoidReason);
    && env.sender == r.arbiter == f.finalizedBy
    && call == Call.Arbitrate(id, f.outcome, code, f.finalEvidenceHash, f.parentEvidenceHash)
    && Announces(f, id, code, e)
  }

  /** The event that announces a final record. */
  predicate Announces(f: FinalResolution, id: Bytes32, code: nat, e: Event) {
    if f.outcome == OutcomeVoid then
      && e.ChallengeVoided? && (e.challengeId, e.materializedBy, e.voidReason, e.voidPath)
                               == (id, f.finalizedBy, code, f.voidPath)
      && (e.finalEvidenceHash, e.parentEvidenceHash) == (f.finalEvidenceHash, f.parentEvidenceHash)
    else
      && e.ChallengeResolved? && (e.challengeId, e.finalizedBy, e.finalOutcome, e.reasonCode, e.resolutionPath)
                                 == (id, f.finalizedBy, f.outcome, code, f.resolutionPath)
      && (e.finalEvidenceHash, e.parentEvidenceHash) == (f.finalEvidenceHash, f.parentEvidenceHash)
  }

  /** The call of the path that a final record names, by the wallet it names, announced as the record stands. */
  predicate Ends(f: FinalResolution, id: Bytes32, env: Env, call: Call, e: Event) {
    && env.sender == f.finalizedBy
    && Announces(f, id, if TimedOut(f) then f.timeoutVoidReason else CodeOf(f.outcome, f.abReason, f.evidenceVoidReason), e)
    && if ByArbiter(f) then call.Arbitrate? && call.challengeId == id
       else if !TimedOut(f) then call == FinalizeUncontested(id)
       else if f.voidPath == ProposalTimeoutVoid then call == VoidUnproposed(id)
       else call == VoidUnarbitrated(id)
  }

  predicate ByArbiter(f: FinalResolution) {
    if f.outcome == OutcomeVoid then f.voidPath == ArbiterVoid else f.resolutionPath == ArbiterResolution
  }

  predicate TimedOut(f: FinalResolution) {
    f.outcome == OutcomeVoid && f.voidPath in {ProposalTimeoutVoid, ArbitrationTimeoutVoid}
  }

  /** No record of a challenge is new, or the call that made it was by a wallet that may. */
  predicate RecordsMadeBy(r: Release, s: State, c': Challenge, id: Bytes32, env: Env, call: Call, e: Event) {
    var c := ChallengeAt(s, id);
    && (c'.proposal.present ==> c.proposal == c'.proposal || (!s.paused && Proposes(r, c'.proposal, id, env, call, e)))
    && (c'.dispute.present ==> c.dispute == c'.dispute || Disputes(c'.dispute, id, env, call, e))
    && (c'.finalResolution.present && ByArbiter(c'.finalResolution) ==>
          c.finalResolution == c'.finalResolution || Decides(r, c'.finalResolution, id, env, call, e))
    && (c'.finalResolution.present ==>
          c.finalResolution == c'.finalResolution || Ends(c'.finalResolution, id, env, call, e))
  }

  lemma EarlyRecordStep(r: Release, s: State, env: Env, call: Call, id: Bytes32)
    requires EarlyCall(call) && Execute(r, s, env, call).Committed?
    requires id in Execute(r, s, env, call).state.challenges
    ensures var reply := Execute(r, s, env, call);
            RecordsMadeBy(r, s, reply.state.challenges[id], id, env, call, reply.event)
  {
    hide ValidateExecution, CheckPermit;
  }

  lemma PullRecordStep(r: Release, s: State, env: Env, call: Call, id: Bytes32)
    requires (call.ClaimWinnings? || call.RefundPrincipal?) && Execute(r, s, env, call).Committed?
    requires id in Execute(r, s, env, call).state.challenges
    ensures var reply := Execute(r, s, env, call);
            RecordsMadeBy(r, s, reply.state.challenges[id], id, env, call, reply.event)
  {
    hide ConsumeAndPay, Ends, Decides, Disputes, Proposes, ByArbiter;
    var c := ChallengeAt(s, call.challengeId);
    ConsumeKeepsRecord(s, env, call.challengeId, env.sender,
                       if call.ClaimWinnings? then c.terms.stakeAmount * 2 else c.terms.stakeAmount, id);
  }

  lemma DeadlineRecordStep(r: Release, s: State, env: Env, call: Call, id: Bytes32)
    requires call.FinalizeUncontested? || call.VoidUnproposed? || call.VoidUnarbitrated?
    requires Execute(r, s, env, call).Committed? && id in Execute(r, s, env, call).state.challenges
    ensures var reply := Execute(r, s, env, call);
            RecordsMadeBy(r, s, reply.state.challenges[id], id, env, call, reply.event)
  {
    hide Decides, Disputes, Proposes;
  }

  lemma ArbitrationRecordStep(r: Release, s: State, env: Env, call: Call, id: Bytes32)
    requires call.Arbitrate? && Execute(r, s, env, call).Committed?
    requires id in Execute(r, s, env, call).state.challenges
    ensures var reply := Execute(r, s, env, call);
            RecordsMadeBy(r, s, reply.state.challenges[id], id, env, call, reply.event)
  {
    hide Disputes, Proposes;
  }

  lemma RecordStep(r: Release, s: State, env: Env, call: Call, id: Bytes32)
    requires Execute(r, s, env, call).Committed? && id in Execute(r, s, env, call).state.challenges
    ensures var reply := Execute(r, s, env, call);
            RecordsMadeBy(r, s, reply.state.challenges[id], id, env, call, reply.event)
  {
    hide Execute, RecordsMadeBy;
    if EarlyCall(call) {
      EarlyRecordStep(r, s, env, call, id);
    } else {
      match call
      case ClaimWinnings(_) => PullRecordStep(r, s, env, call, id);
      case RefundPrincipal(_) => PullRecordStep(r, s, env, call, id);
      case Arbitrate(_, _, _, _, _) => ArbitrationRecordStep(r, s, env, call, id);
      case _ => DeadlineRecordStep(r, s, env, call, id);
    }
  }

  /** The event of a committed call of a run. */
  ghost function EventAt(r: Release, s: State, ms: seq<Stimulus>, i: nat): Event
    requires CommittedAt(r, s, ms, i)
  {
    Execute(r, Run(r, s, ms[..i]), ms[i].env, ms[i].call).event
  }

  ghost predicate ProposedAt(r: Release, s: State, ms: seq<Stimulus>, i: nat, id: Bytes32, p: Proposal) {
    && CommittedAt(r, s, ms, i) && Proposes(r, p, id, ms[i].env, ms[i].call, EventAt(r, s, ms, i))
    && !Run(r, s, ms[..i]).paused
  }

  ghost predicate DisputedAt(r: Release, s: State, ms: seq<Stimulus>, i: nat, id: Bytes32, d: Dispute) {
    CommittedAt(r, s, ms, i) && Disputes(d, id, ms[i].env, ms[i].call, EventAt(r, s, ms, i))
  }

  ghost predicate DecidedAt(r: Release, s: State, ms: seq<Stimulus>, i: nat, id: Bytes32, f: FinalResolution) {
    CommittedAt(r, s, ms, i) && Decides(r, f, id, ms[i].env, ms[i].call, EventAt(r, s, ms, i))
  }

  /** Every proposal on record was made by the resolver, while not paused. */
  lemma {:induction false} ProposalHasAuthor(r: Release, s: State, ms: seq<Stimulus>, id: Bytes32)
    requires s.challenges == map[]
    requires id in Run(r, s, ms).challenges && Run(r, s, ms).challenges[id].proposal.present
    ensures exists i: nat :: ProposedAt(r, s, ms, i, id, Run(r, s, ms).challenges[id].proposal)
  {
    hide Execute, Proposes;
    assert ms != [];
    var before, m := ms[..|ms| - 1], ms[|ms| - 1];
    var mid, p := Run(r, s, before), Run(r, s, ms).challenges[id].proposal;
    if m.Transaction? && Execute(r, mid, m.env, m.call).Committed? {
      RecordStep(r, mid, m.env, m.call, id);
    }
    if ChallengeAt(mid, id).proposal == p {
      ProposalHasAuthor(r, s, before, id);
      var i: nat :| ProposedAt(r, s, before, i, id, p);
      EarlierCommits(r, s, ms, i);
      assert ProposedAt(r, s, ms, i, id, p);
    } else {
      assert ProposedAt(r, s, ms, |ms| - 1, id, p);
    }
  }

  /** Every dispute on record was made by the participant it names, at the time it names, and announced as it stands. */
  lemma {:induction false} DisputeHasAuthor(r: Release, s: State, ms: seq<Stimulus>, id: Bytes32)
    requires s.challenges == map[]
    requires id in Run(r, s, ms).challenges && Run(r, s, ms).challenges[id].dispute.present
    ensures exists i: nat :: DisputedAt(r, s, ms, i, id, Run(r, s, ms).challenges[id].dispute)
  {
    hide Execute, Disputes;
    assert ms != [];
    var before, m := ms[..|ms| - 1], ms[|ms| - 1];
    var mid, d := Run(r, s, before), Run(r, s, ms).challenges[id].dispute;
    if m.Transaction? && Execute(r, mid, m.env, m.call).Committed? {
      RecordStep(r, mid, m.env, m.call, id);
    }
    if ChallengeAt(mid, id).dispute == d {
      DisputeHasAuthor(r, s, before, id);
      var i: nat :| DisputedAt(r, s, before, i, id, d);
      EarlierCommits(r, s, ms, i);
      assert DisputedAt(r, s, ms, i, id, d);
    } else {
      assert DisputedAt(r, s, ms, |ms| - 1, id, d);
    }
  }

  lemma {:induction false} ArbitrationHasAuthor(r: Release, s: State, ms: seq<Stimulus>, id: Bytes32)
    requires s.challenges == map[] && id in Run(r, s, ms).challenges
    requires var f := Run(r, s, ms).challenges[id].finalResolution; f.present && ByArbiter(f)
    ensures exists i: nat :: DecidedAt(r, s, ms, i, id, Run(r, s, ms).challenges[id].finalResolution)
  {
    hide Execute, Decides, ByArbiter;
    assert ms != [];
    var before, m := ms[..|ms| - 1], ms[|ms| - 1];
    var mid, f := Run(r, s, before), Run(r, s, ms).challenges[id].finalResolution;
    if m.Transaction? && Execute(r, mid, m.env, m.call).Committed? {
      RecordStep(r, mid, m.env, m.call, id);
    }
    if ChallengeAt(mid, id).finalResolution == f {
      ArbitrationHasAuthor(r, s, before, id);
      var i: nat :| DecidedAt(r, s, before, i, id, f);
      EarlierCommits(r, s, ms, i);
      assert DecidedAt(r, s, ms, i, id, f);
    } else {
      assert DecidedAt(r, s, ms, |ms| - 1, id, f);
    }
  }

  ghost predicate EndedAt(r: Release, s: State, ms: seq<Stimulus>, i: nat, id: Bytes32, f: FinalResolution) {
    CommittedAt(r, s, ms, i) && Ends(f, id, ms[i].env, ms[i].call, EventAt(r, s, ms, i))
  }

  /** Every final record was made by the wallet it names, through the call of its path, and announced as it stands. */
  lemma {:induction false} EndingHasAuthor(r: Release, s: State, ms: seq<Stimulus>, id: Bytes32)
    requires s.challenges == map[]
    requires id in Run(r, s, ms).challenges && Run(r, s, ms).challenges[id].finalResolution.present
    ensures exists i: nat :: EndedAt(r, s, ms, i, id, Run(r, s, ms).challenges[id].finalResolution)
  {
    hide Execute, Ends;
    assert ms != [];
    var before, m := ms[..|ms| - 1], ms[|ms| - 1];
    var mid, f := Run(r, s, before), Run(r, s, ms).challenges[id].finalResolution;
    if m.Transaction? && Execute(r, mid, m.env, m.call).Committed? {
      RecordStep(r, mid, m.env, m.call, id);
    }
    if ChallengeAt(mid, id).finalResolution == f {
      EndingHasAuthor(r, s, before, id);
      var i: nat :| EndedAt(r, s, before, i, id, f);
      EarlierCommits(r, s, ms, i);
      assert EndedAt(r, s, ms, i, id, f);
    } else {
      assert EndedAt(r, s, ms, |ms| - 1, id, f);
    }
  }

  // ---------- Creation ----------

  /** The challenger's own call, at the time of opening, with the terms on record. */
  predicate Creates(r: Release, c: Challenge, id: Bytes32, env: Env, call: Call, e: Event) {
    && call.CreateAndFund? && env.sender == c.terms.challengerWallet && env.now == c.openedAt
    && SaysSo(call.execution, c.terms) && call.termsHash == c.terms.termsHash
    && call.suppliedSpecHash == c.terms.specHash && r.crypto.challengeId(c.terms.specHash) == id
    && e == ChallengeCreated(id, c.terms, 0)
  }

  /** The terms an execution asks for. */
  predicate SaysSo(x: Execution, t: Terms) {
    && (x.nonce, x.challengerWallet, x.challengerSide, x.stakeAmount, x.createdAt)
       == (t.instanceNonce, t.challengerWallet, t.challengerSide, t.stakeAmount, t.createdAt)
    && (x.acceptanceDeadline, x.observationTime, x.sourceCorrectionCutoff, x.proposalDeadline)
       == (t.acceptanceDeadline, t.observationTime, t.sourceCorrectionCutoff, t.proposalDeadline)
    && (x.disputeWindowSeconds, x.arbitrationWindowSeconds, x.timeoutVoidAt)
       == (t.disputeWindowSeconds, t.arbitrationWindowSeconds, t.timeoutVoidAt)
  }

  ghost predicate CreatedAt(r: Release, s: State, ms: seq<Stimulus>, i: nat, id: Bytes32, c: Challenge) {
    && CommittedAt(r, s, ms, i) && Creates(r, c, id, ms[i].env, ms[i].call, EventAt(r, s, ms, i))
    && !Run(r, s, ms[..i]).paused
  }

  lemma CreationStep(r: Release, s: State, env: Env, call: Call, id: Bytes32)
    requires Execute(r, s, env, call).Committed? && id in Execute(r, s, env, call).state.challenges && id !in s.challenges
    requires call.CreateAndFund? || call.challengeId in s.challenges || call.SetPaused?
    ensures Creates(r, Execute(r, s, env, call).state.challenges[id], id, env, call, Execute(r, s, env, call).event)
    ensures !s.paused
  {
    hide ConsumeAndPay, CheckPermit, ValidateReason;
    if call.ClaimWinnings? || call.RefundPrincipal? {
      LateAcceptanceStep(r, s, env, call, id);
    }
  }

  lemma TermsStayThere(r: Release, s: State, env: Env, call: Call, id: Bytes32)
    requires Inv(r, s) && id in s.challenges && Execute(r, s, env, call).Committed?
    ensures var s' := Execute(r, s, env, call).state;
            && id in s'.challenges
            && s'.challenges[id].terms == s.challenges[id].terms && s'.challenges[id].openedAt == s.challenges[id].openedAt
  {
    hide Execute, SlotOk;
    SlotIsPresent(r, s, id);
    CommitSucceeds(r, s, env, call, id);
    SucceedsAlike(s.challenges[id], Execute(r, s, env, call).state.challenges[id]);
  }

  lemma SucceedsAlike(c: Challenge, c': Challenge)
    requires SucceedingRecord(c, c')
    ensures c'.terms == c.terms && c'.openedAt == c.openedAt
  {
  }

  /** Every challenge was created by its challenger, while not paused, at the time it names and with the terms it has. */
  lemma {:induction false} CreationHasAuthor(r: Release, s: State, ms: seq<Stimulus>, id: Bytes32)
    requires Inv(r, s) && s.challenges == map[] && LegalRun(r, s, ms) && id in Run(r, s, ms).challenges
    ensures exists i: nat :: CreatedAt(r, s, ms, i, id, Run(r, s, ms).challenges[id])
  {
    hide Execute, Inv, Creates, LegalStimulus;
    assert ms != [];
    var before, m := ms[..|ms| - 1], ms[|ms| - 1];
    var mid, c := Run(r, s, before), Run(r, s, ms).challenges[id];
    RunKeepsInv(r, s, before);
    if id in mid.challenges {
      CreationHasAuthor(r, s, before, id);
      var i: nat :| CreatedAt(r, s, before, i, id, mid.challenges[id]);
      EarlierCommits(r, s, ms, i);
      if m.Transaction? && Execute(r, mid, m.env, m.call).Committed? {
        TermsStayThere(r, mid, m.env, m.call, id);
      }
      SameCreation(r, mid.challenges[id], c, id, ms[i].env, ms[i].call, EventAt(r, s, ms, i));
      assert CreatedAt(r, s, ms, i, id, c);
    } else {
      if OnExisting(m.call) {
        CommitNeedsChallenge(r, mid, m.env, m.call);
      }
      CreationStep(r, mid, m.env, m.call, id);
      assert CreatedAt(r, s, ms, |ms| - 1, id, c);
    }
  }

  lemma SameCreation(r: Release, c: Challenge, c': Challenge, id: Bytes32, env: Env, call: Call, e: Event)
    requires Creates(r, c, id, env, call, e) && c'.terms == c.terms && c'.openedAt == c.openedAt
    ensures Creates(r, c', id, env, call, e)
  {
  }

  /** What a final record takes over from a proposal. */
  predicate Adopts(f: FinalResolution, p: Proposal) {
    (f.outcome, f.abReason, f.evidenceVoidReason, f.finalEvidenceHash)
    == (p.outcome, p.abReason, p.evidenceVoidReason, p.evidenceHash)
  }

  lemma UndisputedAdopts(r: Release, s: State, id: Bytes32)
    requires id in s.challenges && SlotOk(r, s, id)
    requires var f := s.challenges[id].finalResolution; f.present && !ByArbiter(f) && !TimedOut(f)
    ensures var c := s.challenges[id]; c.proposal.present && !c.dispute.present && Adopts(c.finalResolution, c.proposal)
  {
    hide MoneyOk, TermsOk, AcceptanceOk;
  }

  /** A challenge that did not time out was decided by an authority: by the resolver, whose undisputed proposal the
      final record adopts, or by the arbiter, whose call it repeats. */
  lemma DecisionHasAuthor(r: Release, s: State, ms: seq<Stimulus>, id: Bytes32)
    requires Inv(r, s) && s.challenges == map[] && LegalRun(r, s, ms)
    requires id in Run(r, s, ms).challenges
    requires var f := Run(r, s, ms).challenges[id].finalResolution; f.present && !TimedOut(f)
    ensures var c := Run(r, s, ms).challenges[id];
            || (!c.dispute.present && Adopts(c.finalResolution, c.proposal)
                && exists i: nat :: ProposedAt(r, s, ms, i, id, c.proposal))
            || exists i: nat :: DecidedAt(r, s, ms, i, id, c.finalResolution)
  {
    hide Run, SlotOk, ByArbiter, TimedOut, Adopts, LegalRun, ProposedAt, DecidedAt;
    RunKeepsInv(r, s, ms);
    if ByArbiter(Run(r, s, ms).challenges[id].finalResolution) {
      ArbitrationHasAuthor(r, s, ms, id);
    } else {
      UndisputedAdopts(r, Run(r, s, ms), id);
      ProposalHasAuthor(r, s, ms, id);
    }
  }
}
