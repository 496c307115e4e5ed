/** The abstract model as the object it is: every action writes the fields in place and then the invariants are
    checked, with the outcome proved to be the one ModelSteps gives. */
module ChallengeModel {
  import opened Wrappers
  import opened JsNumber
  import opened ProtocolTypes
  import opened ModelSteps

  /** What an action threw: a rejection, or a TypeError. */
  datatype Fault = Rejection(code: ModelSteps.Rejection) | Absent

  ghost predicate Reflects(result: StepResult, before: Model, after: Model, fault: Option<Fault>) {
    match result
    case Stepped(m) => fault == None && after == m
    case Rejected(code) => fault == Some(Rejection(code)) && after == before
    case Crashed(m) => fault == Some(Absent) && after == m
  }

  class ChallengeModel {
    const resolver: Address
    const arbiter: Address
    const pauser: Address
    /** Money is counted in units of 2^-fractionBits. */
    const fractionBits: nat
    var paused: bool
    var totalOutstandingLiability: nat
    var challenges: map<Bytes32, ModelChallenge>
    var order: seq<Bytes32>
    var usedNonces: set<(Address, Bytes32)>

    constructor (resolver: Address, arbiter: Address, pauser: Address, fractionBits: nat)
      ensures Parties() == Roles(resolver, arbiter, pauser, fractionBits) && Value() == FRESH
    {
      this.resolver := resolver;
      this.arbiter := arbiter;
      this.pauser := pauser;
      this.fractionBits := fractionBits;
      paused := false;
      totalOutstandingLiability := 0;
      challenges := map[];
      order := [];
      usedNonces := {};
    }

    ghost function Parties(): Roles {
      Roles(resolver, arbiter, pauser, fractionBits)
    }

    function Value(): Model
      reads this
    {
      Model(paused, totalOutstandingLiability, challenges, order, usedNonces)
    }

    /** One action with its invariant check; a rejection leaves every field as it was. */
    method Apply(a: Action) returns (outcome: Applied)
      modifies this
      ensures (outcome, Value()) == ModelSteps.Apply(Parties(), old(Value()), a)
      ensures outcome.Refused? ==> Value() == old(Value())
    {
      var before := Value();
      var fault := Perform(a);
      if fault == None {
        var violation := AssertInvariants();
        if violation == None { return Accepted; }
        if !SameSnapshot(before, Value()) { return Threw(AtomicityFailure); }
        return Threw(InvariantViolated(violation.value));
      }
      if !SameSnapshot(before, Value()) { return Threw(AtomicityFailure); }
      match fault.value
      case Rejection(code) => return Refused(code);
      case Absent => return Threw(TypeError);
    }

    method AssertInvariants() returns (v: Option<Violation>)
      ensures v == Violated(Value())
    {
      var aggregate := 0;
      for i := 0 to |order|
        invariant FirstViolation(Value(), order[..i]) == None
        invariant aggregate == Aggregate(Value(), order[..i])
      {
        assert order[..i + 1][..i] == order[..i];
        if order[i] in challenges {
          v := ChallengeViolation(challenges[order[i]]);
          if v.Some? {
            StaysViolated(Value(), order, i + 1);
            return;
          }
          aggregate := Plus(aggregate, challenges[order[i]].outstanding);
        } else {
          aggregate := Plus(aggregate, 0);
        }
      }
      assert order[..|order|] == order;
      if aggregate != totalOutstandingLiability { return Some(TotalLiability); }
      return None;
    }

    method Perform(a: Action) returns (fault: Option<Fault>)
      modifies this
      ensures Reflects(Step(Parties(), old(Value()), a), old(Value()), Value(), fault)
    {
      hide PauseStep, CreateStep, OpenStep, AcceptStep, ProposeStep, DisputeStep, EndStep, PullStep;
      match a
      case Warp => return None;
      case Unknown => return Some(Rejection(UnknownAction));
      case Pause(_, _) => fault := Pause(a);
      case Create(_, _, _, _, _, _, _, _) => fault := Create(a);
      case AdvanceNonce(_, _, _) => fault := ActOnOpen(a);
      case Cancel(_, _, _) => fault := ActOnOpen(a);
      case Expire(_, _) => fault := ActOnOpen(a);
      case Accept(_, _, _, _, _, _, _) => fault := Accept(a);
      case Propose(_, _, _, _, _, _) => fault := Propose(a);
      case Dispute(_, _, _, _, _, _) => fault := Dispute(a);
      case Finalize(_, _) => fault := End(a);
      case Arbitrate(_, _, _, _, _, _) => fault := End(a);
      case VoidUnproposed(_, _) => fault := End(a);
      case VoidUnarbitrated(_, _) => fault := End(a);
      case Claim(_, _) => fault := Pull(a);
      case Refund(_, _) => fault := Pull(a);
    }

    method Pause(a: Action) returns (fault: Option<Fault>)
      requires a.Pause?
      modifies this
      ensures Reflects(PauseStep(Parties(), old(Value()), a), old(Value()), Value(), fault)
    {
      if a.caller != pauser { return Some(Rejection(CallerNotPauser)); }
      if a.paused == paused { return Some(Rejection(PauseStatusUnchanged)); }
      paused := a.paused;
      return None;
    }

    method Create(a: Action) returns (fault: Option<Fault>)
      requires a.Create?
      modifies this
      ensures Reflects(CreateStep(Parties(), old(Value()), a), old(Value()), Value(), fault)
    {
      if paused { return Some(Rejection(ContractPaused)); }
      if a.id in challenges { return Some(Rejection(ChallengeAlreadyExists)); }
      if (a.challenger, a.nonce) in usedNonces { return Some(Rejection(InstanceNonceAlreadyUsed)); }
      if a.caller != a.challenger { return Some(Rejection(CallerNotChallenger)); }
      if a.nonce == 0 || a.stake <= 0 || a.stake > MaxStake(fractionBits) {
        return Some(Rejection(InvalidExecution));
      }
      var t := a.schedule;
      if !(t.acceptanceDeadline > a.now && t.acceptanceDeadline < t.observationTime) {
        return Some(Rejection(InvalidDeadlines));
      }
      if !(t.observationTime < t.sourceCorrectionCutoff && t.sourceCorrectionCutoff < t.proposalDeadline) {
        return Some(Rejection(InvalidDeadlines));
      }
      if t.disputeWindow <= 0 || t.arbitrationWindow <= 0 { return Some(Rejection(InvalidDeadlines)); }
      var latestProposalPath := t.proposalDeadline + t.disputeWindow + t.arbitrationWindow;
      var latestCorrectionPath := t.sourceCorrectionCutoff + t.arbitrationWindow;
      var latest := if latestProposalPath < latestCorrectionPath then latestCorrectionPath else latestProposalPath;
      if t.sourceCorrectionCutoff >= t.observationTime + t.disputeWindow || latest > t.timeoutVoidAt {
        return Some(Rejection(InvalidDeadlines));
      }
      challenges := challenges[a.id := NewModelChallenge(a.challenger, a.side, a.stake, t)];
      order := order + [a.id];
      usedNonces := usedNonces + {(a.challenger, a.nonce)};
      totalOutstandingLiability := Plus(totalOutstandingLiability, a.stake);
      return None;
    }

    method Accept(a: Action) returns (fault: Option<Fault>)
      requires a.Accept?
      modifies this
      ensures Reflects(AcceptStep(Parties(), old(Value()), a), old(Value()), Value(), fault)
    {
      if paused { return Some(Rejection(ContractPaused)); }
      if a.id !in challenges { return Some(Rejection(ChallengeNotFound)); }
      var c := challenges[a.id];
      if c.state != Open { return Some(Rejection(ChallengeNotOpen)); }
      if a.now >= c.schedule.acceptanceDeadline { return Some(Rejection(AcceptanceWindowClosed)); }
      if a.caller != a.acceptor { return Some(Rejection(CallerNotAcceptingWallet)); }
      if a.acceptor == 0 || a.acceptor == c.challenger || a.acceptor in {resolver, arbiter, pauser} {
        return Some(Rejection(InvalidAcceptingWallet));
      }
      if a.permitNonce != c.acceptanceNonce { return Some(Rejection(PermitNonceMismatch)); }
      if !a.permitValid || a.expiresAt <= a.now || a.expiresAt > c.schedule.acceptanceDeadline {
        return Some(Rejection(InvalidPermit));
      }
      c := c.(acceptor := Some(a.acceptor));
      c := c.(deposited := Plus(c.deposited, c.stake));
      c := c.(outstanding := Plus(c.outstanding, c.stake));
      c := c.(state := Active);
      c := c.(entitlements := c.entitlements[a.acceptor := Balance(0, 0)]);
      challenges := challenges[a.id := c];
      totalOutstandingLiability := Plus(totalOutstandingLiability, c.stake);
      return None;
    }

    /** advanceNonce, cancel and expire. */
    method ActOnOpen(a: Action) returns (fault: Option<Fault>)
      requires a.AdvanceNonce? || a.Cancel? || a.Expire?
      modifies this
      ensures Reflects(OpenStep(old(Value()), a), old(Value()), Value(), fault)
    {
      if a.id !in challenges { return Some(Rejection(ChallengeNotFound)); }
      var c := challenges[a.id];
      if c.state != Open { return Some(Rejection(ChallengeNotOpen)); }
      if a.Expire? {
        if a.now < c.schedule.acceptanceDeadline { return Some(Rejection(AcceptanceWindowOpen)); }
      } else {
        if a.caller != c.challenger { return Some(Rejection(CallerNotChallenger)); }
        if a.now >= c.schedule.acceptanceDeadline { return Some(Rejection(AcceptanceWindowClosed)); }
      }
      if a.AdvanceNonce? {
        challenges := challenges[a.id := c.(acceptanceNonce := Plus(c.acceptanceNonce, 1))];
        return None;
      }
      challenges := challenges[a.id := c.(state := if a.Cancel? then Cancelled else Expired)];
      fault := MakeClaimable(a.id, Some(c.challenger), c.stake);
    }

    method Propose(a: Action) returns (fault: Option<Fault>)
      requires a.Propose?
      modifies this
      ensures Reflects(ProposeStep(Parties(), old(Value()), a), old(Value()), Value(), fault)
    {
      if paused { return Some(Rejection(ContractPaused)); }
      if a.id !in challenges { return Some(Rejection(ChallengeNotFound)); }
      var c := challenges[a.id];
      if c.state != Active { return Some(Rejection(ChallengeNotActive)); }
      if a.caller != resolver { return Some(Rejection(CallerNotResolver)); }
      if a.now < c.schedule.observationTime { return Some(Rejection(ObservationNotReached)); }
      if a.now >= c.schedule.proposalDeadline { return Some(Rejection(ProposalWindowClosed)); }
      if a.evidenceHash == ZERO_HASH || a.outcome == None { return Some(Rejection(InvalidProposal)); }
      if a.outcome == Some(OutcomeVoid) && !a.unresolvable && a.now < c.schedule.sourceCorrectionCutoff {
        return Some(Rejection(SourceCorrectionCutoffNotReached));
      }
      c := c.(proposal := Some(ModelProposal(a.outcome.value, a.evidenceHash, a.now, a.now + c.schedule.disputeWindow)));
      c := c.(state := Proposed);
      challenges := challenges[a.id := c];
      return None;
    }

    method Dispute(a: Action) returns (fault: Option<Fault>)
      requires a.Dispute?
      modifies this
      ensures Reflects(DisputeStep(old(Value()), a), old(Value()), Value(), fault)
    {
      if a.id !in challenges { return Some(Rejection(ChallengeNotFound)); }
      var c := challenges[a.id];
      if c.state != Proposed { return Some(Rejection(ChallengeNotProposed)); }
      if a.caller != c.challenger && Some(a.caller) != c.acceptor { return Some(Rejection(CallerNotParticipant)); }
      if c.proposal == None { return Some(Absent); }
      var p := c.proposal.value;
      if a.now >= p.disputeDeadline { return Some(Rejection(DisputeWindowClosed)); }
      if a.outcome == Some(p.outcome) || a.outcome == None { return Some(Rejection(InvalidDispute)); }
      if a.evidenceHash == ZERO_HASH || a.parentEvidenceHash != p.evidenceHash {
        return Some(Rejection(InvalidEvidenceLineage));
      }
      var start := if a.now < c.schedule.sourceCorrectionCutoff then c.schedule.sourceCorrectionCutoff else a.now;
      c := c.(dispute := Some(ModelDispute(a.outcome.value, a.evidenceHash, a.parentEvidenceHash, a.now, start,
                                           start + c.schedule.arbitrationWindow)));
      c := c.(state := Disputed);
      challenges := challenges[a.id := c];
      return None;
    }

    /** finalize, arbitrate, voidUnproposed and voidUnarbitrated. */
    method End(a: Action) returns (fault: Option<Fault>)
      requires a.Finalize? || a.Arbitrate? || a.VoidUnproposed? || a.VoidUnarbitrated?
      modifies this
      ensures Reflects(EndStep(Parties(), old(Value()), a), old(Value()), Value(), fault)
    {
      if a.id !in challenges { return Some(Rejection(ChallengeNotFound)); }
      var c := challenges[a.id];
      match a
      case Finalize(now, id) =>
        if c.state != Proposed { return Some(Rejection(ChallengeNotProposed)); }
        if c.proposal == None { return Some(Absent); }
        if now < c.proposal.value.disputeDeadline { return Some(Rejection(DisputeDeadlineNotReached)); }
        fault := SetFinal(id, c.proposal.value.outcome, Some(c.proposal.value.evidenceHash));
      case Arbitrate(caller, now, id, outcome, evidence, parent) =>
        if c.state != Disputed { return Some(Rejection(ChallengeNotDisputed)); }
        if caller != arbiter { return Some(Rejection(CallerNotArbiter)); }
        if now < c.schedule.sourceCorrectionCutoff { return Some(Rejection(SourceCorrectionCutoffNotReached)); }
        if c.dispute == None { return Some(Absent); }
        if now >= c.dispute.value.arbitrationDeadline { return Some(Rejection(ArbitrationWindowClosed)); }
        if evidence == ZERO_HASH || parent != c.dispute.value.evidenceHash || outcome == None {
          return Some(Rejection(InvalidEvidenceLineage));
        }
        fault := SetFinal(id, outcome.value, Some(evidence));
      case VoidUnproposed(now, id) =>
        if c.state != Active { return Some(Rejection(ChallengeNotActive)); }
        if now < c.schedule.proposalDeadline { return Some(Rejection(ProposalDeadlineNotReached)); }
        fault := SetFinal(id, OutcomeVoid, None);
      case VoidUnarbitrated(now, id) =>
        if c.state != Disputed { return Some(Rejection(ChallengeNotDisputed)); }
        if c.dispute == None { return Some(Absent); }
        if now < c.dispute.value.arbitrationDeadline { return Some(Rejection(ArbitrationDeadlineNotReached)); }
        fault := SetFinal(id, OutcomeVoid, None);
    }

    method Pull(a: Action) returns (fault: Option<Fault>)
      requires a.Claim? || a.Refund?
      modifies this
      ensures Reflects(PullStep(old(Value()), a), old(Value()), Value(), fault)
    {
      if a.id !in challenges { return Some(Rejection(ChallengeNotFound)); }
      var c := challenges[a.id];
      if a.Claim? {
        if c.state != ResolvedA && c.state != ResolvedB { return Some(Rejection(ChallengeNotResolved)); }
        if c.final == None { return Some(Absent); }
        var wallet := Winner(c, c.final.value.outcome);
        if Some(a.caller) != wallet { return Some(Rejection(CallerNotWinningWallet)); }
        fault := Consume(a.id, wallet, c.stake * 2);
      } else {
        if c.state !in {Cancelled, Expired, Void} { return Some(Rejection(ChallengeNotRefundable)); }
        var allowed := a.caller == c.challenger || (c.state == Void && Some(a.caller) == c.acceptor);
        if !allowed { return Some(Rejection(CallerNotRefundRecipient)); }
        fault := Consume(a.id, Some(a.caller), c.stake);
      }
    }

    /** Writes an amount into a wallet's entitlement object, which must be there. */
    method MakeClaimable(id: Bytes32, wallet: Option<Address>, amount: nat) returns (fault: Option<Fault>)
      requires id in challenges
      modifies this`challenges
      ensures Reflects(Written(old(Value()), id, Grant(old(challenges)[id], wallet, amount)), old(Value()), Value(),
                       fault)
      ensures id in challenges
    {
      var c := challenges[id];
      if wallet == None || wallet.value !in c.entitlements {
        challenges := challenges[id := c];
        return Some(Absent);
      }
      var e := c.entitlements[wallet.value].(claimable := amount);
      challenges := challenges[id := c.(entitlements := c.entitlements[wallet.value := e])];
      return None;
    }

    method SetFinal(id: Bytes32, outcome: Outcome, evidence: Option<Bytes32>) returns (fault: Option<Fault>)
      requires id in challenges
      modifies this`challenges
      ensures Reflects(Written(old(Value()), id, ModelSteps.SetFinal(old(challenges)[id], outcome, evidence)),
                       old(Value()), Value(), fault)
    {
      hide Grant;
      var c := challenges[id];
      c := c.(final := Some(ModelFinal(outcome, evidence)));
      if outcome == OutcomeVoid {
        challenges := challenges[id := c.(state := Void)];
        fault := MakeClaimable(id, Some(c.challenger), c.stake);
        if fault.Some? { return; }
        fault := MakeClaimable(id, c.acceptor, c.stake);
        return;
      }
      challenges := challenges[id := c.(state := if outcome == OutcomeA then ResolvedA else ResolvedB)];
      fault := MakeClaimable(id, Winner(c, outcome), c.stake * 2);
    }

    method Consume(id: Bytes32, wallet: Option<Address>, amount: nat) returns (fault: Option<Fault>)
      requires id in challenges
      modifies this
      ensures Reflects(ModelSteps.Consume(old(Value()), id, wallet, amount), old(Value()), Value(), fault)
    {
      var c := challenges[id];
      if wallet == None || wallet.value !in c.entitlements { return Some(Rejection(InvalidEntitlement)); }
      var e := c.entitlements[wallet.value];
      if e.claimable != amount || e.paid != 0 { return Some(Rejection(InvalidEntitlement)); }
      if c.outstanding < amount || totalOutstandingLiability < amount {
        return Some(Rejection(LiabilityAccountingMismatch));
      }
      e := e.(claimable := 0);
      e := e.(paid := amount);
      c := c.(entitlements := c.entitlements[wallet.value := e]);
      if wallet.value == c.challenger { c := c.(paidChallenger := Plus(c.paidChallenger, amount)); }
      if wallet == c.acceptor { c := c.(paidAcceptor := Plus(c.paidAcceptor, amount)); }
      c := c.(outstanding := Minus(c.outstanding, amount));
      challenges := challenges[id := c];
      totalOutstandingLiability := Minus(totalOutstandingLiability, amount);
      return None;
    }
  }

  /** A violation found early is the first one of the whole list. */
  lemma {:induction false} StaysViolated(m: Model, order: seq<Bytes32>, i: nat)
    requires i <= |order| && FirstViolation(m, order[..i]).Some?
    ensures FirstViolation(m, order) == FirstViolation(m, order[..i])
    decreases |order| - i
  {
    if i < |order| {
      assert order[..i + 1][..i] == order[..i];
      StaysViolated(m, order, i + 1);
    } else {
      assert order[..i] == order;
    }
  }
}
