/** The repository's own abstract model of the protocol: a step function over plain numbers that checks its
    invariants after every accepted action. Wallets, hashes and nonces are natural numbers, zero standing for the
    values its guards treat as missing. */
module ModelSteps {
  import opened Wrappers
  import opened JsNumber
  import opened ProtocolTypes

  datatype Rejection =
    | UnknownAction | ChallengeNotFound | CallerNotPauser | PauseStatusUnchanged | ContractPaused
    | ChallengeAlreadyExists | InstanceNonceAlreadyUsed | CallerNotChallenger | InvalidExecution | InvalidDeadlines
    | ChallengeNotOpen | AcceptanceWindowClosed | CallerNotAcceptingWallet | InvalidAcceptingWallet
    | PermitNonceMismatch | InvalidPermit | AcceptanceWindowOpen | ChallengeNotActive | CallerNotResolver
    | ObservationNotReached | ProposalWindowClosed | InvalidProposal | SourceCorrectionCutoffNotReached
    | ChallengeNotProposed | CallerNotParticipant | DisputeWindowClosed | InvalidDispute | InvalidEvidenceLineage
    | DisputeDeadlineNotReached | ChallengeNotDisputed | CallerNotArbiter | ArbitrationWindowClosed
    | ProposalDeadlineNotReached | ArbitrationDeadlineNotReached | ChallengeNotResolved | CallerNotWinningWallet
    | ChallengeNotRefundable | CallerNotRefundRecipient | InvalidEntitlement | LiabilityAccountingMismatch

  /** What assertInvariants throws; MissingField stands for a property read off an absent object. */
  datatype Violation =
    | ChallengeAccounting | TerminalWithoutFinal | WinnerEntitlement | VoidWithoutAcceptor | VoidEntitlement
    | TotalLiability | MissingField

  datatype Balance = Balance(claimable: nat, paid: nat)

  datatype ModelProposal = ModelProposal(outcome: Outcome, evidenceHash: Bytes32, proposedAt: int, disputeDeadline: int)

  datatype ModelDispute = ModelDispute(outcome: Outcome, evidenceHash: Bytes32, parentEvidenceHash: Bytes32,
                                       disputedAt: int, arbitrationStart: int, arbitrationDeadline: int)

  datatype ModelFinal = ModelFinal(outcome: Outcome, evidenceHash: Option<Bytes32>)

  datatype Schedule = Schedule(
    acceptanceDeadline: int,
    observationTime: int,
    sourceCorrectionCutoff: int,
    proposalDeadline: int,
    disputeWindow: int,
    arbitrationWindow: int,
    timeoutVoidAt: int)

  datatype ModelChallenge = ModelChallenge(
    challenger: Address,
    acceptor: Option<Address>,
    challengerSide: Side,
    stake: nat,
    state: LifecycleState,
    acceptanceNonce: nat,
    deposited: nat,
    outstanding: nat,
    paidChallenger: nat,
    paidAcceptor: nat,
    schedule: Schedule,
    proposal: Option<ModelProposal>,
    dispute: Option<ModelDispute>,
    final: Option<ModelFinal>,
    entitlements: map<Address, Balance>)

  /** The constructor's parties, and the unit the model's money is counted in: 2^-fractionBits. */
  datatype Roles = Roles(resolver: Address, arbiter: Address, pauser: Address, fractionBits: nat)

  /** The model's fields; order lists the challenge ids as they were inserted. */
  datatype Model = Model(
    paused: bool,
    totalOutstandingLiability: nat,
    challenges: map<Bytes32, ModelChallenge>,
    order: seq<Bytes32>,
    usedNonces: set<(Address, Bytes32)>)

  const FRESH := Model(false, 0, map[], [], {})

  /** A stake is counted in units; outcome is None for a value that names no outcome; unresolvable says the void reason
      is TERMS_UNRESOLVABLE. */
  datatype Action =
    | Warp
    | Pause(caller: Address, paused: bool)
    | Create(caller: Address, now: int, id: Bytes32, challenger: Address, nonce: Bytes32, stake: int, side: Side,
             schedule: Schedule)
    | AdvanceNonce(caller: Address, now: int, id: Bytes32)
    | Accept(caller: Address, now: int, id: Bytes32, acceptor: Address, permitNonce: nat, permitValid: bool,
             expiresAt: int)
    | Cancel(caller: Address, now: int, id: Bytes32)
    | Expire(now: int, id: Bytes32)
    | Propose(caller: Address, now: int, id: Bytes32, outcome: Option<Outcome>, unresolvable: bool,
              evidenceHash: Bytes32)
    | Dispute(caller: Address, now: int, id: Bytes32, outcome: Option<Outcome>, evidenceHash: Bytes32,
              parentEvidenceHash: Bytes32)
    | Finalize(now: int, id: Bytes32)
    | Arbitrate(caller: Address, now: int, id: Bytes32, outcome: Option<Outcome>, evidenceHash: Bytes32,
                parentEvidenceHash: Bytes32)
    | VoidUnproposed(now: int, id: Bytes32)
    | VoidUnarbitrated(now: int, id: Bytes32)
    | Claim(caller: Address, id: Bytes32)
    | Refund(caller: Address, id: Bytes32)
    | Unknown

  /** A crash is a TypeError: a property of an absent object was read or written, the model left as it then was. */
  datatype StepResult = Stepped(model: Model) | Rejected(code: Rejection) | Crashed(model: Model)

  const MAX_SAFE_INTEGER: nat := 0x1F_FFFF_FFFF_FFFF
  const MAX_WHOLE_STAKE: nat := 0xF_FFFF_FFFF_FFFF

  /** The most units of 2^-fractionBits that are at most half of Number.MAX_SAFE_INTEGER. */
  function MaxStake(fractionBits: nat): (n: nat)
    ensures 2 * n <= MAX_SAFE_INTEGER * Pow2(fractionBits) < 2 * (n + 1)
    ensures n >= MAX_WHOLE_STAKE
  {
    if fractionBits == 0 then MAX_WHOLE_STAKE else MAX_SAFE_INTEGER * Pow2(fractionBits - 1)
  }

  // ---------- Steps ----------

  function Winner(c: ModelChallenge, outcome: Outcome): Option<Address> {
    if (c.challengerSide == SideA && outcome == OutcomeA) || (c.challengerSide == SideB && outcome == OutcomeB)
    then Some(c.challenger) else c.acceptor
  }

  function Put(m: Model, id: Bytes32, c: ModelChallenge): Model {
    m.(challenges := m.challenges[id := c])
  }

  predicate ScheduleFits(t: Schedule, now: int) {
    && now < t.acceptanceDeadline < t.observationTime
    && t.observationTime < t.sourceCorrectionCutoff < t.proposalDeadline
    && t.disputeWindow > 0 && t.arbitrationWindow > 0
    && t.sourceCorrectionCutoff < t.observationTime + t.disputeWindow
    && t.proposalDeadline + t.disputeWindow + t.arbitrationWindow <= t.timeoutVoidAt
    && t.sourceCorrectionCutoff + t.arbitrationWindow <= t.timeoutVoidAt
  }

  function NewModelChallenge(challenger: Address, side: Side, stake: nat, schedule: Schedule): ModelChallenge {
    ModelChallenge(challenger, None, side, stake, Open, 0, stake, stake, 0, 0, schedule, None, None, None,
                   map[challenger := Balance(0, 0)])
  }

  function CreateStep(roles: Roles, m: Model, a: Action): StepResult
    requires a.Create?
  {
    if m.paused then Rejected(ContractPaused)
    else if a.id in m.challenges then Rejected(ChallengeAlreadyExists)
    else if (a.challenger, a.nonce) in m.usedNonces then Rejected(InstanceNonceAlreadyUsed)
    else if a.caller != a.challenger then Rejected(CallerNotChallenger)
    else if a.nonce == 0 || a.stake <= 0 || a.stake > MaxStake(roles.fractionBits) then Rejected(InvalidExecution)
    else if !ScheduleFits(a.schedule, a.now) then Rejected(InvalidDeadlines)
    else
      Stepped(m.(challenges := m.challenges[a.id := NewModelChallenge(a.challenger, a.side, a.stake, a.schedule)],
            order := m.order + [a.id],
            usedNonces := m.usedNonces + {(a.challenger, a.nonce)},
            totalOutstandingLiability := Plus(m.totalOutstandingLiability, a.stake)))
  }

  function AcceptStep(roles: Roles, m: Model, a: Action): StepResult
    requires a.Accept?
  {
    if m.paused then Rejected(ContractPaused)
    else if a.id !in m.challenges then Rejected(ChallengeNotFound)
    else
      var c := m.challenges[a.id];
      if c.state != Open then Rejected(ChallengeNotOpen)
      else if a.now >= c.schedule.acceptanceDeadline then Rejected(AcceptanceWindowClosed)
      else if a.caller != a.acceptor then Rejected(CallerNotAcceptingWallet)
      else if a.acceptor == 0 || a.acceptor == c.challenger || a.acceptor in {roles.resolver, roles.arbiter, roles.pauser}
      then Rejected(InvalidAcceptingWallet)
      else if a.permitNonce != c.acceptanceNonce then Rejected(PermitNonceMismatch)
      else if !a.permitValid || a.expiresAt <= a.now || a.expiresAt > c.schedule.acceptanceDeadline then
        Rejected(InvalidPermit)
      else
        Stepped(Put(m, a.id, c.(acceptor := Some(a.acceptor),
                           deposited := Plus(c.deposited, c.stake),
                           outstanding := Plus(c.outstanding, c.stake),
                           state := Active,
                           entitlements := c.entitlements[a.acceptor := Balance(0, 0)]))
           .(totalOutstandingLiability := Plus(m.totalOutstandingLiability, c.stake)))
  }

  /** A challenge on its way through an action, and whether the action got stuck on an absent object. */
  datatype Progress = Done(challenge: ModelChallenge) | Stuck(challenge: ModelChallenge)

  function Grant(c: ModelChallenge, wallet: Option<Address>, amount: nat): Progress {
    if wallet.Some? && wallet.value in c.entitlements then
      Done(c.(entitlements := c.entitlements[wallet.value := c.entitlements[wallet.value].(claimable := amount)]))
    else Stuck(c)
  }

  function Written(m: Model, id: Bytes32, p: Progress): StepResult {
    match p
    case Done(c) => Stepped(Put(m, id, c))
    case Stuck(c) => Crashed(Put(m, id, c))
  }

  function OpenStep(m: Model, a: Action): StepResult
    requires a.AdvanceNonce? || a.Cancel? || a.Expire?
  {
    if a.id !in m.challenges then Rejected(ChallengeNotFound)
    else
      var c := m.challenges[a.id];
      if c.state != Open then Rejected(ChallengeNotOpen)
      else if a.Expire? then
        if a.now < c.schedule.acceptanceDeadline then Rejected(AcceptanceWindowOpen)
        else Written(m, a.id, Grant(c.(state := Expired), Some(c.challenger), c.stake))
      else if a.caller != c.challenger then Rejected(CallerNotChallenger)
      else if a.now >= c.schedule.acceptanceDeadline then Rejected(AcceptanceWindowClosed)
      else if a.Cancel? then Written(m, a.id, Grant(c.(state := Cancelled), Some(c.challenger), c.stake))
      else Stepped(Put(m, a.id, c.(acceptanceNonce := Plus(c.acceptanceNonce, 1))))
  }

  function ProposeStep(roles: Roles, m: Model, a: Action): StepResult
    requires a.Propose?
  {
    if m.paused then Rejected(ContractPaused)
    else if a.id !in m.challenges then Rejected(ChallengeNotFound)
    else
      var c := m.challenges[a.id];
      if c.state != Active then Rejected(ChallengeNotActive)
      else if a.caller != roles.resolver then Rejected(CallerNotResolver)
      else if a.now < c.schedule.observationTime then Rejected(ObservationNotReached)
      else if a.now >= c.schedule.proposalDeadline then Rejected(ProposalWindowClosed)
      else if a.evidenceHash == ZERO_HASH || a.outcome == None then Rejected(InvalidProposal)
      else if a.outcome == Some(OutcomeVoid) && !a.unresolvable && a.now < c.schedule.sourceCorrectionCutoff then
        Rejected(SourceCorrectionCutoffNotReached)
      else
        var proposal := ModelProposal(a.outcome.value, a.evidenceHash, a.now, a.now + c.schedule.disputeWindow);
        Stepped(Put(m, a.id, c.(proposal := Some(proposal), state := Proposed)))
  }

  function DisputeStep(m: Model, a: Action): StepResult
    requires a.Dispute?
  {
    if a.id !in m.challenges then Rejected(ChallengeNotFound)
    else
      var c := m.challenges[a.id];
      if c.state != Proposed then Rejected(ChallengeNotProposed)
      else if a.caller != c.challenger && Some(a.caller) != c.acceptor then Rejected(CallerNotParticipant)
      else if c.proposal == None then Crashed(m)
      else if a.now >= c.proposal.value.disputeDeadline then Rejected(DisputeWindowClosed)
      else if a.outcome == Some(c.proposal.value.outcome) || a.outcome == None then Rejected(InvalidDispute)
      else if a.evidenceHash == ZERO_HASH || a.parentEvidenceHash != c.proposal.value.evidenceHash then
        Rejected(InvalidEvidenceLineage)
      else
        var start := if a.now < c.schedule.sourceCorrectionCutoff then c.schedule.sourceCorrectionCutoff else a.now;
        var dispute := ModelDispute(a.outcome.value, a.evidenceHash, a.parentEvidenceHash, a.now, start,
                                    start + c.schedule.arbitrationWindow);
        Stepped(Put(m, a.id, c.(dispute := Some(dispute), state := Disputed)))
  }

  function SetFinal(c: ModelChallenge, outcome: Outcome, evidence: Option<Bytes32>): Progress {
    var c1 := c.(final := Some(ModelFinal(outcome, evidence)));
    if outcome == OutcomeVoid then
      match Grant(c1.(state := Void), Some(c.challenger), c.stake)
      case Stuck(c2) => Stuck(c2)
      case Done(c2) => Grant(c2, c.acceptor, c.stake)
    else
      Grant(c1.(state := if outcome == OutcomeA then ResolvedA else ResolvedB), Winner(c, outcome), c.stake * 2)
  }

  function EndStep(roles: Roles, m: Model, a: Action): StepResult
    requires a.Finalize? || a.Arbitrate? || a.VoidUnproposed? || a.VoidUnarbitrated?
  {
    if a.id !in m.challenges then Rejected(ChallengeNotFound)
    else
      var c := m.challenges[a.id];
      match a
      case Finalize(now, id) =>
        if c.state != Proposed then Rejected(ChallengeNotProposed)
        else if c.proposal == None then Crashed(m)
        else if now < c.proposal.value.disputeDeadline then Rejected(DisputeDeadlineNotReached)
        else Written(m, id, SetFinal(c, c.proposal.value.outcome, Some(c.proposal.value.evidenceHash)))
      case Arbitrate(caller, now, id, outcome, evidence, parent) =>
        if c.state != Disputed then Rejected(ChallengeNotDisputed)
        else if caller != roles.arbiter then Rejected(CallerNotArbiter)
        else if now < c.schedule.sourceCorrectionCutoff then Rejected(SourceCorrectionCutoffNotReached)
        else if c.dispute == None then Crashed(m)
        else if now >= c.dispute.value.arbitrationDeadline then Rejected(ArbitrationWindowClosed)
        else if evidence == ZERO_HASH || parent != c.dispute.value.evidenceHash || outcome == None then
          Rejected(InvalidEvidenceLineage)
        else Written(m, id, SetFinal(c, outcome.value, Some(evidence)))
      case VoidUnproposed(now, id) =>
        if c.state != Active then Rejected(ChallengeNotActive)
        else if now < c.schedule.proposalDeadline then Rejected(ProposalDeadlineNotReached)
        else Written(m, id, SetFinal(c, OutcomeVoid, None))
      case VoidUnarbitrated(now, id) =>
        if c.state != Disputed then Rejected(ChallengeNotDisputed)
        else if c.dispute == None then Crashed(m)
        else if now < c.dispute.value.arbitrationDeadline then Rejected(ArbitrationDeadlineNotReached)
        else Written(m, id, SetFinal(c, OutcomeVoid, None))
  }

  function Consume(m: Model, id: Bytes32, wallet: Option<Address>, amount: nat): StepResult
    requires id in m.challenges
  {
    var c := m.challenges[id];
    if wallet == None || wallet.value !in c.entitlements || c.entitlements[wallet.value] != Balance(amount, 0) then
      Rejected(InvalidEntitlement)
    else if c.outstanding < amount || m.totalOutstandingLiability < amount then Rejected(LiabilityAccountingMismatch)
    else
      Stepped(Put(m, id, c.(entitlements := c.entitlements[wallet.value := Balance(0, amount)],
                            paidChallenger := if wallet.value == c.challenger then Plus(c.paidChallenger, amount)
                                              else c.paidChallenger,
                            paidAcceptor := if wallet == c.acceptor then Plus(c.paidAcceptor, amount)
                                            else c.paidAcceptor,
                            outstanding := Minus(c.outstanding, amount)))
              .(totalOutstandingLiability := Minus(m.totalOutstandingLiability, amount)))
  }

  function PullStep(m: Model, a: Action): StepResult
    requires a.Claim? || a.Refund?
  {
    if a.id !in m.challenges then Rejected(ChallengeNotFound)
    else
      var c := m.challenges[a.id];
      if a.Claim? then
        if c.state != ResolvedA && c.state != ResolvedB then Rejected(ChallengeNotResolved)
        else if c.final == None then Crashed(m)
        else if Some(a.caller) != Winner(c, c.final.value.outcome) then Rejected(CallerNotWinningWallet)
        else Consume(m, a.id, Winner(c, c.final.value.outcome), c.stake * 2)
      else
        if c.state !in {Cancelled, Expired, Void} then Rejected(ChallengeNotRefundable)
        else if a.caller != c.challenger && (c.state != Void || Some(a.caller) != c.acceptor) then
          Rejected(CallerNotRefundRecipient)
        else Consume(m, a.id, Some(a.caller), c.stake)
  }

  function PauseStep(roles: Roles, m: Model, a: Action): StepResult
    requires a.Pause?
  {
    if a.caller != roles.pauser then Rejected(CallerNotPauser)
    else if a.paused == m.paused then Rejected(PauseStatusUnchanged)
    else Stepped(m.(paused := a.paused))
  }

  function Step(roles: Roles, m: Model, a: Action): StepResult {
    match a
    case Warp => Stepped(m)
    case Unknown => Rejected(UnknownAction)
    case Pause(_, _) => PauseStep(roles, m, a)
    case Create(_, _, _, _, _, _, _, _) => CreateStep(roles, m, a)
    case AdvanceNonce(_, _, _) => OpenStep(m, a)
    case Cancel(_, _, _) => OpenStep(m, a)
    case Expire(_, _) => OpenStep(m, a)
    case Accept(_, _, _, _, _, _, _) => AcceptStep(roles, m, a)
    case Propose(_, _, _, _, _, _) => ProposeStep(roles, m, a)
    case Dispute(_, _, _, _, _, _) => DisputeStep(m, a)
    case Finalize(_, _) => EndStep(roles, m, a)
    case Arbitrate(_, _, _, _, _, _) => EndStep(roles, m, a)
    case VoidUnproposed(_, _) => EndStep(roles, m, a)
    case VoidUnarbitrated(_, _) => EndStep(roles, m, a)
    case Claim(_, _) => PullStep(m, a)
    case Refund(_, _) => PullStep(m, a)
  }

  // ---------- assertInvariants ----------

  predicate Entitled(c: ModelChallenge, wallet: Option<Address>) {
    wallet.Some? && wallet.value in c.entitlements
  }

  predicate Holds(c: ModelChallenge, wallet: Option<Address>, amount: nat)
    requires Entitled(c, wallet)
  {
    var e := c.entitlements[wallet.value];
    Plus(e.claimable, e.paid) == amount
  }

  function ChallengeViolation(c: ModelChallenge): Option<Violation> {
    if c.deposited != Plus(Plus(c.outstanding, c.paidChallenger), c.paidAcceptor) then Some(ChallengeAccounting)
    else if c.state in {ResolvedA, ResolvedB, Void} && c.final == None then Some(TerminalWithoutFinal)
    else if c.state in {ResolvedA, ResolvedB} then
      var winner := Winner(c, c.final.value.outcome);
      if !Entitled(c, winner) then Some(MissingField)
      else if !Holds(c, winner, c.stake * 2) then Some(WinnerEntitlement)
      else None
    else if c.state == Void then
      if c.acceptor == None then Some(VoidWithoutAcceptor)
      else if !Entitled(c, Some(c.challenger)) then Some(MissingField)
      else if !Holds(c, Some(c.challenger), c.stake) then Some(VoidEntitlement)
      else if !Entitled(c, c.acceptor) then Some(MissingField)
      else if !Holds(c, c.acceptor, c.stake) then Some(VoidEntitlement)
      else None
    else None
  }

  /** The first violation among the listed challenges. */
  function FirstViolation(m: Model, order: seq<Bytes32>): Option<Violation> {
    if order == [] then None
    else
      var earlier := FirstViolation(m, order[..|order| - 1]);
      var id := order[|order| - 1];
      if earlier.Some? then earlier
      else if id in m.challenges then ChallengeViolation(m.challenges[id]) else None
  }

  /** The liabilities added up in insertion order, as numbers. */
  function Aggregate(m: Model, order: seq<Bytes32>): nat {
    if order == [] then 0
    else
      var id := order[|order| - 1];
      Plus(Aggregate(m, order[..|order| - 1]), if id in m.challenges then m.challenges[id].outstanding else 0)
  }

  function Violated(m: Model): Option<Violation> {
    if FirstViolation(m, m.order).Some? then FirstViolation(m, m.order)
    else if Aggregate(m, m.order) != m.totalOutstandingLiability then Some(TotalLiability)
    else None
  }

  // ---------- apply ----------

  /** AtomicityFailure: something was thrown although the snapshot had already changed. */
  datatype Thrown = InvariantViolated(violation: Violation) | TypeError | AtomicityFailure

  datatype Applied = Accepted | Refused(code: Rejection) | Threw(error: Thrown)

  /** What snapshot() shows: everything but the used nonces. */
  predicate SameSnapshot(m: Model, n: Model) {
    n == m.(usedNonces := n.usedNonces)
  }

  function Apply(roles: Roles, m: Model, a: Action): (Applied, Model) {
    match Step(roles, m, a)
    case Rejected(code) => (Refused(code), m)
    case Crashed(m') => (Threw(if SameSnapshot(m, m') then TypeError else AtomicityFailure), m')
    case Stepped(m') =>
      match Violated(m')
      case None => (Accepted, m')
      case Some(v) => (Threw(if SameSnapshot(m, m') then InvariantViolated(v) else AtomicityFailure), m')
  }

  /** The model after a sequence of actions. */
  function Ran(roles: Roles, m: Model, actions: seq<Action>): Model {
    if actions == [] then m
    else Apply(roles, Ran(roles, m, actions[..|actions| - 1]), actions[|actions| - 1]).1
  }
}
