/** The read client: its checks on one challenge tuple and two entitlements, made without any history, in the order
    the source makes them, and the accounting summary it computes. */
module ClientView {
  import opened Wrappers
  import opened ProtocolTypes

  datatype Fault =
    | FieldOutOfRange | AbsentRecordNotZero | AbsentChallengeNotZero | ZeroIdentity | ZeroChallenger
    | StakeOutOfRange | DeadlineOrder | EmptyWindow | CorrectionCutoffTooLate | TimeoutTooEarly
    | UnacceptedWithAcceptor | WrongDeposit | AcceptorInvalid | LiabilityExceedsDeposit | LiabilityUnreachable
    | RecordsDoNotFitState | UnusedReason | ProposalInconsistent | DisputeInconsistent | ZeroFinalizer
    | OutcomeDoesNotFitState | FinalFieldsInvalid | FinalLineageInvalid
    | EntitlementMalformed | TooManyEntitlements | TotalsOverflow
    | ZeroRelease | UnsupportedRelease | ZeroRole | RolesNotDistinct | ChallengeMissing | ParticipantIsRole | AggregateTooSmall
    | FinalizerNotArbiter | AccountingBroken

  /** The first fault of several checks made in order. */
  function FirstOf(faults: seq<Option<Fault>>): Option<Fault> {
    if faults == [] then None else if faults[0].Some? then faults[0] else FirstOf(faults[1..])
  }

  function Unless(holds: bool, fault: Fault): Option<Fault> {
    if holds then None else Some(fault)
  }

  // ---------- Decoding ----------

  predicate AmountsFit(c: Challenge) {
    && c.terms.stakeAmount <= MAX_UINT256 && c.acceptanceNonce <= MAX_UINT256
    && c.depositedAmount <= MAX_UINT256 && c.outstandingLiability <= MAX_UINT256
  }

  predicate TimesFit(c: Challenge) {
    var t := c.terms;
    && c.openedAt <= MAX_UINT64 && t.createdAt <= MAX_UINT64 && c.acceptedAt <= MAX_UINT64
    && t.acceptanceDeadline <= MAX_UINT64 && t.observationTime <= MAX_UINT64
    && t.sourceCorrectionCutoff <= MAX_UINT64 && t.proposalDeadline <= MAX_UINT64
    && t.disputeWindowSeconds <= MAX_UINT64 && t.arbitrationWindowSeconds <= MAX_UINT64
    && t.timeoutVoidAt <= MAX_UINT64
    && c.proposal.proposedAt <= MAX_UINT64 && c.proposal.disputeDeadline <= MAX_UINT64
    && c.dispute.disputedAt <= MAX_UINT64 && c.dispute.arbitrationStart <= MAX_UINT64
    && c.dispute.arbitrationDeadline <= MAX_UINT64
  }

  predicate CodesFit(c: Challenge) {
    && c.proposal.abReason <= MAX_AB_REASON && c.proposal.evidenceVoidReason <= MAX_VOID_REASON
    && c.dispute.abReason <= MAX_AB_REASON && c.dispute.evidenceVoidReason <= MAX_VOID_REASON
    && c.finalResolution.abReason <= MAX_AB_REASON && c.finalResolution.evidenceVoidReason <= MAX_VOID_REASON
    && c.finalResolution.timeoutVoidReason <= ARBITRATION_TIMEOUT
  }

  // ---------- validateChallenge ----------

  predicate AbsentRecordsAreZero(c: Challenge) {
    && (!c.proposal.present ==> c.proposal == NO_PROPOSAL)
    && (!c.dispute.present ==> c.dispute == NO_DISPUTE)
    && (!c.finalResolution.present ==> c.finalResolution == NO_FINAL)
  }

  function ScheduleFault(c: Challenge): Option<Fault> {
    var t := c.terms;
    if t.createdAt > c.openedAt || c.openedAt >= t.acceptanceDeadline || t.acceptanceDeadline >= t.observationTime
       || t.observationTime >= t.sourceCorrectionCutoff || t.sourceCorrectionCutoff >= t.proposalDeadline
    then Some(DeadlineOrder)
    else if t.disputeWindowSeconds == 0 || t.arbitrationWindowSeconds == 0 then Some(EmptyWindow)
    else if t.sourceCorrectionCutoff >= t.observationTime + t.disputeWindowSeconds then Some(CorrectionCutoffTooLate)
    else if t.proposalDeadline + t.disputeWindowSeconds + t.arbitrationWindowSeconds > t.timeoutVoidAt
         || t.sourceCorrectionCutoff + t.arbitrationWindowSeconds > t.timeoutVoidAt
    then Some(TimeoutTooEarly)
    else None
  }

  function TermsFault(c: Challenge): Option<Fault> {
    var t := c.terms;
    if t.specHash == ZERO_HASH || t.executionHash == ZERO_HASH || t.termsHash == ZERO_HASH
       || t.instanceNonce == ZERO_HASH
    then Some(ZeroIdentity)
    else if t.challengerWallet == ZERO_ADDRESS then Some(ZeroChallenger)
    else if t.stakeAmount == 0 || t.stakeAmount > MAX_UINT256 / 2 then Some(StakeOutOfRange)
    else ScheduleFault(c)
  }

  function AcceptanceFault(c: Challenge): Option<Fault> {
    if c.state in {Open, Cancelled, Expired} then
      if c.acceptingWallet != ZERO_ADDRESS || c.acceptedAt != 0 then Some(UnacceptedWithAcceptor)
      else Unless(c.depositedAmount == c.terms.stakeAmount, WrongDeposit)
    else
      if c.acceptingWallet == ZERO_ADDRESS || c.acceptingWallet == c.terms.challengerWallet
         || c.acceptedAt < c.openedAt || c.acceptedAt >= c.terms.acceptanceDeadline
      then Some(AcceptorInvalid)
      else Unless(c.depositedAmount == c.terms.stakeAmount * 2, WrongDeposit)
  }

  function LiabilityFault(c: Challenge): Option<Fault> {
    if c.outstandingLiability > c.depositedAmount then Some(LiabilityExceedsDeposit)
    else
      Unless(if c.state in {Open, Active, Proposed, Disputed} then c.outstandingLiability == c.depositedAmount
             else if c.state == Void then c.outstandingLiability in {0, c.terms.stakeAmount, c.terms.stakeAmount * 2}
             else c.outstandingLiability in {0, c.depositedAmount},
             LiabilityUnreachable)
  }

  function PresenceFault(c: Challenge): Option<Fault> {
    Unless(
      && (c.state in {Proposed, Disputed, ResolvedA, ResolvedB} ==> c.proposal.present)
      && (c.state == Disputed ==> c.dispute.present)
      && (c.state in {ResolvedA, ResolvedB, Void} <==> c.finalResolution.present)
      && !(c.state in {Open, Active, Cancelled, Expired} && (c.proposal.present || c.dispute.present))
      && !(c.state == Proposed && c.dispute.present),
      RecordsDoNotFitState)
  }

  predicate ReasonPair(outcome: Outcome, abReason: nat, evidenceVoidReason: nat) {
    if outcome == OutcomeVoid then abReason == 0 else evidenceVoidReason == 0
  }

  function ProposalFault(c: Challenge): Option<Fault> {
    var p, t := c.proposal, c.terms;
    if !p.present then None
    else if !ReasonPair(p.outcome, p.abReason, p.evidenceVoidReason) then Some(UnusedReason)
    else
      Unless(p.evidenceHash != ZERO_HASH && p.proposedAt >= t.observationTime && p.proposedAt < t.proposalDeadline
             && p.disputeDeadline == p.proposedAt + t.disputeWindowSeconds
             && !(p.outcome == OutcomeVoid && p.evidenceVoidReason != TERMS_UNRESOLVABLE
                  && p.proposedAt < t.sourceCorrectionCutoff),
             ProposalInconsistent)
  }

  function DisputeFault(c: Challenge): Option<Fault> {
    var p, d, t := c.proposal, c.dispute, c.terms;
    var expectedStart := if d.disputedAt < t.sourceCorrectionCutoff then t.sourceCorrectionCutoff else d.disputedAt;
    if !d.present then None
    else if !ReasonPair(d.outcome, d.abReason, d.evidenceVoidReason) then Some(UnusedReason)
    else
      Unless(p.present && d.disputingWallet != ZERO_ADDRESS
             && d.disputingWallet in {t.challengerWallet, c.acceptingWallet}
             && d.evidenceHash != ZERO_HASH && d.parentEvidenceHash == p.evidenceHash && d.outcome != p.outcome
             && d.disputedAt >= p.proposedAt && d.disputedAt < p.disputeDeadline
             && d.arbitrationStart == expectedStart
             && d.arbitrationDeadline == expectedStart + t.arbitrationWindowSeconds,
             DisputeInconsistent)
  }

  function ResolvedFault(c: Challenge): Option<Fault> {
    var p, d, f := c.proposal, c.dispute, c.finalResolution;
    if !p.present || f.finalEvidenceHash == ZERO_HASH || f.timeoutVoidReason != 0 || f.voidPath != UncontestedVoid then
      Some(FinalFieldsInvalid)
    else if f.resolutionPath == UncontestedResolution then
      Unless(!d.present && f.outcome == p.outcome && f.abReason == p.abReason
             && f.finalEvidenceHash == p.evidenceHash && f.parentEvidenceHash == ZERO_HASH,
             FinalLineageInvalid)
    else Unless(d.present && f.parentEvidenceHash == d.evidenceHash, FinalLineageInvalid)
  }

  function VoidFault(c: Challenge): Option<Fault> {
    var p, d, f := c.proposal, c.dispute, c.finalResolution;
    if f.resolutionPath != UncontestedResolution then Some(FinalFieldsInvalid)
    else if f.voidPath in {UncontestedVoid, ArbiterVoid} then
      if f.finalEvidenceHash == ZERO_HASH || f.timeoutVoidReason != 0 then Some(FinalFieldsInvalid)
      else if f.voidPath == UncontestedVoid then
        Unless(p.present && !d.present && p.outcome == OutcomeVoid && f.evidenceVoidReason == p.evidenceVoidReason
               && f.finalEvidenceHash == p.evidenceHash && f.parentEvidenceHash == ZERO_HASH,
               FinalLineageInvalid)
      else Unless(d.present && f.parentEvidenceHash == d.evidenceHash, FinalLineageInvalid)
    else if f.evidenceVoidReason != 0 || f.finalEvidenceHash != ZERO_HASH || f.parentEvidenceHash != ZERO_HASH then
      Some(FinalFieldsInvalid)
    else if f.voidPath == ProposalTimeoutVoid then
      Unless(!p.present && !d.present && f.timeoutVoidReason == NO_PROPOSAL_TIMEOUT, FinalLineageInvalid)
    else
      Unless(p.present && d.present && f.timeoutVoidReason == ARBITRATION_TIMEOUT, FinalLineageInvalid)
  }

  function FinalFault(c: Challenge): Option<Fault> {
    var f := c.finalResolution;
    if !f.present then None
    else if f.finalizedBy == ZERO_ADDRESS then Some(ZeroFinalizer)
    else if !ReasonPair(f.outcome, f.abReason, f.evidenceVoidReason) then Some(UnusedReason)
    else if (c.state == ResolvedA && f.outcome != OutcomeA) || (c.state == ResolvedB && f.outcome != OutcomeB)
         || (c.state == Void && f.outcome != OutcomeVoid) then Some(OutcomeDoesNotFitState)
    else if f.outcome != OutcomeVoid then ResolvedFault(c)
    else VoidFault(c)
  }

  function ValidateChallenge(c: Challenge): Option<Fault> {
    if !AbsentRecordsAreZero(c) then Some(AbsentRecordNotZero)
    else if !c.present then Unless(c == NO_CHALLENGE, AbsentChallengeNotZero)
    else
      FirstOf([TermsFault(c), AcceptanceFault(c), LiabilityFault(c), PresenceFault(c), ProposalFault(c),
               DisputeFault(c), FinalFault(c)])
  }

  function DecodeChallenge(c: Challenge): Result<Challenge, Fault> {
    if !(AmountsFit(c) && TimesFit(c) && CodesFit(c)) then Err(FieldOutOfRange)
    else match ValidateChallenge(c)
      case Some(fault) => Err(fault)
      case None => Ok(c)
  }

  // ---------- Entitlements and accounting ----------

  predicate EntitlementValid(e: Entitlement) {
    && e.claimableAmount <= MAX_UINT256 && e.paidAmount <= MAX_UINT256
    && (!e.present ==> e.claimableAmount == 0 && e.paidAmount == 0)
    && !(e.present && e.claimableAmount == 0 && e.paidAmount == 0)
    && !(e.claimableAmount != 0 && e.paidAmount != 0)
  }

  function Paid(es: seq<Entitlement>): nat {
    if es == [] then 0 else Paid(es[..|es| - 1]) + es[|es| - 1].paidAmount
  }

  function Claimable(es: seq<Entitlement>): nat {
    if es == [] then 0 else Claimable(es[..|es| - 1]) + es[|es| - 1].claimableAmount
  }

  datatype AccountingSummary = AccountingSummary(
    deposited: nat,
    outstanding: nat,
    paid: nat,
    claimable: nat,
    expectedOutstanding: int,
    localConservation: bool,
    entitlementConservation: bool,
    nonNegative: bool)

  predicate Summable(es: seq<Entitlement>) {
    && |es| <= 2
    && (forall i :: 0 <= i < |es| ==> EntitlementValid(es[i]))
    && Paid(es) <= MAX_UINT256 && Claimable(es) <= MAX_UINT256
  }

  function Summary(c: Challenge, es: seq<Entitlement>): AccountingSummary {
    var paid, claimable := Paid(es), Claimable(es);
    AccountingSummary(
      c.depositedAmount, c.outstandingLiability, paid, claimable,
      c.depositedAmount - paid,
      c.depositedAmount - paid == c.outstandingLiability,
      if Terminal(c.state) then paid + claimable == c.depositedAmount else paid == 0 && claimable == 0,
      c.outstandingLiability >= 0 && c.depositedAmount - paid >= 0)
  }

  /** The first fault among the entitlements, as they are added up. */
  function TotalsFault(es: seq<Entitlement>): Option<Fault> {
    if es == [] then None
    else
      var earlier := TotalsFault(es[..|es| - 1]);
      if earlier.Some? then earlier
      else if |es| > 2 then Some(TooManyEntitlements)
      else if !EntitlementValid(es[|es| - 1]) then Some(EntitlementMalformed)
      else Unless(Paid(es) <= MAX_UINT256 && Claimable(es) <= MAX_UINT256, TotalsOverflow)
  }

  lemma {:induction false} StaysFaulty(es: seq<Entitlement>, i: nat)
    requires i <= |es|
    ensures TotalsFault(es[..i]).Some? ==> TotalsFault(es) == TotalsFault(es[..i])
    decreases |es| - i
  {
    if i < |es| {
      StaysFaulty(es, i + 1);
      assert es[..i + 1][..i] == es[..i];
    } else {
      assert es[..i] == es;
    }
  }

  /** Nothing is at fault exactly when at most two valid entitlements fit uint256. */
  lemma {:induction false} TotalsFaultMeans(es: seq<Entitlement>)
    ensures TotalsFault(es) == None <==> Summable(es)
  {
    if es != [] {
      var n := |es| - 1;
      TotalsFaultMeans(es[..n]);
      assert forall i :: 0 <= i < n ==> es[..n][i] == es[i];
    }
  }

  /** A summary comes out exactly when the tuple is valid and at most two valid entitlements fit uint256; otherwise the
      first fault does. */
  method SummarizeAccounting(c: Challenge, es: seq<Entitlement>) returns (r: Result<AccountingSummary, Fault>)
    ensures r.Ok? <==> ValidateChallenge(c) == None && Summable(es)
    ensures r == if ValidateChallenge(c).Some? then Err(ValidateChallenge(c).value)
                 else if TotalsFault(es).Some? then Err(TotalsFault(es).value)
                 else Ok(Summary(c, es))
  {
    hide ValidateChallenge;
    TotalsFaultMeans(es);
    var fault := ValidateChallenge(c);
    if fault.Some? { return Err(fault.value); }
    var paid: nat, claimable: nat := 0, 0;
    for index := 0 to |es|
      invariant TotalsFault(es[..index]) == None
      invariant paid == Paid(es[..index]) && claimable == Claimable(es[..index])
    {
      assert es[..index + 1][..index] == es[..index];
      StaysFaulty(es, index + 1);
      if index >= 2 { return Err(TooManyEntitlements); }
      if !EntitlementValid(es[index]) { return Err(EntitlementMalformed); }
      paid := paid + es[index].paidAmount;
      claimable := claimable + es[index].claimableAmount;
      if paid > MAX_UINT256 || claimable > MAX_UINT256 { return Err(TotalsOverflow); }
    }
    assert es[..|es|] == es;
    var expectedOutstanding := c.depositedAmount - paid;
    var terminal := Terminal(c.state);
    return Ok(AccountingSummary(
      c.depositedAmount, c.outstandingLiability, paid, claimable, expectedOutstanding,
      expectedOutstanding == c.outstandingLiability,
      if terminal then paid + claimable == c.depositedAmount else paid == 0 && claimable == 0,
      c.outstandingLiability >= 0 && expectedOutstanding >= 0));
  }

  // ---------- inspectChallenge ----------

  /** What the client reads of the release at one block. */
  datatype ReleaseSnapshot = ReleaseSnapshot(
    releaseId: Bytes32,
    identity: Identity,
    canonicalToken: Address,
    tokenDecimals: nat,
    resolver: Address,
    arbiter: Address,
    pauser: Address,
    paused: bool,
    totalOutstandingLiability: nat)

  /** The release the client reads. */
  function SupportedIdentity(): Identity {
    Identity(
      "challenge-escrow-protocol/v1",
      "challenge-escrow-event/v1",
      "challenge-escrow.spec/v1",
      "challenge-escrow.evidence/v1",
      "challenge-escrow.condition-language/v1",
      "challenge-escrow.terms/v1",
      "challenge-escrow.spec/v1",
      "challenge-escrow.evidence/v1")
  }

  function SnapshotFault(contract: Address, v: ReleaseSnapshot): Option<Fault> {
    var roles := [contract, v.canonicalToken, v.resolver, v.arbiter, v.pauser];
    if v.tokenDecimals > 18 || v.totalOutstandingLiability > MAX_UINT256 then Some(FieldOutOfRange)
    else if v.releaseId == ZERO_HASH then Some(ZeroRelease)
    else if v.identity != SupportedIdentity() then Some(UnsupportedRelease)
    else if ZERO_ADDRESS in roles then Some(ZeroRole)
    else Unless(forall i, j :: 0 <= i < j < |roles| ==> roles[i] != roles[j], RolesNotDistinct)
  }

  predicate ArbiterPath(f: FinalResolution) {
    f.present && if f.outcome == OutcomeVoid then f.voidPath == ArbiterVoid else f.resolutionPath == ArbiterResolution
  }

  function BoundaryFault(contract: Address, v: ReleaseSnapshot, c: Challenge): Option<Fault> {
    var forbidden := {contract, v.canonicalToken, v.resolver, v.arbiter, v.pauser};
    if !c.present then Some(ChallengeMissing)
    else if c.terms.challengerWallet in forbidden
         || (c.acceptingWallet != ZERO_ADDRESS && c.acceptingWallet in forbidden) then Some(ParticipantIsRole)
    else if v.totalOutstandingLiability < c.outstandingLiability then Some(AggregateTooSmall)
    else Unless(ArbiterPath(c.finalResolution) ==> c.finalResolution.finalizedBy == v.arbiter, FinalizerNotArbiter)
  }

  /** The participants whose entitlements are read: the challenger, and the acceptor once there is one. */
  function EntitlementsRead(c: Challenge, at: Address -> Entitlement): seq<Entitlement> {
    if c.acceptingWallet == ZERO_ADDRESS || c.acceptingWallet == c.terms.challengerWallet then
      [at(c.terms.challengerWallet)]
    else [at(c.terms.challengerWallet), at(c.acceptingWallet)]
  }

  /** Everything inspectChallenge checks, as one condition. */
  predicate Inspected(contract: Address, v: ReleaseSnapshot, c: Challenge, at: Address -> Entitlement) {
    var es := EntitlementsRead(c, at);
    && SnapshotFault(contract, v) == None
    && DecodeChallenge(c) == Ok(c)
    && BoundaryFault(contract, v, c) == None
    && Summable(es)
    && Summary(c, es).localConservation && Summary(c, es).entitlementConservation && Summary(c, es).nonNegative
  }

  method InspectChallenge(contract: Address, v: ReleaseSnapshot, c: Challenge, at: Address -> Entitlement)
    returns (r: Result<AccountingSummary, Fault>)
    ensures r.Ok? <==> Inspected(contract, v, c, at)
    ensures r.Ok? ==> r.value == Summary(c, EntitlementsRead(c, at))
    // Release and tuple are read side by side; what is checked after both has an order.
    ensures r.Err? && (SnapshotFault(contract, v).Some? || DecodeChallenge(c).Err?) ==>
              SnapshotFault(contract, v) == Some(r.error) || DecodeChallenge(c) == Err(r.error)
    ensures r.Err? && SnapshotFault(contract, v) == None && DecodeChallenge(c).Ok? ==>
              r.error == if BoundaryFault(contract, v, c).Some? then BoundaryFault(contract, v, c).value
                         else if TotalsFault(EntitlementsRead(c, at)).Some? then TotalsFault(EntitlementsRead(c, at)).value
                         else AccountingBroken
  {
    TotalsFaultMeans(EntitlementsRead(c, at));
    var fault := SnapshotFault(contract, v);
    if fault.Some? { return Err(fault.value); }
    var decoded := DecodeChallenge(c);
    if decoded.Err? { return Err(decoded.error); }
    fault := BoundaryFault(contract, v, c);
    if fault.Some? { return Err(fault.value); }
    r := SummarizeAccounting(c, EntitlementsRead(c, at));
    if r.Ok? && !(r.value.localConservation && r.value.entitlementConservation && r.value.nonNegative) {
      return Err(AccountingBroken);
    }
  }
}
