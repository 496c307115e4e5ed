/** The read client asks for nothing less than reachability: whatever challenge tuple it accepts beside a valid
    release, some run really leaves in storage. Hashes and signatures are the one thing it cannot judge: in a given
    release the tuple is reachable exactly when its hashes and the permit behind it are that release's. */
module ClientExactness {
  import opened Wrappers
  import opened ProtocolTypes
  import opened Kernel
  import opened KernelInvariant
  import opened Conservation
  import A = Authorization
  import opened ClientView
  import opened ClientAcceptance

  // ---------- The release and its starting point ----------

  /** A release with the given roles whose hashing fits the tuple. */
  function Fitted(contract: Address, v: ReleaseSnapshot, t: Terms, id: Bytes32): Release {
    Release(contract, v.canonicalToken, v.tokenDecimals, v.resolver, v.arbiter, v.pauser, 1,
            Cryptography(_ => t.executionHash, (_, _) => t.specHash, _ => id, (_, w) => w, (_, _) => v.releaseId,
                         (_, _) => Some(t.challengerWallet)))
  }

  /** The release the snapshot describes, whatever its hashing. */
  predicate Describes(contract: Address, v: ReleaseSnapshot, r: Release) {
    && (r.self, r.canonicalToken, r.tokenDecimals, r.resolver, r.arbiter, r.pauser)
       == (contract, v.canonicalToken, v.tokenDecimals, v.resolver, v.arbiter, v.pauser)
    && r.crypto.releaseId(r.chainId, r.self) == v.releaseId
  }

  predicate OpeningFits(t: Terms) {
    && t.createdAt <= MAX_UINT64 && t.stakeAmount <= MAX_UINT256
    && t.acceptanceDeadline <= MAX_UINT64 && t.observationTime <= MAX_UINT64
    && t.sourceCorrectionCutoff <= MAX_UINT64 && t.proposalDeadline <= MAX_UINT64
    && t.disputeWindowSeconds <= MAX_UINT64 && t.arbitrationWindowSeconds <= MAX_UINT64
    && t.timeoutVoidAt <= MAX_UINT64
  }

  /** The execution these terms were created from, in a release. */
  function Opening(r: Release, t: Terms): Execution
    requires OpeningFits(t)
  {
    Execution(t.instanceNonce, t.createdAt, r.chainId, r.self, t.challengerWallet, t.challengerSide, r.canonicalToken,
              r.tokenDecimals, t.stakeAmount, t.acceptanceDeadline, t.observationTime, t.sourceCorrectionCutoff,
              t.proposalDeadline, t.disputeWindowSeconds, t.arbitrationWindowSeconds, t.timeoutVoidAt)
  }

  /** The hashes of the terms are those of the release. */
  predicate Hashed(r: Release, t: Terms, id: Bytes32) {
    && OpeningFits(t)
    && r.crypto.executionHash(Opening(r, t)) == t.executionHash
    && r.crypto.specHash(t.executionHash, t.termsHash) == t.specHash
    && r.crypto.challengeId(t.specHash) == id
  }

  /** A permit under which the acceptance on record could be made. */
  predicate PermitFor(r: Release, c: Challenge, id: Bytes32, p: Permit, signature: Signature) {
    && (p.challengeId, p.specHash, p.acceptingWallet, p.acceptanceNonce)
       == (id, c.terms.specHash, c.acceptingWallet, c.acceptanceNonce)
    && c.acceptedAt < p.expiresAt <= c.terms.acceptanceDeadline
    && r.crypto.recover(p, signature) == Some(c.terms.challengerWallet)
  }

  /** What only the release's cryptography can tell of a tuple. */
  ghost predicate Hosts(r: Release, c: Challenge, id: Bytes32) {
    && Hashed(r, c.terms, id)
    && (c.acceptingWallet != ZERO_ADDRESS ==> exists p, signature :: PermitFor(r, c, id, p, signature))
  }

  const ORIGIN := DeployedState(false, 0, 0)

  ghost predicate Reaches(r: Release, s: State) {
    exists ms :: LegalRun(r, ORIGIN, ms) && Run(r, ORIGIN, ms) == s
  }

  lemma ReachesNext(r: Release, s: State, m: Stimulus)
    requires Reaches(r, s) && LegalStimulus(s, m)
    ensures Reaches(r, Next(r, s, m))
  {
    hide Next, LegalStimulus;
    var ms :| LegalRun(r, ORIGIN, ms) && Run(r, ORIGIN, ms) == s;
    assert (ms + [m])[..|ms|] == ms;
    assert LegalRun(r, ORIGIN, ms + [m]) && Run(r, ORIGIN, ms + [m]) == Next(r, s, m);
  }

  /** The storage that holds one challenge and nothing else, with exactly its liability in the escrow. */
  function Book(id: Bytes32, c: Challenge, es: map<EntitlementKey, Entitlement>, clock: nat): State {
    State(false, c.outstandingLiability, map[id := c], es, {NonceOf(c.terms)}, c.outstandingLiability, clock)
  }

  function Accurate(escrowAfter: Uint256, paid: Uint256): TokenReply {
    TokenReply(true, true, NoData, escrowAfter, 0, paid)
  }

  // ---------- The stages a tuple went through ----------

  function Opened(c: Challenge, nonce: nat): Challenge {
    NewChallenge(c.terms, c.openedAt).(acceptanceNonce := nonce)
  }

  function Accepted(c: Challenge): Challenge {
    Opened(c, c.acceptanceNonce).(state := Active, acceptingWallet := c.acceptingWallet, acceptedAt := c.acceptedAt,
                                  depositedAmount := c.terms.stakeAmount * 2,
                                  outstandingLiability := c.terms.stakeAmount * 2)
  }

  function AsProposed(c: Challenge): Challenge {
    Accepted(c).(state := Proposed, proposal := c.proposal)
  }

  function AsDisputed(c: Challenge): Challenge {
    AsProposed(c).(state := Disputed, dispute := c.dispute)
  }

  /** The latest stage before the challenge ended, and the time it was reached. */
  function LastLive(c: Challenge): Challenge {
    if c.dispute.present then AsDisputed(c)
    else if c.proposal.present then AsProposed(c)
    else if c.acceptingWallet != ZERO_ADDRESS then Accepted(c)
    else Opened(c, c.acceptanceNonce)
  }

  function LastTime(c: Challenge): nat {
    if c.dispute.present then c.dispute.disputedAt
    else if c.proposal.present then c.proposal.proposedAt
    else if c.acceptingWallet != ZERO_ADDRESS then c.acceptedAt
    else c.openedAt
  }

  // ---------- What acceptance means ----------

  ghost predicate Plausible(contract: Address, v: ReleaseSnapshot, c: Challenge) {
    && SnapshotFault(contract, v) == None
    && DecodeChallenge(c) == Ok(c)
    && BoundaryFault(contract, v, c) == None
  }

  /** The faults that are absent, one by one. */
  ghost predicate Sound(contract: Address, v: ReleaseSnapshot, c: Challenge) {
    && c.present && AmountsFit(c) && TimesFit(c) && CodesFit(c) && AbsentRecordsAreZero(c)
    && TermsFault(c) == None && AcceptanceFault(c) == None && LiabilityFault(c) == None && PresenceFault(c) == None
    && ProposalFault(c) == None && DisputeFault(c) == None && FinalFault(c) == None
    && SnapshotFault(contract, v) == None && BoundaryFault(contract, v, c) == None
  }

  /** A tuple without a fault, in a release that hosts it. */
  ghost predicate Fit(r: Release, contract: Address, v: ReleaseSnapshot, c: Challenge, id: Bytes32) {
    Sound(contract, v, c) && Describes(contract, v, r) && Hosts(r, c, id)
  }

  lemma PlausibleIsSound(contract: Address, v: ReleaseSnapshot, c: Challenge)
    requires Plausible(contract, v, c)
    ensures Sound(contract, v, c)
  {
    hide TermsFault, AcceptanceFault, LiabilityFault, PresenceFault, ProposalFault, DisputeFault, FinalFault;
    hide AmountsFit, TimesFit, CodesFit, SnapshotFault, FirstOf;
    SevenChecks(c);
  }

  // ---------- Building the run ----------

  lemma OpeningCommits(r: Release, contract: Address, v: ReleaseSnapshot, c: Challenge, id: Bytes32)
    requires Fit(r, contract, v, c, id)
    ensures var env := Env(c.terms.challengerWallet, c.openedAt, Accurate(c.terms.stakeAmount, 0));
            CreateReply(r, ORIGIN, env, Opening(r, c.terms), c.terms.termsHash, c.terms.specHash)
            == Committed(Book(id, Opened(c, 0), map[], c.openedAt), ChallengeCreated(id, c.terms, 0))
  {
    var env := Env(c.terms.challengerWallet, c.openedAt, Accurate(c.terms.stakeAmount, 0));
    hide FinalFault, DisputeFault, ProposalFault, PresenceFault, LiabilityFault, AcceptanceFault;
    assert ValidateExecution(r, env, Opening(r, c.terms)) == None;
    assert {} + {NonceOf(c.terms)} == {NonceOf(c.terms)};
  }

  lemma {:induction false} ReachOpened(r: Release, contract: Address, v: ReleaseSnapshot, c: Challenge, id: Bytes32,
                                       nonce: nat)
    requires Fit(r, contract, v, c, id) && nonce <= MAX_UINT256
    ensures Reaches(r, Book(id, Opened(c, nonce), map[], c.openedAt))
  {
    var env := Env(c.terms.challengerWallet, c.openedAt, Accurate(c.terms.stakeAmount, 0));
    if nonce == 0 {
      assert Reaches(r, ORIGIN) by { assert LegalRun(r, ORIGIN, []) && Run(r, ORIGIN, []) == ORIGIN; }
      OpeningCommits(r, contract, v, c, id);
      hide Reaches;
      ReachesNext(r, ORIGIN, Transaction(env, CreateAndFund(Opening(r, c.terms), c.terms.termsHash, c.terms.specHash)));
    } else {
      ReachOpened(r, contract, v, c, id, nonce - 1);
      hide Reaches;
      AdvanceReaches(r, contract, v, c, id, nonce);
    }
  }

  lemma AdvanceReaches(r: Release, contract: Address, v: ReleaseSnapshot, c: Challenge, id: Bytes32, nonce: nat)
    requires Fit(r, contract, v, c, id) && 0 < nonce <= MAX_UINT256
    requires Reaches(r, Book(id, Opened(c, nonce - 1), map[], c.openedAt))
    ensures Reaches(r, Book(id, Opened(c, nonce), map[], c.openedAt))
  {
    hide Reaches, FinalFault, DisputeFault, ProposalFault, PresenceFault, LiabilityFault, AcceptanceFault;
    var env := Env(c.terms.challengerWallet, c.openedAt, Accurate(c.terms.stakeAmount, 0));
    ReachesNext(r, Book(id, Opened(c, nonce - 1), map[], c.openedAt),
                Transaction(env, AdvanceAcceptanceNonce(id)));
    assert map[id := Opened(c, nonce - 1)][id := Opened(c, nonce)] == map[id := Opened(c, nonce)];
  }

  lemma ReachAccepted(r: Release, contract: Address, v: ReleaseSnapshot, c: Challenge, id: Bytes32)
    requires Fit(r, contract, v, c, id) && c.acceptingWallet != ZERO_ADDRESS
    ensures Reaches(r, Book(id, Accepted(c), map[], c.acceptedAt))
  {
    hide Reaches, FinalFault, DisputeFault, ProposalFault, PresenceFault, LiabilityFault;
    var s := Book(id, Opened(c, c.acceptanceNonce), map[], c.openedAt);
    var permit, signature :| PermitFor(r, c, id, permit, signature);
    var env := Env(c.acceptingWallet, c.acceptedAt, Accurate(c.terms.stakeAmount * 2, 0));
    ReachOpened(r, contract, v, c, id, c.acceptanceNonce);
    assert CheckPermit(r, s.challenges[id], env, id, permit, signature) == None;
    ReachesNext(r, s, Transaction(env, Accept(id, permit, signature)));
    assert map[id := Opened(c, c.acceptanceNonce)][id := Accepted(c)] == map[id := Accepted(c)];
  }

  lemma ReachProposed(r: Release, contract: Address, v: ReleaseSnapshot, c: Challenge, id: Bytes32)
    requires Fit(r, contract, v, c, id) && c.proposal.present
    ensures Reaches(r, Book(id, AsProposed(c), map[], c.proposal.proposedAt))
  {
    hide Reaches, FinalFault, DisputeFault, LiabilityFault;
    var p := c.proposal;
    var s := Book(id, Accepted(c), map[], c.acceptedAt);
    var env := Env(v.resolver, p.proposedAt, Accurate(0, 0));
    ReachAccepted(r, contract, v, c, id);
    ReachesNext(r, s, Transaction(env, Propose(id, p.outcome, CodeOf(p.outcome, p.abReason, p.evidenceVoidReason),
                                               p.evidenceHash)));
    assert map[id := Accepted(c)][id := AsProposed(c)] == map[id := AsProposed(c)];
  }

  lemma ReachDisputed(r: Release, contract: Address, v: ReleaseSnapshot, c: Challenge, id: Bytes32)
    requires Fit(r, contract, v, c, id) && c.dispute.present
    ensures Reaches(r, Book(id, AsDisputed(c), map[], c.dispute.disputedAt))
  {
    hide Reaches, FinalFault, LiabilityFault;
    var d := c.dispute;
    var s := Book(id, AsProposed(c), map[], c.proposal.proposedAt);
    var env := Env(d.disputingWallet, d.disputedAt, Accurate(0, 0));
    ReachProposed(r, contract, v, c, id);
    ReachesNext(r, s, Transaction(env, DisputeOutcome(id, d.outcome, CodeOf(d.outcome, d.abReason, d.evidenceVoidReason),
                                                      d.evidenceHash, d.parentEvidenceHash)));
    assert map[id := AsProposed(c)][id := AsDisputed(c)] == map[id := AsDisputed(c)];
  }

  lemma ReachLastLive(r: Release, contract: Address, v: ReleaseSnapshot, c: Challenge, id: Bytes32)
    requires Fit(r, contract, v, c, id)
    ensures Reaches(r, Book(id, LastLive(c), map[], LastTime(c)))
  {
    hide Reaches, Sound;
    if c.dispute.present {
      ReachDisputed(r, contract, v, c, id);
    } else if c.proposal.present {
      ReachProposed(r, contract, v, c, id);
    } else if c.acceptingWallet != ZERO_ADDRESS {
      ReachAccepted(r, contract, v, c, id);
    } else {
      ReachOpened(r, contract, v, c, id, c.acceptanceNonce) by { AmountsAreBounded(contract, v, c); }
    }
  }

  lemma AmountsAreBounded(contract: Address, v: ReleaseSnapshot, c: Challenge)
    requires Sound(contract, v, c)
    ensures c.acceptanceNonce <= MAX_UINT256
  {
  }

  /** A live tuple is its own last live stage. */
  lemma LiveIsLast(contract: Address, v: ReleaseSnapshot, c: Challenge)
    requires Sound(contract, v, c) && !Terminal(c.state)
    ensures c == LastLive(c)
  {
    hide ProposalFault, DisputeFault, FinalFault, SnapshotFault, BoundaryFault, ScheduleFault;
  }

  // ---------- Ending ----------

  /** A terminal tuple before anything was paid out. */
  function Unpaid(c: Challenge): Challenge {
    c.(outstandingLiability := c.depositedAmount)
  }

  function Grants(id: Bytes32, c: Challenge): map<EntitlementKey, Entitlement> {
    var stake := c.terms.stakeAmount;
    if c.state == Void then
      map[EntitlementKey(id, c.terms.challengerWallet) := Entitlement(true, stake, 0)]
        [EntitlementKey(id, c.acceptingWallet) := Entitlement(true, stake, 0)]
    else if c.state in {ResolvedA, ResolvedB} then
      map[EntitlementKey(id, WinnerWallet(c, c.finalResolution.outcome)) := Entitlement(true, stake * 2, 0)]
    else map[EntitlementKey(id, c.terms.challengerWallet) := Entitlement(true, stake, 0)]
  }

  function EndTime(c: Challenge): nat {
    match c.state
    case Cancelled => c.openedAt
    case Expired => c.terms.acceptanceDeadline
    case ResolvedA | ResolvedB =>
      if c.finalResolution.resolutionPath == UncontestedResolution then c.proposal.disputeDeadline
      else c.dispute.arbitrationStart
    case _ =>
      match c.finalResolution.voidPath
      case UncontestedVoid => c.proposal.disputeDeadline
      case ArbiterVoid => c.dispute.arbitrationStart
      case ProposalTimeoutVoid => c.terms.proposalDeadline
      case ArbitrationTimeoutVoid => c.dispute.arbitrationDeadline
  }

  /** The call that ended it. */
  function EndCall(c: Challenge, id: Bytes32): Call {
    var f := c.finalResolution;
    if c.state == Cancelled then CancelOpen(id)
    else if c.state == Expired then ExpireOpen(id)
    else if ArbiterPath(f) then
      Arbitrate(id, f.outcome, CodeOf(f.outcome, f.abReason, f.evidenceVoidReason), f.finalEvidenceHash,
                f.parentEvidenceHash)
    else if c.state == Void && f.voidPath == ProposalTimeoutVoid then VoidUnproposed(id)
    else if c.state == Void && f.voidPath == ArbitrationTimeoutVoid then VoidUnarbitrated(id)
    else FinalizeUncontested(id)
  }

  function EndCaller(c: Challenge): Address {
    if c.state in {Cancelled, Expired} then c.terms.challengerWallet else c.finalResolution.finalizedBy
  }

  /** Replacing the only challenge of a book. */
  lemma Replaced(id: Bytes32, c: Challenge, c': Challenge)
    ensures map[id := c][id := c'] == map[id := c']
  {
  }

  /** The ending call, made when its deadline allows it, leaves the tuple with everything still to be paid. */
  ghost predicate EndsAsRecorded(r: Release, c: Challenge, id: Bytes32) {
    && EndTime(c) <= MAX_UINT64 && LastTime(c) <= EndTime(c) && EndCaller(c) != ZERO_ADDRESS
    && var reply := Execute(r, Book(id, LastLive(c), map[], LastTime(c)), Env(EndCaller(c), EndTime(c), Accurate(0, 0)),
                            EndCall(c, id));
    reply.Committed? && reply.state == Book(id, Unpaid(c), Grants(id, c), EndTime(c))
  }

  lemma OpenEnds(r: Release, contract: Address, v: ReleaseSnapshot, c: Challenge, id: Bytes32)
    requires Fit(r, contract, v, c, id) && c.state in {Cancelled, Expired}
    ensures EndsAsRecorded(r, c, id)
  {
    hide FinalFault, DisputeFault, ProposalFault, SnapshotFault;
    Replaced(id, LastLive(c), Unpaid(c));
  }

  lemma ResolvedEnds(r: Release, contract: Address, v: ReleaseSnapshot, c: Challenge, id: Bytes32)
    requires Fit(r, contract, v, c, id) && c.state in {ResolvedA, ResolvedB}
    ensures EndsAsRecorded(r, c, id)
  {
    hide SnapshotFault;
    Replaced(id, LastLive(c), Unpaid(c));
  }

  lemma EvidenceVoidEnds(r: Release, contract: Address, v: ReleaseSnapshot, c: Challenge, id: Bytes32)
    requires Fit(r, contract, v, c, id) && c.state == Void
    requires c.finalResolution.voidPath in {UncontestedVoid, ArbiterVoid}
    ensures EndsAsRecorded(r, c, id)
  {
    hide SnapshotFault;
    Replaced(id, LastLive(c), Unpaid(c));
  }

  lemma TimeoutVoidEnds(r: Release, contract: Address, v: ReleaseSnapshot, c: Challenge, id: Bytes32)
    requires Fit(r, contract, v, c, id) && c.state == Void
    requires c.finalResolution.voidPath in {ProposalTimeoutVoid, ArbitrationTimeoutVoid}
    ensures EndsAsRecorded(r, c, id)
  {
    hide SnapshotFault;
    Replaced(id, LastLive(c), Unpaid(c));
  }

  lemma ReachUnpaid(r: Release, contract: Address, v: ReleaseSnapshot, c: Challenge, id: Bytes32)
    requires Fit(r, contract, v, c, id) && Terminal(c.state)
    ensures Reaches(r, Book(id, Unpaid(c), Grants(id, c), EndTime(c)))
  {
    hide Reaches, Sound, Execute, LastLive, LastTime, EndCaller, EndCall, EndTime, Grants, Unpaid, Hosts, Describes;
    if c.state in {Cancelled, Expired} {
      OpenEnds(r, contract, v, c, id);
    } else if c.state == Void {
      match c.finalResolution.voidPath
      case UncontestedVoid => EvidenceVoidEnds(r, contract, v, c, id);
      case ArbiterVoid => EvidenceVoidEnds(r, contract, v, c, id);
      case ProposalTimeoutVoid => TimeoutVoidEnds(r, contract, v, c, id);
      case ArbitrationTimeoutVoid => TimeoutVoidEnds(r, contract, v, c, id);
    } else {
      ResolvedEnds(r, contract, v, c, id);
    }
    ReachLastLive(r, contract, v, c, id);
    ReachesNext(r, Book(id, LastLive(c), map[], LastTime(c)),
                Transaction(Env(EndCaller(c), EndTime(c), Accurate(0, 0)), EndCall(c, id)));
  }

  // ---------- Paying ----------

  /** A wallet the terminal challenge owes the amount to. */
  predicate Owed(c: Challenge, wallet: Address, amount: nat) {
    if c.state in {ResolvedA, ResolvedB} then
      wallet == WinnerWallet(c, c.finalResolution.outcome) && amount == c.terms.stakeAmount * 2
    else
      && c.state in {Cancelled, Expired, Void} && amount == c.terms.stakeAmount
      && (wallet == c.terms.challengerWallet || (c.state == Void && wallet == c.acceptingWallet))
  }

  function PullFor(c: Challenge, id: Bytes32): Call {
    if c.state in {ResolvedA, ResolvedB} then ClaimWinnings(id) else RefundPrincipal(id)
  }

  lemma PullReaches(r: Release, c: Challenge, id: Bytes32, es: map<EntitlementKey, Entitlement>, clock: nat,
                    wallet: Address, amount: nat)
    requires Reaches(r, Book(id, c, es, clock))
    requires c.present && Owed(c, wallet, amount) && wallet != ZERO_ADDRESS && clock <= MAX_UINT64
    requires EntitlementKey(id, wallet) in es && es[EntitlementKey(id, wallet)] == Entitlement(true, amount, 0)
    requires amount <= c.outstandingLiability <= MAX_UINT256
    ensures Reaches(r, Book(id, c.(outstandingLiability := c.outstandingLiability - amount),
                            es[EntitlementKey(id, wallet) := Entitlement(true, 0, amount)], clock))
  {
    hide Reaches;
    var env := Env(wallet, clock, Accurate(c.outstandingLiability - amount, amount));
    ReachesNext(r, Book(id, c, es, clock), Transaction(env, PullFor(c, id)));
    Replaced(id, c, c.(outstandingLiability := c.outstandingLiability - amount));
  }

  ghost predicate Reachable(r: Release, c: Challenge, id: Bytes32) {
    exists es, clock :: Reaches(r, Book(id, c, es, clock))
  }

  lemma OneWinnerPaid(r: Release, contract: Address, v: ReleaseSnapshot, c: Challenge, id: Bytes32)
    requires Fit(r, contract, v, c, id) && c.state in {Cancelled, Expired, ResolvedA, ResolvedB}
    requires c.outstandingLiability == 0
    ensures Reachable(r, c, id)
  {
    hide Reaches, ProposalFault, DisputeFault, FinalFault, SnapshotFault, EndTime;
    var wallet := if c.state in {Cancelled, Expired} then c.terms.challengerWallet
                  else WinnerWallet(c, c.finalResolution.outcome);
    ReachUnpaid(r, contract, v, c, id);
    EndTimeFits(contract, v, c, id);
    PullReaches(r, Unpaid(c), id, Grants(id, c), EndTime(c), wallet, c.depositedAmount);
    assert Unpaid(c).(outstandingLiability := 0) == c;
  }

  lemma EndTimeFits(contract: Address, v: ReleaseSnapshot, c: Challenge, id: Bytes32)
    requires Sound(contract, v, c) && Terminal(c.state)
    ensures EndTime(c) <= MAX_UINT64
  {
    hide SnapshotFault, BoundaryFault;
  }

  lemma VoidPaid(r: Release, contract: Address, v: ReleaseSnapshot, c: Challenge, id: Bytes32)
    requires Fit(r, contract, v, c, id) && c.state == Void && c.outstandingLiability < c.depositedAmount
    ensures Reachable(r, c, id)
  {
    hide Reaches, ProposalFault, DisputeFault, FinalFault, SnapshotFault, EndTime;
    var stake := c.terms.stakeAmount;
    var es, end := Grants(id, c), EndTime(c);
    ReachUnpaid(r, contract, v, c, id);
    EndTimeFits(contract, v, c, id);
    PullReaches(r, Unpaid(c), id, es, end, c.terms.challengerWallet, stake);
    var half := c.(outstandingLiability := stake);
    var es' := es[EntitlementKey(id, c.terms.challengerWallet) := Entitlement(true, 0, stake)];
    assert Reaches(r, Book(id, half, es', end));
    if c.outstandingLiability == 0 {
      PullReaches(r, half, id, es', end, c.acceptingWallet, stake);
      assert half.(outstandingLiability := 0) == c;
    }
  }

  lemma SoundIsReachable(r: Release, contract: Address, v: ReleaseSnapshot, c: Challenge, id: Bytes32)
    requires Fit(r, contract, v, c, id)
    ensures Reachable(r, c, id)
  {
    hide Reaches, Hosts, Describes, ProposalFault, DisputeFault, FinalFault, SnapshotFault, BoundaryFault, TermsFault;
    if !Terminal(c.state) {
      LiveIsLast(contract, v, c);
      ReachLastLive(r, contract, v, c, id);
    } else if c.outstandingLiability == c.depositedAmount {
      ReachUnpaid(r, contract, v, c, id);
      assert Unpaid(c) == c;
    } else if c.state == Void {
      VoidPaid(r, contract, v, c, id);
    } else {
      OneWinnerPaid(r, contract, v, c, id);
    }
  }

  // ---------- The characterization ----------

  /** Some legal history of the release leaves this challenge in storage. */
  ghost predicate HistoryIn(r: Release, c: Challenge, id: Bytes32) {
    exists initialPaused, balance: Uint256, now, ms ::
      && LegalRun(r, DeployedState(initialPaused, balance, now), ms)
      && id in Run(r, DeployedState(initialPaused, balance, now), ms).challenges
      && Run(r, DeployedState(initialPaused, balance, now), ms).challenges[id] == c
  }

  lemma CreationIsHashed(r: Release, s: State, env: Env, x: Execution, terms: Bytes32, supplied: Bytes32)
    requires CreateReply(r, s, env, x, terms, supplied).Committed?
    ensures var e := CreateReply(r, s, env, x, terms, supplied).event;
            e.ChallengeCreated? && Hashed(r, e.terms, e.challengeId)
  {
    var t := CreateReply(r, s, env, x, terms, supplied).event.terms;
    assert Opening(r, t) == x;
  }

  /** A commit leaves a challenge's terms as they were, or creates it with hashes of the release. */
  lemma TermsStep(r: Release, s: State, env: Env, call: Call, id: Bytes32)
    requires Inv(r, s) && Execute(r, s, env, call).Committed? && id in Execute(r, s, env, call).state.challenges
    ensures var t := Execute(r, s, env, call).state.challenges[id].terms;
            Hashed(r, t, id) || (id in s.challenges && s.challenges[id].terms == t)
  {
    hide SlotOk, Hashed, EntitlementsOwned, NoncesOk, Solvent, CreateReply, SucceedingRecord, AcceptReply;
    hide AdvanceNonceReply, CancelReply, ExpireReply, ProposeReply, DisputeReply, FinalizeUncontestedReply;
    hide ArbitrateReply, VoidUnproposedReply, VoidUnarbitratedReply, ClaimReply, RefundReply;
    if call.CreateAndFund? {
      CreationIsHashed(r, s, env, call.execution, call.termsHash, call.suppliedSpecHash);
      CreateEffect(r, s, env, call.execution, call.termsHash, call.suppliedSpecHash);
    } else if id in s.challenges {
      A.SlotIsPresent(r, s, id);
      CommitSucceeds(r, s, env, call, id);
      SucceedsWithTerms(s.challenges[id], Execute(r, s, env, call).state.challenges[id]);
    } else if OnExisting(call) {
      CommitNeedsChallenge(r, s, env, call);
      KeysStay(r, s, env, call);
    }
  }

  lemma SucceedsWithTerms(c: Challenge, c': Challenge)
    requires SucceedingRecord(c, c')
    ensures c'.terms == c.terms
  {
  }

  lemma KeysStay(r: Release, s: State, env: Env, call: Call)
    requires OnExisting(call) && Execute(r, s, env, call).Committed? && call.challengeId in s.challenges
    ensures Execute(r, s, env, call).state.challenges.Keys == s.challenges.Keys
  {
  }

  lemma {:induction false} RunIsHashed(r: Release, s: State, ms: seq<Stimulus>, id: Bytes32)
    requires Inv(r, s) && s.challenges == map[] && LegalRun(r, s, ms) && id in Run(r, s, ms).challenges
    ensures Hashed(r, Run(r, s, ms).challenges[id].terms, id)
  {
    hide Execute, Inv, Hashed, LegalStimulus;
    assert ms != [];
    var before, m := ms[..|ms| - 1], ms[|ms| - 1];
    var mid := Run(r, s, before);
    RunKeepsInv(r, s, before);
    if m.Transaction? && Execute(r, mid, m.env, m.call).Committed? {
      TermsStep(r, mid, m.env, m.call, id);
    }
    if !Hashed(r, Run(r, s, ms).challenges[id].terms, id) {
      RunIsHashed(r, s, before, id);
    }
  }

  /** A challenge in storage has the release's own hashes and a permit behind its acceptance. */
  lemma HistoryIsHosted(r: Release, c: Challenge, id: Bytes32)
    requires HistoryIn(r, c, id)
    ensures Hosts(r, c, id)
  {
    hide LegalRun, Run, Hashed, A.AcceptedAt;
    var initialPaused, balance: Uint256, now, ms :|
      && LegalRun(r, DeployedState(initialPaused, balance, now), ms)
      && id in Run(r, DeployedState(initialPaused, balance, now), ms).challenges
      && Run(r, DeployedState(initialPaused, balance, now), ms).challenges[id] == c;
    var s0 := DeployedState(initialPaused, balance, now);
    DeployedInv(r, initialPaused, balance, now);
    hide Inv;
    RunIsHashed(r, s0, ms, id);
    if c.acceptingWallet != ZERO_ADDRESS {
      A.AcceptorWasPermitted(r, s0, ms, id);
      var i: nat :| A.AcceptedAt(r, s0, ms, i, id, c);
      AcceptanceHasPermit(r, s0, ms, i, c, id);
    }
  }

  lemma AcceptanceHasPermit(r: Release, s0: State, ms: seq<Stimulus>, i: nat, c: Challenge, id: Bytes32)
    requires A.AcceptedAt(r, s0, ms, i, id, c)
    ensures exists p, signature :: PermitFor(r, c, id, p, signature)
  {
    hide Execute, Run;
    var call := ms[i].call;
    assert PermitFor(r, c, id, call.permit, call.signature);
  }

  lemma HistoryIsPlausible(r: Release, contract: Address, v: ReleaseSnapshot, c: Challenge, id: Bytes32)
    requires SnapshotFault(contract, v) == None && c.outstandingLiability <= v.totalOutstandingLiability
    requires Describes(contract, v, r) && DeploymentError(r, true) == None
    requires HashesNonzero(c.terms) && HistoryIn(r, c, id)
    ensures Plausible(contract, v, c)
  {
    hide DecodeChallenge, DeploymentError, LegalRun, Run, SnapshotFault, BoundaryFault, Local;
    var initialPaused, balance: Uint256, now, ms :|
      && LegalRun(r, DeployedState(initialPaused, balance, now), ms)
      && id in Run(r, DeployedState(initialPaused, balance, now), ms).challenges
      && Run(r, DeployedState(initialPaused, balance, now), ms).challenges[id] == c;
    var s := Run(r, DeployedState(initialPaused, balance, now), ms);
    DeployedInv(r, initialPaused, balance, now);
    RunKeepsInv(r, DeployedState(initialPaused, balance, now), ms);
    hide Inv;
    InvLocal(r, s, id);
    ReachableDecodes(r, s, id);
    DecodesToItself(c);
    BoundaryAccepted(r, s, id);
    BoundaryOfRoles(contract, v, SnapshotAt(r, s), c);
  }

  lemma BoundaryOfRoles(contract: Address, v: ReleaseSnapshot, w: ReleaseSnapshot, c: Challenge)
    requires (v.canonicalToken, v.resolver, v.arbiter, v.pauser) == (w.canonicalToken, w.resolver, w.arbiter, w.pauser)
    requires c.outstandingLiability <= v.totalOutstandingLiability && BoundaryFault(contract, w, c) == None
    ensures BoundaryFault(contract, v, c) == None
  {
  }

  lemma PlausibleHasHistory(r: Release, contract: Address, v: ReleaseSnapshot, c: Challenge, id: Bytes32)
    requires Plausible(contract, v, c) && Describes(contract, v, r) && Hosts(r, c, id)
    ensures HistoryIn(r, c, id) && HashesNonzero(c.terms)
  {
    PlausibleIsSound(contract, v, c);
    SoundIsReachable(r, contract, v, c, id);
    assert HashesNonzero(c.terms);
    hide LegalRun, Run, Describes, Hosts, Sound, Plausible, HashesNonzero;
    var es, clock :| Reaches(r, Book(id, c, es, clock));
    var ms :| LegalRun(r, ORIGIN, ms) && Run(r, ORIGIN, ms) == Book(id, c, es, clock);
    assert LegalRun(r, DeployedState(false, 0, 0), ms);
  }

  /** In any release the snapshot describes: the tuples that some legal history leaves there, and whose hashes are not
      zero, are exactly those the client accepts and the release's hashes and the challenger's permit vouch for. */
  lemma ReachableExactly(r: Release, contract: Address, v: ReleaseSnapshot, c: Challenge, id: Bytes32)
    requires SnapshotFault(contract, v) == None && c.outstandingLiability <= v.totalOutstandingLiability
    requires Describes(contract, v, r) && DeploymentError(r, true) == None
    ensures HashesNonzero(c.terms) && HistoryIn(r, c, id)
            <==> DecodeChallenge(c) == Ok(c) && BoundaryFault(contract, v, c) == None && Hosts(r, c, id)
  {
    hide SnapshotFault, DecodeChallenge, BoundaryFault, HistoryIn, HashesNonzero, Hosts, Describes, DeploymentError;
    if Plausible(contract, v, c) && Hosts(r, c, id) {
      PlausibleHasHistory(r, contract, v, c, id);
    }
    if HashesNonzero(c.terms) && HistoryIn(r, c, id) {
      HistoryIsPlausible(r, contract, v, c, id);
      HistoryIsHosted(r, c, id);
    }
  }

  /** Some release with these roles, whatever its hashing, has such a history. */
  ghost predicate HasHistory(contract: Address, v: ReleaseSnapshot, c: Challenge, id: Bytes32) {
    exists r :: Describes(contract, v, r) && DeploymentError(r, true) == None && HistoryIn(r, c, id)
  }

  lemma FittedDeploys(contract: Address, v: ReleaseSnapshot, t: Terms, id: Bytes32)
    requires SnapshotFault(contract, v) == None
    ensures Describes(contract, v, Fitted(contract, v, t, id))
    ensures DeploymentError(Fitted(contract, v, t, id), true) == None
  {
    var r := Fitted(contract, v, t, id);
    var s := ORIGIN.(paused := v.paused, totalOutstandingLiability := v.totalOutstandingLiability);
    assert SnapshotAt(r, s) == v;
    assert contract in [contract, v.canonicalToken, v.resolver, v.arbiter, v.pauser];
    DeploymentMatchesClient(r, s, true);
  }

  lemma FittedHosts(contract: Address, v: ReleaseSnapshot, c: Challenge, id: Bytes32)
    requires Sound(contract, v, c)
    ensures Hosts(Fitted(contract, v, c.terms, id), c, id)
  {
    hide ProposalFault, DisputeFault, FinalFault, SnapshotFault, BoundaryFault, LiabilityFault;
    var r := Fitted(contract, v, c.terms, id);
    if c.acceptingWallet != ZERO_ADDRESS {
      var p := Permit(id, c.terms.specHash, c.acceptingWallet, c.acceptanceNonce, c.terms.acceptanceDeadline);
      assert PermitFor(r, c, id, p, []);
    }
  }

  /** Beside a valid release, the client accepts exactly the challenges that have nonzero hashes and a history. */
  lemma AcceptsExactlyHistories(contract: Address, v: ReleaseSnapshot, c: Challenge, id: Bytes32)
    requires SnapshotFault(contract, v) == None && c.outstandingLiability <= v.totalOutstandingLiability
    ensures DecodeChallenge(c) == Ok(c) && BoundaryFault(contract, v, c) == None
            <==> HashesNonzero(c.terms) && HasHistory(contract, v, c, id)
  {
    hide SnapshotFault, DecodeChallenge, BoundaryFault, HistoryIn, HashesNonzero, Hosts, Fitted, DeploymentError;
    hide Describes;
    if Plausible(contract, v, c) {
      PlausibleIsSound(contract, v, c);
      FittedDeploys(contract, v, c.terms, id);
      FittedHosts(contract, v, c, id);
      PlausibleHasHistory(Fitted(contract, v, c.terms, id), contract, v, c, id);
    }
    if HashesNonzero(c.terms) && HasHistory(contract, v, c, id) {
      var r :| Describes(contract, v, r) && DeploymentError(r, true) == None && HistoryIn(r, c, id);
      HistoryIsPlausible(r, contract, v, c, id);
    }
  }
}
