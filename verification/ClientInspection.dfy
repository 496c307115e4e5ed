/** What an inspection of a challenge tells of the entitlements it reads: whether they balance, and, once each wallet
    holds its own share, that some run really leaves tuple and entitlements in storage. */
module ClientInspection {
  import opened Wrappers
  import opened ProtocolTypes
  import opened Kernel
  import opened KernelInvariant
  import opened ClientView
  import opened ClientAcceptance
  import opened ClientExactness

  // ---------- The flags ----------

  /** What two entitlements add up to; the second is only read where somebody accepted. */
  function PaidOf(c: Challenge, at: Address -> Entitlement): nat {
    at(c.terms.challengerWallet).paidAmount + if Alone(c) then 0 else at(c.acceptingWallet).paidAmount
  }

  function ClaimableOf(c: Challenge, at: Address -> Entitlement): nat {
    at(c.terms.challengerWallet).claimableAmount + if Alone(c) then 0 else at(c.acceptingWallet).claimableAmount
  }

  predicate Alone(c: Challenge) {
    c.acceptingWallet in {ZERO_ADDRESS, c.terms.challengerWallet}
  }

  lemma ReadAmounts(c: Challenge, at: Address -> Entitlement)
    ensures Paid(EntitlementsRead(c, at)) == PaidOf(c, at)
    ensures Claimable(EntitlementsRead(c, at)) == ClaimableOf(c, at)
    ensures |EntitlementsRead(c, at)| <= 2
  {
    hide Paid, Claimable;
    SumOfTwo(at(c.terms.challengerWallet), at(c.acceptingWallet));
  }

  /** Each flag, in terms of the amounts. */
  lemma FlagsMean(c: Challenge, at: Address -> Entitlement)
    ensures var s := Summary(c, EntitlementsRead(c, at));
            && (s.localConservation <==> c.outstandingLiability + PaidOf(c, at) == c.depositedAmount)
            && (s.nonNegative <==> PaidOf(c, at) <= c.depositedAmount)
            && (Terminal(c.state) ==>
                  (s.entitlementConservation <==> PaidOf(c, at) + ClaimableOf(c, at) == c.depositedAmount))
            && (!Terminal(c.state) ==>
                  (s.entitlementConservation <==> PaidOf(c, at) == ClaimableOf(c, at) == 0))
            && (s.deposited, s.outstanding, s.paid, s.claimable)
               == (c.depositedAmount, c.outstandingLiability, PaidOf(c, at), ClaimableOf(c, at))
            && s.expectedOutstanding + PaidOf(c, at) == c.depositedAmount
  {
    hide Paid, Claimable;
    ReadAmounts(c, at);
  }

  /** What is owed and paid adds up. */
  predicate Balances(c: Challenge, at: Address -> Entitlement) {
    && c.outstandingLiability + PaidOf(c, at) == c.depositedAmount
    && PaidOf(c, at) + ClaimableOf(c, at) == if Terminal(c.state) then c.depositedAmount else 0
  }

  predicate SharesValid(c: Challenge, at: Address -> Entitlement) {
    EntitlementValid(at(c.terms.challengerWallet)) && (!Alone(c) ==> EntitlementValid(at(c.acceptingWallet)))
  }

  lemma ReadSummable(c: Challenge, at: Address -> Entitlement)
    ensures Summable(EntitlementsRead(c, at))
       <==> SharesValid(c, at) && PaidOf(c, at) <= MAX_UINT256 && ClaimableOf(c, at) <= MAX_UINT256
  {
    hide Paid, Claimable, EntitlementValid;
    ReadAmounts(c, at);
    var es := EntitlementsRead(c, at);
    assert es[0] == at(c.terms.challengerWallet) && (|es| == 2 ==> es[1] == at(c.acceptingWallet));
  }

  /** An inspection succeeds exactly on an accepted tuple beside a valid release, with valid entitlements that balance. */
  lemma InspectsExactly(contract: Address, v: ReleaseSnapshot, c: Challenge, at: Address -> Entitlement)
    ensures Inspected(contract, v, c, at)
       <==> Plausible(contract, v, c) && SharesValid(c, at) && Balances(c, at)
  {
    hide PaidOf, ClaimableOf, EntitlementsRead, Summable, SnapshotFault, BoundaryFault, Summary, DecodeChallenge;
    hide SharesValid;
    ReadSummable(c, at);
    FlagsMean(c, at);
    if DecodeChallenge(c).Ok? { DepositFits(c); }
  }

  lemma DepositFits(c: Challenge)
    requires DecodeChallenge(c).Ok?
    ensures c.depositedAmount <= MAX_UINT256
  {
    hide ValidateChallenge;
  }

  // ---------- The shares ----------

  /** What a terminal challenge awards to a wallet; the client does not look into this. */
  function Award(c: Challenge, wallet: Address): nat {
    if wallet == ZERO_ADDRESS then 0
    else if c.state in {ResolvedA, ResolvedB} then
      if wallet == WinnerWallet(c, c.finalResolution.outcome) then c.terms.stakeAmount * 2 else 0
    else if c.state == Void then c.terms.stakeAmount
    else if c.state in {Cancelled, Expired} && wallet == c.terms.challengerWallet then c.terms.stakeAmount
    else 0
  }

  /** Each wallet was entitled to its own share. */
  predicate AsAwarded(c: Challenge, at: Address -> Entitlement) {
    forall w :: w in {c.terms.challengerWallet, c.acceptingWallet} && w != ZERO_ADDRESS ==>
      at(w).paidAmount + at(w).claimableAmount == Award(c, w)
  }

  /** The wallets whose entitlements are read hold them in storage. */
  ghost predicate HeldAsRead(s: State, c: Challenge, id: Bytes32, at: Address -> Entitlement) {
    forall w :: w in {c.terms.challengerWallet, c.acceptingWallet} && w != ZERO_ADDRESS ==>
      EntitlementAt(s, id, w) == at(w)
  }

  /** Some legal history of the release leaves tuple and entitlements in storage. */
  ghost predicate LeavesBoth(r: Release, c: Challenge, id: Bytes32, at: Address -> Entitlement) {
    exists initialPaused, balance: Uint256, now, ms ::
      && LegalRun(r, DeployedState(initialPaused, balance, now), ms)
      && Shows(Run(r, DeployedState(initialPaused, balance, now), ms), c, id, at)
  }

  ghost predicate Shows(s: State, c: Challenge, id: Bytes32, at: Address -> Entitlement) {
    id in s.challenges && s.challenges[id] == c && HeldAsRead(s, c, id, at)
  }

  // ---------- From storage to the inspection ----------

  lemma SlotIsAwarded(r: Release, s: State, c: Challenge, id: Bytes32, at: Address -> Entitlement)
    requires id in s.challenges && SlotOk(r, s, id) && Shows(s, c, id, at)
    ensures AsAwarded(c, at) && Balances(c, at) && SharesValid(c, at)
  {
    LifecycleSplit(r, s, id);
    OutcomeOfState(r, s, id);
    hide LifecycleOk, TermsOk;
    assert EntitlementAt(s, id, c.terms.challengerWallet) == at(c.terms.challengerWallet);
    assert c.acceptingWallet != ZERO_ADDRESS ==> EntitlementAt(s, id, c.acceptingWallet) == at(c.acceptingWallet);
  }

  lemma OutcomeOfState(r: Release, s: State, id: Bytes32)
    requires id in s.challenges && SlotOk(r, s, id)
    ensures s.challenges[id].terms.challengerWallet != ZERO_ADDRESS
    ensures s.challenges[id].state == ResolvedA ==> s.challenges[id].finalResolution.outcome == OutcomeA
    ensures s.challenges[id].state == ResolvedB ==> s.challenges[id].finalResolution.outcome == OutcomeB
  {
    hide MoneyOk;
  }

  // ---------- From the inspection to a history ----------

  lemma AwardedEach(contract: Address, v: ReleaseSnapshot, c: Challenge, at: Address -> Entitlement, w: Address)
    requires Sound(contract, v, c) && SharesValid(c, at) && AsAwarded(c, at)
    requires w in {c.terms.challengerWallet, c.acceptingWallet} && w != ZERO_ADDRESS
    ensures at(w) == if Award(c, w) == 0 then NO_ENTITLEMENT
                     else if at(w).paidAmount == 0 then Entitlement(true, Award(c, w), 0)
                     else Entitlement(true, 0, Award(c, w))
  {
    hide ProposalFault, DisputeFault, FinalFault, SnapshotFault, BoundaryFault, TermsFault, LiabilityFault, Award;
  }

  /** Tuple and entitlements are left by a run that starts from the bare deployment. */
  ghost predicate BothReached(r: Release, c: Challenge, id: Bytes32, at: Address -> Entitlement) {
    exists es, clock :: Reaches(r, Book(id, c, es, clock)) && HeldAsRead(Book(id, c, es, clock), c, id, at)
  }

  lemma HeldInBook(contract: Address, v: ReleaseSnapshot, c: Challenge, id: Bytes32, at: Address -> Entitlement,
                   es: map<EntitlementKey, Entitlement>, clock: nat)
    requires Sound(contract, v, c) && SharesValid(c, at) && AsAwarded(c, at)
    requires forall w :: w in {c.terms.challengerWallet, c.acceptingWallet} && w != ZERO_ADDRESS ==>
               if Award(c, w) == 0 then EntitlementKey(id, w) !in es
               else EntitlementKey(id, w) in es && es[EntitlementKey(id, w)]
                    == if at(w).paidAmount == 0 then Entitlement(true, Award(c, w), 0)
                       else Entitlement(true, 0, Award(c, w))
    ensures HeldAsRead(Book(id, c, es, clock), c, id, at)
  {
    hide Sound, SharesValid, AsAwarded, Award;
    forall w | w in {c.terms.challengerWallet, c.acceptingWallet} && w != ZERO_ADDRESS
      ensures EntitlementAt(Book(id, c, es, clock), id, w) == at(w)
    {
      AwardedEach(contract, v, c, at, w);
    }
  }

  lemma LiveReached(r: Release, contract: Address, v: ReleaseSnapshot, c: Challenge, id: Bytes32,
                    at: Address -> Entitlement)
    requires Fit(r, contract, v, c, id) && !Terminal(c.state) && SharesValid(c, at) && AsAwarded(c, at)
    ensures BothReached(r, c, id, at)
  {
    hide Reaches, Sound, SharesValid, AsAwarded, Hosts, Describes;
    LiveIsLast(contract, v, c);
    ReachLastLive(r, contract, v, c, id);
    HeldInBook(contract, v, c, id, at, map[], LastTime(c));
  }

  /** Who is owed once a challenge with one payee has ended. */
  function Payee(c: Challenge): Address {
    if c.state in {ResolvedA, ResolvedB} then WinnerWallet(c, c.finalResolution.outcome) else c.terms.challengerWallet
  }

  lemma PayeeFacts(contract: Address, v: ReleaseSnapshot, c: Challenge)
    requires Sound(contract, v, c) && c.state in {Cancelled, Expired, ResolvedA, ResolvedB}
    ensures Payee(c) != ZERO_ADDRESS && Award(c, Payee(c)) == c.depositedAmount > 0
    ensures Payee(c) in {c.terms.challengerWallet, c.acceptingWallet}
    ensures Owed(c, Payee(c), c.depositedAmount) && c.depositedAmount <= MAX_UINT256
    ensures forall w :: w != Payee(c) && w in {c.terms.challengerWallet, c.acceptingWallet} ==> Award(c, w) == 0
    ensures forall id :: Grants(id, c) == map[EntitlementKey(id, Payee(c)) := Entitlement(true, c.depositedAmount, 0)]
  {
    hide ProposalFault, DisputeFault, SnapshotFault, BoundaryFault, LiabilityFault, ScheduleFault;
  }

  /** Only one of the two wallets holds anything. */
  lemma OnePaid(contract: Address, v: ReleaseSnapshot, c: Challenge, at: Address -> Entitlement)
    requires Sound(contract, v, c) && c.state in {Cancelled, Expired, ResolvedA, ResolvedB}
    requires SharesValid(c, at) && AsAwarded(c, at)
    ensures PaidOf(c, at) == at(Payee(c)).paidAmount
    ensures at(Payee(c)).paidAmount in {0, c.depositedAmount}
  {
    hide Sound, SharesValid, AsAwarded, Award, Payee;
    PayeeFacts(contract, v, c);
    AwardedEach(contract, v, c, at, Payee(c));
    OthersHoldNothing(contract, v, c, at);
  }

  lemma OthersHoldNothing(contract: Address, v: ReleaseSnapshot, c: Challenge, at: Address -> Entitlement)
    requires Sound(contract, v, c) && c.state in {Cancelled, Expired, ResolvedA, ResolvedB}
    requires SharesValid(c, at) && AsAwarded(c, at)
    ensures c.terms.challengerWallet != Payee(c) ==> at(c.terms.challengerWallet).paidAmount == 0
    ensures !Alone(c) && c.acceptingWallet != Payee(c) ==> at(c.acceptingWallet).paidAmount == 0
    ensures Alone(c) ==> Payee(c) == c.terms.challengerWallet
    ensures !Alone(c) ==> c.acceptingWallet != c.terms.challengerWallet
    ensures c.terms.challengerWallet != ZERO_ADDRESS
  {
    hide ProposalFault, DisputeFault, FinalFault, SnapshotFault, BoundaryFault, LiabilityFault, ScheduleFault;
  }

  lemma SinglePayeeReached(r: Release, contract: Address, v: ReleaseSnapshot, c: Challenge, id: Bytes32,
                           at: Address -> Entitlement)
    requires Fit(r, contract, v, c, id) && c.state in {Cancelled, Expired, ResolvedA, ResolvedB}
    requires SharesValid(c, at) && AsAwarded(c, at) && c.outstandingLiability + PaidOf(c, at) == c.depositedAmount
    ensures BothReached(r, c, id, at)
  {
    hide Reaches, Sound, SharesValid, AsAwarded, Award, Payee, Hosts, Describes, EndTime, Owed, PaidOf, Grants;
    var w := Payee(c);
    var es := map[EntitlementKey(id, w) := Entitlement(true, c.depositedAmount, 0)];
    PayeeFacts(contract, v, c);
    OnePaid(contract, v, c, at);
    ReachUnpaid(r, contract, v, c, id);
    if at(w).paidAmount == 0 {
      assert Unpaid(c) == c;
      HeldInBook(contract, v, c, id, at, es, EndTime(c));
    } else {
      EndTimeFits(contract, v, c, id);
      OwedBefore(c, w, c.depositedAmount);
      PullReaches(r, Unpaid(c), id, es, EndTime(c), w, c.depositedAmount) by { PresentOf(contract, v, c); }
      assert Unpaid(c).(outstandingLiability := 0) == c;
      var paid := es[EntitlementKey(id, w) := Entitlement(true, 0, c.depositedAmount)];
      HeldInBook(contract, v, c, id, at, paid, EndTime(c));
    }
  }

  lemma OwedBefore(c: Challenge, w: Address, amount: nat)
    requires Owed(c, w, amount)
    ensures forall debt :: Owed(c.(outstandingLiability := debt), w, amount)
  {
  }

  lemma PresentOf(contract: Address, v: ReleaseSnapshot, c: Challenge)
    requires Sound(contract, v, c)
    ensures c.present
  {
  }

  // ---------- A void has two payees ----------

  lemma VoidFacts(contract: Address, v: ReleaseSnapshot, c: Challenge)
    requires Sound(contract, v, c) && c.state == Void
    ensures c.present && c.depositedAmount == c.terms.stakeAmount * 2 && 0 < c.depositedAmount <= MAX_UINT256
    ensures c.terms.challengerWallet != ZERO_ADDRESS && c.acceptingWallet !in {ZERO_ADDRESS, c.terms.challengerWallet}
  {
    hide ProposalFault, DisputeFault, FinalFault, SnapshotFault, BoundaryFault, ScheduleFault;
  }

  /** The entitlements of a void after some of the two were paid. */
  function VoidBook(c: Challenge, id: Bytes32, first: bool, second: bool): map<EntitlementKey, Entitlement> {
    var stake := c.terms.stakeAmount;
    map[EntitlementKey(id, c.terms.challengerWallet) := if first then Entitlement(true, 0, stake)
                                                        else Entitlement(true, stake, 0),
        EntitlementKey(id, c.acceptingWallet) := if second then Entitlement(true, 0, stake)
                                                 else Entitlement(true, stake, 0)]
  }

  function VoidDebt(c: Challenge, first: bool, second: bool): nat {
    (if first then 0 else c.terms.stakeAmount) + if second then 0 else c.terms.stakeAmount
  }

  lemma VoidReached(r: Release, contract: Address, v: ReleaseSnapshot, c: Challenge, id: Bytes32, first: bool,
                    second: bool)
    requires Fit(r, contract, v, c, id) && c.state == Void
    ensures Reaches(r, Book(id, c.(outstandingLiability := VoidDebt(c, first, second)), VoidBook(c, id, first, second),
                            EndTime(c)))
  {
    hide Reaches, Sound, Hosts, Describes, EndTime;
    VoidFacts(contract, v, c);
    EndTimeFits(contract, v, c, id);
    if second {
      VoidReached(r, contract, v, c, id, first, false);
      PullReaches(r, c.(outstandingLiability := VoidDebt(c, first, false)), id, VoidBook(c, id, first, false), EndTime(c),
                  c.acceptingWallet, c.terms.stakeAmount);
      assert VoidBook(c, id, first, false)[EntitlementKey(id, c.acceptingWallet) :=
                                             Entitlement(true, 0, c.terms.stakeAmount)] == VoidBook(c, id, first, true);
    } else if first {
      VoidReached(r, contract, v, c, id, false, false);
      PullReaches(r, c.(outstandingLiability := VoidDebt(c, false, false)), id, VoidBook(c, id, false, false), EndTime(c),
                  c.terms.challengerWallet, c.terms.stakeAmount);
      assert VoidBook(c, id, false, false)[EntitlementKey(id, c.terms.challengerWallet) :=
                                             Entitlement(true, 0, c.terms.stakeAmount)] == VoidBook(c, id, true, false);
    } else {
      ReachUnpaid(r, contract, v, c, id);
      assert Grants(id, c) == VoidBook(c, id, false, false);
      assert Unpaid(c) == c.(outstandingLiability := VoidDebt(c, false, false));
    }
  }

  lemma TwoPayeesReached(r: Release, contract: Address, v: ReleaseSnapshot, c: Challenge, id: Bytes32,
                         at: Address -> Entitlement)
    requires Fit(r, contract, v, c, id) && c.state == Void
    requires SharesValid(c, at) && AsAwarded(c, at) && c.outstandingLiability + PaidOf(c, at) == c.depositedAmount
    ensures BothReached(r, c, id, at)
  {
    hide Reaches, Sound, Hosts, Describes, EndTime, SharesValid, AsAwarded;
    VoidFacts(contract, v, c);
    var w, x := c.terms.challengerWallet, c.acceptingWallet;
    AwardedEach(contract, v, c, at, w);
    AwardedEach(contract, v, c, at, x);
    var first, second := at(w).paidAmount > 0, at(x).paidAmount > 0;
    VoidReached(r, contract, v, c, id, first, second);
    assert c.(outstandingLiability := VoidDebt(c, first, second)) == c;
    HeldInBook(contract, v, c, id, at, VoidBook(c, id, first, second), EndTime(c));
  }

  lemma InspectedIsReached(r: Release, contract: Address, v: ReleaseSnapshot, c: Challenge, id: Bytes32,
                           at: Address -> Entitlement)
    requires Fit(r, contract, v, c, id) && SharesValid(c, at) && AsAwarded(c, at) && Balances(c, at)
    ensures BothReached(r, c, id, at)
  {
    hide Fit, SharesValid, AsAwarded, BothReached, PaidOf, ClaimableOf;
    if !Terminal(c.state) {
      LiveReached(r, contract, v, c, id, at);
    } else if c.state == Void {
      TwoPayeesReached(r, contract, v, c, id, at);
    } else {
      SinglePayeeReached(r, contract, v, c, id, at);
    }
  }

  // ---------- The characterization ----------

  lemma HistoryIsInspected(r: Release, contract: Address, v: ReleaseSnapshot, c: Challenge, id: Bytes32,
                           at: Address -> Entitlement)
    requires SnapshotFault(contract, v) == None && c.outstandingLiability <= v.totalOutstandingLiability
    requires Describes(contract, v, r) && DeploymentError(r, true) == None
    requires HashesNonzero(c.terms) && LeavesBoth(r, c, id, at)
    ensures Plausible(contract, v, c) && Hosts(r, c, id)
    ensures AsAwarded(c, at) && Balances(c, at) && SharesValid(c, at)
  {
    hide Run, LegalRun, SlotOk, HeldAsRead, AsAwarded, Balances, SharesValid, Plausible, Hosts, HashesNonzero, Describes;
    hide SnapshotFault, DeploymentError;
    var initialPaused, balance: Uint256, now, ms :|
      && LegalRun(r, DeployedState(initialPaused, balance, now), ms)
      && Shows(Run(r, DeployedState(initialPaused, balance, now), ms), c, id, at);
    var s0 := DeployedState(initialPaused, balance, now);
    var s := Run(r, s0, ms);
    DeployedInv(r, initialPaused, balance, now);
    RunKeepsInv(r, s0, ms);
    assert SlotOk(r, s, id);
    SlotIsAwarded(r, s, c, id, at);
    assert HistoryIn(r, c, id);
    HistoryIsPlausible(r, contract, v, c, id);
    HistoryIsHosted(r, c, id);
  }

  /** In a release the snapshot describes: some legal history leaves tuple and entitlements in storage, with nonzero
      hashes, if and only if the inspection succeeds, the release vouches for the tuple, and each wallet holds the share
      that the end of the challenge awards it. */
  lemma InspectionIsHistory(r: Release, contract: Address, v: ReleaseSnapshot, c: Challenge, id: Bytes32,
                            at: Address -> Entitlement)
    requires SnapshotFault(contract, v) == None && c.outstandingLiability <= v.totalOutstandingLiability
    requires Describes(contract, v, r) && DeploymentError(r, true) == None
    ensures HashesNonzero(c.terms) && LeavesBoth(r, c, id, at)
       <==> Inspected(contract, v, c, at) && Hosts(r, c, id) && AsAwarded(c, at)
  {
    hide SnapshotFault, DecodeChallenge, BoundaryFault, HashesNonzero, Hosts, Describes, DeploymentError, AsAwarded;
    hide Inspected, Balances, SharesValid, LeavesBoth;
    InspectsExactly(contract, v, c, at);
    if Plausible(contract, v, c) && SharesValid(c, at) && Balances(c, at) && Hosts(r, c, id) && AsAwarded(c, at) {
      PlausibleIsSound(contract, v, c);
      InspectedIsReached(r, contract, v, c, id, at);
      ReachedIsLeft(r, c, id, at);
      PlausibleHasHistory(r, contract, v, c, id);
    }
    if HashesNonzero(c.terms) && LeavesBoth(r, c, id, at) {
      HistoryIsInspected(r, contract, v, c, id, at);
    }
  }

  lemma ReachedIsLeft(r: Release, c: Challenge, id: Bytes32, at: Address -> Entitlement)
    requires BothReached(r, c, id, at)
    ensures LeavesBoth(r, c, id, at)
  {
    hide LegalRun, Run, HeldAsRead;
    var es, clock :| Reaches(r, Book(id, c, es, clock)) && HeldAsRead(Book(id, c, es, clock), c, id, at);
    var ms :| LegalRun(r, ORIGIN, ms) && Run(r, ORIGIN, ms) == Book(id, c, es, clock);
    assert LegalRun(r, DeployedState(false, 0, 0), ms);
    assert Shows(Run(r, DeployedState(false, 0, 0), ms), c, id, at);
  }

  // ---------- What an inspection does not see ----------

  const WON := Challenge(
    true, Terms(1, 1, 1, 1, 10, SideA, 100, 0, 2, 3, 4, 5, 2, 1, 8), 1, ResolvedA, 0, 11, 1, 200, 200,
    Proposal(true, OutcomeA, 0, 0, 1, 4, 6), NO_DISPUTE,
    FinalResolution(true, OutcomeA, 0, 0, 0, UncontestedResolution, UncontestedVoid, 1, 0, 12))

  function Loot(wallet: Address): Entitlement {
    if wallet == 11 then Entitlement(true, 200, 0) else NO_ENTITLEMENT
  }

  /** The challenger has won, the loser holds the winnings, and the inspection succeeds: no history leaves this behind. */
  lemma LootIsInspected()
    ensures var v := ReleaseSnapshot(1, SupportedIdentity(), 2, 6, 3, 4, 5, false, 200);
            && Inspected(6, v, WON, Loot)
            && forall r, id :: Describes(6, v, r) && DeploymentError(r, true) == None ==> !LeavesBoth(r, WON, id, Loot)
  {
    hide Inspected, LeavesBoth, DeploymentError, SnapshotFault;
    var v := ReleaseSnapshot(1, SupportedIdentity(), 2, 6, 3, 4, 5, false, 200);
    assert SnapshotFault(6, v) == None by { SomeSnapshot(); }
    assert DecodeChallenge(WON) == Ok(WON) by { WonDecodes(); }
    InspectsExactly(6, v, WON, Loot);
    assert !AsAwarded(WON, Loot) by { assert Award(WON, 11) == 0; }
    forall r, id | Describes(6, v, r) && DeploymentError(r, true) == None
      ensures !LeavesBoth(r, WON, id, Loot)
    {
      InspectionIsHistory(r, 6, v, WON, id, Loot);
    }
  }

  lemma SomeSnapshot()
    ensures SnapshotFault(6, ReleaseSnapshot(1, SupportedIdentity(), 2, 6, 3, 4, 5, false, 200)) == None
  {
  }

  lemma WonDecodes()
    ensures DecodeChallenge(WON) == Ok(WON)
  {
    hide FirstOf;
    SevenChecks(WON);
  }
}
