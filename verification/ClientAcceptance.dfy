/** The read client agrees with the contract: it accepts every reachable challenge, and its accounting flags hold. */
module ClientAcceptance {
  import opened Wrappers
  import opened ProtocolTypes
  import opened Kernel
  import opened KernelInvariant
  import opened ClientView

  lemma FirstOfNone(faults: seq<Option<Fault>>)
    ensures FirstOf(faults) == None <==> forall i :: 0 <= i < |faults| ==> faults[i] == None
  {
    if faults != [] {
      FirstOfNone(faults[1..]);
      assert forall i :: 1 <= i < |faults| ==> faults[i] == faults[1..][i - 1];
    }
  }

  /** The seven groups of checks on a present challenge. */
  lemma SevenChecks(c: Challenge)
    requires c.present && AbsentRecordsAreZero(c)
    ensures ValidateChallenge(c) == None <==>
            && TermsFault(c) == None && AcceptanceFault(c) == None && LiabilityFault(c) == None
            && PresenceFault(c) == None && ProposalFault(c) == None && DisputeFault(c) == None && FinalFault(c) == None
  {
    hide TermsFault, AcceptanceFault, LiabilityFault, PresenceFault, ProposalFault, DisputeFault, FinalFault, FirstOf;
    var faults := [TermsFault(c), AcceptanceFault(c), LiabilityFault(c), PresenceFault(c), ProposalFault(c),
                   DisputeFault(c), FinalFault(c)];
    FirstOfNone(faults);
    if FirstOf(faults) == None {
      assert faults[0] == faults[1] == faults[2] == faults[3] == faults[4] == faults[5] == faults[6] == None;
    }
  }

  predicate HashesNonzero(t: Terms) {
    t.specHash != ZERO_HASH && t.executionHash != ZERO_HASH && t.termsHash != ZERO_HASH
  }

  lemma TermsAccepted(r: Release, s: State, id: Bytes32)
    requires id in s.challenges && SlotOk(r, s, id)
    ensures TermsFault(s.challenges[id]) == None <==> HashesNonzero(s.challenges[id].terms)
  {
  }

  lemma MoneyAccepted(r: Release, s: State, id: Bytes32)
    requires id in s.challenges && SlotOk(r, s, id)
    ensures AcceptanceFault(s.challenges[id]) == None && LiabilityFault(s.challenges[id]) == None
  {
  }

  lemma RecordsAccepted(r: Release, s: State, id: Bytes32)
    requires id in s.challenges && SlotOk(r, s, id)
    ensures AbsentRecordsAreZero(s.challenges[id]) && PresenceFault(s.challenges[id]) == None
    ensures ProposalFault(s.challenges[id]) == None && DisputeFault(s.challenges[id]) == None
  {
    hide MoneyOk;
  }

  lemma FinalAccepted(r: Release, s: State, id: Bytes32)
    requires id in s.challenges && SlotOk(r, s, id)
    ensures FinalFault(s.challenges[id]) == None
  {
    hide MoneyOk;
  }

  lemma FieldsFit(r: Release, s: State, id: Bytes32)
    requires id in s.challenges && SlotOk(r, s, id)
    ensures var c := s.challenges[id]; AmountsFit(c) && TimesFit(c) && CodesFit(c)
  {
  }

  /** In a reachable state the client decodes a challenge exactly when its hashes are nonzero; an id that names no
      challenge decodes too. */
  lemma ReachableDecodes(r: Release, s: State, id: Bytes32)
    requires Inv(r, s)
    ensures DecodeChallenge(ChallengeAt(s, id)).Ok? <==>
            (id in s.challenges ==> HashesNonzero(s.challenges[id].terms))
  {
    if id in s.challenges {
      assert SlotOk(r, s, id);
      var c := s.challenges[id];
      TermsAccepted(r, s, id);
      MoneyAccepted(r, s, id);
      RecordsAccepted(r, s, id);
      FinalAccepted(r, s, id);
      FieldsFit(r, s, id);
      assert c.present;
      hide TermsFault, AcceptanceFault, LiabilityFault, PresenceFault, ProposalFault, DisputeFault, FinalFault, Inv;
      hide SlotOk, ValidateChallenge, AbsentRecordsAreZero, AmountsFit, TimesFit, CodesFit;
      SevenChecks(c);
    }
  }

  /** Any wallet's entitlement in a reachable state passes the client's check. */
  lemma ReachableEntitlement(r: Release, s: State, id: Bytes32, wallet: Address)
    requires Inv(r, s)
    ensures EntitlementValid(EntitlementAt(s, id, wallet))
  {
    hide SlotOk, Solvent, NoncesOk;
    if EntitlementKey(id, wallet) in s.entitlements {
      assert SlotOk(r, s, id);
      ParticipantEntitlement(r, s, id, wallet);
    }
  }

  lemma ParticipantEntitlement(r: Release, s: State, id: Bytes32, wallet: Address)
    requires id in s.challenges && SlotOk(r, s, id)
    requires wallet in {s.challenges[id].terms.challengerWallet, s.challenges[id].acceptingWallet}
    ensures EntitlementValid(EntitlementAt(s, id, wallet))
  {
    hide LifecycleOk;
  }

  lemma SumOfTwo(e: Entitlement, f: Entitlement)
    ensures Paid([e]) == e.paidAmount && Paid([e, f]) == e.paidAmount + f.paidAmount
    ensures Claimable([e]) == e.claimableAmount && Claimable([e, f]) == e.claimableAmount + f.claimableAmount
  {
    assert [e, f][..1] == [e] && [e][..0] == [];
    assert Paid([]) == 0 && Claimable([]) == 0;
  }

  lemma LifecycleSplit(r: Release, s: State, id: Bytes32)
    requires id in s.challenges && SlotOk(r, s, id)
    ensures var c := s.challenges[id];
            && 0 < c.terms.stakeAmount <= MAX_STAKE
            && if c.state in {Open, Cancelled, Expired} then c.acceptingWallet == ZERO_ADDRESS
               else c.acceptingWallet !in {ZERO_ADDRESS, c.terms.challengerWallet}
  {
  }

  lemma ReachableSummary(r: Release, s: State, id: Bytes32)
    requires id in s.challenges && SlotOk(r, s, id)
    ensures var c := s.challenges[id];
            var es := EntitlementsRead(c, (w: Address) => EntitlementAt(s, id, w));
            && Summable(es)
            && Summary(c, es).localConservation && Summary(c, es).entitlementConservation
            && Summary(c, es).nonNegative
  {
    var c := s.challenges[id];
    var e, f := EntitlementAt(s, id, c.terms.challengerWallet), EntitlementAt(s, id, c.acceptingWallet);
    var es := EntitlementsRead(c, (w: Address) => EntitlementAt(s, id, w));
    assert es == if c.acceptingWallet == ZERO_ADDRESS then [e] else [e, f];
    SumOfTwo(e, f);
    hide Paid, Claimable, LifecycleOk;
    LifecycleSplit(r, s, id);
  }

  function SnapshotAt(r: Release, s: State): ReleaseSnapshot {
    ReleaseSnapshot(r.crypto.releaseId(r.chainId, r.self), ContractIdentity(), r.canonicalToken, r.tokenDecimals,
                    r.resolver, r.arbiter, r.pauser, s.paused, s.totalOutstandingLiability)
  }

  /** The constructor and the client draw the same line: a deployment is let through exactly when its token has code
      and the client will accept the release's roles. */
  lemma DeploymentMatchesClient(r: Release, s: State, tokenHasCode: bool)
    requires r.self != ZERO_ADDRESS && r.crypto.releaseId(r.chainId, r.self) != ZERO_HASH
    requires s.totalOutstandingLiability <= MAX_UINT256
    ensures DeploymentError(r, tokenHasCode) == None <==> tokenHasCode && SnapshotFault(r.self, SnapshotAt(r, s)) == None
  {
    var roles := [r.self, r.canonicalToken, r.resolver, r.arbiter, r.pauser];
    if SnapshotFault(r.self, SnapshotAt(r, s)) == None {
      assert roles[0] != roles[1] && roles[0] != roles[2] && roles[0] != roles[3] && roles[0] != roles[4];
      assert roles[1] != roles[2] && roles[1] != roles[3] && roles[1] != roles[4];
      assert roles[2] != roles[3] && roles[2] != roles[4] && roles[3] != roles[4];
    }
  }

  lemma BoundaryAccepted(r: Release, s: State, id: Bytes32)
    requires Local(r, s, id)
    ensures BoundaryFault(r.self, SnapshotAt(r, s), s.challenges[id]) == None
  {
    hide MoneyOk;
  }

  /** At the end of every run of a properly deployed release, inspecting a challenge succeeds, with all three
      accounting flags true, exactly when its hashes are nonzero. */
  lemma ReachableInspected(r: Release, initialPaused: bool, balance: nat, now: nat, ms: seq<Stimulus>, id: Bytes32)
    requires DeploymentError(r, true) == None && r.self != ZERO_ADDRESS && r.crypto.releaseId(r.chainId, r.self) != ZERO_HASH
    requires balance <= MAX_UINT256
    requires LegalRun(r, DeployedState(initialPaused, balance, now), ms)
    requires id in Run(r, DeployedState(initialPaused, balance, now), ms).challenges
    ensures var s := Run(r, DeployedState(initialPaused, balance, now), ms);
            Inspected(r.self, SnapshotAt(r, s), s.challenges[id], (w: Address) => EntitlementAt(s, id, w))
            <==> HashesNonzero(s.challenges[id].terms)
  {
    hide SlotOk, BoundaryFault, SnapshotFault, DecodeChallenge, Summable, Summary, DeploymentError, Run, LegalRun;
    var s0 := DeployedState(initialPaused, balance, now);
    var s := Run(r, s0, ms);
    DeployedInv(r, initialPaused, balance, now);
    RunKeepsInv(r, s0, ms);
    DeploymentMatchesClient(r, s, true);
    InvLocal(r, s, id);
    ReachableDecodes(r, s, id);
    BoundaryAccepted(r, s, id);
    ReachableSummary(r, s, id);
    assert ChallengeAt(s, id) == s.challenges[id];
    DecodesToItself(s.challenges[id]);
  }

  lemma DecodesToItself(c: Challenge)
    ensures DecodeChallenge(c).Ok? <==> DecodeChallenge(c) == Ok(c)
  {
  }
}
