/** No stake can be locked up: after the timeout anyone can finish a challenge, and its participants can then
    empty it, whether or not the contract is paused. */
module Liveness {
  import opened Wrappers
  import opened ProtocolTypes
  import opened Kernel
  import opened KernelInvariant

  /** Every deadline the contract has computed lies no later than the timeout and fits uint64. */
  lemma DeadlinesWithinTimeout(r: Release, s: State, id: Bytes32)
    requires Inv(r, s) && id in s.challenges
    ensures var c := s.challenges[id];
            && c.proposal.disputeDeadline <= c.terms.timeoutVoidAt <= MAX_UINT64
            && c.dispute.arbitrationStart <= c.dispute.arbitrationDeadline <= c.terms.timeoutVoidAt
            && c.terms.acceptanceDeadline < c.terms.proposalDeadline < c.terms.timeoutVoidAt
  {
    assert SlotOk(r, s, id);
  }

  /** The call that ends a challenge once its deadlines have passed. */
  function ExitCall(c: Challenge, id: Bytes32): Call {
    match c.state
    case Open => ExpireOpen(id)
    case Active => VoidUnproposed(id)
    case Proposed => FinalizeUncontested(id)
    case _ => VoidUnarbitrated(id)
  }

  lemma ExitCommits(r: Release, s: State, env: Env, id: Bytes32)
    requires id in s.challenges && SlotOk(r, s, id) && !Terminal(s.challenges[id].state)
    requires s.challenges[id].terms.timeoutVoidAt <= env.now
    ensures var reply := Execute(r, s, env, ExitCall(s.challenges[id], id));
            reply.Committed? && id in reply.state.challenges && Terminal(reply.state.challenges[id].state)
  {
    assert s.challenges[id].terms.stakeAmount <= MAX_STAKE;
  }

  /** From any reachable state, at or after the timeout, one call by anybody ends the challenge. */
  lemma OneCallTerminates(r: Release, s: State, env: Env, id: Bytes32)
    requires Inv(r, s) && id in s.challenges && !Terminal(s.challenges[id].state)
    requires s.challenges[id].terms.timeoutVoidAt <= env.now
    ensures var reply := Execute(r, s, env, ExitCall(s.challenges[id], id));
            reply.Committed? && id in reply.state.challenges && Terminal(reply.state.challenges[id].state)
  {
    ExitCommits(r, s, env, id);
  }

  // ---------- Emptying a terminal challenge ----------

  function PullCall(c: Challenge, id: Bytes32): Call {
    if c.state == ResolvedA || c.state == ResolvedB then ClaimWinnings(id) else RefundPrincipal(id)
  }

  /** The token pays exactly what it is asked to. */
  predicate AccurateToken(s: State, token: TokenReply, amount: nat) {
    && token.balanceReadable && token.callSucceeded && token.returnData in {NoData, Word(1)}
    && token.escrowAfter + amount == s.escrowBalance
    && token.recipientAfter == token.recipientBefore + amount
  }

  /** How many of a challenge's two entitlements are still to be paid. */
  function Unpaid(s: State, id: Bytes32): nat {
    var c := ChallengeAt(s, id);
    (if EntitlementAt(s, id, c.terms.challengerWallet).claimableAmount > 0 then 1 else 0)
    + (if EntitlementAt(s, id, c.acceptingWallet).claimableAmount > 0 then 1 else 0)
  }

  /** Nothing is owed exactly when nothing is claimable. */
  lemma UnpaidMeansOwed(r: Release, s: State, id: Bytes32)
    requires id in s.challenges && SlotOk(r, s, id) && Terminal(s.challenges[id].state)
    ensures Unpaid(s, id) == 0 <==> s.challenges[id].outstandingLiability == 0
    ensures Unpaid(s, id) <= if s.challenges[id].state == Void then 2 else 1
  {
  }

  lemma ConsumeSucceeds(r: Release, s: State, env: Env, id: Bytes32, wallet: Address)
    requires Local(r, s, id) && Terminal(s.challenges[id].state)
    requires EntitlementAt(s, id, wallet).claimableAmount > 0
    requires AccurateToken(s, env.token, EntitlementAt(s, id, wallet).claimableAmount)
    ensures var amount := EntitlementAt(s, id, wallet).claimableAmount;
            && amount == s.challenges[id].terms.stakeAmount
                         * (if s.challenges[id].state == ResolvedA || s.challenges[id].state == ResolvedB then 2 else 1)
            && ConsumeAndPay(s, env, id, wallet, amount).Ok?
  {
    assert EntitlementKey(id, wallet) in s.entitlements;
  }

  lemma ConsumeEffect(s: State, env: Env, id: Bytes32, wallet: Address, amount: nat)
    requires id in s.challenges && ConsumeAndPay(s, env, id, wallet, amount).Ok?
    ensures var s' := ConsumeAndPay(s, env, id, wallet, amount).value;
            && id in s'.challenges
            && s'.challenges[id] == s.challenges[id].(outstandingLiability := s'.challenges[id].outstandingLiability)
            && EntitlementAt(s', id, wallet).claimableAmount == 0
            && forall other :: other != wallet ==> EntitlementAt(s', id, other) == EntitlementAt(s, id, other)
  {
  }

  /** A wallet with something to claim is paid all of it, paused or not. */
  lemma PullPays(r: Release, s: State, env: Env, id: Bytes32)
    requires Local(r, s, id) && Terminal(s.challenges[id].state)
    requires EntitlementAt(s, id, env.sender).claimableAmount > 0
    requires AccurateToken(s, env.token, EntitlementAt(s, id, env.sender).claimableAmount)
    ensures var paid := ConsumeAndPay(s, env, id, env.sender, EntitlementAt(s, id, env.sender).claimableAmount);
            && paid.Ok?
            && Execute(r, s, env, PullCall(s.challenges[id], id)).Committed?
            && Execute(r, s, env, PullCall(s.challenges[id], id)).state == paid.value
  {
    hide ConsumeAndPay;
    assert EntitlementKey(id, env.sender) in s.entitlements;
    ConsumeSucceeds(r, s, env, id, env.sender);
  }

  /** The call a participant makes to be paid. */
  function Pull(s: State, id: Bytes32, env: Env): Stimulus {
    Transaction(env, PullCall(ChallengeAt(s, id), id))
  }

  function Pulled(r: Release, s: State, id: Bytes32, env: Env): State {
    Next(r, s, Pull(s, id, env))
  }

  predicate PullReady(s: State, id: Bytes32, env: Env, wallet: Address) {
    && env.sender == wallet && s.clock <= env.now
    && AccurateToken(s, env.token, EntitlementAt(s, id, wallet).claimableAmount)
  }

  lemma PullStep(r: Release, s: State, env: Env, id: Bytes32)
    requires Inv(r, s) && id in s.challenges && Terminal(s.challenges[id].state) && env.sender != ZERO_ADDRESS
    requires PullReady(s, id, env, env.sender)
    ensures var s' := Pulled(r, s, id, env);
            && Inv(r, s') && id in s'.challenges
            && s'.challenges[id].terms == s.challenges[id].terms && s'.challenges[id].state == s.challenges[id].state
            && s'.challenges[id].acceptingWallet == s.challenges[id].acceptingWallet
            && EntitlementAt(s', id, env.sender).claimableAmount == 0
            && forall other :: other != env.sender ==> EntitlementAt(s', id, other) == EntitlementAt(s, id, other)
  {
    hide Inv, Local, SlotOk, Execute, ConsumeAndPay;
    InvLocal(r, s, id);
    StimulusKeepsInv(r, s, Pull(s, id, env));
    if EntitlementAt(s, id, env.sender).claimableAmount > 0 {
      PullPays(r, s, env, id);
      ConsumeEffect(s, env, id, env.sender, EntitlementAt(s, id, env.sender).claimableAmount);
    } else {
      NothingToPull(r, s, env, id);
    }
  }

  lemma NothingToPull(r: Release, s: State, env: Env, id: Bytes32)
    requires Local(r, s, id) && EntitlementAt(s, id, env.sender).claimableAmount == 0
    ensures Execute(r, s, env, PullCall(s.challenges[id], id)).Reverted?
  {
    assert s.challenges[id].terms.stakeAmount > 0;
  }

  lemma ZeroWalletOwnsNothing(r: Release, s: State, id: Bytes32)
    requires Inv(r, s) && id in s.challenges
    ensures SlotOk(r, s, id) && EntitlementAt(s, id, ZERO_ADDRESS) == NO_ENTITLEMENT
  {
  }

  predicate Settled(s: State, id: Bytes32) {
    id in s.challenges && s.challenges[id].outstandingLiability == 0
  }

  /** Two pulls, one by each participant and in either order, bring the liability of a terminal challenge to
      zero. For a challenge nobody accepted the challenger's pull does. */
  lemma TwoPullsSettle(r: Release, s: State, first: Env, second: Env, id: Bytes32)
    requires Inv(r, s) && id in s.challenges && Terminal(s.challenges[id].state)
    requires first.sender != ZERO_ADDRESS && second.sender != ZERO_ADDRESS
    requires var c := s.challenges[id];
             (first.sender == c.terms.challengerWallet
              && (c.acceptingWallet == ZERO_ADDRESS || second.sender == c.acceptingWallet))
             || (second.sender == c.terms.challengerWallet && first.sender == c.acceptingWallet)
    requires PullReady(s, id, first, first.sender)
    requires PullReady(Pulled(r, s, id, first), id, second, second.sender)
    ensures Settled(Pulled(r, Pulled(r, s, id, first), id, second), id)
  {
    hide Pulled, SlotOk;
    var mid := Pulled(r, s, id, first);
    var end := Pulled(r, mid, id, second);
    PullStep(r, s, first, id);
    PullStep(r, mid, second, id);
    ZeroWalletOwnsNothing(r, end, id);
    UnpaidMeansOwed(r, end, id);
  }

  // ---------- From any state to nothing owed ----------

  lemma ClaimCovered(r: Release, s: State, id: Bytes32, wallet: Address)
    requires Inv(r, s) && id in s.challenges
    requires wallet in {s.challenges[id].terms.challengerWallet, s.challenges[id].acceptingWallet}
    ensures EntitlementAt(s, id, wallet).claimableAmount <= s.escrowBalance <= MAX_UINT256
  {
    hide LifecycleOk, TermsOk, Inv;
    InvLocal(r, s, id);
  }

  /** A token that pays exactly the amount. */
  function Exactly(s: State, amount: nat): TokenReply
    requires amount <= s.escrowBalance <= MAX_UINT256
  {
    TokenReply(true, true, NoData, s.escrowBalance - amount, 0, amount)
  }

  lemma ClockIsNow(r: Release, s: State, env: Env, call: Call)
    requires s.clock <= env.now
    ensures Next(r, s, Transaction(env, call)).clock <= env.now
  {
  }

  /** The pull of a participant, when the token is exact. */
  lemma PullOf(r: Release, s: State, id: Bytes32, wallet: Address, now: Uint64) returns (env: Env)
    requires Inv(r, s) && id in s.challenges && s.clock <= now
    requires wallet in {s.challenges[id].terms.challengerWallet, s.challenges[id].acceptingWallet}
    ensures env.sender == wallet && env.now == now && PullReady(s, id, env, wallet)
  {
    hide Inv;
    ClaimCovered(r, s, id, wallet);
    env := Env(wallet, now, Exactly(s, EntitlementAt(s, id, wallet).claimableAmount));
  }

  lemma ThreeSteps(r: Release, s: State, a: Stimulus, b: Stimulus, c: Stimulus)
    requires LegalStimulus(s, a) && LegalStimulus(Next(r, s, a), b) && LegalStimulus(Next(r, Next(r, s, a), b), c)
    ensures LegalRun(r, s, [a, b, c]) && Run(r, s, [a, b, c]) == Next(r, Next(r, Next(r, s, a), b), c)
  {
    hide Next, LegalStimulus;
    assert [a, b, c][..2] == [a, b] && [a, b][..1] == [a] && [a][..0] == [];
    assert LegalRun(r, s, []) && Run(r, s, []) == s;
    assert LegalRun(r, s, [a]) && Run(r, s, [a]) == Next(r, s, a);
    assert LegalRun(r, s, [a, b]);
  }

  /** The other participant, or the challenger where nobody accepted. */
  function Second(c: Challenge): Address {
    if c.acceptingWallet == ZERO_ADDRESS then c.terms.challengerWallet else c.acceptingWallet
  }

  /** An ending by the given call, then a pull by the challenger and one by the other participant. */
  ghost predicate ExitRun(s: State, id: Bytes32, env: Env, ms: seq<Stimulus>) {
    var c := ChallengeAt(s, id);
    && |ms| == 3 && ms[0] == Transaction(env, ExitCall(c, id))
    && (forall i :: 1 <= i < 3 ==>
          ms[i].Transaction? && ms[i].call in {ClaimWinnings(id), RefundPrincipal(id)} && ms[i].env.now == env.now)
    && ms[1].env.sender == c.terms.challengerWallet && ms[2].env.sender == Second(c)
  }

  /** From any reachable non-terminal state, at or after the timeout, paused or not: one call by anybody and one pull by
      each participant, all in that same block, make a legal run that leaves the challenge owing nothing. */
  lemma ThreeCallsSettle(r: Release, s: State, env: Env, id: Bytes32)
    requires Inv(r, s) && id in s.challenges && !Terminal(s.challenges[id].state)
    requires s.challenges[id].terms.timeoutVoidAt <= env.now && s.clock <= env.now && env.sender != ZERO_ADDRESS
    ensures exists ms :: ExitRun(s, id, env, ms) && LegalRun(r, s, ms) && Settled(Run(r, s, ms), id)
  {
    hide Inv, Execute, SlotOk, LegalRun, Run, Settled;
    var exit := Transaction(env, ExitCall(s.challenges[id], id));
    OneCallTerminates(r, s, env, id);
    StimulusKeepsInv(r, s, exit);
    ClockIsNow(r, s, env, exit.call);
    var ended := Next(r, s, exit);
    var c := ended.challenges[id];
    ParticipantsExist(r, ended, id);
    var second := Second(c);
    ExitKeepsParticipants(r, s, env, id);
    var env1 := PullOf(r, ended, id, c.terms.challengerWallet, env.now);
    PullStep(r, ended, env1, id);
    ClockIsNow(r, ended, env1, Pull(ended, id, env1).call);
    var pulled := Pulled(r, ended, id, env1);
    var env2 := PullOf(r, pulled, id, second, env.now);
    TwoPullsSettle(r, ended, env1, env2, id);
    ThreeSteps(r, s, exit, Pull(ended, id, env1), Pull(pulled, id, env2));
    assert ExitRun(s, id, env, [exit, Pull(ended, id, env1), Pull(pulled, id, env2)]);
  }

  lemma ExitKeepsParticipants(r: Release, s: State, env: Env, id: Bytes32)
    requires id in s.challenges && Execute(r, s, env, ExitCall(s.challenges[id], id)).Committed?
    ensures var s' := Execute(r, s, env, ExitCall(s.challenges[id], id)).state;
            && id in s'.challenges
            && s'.challenges[id].terms.challengerWallet == s.challenges[id].terms.challengerWallet
            && s'.challenges[id].acceptingWallet == s.challenges[id].acceptingWallet
  {
  }

  lemma ParticipantsExist(r: Release, s: State, id: Bytes32)
    requires Inv(r, s) && id in s.challenges
    ensures s.challenges[id].terms.challengerWallet != ZERO_ADDRESS
  {
    assert SlotOk(r, s, id);
  }

  // ---------- Progress ----------

  /** Lifecycle moves a challenge may still make. */
  function MovesLeft(state: LifecycleState): nat {
    match state
    case Open => 4
    case Active => 3
    case Proposed => 2
    case Disputed => 1
    case _ => 0
  }

  function Measure(s: State, id: Bytes32): nat {
    3 * MovesLeft(ChallengeAt(s, id).state) + Unpaid(s, id)
  }

  lemma PaymentProgress(r: Release, s: State, s': State, id: Bytes32, env: Env, amount: nat)
    requires Local(r, s, id) && Terminal(s.challenges[id].state) && amount > 0
    requires ConsumeAndPay(s, env, id, env.sender, amount) == Ok(s')
    ensures Measure(s', id) == Measure(s, id) - 1
  {
    assert EntitlementKey(id, env.sender) in s.entitlements;
  }

  lemma MoveProgress(r: Release, s: State, s': State, id: Bytes32)
    requires id in s.challenges && id in s'.challenges && SlotOk(r, s, id)
    requires MovesLeft(s'.challenges[id].state) < MovesLeft(s.challenges[id].state)
    ensures Measure(s', id) < Measure(s, id)
  {
  }

  lemma MoveCall(r: Release, s: State, env: Env, call: Call)
    requires Execute(r, s, env, call).Committed?
    requires !call.CreateAndFund? && !call.SetPaused? && !call.AdvanceAcceptanceNonce?
    requires !call.ClaimWinnings? && !call.RefundPrincipal?
    ensures var s', id := Execute(r, s, env, call).state, call.challengeId;
            && id in s.challenges && id in s'.challenges
            && MovesLeft(s'.challenges[id].state) < MovesLeft(s.challenges[id].state)
  {
  }

  lemma PullProgress(r: Release, s: State, env: Env, call: Call)
    requires (call.ClaimWinnings? || call.RefundPrincipal?) && Local(r, s, call.challengeId)
    requires Execute(r, s, env, call).Committed?
    ensures Measure(Execute(r, s, env, call).state, call.challengeId) < Measure(s, call.challengeId)
  {
    hide ConsumeAndPay, Measure;
    var c := s.challenges[call.challengeId];
    assert c.terms.stakeAmount > 0;
    PaymentProgress(r, s, Execute(r, s, env, call).state, call.challengeId, env,
                    c.terms.stakeAmount * (if call.ClaimWinnings? then 2 else 1));
  }

  /** Every committed call on a challenge, save a nonce advance, uses up part of a budget that starts at 12. */
  lemma CommitsMakeProgress(r: Release, s: State, env: Env, call: Call)
    requires Inv(r, s) && Execute(r, s, env, call).Committed?
    requires !call.CreateAndFund? && !call.SetPaused? && !call.AdvanceAcceptanceNonce?
    ensures Measure(Execute(r, s, env, call).state, call.challengeId) < Measure(s, call.challengeId)
  {
    hide Execute, Measure, SlotOk;
    CommitNeedsChallenge(r, s, env, call);
    InvLocal(r, s, call.challengeId);
    if call.ClaimWinnings? || call.RefundPrincipal? {
      PullProgress(r, s, env, call);
    } else {
      MoveCall(r, s, env, call);
      MoveProgress(r, s, Execute(r, s, env, call).state, call.challengeId);
    }
  }
}
