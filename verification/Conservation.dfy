/** Money over whole runs: what came in, what went out, what is still owed, and what can never happen. */
module Conservation {
  import opened Wrappers
  import opened ProtocolTypes
  import opened Kernel
  import opened KernelInvariant

  // ---------- Cash flows, read off the event log ----------

  function Inflow(e: Event): nat {
    match e
    case ChallengeCreated(_, terms, _) => terms.stakeAmount
    case ChallengeAccepted(_, _, _, _, _, stake) => stake
    case _ => 0
  }

  function Outflow(e: Event): nat {
    match e
    case WinningsClaimed(_, _, _, amount) => amount
    case PrincipalRefunded(_, _, _, _, amount) => amount
    case _ => 0
  }

  predicate IsPayout(e: Event, id: Bytes32, wallet: Address) {
    (e.WinningsClaimed? || e.PrincipalRefunded?) && e.challengeId == id && e.wallet == wallet
  }

  function Inflows(events: seq<Event>): nat {
    if events == [] then 0 else Inflows(events[..|events| - 1]) + Inflow(events[|events| - 1])
  }

  function Outflows(events: seq<Event>): nat {
    if events == [] then 0 else Outflows(events[..|events| - 1]) + Outflow(events[|events| - 1])
  }

  /** How often, and how much in all, a wallet was paid for a challenge. */
  function PayoutCount(events: seq<Event>, id: Bytes32, wallet: Address): nat {
    if events == [] then 0
    else
      PayoutCount(events[..|events| - 1], id, wallet) + if IsPayout(events[|events| - 1], id, wallet) then 1 else 0
  }

  function PayoutTotal(events: seq<Event>, id: Bytes32, wallet: Address): nat {
    if events == [] then 0
    else
      PayoutTotal(events[..|events| - 1], id, wallet)
      + if IsPayout(events[|events| - 1], id, wallet) then events[|events| - 1].amount else 0
  }

  function Donations(ms: seq<Stimulus>): nat {
    if ms == [] then 0
    else Donations(ms[..|ms| - 1]) + if ms[|ms| - 1].Donation? then ms[|ms| - 1].amount else 0
  }

  // ---------- One commit ----------

  /** Calls that leave an unaccepted or a freshly active challenge behind, or touch none. */
  predicate EarlyCall(call: Call) {
    call.CreateAndFund? || call.Accept? || call.AdvanceAcceptanceNonce? || call.CancelOpen? || call.ExpireOpen?
    || call.Propose? || call.DisputeOutcome? || call.SetPaused?
  }

  predicate MovesCash(s: State, s': State, e: Event) {
    && s'.escrowBalance + Outflow(e) == s.escrowBalance + Inflow(e)
    && s'.totalOutstandingLiability + Outflow(e) == s.totalOutstandingLiability + Inflow(e)
  }

  lemma EarlyCallMovesCash(r: Release, s: State, env: Env, call: Call)
    requires EarlyCall(call) && Execute(r, s, env, call).Committed?
    ensures MovesCash(s, Execute(r, s, env, call).state, Execute(r, s, env, call).event)
  {
  }

  lemma LateCallMovesCash(r: Release, s: State, env: Env, call: Call)
    requires !EarlyCall(call) && Execute(r, s, env, call).Committed?
    ensures MovesCash(s, Execute(r, s, env, call).state, Execute(r, s, env, call).event)
  {
    hide ConsumeAndPay;
    match call
    case ClaimWinnings(id) => ConsumeMovesCash(s, env, id, env.sender, ChallengeAt(s, id).terms.stakeAmount * 2);
    case RefundPrincipal(id) => ConsumeMovesCash(s, env, id, env.sender, ChallengeAt(s, id).terms.stakeAmount);
    case _ =>
  }

  lemma ConsumeMovesCash(s: State, env: Env, id: Bytes32, wallet: Address, amount: nat)
    requires ConsumeAndPay(s, env, id, wallet, amount).Ok?
    ensures var s' := ConsumeAndPay(s, env, id, wallet, amount).value;
            && s'.escrowBalance == s.escrowBalance - amount
            && s'.totalOutstandingLiability == s.totalOutstandingLiability - amount
  {
  }

  lemma CommitMovesCash(r: Release, s: State, env: Env, call: Call)
    requires Execute(r, s, env, call).Committed?
    ensures MovesCash(s, Execute(r, s, env, call).state, Execute(r, s, env, call).event)
  {
    hide Execute, MovesCash;
    if EarlyCall(call) {
      EarlyCallMovesCash(r, s, env, call);
    } else {
      LateCallMovesCash(r, s, env, call);
    }
  }

  lemma ConsumePays(s: State, env: Env, id: Bytes32, payee: Address, amount: nat, i: Bytes32, w: Address)
    requires ConsumeAndPay(s, env, id, payee, amount).Ok?
    ensures var s' := ConsumeAndPay(s, env, id, payee, amount).value;
            if (i, w) == (id, payee) then EntitlementAt(s, i, w).paidAmount == 0
                                          && EntitlementAt(s', i, w).paidAmount == amount
            else EntitlementAt(s', i, w).paidAmount == EntitlementAt(s, i, w).paidAmount
  {
  }

  lemma EarlyCallPaysNothing(r: Release, s: State, env: Env, call: Call, i: Bytes32, w: Address)
    requires EarlyCall(call) && Execute(r, s, env, call).Committed?
    ensures var Committed(s', e) := Execute(r, s, env, call);
            !IsPayout(e, i, w) && EntitlementAt(s', i, w).paidAmount == EntitlementAt(s, i, w).paidAmount
  {
  }

  lemma LateCallPays(r: Release, s: State, env: Env, call: Call, i: Bytes32, w: Address)
    requires !EarlyCall(call) && Execute(r, s, env, call).Committed?
    ensures var Committed(s', e) := Execute(r, s, env, call);
            if IsPayout(e, i, w) then
              EntitlementAt(s, i, w).paidAmount == 0 && EntitlementAt(s', i, w).paidAmount == e.amount
            else EntitlementAt(s', i, w).paidAmount == EntitlementAt(s, i, w).paidAmount
  {
    hide ConsumeAndPay;
    match call
    case ClaimWinnings(id) => ConsumePays(s, env, id, env.sender, ChallengeAt(s, id).terms.stakeAmount * 2, i, w);
    case RefundPrincipal(id) => ConsumePays(s, env, id, env.sender, ChallengeAt(s, id).terms.stakeAmount, i, w);
    case _ =>
  }

  /** A commit pays a wallet exactly when it emits that wallet's payout, and only a wallet not paid before. */
  lemma CommitPays(r: Release, s: State, env: Env, call: Call, i: Bytes32, w: Address)
    requires Execute(r, s, env, call).Committed?
    ensures var Committed(s', e) := Execute(r, s, env, call);
            if IsPayout(e, i, w) then
              EntitlementAt(s, i, w).paidAmount == 0 && EntitlementAt(s', i, w).paidAmount == e.amount
            else EntitlementAt(s', i, w).paidAmount == EntitlementAt(s, i, w).paidAmount
  {
    hide Execute;
    if EarlyCall(call) {
      EarlyCallPaysNothing(r, s, env, call, i, w);
    } else {
      LateCallPays(r, s, env, call, i, w);
    }
  }

  lemma PayoutIsPositive(r: Release, s: State, env: Env, call: Call, id: Bytes32, wallet: Address)
    requires Execute(r, s, env, call).Committed? && IsPayout(Execute(r, s, env, call).event, id, wallet)
    requires id in s.challenges ==> SlotOk(r, s, id)
    ensures Execute(r, s, env, call).event.amount > 0
  {
    hide ConsumeAndPay, MoneyOk, LifecycleOk;
  }

  // ---------- Whole runs ----------

  lemma AppendOne(events: seq<Event>, e: Event)
    ensures (events + [e])[..|events + [e]| - 1] == events
  {
  }

  /** The escrow's balance and its debt are exactly what the log and the donations say. */
  lemma {:induction false} CashConservation(r: Release, s: State, ms: seq<Stimulus>)
    ensures var s', log := Run(r, s, ms), Trace(r, s, ms);
            && s'.escrowBalance + Outflows(log) == s.escrowBalance + Donations(ms) + Inflows(log)
            && s'.totalOutstandingLiability + Outflows(log) == s.totalOutstandingLiability + Inflows(log)
  {
    if ms != [] {
      var before, m := ms[..|ms| - 1], ms[|ms| - 1];
      var mid := Run(r, s, before);
      CashConservation(r, s, before);
      if m.Transaction? && Execute(r, mid, m.env, m.call).Committed? {
        CommitMovesCash(r, mid, m.env, m.call);
        AppendOne(Trace(r, s, before), Execute(r, mid, m.env, m.call).event);
      } else {
        assert Trace(r, s, ms) == Trace(r, s, before);
      }
    }
  }

  /** A wallet's recorded payment is the sum of its payout events, and there is at most one. */
  lemma {:induction false} PaidExactlyOnce(r: Release, s: State, ms: seq<Stimulus>, id: Bytes32, wallet: Address)
    requires Inv(r, s) && LegalRun(r, s, ms) && EntitlementAt(s, id, wallet).paidAmount == 0
    ensures var paid, log := EntitlementAt(Run(r, s, ms), id, wallet).paidAmount, Trace(r, s, ms);
            && PayoutTotal(log, id, wallet) == paid
            && PayoutCount(log, id, wallet) == if paid == 0 then 0 else 1
  {
    hide EntitlementAt, Inv, Execute, LegalStimulus;
    if ms == [] {
      assert Trace(r, s, ms) == [] && Run(r, s, ms) == s;
    } else {
      var before, m := ms[..|ms| - 1], ms[|ms| - 1];
      var mid := Run(r, s, before);
      PaidExactlyOnce(r, s, before, id, wallet);
      hide PayoutTotal, PayoutCount;
      RunEndsWith(r, s, ms);
      if m.Transaction? && Execute(r, mid, m.env, m.call).Committed? {
        PayStep(r, s, before, m.env, m.call, id, wallet);
      } else {
        IdlePaysNothing(r, mid, m, id, wallet);
      }
    }
  }

  /** What the last step of a run adds to it. */
  lemma RunEndsWith(r: Release, s: State, ms: seq<Stimulus>)
    requires ms != []
    ensures var before, m := ms[..|ms| - 1], ms[|ms| - 1];
            var mid := Run(r, s, before);
            && Run(r, s, ms) == Next(r, mid, m)
            && if m.Transaction? && Execute(r, mid, m.env, m.call).Committed? then
                 Trace(r, s, ms) == Trace(r, s, before) + [Execute(r, mid, m.env, m.call).event]
               else
                 Trace(r, s, ms) == Trace(r, s, before)
  {
    hide Execute;
  }

  lemma IdlePaysNothing(r: Release, s: State, m: Stimulus, id: Bytes32, wallet: Address)
    requires m.Transaction? ==> Execute(r, s, m.env, m.call).Reverted?
    ensures EntitlementAt(Next(r, s, m), id, wallet) == EntitlementAt(s, id, wallet)
  {
    hide Execute;
  }

  lemma PayStep(r: Release, s: State, before: seq<Stimulus>, env: Env, call: Call, id: Bytes32, wallet: Address)
    requires Inv(r, s) && LegalRun(r, s, before)
    requires var mid := Run(r, s, before); Execute(r, mid, env, call).Committed?
    ensures var mid, log := Run(r, s, before), Trace(r, s, before);
            var Committed(s', e) := Execute(r, mid, env, call);
            && EntitlementAt(s', id, wallet).paidAmount + PayoutTotal(log, id, wallet)
               == EntitlementAt(mid, id, wallet).paidAmount + PayoutTotal(log + [e], id, wallet)
            && (IsPayout(e, id, wallet) ==> e.amount > 0 && EntitlementAt(mid, id, wallet).paidAmount == 0
                                            && EntitlementAt(s', id, wallet).paidAmount == e.amount)
            && PayoutCount(log + [e], id, wallet)
               == PayoutCount(log, id, wallet) + if IsPayout(e, id, wallet) then 1 else 0
  {
    hide Execute, SlotOk, Run, Trace, EntitlementAt;
    var mid, log := Run(r, s, before), Trace(r, s, before);
    var e := Execute(r, mid, env, call).event;
    RunKeepsInv(r, s, before);
    CommitPays(r, mid, env, call, id, wallet);
    AppendOne(log, e);
    if IsPayout(e, id, wallet) {
      assert id in mid.challenges ==> SlotOk(r, mid, id);
      PayoutIsPositive(r, mid, env, call, id, wallet);
    }
  }

  /** The balance sheet of one challenge in any reachable state. */
  ghost predicate Balanced(s: State, id: Bytes32)
    requires id in s.challenges
  {
    var c := s.challenges[id];
    var challengers, acceptors := EntitlementAt(s, id, c.terms.challengerWallet), EntitlementAt(s, id, c.acceptingWallet);
    && c.depositedAmount == c.outstandingLiability + challengers.paidAmount + acceptors.paidAmount
    && c.depositedAmount == c.terms.stakeAmount * (if c.acceptingWallet == ZERO_ADDRESS then 1 else 2)
    && challengers.claimableAmount + challengers.paidAmount + acceptors.claimableAmount + acceptors.paidAmount
       == if Terminal(c.state) then c.depositedAmount else 0
  }

  lemma SlotBalanced(r: Release, s: State, id: Bytes32)
    requires id in s.challenges && SlotOk(r, s, id)
    ensures Balanced(s, id)
  {
  }

  /** After every run from deployment: every challenge balances, the aggregate is their sum, the escrow covers it. */
  lemma RunConserves(r: Release, initialPaused: bool, balance: nat, now: nat, ms: seq<Stimulus>)
    requires balance <= MAX_UINT256
    requires LegalRun(r, DeployedState(initialPaused, balance, now), ms)
    ensures var s := Run(r, DeployedState(initialPaused, balance, now), ms);
            && (forall id :: id in s.challenges ==> Balanced(s, id))
            && s.totalOutstandingLiability == TotalLiability(s.challenges)
            && s.totalOutstandingLiability <= s.escrowBalance
  {
    var s0 := DeployedState(initialPaused, balance, now);
    DeployedInv(r, initialPaused, balance, now);
    RunKeepsInv(r, s0, ms);
    var s := Run(r, s0, ms);
    forall id | id in s.challenges
      ensures Balanced(s, id)
    {
      SlotBalanced(r, s, id);
    }
  }

  // ---------- Guards that never fire ----------

  predicate AccountingError(e: Error) {
    e in {LiabilityAccountingMismatch, EscrowInsolvent, ArithmeticPanic}
  }

  lemma ConsumeNeverMisaccounts(r: Release, s: State, env: Env, id: Bytes32, wallet: Address, amount: nat)
    requires Local(r, s, id) && Terminal(s.challenges[id].state)
    requires ConsumeAndPay(s, env, id, wallet, amount).Err?
    ensures !AccountingError(ConsumeAndPay(s, env, id, wallet, amount).error)
  {
    var e := EntitlementAt(s, id, wallet);
    if e.present && e.claimableAmount == amount && e.paidAmount == 0 {
      assert EntitlementKey(id, wallet) in s.entitlements;
    }
  }

  lemma FinalizationNeverPanics(r: Release, s: State, env: Env, id: Bytes32, call: Call)
    requires Local(r, s, id)
    requires call in {FinalizeUncontested(id), VoidUnproposed(id), VoidUnarbitrated(id)} || call.Arbitrate?
    requires call.challengeId == id && Execute(r, s, env, call).Reverted?
    ensures !AccountingError(Execute(r, s, env, call).error)
  {
    assert s.challenges[id].terms.stakeAmount <= MAX_STAKE;
  }

  lemma FundingNeverPanics(r: Release, s: State, env: Env, call: Call)
    requires call.CreateAndFund? || (call.Accept? && Local(r, s, call.challengeId))
    requires s.totalOutstandingLiability <= s.escrowBalance
    requires Execute(r, s, env, call).Reverted?
    ensures !AccountingError(Execute(r, s, env, call).error)
  {
  }

  lemma PullsNeverMisaccount(r: Release, s: State, env: Env, id: Bytes32, call: Call)
    requires Local(r, s, id) && call in {ClaimWinnings(id), RefundPrincipal(id)}
    requires Execute(r, s, env, call).Reverted?
    ensures !AccountingError(Execute(r, s, env, call).error)
  {
    hide ConsumeAndPay;
    var c := s.challenges[id];
    var amount := if call.ClaimWinnings? then c.terms.stakeAmount * 2 else c.terms.stakeAmount;
    assert c.terms.stakeAmount <= MAX_STAKE;
    if Terminal(c.state) && ConsumeAndPay(s, env, id, env.sender, amount).Err? {
      ConsumeNeverMisaccounts(r, s, env, id, env.sender, amount);
    }
  }

  lemma DeadlinesNeverPanic(r: Release, s: State, env: Env, id: Bytes32, call: Call)
    requires Local(r, s, id) && (call.Propose? || call.DisputeOutcome?) && call.challengeId == id
    requires Execute(r, s, env, call).Reverted?
    ensures !AccountingError(Execute(r, s, env, call).error)
  {
  }

  lemma NonceOverflow(r: Release, s: State, env: Env, id: Bytes32)
    requires Local(r, s, id) && AdvanceNonceReply(s, env, id) == Reverted(ArithmeticPanic)
    ensures ChallengeAt(s, id).acceptanceNonce == MAX_UINT256
  {
  }

  lemma UnknownIsNotAnAccountingError(r: Release, s: State, env: Env, call: Call)
    requires !call.CreateAndFund? && !call.SetPaused?
    requires Execute(r, s, env, call).Reverted? && AccountingError(Execute(r, s, env, call).error)
    ensures call.challengeId in s.challenges
  {
  }

  /** In a reachable state no call is refused for misaccounting, insolvency or overflow, save a nonce that has
      been advanced 2^256 - 1 times. */
  lemma NoAccountingErrors(r: Release, s: State, env: Env, call: Call)
    requires Inv(r, s) && Execute(r, s, env, call).Reverted?
    requires AccountingError(Execute(r, s, env, call).error)
    ensures call.AdvanceAcceptanceNonce? && ChallengeAt(s, call.challengeId).acceptanceNonce == MAX_UINT256
  {
    hide CreateReply, AcceptReply, ProposeReply, DisputeReply, FinalizeUncontestedReply, ArbitrateReply;
    hide VoidUnproposedReply, VoidUnarbitratedReply, ClaimReply, RefundReply, SlotOk;
    if call.CreateAndFund? {
      FundingNeverPanics(r, s, env, call);
    } else if !call.SetPaused? {
      var id := call.challengeId;
      UnknownIsNotAnAccountingError(r, s, env, call);
      InvLocal(r, s, id);
      hide Inv, Local;
      match call
      case Accept(_, _, _) => FundingNeverPanics(r, s, env, call);
      case Propose(_, _, _, _) => DeadlinesNeverPanic(r, s, env, id, call);
      case DisputeOutcome(_, _, _, _, _) => DeadlinesNeverPanic(r, s, env, id, call);
      case ClaimWinnings(_) => PullsNeverMisaccount(r, s, env, id, call);
      case RefundPrincipal(_) => PullsNeverMisaccount(r, s, env, id, call);
      case AdvanceAcceptanceNonce(_) => NonceOverflow(r, s, env, id);
      case CancelOpen(_) =>
      case ExpireOpen(_) =>
      case _ => FinalizationNeverPanics(r, s, env, id, call);
    }
  }

  // ---------- What a run never rewrites ----------

  /** A later record of a challenge: same terms, at most one move, and a terminal record only loses liability. */
  predicate SucceedingRecord(c: Challenge, c': Challenge) {
    && c'.terms == c.terms && c'.openedAt == c.openedAt
    && (c'.state == c.state || LifecycleMove(c.state, c'.state))
    && (Terminal(c.state) ==>
          c'.outstandingLiability <= c.outstandingLiability
          && c' == c.(outstandingLiability := c'.outstandingLiability))
  }

  lemma EarlyCallSucceeds(r: Release, s: State, env: Env, call: Call, id: Bytes32)
    requires EarlyCall(call) && Execute(r, s, env, call).Committed? && id in s.challenges && s.challenges[id].present
    ensures var s' := Execute(r, s, env, call).state;
            id in s'.challenges && SucceedingRecord(s.challenges[id], s'.challenges[id])
  {
  }

  lemma EndingSucceeds(r: Release, s: State, env: Env, call: Call, id: Bytes32)
    requires !EarlyCall(call) && !call.ClaimWinnings? && !call.RefundPrincipal?
    requires Execute(r, s, env, call).Committed? && id in s.challenges && s.challenges[id].present
    ensures var s' := Execute(r, s, env, call).state;
            id in s'.challenges && SucceedingRecord(s.challenges[id], s'.challenges[id])
  {
  }

  lemma PullSucceeds(r: Release, s: State, env: Env, call: Call, id: Bytes32)
    requires call.ClaimWinnings? || call.RefundPrincipal?
    requires Execute(r, s, env, call).Committed? && id in s.challenges
    ensures var s' := Execute(r, s, env, call).state;
            id in s'.challenges && SucceedingRecord(s.challenges[id], s'.challenges[id])
  {
    hide ConsumeAndPay, SucceedingRecord;
    var stake := ChallengeAt(s, call.challengeId).terms.stakeAmount;
    ConsumeSucceeding(s, env, call.challengeId, env.sender, if call.ClaimWinnings? then stake * 2 else stake, id);
  }

  lemma ConsumeSucceeding(s: State, env: Env, id: Bytes32, wallet: Address, amount: nat, other: Bytes32)
    requires ConsumeAndPay(s, env, id, wallet, amount).Ok? && other in s.challenges
    ensures var s' := ConsumeAndPay(s, env, id, wallet, amount).value;
            other in s'.challenges && SucceedingRecord(s.challenges[other], s'.challenges[other])
  {
  }

  /** Whatever call commits, every challenge's record is followed by one the protocol allows. */
  lemma CommitSucceeds(r: Release, s: State, env: Env, call: Call, id: Bytes32)
    requires Execute(r, s, env, call).Committed? && id in s.challenges && s.challenges[id].present
    ensures var s' := Execute(r, s, env, call).state;
            id in s'.challenges && SucceedingRecord(s.challenges[id], s'.challenges[id])
  {
    hide Execute, SucceedingRecord;
    if EarlyCall(call) {
      EarlyCallSucceeds(r, s, env, call, id);
    } else if call.ClaimWinnings? || call.RefundPrincipal? {
      PullSucceeds(r, s, env, call, id);
    } else {
      EndingSucceeds(r, s, env, call, id);
    }
  }

  /** Once terminal, a record keeps every field but its liability, whatever happens later. */
  lemma {:induction false} TerminalIsFinal(r: Release, s: State, ms: seq<Stimulus>, id: Bytes32)
    requires Inv(r, s) && LegalRun(r, s, ms)
    requires id in s.challenges && Terminal(s.challenges[id].state)
    ensures var s' := Run(r, s, ms);
            && id in s'.challenges
            && s'.challenges[id].outstandingLiability <= s.challenges[id].outstandingLiability
            && s'.challenges[id]
               == s.challenges[id].(outstandingLiability := s'.challenges[id].outstandingLiability)
  {
    if ms != [] {
      var before, m := ms[..|ms| - 1], ms[|ms| - 1];
      TerminalIsFinal(r, s, before, id);
      var mid := Run(r, s, before);
      RunKeepsInv(r, s, before);
      assert SlotOk(r, mid, id);
      if m.Transaction? && Execute(r, mid, m.env, m.call).Committed? {
        CommitSucceeds(r, mid, m.env, m.call, id);
      }
    }
  }
}
