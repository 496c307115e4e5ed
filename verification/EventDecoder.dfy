/** Which of the contract's own events the decoder reads back. */
module EventDecoder {
  import opened Wrappers
  import opened ProtocolTypes
  import opened Kernel
  import opened KernelInvariant
  import opened EventLayout

  /** No hash the contract computes comes out as zero. */
  ghost predicate NonzeroHashing(c: Cryptography) {
    && (forall x :: c.executionHash(x) != ZERO_HASH)
    && (forall a, b :: c.specHash(a, b) != ZERO_HASH)
    && (forall a :: c.challengeId(a) != ZERO_HASH)
    && (forall a, w :: c.entitlementId(a, w) != ZERO_HASH)
  }

  lemma CreateReplyPasses(r: Release, s: State, env: Env, x: Execution, termsHash: Bytes32, supplied: Bytes32)
    requires NonzeroHashing(r.crypto) && CreateReply(r, s, env, x, termsHash, supplied).Committed?
    ensures InWords(CreateReply(r, s, env, x, termsHash, supplied).event)
    ensures FieldsPass(CreateReply(r, s, env, x, termsHash, supplied).event) <==> termsHash != ZERO_HASH
  {
  }

  predicate EarlyStage(call: Call) {
    call.Accept? || call.AdvanceAcceptanceNonce? || call.CancelOpen? || call.ExpireOpen? || call.Propose?
    || call.DisputeOutcome?
  }

  lemma EarlyPasses(r: Release, s: State, env: Env, call: Call)
    requires EarlyStage(call) && Local(r, s, call.challengeId) && NonzeroHashing(r.crypto)
    requires env.sender != ZERO_ADDRESS && Execute(r, s, env, call).Committed?
    ensures FieldsPass(Execute(r, s, env, call).event)
  {
    hide MoneyOk, FinalOk;
    IdIsHash(r, s, call.challengeId);
  }

  lemma FinalizationPasses(r: Release, s: State, env: Env, id: Bytes32)
    requires Local(r, s, id) && NonzeroHashing(r.crypto)
    requires env.sender != ZERO_ADDRESS && FinalizeUncontestedReply(s, env, id).Committed?
    ensures FieldsPass(FinalizeUncontestedReply(s, env, id).event)
  {
    hide MoneyOk, FinalOk;
    IdIsHash(r, s, id);
  }

  lemma ArbitrationPasses(r: Release, s: State, env: Env, call: Call)
    requires call.Arbitrate? && Local(r, s, call.challengeId) && NonzeroHashing(r.crypto)
    requires env.sender != ZERO_ADDRESS && Execute(r, s, env, call).Committed?
    ensures FieldsPass(Execute(r, s, env, call).event)
  {
    hide MoneyOk, FinalOk;
    IdIsHash(r, s, call.challengeId);
  }

  lemma TimeoutPasses(r: Release, s: State, env: Env, call: Call)
    requires call.VoidUnproposed? || call.VoidUnarbitrated?
    requires Local(r, s, call.challengeId) && NonzeroHashing(r.crypto)
    requires env.sender != ZERO_ADDRESS && Execute(r, s, env, call).Committed?
    ensures FieldsPass(Execute(r, s, env, call).event)
  {
    hide MoneyOk, FinalOk;
    IdIsHash(r, s, call.challengeId);
  }

  lemma EndingPasses(r: Release, s: State, env: Env, call: Call)
    requires call.FinalizeUncontested? || call.Arbitrate? || call.VoidUnproposed? || call.VoidUnarbitrated?
    requires Local(r, s, call.challengeId) && NonzeroHashing(r.crypto)
    requires env.sender != ZERO_ADDRESS && Execute(r, s, env, call).Committed?
    ensures FieldsPass(Execute(r, s, env, call).event)
  {
    hide FinalizeUncontestedReply, ArbitrateReply, VoidUnproposedReply, VoidUnarbitratedReply, FieldsPass, Local;
    match call
    case FinalizeUncontested(id) => FinalizationPasses(r, s, env, id);
    case Arbitrate(_, _, _, _, _) => ArbitrationPasses(r, s, env, call);
    case _ => TimeoutPasses(r, s, env, call);
  }

  lemma PullPasses(r: Release, s: State, env: Env, call: Call)
    requires call.ClaimWinnings? || call.RefundPrincipal?
    requires Local(r, s, call.challengeId) && NonzeroHashing(r.crypto)
    requires env.sender != ZERO_ADDRESS && Execute(r, s, env, call).Committed?
    ensures FieldsPass(Execute(r, s, env, call).event)
  {
    hide MoneyOk, LifecycleOk, ConsumeAndPay;
    IdIsHash(r, s, call.challengeId);
  }

  lemma IdIsHash(r: Release, s: State, id: Bytes32)
    requires Local(r, s, id) && NonzeroHashing(r.crypto)
    ensures id != ZERO_HASH && 0 < s.challenges[id].terms.stakeAmount <= MAX_STAKE
  {
  }

  /** In a reachable state a call's event meets the decoder's demands on its parameters, unless the call creates a
      challenge with a zero terms hash. */
  lemma EventPasses(r: Release, s: State, env: Env, call: Call)
    requires Inv(r, s) && NonzeroHashing(r.crypto)
    requires env.sender != ZERO_ADDRESS && Execute(r, s, env, call).Committed?
    ensures InWords(Execute(r, s, env, call).event)
    ensures FieldsPass(Execute(r, s, env, call).event) <==> (call.CreateAndFund? ==> call.termsHash != ZERO_HASH)
  {
    hide Local, SlotOk, NonzeroHashing, FieldsPass, Inv, AcceptReply, AdvanceNonceReply, CancelReply, ExpireReply, InWords;
    hide ProposeReply, DisputeReply, FinalizeUncontestedReply, ArbitrateReply, VoidUnproposedReply, CreateReply;
    hide VoidUnarbitratedReply, ClaimReply, RefundReply;
    if call.CreateAndFund? {
      CreateReplyPasses(r, s, env, call.execution, call.termsHash, call.suppliedSpecHash);
    } else {
      if call.SetPaused? {
        PausePasses(r, s, env, call.newPaused);
      } else {
        CommitNeedsChallenge(r, s, env, call);
        InvLocal(r, s, call.challengeId);
        if EarlyStage(call) {
          EarlyPasses(r, s, env, call);
        } else if call.ClaimWinnings? || call.RefundPrincipal? {
          PullPasses(r, s, env, call);
        } else {
          EndingPasses(r, s, env, call);
        }
      }
      PassingInWords(Execute(r, s, env, call).event);
    }
  }

  lemma PausePasses(r: Release, s: State, env: Env, newPaused: bool)
    requires env.sender != ZERO_ADDRESS && SetPausedReply(r, s, env, newPaused).Committed?
    ensures FieldsPass(SetPausedReply(r, s, env, newPaused).event)
  {
  }

  /** What the decoder reads of the contract's own logs: all but pause changes and creations without terms. */
  predicate Legible(e: Event) {
    !e.PauseStatusChanged? && (e.ChallengeCreated? ==> e.terms.termsHash != ZERO_HASH)
  }

  lemma LegibleCalls(r: Release, s: State, env: Env, call: Call)
    requires Execute(r, s, env, call).Committed?
    ensures var e := Execute(r, s, env, call).event;
            && !e.ReleaseDeclared? && (e.PauseStatusChanged? <==> call.SetPaused?)
            && (Legible(e) <==> !call.SetPaused? && (call.CreateAndFund? ==> call.termsHash != ZERO_HASH))
  {
  }

  /** The log of a call made in a reachable state decodes to the event that was emitted, exactly when that event is
      legible; otherwise decoding fails. */
  lemma EventDecodes(r: Release, s: State, env: Env, call: Call)
    requires Inv(r, s) && NonzeroHashing(r.crypto)
    requires env.sender != ZERO_ADDRESS && Execute(r, s, env, call).Committed?
    ensures var e := Execute(r, s, env, call).event;
            InWords(e) && Decode(LogOf(r.self, e)) == if Legible(e) then Some(e) else None
  {
    hide Execute, Decode, LogOf, Legible, Inv, InWords, FieldsPass, NonzeroHashing;
    var e := Execute(r, s, env, call).event;
    EventPasses(r, s, env, call);
    LegibleCalls(r, s, env, call);
    DecodeUndoesEmission(r.self, e);
  }

  /** Of the logs a run leaves, the decoder reads each back as it was, except that it turns away exactly the pause
      changes and the creations with a zero terms hash. */
  lemma {:induction false} TraceDecodes(r: Release, s: State, ms: seq<Stimulus>, i: nat)
    requires Inv(r, s) && LegalRun(r, s, ms) && NonzeroHashing(r.crypto) && i < |Trace(r, s, ms)|
    ensures var e := Trace(r, s, ms)[i];
            InWords(e) && Decode(LogOf(r.self, e)) == if Legible(e) then Some(e) else None
  {
    hide Execute, Decode, LogOf, Legible, NonzeroHashing, Inv, InWords;
    var before, m := ms[..|ms| - 1], ms[|ms| - 1];
    if i < |Trace(r, s, before)| {
      TraceDecodes(r, s, before, i);
    } else {
      RunKeepsInv(r, s, before);
      EventDecodes(r, Run(r, s, before), m.env, m.call);
    }
  }

  /** The log of every possible deployment decodes to its release event, names and value mode included. */
  lemma ReleaseDecodes(r: Release, initialPaused: bool, tokenHasCode: bool)
    requires DeploymentError(r, tokenHasCode) == None && r.self != ZERO_ADDRESS && r.chainId > 0
    ensures var e := ReleaseEvent(r, initialPaused);
            InWords(e) && Decode(LogOf(r.self, e)) == Some(e)
  {
    hide Decode, LogOf;
    var e := ReleaseEvent(r, initialPaused);
    PassingInWords(e);
    DecodeUndoesEmission(r.self, e);
  }
}
