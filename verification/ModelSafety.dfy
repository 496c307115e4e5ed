/** The abstract model keeps its own invariants on every run whose stakes are multiples of some 2^-k and whose open
    liability stays within 2^53 such units, and only there: beyond it the running total and the recomputed one are
    rounded differently. */
module ModelSafety {
  import opened Wrappers
  import opened JsNumber
  import opened ProtocolTypes
  import opened ModelSteps

  // ---------- One challenge ----------

  predicate ClaimableOrPaid(e: Balance, amount: nat) {
    e == Balance(amount, 0) || e == Balance(0, amount)
  }

  predicate Untouched(c: ModelChallenge) {
    c.paidChallenger == c.paidAcceptor == 0 && c.deposited == c.outstanding
  }

  predicate UnacceptedOk(c: ModelChallenge) {
    && c.acceptor == None && c.proposal == None && c.dispute == None && c.final == None
    && c.deposited == c.stake
    && c.entitlements.Keys == {c.challenger}
    && var e := c.entitlements[c.challenger];
    if c.state == Open then Untouched(c) && e == Balance(0, 0)
    else
      && ClaimableOrPaid(e, c.stake) && c.outstanding == e.claimable && c.paidChallenger == e.paid && c.paidAcceptor == 0
  }

  predicate AcceptedOk(c: ModelChallenge) {
    && c.acceptor.Some? && c.acceptor.value != c.challenger
    && c.deposited == c.stake * 2 <= MAX_EXACT
    && c.entitlements.Keys == {c.challenger, c.acceptor.value}
    && var e, f := c.entitlements[c.challenger], c.entitlements[c.acceptor.value];
    && c.outstanding == (if c.final == None then c.stake * 2 else e.claimable + f.claimable)
    && c.paidChallenger == e.paid && c.paidAcceptor == f.paid
    && match c.state
       case Active => c.proposal == None && c.final == None && e == f == Balance(0, 0)
       case Proposed => c.proposal.Some? && c.final == None && e == f == Balance(0, 0)
       case Disputed => c.proposal.Some? && c.dispute.Some? && c.final == None && e == f == Balance(0, 0)
       case Void => c.final.Some? && ClaimableOrPaid(e, c.stake) && ClaimableOrPaid(f, c.stake)
       case ResolvedA | ResolvedB =>
         && c.final.Some? && c.final.value.outcome == (if c.state == ResolvedA then OutcomeA else OutcomeB)
         && if Winner(c, c.final.value.outcome) == Some(c.challenger) then
              ClaimableOrPaid(e, c.stake * 2) && f == Balance(0, 0)
            else ClaimableOrPaid(f, c.stake * 2) && e == Balance(0, 0)
       case _ => true
  }

  predicate ChallengeOk(c: ModelChallenge) {
    && 0 < c.stake <= MAX_EXACT
    && if c.state in {Open, Cancelled, Expired} then UnacceptedOk(c) else AcceptedOk(c)
  }

  lemma SmallSums(a: nat, b: nat)
    requires a + b <= MAX_EXACT
    ensures Plus(a, b) == a + b
  {
    ExactRange(a + b);
  }

  lemma SmallDifference(a: nat, b: nat)
    requires b <= a <= MAX_EXACT
    ensures Minus(a, b) == a - b
  {
    ExactRange(a - b);
  }

  /** A challenge in order violates nothing assertInvariants looks at. */
  lemma OkMeansNoViolation(c: ModelChallenge)
    requires ChallengeOk(c)
    ensures ChallengeViolation(c) == None
  {
    hide Plus;
    SmallSums(c.outstanding, c.paidChallenger);
    SmallSums(c.outstanding + c.paidChallenger, c.paidAcceptor);
    var winner := if c.state in {ResolvedA, ResolvedB} then Winner(c, c.final.value.outcome) else Some(c.challenger);
    var e := c.entitlements[winner.value];
    SmallSums(e.claimable, e.paid);
    if c.state == Void {
      SmallSums(c.entitlements[c.acceptor.value].claimable, c.entitlements[c.acceptor.value].paid);
    }
  }

  // ---------- The whole model ----------

  predicate Unique(order: seq<Bytes32>) {
    forall i, j :: 0 <= i < j < |order| ==> order[i] != order[j]
  }

  /** The liabilities added up without rounding. */
  function Sum(challenges: map<Bytes32, ModelChallenge>, order: seq<Bytes32>): nat {
    if order == [] then 0
    else
      var id := order[|order| - 1];
      Sum(challenges, order[..|order| - 1]) + if id in challenges then challenges[id].outstanding else 0
  }

  function TrueLiability(m: Model): nat {
    Sum(m.challenges, m.order)
  }

  ghost predicate ModelOk(m: Model) {
    && Unique(m.order)
    && (forall id :: id in m.order <==> id in m.challenges)
    && (forall id :: id in m.challenges ==> ChallengeOk(m.challenges[id]))
    && m.totalOutstandingLiability == TrueLiability(m) <= MAX_EXACT
  }

  lemma {:induction false} SumAfterPut(challenges: map<Bytes32, ModelChallenge>, order: seq<Bytes32>, id: Bytes32,
                                       c: ModelChallenge)
    requires Unique(order) && id in challenges
    ensures Sum(challenges[id := c], order)
            == Sum(challenges, order) + if id in order then c.outstanding - challenges[id].outstanding else 0
    ensures id in order ==> challenges[id].outstanding <= Sum(challenges, order)
  {
    if order != [] {
      var n := |order| - 1;
      SumAfterPut(challenges, order[..n], id, c);
      assert order == order[..n] + [order[n]];
    }
  }

  lemma {:induction false} SumAfterInsert(challenges: map<Bytes32, ModelChallenge>, order: seq<Bytes32>, id: Bytes32,
                                          c: ModelChallenge)
    requires id !in order
    ensures Sum(challenges[id := c], order) == Sum(challenges, order)
  {
    if order != [] {
      SumAfterInsert(challenges, order[..|order| - 1], id, c);
    }
  }

  /** Within 2^53 the rounded aggregate is the exact one. */
  lemma {:induction false} AggregateExact(m: Model, order: seq<Bytes32>)
    requires Sum(m.challenges, order) <= MAX_EXACT
    ensures Aggregate(m, order) == Sum(m.challenges, order)
  {
    if order != [] {
      var id := order[|order| - 1];
      AggregateExact(m, order[..|order| - 1]);
      SmallSums(Sum(m.challenges, order[..|order| - 1]), if id in m.challenges then m.challenges[id].outstanding else 0);
    }
  }

  lemma {:induction false} NoFirstViolation(m: Model, order: seq<Bytes32>)
    requires forall id :: id in m.challenges ==> ChallengeOk(m.challenges[id])
    ensures FirstViolation(m, order) == None
  {
    if order != [] {
      var id := order[|order| - 1];
      NoFirstViolation(m, order[..|order| - 1]);
      if id in m.challenges {
        OkMeansNoViolation(m.challenges[id]);
      }
    }
  }

  // ---------- What the check finds ----------

  /** The wallet is listed, with this much claimable and paid together. */
  predicate HasShare(c: ModelChallenge, wallet: Option<Address>, amount: nat) {
    && wallet.Some? && wallet.value in c.entitlements
    && c.entitlements[wallet.value].claimable + c.entitlements[wallet.value].paid == amount
  }

  /** What is owed and was paid makes up the deposit; the winner's share is both stakes, and after a void each
      participant's is one. */
  predicate Accounted(c: ModelChallenge) {
    && c.deposited == c.outstanding + c.paidChallenger + c.paidAcceptor
    && (c.state in {ResolvedA, ResolvedB} ==> c.final.Some? && HasShare(c, Winner(c, c.final.value.outcome), 2 * c.stake))
    && (c.state == Void ==>
          c.final.Some? && c.acceptor.Some? && HasShare(c, Some(c.challenger), c.stake) && HasShare(c, c.acceptor, c.stake))
  }

  predicate Exact(c: ModelChallenge) {
    && c.outstanding + c.paidChallenger + c.paidAcceptor <= MAX_EXACT
    && forall w :: w in c.entitlements ==> c.entitlements[w].claimable + c.entitlements[w].paid <= MAX_EXACT
  }

  lemma ChallengeViolatedExactly(c: ModelChallenge)
    requires Exact(c)
    ensures ChallengeViolation(c) == None <==> Accounted(c)
  {
    SmallSums(c.outstanding, c.paidChallenger);
    SmallSums(c.outstanding + c.paidChallenger, c.paidAcceptor);
    forall w | w in c.entitlements
      ensures Plus(c.entitlements[w].claimable, c.entitlements[w].paid)
           == c.entitlements[w].claimable + c.entitlements[w].paid
    {
      SmallSums(c.entitlements[w].claimable, c.entitlements[w].paid);
    }
    hide Plus, Winner;
  }

  lemma {:induction false} FirstViolatedExactly(m: Model, order: seq<Bytes32>)
    requires forall id :: id in m.challenges ==> Exact(m.challenges[id])
    ensures FirstViolation(m, order) == None
       <==> forall id :: id in order && id in m.challenges ==> Accounted(m.challenges[id])
  {
    hide ChallengeViolation, Accounted, Exact;
    if order != [] {
      var n := |order| - 1;
      FirstViolatedExactly(m, order[..n]);
      assert order == order[..n] + [order[n]];
      if order[n] in m.challenges {
        ChallengeViolatedExactly(m.challenges[order[n]]);
      }
    }
  }

  /** Where no sum is rounded, the check passes exactly the models whose every listed challenge is accounted for and whose
      total is the sum of what is owed. */
  lemma ViolatedExactly(m: Model)
    requires forall id :: id in m.challenges ==> Exact(m.challenges[id])
    requires TrueLiability(m) <= MAX_EXACT
    ensures Violated(m) == None
       <==> && (forall id :: id in m.order && id in m.challenges ==> Accounted(m.challenges[id]))
            && m.totalOutstandingLiability == TrueLiability(m)
  {
    hide Accounted, Exact, FirstViolation;
    FirstViolatedExactly(m, m.order);
    AggregateExact(m, m.order);
  }

  lemma OkModelIsNotViolated(m: Model)
    requires ModelOk(m)
    ensures Violated(m) == None
  {
    hide ChallengeOk;
    NoFirstViolation(m, m.order);
    AggregateExact(m, m.order);
  }

  // ---------- One action ----------

  /** An accepted action on challenge id: the challenge stays in order and the total follows it. */
  ghost predicate Moves(m: Model, m': Model, id: Bytes32) {
    && id in m.challenges && id in m'.challenges
    && m' == m.(challenges := m.challenges[id := m'.challenges[id]],
                totalOutstandingLiability := m'.totalOutstandingLiability)
    && ChallengeOk(m'.challenges[id])
  }

  /** The running total follows the challenge's liability: plainly, or by one rounded sum or difference. */
  predicate TotalFollows(m: Model, m': Model, id: Bytes32)
    requires id in m.challenges && id in m'.challenges
  {
    var before, after := m.challenges[id].outstanding, m'.challenges[id].outstanding;
    m'.totalOutstandingLiability ==
      if after > before then Plus(m.totalOutstandingLiability, after - before)
      else if after < before && before - after <= m.totalOutstandingLiability then
        Minus(m.totalOutstandingLiability, before - after)
      else m.totalOutstandingLiability
  }

  /** How a step on a challenge in order may come out: it moves the challenge, or is refused. */
  ghost predicate StepFine(m: Model, result: StepResult, id: Bytes32) {
    match result
    case Rejected(_) => true
    case Crashed(_) => false
    case Stepped(m') => Moves(m, m', id) && TotalFollows(m, m', id)
  }

  /** Doubling a stake is exact, whatever its size. */
  lemma DoubleStake(stake: nat)
    requires stake <= MAX_EXACT
    ensures Plus(stake, stake) == 2 * stake
  {
    ExactRange(stake);
    RoundingIgnoresUnit(stake);
  }

  /** An acceptance leaves no more than 2^53 units open on its challenge. */
  ghost predicate AcceptanceFits(roles: Roles, m: Model, a: Action) {
    a.Accept? && AcceptStep(roles, m, a).Stepped? ==>
      a.id in m.challenges && Plus(m.challenges[a.id].outstanding, m.challenges[a.id].stake) <= MAX_EXACT
  }

  lemma AcceptFine(roles: Roles, m: Model, a: Action)
    requires a.Accept? && (a.id in m.challenges ==> ChallengeOk(m.challenges[a.id])) && AcceptanceFits(roles, m, a)
    ensures StepFine(m, AcceptStep(roles, m, a), a.id)
  {
    hide Plus;
    if a.id in m.challenges {
      DoubleStake(m.challenges[a.id].stake);
    }
  }

  /** An acceptance within the bound fits. */
  lemma WithinMeansFits(roles: Roles, m: Model, a: Action)
    requires ModelOk(m) && a.Accept? && AcceptStep(roles, m, a).Stepped?
    requires TrueLiability(AcceptStep(roles, m, a).model) <= MAX_EXACT
    ensures AcceptanceFits(roles, m, a)
  {
    hide ChallengeOk, Plus;
    var m' := AcceptStep(roles, m, a).model;
    SumAfterPut(m'.challenges, m'.order, a.id, m'.challenges[a.id]);
  }

  lemma OpenFine(m: Model, a: Action)
    requires a.AdvanceNonce? || a.Cancel? || a.Expire?
    requires a.id in m.challenges ==> ChallengeOk(m.challenges[a.id])
    ensures StepFine(m, OpenStep(m, a), a.id)
  {
    hide Plus;
  }

  lemma ArgueFine(roles: Roles, m: Model, a: Action)
    requires (a.Propose? || a.Dispute?) && (a.id in m.challenges ==> ChallengeOk(m.challenges[a.id]))
    ensures StepFine(m, Step(roles, m, a), a.id)
  {
    hide Plus;
  }

  lemma SetFinalFine(c: ModelChallenge, outcome: Outcome, evidence: Option<Bytes32>)
    requires ChallengeOk(c) && c.state in {Active, Proposed, Disputed}
    ensures SetFinal(c, outcome, evidence).Done?
    ensures ChallengeOk(SetFinal(c, outcome, evidence).challenge)
    ensures SetFinal(c, outcome, evidence).challenge.outstanding == c.outstanding
  {
  }

  lemma EndFine(roles: Roles, m: Model, a: Action)
    requires a.Finalize? || a.Arbitrate? || a.VoidUnproposed? || a.VoidUnarbitrated?
    requires a.id in m.challenges ==> ChallengeOk(m.challenges[a.id])
    ensures StepFine(m, EndStep(roles, m, a), a.id)
  {
    hide Plus, SetFinal;
    if a.id in m.challenges {
      var c := m.challenges[a.id];
      if c.state in {Active, Proposed, Disputed} {
        SetFinalFine(c, OutcomeVoid, None);
        if a.Finalize? && c.proposal.Some? {
          SetFinalFine(c, c.proposal.value.outcome, Some(c.proposal.value.evidenceHash));
        }
        if a.Arbitrate? && a.outcome.Some? {
          SetFinalFine(c, a.outcome.value, Some(a.evidenceHash));
        }
      }
    }
  }

  lemma PullFine(m: Model, a: Action)
    requires (a.Claim? || a.Refund?) && (a.id in m.challenges ==> ChallengeOk(m.challenges[a.id]))
    ensures StepFine(m, PullStep(m, a), a.id)
  {
    hide Plus, Minus;
    if a.id in m.challenges {
      var c := m.challenges[a.id];
      var amount := if a.Claim? then c.stake * 2 else c.stake;
      if amount <= MAX_EXACT {
        SmallSums(0, amount);
      }
      if c.outstanding >= amount {
        SmallDifference(c.outstanding, amount);
      }
    }
  }

  // ---------- Any action ----------

  predicate OnOne(a: Action) {
    !a.Warp? && !a.Unknown? && !a.Pause? && !a.Create?
  }

  lemma AnyStepFine(roles: Roles, m: Model, a: Action)
    requires OnOne(a) && (a.id in m.challenges ==> ChallengeOk(m.challenges[a.id])) && AcceptanceFits(roles, m, a)
    ensures StepFine(m, Step(roles, m, a), a.id)
  {
    hide StepFine, ChallengeOk, AcceptanceFits, OpenStep, AcceptStep, ProposeStep, DisputeStep, EndStep, PullStep;
    match a
    case AdvanceNonce(_, _, _) => OpenFine(m, a);
    case Cancel(_, _, _) => OpenFine(m, a);
    case Expire(_, _) => OpenFine(m, a);
    case Accept(_, _, _, _, _, _, _) => AcceptFine(roles, m, a);
    case Propose(_, _, _, _, _, _) => ArgueFine(roles, m, a);
    case Dispute(_, _, _, _, _, _) => ArgueFine(roles, m, a);
    case Finalize(_, _) => EndFine(roles, m, a);
    case Arbitrate(_, _, _, _, _, _) => EndFine(roles, m, a);
    case VoidUnproposed(_, _) => EndFine(roles, m, a);
    case VoidUnarbitrated(_, _) => EndFine(roles, m, a);
    case Claim(_, _) => PullFine(m, a);
    case Refund(_, _) => PullFine(m, a);
  }

  lemma MoveKeepsOk(m: Model, m': Model, id: Bytes32)
    requires ModelOk(m) && Moves(m, m', id) && TotalFollows(m, m', id) && TrueLiability(m') <= MAX_EXACT
    ensures ModelOk(m')
  {
    hide ChallengeOk, Plus, Minus;
    var before, after := m.challenges[id].outstanding, m'.challenges[id].outstanding;
    SumAfterPut(m.challenges, m.order, id, m'.challenges[id]);
    if after > before {
      SmallSums(m.totalOutstandingLiability, after - before);
    } else if after < before {
      SmallDifference(m.totalOutstandingLiability, before - after);
    }
  }

  lemma CreateKeepsOk(roles: Roles, m: Model, a: Action)
    requires ModelOk(m) && a.Create? && CreateStep(roles, m, a).Stepped?
    requires TrueLiability(CreateStep(roles, m, a).model) <= MAX_EXACT
    ensures ModelOk(CreateStep(roles, m, a).model)
  {
    hide Plus;
    var m' := CreateStep(roles, m, a).model;
    assert m'.order[..|m.order|] == m.order;
    SumAfterInsert(m.challenges, m.order, a.id, m'.challenges[a.id]);
    SmallSums(m.totalOutstandingLiability, a.stake);
  }

  /** The state an action would leave if nothing stopped it. */
  function Target(roles: Roles, m: Model, a: Action): Model {
    match Step(roles, m, a)
    case Stepped(m') => m'
    case Crashed(m') => m'
    case Rejected(_) => m
  }

  /** From a model in order, an action whose true liability fits 2^53 units is accepted or refused, never thrown out, and
      leaves a model in order; a refusal changes nothing. */
  lemma ApplyIsSafe(roles: Roles, m: Model, a: Action)
    requires ModelOk(m) && TrueLiability(Target(roles, m, a)) <= MAX_EXACT
    ensures var (outcome, m') := Apply(roles, m, a);
            && !outcome.Threw? && ModelOk(m') && m' == Target(roles, m, a)
            && (outcome.Refused? ==> m' == m)
  {
    hide OpenStep, AcceptStep, ProposeStep, DisputeStep, EndStep, PullStep, ChallengeOk, CreateStep, Violated;
    hide TotalFollows, TrueLiability, SameSnapshot;
    if OnOne(a) {
      if a.Accept? && AcceptStep(roles, m, a).Stepped? {
        WithinMeansFits(roles, m, a);
      }
      AnyStepFine(roles, m, a);
      if Step(roles, m, a).Stepped? {
        MoveKeepsOk(m, Step(roles, m, a).model, a.id);
        OkModelIsNotViolated(Step(roles, m, a).model);
      }
    } else if a.Create? {
      CreateIsClean(roles, m, a);
      if CreateStep(roles, m, a).Stepped? {
        CreateKeepsOk(roles, m, a);
        OkModelIsNotViolated(CreateStep(roles, m, a).model);
      }
    } else {
      PauseKeepsOk(m, a);
      OkModelIsNotViolated(Target(roles, m, a));
    }
  }

  lemma CreateIsClean(roles: Roles, m: Model, a: Action)
    requires a.Create?
    ensures !CreateStep(roles, m, a).Crashed?
  {
  }

  lemma PauseKeepsOk(m: Model, a: Action)
    requires ModelOk(m)
    ensures forall p :: ModelOk(m.(paused := p))
  {
    hide ChallengeOk;
    forall p: bool
      ensures ModelOk(m.(paused := p))
    {
      assert TrueLiability(m.(paused := p)) == TrueLiability(m);
    }
  }

  // ---------- Whole runs ----------

  /** No prefix of the run leaves more than the bound in open liability. */
  ghost predicate Within(roles: Roles, actions: seq<Action>, bound: nat) {
    forall k :: 0 <= k <= |actions| ==> TrueLiability(Ran(roles, FRESH, actions[..k])) <= bound
  }

  /** The run's last action, and so every action, is answered without a throw. */
  predicate LastAnswered(roles: Roles, actions: seq<Action>) {
    actions == []
    || var n := |actions| - 1; !Apply(roles, Ran(roles, FRESH, actions[..n]), actions[n]).0.Threw?
  }

  /** Every stake offered is a JavaScript number; being counted in units it is a multiple of the unit. */
  predicate RealStakes(actions: seq<Action>) {
    forall a :: a in actions && a.Create? && a.stake > 0 ==> Representable(a.stake)
  }

  /** assertInvariants never throws on a run within the bound. */
  ghost predicate SafeUpTo(roles: Roles, bound: nat) {
    forall actions :: RealStakes(actions) && Within(roles, actions, bound) ==> LastAnswered(roles, actions)
  }

  lemma {:induction false} RunKeepsOk(roles: Roles, actions: seq<Action>)
    requires Within(roles, actions, MAX_EXACT)
    ensures ModelOk(Ran(roles, FRESH, actions)) && LastAnswered(roles, actions)
  {
    hide Apply, ModelOk, TrueLiability;
    if actions == [] {
      FreshOk();
    } else {
      var n := |actions| - 1;
      assert forall k :: 0 <= k <= n ==> actions[..n][..k] == actions[..k];
      RunKeepsOk(roles, actions[..n]);
      assert actions[..|actions|] == actions;
      TargetIsRan(roles, Ran(roles, FRESH, actions[..n]), actions[n]);
      ApplyIsSafe(roles, Ran(roles, FRESH, actions[..n]), actions[n]);
    }
  }

  lemma FreshOk()
    ensures ModelOk(FRESH)
  {
  }

  lemma TargetIsRan(roles: Roles, m: Model, a: Action)
    ensures Apply(roles, m, a).1 == Target(roles, m, a)
  {
    hide Step, Violated, SameSnapshot;
  }

  // ---------- Beyond 2^53 units ----------

  const CALENDAR := Schedule(1, 2, 3, 4, 2, 1, 100)

  function Opened(stake: nat): ModelChallenge {
    NewModelChallenge(1, SideA, stake, CALENDAR)
  }

  function Ended(stake: nat): ModelChallenge {
    Opened(stake).(state := Cancelled, entitlements := map[1 := Balance(stake, 0)])
  }

  function Paid(stake: nat): ModelChallenge {
    Ended(stake).(entitlements := map[1 := Balance(0, stake)], outstanding := 0, paidChallenger := stake)
  }

  function Creation(id: Bytes32, stake: nat): Action {
    Create(1, 0, id, 1, id, stake, SideA, CALENDAR)
  }

  /** One wallet funds three challenges, cancels the first, and is paid. */
  function Five(x: nat, y: nat, z: nat): seq<Action> {
    [Creation(1, x), Creation(2, y), Creation(3, z), Cancel(1, 0, 1), Refund(1, 1)]
  }

  function AfterOne(x: nat): Model {
    Model(false, x, map[1 := Opened(x)], [1], {(1, 1)})
  }

  function AfterTwo(x: nat, y: nat): Model {
    Model(false, Plus(x, y), map[1 := Opened(x), 2 := Opened(y)], [1, 2], {(1, 1), (1, 2)})
  }

  function AfterThree(x: nat, y: nat, z: nat): Model {
    Model(false, Plus(Plus(x, y), z), map[1 := Opened(x), 2 := Opened(y), 3 := Opened(z)], [1, 2, 3],
          {(1, 1), (1, 2), (1, 3)})
  }

  function AfterCancel(x: nat, y: nat, z: nat): Model {
    Put(AfterThree(x, y, z), 1, Ended(x))
  }

  /** The running total once the first stake is taken off again. */
  function Rest(x: nat, y: nat, z: nat): nat {
    var total := Plus(Plus(x, y), z);
    if x <= total then Minus(total, x) else 0
  }

  function AfterRefund(x: nat, y: nat, z: nat): Model {
    Put(AfterThree(x, y, z), 1, Paid(x)).(totalOutstandingLiability := Rest(x, y, z))
  }

  predicate Offerable(roles: Roles, n: nat) {
    0 < n <= MaxStake(roles.fractionBits) && Representable(n)
  }

  /** Three numbers create lets through, the first no more than the rounded sum. */
  predicate Fundable(roles: Roles, x: nat, y: nat, z: nat) {
    && Offerable(roles, x) && Offerable(roles, y) && Offerable(roles, z)
    && x <= Plus(Plus(x, y), z)
  }

  lemma Created(roles: Roles, m: Model, id: Bytes32, stake: nat)
    requires 0 < stake <= MaxStake(roles.fractionBits) && id != 0
    requires !m.paused && id !in m.challenges && (1, id) !in m.usedNonces
    ensures Step(roles, m, Creation(id, stake))
            == Stepped(m.(challenges := m.challenges[id := Opened(stake)], order := m.order + [id],
                          usedNonces := m.usedNonces + {(1, id)},
                          totalOutstandingLiability := Plus(m.totalOutstandingLiability, stake)))
  {
    hide Plus, MaxStake;
  }

  lemma ThreeCreated(roles: Roles, x: nat, y: nat, z: nat)
    requires Fundable(roles, x, y, z)
    ensures Ran(roles, FRESH, Five(x, y, z)[..0]) == FRESH
    ensures Ran(roles, FRESH, Five(x, y, z)[..1]) == AfterOne(x)
    ensures Ran(roles, FRESH, Five(x, y, z)[..2]) == AfterTwo(x, y)
    ensures Ran(roles, FRESH, Five(x, y, z)[..3]) == AfterThree(x, y, z)
  {
    hide Apply, Step, Rounded, MaxStake, Opened;
    var run := Five(x, y, z);
    assert run[..0] == [] && run[..1][..0] == [] && run[..2][..1] == run[..1] && run[..3][..2] == run[..2];
    Created(roles, FRESH, 1, x);
    TargetIsRan(roles, FRESH, run[0]);
    Created(roles, AfterOne(x), 2, y);
    TargetIsRan(roles, AfterOne(x), run[1]);
    Created(roles, AfterTwo(x, y), 3, z);
    TargetIsRan(roles, AfterTwo(x, y), run[2]);
  }

  lemma CancelApplies(roles: Roles, x: nat, y: nat, z: nat)
    ensures Step(roles, AfterThree(x, y, z), Cancel(1, 0, 1)) == Stepped(AfterCancel(x, y, z))
  {
    hide Plus;
    assert map[1 := Balance(0, 0)][1 := Balance(x, 0)] == map[1 := Balance(x, 0)];
  }

  lemma RefundApplies(roles: Roles, x: nat, y: nat, z: nat)
    requires Fundable(roles, x, y, z)
    ensures Step(roles, AfterCancel(x, y, z), Refund(1, 1)) == Stepped(AfterRefund(x, y, z))
  {
    hide Rounded, MaxStake;
    ExactRange(0);
    assert map[1 := Balance(x, 0)][1 := Balance(0, x)] == map[1 := Balance(0, x)];
    assert AfterCancel(x, y, z).challenges[1 := Paid(x)] == AfterThree(x, y, z).challenges[1 := Paid(x)];
  }

  lemma FiveApplied(roles: Roles, x: nat, y: nat, z: nat)
    requires Fundable(roles, x, y, z)
    ensures Ran(roles, FRESH, Five(x, y, z)[..4]) == AfterCancel(x, y, z)
    ensures Ran(roles, FRESH, Five(x, y, z)[..5]) == AfterRefund(x, y, z)
  {
    hide Apply, Step, Rounded, MaxStake, AfterThree, AfterCancel, AfterRefund;
    var run := Five(x, y, z);
    ThreeCreated(roles, x, y, z);
    assert run[..4][..3] == run[..3] && run[..5][..4] == run[..4];
    CancelApplies(roles, x, y, z);
    TargetIsRan(roles, AfterThree(x, y, z), run[3]);
    RefundApplies(roles, x, y, z);
    TargetIsRan(roles, AfterCancel(x, y, z), run[4]);
  }

  lemma SumOfThree(challenges: map<Bytes32, ModelChallenge>, a: Bytes32, b: Bytes32, c: Bytes32)
    requires a in challenges
    ensures Sum(challenges, []) == 0 && Sum(challenges, [a]) == challenges[a].outstanding
    ensures b in challenges ==> Sum(challenges, [a, b]) == challenges[a].outstanding + challenges[b].outstanding
    ensures b in challenges && c in challenges ==>
              Sum(challenges, [a, b, c])
              == challenges[a].outstanding + challenges[b].outstanding + challenges[c].outstanding
  {
    assert [a, b, c][..2] == [a, b] && [a, b][..1] == [a] && [a][..0] == [];
    assert Sum(challenges, []) == 0;
    assert Sum(challenges, [a]) == challenges[a].outstanding;
  }

  lemma LiabilityOfFive(x: nat, y: nat, z: nat)
    ensures TrueLiability(FRESH) == 0 && TrueLiability(AfterOne(x)) == x && TrueLiability(AfterTwo(x, y)) == x + y
    ensures TrueLiability(AfterThree(x, y, z)) == TrueLiability(AfterCancel(x, y, z)) == x + y + z
    ensures TrueLiability(AfterRefund(x, y, z)) == y + z
  {
    hide Rounded;
    SumOfThree(AfterOne(x).challenges, 1, 2, 3);
    SumOfThree(AfterTwo(x, y).challenges, 1, 2, 3);
    SumOfThree(AfterThree(x, y, z).challenges, 1, 2, 3);
    SumOfThree(AfterCancel(x, y, z).challenges, 1, 2, 3);
    SumOfThree(AfterRefund(x, y, z).challenges, 1, 2, 3);
    hide Sum;
    assert TrueLiability(FRESH) == 0 by { EmptySum(); }
  }

  lemma EmptySum()
    ensures Sum(map[], []) == 0
  {
  }

  /** The total as it is recomputed after the refund. */
  lemma AggregateOfFive(x: nat, y: nat, z: nat)
    requires Representable(y)
    ensures Aggregate(AfterRefund(x, y, z), [1, 2, 3]) == Plus(y, z)
  {
    hide Rounded;
    var m := AfterRefund(x, y, z);
    ExactRange(0);
    assert [1, 2, 3][..2] == [1, 2] && [1, 2][..1] == [1] && [1][..0] == [];
    assert Aggregate(m, []) == 0;
    assert Aggregate(m, [1]) == Plus(0, 0);
    assert Aggregate(m, [1, 2]) == Plus(0, y);
  }

  /** Three stakes whose running and recomputed totals are rounded apart make assertInvariants throw. */
  lemma FiveThrows(roles: Roles, x: nat, y: nat, z: nat)
    requires Fundable(roles, x, y, z) && Rest(x, y, z) != Plus(y, z)
    ensures RealStakes(Five(x, y, z)) && !LastAnswered(roles, Five(x, y, z)) && Within(roles, Five(x, y, z), x + y + z)
  {
    hide Step, Aggregate, TrueLiability, Rounded, MaxStake, AfterOne, AfterTwo, AfterThree, AfterCancel;
    var run := Five(x, y, z);
    ThreeCreated(roles, x, y, z);
    FiveApplied(roles, x, y, z);
    RefundApplies(roles, x, y, z);
    LiabilityOfFive(x, y, z);
    assert run[..5] == run;
    forall k | 0 <= k <= |run|
      ensures TrueLiability(Ran(roles, FRESH, run[..k])) <= x + y + z
    {
      assert k in {0, 1, 2, 3, 4, 5};
    }
    MismatchThrows(roles, x, y, z);
  }

  lemma MismatchThrows(roles: Roles, x: nat, y: nat, z: nat)
    requires Fundable(roles, x, y, z) && Rest(x, y, z) != Plus(y, z)
    ensures Apply(roles, AfterCancel(x, y, z), Refund(1, 1)).0.Threw?
  {
    hide Step, Aggregate, Rounded, MaxStake, AfterCancel, AfterThree, SameSnapshot;
    RefundApplies(roles, x, y, z);
    AggregateOfFive(x, y, z);
    OrderOfFive(x, y, z);
  }

  lemma OrderOfFive(x: nat, y: nat, z: nat)
    ensures AfterRefund(x, y, z).order == [1, 2, 3]
  {
  }

  // ---------- The two witnesses ----------

  const S: nat := MAX_WHOLE_STAKE

  /** Two whole stakes of the largest size and a third of 3. */
  const OVERFLOW: seq<Action> := Five(S, S, 3)

  /** Five actions whose debt reaches 2^53 + 1 units, after which assertInvariants throws. */
  lemma OverflowThrows(roles: Roles)
    ensures RealStakes(OVERFLOW) && !LastAnswered(roles, OVERFLOW) && Within(roles, OVERFLOW, MAX_EXACT + 1)
  {
    hide Five, Rounded, LastAnswered, Within, RealStakes;
    ExactRange(S);
    ExactRange(3);
    SmallSums(S, S);
    ExactRange(MAX_EXACT);
    SmallDifference(MAX_EXACT, S);
    SmallSums(S, 3);
    FiveThrows(roles, S, S, 3);
  }

  /** The numbers 0.1, 0.2 and 0.3 as JavaScript has them, in units of 2^-56. */
  const TENTH: nat := 7205759403792794
  const FIFTH: nat := 14411518807585588
  const THREE_TENTHS: nat := 21617278211378380

  const FRACTIONS: seq<Action> := Five(TENTH, FIFTH, THREE_TENTHS)

  lemma SpacingAt(n: nat)
    requires MAX_EXACT < n <= 8 * MAX_EXACT
    ensures Spacing(n) == if n <= 2 * MAX_EXACT then 2 else if n <= 4 * MAX_EXACT then 4 else 8
  {
    if n > 2 * MAX_EXACT {
      assert (n + 1) / 2 > MAX_EXACT;
      if n > 4 * MAX_EXACT {
        assert ((n + 1) / 2 + 1) / 2 > MAX_EXACT;
      }
    }
  }

  lemma FractionsRound()
    ensures Representable(TENTH) && Representable(FIFTH) && Representable(THREE_TENTHS)
    ensures Plus(TENTH, FIFTH) == 21617278211378384
    ensures Plus(21617278211378384, THREE_TENTHS) == 43234556422756768
    ensures Minus(43234556422756768, TENTH) == 36028797018963976
    ensures Plus(FIFTH, THREE_TENTHS) == 36028797018963968
  {
    hide Spacing;
    ExactRange(TENTH);
    SpacingAt(FIFTH);
    SpacingAt(THREE_TENTHS);
    SpacingAt(TENTH + FIFTH);
    SpacingAt(21617278211378384 + THREE_TENTHS);
    SpacingAt(43234556422756768 - TENTH);
    SpacingAt(FIFTH + THREE_TENTHS);
  }

  /** Stakes of 0.1, 0.2 and 0.3 make assertInvariants throw with a debt that stays below 1. */
  lemma FractionsThrow(roles: Roles)
    requires roles.fractionBits == 56
    ensures RealStakes(FRACTIONS) && !LastAnswered(roles, FRACTIONS) && Within(roles, FRACTIONS, Pow2(56) - 1)
  {
    hide Five, Plus, Minus, Rounded, LastAnswered, RealStakes, Spacing, Representable;
    assert Pow2(56) == 0x100_0000_0000_0000 by { SmallPowers(); }
    FractionsRound();
    assert Fundable(roles, TENTH, FIFTH, THREE_TENTHS) by { hide Representable; }
    FiveThrows(roles, TENTH, FIFTH, THREE_TENTHS);
  }

  lemma SmallPowers()
    ensures Pow2(56) == 0x100_0000_0000_0000
  {
    assert Pow2(8) == 0x100;
    PowersAdd(8, 8);
    PowersAdd(16, 16);
    PowersAdd(32, 16);
    PowersAdd(48, 8);
  }

  lemma {:induction false} PowersAdd(a: nat, b: nat)
    ensures Pow2(a + b) == Pow2(a) * Pow2(b)
  {
    if b > 0 {
      PowersAdd(a, b - 1);
    }
  }

  /** The exact condition, for any unit: invariants never throw on the runs whose stakes are numbers counted in that
      unit, and whose debt stays within a bound, just when the bound is at most 2^53 units. */
  lemma SafeExactlyUpTo(roles: Roles, bound: nat)
    ensures SafeUpTo(roles, bound) <==> bound <= MAX_EXACT
  {
    hide Ran, TrueLiability, LastAnswered, RealStakes;
    if bound <= MAX_EXACT {
      forall actions | RealStakes(actions) && Within(roles, actions, bound)
        ensures LastAnswered(roles, actions)
      {
        RunKeepsOk(roles, actions);
      }
    } else {
      OverflowThrows(roles);
      assert Within(roles, OVERFLOW, bound);
    }
  }
}
