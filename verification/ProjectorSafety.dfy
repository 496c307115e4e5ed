/** What the projector guarantees on arbitrary decoded logs, honest or not. */
module ProjectorSafety {
  import opened Wrappers
  import opened ProtocolTypes
  import opened Projector

  // ---------- One log ----------

  /** The parts of a projected challenge that carry meaning beyond bookkeeping. */
  predicate SameMeaning(c: ProjectedChallenge, d: ProjectedChallenge) {
    d == c.(eventCount := d.eventCount, lastEventBlock := d.lastEventBlock)
  }

  /** Progress a log can make on a challenge: a nonce advance, a lifecycle step, or one payout. */
  predicate Progress(c: ProjectedChallenge, d: ProjectedChallenge) {
    || (c.state == d.state == Open && SameMeaning(c.(acceptanceNonce := d.acceptanceNonce), d))
    || (LifecycleMove(c.state, d.state) && c.payoutWallets == d.payoutWallets && c.payoutIds == d.payoutIds
        && c.terms == d.terms && c.evidenceHashes <= d.evidenceHashes
        && (c.acceptingWallet == d.acceptingWallet || (c.state == Open && d.state == Active)))
    || (Terminal(c.state) && |d.payoutWallets| == |c.payoutWallets| + 1
        && SameMeaning(c.(payoutIds := d.payoutIds, payoutWallets := d.payoutWallets), d))
  }

  predicate IsPayoutEvent(e: Event) {
    e.WinningsClaimed? || e.PrincipalRefunded?
  }

  predicate EndsChallenge(e: Event) {
    e.ChallengeResolved? || e.ChallengeVoided?
  }

  lemma PayoutIsProgress(ids: EntitlementIds, c: ProjectedChallenge, e: Event)
    requires IsPayoutEvent(e) && OnPayout(ids, c, e).Changed?
    ensures Progress(c, OnPayout(ids, c, e).challenge)
  {
  }

  lemma EndIsProgress(ids: EntitlementIds, release: Option<Event>, c: ProjectedChallenge, e: Event)
    requires EndsChallenge(e) && OnChallenge(ids, release, c, e).Changed?
    ensures Progress(c, OnChallenge(ids, release, c, e).challenge)
  {
  }

  lemma MoveIsProgress(ids: EntitlementIds, release: Option<Event>, c: ProjectedChallenge, e: Event)
    requires !IsGlobal(e) && !e.ChallengeCreated? && !IsPayoutEvent(e) && !EndsChallenge(e)
    requires OnChallenge(ids, release, c, e).Changed?
    ensures Progress(c, OnChallenge(ids, release, c, e).challenge)
  {
  }

  lemma VerdictIsProgress(ids: EntitlementIds, release: Option<Event>, c: ProjectedChallenge, e: Event)
    requires !IsGlobal(e) && !e.ChallengeCreated?
    requires OnChallenge(ids, release, c, e).Changed?
    ensures Progress(c, OnChallenge(ids, release, c, e).challenge)
  {
    hide Progress, OnPayout, OnResolved, OnVoided, OnAccepted, OnProposed, OnDisputed, OnOpenRefund;
    if IsPayoutEvent(e) {
      PayoutIsProgress(ids, c, e);
    } else if EndsChallenge(e) {
      EndIsProgress(ids, release, c, e);
    } else {
      MoveIsProgress(ids, release, c, e);
    }
  }

  /** A log on a challenge either is flagged once and changes nothing but the bookkeeping, or makes progress. */
  lemma LogStepsOrFlags(ids: EntitlementIds, p: Projection, log: Logged)
    requires !IsGlobal(log.event)
    ensures var p', id := Project(ids, p, log), log.event.challengeId;
            && p'.release == p.release && p'.paused == p.paused
            && (forall other :: other != id ==>
                  (other in p'.challenges <==> other in p.challenges)
                  && (other in p.challenges ==> p'.challenges[other] == p.challenges[other]))
            && if |p'.anomalies| > |p.anomalies| then
                 && (exists code :: p'.anomalies == p.anomalies + [Anomaly(code, Some(id))])
                 && (id in p'.challenges <==> id in p.challenges)
                 && (id in p.challenges ==> SameMeaning(p.challenges[id], p'.challenges[id]))
               else
                 && p'.anomalies == p.anomalies && id in p'.challenges
                 && if id in p.challenges then Progress(p.challenges[id], p'.challenges[id])
                    else log.event.ChallengeCreated? && p'.challenges[id].state == Open
  {
    hide OnChallenge;
    var e := log.event;
    if e.challengeId in p.challenges && !e.ChallengeCreated? {
      var c := Counted(p.challenges[e.challengeId], log.blockNumber);
      match OnChallenge(ids, p.release, c, e)
      case Changed(_) => VerdictIsProgress(ids, p.release, c, e);
      case Flagged(code) =>
        assert Project(ids, p, log).anomalies == p.anomalies + [Anomaly(code, Some(e.challengeId))];
    } else {
      var code := if e.ChallengeCreated? then InvalidTransition else OrphanEvent;
      if |Project(ids, p, log).anomalies| > |p.anomalies| {
        assert Project(ids, p, log).anomalies == p.anomalies + [Anomaly(code, Some(e.challengeId))];
      }
    }
  }

  // ---------- Every projection ----------

  predicate Distinct(hashes: seq<Bytes32>) {
    forall i, j :: 0 <= i < j < |hashes| ==> hashes[i] != hashes[j]
  }

  /** What a challenge in the given state may pay, and to whom. */
  function PayoutEach(c: ProjectedChallenge): nat {
    if c.state == ResolvedA || c.state == ResolvedB then c.terms.stakeAmount * 2 else c.terms.stakeAmount
  }

  function Payees(c: ProjectedChallenge): set<Address> {
    match c.state
    case Cancelled | Expired => {c.terms.challengerWallet}
    case ResolvedA => if c.terms.challengerSide == SideA then {c.terms.challengerWallet} else Acceptors(c)
    case ResolvedB => if c.terms.challengerSide == SideB then {c.terms.challengerWallet} else Acceptors(c)
    case Void => {c.terms.challengerWallet} + Acceptors(c)
    case _ => {}
  }

  function Acceptors(c: ProjectedChallenge): set<Address> {
    if c.acceptingWallet.Some? then {c.acceptingWallet.value} else {}
  }

  function Deposit(c: ProjectedChallenge): nat {
    c.terms.stakeAmount * if c.acceptingWallet.Some? then 2 else 1
  }

  predicate ChallengeSafe(c: ProjectedChallenge) {
    && (c.acceptingWallet.Some? <==> c.state !in {Open, Cancelled, Expired})
    && c.acceptingWallet != Some(c.terms.challengerWallet)
    && Distinct(c.evidenceHashes)
    && |c.evidenceHashes| <= (match c.state
                              case Proposed => 1
                              case Disputed => 2
                              case ResolvedA | ResolvedB | Void => 3
                              case _ => 0)
    && c.payoutWallets <= Payees(c)
    && |c.payoutIds| == |c.payoutWallets|
  }

  ghost predicate Safe(p: Projection) {
    forall id :: id in p.challenges ==> ChallengeSafe(p.challenges[id])
  }

  /** An accepted payout is the first of its wallet and of its id, to a wallet that is owed. */
  lemma PayoutIsNew(ids: EntitlementIds, c: ProjectedChallenge, e: Event)
    requires IsPayoutEvent(e) && OnPayout(ids, c, e).Changed?
    ensures OnPayout(ids, c, e).challenge == c.(payoutWallets := c.payoutWallets + {e.wallet},
                                                payoutIds := c.payoutIds + {e.entitlementId})
    ensures e.wallet !in c.payoutWallets && e.entitlementId !in c.payoutIds && e.wallet in Payees(c)
  {
  }

  lemma PayoutKeepsSafe(ids: EntitlementIds, c: ProjectedChallenge, e: Event)
    requires IsPayoutEvent(e) && ChallengeSafe(c) && OnPayout(ids, c, e).Changed?
    ensures ChallengeSafe(OnPayout(ids, c, e).challenge)
  {
    hide OnPayout, Payees, Distinct;
    PayoutIsNew(ids, c, e);
    PayeesStay(c, OnPayout(ids, c, e).challenge);
  }

  lemma PayeesStay(c: ProjectedChallenge, c': ProjectedChallenge)
    requires c' == c.(payoutWallets := c'.payoutWallets, payoutIds := c'.payoutIds)
    ensures Payees(c') == Payees(c)
  {
  }

  lemma EndKeepsSafe(ids: EntitlementIds, release: Option<Event>, c: ProjectedChallenge, e: Event)
    requires EndsChallenge(e) && ChallengeSafe(c) && OnChallenge(ids, release, c, e).Changed?
    ensures ChallengeSafe(OnChallenge(ids, release, c, e).challenge)
  {
  }

  lemma MoveKeepsSafe(ids: EntitlementIds, release: Option<Event>, c: ProjectedChallenge, e: Event)
    requires !IsGlobal(e) && !e.ChallengeCreated? && !IsPayoutEvent(e) && !EndsChallenge(e) && ChallengeSafe(c)
    requires OnChallenge(ids, release, c, e).Changed?
    ensures ChallengeSafe(OnChallenge(ids, release, c, e).challenge)
  {
  }

  lemma VerdictKeepsSafe(ids: EntitlementIds, release: Option<Event>, c: ProjectedChallenge, e: Event)
    requires !IsGlobal(e) && !e.ChallengeCreated? && ChallengeSafe(c)
    requires OnChallenge(ids, release, c, e).Changed?
    ensures ChallengeSafe(OnChallenge(ids, release, c, e).challenge)
  {
    hide ChallengeSafe, OnPayout, OnResolved, OnVoided, OnAccepted, OnProposed, OnDisputed, OnOpenRefund;
    if IsPayoutEvent(e) {
      PayoutKeepsSafe(ids, c, e);
    } else if EndsChallenge(e) {
      EndKeepsSafe(ids, release, c, e);
    } else {
      MoveKeepsSafe(ids, release, c, e);
    }
  }

  lemma ProjectKeepsSafe(ids: EntitlementIds, p: Projection, log: Logged)
    requires Safe(p)
    ensures Safe(Project(ids, p, log))
  {
    hide OnChallenge;
    var e := log.event;
    if !IsGlobal(e) && !e.ChallengeCreated? && e.challengeId in p.challenges {
      var c := Counted(p.challenges[e.challengeId], log.blockNumber);
      if OnChallenge(ids, p.release, c, e).Changed? {
        VerdictKeepsSafe(ids, p.release, c, e);
      }
    }
  }

  /** Whatever the logs say, evidence stays distinct and no challenge is seen to pay out more than was deposited. */
  lemma {:induction false} ProjectionIsSafe(ids: EntitlementIds, p: Projection, logs: seq<Logged>)
    requires Safe(p)
    ensures Safe(ProjectFrom(ids, p, logs))
  {
    if logs != [] {
      ProjectionIsSafe(ids, p, logs[..|logs| - 1]);
      ProjectKeepsSafe(ids, ProjectFrom(ids, p, logs[..|logs| - 1]), logs[|logs| - 1]);
    }
  }

  lemma SubsetIsSmaller<T>(a: set<T>, b: set<T>)
    requires a <= b
    ensures |a| <= |b|
  {
    assert b == a + (b - a);
  }

  lemma PayoutsWithinDeposit(c: ProjectedChallenge)
    requires ChallengeSafe(c)
    ensures |c.payoutIds| * PayoutEach(c) <= Deposit(c)
  {
    SubsetIsSmaller(c.payoutWallets, Payees(c));
    var n := |c.payoutIds|;
    assert n <= 2;
  }

  /** On any decoded logs: at most three distinct evidence hashes, and payouts within the deposit. */
  lemma AnyLogsAreSafe(ids: EntitlementIds, logs: seq<Logged>, id: Bytes32)
    requires id in ProjectAll(ids, logs).challenges
    ensures var c := ProjectAll(ids, logs).challenges[id];
            && ChallengeSafe(c)
            && |c.evidenceHashes| <= 3
            && |c.payoutIds| * PayoutEach(c) <= Deposit(c)
  {
    ProjectionIsSafe(ids, Start(logs), logs);
    PayoutsWithinDeposit(ProjectAll(ids, logs).challenges[id]);
  }

  /** A terminal projected state never changes, whatever is logged afterwards. */
  lemma {:induction false} TerminalStays(ids: EntitlementIds, p: Projection, logs: seq<Logged>, id: Bytes32)
    requires id in p.challenges && Terminal(p.challenges[id].state)
    ensures var p' := ProjectFrom(ids, p, logs);
            && id in p'.challenges
            && p'.challenges[id].state == p.challenges[id].state
            && p'.challenges[id].acceptingWallet == p.challenges[id].acceptingWallet
            && p'.challenges[id].evidenceHashes == p.challenges[id].evidenceHashes
  {
    if logs != [] {
      TerminalStays(ids, p, logs[..|logs| - 1], id);
      var mid := ProjectFrom(ids, p, logs[..|logs| - 1]);
      var log := logs[|logs| - 1];
      if !IsGlobal(log.event) {
        LogStepsOrFlags(ids, mid, log);
      }
    }
  }

  // ---------- What an anomaly says ----------

  /** The code of a log's anomaly: an orphan is about an unknown challenge; a second ending is told from a wrong one; a
      second payout is one that would pass, had nothing been paid. */
  lemma CodeMeans(ids: EntitlementIds, p: Projection, log: Logged)
    requires !IsGlobal(log.event) && |Project(ids, p, log).anomalies| > |p.anomalies|
    ensures var e := log.event;
            var code := Project(ids, p, log).anomalies[|p.anomalies|].code;
            && code != ReleaseConflict
            && (code == OrphanEvent <==> e.challengeId !in p.challenges && !e.ChallengeCreated?)
            && (code == DuplicateTerminal <==>
                  EndsChallenge(e) && e.challengeId in p.challenges && Terminal(p.challenges[e.challengeId].state))
            && (code == DuplicatePayout <==>
                  IsPayoutEvent(e) && e.challengeId in p.challenges
                  && OnPayout(ids, p.challenges[e.challengeId].(payoutIds := {}, payoutWallets := {}), e).Changed?)
  {
    hide OnAccepted, OnOpenRefund, OnProposed, OnDisputed;
    var e := log.event;
    if e.challengeId in p.challenges && !e.ChallengeCreated? {
      CodeOnChallenge(ids, p.release, p.challenges[e.challengeId], log.blockNumber, e);
    }
  }

  lemma CodeOnChallenge(ids: EntitlementIds, release: Option<Event>, c: ProjectedChallenge, block: nat, e: Event)
    requires !IsGlobal(e) && !e.ChallengeCreated? && OnChallenge(ids, release, Counted(c, block), e).Flagged?
    ensures var code := OnChallenge(ids, release, Counted(c, block), e).code;
            && code !in {ReleaseConflict, OrphanEvent}
            && (code == DuplicateTerminal <==> EndsChallenge(e) && Terminal(c.state))
            && (code == DuplicatePayout <==>
                  IsPayoutEvent(e) && OnPayout(ids, c.(payoutIds := {}, payoutWallets := {}), e).Changed?)
  {
  }

  // ---------- The status ----------

  lemma {:induction false} AnomaliesStay(ids: EntitlementIds, p: Projection, logs: seq<Logged>)
    ensures p.anomalies <= ProjectFrom(ids, p, logs).anomalies
  {
    if logs != [] {
      AnomaliesStay(ids, p, logs[..|logs| - 1]);
      OneMoreAnomaly(ids, ProjectFrom(ids, p, logs[..|logs| - 1]), logs[|logs| - 1]);
    }
  }

  lemma OneMoreAnomaly(ids: EntitlementIds, p: Projection, log: Logged)
    ensures p.anomalies <= Project(ids, p, log).anomalies && |Project(ids, p, log).anomalies| <= |p.anomalies| + 1
  {
    hide OnChallenge;
  }

  ghost predicate Flags(ids: EntitlementIds, p: Projection, log: Logged) {
    |Project(ids, p, log).anomalies| > |p.anomalies|
  }

  /** Log i is flagged where it stands. */
  ghost predicate FlaggedAt(ids: EntitlementIds, p: Projection, logs: seq<Logged>, i: nat)
    requires i < |logs|
  {
    Flags(ids, ProjectFrom(ids, p, logs[..i]), logs[i])
  }

  /** A release is declared, but something else comes first. */
  predicate ReleaseIsLate(logs: seq<Logged>) {
    exists i :: 0 < i < |logs| && logs[i].event.ReleaseDeclared? && !logs[0].event.ReleaseDeclared?
  }

  lemma {:induction false} NoFlagNoAnomaly(ids: EntitlementIds, p: Projection, logs: seq<Logged>)
    ensures ProjectFrom(ids, p, logs).anomalies != []
       <==> p.anomalies != [] || exists i :: 0 <= i < |logs| && FlaggedAt(ids, p, logs, i)
  {
    hide Project;
    if logs != [] {
      var n := |logs| - 1;
      var front := logs[..n];
      NoFlagNoAnomaly(ids, p, front);
      OneMoreAnomaly(ids, ProjectFrom(ids, p, front), logs[n]);
      forall i | 0 <= i < n
        ensures FlaggedAt(ids, p, front, i) <==> FlaggedAt(ids, p, logs, i)
      {
        assert front[..i] == logs[..i] && front[i] == logs[i];
      }
      assert FlaggedAt(ids, p, logs, n) <==> ProjectFrom(ids, p, logs).anomalies != ProjectFrom(ids, p, front).anomalies;
    }
  }

  /** A projection is conflicted exactly when a release comes late or some log was flagged where it stands. */
  lemma ConflictedExactly(ids: EntitlementIds, logs: seq<Logged>)
    ensures StatusOf(ProjectAll(ids, logs)) == Conflicted
       <==> ReleaseIsLate(logs) || exists i :: 0 <= i < |logs| && FlaggedAt(ids, Start(logs), logs, i)
  {
    NoFlagNoAnomaly(ids, Start(logs), logs);
    if exists i | 0 <= i < |logs| :: logs[i].event.ReleaseDeclared? && !logs[0].event.ReleaseDeclared? {
      var i :| 0 <= i < |logs| && logs[i].event.ReleaseDeclared?;
      assert i > 0;
    }
  }

  /** Whatever is logged later, a conflict stays. */
  lemma ConflictStays(ids: EntitlementIds, logs: seq<Logged>, more: seq<Logged>)
    requires StatusOf(ProjectAll(ids, logs)) == Conflicted
    ensures StatusOf(ProjectAll(ids, logs + more)) == Conflicted
  {
    hide StatusOf;
    ConflictedExactly(ids, logs);
    ConflictedExactly(ids, logs + more);
    if ReleaseIsLate(logs) {
      var i :| 0 < i < |logs| && logs[i].event.ReleaseDeclared? && !logs[0].event.ReleaseDeclared?;
      assert (logs + more)[i] == logs[i] && (logs + more)[0] == logs[0];
      assert ReleaseIsLate(logs + more);
    } else if !ReleaseIsLate(logs + more) {
      assert Start(logs) == Start(logs + more) == EMPTY by { PromptStart(logs); PromptStart(logs + more); }
      var i :| 0 <= i < |logs| && FlaggedAt(ids, Start(logs), logs, i);
      assert (logs + more)[..i] == logs[..i] && (logs + more)[i] == logs[i];
      assert FlaggedAt(ids, Start(logs + more), logs + more, i);
    }
  }

  lemma PromptStart(logs: seq<Logged>)
    requires !ReleaseIsLate(logs)
    ensures Start(logs) == EMPTY
  {
    assert forall i :: 0 <= i < |logs| && logs[i].event.ReleaseDeclared? ==> i == 0 || logs[0].event.ReleaseDeclared?;
  }

  lemma {:induction false} ReleaseStays(ids: EntitlementIds, p: Projection, logs: seq<Logged>)
    ensures ProjectFrom(ids, p, logs).release.Some?
       <==> p.release.Some? || exists i :: 0 <= i < |logs| && logs[i].event.ReleaseDeclared?
  {
    hide OnChallenge;
    if logs != [] {
      ReleaseStays(ids, p, logs[..|logs| - 1]);
    }
  }

  /** A second release makes a conflict. */
  lemma SecondReleaseConflicts(ids: EntitlementIds, logs: seq<Logged>, i: nat, j: nat)
    requires i < j < |logs| && logs[i].event.ReleaseDeclared? && logs[j].event.ReleaseDeclared?
    ensures StatusOf(ProjectAll(ids, logs)) == Conflicted
  {
    hide StatusOf;
    ConflictedExactly(ids, logs);
    ReleaseStays(ids, Start(logs), logs[..j]);
    assert logs[..j][i] == logs[i];
    assert FlaggedAt(ids, Start(logs), logs, j);
  }

  /** A projection is consistent exactly when nothing was flagged, the release came first, and every challenge seen has
      ended. */
  lemma ConsistentExactly(ids: EntitlementIds, logs: seq<Logged>)
    ensures StatusOf(ProjectAll(ids, logs)) == Consistent
       <==> && logs != [] && logs[0].event.ReleaseDeclared?
            && (forall i :: 0 <= i < |logs| ==> !FlaggedAt(ids, Start(logs), logs, i))
            && forall id :: id in ProjectAll(ids, logs).challenges ==>
                 Terminal(ProjectAll(ids, logs).challenges[id].state)
  {
    hide Project, ProjectFrom;
    ConflictedExactly(ids, logs);
    ReleaseStays(ids, Start(logs), logs);
    assert Start(logs).release == None;
    if StatusOf(ProjectAll(ids, logs)) == Consistent {
      var i :| 0 <= i < |logs| && logs[i].event.ReleaseDeclared?;
      assert i > 0 && !logs[0].event.ReleaseDeclared? ==> ReleaseIsLate(logs);
    }
  }

  // ---------- Bookkeeping ----------

  /** A log that is counted for a challenge once it is known. */
  predicate Counts(log: Logged, id: Bytes32) {
    !IsGlobal(log.event) && !log.event.ChallengeCreated? && log.event.challengeId == id
  }

  function Mentions(logs: seq<Logged>, id: Bytes32): nat {
    if logs == [] then 0
    else Mentions(logs[..|logs| - 1], id) + if Counts(logs[|logs| - 1], id) then 1 else 0
  }

  /** The block of the last log that is counted, or the given one. */
  function LastMention(logs: seq<Logged>, id: Bytes32, block: nat): nat {
    if logs == [] then block
    else if Counts(logs[|logs| - 1], id) then logs[|logs| - 1].blockNumber
    else LastMention(logs[..|logs| - 1], id, block)
  }

  lemma VerdictKeepsBooks(ids: EntitlementIds, release: Option<Event>, c: ProjectedChallenge, e: Event)
    requires !IsGlobal(e) && !e.ChallengeCreated? && OnChallenge(ids, release, c, e).Changed?
    ensures var d := OnChallenge(ids, release, c, e).challenge;
            && (d.eventCount, d.firstEventBlock, d.lastEventBlock) == (c.eventCount, c.firstEventBlock, c.lastEventBlock)
            && d.terms == c.terms
  {
  }

  lemma {:induction false} BooksFrom(ids: EntitlementIds, p: Projection, logs: seq<Logged>, id: Bytes32)
    requires id in p.challenges
    ensures id in ProjectFrom(ids, p, logs).challenges
    ensures var c, d := p.challenges[id], ProjectFrom(ids, p, logs).challenges[id];
            && d.terms == c.terms && d.firstEventBlock == c.firstEventBlock
            && d.eventCount == c.eventCount + Mentions(logs, id)
            && d.lastEventBlock == LastMention(logs, id, c.lastEventBlock)
  {
    hide OnChallenge;
    if logs != [] {
      var front, log := logs[..|logs| - 1], logs[|logs| - 1];
      BooksFrom(ids, p, front, id);
      var mid := ProjectFrom(ids, p, front);
      if Counts(log, id) {
        var c := Counted(mid.challenges[id], log.blockNumber);
        if OnChallenge(ids, mid.release, c, log.event).Changed? {
          VerdictKeepsBooks(ids, mid.release, c, log.event);
        }
      }
    }
  }

  /** Where a challenge entered the projection: log k created it, and it was not there before. */
  ghost predicate EnteredAt(ids: EntitlementIds, logs: seq<Logged>, id: Bytes32, k: nat) {
    && k < |logs| && logs[k].event.ChallengeCreated? && logs[k].event.challengeId == id
    && id !in ProjectFrom(ids, Start(logs), logs[..k]).challenges
    && id in ProjectFrom(ids, Start(logs), logs[..k + 1]).challenges
  }

  lemma {:induction false} EntryHasStart(ids: EntitlementIds, p: Projection, logs: seq<Logged>, id: Bytes32)
    requires id !in p.challenges && id in ProjectFrom(ids, p, logs).challenges
    ensures exists k ::
              && 0 <= k < |logs| && logs[k].event.ChallengeCreated? && logs[k].event.challengeId == id
              && id !in ProjectFrom(ids, p, logs[..k]).challenges && id in ProjectFrom(ids, p, logs[..k + 1]).challenges
  {
    hide OnChallenge;
    var n := |logs| - 1;
    var front := logs[..n];
    if id in ProjectFrom(ids, p, front).challenges {
      EntryHasStart(ids, p, front, id);
      var k :|
        && 0 <= k < |front| && front[k].event.ChallengeCreated? && front[k].event.challengeId == id
        && id !in ProjectFrom(ids, p, front[..k]).challenges && id in ProjectFrom(ids, p, front[..k + 1]).challenges;
      assert front[..k] == logs[..k] && front[..k + 1] == logs[..k + 1];
    } else {
      assert logs[..n + 1] == logs;
    }
  }

  lemma {:induction false} ProjectsOn(ids: EntitlementIds, p: Projection, logs: seq<Logged>, more: seq<Logged>)
    ensures ProjectFrom(ids, p, logs + more) == ProjectFrom(ids, ProjectFrom(ids, p, logs), more)
  {
    hide Project;
    if more == [] {
      assert logs + more == logs;
    } else {
      assert (logs + more)[..|logs + more| - 1] == logs + more[..|more| - 1];
      ProjectsOn(ids, p, logs, more[..|more| - 1]);
    }
  }

  /** On any decoded logs: an entry has the terms it was created with, counts its creation and every later log about it,
      fitting or not, and holds the blocks of its creation and of the last such log. */
  lemma BooksAreKept(ids: EntitlementIds, logs: seq<Logged>, id: Bytes32)
    requires id in ProjectAll(ids, logs).challenges
    ensures exists k: nat :: EnteredAt(ids, logs, id, k)
              && var c, later := ProjectAll(ids, logs).challenges[id], logs[k + 1..];
                 && c.terms == logs[k].event.terms && c.firstEventBlock == logs[k].blockNumber
                 && c.eventCount == 1 + Mentions(later, id)
                 && c.lastEventBlock == LastMention(later, id, logs[k].blockNumber)
  {
    hide OnChallenge;
    EntryHasStart(ids, Start(logs), logs, id);
    var k :|
      && 0 <= k < |logs| && logs[k].event.ChallengeCreated? && logs[k].event.challengeId == id
      && id !in ProjectFrom(ids, Start(logs), logs[..k]).challenges
      && id in ProjectFrom(ids, Start(logs), logs[..k + 1]).challenges;
    assert logs == logs[..k + 1] + logs[k + 1..];
    assert logs[..k + 1][..k] == logs[..k];
    ProjectsOn(ids, Start(logs), logs[..k + 1], logs[k + 1..]);
    BooksFrom(ids, ProjectFrom(ids, Start(logs), logs[..k + 1]), logs[k + 1..], id);
    assert EnteredAt(ids, logs, id, k);
  }
}
