/** From the contract to the projection, through a chain that reorganizes: what an observer with honest views hands to
    the projector shows the contract as it stands on the observed chain. */
module EndToEnd {
  import opened Wrappers
  import opened ProtocolTypes
  import opened Kernel
  import opened KernelInvariant
  import opened EventLayout
  import opened EventDecoder
  import opened Projector
  import opened EventSimulation
  import opened Finality
  import opened RawProjection
  import I = ProjectorIntake
  import O = ObservedLogs
  import R = ReorgObserver
  import S = ObserverSafety
  import H = ObserverHonest
  import V = Quorum
  import Q = RpcQuorum
  import A = QuorumAgreement

  /** Logs that carry the contract's events, in order. */
  ghost predicate CarryEvents(signatures: Signatures, self: Address, logs: seq<R.Log>, events: seq<Event>) {
    && |logs| == |events|
    && forall i :: 0 <= i < |logs| ==>
         InWords(events[i]) && Carried(signatures, logs[i]) == Some(LogOf(self, events[i]))
  }

  /** What the decoder makes of each event. */
  ghost predicate ReadsLegible(self: Address, events: seq<Event>) {
    forall i :: 0 <= i < |events| ==>
      InWords(events[i]) && Decode(LogOf(self, events[i])) == if Legible(events[i]) then Some(events[i]) else None
  }

  predicate AllLegible(events: seq<Event>) {
    forall i :: 0 <= i < |events| ==> Legible(events[i])
  }

  lemma {:induction false} DecodesEvents(signatures: Signatures, self: Address, logs: seq<R.Log>, events: seq<Event>)
    requires CarryEvents(signatures, self, logs, events) && ReadsLegible(self, events)
    ensures DecodeAll(signatures, logs).Some? <==> AllLegible(events)
    ensures DecodeAll(signatures, logs).Some? ==> Carries(DecodeAll(signatures, logs).value, events)
  {
    hide Carried, LogOf, Decode, Legible, InWords;
    if logs != [] {
      var n := |logs| - 1;
      DecodesEvents(signatures, self, logs[..n], events[..n]);
      assert forall i :: 0 <= i < n ==> events[..n][i] == events[i];
      assert AllLegible(events) <==> AllLegible(events[..n]) && Legible(events[n]);
    }
  }

  /** The decoder reads exactly the legible events of a deployment's log. */
  lemma LogIsReadLegibly(r: Release, initialPaused: bool, balance: nat, now: nat, ms: seq<Stimulus>)
    requires balance <= MAX_UINT256 && NonzeroHashing(r.crypto)
    requires DeploymentError(r, true) == None && r.self != ZERO_ADDRESS && r.chainId > 0
    requires LegalRun(r, DeployedState(initialPaused, balance, now), ms)
    ensures ReadsLegible(r.self, EventLog(r, initialPaused, DeployedState(initialPaused, balance, now), ms))
  {
    hide Decode, LogOf, Legible, NonzeroHashing, DeploymentError, Inv, Trace, Run, InWords;
    var s0 := DeployedState(initialPaused, balance, now);
    var events := EventLog(r, initialPaused, s0, ms);
    DeployedInv(r, initialPaused, balance, now);
    ReleaseDecodes(r, initialPaused, true);
    ReleaseIsLegible(r, initialPaused);
    forall i | 0 <= i < |events|
      ensures InWords(events[i])
      ensures Decode(LogOf(r.self, events[i])) == if Legible(events[i]) then Some(events[i]) else None
    {
      if i > 0 {
        assert events[i] == Trace(r, s0, ms)[i - 1];
        TraceDecodes(r, s0, ms, i - 1);
      }
    }
  }

  lemma ReleaseIsLegible(r: Release, initialPaused: bool)
    ensures Legible(ReleaseEvent(r, initialPaused))
  {
  }

  /** A run of the contract and an observer of it: the run is legal and follows a proper deployment; its events lie on
      the chain of block h, in order; the observer's last success saw that chain, earlier ones may have seen others; and
      held lists the observer's logs, in any order. */
  ghost predicate Scene(
      r: Release, initialPaused: bool, balance: nat, now: nat, ms: seq<Stimulus>, signatures: Signatures,
      cfg: R.Config, u: H.Universe, attempts: seq<R.Provider>, views: seq<Bytes32>, h: Bytes32, placed: seq<R.Log>,
      held: seq<R.Log>)
  {
    && balance <= MAX_UINT256 && NonzeroHashing(r.crypto) && InjectiveIds(r.crypto.entitlementId)
    && DeploymentError(r, true) == None && r.self != ZERO_ADDRESS && r.chainId > 0
    && LegalRun(r, DeployedState(initialPaused, balance, now), ms)
    && R.ValidConfig(cfg) && H.Lawful(cfg, u) && O.OrderedBlocks(u)
    && I.Ascending(placed)
    && (forall l :: l in placed <==> l in H.ChainLogs(u, h, cfg.deploymentBlock, u(h).number))
    && CarryEvents(signatures, r.self, placed,
                   EventLog(r, initialPaused, DeployedState(initialPaused, balance, now), ms))
    && H.SuccessesHonest(cfg, u, attempts, views) && H.LastView(cfg, attempts, views) == Some(h)
    && O.Lists(held, S.After(cfg, attempts).logs)
  }

  /** The observer's logs project without fault if and only if the heads fit together, no pause was changed and every
      challenge names its terms; and then the projection shows the contract. */
  lemma ObservedProjectionShowsContract(
      r: Release, initialPaused: bool, balance: nat, now: nat, ms: seq<Stimulus>, signatures: Signatures,
      cfg: R.Config, u: H.Universe, attempts: seq<R.Provider>, views: seq<Bytes32>, h: Bytes32, placed: seq<R.Log>,
      held: seq<R.Log>, safe: Option<Header>, finalized: Option<Header>)
    requires Scene(r, initialPaused, balance, now, ms, signatures, cfg, u, attempts, views, h, placed, held)
    ensures S.After(cfg, attempts).head == Some(H.HeaderOf(u, h))
    ensures var heads := Heads(H.HeaderOf(u, h), safe, finalized);
            var result := ProjectRaw(r.crypto.entitlementId, signatures, held, heads);
            && (result.Ok? <==>
                  && HeadsFault(heads) == None
                  && AllLegible(EventLog(r, initialPaused, DeployedState(initialPaused, balance, now), ms)))
            && (result.Ok? ==>
                  ShowsContract(Run(r, DeployedState(initialPaused, balance, now), ms), result.value))
  {
    hide Run, LegalRun, EventLog, NonzeroHashing, InjectiveIds, DeploymentError, H.Lawful, O.OrderedBlocks, I.Ascending;
    hide H.ChainLogs, H.SuccessesHonest, H.LastView, S.After, O.Lists, H.HeaderOf, ShowsContract, I.Intake, DecodeAll;
    hide ProjectAll, CarryEvents, ReadsLegible, AllLegible, Carries, R.ValidConfig, HeadsFault;
    var s0 := DeployedState(initialPaused, balance, now);
    var events := EventLog(r, initialPaused, s0, ms);
    O.HonestLogsTakenIn(cfg, u, attempts, views, h, held, placed);
    LogIsReadLegibly(r, initialPaused, balance, now, ms);
    DecodesEvents(signatures, r.self, placed, events);
    if DecodeAll(signatures, placed).Some? {
      ProjectorFollowsContract(r, initialPaused, balance, now, ms, DecodeAll(signatures, placed).value);
    }
  }

  // ---------- Where the safe and finalized heads may come from ----------

  /** Two headers of one chain fit together. */
  lemma ChainIsCoherent(cfg: R.Config, u: H.Universe, h: Bytes32, n: nat, m: nat)
    requires H.Lawful(cfg, u) && m <= n <= u(h).number
    ensures CoherentPair(H.ChainHeader(u, h, n), H.ChainHeader(u, h, m))
  {
    hide H.Lawful;
    H.BlockAtHeight(cfg, u, h, n);
    H.BlockAtHeight(cfg, u, h, m);
  }

  /** Heads on the observed chain, the finalized one no higher than the safe one, never fail the projection. */
  lemma ChainHeadsFit(cfg: R.Config, u: H.Universe, h: Bytes32, n: nat, m: nat)
    requires H.Lawful(cfg, u) && m <= n <= u(h).number <= MAX_UINT64
    ensures HeadsFault(Heads(H.HeaderOf(u, h), Some(H.ChainHeader(u, h, n)), Some(H.ChainHeader(u, h, m)))) == None
  {
    hide H.Lawful;
    ChainIsCoherent(cfg, u, h, u(h).number, n);
    ChainIsCoherent(cfg, u, h, n, m);
    H.BlockAtHeight(cfg, u, h, n);
    H.BlockAtHeight(cfg, u, h, m);
  }

  /** Nor do the heads a quorum of providers agrees on, when it agrees on the observed one: then only pause changes and
      challenges without terms stand between the observer's logs and a projection that shows the contract. */
  lemma QuorumProjectionShowsContract(
      r: Release, initialPaused: bool, balance: nat, now: nat, ms: seq<Stimulus>, signatures: Signatures,
      cfg: R.Config, u: H.Universe, attempts: seq<R.Provider>, views: seq<Bytes32>, h: Bytes32, placed: seq<R.Log>,
      held: seq<R.Log>, rank: V.Ranking, inputs: seq<Q.Input>, threshold: nat)
    requires Scene(r, initialPaused, balance, now, ms, signatures, cfg, u, attempts, views, h, placed, held)
    requires Q.InputError(inputs, threshold) == None
    requires var report := Q.ReportOf(rank, Q.SortEndpoints(Q.Snapshots(inputs)), threshold);
             report.status == V.Agree && report.latest.agreed == S.After(cfg, attempts).head
    ensures var report := Q.ReportOf(rank, Q.SortEndpoints(Q.Snapshots(inputs)), threshold);
            var heads := Heads(H.HeaderOf(u, h), report.safe.agreed, report.finalized.agreed);
            var result := ProjectRaw(r.crypto.entitlementId, signatures, held, heads);
            && heads.safe.Some? && heads.finalized.Some?
            && (result.Ok? <==> AllLegible(EventLog(r, initialPaused, DeployedState(initialPaused, balance, now), ms)))
            && (result.Ok? ==>
                  ShowsContract(Run(r, DeployedState(initialPaused, balance, now), ms), result.value))
  {
    hide Scene, Run, EventLog, ShowsContract, AllLegible, S.After, H.HeaderOf, ProjectRaw, Q.ReportOf, Q.InputError;
    var report := Q.ReportOf(rank, Q.SortEndpoints(Q.Snapshots(inputs)), threshold);
    A.ComparisonIsCoherent(rank, inputs, threshold);
    ObservedProjectionShowsContract(r, initialPaused, balance, now, ms, signatures, cfg, u, attempts, views, h, placed,
                                    held, report.safe.agreed, report.finalized.agreed);
  }
}
