/** What an observer holds is what the projector takes in, up to one thing a provider can get wrong: the order of a
    block's transactions. */
module ObservedLogs {
  import opened Wrappers
  import opened ProtocolTypes
  import opened Finality
  import opened ReorgObserver
  import opened ObserverSafety
  import opened ObserverHonest
  import opened ProjectorIntake

  /** The held logs, each once, in any order. */
  ghost predicate Lists(logs: seq<Log>, held: map<LogKey, Log>) {
    && UniquePositions(logs)
    && (forall l :: l in logs ==> KeyOf(l) in held && held[KeyOf(l)] == l)
    && forall key :: key in held ==> held[key] in logs
  }

  /** Anchored logs pass every check but the last; that one just when transactions and positions agree. */
  lemma AnchoredLogsTakenIn(cfg: Config, o: Observed, chain: seq<Header>, lo: int, logs: seq<Log>)
    requires ValidConfig(cfg) && Anchored(cfg, o, chain, lo) && o.head.Some? && Lists(logs, o.logs)
    requires o.head.value.number <= MAX_UINT64
    ensures Intake(logs, o.head.value).Ok? <==> OrderAgrees(logs)
  {
    hide Intake, OrderAgrees, UniquePositions, HeadersOk;
    var head := o.head.value;
    IntakeAccepts(logs, head);
    forall l | l in logs
      ensures LogAnchored(cfg, chain, l) && EntryOk(l, head) && HeadAnchored(l, head)
    {
      assert o.logs[KeyOf(l)] == l;
    }
    forall i, j | 0 <= i < j < |logs|
      ensures logs[i].blockNumber == logs[j].blockNumber ==> logs[i].blockHash == logs[j].blockHash
      ensures logs[i].address == logs[j].address
    {
      assert LogAnchored(cfg, chain, logs[i]) && LogAnchored(cfg, chain, logs[j]);
    }
  }

  lemma {:induction false} HeadFits(cfg: Config, attempts: seq<Provider>)
    ensures var o := After(cfg, attempts); o.head.Some? ==> o.head.value.number <= MAX_UINT64
  {
    hide FindAncestor, LoadHeaders, TakeLogs, Stored;
    if attempts != [] {
      HeadFits(cfg, attempts[..|attempts| - 1]);
    }
  }

  /** After any attempts, with lying providers too: the projector takes the observer's logs in, whatever order they are
      listed in, if and only if within each block later transactions have later positions. */
  lemma HeldLogsTakenIn(cfg: Config, attempts: seq<Provider>, logs: seq<Log>)
    requires ValidConfig(cfg) && After(cfg, attempts).head.Some? && Lists(logs, After(cfg, attempts).logs)
    ensures Intake(logs, After(cfg, attempts).head.value).Ok? <==> OrderAgrees(logs)
  {
    hide Intake, OrderAgrees, Anchored, Lists;
    AlwaysAnchored(cfg, attempts);
    HeadFits(cfg, attempts);
    var o := After(cfg, attempts);
    var chain, lo :| Anchored(cfg, o, chain, lo);
    AnchoredLogsTakenIn(cfg, o, chain, lo, logs);
  }

  // ---------- A provider that gets the order wrong ----------

  const GENESIS := Header(0, 7, 0)
  const EARLY_LATE := Log(1, 0, 7, 0, 1, [0], [])
  const LATE_EARLY := Log(1, 0, 7, 1, 0, [0], [])

  const CARELESS := Provider(Some(0), (tick: nat, n: int) => Some(GENESIS),
                             (first: int, last: int) =>
                               Some([RawLog(Unmarked, EARLY_LATE), RawLog(Unmarked, LATE_EARLY)]))

  const SMALL := Config(1, 0, Limits(1, 1, 2, 1, 2, 2))

  const CARELESSLY_HELD: map<LogKey, Log> := map[LogKey(7, 1) := EARLY_LATE, LogKey(7, 0) := LATE_EARLY]

  lemma CarelessLogsTaken()
    ensures var fetched := [RawLog(Unmarked, EARLY_LATE), RawLog(Unmarked, LATE_EARLY)];
            TakeLogs(SMALL, map[0 := GENESIS], 0, 0, map[], fetched) == Ok(CARELESSLY_HELD)
  {
    var fetched := [RawLog(Unmarked, EARLY_LATE), RawLog(Unmarked, LATE_EARLY)];
    assert fetched[..1][..0] == [] && fetched[..1] == [fetched[0]];
    var headers := map[0 := GENESIS];
    assert TakeLogs(SMALL, headers, 0, 0, map[], fetched[..1][..0]) == Ok(map[]);
    assert TakeLogs(SMALL, headers, 0, 0, map[], fetched[..1]) == Ok(map[LogKey(7, 1) := EARLY_LATE]);
  }

  lemma CarelessSync()
    ensures Sync(SMALL, NOTHING, CARELESS).Ok?
    ensures Sync(SMALL, NOTHING, CARELESS).value.0 == Observed(map[0 := GENESIS], CARELESSLY_HELD, Some(GENESIS))
  {
    CarelessLogsTaken();
    hide TakeLogs;
    var none: map<int, Header> := map[];
    assert HeadersUpTo(none, -1) == none && LogsUpTo(map[], -1) == map[];
    assert LoadHeaders(CARELESS, 1, 0, Some(GENESIS), 2) == Ok([]);
    assert [GENESIS] + [] == [GENESIS];
    assert LoadHeaders(CARELESS, 0, 0, None, 1) == Ok([GENESIS]);
    assert [GENESIS][..0] == [];
    assert Stored(none, []) == none && Stored(none, [GENESIS]) == map[0 := GENESIS];
    assert HeadersFrom(map[0 := GENESIS], -1) == map[0 := GENESIS];
    assert CARELESSLY_HELD.Keys == {LogKey(7, 1), LogKey(7, 0)} && |CARELESSLY_HELD.Keys| == 2;
    assert |CARELESSLY_HELD.Keys| == |CARELESSLY_HELD|;
  }

  /** One synchronization with such a provider succeeds, and the projector refuses what it leaves. */
  lemma CarelessLogsRefused()
    ensures ValidConfig(SMALL) && After(SMALL, [CARELESS]).head == Some(GENESIS)
    ensures Lists([EARLY_LATE, LATE_EARLY], After(SMALL, [CARELESS]).logs)
    ensures Intake([EARLY_LATE, LATE_EARLY], GENESIS).Err?
  {
    hide Sync;
    CarelessSync();
    assert [CARELESS][..0] == [];
    assert After(SMALL, []) == NOTHING;
    var logs := [EARLY_LATE, LATE_EARLY];
    assert logs[0] in logs && logs[1] in logs && !Agree(logs[0], logs[1]);
    IntakeAccepts(logs, GENESIS);
  }

  // ---------- Honest views ----------

  /** In every block the contract's logs lie in the order of their transactions. */
  ghost predicate OrderedBlocks(u: Universe) {
    forall h, l, k :: l in u(h).logs && k in u(h).logs ==> Agree(l, k)
  }

  lemma FaithfulOrder(cfg: Config, u: Universe, o: Observed, h: Bytes32, logs: seq<Log>)
    requires Lawful(cfg, u) && OrderedBlocks(u) && Faithful(cfg, u, o, h) && Lists(logs, o.logs)
    ensures OrderAgrees(logs)
  {
    hide Lawful, ChainLogs, BlockAt, UniquePositions;
    forall l, k | l in logs && k in logs
      ensures Agree(l, k)
    {
      assert l == o.logs[KeyOf(l)] && k == o.logs[KeyOf(k)];
      LogPlace(cfg, u, h, cfg.deploymentBlock, u(h).number, l);
      LogPlace(cfg, u, h, cfg.deploymentBlock, u(h).number, k);
    }
  }

  /** The chain's logs in order: what the projector takes in from an observer whose successes saw honest views. */
  lemma HonestLogsTakenIn(cfg: Config, u: Universe, attempts: seq<Provider>, views: seq<Bytes32>, h: Bytes32,
                          logs: seq<Log>, placed: seq<Log>)
    requires ValidConfig(cfg) && Lawful(cfg, u) && OrderedBlocks(u) && SuccessesHonest(cfg, u, attempts, views)
    requires LastView(cfg, attempts, views) == Some(h) && Lists(logs, After(cfg, attempts).logs)
    requires Ascending(placed) && forall l :: l in placed <==> l in ChainLogs(u, h, cfg.deploymentBlock, u(h).number)
    ensures After(cfg, attempts).head == Some(HeaderOf(u, h))
    ensures Intake(logs, HeaderOf(u, h)) == Ok(placed)
  {
    hide After, LastView, SuccessesHonest, Lawful, ChainLogs, OrderedBlocks, HeaderOf;
    AlwaysFaithful(cfg, u, attempts, views);
    var o := After(cfg, attempts);
    FaithfulOrder(cfg, u, o, h, logs);
    HeldLogsTakenIn(cfg, attempts, logs);
    IntakeSorts(logs, o.head.value);
    ShownList(cfg, u, o, h, logs);
    AscendingIsUnique(SortLogs(logs), placed);
  }

  lemma IntakeSorts(logs: seq<Log>, head: Header)
    requires Intake(logs, head).Ok?
    ensures Intake(logs, head).value == SortLogs(logs) && Ascending(SortLogs(logs))
    ensures forall l :: l in SortLogs(logs) <==> l in logs
  {
    hide SortLogs, PassFault, Contracts, NeighboursInOrder, EntryOk;
    IntakeAccepts(logs, head);
    SortedAscends(logs);
    SortHas(logs);
  }

  lemma ShownList(cfg: Config, u: Universe, o: Observed, h: Bytes32, logs: seq<Log>)
    requires Faithful(cfg, u, o, h) && Lists(logs, o.logs)
    ensures forall l :: l in logs <==> l in ChainLogs(u, h, cfg.deploymentBlock, u(h).number)
  {
    hide ChainLogs, UniquePositions;
  }
}
