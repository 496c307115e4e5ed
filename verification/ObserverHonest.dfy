/** Incremental equals from scratch: when each successful synchronization saw one stable honest view, the observer
    holds exactly the logs of the final chain from the deployment block on, whatever branches came before. */
module ObserverHonest {
  import opened Wrappers
  import opened ProtocolTypes
  import opened Finality
  import opened ReorgObserver
  import opened ObserverSafety

  // ---------- Blocks and chains ----------

  /** A block hash fixes the block: its number, its parent and the contract's logs in it. */
  datatype Block = Block(number: nat, parentHash: Bytes32, logs: set<Log>)

  type Universe = Bytes32 -> Block

  predicate LogOf(cfg: Config, u: Universe, h: Bytes32, log: Log) {
    log.blockHash == h && log.blockNumber == u(h).number && log.address == cfg.address
  }

  ghost predicate Lawful(cfg: Config, u: Universe) {
    && (forall h :: u(h).number > 0 ==> u(u(h).parentHash).number == u(h).number - 1)
    && (forall h, log :: log in u(h).logs ==> LogOf(cfg, u, h, log))
    && (forall h, l, k :: l in u(h).logs && k in u(h).logs && l.logIndex == k.logIndex ==> l == k)
  }

  function HeaderOf(u: Universe, h: Bytes32): Header {
    Header(u(h).number, h, u(h).parentHash)
  }

  /** The block at height n on the chain that ends in block h. */
  function BlockAt(u: Universe, h: Bytes32, n: nat): Bytes32
    decreases u(h).number
  {
    if n >= u(h).number || u(u(h).parentHash).number >= u(h).number then h else BlockAt(u, u(h).parentHash, n)
  }

  function ChainHeader(u: Universe, h: Bytes32, n: nat): Header {
    HeaderOf(u, BlockAt(u, h, n))
  }

  /** The contract's logs in blocks first to last of the chain that ends in block h. */
  function ChainLogs(u: Universe, h: Bytes32, first: nat, last: int): set<Log>
    decreases last - first
  {
    if last < first then {} else ChainLogs(u, h, first, last - 1) + u(BlockAt(u, h, last)).logs
  }

  lemma {:induction false} BlockAtHeight(cfg: Config, u: Universe, h: Bytes32, n: nat)
    requires Lawful(cfg, u) && n <= u(h).number
    ensures u(BlockAt(u, h, n)).number == n
    ensures n > 0 ==> u(BlockAt(u, h, n)).parentHash == BlockAt(u, h, n - 1)
    decreases u(h).number
  {
    if n < u(h).number {
      BlockAtHeight(cfg, u, u(h).parentHash, n);
    } else if n > 0 {
      assert BlockAt(u, h, n - 1) == BlockAt(u, u(h).parentHash, n - 1);
    }
  }

  /** The chain below a block of a chain is that block's own chain. */
  lemma {:induction false} ChainBelow(cfg: Config, u: Universe, h: Bytes32, n: nat, m: nat)
    requires Lawful(cfg, u) && m <= n <= u(h).number
    ensures BlockAt(u, BlockAt(u, h, n), m) == BlockAt(u, h, m)
    decreases u(h).number
  {
    if n < u(h).number {
      ChainBelow(cfg, u, u(h).parentHash, n, m);
    }
  }

  /** Two chains that meet at one height agree below it. */
  lemma MeetingChains(cfg: Config, u: Universe, g: Bytes32, h: Bytes32, n: nat, m: nat)
    requires Lawful(cfg, u) && m <= n <= u(g).number && n <= u(h).number && BlockAt(u, g, n) == BlockAt(u, h, n)
    ensures BlockAt(u, g, m) == BlockAt(u, h, m)
  {
    ChainBelow(cfg, u, g, n, m);
    ChainBelow(cfg, u, h, n, m);
  }

  lemma {:induction false} MeetingLogs(cfg: Config, u: Universe, g: Bytes32, h: Bytes32, first: nat, n: int)
    requires Lawful(cfg, u) && n <= u(g).number && n <= u(h).number
    requires n >= first ==> BlockAt(u, g, n) == BlockAt(u, h, n)
    ensures ChainLogs(u, g, first, n) == ChainLogs(u, h, first, n)
    decreases n - first
  {
    hide Lawful, BlockAt;
    if n >= first {
      if n > first {
        MeetingChains(cfg, u, g, h, n, n - 1);
      }
      MeetingLogs(cfg, u, g, h, first, n - 1);
    }
  }

  lemma {:induction false} LogsSplit(u: Universe, h: Bytes32, first: nat, mid: int, last: int)
    requires first - 1 <= mid <= last
    ensures ChainLogs(u, h, first, last) == ChainLogs(u, h, first, mid) + ChainLogs(u, h, mid + 1, last)
    decreases last - mid
  {
    if mid < last {
      LogsSplit(u, h, first, mid, last - 1);
    }
  }

  /** A chain log lies in the block of its height. */
  lemma {:induction false} LogPlace(cfg: Config, u: Universe, h: Bytes32, first: nat, last: int, log: Log)
    requires Lawful(cfg, u) && last <= u(h).number && log in ChainLogs(u, h, first, last)
    ensures first <= log.blockNumber <= last && log in u(BlockAt(u, h, log.blockNumber)).logs
    ensures log.address == cfg.address && log.blockHash == BlockAt(u, h, log.blockNumber)
    decreases last - first
  {
    if log in u(BlockAt(u, h, last)).logs {
      BlockAtHeight(cfg, u, h, last);
      assert LogOf(cfg, u, BlockAt(u, h, last), log);
    } else {
      LogPlace(cfg, u, h, first, last - 1, log);
    }
  }

  /** On one chain a key names one log. */
  lemma KeyNamesLog(cfg: Config, u: Universe, h: Bytes32, first: nat, last: int, l: Log, k: Log)
    requires Lawful(cfg, u) && last <= u(h).number
    requires l in ChainLogs(u, h, first, last) && k in ChainLogs(u, h, first, last) && KeyOf(l) == KeyOf(k)
    ensures l == k
  {
    LogPlace(cfg, u, h, first, last, l);
    LogPlace(cfg, u, h, first, last, k);
    assert LogOf(cfg, u, l.blockHash, l) && LogOf(cfg, u, k.blockHash, k);
  }

  // ---------- Honest answers and a faithful observer ----------

  predicate Answers(raws: seq<RawLog>, log: Log) {
    RawLog(Unmarked, log) in raws
  }

  /** One view throughout a synchronization: the chain that ends in block h, its logs in any order, with any repeats
      and with any logs marked as removed beside them. */
  ghost predicate Honest(u: Universe, h: Bytes32, p: Provider) {
    && p.blockNumber == Some(u(h).number)
    && (forall tick, n: nat :: n <= u(h).number ==> p.header(tick, n) == Some(ChainHeader(u, h, n)))
    && forall first: nat, last: nat :: first <= last <= u(h).number ==>
         && p.logs(first, last).Some?
         && (forall raw :: raw in p.logs(first, last).value ==> raw.marker != MalformedMarker)
         && (forall log :: Answers(p.logs(first, last).value, log) <==> log in ChainLogs(u, h, first, last))
  }

  /** The observer shows the chain that ends in block h. */
  ghost predicate Faithful(cfg: Config, u: Universe, o: Observed, h: Bytes32) {
    && o.head == Some(HeaderOf(u, h))
    && 0 <= cfg.deploymentBlock <= u(h).number
    && (forall n :: HeaderAt(o.headers, n).Some? ==>
          cfg.deploymentBlock <= n <= u(h).number && HeaderAt(o.headers, n) == Some(ChainHeader(u, h, n)))
    && ShowsLogs(cfg, u, o.logs, h, u(h).number)
  }

  /** The stored logs are exactly the chain's, each under its own key. */
  ghost predicate ShowsLogs(cfg: Config, u: Universe, logs: map<LogKey, Log>, h: Bytes32, last: int) {
    && cfg.deploymentBlock >= 0
    && (forall key :: key in logs ==> KeyOf(logs[key]) == key && logs[key] in ChainLogs(u, h, cfg.deploymentBlock, last))
    && (forall log :: log in ChainLogs(u, h, cfg.deploymentBlock, last) ==> KeyOf(log) in logs && logs[KeyOf(log)] == log)
  }

  /** Showing the same chain means holding the same map. */
  lemma ShownLogsAreUnique(cfg: Config, u: Universe, a: map<LogKey, Log>, b: map<LogKey, Log>, h: Bytes32, last: int)
    requires ShowsLogs(cfg, u, a, h, last) && ShowsLogs(cfg, u, b, h, last)
    ensures a == b
  {
    assert forall key :: key in a ==> KeyOf(a[key]) == key && key in b && b[key] == a[key];
    assert forall key :: key in b ==> KeyOf(b[key]) == key && key in a;
  }

  // ---------- The search on an honest view ----------

  /** The highest block at or below n that is stored and on the chain of h; None when there is none worth reading. */
  function Highest(cfg: Config, u: Universe, headers: map<int, Header>, h: Bytes32, n: nat): Option<nat> {
    if HeaderAt(headers, n) == Some(ChainHeader(u, h, n)) then Some(n)
    else if n == 0 then None
    else Highest(cfg, u, headers, h, n - 1)
  }

  /** Where a fruitless search stops reading. */
  function SearchFloor(cfg: Config): nat {
    if cfg.deploymentBlock >= 2 then cfg.deploymentBlock - 2 else 0
  }

  function SearchEnd(cfg: Config, u: Universe, headers: map<int, Header>, h: Bytes32, n: nat): nat {
    var found := Highest(cfg, u, headers, h, n);
    if found.Some? then found.value else SearchFloor(cfg)
  }

  lemma HonestRead(cfg: Config, u: Universe, h: Bytes32, p: Provider, n: nat, tick: nat)
    requires Lawful(cfg, u) && Honest(u, h, p) && n <= u(h).number <= MAX_UINT64
    ensures ReadHeader(p, tick, n) == Ok(ChainHeader(u, h, n)) && ChainHeader(u, h, n).number == n
    ensures n > 0 ==> Extends(ChainHeader(u, h, n), ChainHeader(u, h, n - 1))
    ensures n == u(h).number ==> ChainHeader(u, h, n) == HeaderOf(u, h)
  {
    BlockAtHeight(cfg, u, h, n);
    if n > 0 {
      BlockAtHeight(cfg, u, h, n - 1);
    }
  }

  /** On an honest view the search finds the highest shared stored block, or nothing when there is none, and fails
      only when the blocks it must step over outnumber the traversal limit. */
  lemma {:induction false} HonestSearch(cfg: Config, u: Universe, headers: map<int, Header>, h: Bytes32, p: Provider,
                                        n: nat, traversed: nat, tick: nat)
    requires Lawful(cfg, u) && Honest(u, h, p) && u(h).number <= MAX_UINT64
    requires 0 <= cfg.deploymentBlock && n <= u(h).number && n >= SearchFloor(cfg)
    requires forall m :: HeaderAt(headers, m).Some? ==> m >= cfg.deploymentBlock
    requires traversed <= cfg.limits.maxBlockSpan + cfg.limits.maxReorgDepth
    ensures var end := SearchEnd(cfg, u, headers, h, n);
            var found := Highest(cfg, u, headers, h, n);
            && end <= n
            && FindAncestor(cfg, headers, p, ChainHeader(u, h, n), traversed, tick)
               == if traversed + n - end > cfg.limits.maxBlockSpan + cfg.limits.maxReorgDepth then Err(TraversalExceeded)
                  else Ok(Search(if found.Some? then Some(ChainHeader(u, h, found.value)) else None, tick + n - end))
    decreases n
  {
    hide Honest, Lawful, ChainHeader, ReadHeader, Extends;
    HonestRead(cfg, u, h, p, n, tick);
    if HeaderAt(headers, n) == Some(ChainHeader(u, h, n)) {
    } else if n < cfg.deploymentBlock - 1 || n == 0 {
      NothingBelow(cfg, u, headers, h, n);
    } else {
      HonestRead(cfg, u, h, p, n - 1, tick);
      if traversed + 1 <= cfg.limits.maxBlockSpan + cfg.limits.maxReorgDepth {
        HonestSearch(cfg, u, headers, h, p, n - 1, traversed + 1, tick + 1);
      } else {
        EndBelow(cfg, u, headers, h, n - 1);
      }
    }
  }

  lemma {:induction false} NothingBelow(cfg: Config, u: Universe, headers: map<int, Header>, h: Bytes32, n: nat)
    requires forall m :: HeaderAt(headers, m).Some? ==> m >= cfg.deploymentBlock
    requires n < cfg.deploymentBlock || (n == 0 && HeaderAt(headers, 0) != Some(ChainHeader(u, h, 0)))
    ensures Highest(cfg, u, headers, h, n) == None
  {
    if n > 0 {
      NothingBelow(cfg, u, headers, h, n - 1);
    }
  }

  lemma {:induction false} EndBelow(cfg: Config, u: Universe, headers: map<int, Header>, h: Bytes32, n: nat)
    requires n >= SearchFloor(cfg)
    ensures SearchEnd(cfg, u, headers, h, n) <= n
  {
    if n > SearchFloor(cfg) && HeaderAt(headers, n) != Some(ChainHeader(u, h, n)) {
      EndBelow(cfg, u, headers, h, n - 1);
    } else if n == SearchFloor(cfg) {
      HighestAtMost(cfg, u, headers, h, n);
    }
  }

  lemma {:induction false} HighestAtMost(cfg: Config, u: Universe, headers: map<int, Header>, h: Bytes32, n: nat)
    ensures var found := Highest(cfg, u, headers, h, n);
            found.Some? ==> && found.value <= n
                            && HeaderAt(headers, found.value) == Some(ChainHeader(u, h, found.value))
    ensures forall m: nat :: m <= n && HeaderAt(headers, m) == Some(ChainHeader(u, h, m)) ==>
              Highest(cfg, u, headers, h, n).Some? && m <= Highest(cfg, u, headers, h, n).value
  {
    if HeaderAt(headers, n) != Some(ChainHeader(u, h, n)) && n > 0 {
      HighestAtMost(cfg, u, headers, h, n - 1);
    }
  }

  /** A shared block within the reorg depth is always within the traversal limit. */
  lemma WithinDepthIsWithinTraversal(cfg: Config, u: Universe, o: Observed, h: Bytes32, p: Provider)
    requires ValidConfig(cfg) && Lawful(cfg, u) && Honest(u, h, p) && o.head.Some?
    requires SpanFailure(cfg, o, u(h).number) == None
    requires forall m :: HeaderAt(o.headers, m).Some? ==> m >= cfg.deploymentBlock
    requires Highest(cfg, u, o.headers, h, u(h).number).Some?
    requires o.head.value.number - Highest(cfg, u, o.headers, h, u(h).number).value <= cfg.limits.maxReorgDepth
    ensures exists tick :: FindAncestor(cfg, o.headers, p, ChainHeader(u, h, u(h).number), 0, 1)
              == Ok(Search(Some(ChainHeader(u, h, Highest(cfg, u, o.headers, h, u(h).number).value)), tick))
  {
    HonestSearch(cfg, u, o.headers, h, p, u(h).number, 0, 1);
  }

  // ---------- One synchronization with an honest view ----------

  lemma {:induction false} HonestLoad(cfg: Config, u: Universe, h: Bytes32, p: Provider, first: nat, last: int,
                                      previous: Option<Header>, tick: nat)
    requires Lawful(cfg, u) && Honest(u, h, p) && first <= last + 1 && last <= u(h).number <= MAX_UINT64
    requires previous.Some? ==> first > 0 && previous.value == ChainHeader(u, h, first - 1)
    ensures var loaded := LoadHeaders(p, first, last, previous, tick);
            && loaded.Ok? && |loaded.value| == last - first + 1
            && forall i :: 0 <= i < |loaded.value| ==> loaded.value[i] == ChainHeader(u, h, first + i)
    decreases last - first
  {
    hide Honest, Lawful, ChainHeader, ReadHeader, Extends;
    if first <= last {
      HonestRead(cfg, u, h, p, first, tick);
      HonestLoad(cfg, u, h, p, first + 1, last, Some(ChainHeader(u, h, first)), tick + 1);
    }
  }

  /** Intake keeps what was known and adds exactly what the answer holds. */
  lemma {:induction false} TakenExactly(cfg: Config, headers: map<int, Header>, first: int, last: int,
                                        logs: map<LogKey, Log>, fetched: seq<RawLog>)
    requires TakeLogs(cfg, headers, first, last, logs, fetched).Ok?
    ensures var taken := TakeLogs(cfg, headers, first, last, logs, fetched).value;
            && (forall key :: key in logs ==> key in taken && taken[key] == logs[key])
            && (forall key :: key in taken && key !in logs ==>
                  KeyOf(taken[key]) == key && Answers(fetched, taken[key]))
            && (forall log :: Answers(fetched, log) ==> KeyOf(log) in taken && taken[KeyOf(log)] == log)
  {
    if fetched != [] {
      var n := |fetched| - 1;
      TakenExactly(cfg, headers, first, last, logs, fetched[..n]);
      assert fetched == fetched[..n] + [fetched[n]];
      assert forall log :: Answers(fetched, log) ==> Answers(fetched[..n], log) || fetched[n] == RawLog(Unmarked, log);
    }
  }

  /** Adding the rest of the chain to the logs of its beginning shows the whole. */
  lemma ShowsMore(cfg: Config, u: Universe, kept: map<LogKey, Log>, taken: map<LogKey, Log>, raws: seq<RawLog>,
                  h: Bytes32, mid: int, last: int)
    requires Lawful(cfg, u) && cfg.deploymentBlock - 1 <= mid <= last <= u(h).number
    requires ShowsLogs(cfg, u, kept, h, mid)
    requires forall log :: Answers(raws, log) <==> log in ChainLogs(u, h, mid + 1, last)
    requires forall key :: key in kept ==> key in taken && taken[key] == kept[key]
    requires forall key :: key in taken && key !in kept ==> KeyOf(taken[key]) == key && Answers(raws, taken[key])
    requires forall log :: Answers(raws, log) ==> KeyOf(log) in taken && taken[KeyOf(log)] == log
    ensures ShowsLogs(cfg, u, taken, h, last)
  {
    hide ChainLogs, Answers, Lawful;
    LogsSplit(u, h, cfg.deploymentBlock, mid, last);
  }

  /** Dropping the logs above a shared block leaves those both chains have. */
  lemma KeptShows(cfg: Config, u: Universe, logs: map<LogKey, Log>, g: Bytes32, h: Bytes32, mid: int)
    requires Lawful(cfg, u) && 0 <= cfg.deploymentBlock <= u(g).number
    requires ShowsLogs(cfg, u, logs, g, u(g).number)
    requires cfg.deploymentBlock - 1 <= mid <= u(g).number && mid <= u(h).number
    requires mid >= cfg.deploymentBlock ==> BlockAt(u, g, mid) == BlockAt(u, h, mid)
    ensures ShowsLogs(cfg, u, LogsUpTo(logs, mid), h, mid)
  {
    hide ChainLogs, Lawful, BlockAt;
    LogsSplit(u, g, cfg.deploymentBlock, mid, u(g).number);
    MeetingLogs(cfg, u, g, h, cfg.deploymentBlock, mid);
    var kept := LogsUpTo(logs, mid);
    forall key | key in kept
      ensures KeyOf(kept[key]) == key && kept[key] in ChainLogs(u, h, cfg.deploymentBlock, mid)
    {
      if kept[key] in ChainLogs(u, g, mid + 1, u(g).number) {
        LogPlace(cfg, u, g, mid + 1, u(g).number, kept[key]);
      }
    }
    forall log | log in ChainLogs(u, h, cfg.deploymentBlock, mid)
      ensures KeyOf(log) in kept && kept[KeyOf(log)] == log
    {
      LogPlace(cfg, u, g, cfg.deploymentBlock, mid, log);
    }
  }

  /** The observer before a synchronization: nothing yet, or faithful to some chain. */
  ghost predicate Trusted(cfg: Config, u: Universe, o: Observed) {
    o == NOTHING || exists g :: Faithful(cfg, u, o, g)
  }

  /** The ancestor a search may hand over on the way from any trusted state to the chain of h. */
  ghost predicate SharedBlock(cfg: Config, u: Universe, o: Observed, h: Bytes32, a: Option<Header>) {
    a.Some? ==> && 0 <= a.value.number <= u(h).number && HeaderAt(o.headers, a.value.number) == a
                && a.value == ChainHeader(u, h, a.value.number)
  }

  lemma SharedLogs(cfg: Config, u: Universe, o: Observed, h: Bytes32, a: Option<Header>)
    requires ValidConfig(cfg) && Lawful(cfg, u) && Trusted(cfg, u, o) && SharedBlock(cfg, u, o, h, a)
    requires cfg.deploymentBlock <= u(h).number
    ensures ShowsLogs(cfg, u, LogsUpTo(o.logs, RetainedBlock(cfg, a)), h, RetainedBlock(cfg, a))
    ensures cfg.deploymentBlock - 1 <= RetainedBlock(cfg, a) <= u(h).number
    ensures forall n :: HeaderAt(o.headers, n).Some? && n <= RetainedBlock(cfg, a) ==>
              cfg.deploymentBlock <= n && HeaderAt(o.headers, n) == Some(ChainHeader(u, h, n))
  {
    var mid := RetainedBlock(cfg, a);
    if o == NOTHING {
      assert mid == cfg.deploymentBlock - 1;
    } else {
      var g :| Faithful(cfg, u, o, g);
      KeptShows(cfg, u, o.logs, g, h, mid);
      forall n | HeaderAt(o.headers, n).Some? && n <= mid
        ensures cfg.deploymentBlock <= n && HeaderAt(o.headers, n) == Some(ChainHeader(u, h, n))
      {
        MeetingChains(cfg, u, g, h, mid, n);
      }
    }
  }

  lemma HonestFetch(cfg: Config, u: Universe, h: Bytes32, p: Provider, first: nat, last: int)
    requires Honest(u, h, p) && last == u(h).number && first <= last + 1 && FetchLogs(cfg, p, first, last).Ok?
    ensures forall log :: Answers(FetchLogs(cfg, p, first, last).value, log) <==> log in ChainLogs(u, h, first, last)
  {
  }

  lemma FirstIsNatural(cfg: Config, u: Universe, o: Observed, h: Bytes32, a: Option<Header>)
    requires ValidConfig(cfg) && SharedBlock(cfg, u, o, h, a)
    ensures cfg.deploymentBlock >= 0
    ensures a.Some? ==> 0 <= a.value.number <= u(h).number && a.value == ChainHeader(u, h, a.value.number)
  {
  }

  /** The headers stored after loading are the chain's. */
  lemma HonestHeaders(cfg: Config, u: Universe, o: Observed, h: Bytes32, p: Provider, a: Option<Header>, tick: nat)
    requires ValidConfig(cfg) && Lawful(cfg, u) && Honest(u, h, p) && Trusted(cfg, u, o) && SharedBlock(cfg, u, o, h, a)
    requires cfg.deploymentBlock <= u(h).number <= MAX_UINT64
    ensures var retained, last := RetainedBlock(cfg, a), u(h).number;
            var loaded := LoadHeaders(p, retained + 1, last, a, tick);
            && loaded.Ok? && |loaded.value| == last - retained
            && (|loaded.value| > 0 ==> loaded.value[|loaded.value| - 1] == HeaderOf(u, h))
            && var headers := Stored(HeadersUpTo(o.headers, retained), loaded.value);
            && (forall n :: HeaderAt(headers, n).Some? ==>
                  cfg.deploymentBlock <= n <= last && HeaderAt(headers, n) == Some(ChainHeader(u, h, n)))
            && (forall n :: retained < n <= last ==> HeaderAt(headers, n).Some?)
  {
    hide Honest, Lawful, LoadHeaders, Stored, Trusted, ChainLogs, ShowsLogs, ChainHeader, Run, SharedBlock, ValidConfig;
    hide HeadersUpTo, LogsUpTo, HeaderOf, HeaderAt;
    FirstIsNatural(cfg, u, o, h, a);
    var retained, last := RetainedBlock(cfg, a), u(h).number;
    SharedLogs(cfg, u, o, h, a);
    HonestLoad(cfg, u, h, p, retained + 1, last, a, tick);
    LoadedIsRun(p, retained + 1, last, a, tick);
    var loaded := LoadHeaders(p, retained + 1, last, a, tick).value;
    JoinedHeaders(o.headers, retained, loaded, a);
    HonestRead(cfg, u, h, p, last, 0);
    var headers := Stored(HeadersUpTo(o.headers, retained), loaded);
    ChainIsStored(cfg, u, h, o.headers, headers, loaded, retained, last);
  }

  lemma ChainIsStored(cfg: Config, u: Universe, h: Bytes32, old_: map<int, Header>, headers: map<int, Header>,
                      loaded: seq<Header>, retained: int, last: int)
    requires 0 <= cfg.deploymentBlock && cfg.deploymentBlock - 1 <= retained && last == retained + |loaded|
    requires forall i :: 0 <= i < |loaded| ==> loaded[i] == ChainHeader(u, h, retained + 1 + i)
    requires forall n :: HeaderAt(old_, n).Some? && n <= retained ==>
               cfg.deploymentBlock <= n && HeaderAt(old_, n) == Some(ChainHeader(u, h, n))
    requires forall n :: HeaderAt(headers, n)
                         == if n <= retained then HeaderAt(old_, n)
                            else if n <= retained + |loaded| then Some(loaded[n - retained - 1]) else None
    ensures forall n :: HeaderAt(headers, n).Some? ==>
              cfg.deploymentBlock <= n <= last && HeaderAt(headers, n) == Some(ChainHeader(u, h, n))
    ensures forall n :: retained < n <= last ==> HeaderAt(headers, n).Some?
  {
    hide HeaderAt, ChainHeader;
    forall n | HeaderAt(headers, n).Some?
      ensures cfg.deploymentBlock <= n <= last && HeaderAt(headers, n) == Some(ChainHeader(u, h, n))
    {
      if retained < n {
        assert loaded[n - retained - 1] == ChainHeader(u, h, retained + 1 + (n - retained - 1));
      }
    }
  }

  lemma HonestRebuild(cfg: Config, u: Universe, o: Observed, h: Bytes32, p: Provider, search: Search)
    requires ValidConfig(cfg) && Lawful(cfg, u) && Honest(u, h, p) && Trusted(cfg, u, o)
    requires cfg.deploymentBlock <= u(h).number <= MAX_UINT64 && SharedBlock(cfg, u, o, h, search.ancestor)
    requires Rebuild(cfg, o, p, HeaderOf(u, h), search).Ok?
    ensures Faithful(cfg, u, Rebuild(cfg, o, p, HeaderOf(u, h), search).value.0, h)
  {
    hide Rebuild, Honest, Lawful, LoadHeaders, TakeLogs, Stored, FetchLogs, Trusted, ChainLogs, ShowsLogs, ChainHeader;
    hide LogsUpTo, HeadersUpTo, SharedBlock, HeaderOf, HeaderAt, HeadersFrom;
    IsHeader(u, h);
    var a, latest := search.ancestor, HeaderOf(u, h);
    var retained, last := RetainedBlock(cfg, a), u(h).number;
    RebuildParts(cfg, o, p, latest, search);
    HonestHeaders(cfg, u, o, h, p, a, search.tick);
    SharedLogs(cfg, u, o, h, a);
    var headers := Stored(HeadersUpTo(o.headers, retained), LoadHeaders(p, retained + 1, last, a, search.tick).value);
    var kept, fetched := LogsUpTo(o.logs, retained), FetchLogs(cfg, p, retained + 1, last).value;
    LogsShown(cfg, u, h, p, headers, kept, retained);
    CutHeaders(headers, last - cfg.limits.maxRetainedHeaders + 1);
  }

  lemma IsHeader(u: Universe, h: Bytes32)
    ensures HeaderOf(u, h).number == u(h).number
  {
  }

  lemma LogsShown(cfg: Config, u: Universe, h: Bytes32, p: Provider, headers: map<int, Header>, kept: map<LogKey, Log>,
                  retained: int)
    requires Lawful(cfg, u) && Honest(u, h, p) && cfg.deploymentBlock - 1 <= retained <= u(h).number
    requires ShowsLogs(cfg, u, kept, h, retained) && FetchLogs(cfg, p, retained + 1, u(h).number).Ok?
    requires TakeLogs(cfg, headers, retained + 1, u(h).number, kept,
                      FetchLogs(cfg, p, retained + 1, u(h).number).value).Ok?
    ensures ShowsLogs(cfg, u, TakeLogs(cfg, headers, retained + 1, u(h).number, kept,
                                       FetchLogs(cfg, p, retained + 1, u(h).number).value).value, h, u(h).number)
  {
    hide Honest, Lawful, TakeLogs, FetchLogs, ChainLogs, ShowsLogs, Answers;
    var last := u(h).number;
    var fetched := FetchLogs(cfg, p, retained + 1, last).value;
    assert retained + 1 >= 0 by { DeploymentIsNatural(cfg, u, kept, h, retained); }
    HonestFetch(cfg, u, h, p, retained + 1, last);
    TakenExactly(cfg, headers, retained + 1, last, kept, fetched);
    ShowsMore(cfg, u, kept, TakeLogs(cfg, headers, retained + 1, last, kept, fetched).value, fetched, h, retained, last);
  }

  lemma DeploymentIsNatural(cfg: Config, u: Universe, logs: map<LogKey, Log>, h: Bytes32, last: int)
    requires ShowsLogs(cfg, u, logs, h, last)
    ensures cfg.deploymentBlock >= 0
  {
  }

  /** What the search hands over on an honest view is a shared block. */
  lemma HonestAncestor(cfg: Config, u: Universe, o: Observed, h: Bytes32, p: Provider)
    requires ValidConfig(cfg) && Lawful(cfg, u) && Honest(u, h, p) && Trusted(cfg, u, o)
    requires cfg.deploymentBlock <= u(h).number <= MAX_UINT64
    requires Search0(cfg, o, p, HeaderOf(u, h)).Ok?
    ensures SharedBlock(cfg, u, o, h, Search0(cfg, o, p, HeaderOf(u, h)).value.ancestor)
  {
    hide Honest, Lawful, FindAncestor, Highest;
    if o.head.Some? {
      HonestRead(cfg, u, h, p, u(h).number, 0);
      HonestSearch(cfg, u, o.headers, h, p, u(h).number, 0, 1);
      HighestAtMost(cfg, u, o.headers, h, u(h).number);
      var found := Highest(cfg, u, o.headers, h, u(h).number);
      if found.Some? {
        HonestRead(cfg, u, h, p, found.value, 0);
      }
    }
  }

  /** A successful synchronization that saw the chain of h throughout shows exactly that chain. */
  lemma HonestSync(cfg: Config, u: Universe, o: Observed, h: Bytes32, p: Provider)
    requires ValidConfig(cfg) && Lawful(cfg, u) && Honest(u, h, p) && Trusted(cfg, u, o)
    requires Sync(cfg, o, p).Ok?
    ensures Faithful(cfg, u, Sync(cfg, o, p).value.0, h)
  {
    hide Lawful, Rebuild, Search0, Faithful, ChainHeader, Trusted, ValidConfig, SharedBlock;
    assert p.blockNumber == Some(u(h).number);
    HonestRead(cfg, u, h, p, u(h).number, 0);
    hide Honest, ReadHeader;
    HonestAncestor(cfg, u, o, h, p);
    HonestRebuild(cfg, u, o, h, p, Search0(cfg, o, p, HeaderOf(u, h)).value);
  }

  // ---------- Any sequence of synchronizations ----------

  /** The view the last successful attempt saw. */
  ghost function LastView(cfg: Config, attempts: seq<Provider>, views: seq<Bytes32>): Option<Bytes32>
    requires |views| == |attempts|
  {
    if attempts == [] then None
    else
      var n := |attempts| - 1;
      if Sync(cfg, After(cfg, attempts[..n]), attempts[n]).Ok? then Some(views[n])
      else LastView(cfg, attempts[..n], views[..n])
  }

  /** Every attempt that succeeded saw one stable honest view; failed ones may have seen anything. */
  ghost predicate SuccessesHonest(cfg: Config, u: Universe, attempts: seq<Provider>, views: seq<Bytes32>) {
    && |views| == |attempts|
    && forall i :: 0 <= i < |attempts| && Sync(cfg, After(cfg, attempts[..i]), attempts[i]).Ok? ==>
         Honest(u, views[i], attempts[i])
  }

  lemma {:induction false} AlwaysFaithful(cfg: Config, u: Universe, attempts: seq<Provider>, views: seq<Bytes32>)
    requires ValidConfig(cfg) && Lawful(cfg, u) && SuccessesHonest(cfg, u, attempts, views)
    ensures match LastView(cfg, attempts, views)
            case None => After(cfg, attempts) == NOTHING
            case Some(h) => Faithful(cfg, u, After(cfg, attempts), h)
  {
    hide Sync, Honest, Lawful, Faithful, ValidConfig;
    if attempts != [] {
      var n := |attempts| - 1;
      assert forall i :: 0 <= i < n ==> attempts[..n][..i] == attempts[..i];
      AlwaysFaithful(cfg, u, attempts[..n], views[..n]);
      var before := After(cfg, attempts[..n]);
      if Sync(cfg, before, attempts[n]).Ok? {
        assert Trusted(cfg, u, before);
        HonestSync(cfg, u, before, views[n], attempts[n]);
      }
    }
  }

  /** Whatever reorganizations and failures came before, the observer holds what a first synchronization with the
      last view would have given it. */
  lemma IncrementalIsFresh(cfg: Config, u: Universe, attempts: seq<Provider>, views: seq<Bytes32>, h: Bytes32,
                           p: Provider)
    requires ValidConfig(cfg) && Lawful(cfg, u) && SuccessesHonest(cfg, u, attempts, views)
    requires LastView(cfg, attempts, views) == Some(h)
    requires Honest(u, h, p) && Sync(cfg, NOTHING, p).Ok?
    ensures var o, scan := After(cfg, attempts), Sync(cfg, NOTHING, p).value.0;
            o.logs == scan.logs && o.head == scan.head
    ensures After(cfg, attempts).logs.Values == ChainLogs(u, h, cfg.deploymentBlock, u(h).number)
  {
    hide Sync, Honest, Lawful, ChainLogs, SuccessesHonest, After, LastView;
    AlwaysFaithful(cfg, u, attempts, views);
    HonestSync(cfg, u, NOTHING, h, p);
    var o := After(cfg, attempts);
    ShownLogsAreUnique(cfg, u, o.logs, Sync(cfg, NOTHING, p).value.0.logs, h, u(h).number);
    ShownValues(cfg, u, o.logs, h, u(h).number);
  }

  lemma ShownValues(cfg: Config, u: Universe, logs: map<LogKey, Log>, h: Bytes32, last: int)
    requires ShowsLogs(cfg, u, logs, h, last)
    ensures logs.Values == ChainLogs(u, h, cfg.deploymentBlock, last)
    ensures |logs| == |ChainLogs(u, h, cfg.deploymentBlock, last)|
  {
    hide ChainLogs;
    var all := ChainLogs(u, h, cfg.deploymentBlock, last);
    assert forall log :: log in all ==> logs[KeyOf(log)] in logs.Values;
    assert logs.Keys == set log | log in all :: KeyOf(log);
    KeysCount(all);
    assert |logs.Keys| == |logs|;
  }

  lemma {:induction false} KeysCount(all: set<Log>)
    requires forall l, k :: l in all && k in all && KeyOf(l) == KeyOf(k) ==> l == k
    ensures |set log | log in all :: KeyOf(log)| == |all|
  {
    if all != {} {
      var log :| log in all;
      KeysCount(all - {log});
      assert (set l | l in all :: KeyOf(l)) == (set l | l in all - {log} :: KeyOf(l)) + {KeyOf(log)};
    }
  }

  // ---------- When an honest synchronization succeeds ----------

  /** Every log the stretch of the chain holds is within the field limits. */
  ghost predicate StretchFits(cfg: Config, u: Universe, h: Bytes32, first: nat, last: int) {
    forall log :: log in ChainLogs(u, h, first, last) ==>
      && 0 <= log.transactionIndex <= MAX_UINT64 && 0 <= log.logIndex <= MAX_UINT64
      && 1 <= |log.topics| <= 4 && |log.data| <= cfg.limits.maxLogDataBytes
  }

  lemma {:induction false} TakeSucceeds(cfg: Config, u: Universe, h: Bytes32, headers: map<int, Header>, mid: int,
                                        kept: map<LogKey, Log>, fetched: seq<RawLog>)
    requires Lawful(cfg, u) && 0 <= cfg.deploymentBlock && cfg.deploymentBlock - 1 <= mid <= u(h).number
    requires ShowsLogs(cfg, u, kept, h, mid)
    requires forall n :: mid < n <= u(h).number ==> HeaderAt(headers, n) == Some(ChainHeader(u, h, n))
    requires forall raw :: raw in fetched ==> raw.marker != MalformedMarker
    requires forall log :: Answers(fetched, log) ==>
               log in ChainLogs(u, h, mid + 1, u(h).number) && WellFormed(log, cfg.limits.maxLogDataBytes)
    ensures var r := TakeLogs(cfg, headers, mid + 1, u(h).number, kept, fetched);
            && r.Ok?
            && forall key :: key in r.value ==>
                 KeyOf(r.value[key]) == key && r.value[key] in ChainLogs(u, h, cfg.deploymentBlock, u(h).number)
  {
    hide Lawful, ChainLogs;
    LogsSplit(u, h, cfg.deploymentBlock, mid, u(h).number);
    if fetched != [] {
      var n := |fetched| - 1;
      assert fetched == fetched[..n] + [fetched[n]];
      assert forall log :: Answers(fetched[..n], log) ==> Answers(fetched, log);
      TakeSucceeds(cfg, u, h, headers, mid, kept, fetched[..n]);
      var log := fetched[n].log;
      if fetched[n].marker == Unmarked {
        assert Answers(fetched, log);
        LogPlace(cfg, u, h, mid + 1, u(h).number, log);
        var taken := TakeLogs(cfg, headers, mid + 1, u(h).number, kept, fetched[..n]).value;
        if KeyOf(log) in taken {
          KeyNamesLog(cfg, u, h, cfg.deploymentBlock, u(h).number, log, taken[KeyOf(log)]);
        }
      }
    }
  }

  lemma {:induction false} TakenFit(cfg: Config, headers: map<int, Header>, first: int, last: int,
                                    logs: map<LogKey, Log>, fetched: seq<RawLog>)
    requires TakeLogs(cfg, headers, first, last, logs, fetched).Ok?
    ensures forall log :: Answers(fetched, log) ==> WellFormed(log, cfg.limits.maxLogDataBytes)
  {
    if fetched != [] {
      var n := |fetched| - 1;
      TakenFit(cfg, headers, first, last, logs, fetched[..n]);
      assert fetched == fetched[..n] + [fetched[n]];
      assert forall log :: Answers(fetched, log) ==> Answers(fetched[..n], log) || fetched[n] == RawLog(Unmarked, log);
    }
  }

  /** An honest rebuild succeeds exactly when the answer is short enough, its logs fit, and the history does. */
  lemma RebuildSucceeds(cfg: Config, u: Universe, o: Observed, h: Bytes32, p: Provider, search: Search)
    requires ValidConfig(cfg) && Lawful(cfg, u) && Honest(u, h, p) && Trusted(cfg, u, o)
    requires cfg.deploymentBlock <= u(h).number <= MAX_UINT64 && SharedBlock(cfg, u, o, h, search.ancestor)
    ensures var first := RetainedBlock(cfg, search.ancestor) + 1;
            && first >= 0
            && (Rebuild(cfg, o, p, HeaderOf(u, h), search).Ok? <==>
                  && FetchLogs(cfg, p, first, u(h).number).Ok?
                  && StretchFits(cfg, u, h, first, u(h).number)
                  && |ChainLogs(u, h, cfg.deploymentBlock, u(h).number)| <= cfg.limits.maxRetainedLogs)
  {
    hide Lawful, Honest, Trusted, SharedBlock, ChainLogs, LoadHeaders, TakeLogs, Stored, HeadersUpTo, LogsUpTo, FetchLogs;
    hide ReadHeader, HeadersFrom, ShowsLogs, ChainHeader, ValidConfig, StretchFits;
    var a, last := search.ancestor, u(h).number;
    FirstIsNatural(cfg, u, o, h, a);
    var retained := RetainedBlock(cfg, a);
    SharedLogs(cfg, u, o, h, a);
    HonestHeaders(cfg, u, o, h, p, a, search.tick);
    HonestRead(cfg, u, h, p, last, search.tick + (last - retained));
    if FetchLogs(cfg, p, retained + 1, last).Ok? {
      var headers := Stored(HeadersUpTo(o.headers, retained), LoadHeaders(p, retained + 1, last, a, search.tick).value);
      var kept := LogsUpTo(o.logs, retained);
      TakeExactly(cfg, u, h, p, headers, retained, kept);
    }
  }

  /** Honest logs are taken in exactly when they fit, and then number as many as the chain has. */
  lemma TakeExactly(cfg: Config, u: Universe, h: Bytes32, p: Provider, headers: map<int, Header>, mid: int,
                    kept: map<LogKey, Log>)
    requires Lawful(cfg, u) && Honest(u, h, p) && 0 <= cfg.deploymentBlock && cfg.deploymentBlock - 1 <= mid <= u(h).number
    requires ShowsLogs(cfg, u, kept, h, mid)
    requires forall n :: mid < n <= u(h).number ==> HeaderAt(headers, n) == Some(ChainHeader(u, h, n))
    requires FetchLogs(cfg, p, mid + 1, u(h).number).Ok?
    ensures var taken := TakeLogs(cfg, headers, mid + 1, u(h).number, kept, FetchLogs(cfg, p, mid + 1, u(h).number).value);
            && (taken.Ok? <==> StretchFits(cfg, u, h, mid + 1, u(h).number))
            && (taken.Ok? ==> |taken.value| == |ChainLogs(u, h, cfg.deploymentBlock, u(h).number)|)
  {
    hide Lawful, Honest, ChainLogs, TakeLogs, FetchLogs, ShowsLogs, ChainHeader, Answers;
    var last := u(h).number;
    var fetched := FetchLogs(cfg, p, mid + 1, last).value;
    HonestFetch(cfg, u, h, p, mid + 1, last);
    HonestMarkers(cfg, u, h, p, mid + 1, last);
    if StretchFits(cfg, u, h, mid + 1, last) {
      TakeSucceeds(cfg, u, h, headers, mid, kept, fetched);
    }
    if TakeLogs(cfg, headers, mid + 1, last, kept, fetched).Ok? {
      TakenFit(cfg, headers, mid + 1, last, kept, fetched);
      LogsShown(cfg, u, h, p, headers, kept, mid);
      ShownValues(cfg, u, TakeLogs(cfg, headers, mid + 1, last, kept, fetched).value, h, last);
    }
  }

  lemma HonestMarkers(cfg: Config, u: Universe, h: Bytes32, p: Provider, first: int, last: int)
    requires Honest(u, h, p) && last == u(h).number && 0 <= first <= last + 1 && FetchLogs(cfg, p, first, last).Ok?
    ensures forall raw :: raw in FetchLogs(cfg, p, first, last).value ==> raw.marker != MalformedMarker
  {
  }

  /** The exact condition under which a synchronization with an honest view succeeds. */
  lemma HonestSyncSucceeds(cfg: Config, u: Universe, o: Observed, h: Bytes32, p: Provider)
    requires ValidConfig(cfg) && Lawful(cfg, u) && Honest(u, h, p) && Trusted(cfg, u, o)
    requires forall m :: HeaderAt(o.headers, m).Some? ==> m >= cfg.deploymentBlock
    ensures var last := u(h).number;
            var found := Highest(cfg, u, o.headers, h, last);
            var first := if o.head.Some? && found.Some? then found.value + 1 else cfg.deploymentBlock;
            Sync(cfg, o, p).Ok? <==>
              && cfg.deploymentBlock <= last <= MAX_UINT64
              && (if o.head == None then last - cfg.deploymentBlock < cfg.limits.maxBlockSpan
                  else o.head.value.number - cfg.limits.maxReorgDepth <= last
                       && last <= o.head.value.number + cfg.limits.maxBlockSpan)
              && (o.head.Some? ==>
                    && last - SearchEnd(cfg, u, o.headers, h, last) <= cfg.limits.maxBlockSpan + cfg.limits.maxReorgDepth
                    && o.head.value.number - first + 1 <= cfg.limits.maxReorgDepth)
              && (first <= last ==>
                    p.logs(first, last).Some? && |p.logs(first, last).value| <= cfg.limits.maxLogsPerSync)
              && StretchFits(cfg, u, h, first, last)
              && |ChainLogs(u, h, cfg.deploymentBlock, last)| <= cfg.limits.maxRetainedLogs
  {
    hide Lawful, Rebuild, FindAncestor, ChainHeader, Trusted, SharedBlock, Honest, ReadHeader, StretchFits, ChainLogs;
    hide Highest, SearchEnd;
    var last := u(h).number;
    ViewNumber(u, h, p);
    if SpanFailure(cfg, o, last) == None {
      HonestRead(cfg, u, h, p, last, 0);
      if o.head.Some? {
        HonestSearch(cfg, u, o.headers, h, p, last, 0, 1);
        HighestAtMost(cfg, u, o.headers, h, last);
        var found := Highest(cfg, u, o.headers, h, last);
        if found.Some? {
          HonestRead(cfg, u, h, p, found.value, 0);
        }
      }
      if Search0(cfg, o, p, HeaderOf(u, h)).Ok? {
        HonestAncestor(cfg, u, o, h, p);
        RebuildSucceeds(cfg, u, o, h, p, Search0(cfg, o, p, HeaderOf(u, h)).value);
      }
    }
  }

  lemma ViewNumber(u: Universe, h: Bytes32, p: Provider)
    requires Honest(u, h, p)
    ensures p.blockNumber == Some(u(h).number)
  {
  }

  // ---------- Completeness of the search ----------

  predicate Shared(u: Universe, g: Bytes32, h: Bytes32, n: nat) {
    n <= u(g).number && n <= u(h).number && BlockAt(u, g, n) == BlockAt(u, h, n)
  }

  /** With a full window, a fork no deeper than the limit is found: the search returns the highest block that the
      old and the new chain share. */
  lemma SearchFindsFork(cfg: Config, u: Universe, o: Observed, g: Bytes32, h: Bytes32, p: Provider, n: nat)
    requires ValidConfig(cfg) && Lawful(cfg, u) && Honest(u, h, p) && Faithful(cfg, u, o, g) && WindowFull(cfg, o)
    requires SpanFailure(cfg, o, u(h).number) == None
    requires Shared(u, g, h, n) && n >= cfg.deploymentBlock && u(g).number - n <= cfg.limits.maxReorgDepth
    ensures var r := Search0(cfg, o, p, HeaderOf(u, h));
            && r.Ok? && r.value.ancestor.Some?
            && var a := r.value.ancestor.value;
            && n <= a.number && a == ChainHeader(u, g, a.number) == ChainHeader(u, h, a.number)
            && forall m: nat :: Shared(u, g, h, m) ==> m <= a.number
  {
    hide Honest, Lawful, BlockAt, ShowsLogs, FindAncestor, Highest;
    var last := u(h).number;
    HonestRead(cfg, u, h, p, last, 0);
    HonestSearch(cfg, u, o.headers, h, p, last, 0, 1);
    HighestAtMost(cfg, u, o.headers, h, last);
    assert HeaderAt(o.headers, n) == Some(ChainHeader(u, h, n));
    var top := Highest(cfg, u, o.headers, h, last).value;
    HonestRead(cfg, u, h, p, top, 0);
    forall m: nat | Shared(u, g, h, m)
      ensures m <= top
    {
      if m > n {
        assert HeaderAt(o.headers, m) == Some(ChainHeader(u, h, m));
      }
    }
  }
}
