/** What the observer keeps whatever the provider answers: its headers are the end of one parent-linked chain, and
    every log it holds is anchored in that chain, of which only the recent headers are still stored. */
module ObserverSafety {
  import opened Wrappers
  import opened ProtocolTypes
  import opened Finality
  import opened ReorgObserver

  /** A parent-linked run of headers from the deployment block. */
  predicate Linked(cfg: Config, chain: seq<Header>) {
    && (forall i :: 0 <= i < |chain| ==> chain[i].number == cfg.deploymentBlock + i)
    && forall i :: 0 < i < |chain| ==> chain[i].parentHash == chain[i - 1].hash
  }

  predicate LogAnchored(cfg: Config, chain: seq<Header>, log: Log) {
    && log.address == cfg.address
    && 0 <= log.transactionIndex <= MAX_UINT64 && 0 <= log.logIndex <= MAX_UINT64
    && 1 <= |log.topics| <= 4 && |log.data| <= cfg.limits.maxLogDataBytes
    && 0 <= log.blockNumber - cfg.deploymentBlock < |chain|
    && chain[log.blockNumber - cfg.deploymentBlock].hash == log.blockHash
  }

  /** The stored headers are exactly those of the chain from height lo on. */
  ghost predicate HeadersOk(cfg: Config, headers: map<int, Header>, chain: seq<Header>, lo: int) {
    && cfg.deploymentBlock <= lo <= cfg.deploymentBlock + |chain|
    && (chain != [] ==> lo < cfg.deploymentBlock + |chain|)
    && cfg.deploymentBlock + |chain| - lo <= cfg.limits.maxRetainedHeaders
    && (forall n :: HeaderAt(headers, n)
                    == if lo <= n < cfg.deploymentBlock + |chain| then Some(chain[n - cfg.deploymentBlock]) else None)
  }

  ghost predicate LogsOk(cfg: Config, logs: map<LogKey, Log>, chain: seq<Header>) {
    forall key :: key in logs ==> KeyOf(logs[key]) == key && LogAnchored(cfg, chain, logs[key])
  }

  predicate HeadOk(head: Option<Header>, chain: seq<Header>) {
    if head == None then chain == [] else chain != [] && head.value == chain[|chain| - 1]
  }

  /** The observer's fields seen against the whole chain it has followed; lo is the first header still stored. */
  ghost predicate Anchored(cfg: Config, o: Observed, chain: seq<Header>, lo: int) {
    && Linked(cfg, chain)
    && HeadOk(o.head, chain)
    && HeadersOk(cfg, o.headers, chain, lo)
    && LogsOk(cfg, o.logs, chain)
    && |o.logs| <= cfg.limits.maxRetainedLogs
  }

  ghost predicate Sound(cfg: Config, o: Observed) {
    exists chain, lo :: Anchored(cfg, o, chain, lo)
  }

  // ---------- The parts of a synchronization ----------

  /** An ancestor is a stored header, no higher than the candidate. */
  lemma {:induction false} AncestorIsStored(cfg: Config, headers: map<int, Header>, p: Provider, candidate: Header,
                                            traversed: nat, tick: nat)
    requires candidate.number >= 0
    requires FindAncestor(cfg, headers, p, candidate, traversed, tick).Ok?
    ensures var a := FindAncestor(cfg, headers, p, candidate, traversed, tick).value.ancestor;
            a.Some? ==> && a.value.number <= candidate.number && HeaderAt(headers, a.value.number) == a
                        && (a.value.number == candidate.number ==> a.value == candidate)
    decreases candidate.number
  {
    if candidate.number >= cfg.deploymentBlock - 1
       && HeaderAt(headers, candidate.number) != Some(candidate) && candidate.number > 0 {
      var parent := ReadHeader(p, tick, candidate.number - 1).value;
      AncestorIsStored(cfg, headers, p, parent, traversed + 1, tick + 1);
    }
  }

  predicate Run(first: int, loaded: seq<Header>, previous: Option<Header>) {
    && (forall i :: 0 <= i < |loaded| ==> loaded[i].number == first + i)
    && (forall i :: 0 < i < |loaded| ==> Extends(loaded[i], loaded[i - 1]))
    && (previous.Some? && |loaded| > 0 ==> Extends(loaded[0], previous.value))
  }

  lemma {:induction false} LoadedIsRun(p: Provider, first: int, last: int, previous: Option<Header>, tick: nat)
    requires LoadHeaders(p, first, last, previous, tick).Ok? && first <= last + 1
    ensures var loaded := LoadHeaders(p, first, last, previous, tick).value;
            |loaded| == last - first + 1 && Run(first, loaded, previous)
    decreases last - first
  {
    if first <= last {
      var h := ReadHeader(p, tick, first).value;
      LoadedIsRun(p, first + 1, last, Some(h), tick + 1);
      var rest := LoadHeaders(p, first + 1, last, Some(h), tick + 1).value;
      assert LoadHeaders(p, first, last, previous, tick).value == [h] + rest;
    }
  }

  lemma {:induction false} StoredAt(headers: map<int, Header>, first: int, loaded: seq<Header>, n: int)
    requires forall i :: 0 <= i < |loaded| ==> loaded[i].number == first + i
    ensures HeaderAt(Stored(headers, loaded), n)
            == if first <= n < first + |loaded| then Some(loaded[n - first]) else HeaderAt(headers, n)
  {
    if loaded != [] {
      StoredAt(headers, first, loaded[..|loaded| - 1], n);
    }
  }

  lemma StoredRun(headers: map<int, Header>, first: int, loaded: seq<Header>, previous: Option<Header>)
    requires Run(first, loaded, previous)
    ensures forall n :: HeaderAt(Stored(headers, loaded), n)
                        == if first <= n < first + |loaded| then Some(loaded[n - first]) else HeaderAt(headers, n)
  {
    hide Stored, HeaderAt;
    forall n
      ensures HeaderAt(Stored(headers, loaded), n)
              == if first <= n < first + |loaded| then Some(loaded[n - first]) else HeaderAt(headers, n)
    {
      StoredAt(headers, first, loaded, n);
    }
  }

  /** Intake adds logs that fit and are anchored, and changes none. */
  lemma {:induction false} TakenLogs(cfg: Config, headers: map<int, Header>, first: int, last: int,
                                     logs: map<LogKey, Log>, fetched: seq<RawLog>)
    requires TakeLogs(cfg, headers, first, last, logs, fetched).Ok?
    ensures var taken := TakeLogs(cfg, headers, first, last, logs, fetched).value;
            && (forall key :: key in logs ==> key in taken && taken[key] == logs[key])
            && (forall key :: key in taken && key !in logs ==>
                  && KeyOf(taken[key]) == key && taken[key].address == cfg.address
                  && WellFormed(taken[key], cfg.limits.maxLogDataBytes)
                  && first <= taken[key].blockNumber <= last
                  && HeaderAt(headers, taken[key].blockNumber).Some?
                  && HeaderAt(headers, taken[key].blockNumber).value.hash == taken[key].blockHash)
  {
    if fetched != [] {
      TakenLogs(cfg, headers, first, last, logs, fetched[..|fetched| - 1]);
    }
  }

  // ---------- One synchronization ----------

  /** The chain after a synchronization that kept everything up to a block and loaded the rest. */
  function NextChain(cfg: Config, chain: seq<Header>, retained: int, loaded: seq<Header>): seq<Header>
    requires cfg.deploymentBlock - 1 <= retained < cfg.deploymentBlock + |chain|
  {
    chain[..retained - cfg.deploymentBlock + 1] + loaded
  }

  function NextLo(cfg: Config, ancestor: Option<Header>, lo: int, latest: int): int {
    var kept := if ancestor.Some? then lo else cfg.deploymentBlock;
    var bound := latest - cfg.limits.maxRetainedHeaders + 1;
    if kept < bound then bound else kept
  }

  lemma NextIsLinked(cfg: Config, chain: seq<Header>, ancestor: Option<Header>, loaded: seq<Header>)
    requires Linked(cfg, chain)
    requires ancestor.Some? ==>
               && 0 <= ancestor.value.number - cfg.deploymentBlock < |chain|
               && chain[ancestor.value.number - cfg.deploymentBlock] == ancestor.value
    requires Run(RetainedBlock(cfg, ancestor) + 1, loaded, ancestor)
    ensures Linked(cfg, NextChain(cfg, chain, RetainedBlock(cfg, ancestor), loaded))
  {
  }

  /** What a search hands over: a stored header at or below the new head. */
  predicate AncestorFits(headers: map<int, Header>, a: Option<Header>, latest: Header) {
    a.Some? ==> && a.value.number <= latest.number && HeaderAt(headers, a.value.number) == a
                && (a.value.number == latest.number ==> a.value == latest)
  }

  /** What loading and storing hand over. */
  ghost predicate Joined(cfg: Config, old_: map<int, Header>, a: Option<Header>, loaded: seq<Header>, latest: Header,
                   headers: map<int, Header>)
  {
    var retained := RetainedBlock(cfg, a);
    && |loaded| == latest.number - retained && (|loaded| > 0 ==> loaded[|loaded| - 1] == latest)
    && Run(retained + 1, loaded, a)
    && (forall n :: HeaderAt(headers, n)
                    == if n <= retained then HeaderAt(old_, n)
                       else if n <= latest.number then Some(loaded[n - retained - 1]) else None)
  }

  lemma NextHead(cfg: Config, old_: map<int, Header>, chain: seq<Header>, lo: int, a: Option<Header>,
                 loaded: seq<Header>, latest: Header, headers: map<int, Header>)
    requires HeadersOk(cfg, old_, chain, lo) && AncestorFits(old_, a, latest) && latest.number >= cfg.deploymentBlock
    requires Joined(cfg, old_, a, loaded, latest, headers)
    ensures cfg.deploymentBlock - 1 <= RetainedBlock(cfg, a) < cfg.deploymentBlock + |chain|
    ensures HeadOk(Some(latest), NextChain(cfg, chain, RetainedBlock(cfg, a), loaded))
    ensures |NextChain(cfg, chain, RetainedBlock(cfg, a), loaded)| == latest.number - cfg.deploymentBlock + 1
  {
  }

  lemma NextHeaders(cfg: Config, old_: map<int, Header>, chain: seq<Header>, lo: int, a: Option<Header>,
                    loaded: seq<Header>, latest: Header, headers: map<int, Header>)
    requires ValidConfig(cfg) && HeadersOk(cfg, old_, chain, lo) && AncestorFits(old_, a, latest)
    requires latest.number >= cfg.deploymentBlock && Joined(cfg, old_, a, loaded, latest, headers)
    ensures RetainedBlock(cfg, a) < cfg.deploymentBlock + |chain|
    ensures HeadersOk(cfg, HeadersFrom(headers, latest.number - cfg.limits.maxRetainedHeaders + 1),
                      NextChain(cfg, chain, RetainedBlock(cfg, a), loaded), NextLo(cfg, a, lo, latest.number))
  {
    hide Run, HeaderAt, HeadersFrom;
    NextHead(cfg, old_, chain, lo, a, loaded, latest, headers);
    CutHeaders(headers, latest.number - cfg.limits.maxRetainedHeaders + 1);
    var kept := RetainedBlock(cfg, a) - cfg.deploymentBlock + 1;
    var next := NextChain(cfg, chain, RetainedBlock(cfg, a), loaded);
    assert forall i :: 0 <= i < |next| ==> next[i] == if i < kept then chain[i] else loaded[i - kept];
  }

  lemma NextLogs(cfg: Config, old_: map<int, Header>, oldLogs: map<LogKey, Log>, chain: seq<Header>, lo: int,
                 a: Option<Header>, loaded: seq<Header>, latest: Header, headers: map<int, Header>,
                 fetched: seq<RawLog>)
    requires HeadersOk(cfg, old_, chain, lo) && LogsOk(cfg, oldLogs, chain) && AncestorFits(old_, a, latest)
    requires latest.number >= cfg.deploymentBlock && Joined(cfg, old_, a, loaded, latest, headers)
    requires var retained := RetainedBlock(cfg, a);
             TakeLogs(cfg, headers, retained + 1, latest.number, LogsUpTo(oldLogs, retained), fetched).Ok?
    ensures RetainedBlock(cfg, a) < cfg.deploymentBlock + |chain|
    ensures var retained := RetainedBlock(cfg, a);
            LogsOk(cfg, TakeLogs(cfg, headers, retained + 1, latest.number, LogsUpTo(oldLogs, retained), fetched).value,
                   NextChain(cfg, chain, retained, loaded))
  {
    hide TakeLogs, HeadersOk, Joined, NextChain, LogAnchored, AncestorFits, Run, Linked;
    NextHead(cfg, old_, chain, lo, a, loaded, latest, headers);
    var retained := RetainedBlock(cfg, a);
    var kept, next := LogsUpTo(oldLogs, retained), NextChain(cfg, chain, retained, loaded);
    TakenLogs(cfg, headers, retained + 1, latest.number, kept, fetched);
    var taken := TakeLogs(cfg, headers, retained + 1, latest.number, kept, fetched).value;
    forall key | key in taken
      ensures KeyOf(taken[key]) == key && LogAnchored(cfg, next, taken[key])
    {
      if key in kept {
        KeptLog(cfg, chain, retained, loaded, oldLogs[key]);
      } else {
        NewLog(cfg, old_, chain, lo, a, loaded, latest, headers, taken[key]);
      }
    }
  }

  lemma KeptLog(cfg: Config, chain: seq<Header>, retained: int, loaded: seq<Header>, log: Log)
    requires cfg.deploymentBlock - 1 <= retained < cfg.deploymentBlock + |chain|
    requires LogAnchored(cfg, chain, log) && log.blockNumber <= retained
    ensures LogAnchored(cfg, NextChain(cfg, chain, retained, loaded), log)
  {
  }

  lemma NewLog(cfg: Config, old_: map<int, Header>, chain: seq<Header>, lo: int, a: Option<Header>,
               loaded: seq<Header>, latest: Header, headers: map<int, Header>, log: Log)
    requires HeadersOk(cfg, old_, chain, lo) && AncestorFits(old_, a, latest)
    requires latest.number >= cfg.deploymentBlock && Joined(cfg, old_, a, loaded, latest, headers)
    requires log.address == cfg.address && WellFormed(log, cfg.limits.maxLogDataBytes)
    requires RetainedBlock(cfg, a) < log.blockNumber <= latest.number
    requires HeaderAt(headers, log.blockNumber).Some? && HeaderAt(headers, log.blockNumber).value.hash == log.blockHash
    ensures RetainedBlock(cfg, a) < cfg.deploymentBlock + |chain|
    ensures LogAnchored(cfg, NextChain(cfg, chain, RetainedBlock(cfg, a), loaded), log)
  {
    var retained := RetainedBlock(cfg, a);
    assert NextChain(cfg, chain, retained, loaded)[log.blockNumber - cfg.deploymentBlock]
        == loaded[log.blockNumber - retained - 1];
  }

  lemma RebuildKeepsAnchored(cfg: Config, o: Observed, p: Provider, latest: Header, search: Search,
                             chain: seq<Header>, lo: int)
    requires ValidConfig(cfg) && Anchored(cfg, o, chain, lo) && latest.number >= cfg.deploymentBlock
    requires AncestorFits(o.headers, search.ancestor, latest) && Rebuild(cfg, o, p, latest, search).Ok?
    ensures var retained := RetainedBlock(cfg, search.ancestor);
            var loaded := LoadHeaders(p, retained + 1, latest.number, search.ancestor, search.tick);
            && loaded.Ok? && retained < cfg.deploymentBlock + |chain|
            && Anchored(cfg, Rebuild(cfg, o, p, latest, search).value.0, NextChain(cfg, chain, retained, loaded.value),
                        NextLo(cfg, search.ancestor, lo, latest.number))
  {
    hide LoadHeaders, TakeLogs, Stored, FetchLogs, ReadHeader, HeadersOk, LogsOk, Joined, Run, LogsUpTo, HeadersUpTo;
    hide Linked, HeadOk, AncestorFits, NextChain, NextLo, Rebuild, HeadersFrom, ValidConfig;
    RebuildParts(cfg, o, p, latest, search);
    hide HeaderAt;
    var a, retained := search.ancestor, RetainedBlock(cfg, search.ancestor);
    var loaded := LoadHeaders(p, retained + 1, latest.number, a, search.tick).value;
    var headers := Stored(HeadersUpTo(o.headers, retained), loaded);
    LoadedIsJoined(cfg, o.headers, p, latest, a, search.tick);
    NextHead(cfg, o.headers, chain, lo, a, loaded, latest, headers);
    NextHeaders(cfg, o.headers, chain, lo, a, loaded, latest, headers);
    NextLogs(cfg, o.headers, o.logs, chain, lo, a, loaded, latest, headers,
             FetchLogs(cfg, p, retained + 1, latest.number).value);
    AnchoredLies(cfg, o.headers, chain, lo, a, latest);
    RunOfJoined(cfg, o.headers, a, loaded, latest, headers);
    NextIsLinked(cfg, chain, a, loaded);
  }

  /** What a successful rebuild went through. */
  lemma RebuildParts(cfg: Config, o: Observed, p: Provider, latest: Header, search: Search)
    requires Rebuild(cfg, o, p, latest, search).Ok?
    ensures var retained := RetainedBlock(cfg, search.ancestor);
            var loaded := LoadHeaders(p, retained + 1, latest.number, search.ancestor, search.tick);
            var fetched := FetchLogs(cfg, p, retained + 1, latest.number);
            && loaded.Ok? && fetched.Ok?
            && (|loaded.value| > 0 ==> loaded.value[|loaded.value| - 1] == latest)
            && var headers := Stored(HeadersUpTo(o.headers, retained), loaded.value);
            var taken := TakeLogs(cfg, headers, retained + 1, latest.number, LogsUpTo(o.logs, retained), fetched.value);
            && taken.Ok? && |taken.value| <= cfg.limits.maxRetainedLogs
            && Rebuild(cfg, o, p, latest, search).value.0
               == Observed(HeadersFrom(headers, latest.number - cfg.limits.maxRetainedHeaders + 1), taken.value,
                           Some(latest))
  {
    hide LoadHeaders, TakeLogs, Stored, FetchLogs, ReadHeader, LogsUpTo, HeadersUpTo, HeadersFrom;
  }

  lemma LoadedIsJoined(cfg: Config, headers: map<int, Header>, p: Provider, latest: Header, a: Option<Header>, tick: nat)
    requires AncestorFits(headers, a, latest) && latest.number >= cfg.deploymentBlock
    requires var loaded := LoadHeaders(p, RetainedBlock(cfg, a) + 1, latest.number, a, tick);
             loaded.Ok? && (|loaded.value| > 0 ==> loaded.value[|loaded.value| - 1] == latest)
    ensures var retained := RetainedBlock(cfg, a);
            var loaded := LoadHeaders(p, retained + 1, latest.number, a, tick).value;
            Joined(cfg, headers, a, loaded, latest, Stored(HeadersUpTo(headers, retained), loaded))
  {
    hide LoadHeaders, Run, Stored, HeadersUpTo, HeaderAt;
    var retained := RetainedBlock(cfg, a);
    var loaded := LoadHeaders(p, retained + 1, latest.number, a, tick).value;
    LoadedIsRun(p, retained + 1, latest.number, a, tick);
    JoinedHeaders(headers, retained, loaded, a);
  }

  /** The map that joins what was kept with a loaded run. */
  lemma JoinedHeaders(headers: map<int, Header>, retained: int, loaded: seq<Header>, previous: Option<Header>)
    requires Run(retained + 1, loaded, previous)
    ensures forall n :: HeaderAt(Stored(HeadersUpTo(headers, retained), loaded), n)
                        == if n <= retained then HeaderAt(headers, n)
                           else if n <= retained + |loaded| then Some(loaded[n - retained - 1]) else None
  {
    hide Run, Stored, HeadersUpTo, HeaderAt;
    StoredRun(HeadersUpTo(headers, retained), retained + 1, loaded, previous);
    CutHeaders(headers, retained);
  }

  lemma CutHeaders(headers: map<int, Header>, block: int)
    ensures forall n :: HeaderAt(HeadersUpTo(headers, block), n) == if n <= block then HeaderAt(headers, n) else None
    ensures forall n :: HeaderAt(HeadersFrom(headers, block), n) == if n >= block then HeaderAt(headers, n) else None
  {
  }

  lemma RunOfJoined(cfg: Config, old_: map<int, Header>, a: Option<Header>, loaded: seq<Header>, latest: Header,
                    headers: map<int, Header>)
    requires Joined(cfg, old_, a, loaded, latest, headers)
    ensures Run(RetainedBlock(cfg, a) + 1, loaded, a)
  {
  }

  lemma AnchoredLies(cfg: Config, headers: map<int, Header>, chain: seq<Header>, lo: int, a: Option<Header>,
                     latest: Header)
    requires HeadersOk(cfg, headers, chain, lo) && AncestorFits(headers, a, latest)
    ensures a.Some? ==> && 0 <= a.value.number - cfg.deploymentBlock < |chain|
                        && chain[a.value.number - cfg.deploymentBlock] == a.value
  {
  }

  /** A successful synchronization with any provider leaves an anchored observer. */
  lemma SyncKeepsAnchored(cfg: Config, o: Observed, p: Provider, chain: seq<Header>, lo: int)
    requires ValidConfig(cfg) && Anchored(cfg, o, chain, lo) && Sync(cfg, o, p).Ok?
    ensures Sound(cfg, Sync(cfg, o, p).value.0)
  {
    hide Anchored, Rebuild, FindAncestor, NextChain, NextLo, LoadHeaders;
    var latest := ReadHeader(p, 0, p.blockNumber.value).value;
    var search := Search0(cfg, o, p, latest).value;
    if o.head.Some? {
      AncestorIsStored(cfg, o.headers, p, latest, 0, 1);
    }
    RebuildKeepsAnchored(cfg, o, p, latest, search, chain, lo);
  }

  // ---------- Any sequence of synchronizations ----------

  /** The observer after a sequence of attempts; a failed one changes nothing. */
  function After(cfg: Config, attempts: seq<Provider>): Observed {
    if attempts == [] then NOTHING
    else
      var before := After(cfg, attempts[..|attempts| - 1]);
      match Sync(cfg, before, attempts[|attempts| - 1])
      case Err(_) => before
      case Ok((o, _)) => o
  }

  lemma {:induction false} AlwaysAnchored(cfg: Config, attempts: seq<Provider>)
    requires ValidConfig(cfg)
    ensures Sound(cfg, After(cfg, attempts))
  {
    hide Sound, Sync, ValidConfig;
    if attempts == [] {
      NothingAnchored(cfg);
    } else {
      var n := |attempts| - 1;
      AlwaysAnchored(cfg, attempts[..n]);
      AttemptKeepsAnchored(cfg, attempts);
    }
  }

  lemma NothingAnchored(cfg: Config)
    requires ValidConfig(cfg)
    ensures Sound(cfg, NOTHING)
  {
    assert Anchored(cfg, NOTHING, [], cfg.deploymentBlock);
  }

  lemma AttemptKeepsAnchored(cfg: Config, attempts: seq<Provider>)
    requires ValidConfig(cfg) && attempts != []
    requires Sound(cfg, After(cfg, attempts[..|attempts| - 1]))
    ensures Sound(cfg, After(cfg, attempts))
  {
    hide Anchored, Sync, ValidConfig;
    var before, last := After(cfg, attempts[..|attempts| - 1]), attempts[|attempts| - 1];
    var chain, lo :| Anchored(cfg, before, chain, lo);
    if Sync(cfg, before, last).Ok? {
      SyncKeepsAnchored(cfg, before, last, chain, lo);
    }
  }

  /** The totals a synchronization reports are those of the retained logs. */
  lemma SizesAddUp(cfg: Config, o: Observed, p: Provider)
    requires Sync(cfg, o, p).Ok?
    ensures var (o', result) := Sync(cfg, o, p).value;
            && |o'.logs| == |o.logs| + result.addedLogs - result.removedLogs
            && (forall key :: key in o.logs && o.logs[key].blockNumber < result.fromBlock ==>
                  key in o'.logs && o'.logs[key] == o.logs[key])
            && o'.head.Some? && o'.head.value.hash == result.headHash && o'.head.value.number == result.toBlock
            && p.blockNumber == Some(result.toBlock)
  {
    hide FindAncestor, LoadHeaders, Stored;
    var latest := ReadHeader(p, 0, p.blockNumber.value).value;
    var search := Search0(cfg, o, p, latest).value;
    var retained := RetainedBlock(cfg, search.ancestor);
    var loaded := LoadHeaders(p, retained + 1, latest.number, search.ancestor, search.tick).value;
    TakenLogs(cfg, Stored(HeadersUpTo(o.headers, retained), loaded), retained + 1, latest.number,
              LogsUpTo(o.logs, retained), FetchLogs(cfg, p, retained + 1, latest.number).value);
  }

  // ---------- The retained window ----------

  function WindowStart(cfg: Config, head: int): int {
    var bound := head - cfg.limits.maxRetainedHeaders + 1;
    if cfg.deploymentBlock < bound then bound else cfg.deploymentBlock
  }

  /** All the headers the limit allows are stored. */
  ghost predicate WindowFull(cfg: Config, o: Observed) {
    o.head.Some? ==>
      forall n :: HeaderAt(o.headers, n).Some? <==> WindowStart(cfg, o.head.value.number) <= n <= o.head.value.number
  }

  /** A synchronization whose head is no lower than the last keeps the window full, whatever the provider says. */
  lemma RisingWindow(cfg: Config, o: Observed, p: Provider)
    requires ValidConfig(cfg) && Sound(cfg, o) && WindowFull(cfg, o) && Sync(cfg, o, p).Ok?
    requires o.head.Some? ==> o.head.value.number <= Sync(cfg, o, p).value.1.toBlock
    ensures WindowFull(cfg, Sync(cfg, o, p).value.0)
  {
    hide Rebuild, FindAncestor, NextChain, LoadHeaders, HeadersOk, LogsOk, Linked, WindowFull, SpanFailure;
    var chain, lo :| Anchored(cfg, o, chain, lo);
    var latest := ReadHeader(p, 0, p.blockNumber.value).value;
    var search := Search0(cfg, o, p, latest).value;
    LatestIsDeployed(cfg, o, p);
    if o.head.Some? {
      AncestorIsStored(cfg, o.headers, p, latest, 0, 1);
      WindowIsLo(cfg, o, chain, lo);
    }
    AnchoredLies(cfg, o.headers, chain, lo, search.ancestor, latest);
    RebuildKeepsAnchored(cfg, o, p, latest, search, chain, lo);
    SizesAddUp(cfg, o, p);
    var loaded := LoadHeaders(p, RetainedBlock(cfg, search.ancestor) + 1, latest.number, search.ancestor, search.tick).value;
    LoIsWindow(cfg, Sync(cfg, o, p).value.0, NextChain(cfg, chain, RetainedBlock(cfg, search.ancestor), loaded),
               NextLo(cfg, search.ancestor, lo, latest.number));
  }

  lemma LatestIsDeployed(cfg: Config, o: Observed, p: Provider)
    requires Sync(cfg, o, p).Ok?
    ensures p.blockNumber.Some? && p.blockNumber.value >= cfg.deploymentBlock
    ensures ReadHeader(p, 0, p.blockNumber.value).value.number == p.blockNumber.value
  {
    hide Rebuild, FindAncestor;
  }

  lemma WindowIsLo(cfg: Config, o: Observed, chain: seq<Header>, lo: int)
    requires ValidConfig(cfg) && Anchored(cfg, o, chain, lo) && WindowFull(cfg, o) && o.head.Some?
    ensures lo == WindowStart(cfg, o.head.value.number)
  {
    hide LogsOk;
    var head := o.head.value.number;
    assert HeaderAt(o.headers, lo).Some? && HeaderAt(o.headers, WindowStart(cfg, head)).Some?;
  }

  lemma LoIsWindow(cfg: Config, o: Observed, chain: seq<Header>, lo: int)
    requires Anchored(cfg, o, chain, lo) && o.head.Some? && lo == WindowStart(cfg, o.head.value.number)
    ensures WindowFull(cfg, o)
  {
    hide LogsOk;
  }

  /** The heads of the successful attempts never fall. */
  ghost predicate Rising(cfg: Config, attempts: seq<Provider>) {
    forall i :: 0 <= i < |attempts| ==>
      var before := After(cfg, attempts[..i]);
      var r := Sync(cfg, before, attempts[i]);
      r.Ok? && before.head.Some? ==> before.head.value.number <= r.value.1.toBlock
  }

  lemma {:induction false} RisingRunsKeepWindow(cfg: Config, attempts: seq<Provider>)
    requires ValidConfig(cfg) && Rising(cfg, attempts)
    ensures WindowFull(cfg, After(cfg, attempts))
  {
    hide Sync, Sound, ValidConfig, WindowFull;
    if attempts == [] {
      assert WindowFull(cfg, NOTHING) by { NothingIsFull(cfg); }
    } else {
      var n := |attempts| - 1;
      assert forall i :: 0 <= i < n ==> attempts[..n][..i] == attempts[..i] && attempts[..n][i] == attempts[i];
      RisingRunsKeepWindow(cfg, attempts[..n]);
      AlwaysAnchored(cfg, attempts[..n]);
      if Sync(cfg, After(cfg, attempts[..n]), attempts[n]).Ok? {
        RisingWindow(cfg, After(cfg, attempts[..n]), attempts[n]);
      }
    }
  }

  lemma NothingIsFull(cfg: Config)
    ensures WindowFull(cfg, NOTHING)
  {
  }
}
