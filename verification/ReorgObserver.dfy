/** The reorg-safe observer: one synchronization against a provider whose every answer may come from another branch.
    Header reads are numbered, so that the same height may be answered differently each time it is read. */
module ReorgObserver {
  import opened Wrappers
  import opened ProtocolTypes
  import opened Finality

  datatype Log = Log(
    address: Address,
    blockNumber: int,
    blockHash: Bytes32,
    transactionIndex: int,
    logIndex: int,
    topics: seq<Bytes32>,
    data: seq<Byte>)

  datatype RemovedMarker = Unmarked | MarkedRemoved | MalformedMarker

  datatype RawLog = RawLog(marker: RemovedMarker, log: Log)

  datatype LogKey = LogKey(blockHash: Bytes32, logIndex: int)

  /** What a provider answers: None is a failed or malformed read. header takes the number of header reads made
      before it in the same synchronization. */
  datatype Provider = Provider(
    blockNumber: Option<int>,
    header: (nat, int) -> Option<Header>,
    logs: (int, int) -> Option<seq<RawLog>>)

  datatype Limits = Limits(
    maxBlockSpan: nat,
    maxReorgDepth: nat,
    maxLogsPerSync: nat,
    maxLogDataBytes: nat,
    maxRetainedHeaders: nat,
    maxRetainedLogs: nat)

  datatype Config = Config(address: Address, deploymentBlock: int, limits: Limits)

  datatype Failure =
    | InvalidConfiguration | HeadBeforeDeployment | InitialSpanExceeded | SpanExceeded | RollbackExceeded
    | HeaderUnavailable | TraversalExceeded | ParentMismatch | ReorgDepthExceeded | HeadChanged | LogsUnavailable
    | TooManyLogs | MalformedLog | LogNotAnchored | ConflictingLog | RetainedLogsExceeded

  datatype SyncResult = SyncResult(
    fromBlock: int,
    toBlock: int,
    commonAncestor: Option<int>,
    reorgDepth: int,
    addedLogs: nat,
    removedLogs: nat,
    headHash: Bytes32)

  /** The observer's private fields. */
  datatype Observed = Observed(headers: map<int, Header>, logs: map<LogKey, Log>, head: Option<Header>)

  const NOTHING := Observed(map[], map[], None)

  predicate ValidConfig(cfg: Config) {
    var l := cfg.limits;
    && 0 <= cfg.deploymentBlock <= MAX_UINT64
    && 0 < l.maxBlockSpan <= 1_000_000 && 0 < l.maxReorgDepth <= 1_000_000
    && l.maxReorgDepth < l.maxRetainedHeaders <= 1_000_001
    && 0 < l.maxLogsPerSync <= 1_000_000 && 0 < l.maxLogDataBytes <= 1_048_576
    && 0 < l.maxRetainedLogs <= 1_000_000
  }

  predicate UpTo(n: nat, limit: nat) {
    1 <= n && n <= limit
  }

  /** The limits an observer can be given: all positive, each with its cap, and more headers kept than a reorganization may
      be deep. */
  lemma ConfigMeans(cfg: Config)
    ensures ValidConfig(cfg)
       <==> var l := cfg.limits;
            && 0 <= cfg.deploymentBlock < 0x1_0000_0000_0000_0000
            && UpTo(l.maxBlockSpan, 1_000_000) && UpTo(l.maxReorgDepth, 1_000_000)
            && UpTo(l.maxRetainedHeaders, 1_000_001) && l.maxReorgDepth + 1 <= l.maxRetainedHeaders
            && UpTo(l.maxLogsPerSync, 1_000_000) && UpTo(l.maxLogDataBytes, 1_048_576)
            && UpTo(l.maxRetainedLogs, 1_000_000)
  {
  }

  /** The header stored at a height. */
  function HeaderAt(headers: map<int, Header>, n: int): Option<Header> {
    if n in headers then Some(headers[n]) else None
  }

  // ---------- Reading headers ----------

  function ReadHeader(p: Provider, tick: nat, number: int): Result<Header, Failure> {
    match p.header(tick, number)
    case None => Err(HeaderUnavailable)
    case Some(h) => if h.number != number || !InRange(h) then Err(HeaderUnavailable) else Ok(h)
  }

  predicate Extends(child: Header, parent: Header) {
    child.number == parent.number + 1 && child.parentHash == parent.hash
  }

  /** The ancestor found, if any, and the number of header reads made by then. */
  datatype Search = Search(ancestor: Option<Header>, tick: nat)

  function FindAncestor(cfg: Config, headers: map<int, Header>, p: Provider, candidate: Header, traversed: nat,
                        tick: nat): Result<Search, Failure>
    requires candidate.number >= 0
    decreases candidate.number
  {
    if candidate.number < cfg.deploymentBlock - 1 then Ok(Search(None, tick))
    else if HeaderAt(headers, candidate.number) == Some(candidate) then Ok(Search(Some(candidate), tick))
    else if candidate.number == 0 then Ok(Search(None, tick))
    else if traversed + 1 > cfg.limits.maxBlockSpan + cfg.limits.maxReorgDepth then Err(TraversalExceeded)
    else match ReadHeader(p, tick, candidate.number - 1)
      case Err(e) => Err(e)
      case Ok(parent) =>
        if !Extends(candidate, parent) then Err(ParentMismatch)
        else FindAncestor(cfg, headers, p, parent, traversed + 1, tick + 1)
  }

  /** The headers of a range, each extending the one before; the first extends previous. */
  function LoadHeaders(p: Provider, first: int, last: int, previous: Option<Header>, tick: nat)
    : Result<seq<Header>, Failure>
    decreases last - first
  {
    if first > last then Ok([])
    else match ReadHeader(p, tick, first)
      case Err(e) => Err(e)
      case Ok(h) =>
        if previous.Some? && !Extends(h, previous.value) then Err(ParentMismatch)
        else match LoadHeaders(p, first + 1, last, Some(h), tick + 1)
          case Err(e) => Err(e)
          case Ok(rest) => Ok([h] + rest)
  }

  // ---------- Logs ----------

  function KeyOf(log: Log): LogKey {
    LogKey(log.blockHash, log.logIndex)
  }

  predicate WellFormed(log: Log, maxDataBytes: nat) {
    && 0 <= log.transactionIndex <= MAX_UINT64 && 0 <= log.logIndex <= MAX_UINT64
    && 1 <= |log.topics| <= 4 && |log.data| <= maxDataBytes
  }

  predicate LogFits(cfg: Config, raw: RawLog, first: int, last: int) {
    var log := raw.log;
    && raw.marker == Unmarked
    && log.address == cfg.address
    && first <= log.blockNumber <= last
    && WellFormed(log, cfg.limits.maxLogDataBytes)
  }

  /** One fetched log joins the known ones, or repeats one of them. */
  function TakeLog(cfg: Config, headers: map<int, Header>, first: int, last: int, logs: map<LogKey, Log>, raw: RawLog)
    : (r: Result<map<LogKey, Log>, Failure>)
    ensures r.Ok? ==> |r.value| >= |logs|
  {
    var log, key := raw.log, KeyOf(raw.log);
    if raw.marker == MarkedRemoved then Ok(logs)
    else if !LogFits(cfg, raw, first, last) then Err(MalformedLog)
    else if HeaderAt(headers, log.blockNumber) == None || HeaderAt(headers, log.blockNumber).value.hash != log.blockHash then
      Err(LogNotAnchored)
    else if key in logs && logs[key] != log then Err(ConflictingLog)
    else
      assert logs[key := log].Keys == logs.Keys + {key};
      assert |logs[key := log].Keys| == |logs[key := log]| && |logs.Keys| == |logs|;
      Ok(logs[key := log])
  }

  function TakeLogs(cfg: Config, headers: map<int, Header>, first: int, last: int, logs: map<LogKey, Log>,
                    fetched: seq<RawLog>): (r: Result<map<LogKey, Log>, Failure>)
    ensures r.Ok? ==> |r.value| >= |logs|
  {
    if fetched == [] then Ok(logs)
    else match TakeLogs(cfg, headers, first, last, logs, fetched[..|fetched| - 1])
      case Err(e) => Err(e)
      case Ok(taken) => TakeLog(cfg, headers, first, last, taken, fetched[|fetched| - 1])
  }

  function HeadersUpTo(headers: map<int, Header>, block: int): map<int, Header> {
    map n | n in headers && n <= block :: headers[n]
  }

  function HeadersFrom(headers: map<int, Header>, block: int): map<int, Header> {
    map n | n in headers && n >= block :: headers[n]
  }

  function LogsUpTo(logs: map<LogKey, Log>, block: int): map<LogKey, Log> {
    map key | key in logs && logs[key].blockNumber <= block :: logs[key]
  }

  lemma KeptAreFewer(logs: map<LogKey, Log>, block: int)
    ensures |LogsUpTo(logs, block)| <= |logs|
  {
    var kept := LogsUpTo(logs, block);
    assert logs.Keys == kept.Keys + (logs.Keys - kept.Keys);
    assert |logs.Keys| == |logs| && |kept.Keys| == |kept|;
  }

  /** Headers stored under their own numbers, later ones over earlier ones. */
  function Stored(headers: map<int, Header>, added: seq<Header>): map<int, Header> {
    if added == [] then headers
    else
      var h := added[|added| - 1];
      Stored(headers, added[..|added| - 1])[h.number := h]
  }

  // ---------- One synchronization ----------

  function SpanFailure(cfg: Config, o: Observed, latest: int): Option<Failure> {
    if latest < cfg.deploymentBlock || latest > MAX_UINT64 then Some(HeadBeforeDeployment)
    else match o.head
      case None =>
        if latest - cfg.deploymentBlock + 1 > cfg.limits.maxBlockSpan then Some(InitialSpanExceeded) else None
      case Some(previous) =>
        if latest > previous.number + cfg.limits.maxBlockSpan then Some(SpanExceeded)
        else if previous.number > latest + cfg.limits.maxReorgDepth then Some(RollbackExceeded)
        else None
  }

  function Search0(cfg: Config, o: Observed, p: Provider, latest: Header): Result<Search, Failure>
    requires latest.number >= 0
  {
    if o.head.Some? then FindAncestor(cfg, o.headers, p, latest, 0, 1) else Ok(Search(None, 1))
  }

  function RetainedBlock(cfg: Config, ancestor: Option<Header>): int {
    if ancestor.Some? then ancestor.value.number else cfg.deploymentBlock - 1
  }

  function ReorgDepth(cfg: Config, o: Observed, ancestor: Option<Header>): int {
    if o.head.Some? then o.head.value.number - RetainedBlock(cfg, ancestor) else 0
  }

  /** The logs of the new stretch, fetched only when there is one. */
  function FetchLogs(cfg: Config, p: Provider, first: int, last: int): Result<seq<RawLog>, Failure> {
    if first > last then Ok([])
    else match p.logs(first, last)
      case None => Err(LogsUnavailable)
      case Some(fetched) => if |fetched| > cfg.limits.maxLogsPerSync then Err(TooManyLogs) else Ok(fetched)
  }

  /** The new fields and the result, once the ancestor is known. */
  function Rebuild(cfg: Config, o: Observed, p: Provider, latest: Header, search: Search)
    : Result<(Observed, SyncResult), Failure>
  {
    var retained := RetainedBlock(cfg, search.ancestor);
    var first := retained + 1;
    match LoadHeaders(p, first, latest.number, search.ancestor, search.tick)
    case Err(e) => Err(e)
    case Ok(added) =>
      var headers := Stored(HeadersUpTo(o.headers, retained), added);
      var kept := LogsUpTo(o.logs, retained);
      if |added| > 0 && added[|added| - 1] != latest then Err(HeadChanged)
      else match FetchLogs(cfg, p, first, latest.number)
        case Err(e) => Err(e)
        case Ok(fetched) =>
          match TakeLogs(cfg, headers, first, latest.number, kept, fetched)
          case Err(e) => Err(e)
          case Ok(logs) =>
            var final := ReadHeader(p, search.tick + |added|, latest.number);
            if |logs| > cfg.limits.maxRetainedLogs then Err(RetainedLogsExceeded)
            else if final.Err? then Err(final.error)
            else if final.value != latest then Err(HeadChanged)
            else
              assert |kept| <= |o.logs| by { KeptAreFewer(o.logs, retained); }
              Ok((Observed(HeadersFrom(headers, latest.number - cfg.limits.maxRetainedHeaders + 1), logs,
                           Some(latest)),
                  SyncResult(first, latest.number,
                             if search.ancestor.Some? then Some(search.ancestor.value.number) else None,
                             ReorgDepth(cfg, o, search.ancestor), |logs| - |kept|, |o.logs| - |kept|, latest.hash)))
  }

  function Sync(cfg: Config, o: Observed, p: Provider): Result<(Observed, SyncResult), Failure> {
    if p.blockNumber == None then Err(HeadBeforeDeployment)
    else if SpanFailure(cfg, o, p.blockNumber.value).Some? then Err(SpanFailure(cfg, o, p.blockNumber.value).value)
    else match ReadHeader(p, 0, p.blockNumber.value)
      case Err(e) => Err(e)
      case Ok(latest) =>
        match Search0(cfg, o, p, latest)
        case Err(e) => Err(e)
        case Ok(search) =>
          if ReorgDepth(cfg, o, search.ancestor) > cfg.limits.maxReorgDepth then Err(ReorgDepthExceeded)
          else Rebuild(cfg, o, p, latest, search)
  }
}
