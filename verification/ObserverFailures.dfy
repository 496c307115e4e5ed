/** Why a synchronization fails. Whatever the provider answers, the failure names something that is really wrong with the
    answers or the limits. */
module ObserverFailures {
  import opened Wrappers
  import opened ProtocolTypes
  import opened Finality
  import opened ReorgObserver

  // ---------- Headers and logs ----------

  /** A header read that gave none, or one of another height, or was out of range. */
  predicate BadRead(p: Provider, tick: nat, n: int) {
    p.header(tick, n) == None || p.header(tick, n).value.number != n || n < 0 || n > MAX_UINT64
  }

  /** Two headers a provider gave, or one it gave and one that was stored, of which one should extend the other. */
  ghost predicate Torn(headers: map<int, Header>, p: Provider) {
    exists child: Header, parent: Header ::
      && (child.number != parent.number + 1 || child.parentHash != parent.hash)
      && Given(headers, p, child) && Given(headers, p, parent)
  }

  ghost predicate Given(headers: map<int, Header>, p: Provider, h: Header) {
    (exists tick, n :: p.header(tick, n) == Some(h)) || HeaderAt(headers, h.number) == Some(h)
  }

  lemma {:induction false} SearchFailsTruly(cfg: Config, headers: map<int, Header>, p: Provider, candidate: Header,
                                            traversed: nat, tick: nat)
    requires candidate.number >= 0 && Given(headers, p, candidate)
    requires FindAncestor(cfg, headers, p, candidate, traversed, tick).Err?
    ensures match FindAncestor(cfg, headers, p, candidate, traversed, tick).error
            case TraversalExceeded => candidate.number > cfg.limits.maxBlockSpan + cfg.limits.maxReorgDepth - traversed
            case HeaderUnavailable => exists t, n :: BadRead(p, t, n)
            case ParentMismatch => Torn(headers, p)
            case _ => false
    decreases candidate.number
  {
    var read := ReadHeader(p, tick, candidate.number - 1);
    if traversed + 1 <= cfg.limits.maxBlockSpan + cfg.limits.maxReorgDepth {
      if read.Err? {
        assert BadRead(p, tick, candidate.number - 1);
      } else {
        assert p.header(tick, candidate.number - 1) == Some(read.value);
        if Extends(candidate, read.value) {
          SearchFailsTruly(cfg, headers, p, read.value, traversed + 1, tick + 1);
        }
      }
    }
  }

  lemma {:induction false} LoadFailsTruly(headers: map<int, Header>, p: Provider, first: int, last: int,
                                          previous: Option<Header>, tick: nat)
    requires previous.Some? ==> Given(headers, p, previous.value)
    requires LoadHeaders(p, first, last, previous, tick).Err?
    ensures match LoadHeaders(p, first, last, previous, tick).error
            case HeaderUnavailable => exists t, n :: BadRead(p, t, n)
            case ParentMismatch => Torn(headers, p)
            case _ => false
    decreases last - first
  {
    var read := ReadHeader(p, tick, first);
    if read.Err? {
      assert BadRead(p, tick, first);
    } else {
      assert p.header(tick, first) == Some(read.value);
      if !(previous.Some? && !Extends(read.value, previous.value)) {
        LoadFailsTruly(headers, p, first + 1, last, Some(read.value), tick + 1);
      }
    }
  }

  /** A fetched log, not marked as removed, that does not fit its fields, its block or the logs already known. */
  ghost predicate Unfit(cfg: Config, headers: map<int, Header>, first: int, last: int, kept: map<LogKey, Log>,
                        fetched: seq<RawLog>, e: Failure)
  {
    exists raw: RawLog :: raw in fetched && raw.marker != MarkedRemoved
      && match e
         case MalformedLog => !LogFits(cfg, raw, first, last)
         case LogNotAnchored => HeaderAt(headers, raw.log.blockNumber) == None
                                || HeaderAt(headers, raw.log.blockNumber).value.hash != raw.log.blockHash
         case ConflictingLog => Contradicted(kept, fetched, raw.log)
         case _ => false
  }

  /** A different log stands at the same place. */
  ghost predicate Contradicted(kept: map<LogKey, Log>, fetched: seq<RawLog>, log: Log) {
    || (KeyOf(log) in kept && kept[KeyOf(log)] != log)
    || exists raw: RawLog :: raw in fetched && KeyOf(raw.log) == KeyOf(log) && raw.log != log
  }

  lemma {:induction false} TakenFrom(cfg: Config, headers: map<int, Header>, first: int, last: int,
                                     kept: map<LogKey, Log>, fetched: seq<RawLog>)
    requires TakeLogs(cfg, headers, first, last, kept, fetched).Ok?
    ensures var taken := TakeLogs(cfg, headers, first, last, kept, fetched).value;
            forall key :: key in taken ==>
              (key in kept && taken[key] == kept[key])
              || exists raw: RawLog :: raw in fetched && KeyOf(raw.log) == key && taken[key] == raw.log
  {
    if fetched != [] {
      var n := |fetched| - 1;
      TakenFrom(cfg, headers, first, last, kept, fetched[..n]);
      assert fetched == fetched[..n] + [fetched[n]];
      assert fetched[n] in fetched;
    }
  }

  lemma {:induction false} TakeFailsTruly(cfg: Config, headers: map<int, Header>, first: int, last: int,
                                          kept: map<LogKey, Log>, fetched: seq<RawLog>)
    requires TakeLogs(cfg, headers, first, last, kept, fetched).Err?
    ensures Unfit(cfg, headers, first, last, kept, fetched, TakeLogs(cfg, headers, first, last, kept, fetched).error)
  {
    var n := |fetched| - 1;
    var front, raw := fetched[..n], fetched[n];
    assert fetched == front + [raw];
    assert forall x :: x in front ==> x in fetched;
    if TakeLogs(cfg, headers, first, last, kept, front).Err? {
      TakeFailsTruly(cfg, headers, first, last, kept, front);
    } else {
      TakenFrom(cfg, headers, first, last, kept, front);
      assert raw in fetched;
    }
  }

  // ---------- One synchronization ----------

  /** What a failed synchronization says, with the head the provider named and the first block it had to read anew. */
  ghost predicate Deserved(cfg: Config, o: Observed, p: Provider, e: Failure) {
    match e
    case HeadBeforeDeployment =>
      p.blockNumber == None || p.blockNumber.value < cfg.deploymentBlock || p.blockNumber.value > MAX_UINT64
    case InitialSpanExceeded =>
      o.head == None && p.blockNumber.Some? && p.blockNumber.value - cfg.deploymentBlock >= cfg.limits.maxBlockSpan
    case SpanExceeded =>
      o.head.Some? && p.blockNumber.Some? && p.blockNumber.value - o.head.value.number > cfg.limits.maxBlockSpan
    case RollbackExceeded =>
      o.head.Some? && p.blockNumber.Some? && o.head.value.number - p.blockNumber.value > cfg.limits.maxReorgDepth
    case HeaderUnavailable => exists t, n :: BadRead(p, t, n)
    case TraversalExceeded =>
      p.blockNumber.Some? && p.blockNumber.value > cfg.limits.maxBlockSpan + cfg.limits.maxReorgDepth
    case ParentMismatch => Torn(o.headers, p)
    case ReorgDepthExceeded =>
      exists latest: Header, search ::
        && p.blockNumber.Some? && ReadHeader(p, 0, p.blockNumber.value) == Ok(latest) && latest.number >= 0
        && Search0(cfg, o, p, latest) == Ok(search)
        && o.head.Some? && o.head.value.number - RetainedBlock(cfg, search.ancestor) > cfg.limits.maxReorgDepth
    case HeadChanged => p.blockNumber.Some? && Wavers(p, p.blockNumber.value)
    case LogsUnavailable => exists first, last :: p.logs(first, last) == None
    case TooManyLogs =>
      exists first, last :: p.logs(first, last).Some? && |p.logs(first, last).value| > cfg.limits.maxLogsPerSync
    case RetainedLogsExceeded =>
      exists fetched ::
        && (fetched == [] || exists first, last :: p.logs(first, last) == Some(fetched))
        && |o.logs| + |fetched| > cfg.limits.maxRetainedLogs
    case InvalidConfiguration => false
    case _ =>
      exists headers, first, last, kept, fetched ::
        p.logs(first, last) == Some(fetched) && Unfit(cfg, headers, first, last, kept, fetched, e)
  }

  /** Two reads of one height gave different headers. */
  ghost predicate Wavers(p: Provider, n: int) {
    exists s, t :: p.header(s, n).Some? && p.header(t, n).Some? && p.header(s, n) != p.header(t, n)
  }

  lemma {:induction false} LastLoaded(p: Provider, first: int, last: int, previous: Option<Header>, tick: nat)
    requires LoadHeaders(p, first, last, previous, tick).Ok? && first <= last
    ensures var loaded := LoadHeaders(p, first, last, previous, tick).value;
            |loaded| > 0 && exists t :: p.header(t, last) == Some(loaded[|loaded| - 1])
    decreases last - first
  {
    var h := ReadHeader(p, tick, first).value;
    assert p.header(tick, first) == Some(h);
    if first < last {
      LastLoaded(p, first + 1, last, Some(h), tick + 1);
    }
  }

  lemma {:induction false} TakenCount(cfg: Config, headers: map<int, Header>, first: int, last: int,
                                      kept: map<LogKey, Log>, fetched: seq<RawLog>)
    requires TakeLogs(cfg, headers, first, last, kept, fetched).Ok?
    ensures |TakeLogs(cfg, headers, first, last, kept, fetched).value| <= |kept| + |fetched|
  {
    if fetched != [] {
      var n := |fetched| - 1;
      TakenCount(cfg, headers, first, last, kept, fetched[..n]);
      var taken := TakeLogs(cfg, headers, first, last, kept, fetched[..n]).value;
      var log := fetched[n].log;
      assert taken[KeyOf(log) := log].Keys == taken.Keys + {KeyOf(log)};
      assert |taken[KeyOf(log) := log].Keys| == |taken[KeyOf(log) := log]| && |taken.Keys| == |taken|;
    }
  }

  lemma RebuildFailsTruly(cfg: Config, o: Observed, p: Provider, latest: Header, search: Search)
    requires p.blockNumber == Some(latest.number) && p.header(0, latest.number) == Some(latest)
    requires search.ancestor.Some? ==> Given(o.headers, p, search.ancestor.value)
    requires Rebuild(cfg, o, p, latest, search).Err?
    ensures Deserved(cfg, o, p, Rebuild(cfg, o, p, latest, search).error)
  {
    hide LoadHeaders, TakeLogs, Stored, HeadersUpTo, LogsUpTo, HeadersFrom, Torn, Unfit, BadRead, ReadHeader, ReorgDepth;
    var first := RetainedBlock(cfg, search.ancestor) + 1;
    var loaded := LoadHeaders(p, first, latest.number, search.ancestor, search.tick);
    if loaded.Err? {
      LoadFailsTruly(o.headers, p, first, latest.number, search.ancestor, search.tick);
    } else {
      if first <= latest.number {
        LastLoaded(p, first, latest.number, search.ancestor, search.tick);
        var end := loaded.value[|loaded.value| - 1];
        assert end != latest ==> Wavers(p, latest.number);
      } else {
        NothingLoaded(p, first, latest.number, search.ancestor, search.tick);
      }
      var kept := LogsUpTo(o.logs, first - 1);
      KeptAreFewer(o.logs, first - 1);
      var headers := Stored(HeadersUpTo(o.headers, first - 1), loaded.value);
      var fetched := FetchLogs(cfg, p, first, latest.number);
      if fetched.Ok? {
        FetchedIsGiven(cfg, p, first, latest.number, headers, kept);
        FinalRead(p, search.tick + |loaded.value|, latest);
        var taken := TakeLogs(cfg, headers, first, latest.number, kept, fetched.value);
        assert taken.Err? ==> Unfit(cfg, headers, first, latest.number, kept, fetched.value, taken.error);
        assert taken.Ok? ==> |taken.value| <= |o.logs| + |fetched.value|;
        if taken.Err? {
          OnlyLogFaults(cfg, headers, first, latest.number, kept, fetched.value, taken.error);
        }
      }
    }
  }

  lemma OnlyLogFaults(cfg: Config, headers: map<int, Header>, first: int, last: int, kept: map<LogKey, Log>,
                      fetched: seq<RawLog>, e: Failure)
    requires Unfit(cfg, headers, first, last, kept, fetched, e)
    ensures e in {MalformedLog, LogNotAnchored, ConflictingLog}
  {
  }

  lemma NothingLoaded(p: Provider, first: int, last: int, previous: Option<Header>, tick: nat)
    requires first > last
    ensures LoadHeaders(p, first, last, previous, tick) == Ok([])
  {
  }

  lemma FinalRead(p: Provider, tick: nat, latest: Header)
    requires p.header(0, latest.number) == Some(latest)
    ensures ReadHeader(p, tick, latest.number).Err? ==> BadRead(p, tick, latest.number)
    ensures ReadHeader(p, tick, latest.number).Err? ==> ReadHeader(p, tick, latest.number).error == HeaderUnavailable
    ensures ReadHeader(p, tick, latest.number).Ok? && ReadHeader(p, tick, latest.number).value != latest ==>
              Wavers(p, latest.number)
  {
  }

  lemma FetchedIsGiven(cfg: Config, p: Provider, first: int, last: int, headers: map<int, Header>,
                       kept: map<LogKey, Log>)
    requires FetchLogs(cfg, p, first, last).Ok?
    ensures var fetched := FetchLogs(cfg, p, first, last).value;
            && (fetched == [] || p.logs(first, last) == Some(fetched))
            && (TakeLogs(cfg, headers, first, last, kept, fetched).Ok? ==>
                  |TakeLogs(cfg, headers, first, last, kept, fetched).value| <= |kept| + |fetched|)
            && (TakeLogs(cfg, headers, first, last, kept, fetched).Err? ==>
                  p.logs(first, last) == Some(fetched)
                  && Unfit(cfg, headers, first, last, kept, fetched,
                           TakeLogs(cfg, headers, first, last, kept, fetched).error))
  {
    hide Unfit;
    var fetched := FetchLogs(cfg, p, first, last).value;
    if TakeLogs(cfg, headers, first, last, kept, fetched).Ok? {
      TakenCount(cfg, headers, first, last, kept, fetched);
    } else {
      TakeFailsTruly(cfg, headers, first, last, kept, fetched);
    }
  }

  /** A synchronization that fails, with any provider, fails for a reason that is there. */
  lemma SyncFailsTruly(cfg: Config, o: Observed, p: Provider)
    requires ValidConfig(cfg) && Sync(cfg, o, p).Err?
    ensures Deserved(cfg, o, p, Sync(cfg, o, p).error)
  {
    hide FindAncestor, Rebuild, Torn;
    if p.blockNumber.Some? && SpanFailure(cfg, o, p.blockNumber.value) == None {
      var n := p.blockNumber.value;
      var read := ReadHeader(p, 0, n);
      if read.Err? {
        assert BadRead(p, 0, n);
      } else {
        var latest := read.value;
        assert p.header(0, n) == Some(latest) && Given(o.headers, p, latest);
        var search := Search0(cfg, o, p, latest);
        if search.Err? {
          SearchFailsTruly(cfg, o.headers, p, latest, 0, 1);
        } else {
          if o.head.Some? {
            FoundIsGiven(cfg, o.headers, p, latest, 0, 1);
          }
          if ReorgDepth(cfg, o, search.value.ancestor) <= cfg.limits.maxReorgDepth {
            RebuildFailsTruly(cfg, o, p, latest, search.value);
          }
        }
      }
    }
  }

  lemma {:induction false} FoundIsGiven(cfg: Config, headers: map<int, Header>, p: Provider, candidate: Header,
                                        traversed: nat, tick: nat)
    requires candidate.number >= 0 && FindAncestor(cfg, headers, p, candidate, traversed, tick).Ok?
    ensures var a := FindAncestor(cfg, headers, p, candidate, traversed, tick).value.ancestor;
            a.Some? ==> HeaderAt(headers, a.value.number) == a
    decreases candidate.number
  {
    if candidate.number >= cfg.deploymentBlock - 1 && HeaderAt(headers, candidate.number) != Some(candidate)
       && candidate.number > 0 {
      FoundIsGiven(cfg, headers, p, ReadHeader(p, tick, candidate.number - 1).value, traversed + 1, tick + 1);
    }
  }
}
