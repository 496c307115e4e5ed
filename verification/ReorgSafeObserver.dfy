/** The observer as an object: a synchronization works on copies of its maps and replaces the fields only at the very
    end, so that a failure anywhere leaves it as it was. */
module ReorgSafeObserver {
  import opened Wrappers
  import opened ProtocolTypes
  import opened Finality
  import opened ReorgObserver

  class ReorgSafeObserver {
    const cfg: Config
    var headers: map<int, Header>
    var logs: map<LogKey, Log>
    var head: Option<Header>

    constructor (cfg: Config)
      requires ValidConfig(cfg)
      ensures this.cfg == cfg && Value() == NOTHING
    {
      this.cfg := cfg;
      headers := map[];
      logs := map[];
      head := None;
    }

    static method Create(cfg: Config) returns (r: Result<ReorgSafeObserver, Failure>)
      ensures r.Ok? <==> ValidConfig(cfg)
      ensures r.Ok? ==> fresh(r.value) && r.value.cfg == cfg && r.value.Value() == NOTHING
    {
      if !ValidConfig(cfg) { return Err(InvalidConfiguration); }
      var observer := new ReorgSafeObserver(cfg);
      return Ok(observer);
    }

    ghost function Value(): Observed
      reads this
    {
      Observed(headers, logs, head)
    }

    method SyncOnce(p: Provider) returns (r: Result<SyncResult, Failure>)
      modifies this
      ensures match Sync(cfg, old(Value()), p)
              case Err(e) => r == Err(e) && Value() == old(Value())
              case Ok((o, result)) => r == Ok(result) && Value() == o
    {
      if p.blockNumber == None { return Err(HeadBeforeDeployment); }
      var latestNumber := p.blockNumber.value;
      if latestNumber < cfg.deploymentBlock || latestNumber > MAX_UINT64 { return Err(HeadBeforeDeployment); }
      var previousHead := head;
      if previousHead == None && latestNumber - cfg.deploymentBlock + 1 > cfg.limits.maxBlockSpan {
        return Err(InitialSpanExceeded);
      }
      if previousHead.Some? && latestNumber > previousHead.value.number + cfg.limits.maxBlockSpan {
        return Err(SpanExceeded);
      }
      if previousHead.Some? && previousHead.value.number > latestNumber + cfg.limits.maxReorgDepth {
        return Err(RollbackExceeded);
      }
      var head0 := ReadHeader(p, 0, latestNumber);
      if head0.Err? { return Err(head0.error); }
      var latest := head0.value;
      var search := Search(None, 1);
      if previousHead.Some? {
        var found := FindCommonAncestor(p, latest);
        if found.Err? { return Err(found.error); }
        search := found.value;
      }
      var retainedBlock := RetainedBlock(cfg, search.ancestor);
      var reorgDepth := if previousHead.Some? then previousHead.value.number - retainedBlock else 0;
      if reorgDepth > cfg.limits.maxReorgDepth { return Err(ReorgDepthExceeded); }
      r := Replace(p, latest, search, reorgDepth);
    }

    /** The stretch above the ancestor is read anew; the fields change only once everything has been checked. */
    method Replace(p: Provider, latest: Header, search: Search, reorgDepth: int) returns (r: Result<SyncResult, Failure>)
      requires reorgDepth == ReorgDepth(cfg, Value(), search.ancestor)
      modifies this
      ensures match Rebuild(cfg, old(Value()), p, latest, search)
              case Err(e) => r == Err(e) && Value() == old(Value())
              case Ok((o, result)) => r == Ok(result) && Value() == o
    {
      hide LoadHeaders, TakeLogs, TakeLog, Stored, HeadersUpTo, HeadersFrom, LogsUpTo, FetchLogs, ReadHeader;
      hide ReorgDepth, RetainedBlock;
      var ancestor := search.ancestor;
      var retainedBlock := RetainedBlock(cfg, ancestor);
      var fromBlock := retainedBlock + 1;
      var nextHeaders := DropHeaders(headers, retainedBlock);
      var nextLogs, removedLogs := DropLogs(logs, retainedBlock);

      var loaded := LoadRange(p, fromBlock, latest.number, ancestor, search.tick);
      if loaded.Err? { return Err(loaded.error); }
      nextHeaders := StoreHeaders(nextHeaders, loaded.value);
      if |loaded.value| > 0 && loaded.value[|loaded.value| - 1] != latest { return Err(HeadChanged); }
      var answer := FetchLogs(cfg, p, fromBlock, latest.number);
      if answer.Err? { return Err(answer.error); }
      var taken, addedLogs := AddLogs(nextHeaders, fromBlock, latest.number, nextLogs, answer.value);
      if taken.Err? { return Err(taken.error); }
      nextLogs := taken.value;
      if |nextLogs| > cfg.limits.maxRetainedLogs { return Err(RetainedLogsExceeded); }

      var final := ReadHeader(p, search.tick + |loaded.value|, latest.number);
      if final.Err? { return Err(final.error); }
      if final.value != latest { return Err(HeadChanged); }

      var earliestRetainedHeader := latest.number - cfg.limits.maxRetainedHeaders + 1;
      nextHeaders := PruneHeaders(nextHeaders, earliestRetainedHeader);
      headers := nextHeaders;
      logs := nextLogs;
      head := Some(latest);
      return Ok(SyncResult(fromBlock, latest.number, if ancestor.Some? then Some(ancestor.value.number) else None,
                           reorgDepth, addedLogs, removedLogs, latest.hash));
    }

    method FindCommonAncestor(p: Provider, latest: Header) returns (r: Result<Search, Failure>)
      requires latest.number >= 0
      ensures r == FindAncestor(cfg, headers, p, latest, 0, 1)
    {
      var candidate, traversed, tick := latest, 0, 1;
      while candidate.number >= cfg.deploymentBlock - 1
        invariant candidate.number >= 0
        invariant FindAncestor(cfg, headers, p, latest, 0, 1)
               == FindAncestor(cfg, headers, p, candidate, traversed, tick)
        decreases candidate.number
      {
        if HeaderAt(headers, candidate.number) == Some(candidate) {
          return Ok(Search(Some(candidate), tick));
        }
        if candidate.number == 0 { break; }
        traversed := traversed + 1;
        if traversed > cfg.limits.maxBlockSpan + cfg.limits.maxReorgDepth { return Err(TraversalExceeded); }
        var parent := ReadHeader(p, tick, candidate.number - 1);
        if parent.Err? { return Err(parent.error); }
        if !Extends(candidate, parent.value) { return Err(ParentMismatch); }
        candidate, tick := parent.value, tick + 1;
      }
      return Ok(Search(None, tick));
    }

    method LoadRange(p: Provider, fromBlock: int, toBlock: int, retained: Option<Header>, tick: nat)
      returns (r: Result<seq<Header>, Failure>)
      ensures r == LoadHeaders(p, fromBlock, toBlock, retained, tick)
    {
      if fromBlock > toBlock { return Ok([]); }
      var loaded: seq<Header> := [];
      ghost var whole := LoadHeaders(p, fromBlock, toBlock, retained, tick);
      assert whole.Ok? ==> [] + whole.value == whole.value;
      var previous := retained;
      var number := fromBlock;
      while number <= toBlock
        invariant number <= toBlock + 1 && |loaded| == number - fromBlock
        invariant LoadHeaders(p, fromBlock, toBlock, retained, tick)
               == Prefixed(loaded, LoadHeaders(p, number, toBlock, previous, tick + |loaded|))
      {
        var header := ReadHeader(p, tick + |loaded|, number);
        if header.Err? { return Err(header.error); }
        if previous.Some? && !Extends(header.value, previous.value) { return Err(ParentMismatch); }
        ghost var rest := LoadHeaders(p, number + 1, toBlock, Some(header.value), tick + |loaded| + 1);
        assert rest.Ok? ==> loaded + ([header.value] + rest.value) == loaded + [header.value] + rest.value;
        loaded := loaded + [header.value];
        previous := Some(header.value);
        number := number + 1;
      }
      assert loaded + [] == loaded;
      return Ok(loaded);
    }

    method StoreHeaders(all: map<int, Header>, loaded: seq<Header>) returns (next: map<int, Header>)
      ensures next == Stored(all, loaded)
    {
      next := all;
      for i := 0 to |loaded|
        invariant next == Stored(all, loaded[..i])
      {
        assert loaded[..i + 1][..i] == loaded[..i];
        next := next[loaded[i].number := loaded[i]];
      }
      assert loaded[..|loaded|] == loaded;
    }

    method AddLogs(anchors: map<int, Header>, first: int, last: int, kept: map<LogKey, Log>, fetched: seq<RawLog>)
      returns (r: Result<map<LogKey, Log>, Failure>, added: nat)
      ensures r == TakeLogs(cfg, anchors, first, last, kept, fetched)
      ensures r.Ok? ==> added == |r.value| - |kept|
    {
      var next := kept;
      added := 0;
      for i := 0 to |fetched|
        invariant TakeLogs(cfg, anchors, first, last, kept, fetched[..i]) == Ok(next)
        invariant added == |next| - |kept|
      {
        assert fetched[..i + 1][..i] == fetched[..i];
        var step := TakeLog(cfg, anchors, first, last, next, fetched[i]);
        if step.Err? {
          TakeLogsFails(cfg, anchors, first, last, kept, fetched, i + 1);
          return Err(step.error), added;
        }
        CountNew(next, fetched[i].log);
        if fetched[i].marker != MarkedRemoved && KeyOf(fetched[i].log) !in next { added := added + 1; }
        next := step.value;
      }
      assert fetched[..|fetched|] == fetched;
      return Ok(next), added;
    }

    method DropHeaders(all: map<int, Header>, retainedBlock: int) returns (kept: map<int, Header>)
      ensures kept == HeadersUpTo(all, retainedBlock)
    {
      kept := all;
      var rest := all.Items;
      while rest != {}
        invariant rest <= all.Items && kept.Keys <= all.Keys
        invariant forall n :: n in all ==> (n in kept <==> (n, all[n]) in rest || n <= retainedBlock)
        invariant forall n :: n in kept ==> kept[n] == all[n]
        decreases |rest|
      {
        var item :| item in rest;
        rest := rest - {item};
        var number := item.0;
        if number > retainedBlock { kept := kept - {number}; }
      }
      assert forall n :: n in kept <==> n in all && n <= retainedBlock;
    }

    method PruneHeaders(all: map<int, Header>, earliest: int) returns (kept: map<int, Header>)
      ensures kept == HeadersFrom(all, earliest)
    {
      kept := all;
      var rest := all.Items;
      while rest != {}
        invariant rest <= all.Items && kept.Keys <= all.Keys
        invariant forall n :: n in all ==> (n in kept <==> (n, all[n]) in rest || n >= earliest)
        invariant forall n :: n in kept ==> kept[n] == all[n]
        decreases |rest|
      {
        var item :| item in rest;
        rest := rest - {item};
        var number := item.0;
        if number < earliest { kept := kept - {number}; }
      }
      assert forall n :: n in kept <==> n in all && n >= earliest;
    }

    method DropLogs(all: map<LogKey, Log>, retainedBlock: int) returns (kept: map<LogKey, Log>, removed: nat)
      ensures kept == LogsUpTo(all, retainedBlock) && removed == |all| - |kept|
    {
      kept, removed := all, 0;
      var rest := all.Keys;
      while rest != {}
        invariant rest <= all.Keys && kept.Keys <= all.Keys
        invariant forall key :: key in all ==> (key in kept <==> key in rest || all[key].blockNumber <= retainedBlock)
        invariant forall key :: key in kept ==> kept[key] == all[key]
        invariant removed == |all| - |kept|
        decreases |rest|
      {
        var key :| key in rest;
        rest := rest - {key};
        if all[key].blockNumber > retainedBlock {
          assert (kept - {key}).Keys == kept.Keys - {key};
          assert |(kept - {key}).Keys| == |kept - {key}| && |kept.Keys| == |kept|;
          kept, removed := kept - {key}, removed + 1;
        }
      }
    }

    /** A consistent reading: state read for a head that is still canonical afterwards, with the logs up to it.
        A provider answers the synchronization, when one is needed; finalAnchor answers the last header read. It succeeds
        exactly when a head is held or one synchronization gives one, the state can be read for it, and the last read
        gives that very header; and otherwise fails as the first of these did. */
    method Reconcile<T>(p: Provider, read: Header -> Result<T, Failure>, finalAnchor: Provider)
      returns (r: Result<(Header, T, map<LogKey, Log>), Failure>)
      modifies this
      ensures old(head).Some? ==> Value() == old(Value())
      ensures old(head) == None ==>
                Value() == if Sync(cfg, old(Value()), p).Ok? then Sync(cfg, old(Value()), p).value.0 else old(Value())
      ensures r.Ok? <==> head.Some? && read(head.value).Ok?
                         && ReadHeader(finalAnchor, 0, head.value.number) == Ok(head.value)
      ensures r.Ok? ==> r.value == (head.value, read(head.value).value, logs)
      ensures head == None ==> Sync(cfg, old(Value()), p).Err? && r == Err(Sync(cfg, old(Value()), p).error)
      ensures head.Some? && read(head.value).Err? ==> r == Err(read(head.value).error)
      ensures r.Err? && head.Some? && read(head.value).Ok? ==>
                var final := ReadHeader(finalAnchor, 0, head.value.number);
                r.error == if final.Err? then final.error else HeadChanged
    {
      if head == None {
        var synced := SyncOnce(p);
        if synced.Err? { return Err(synced.error); }
      }
      SyncHasHead(cfg, old(Value()), p);
      var atHead, observedLogs := head.value, logs;
      var directState := read(atHead);
      if directState.Err? { return Err(directState.error); }
      var final := ReadHeader(finalAnchor, 0, atHead.number);
      if final.Err? { return Err(final.error); }
      if final.value != atHead { return Err(HeadChanged); }
      return Ok((atHead, directState.value, observedLogs));
    }
  }

  /** A synchronization that succeeds leaves a head. */
  lemma SyncHasHead(cfg: Config, o: Observed, p: Provider)
    ensures Sync(cfg, o, p).Ok? ==> Sync(cfg, o, p).value.0.head.Some?
  {
    hide FindAncestor, LoadHeaders, TakeLogs, Stored, FetchLogs, ReadHeader;
  }

  function Prefixed(loaded: seq<Header>, rest: Result<seq<Header>, Failure>): Result<seq<Header>, Failure> {
    match rest
    case Err(e) => Err(e)
    case Ok(more) => Ok(loaded + more)
  }

  lemma {:induction false} TakeLogsFails(cfg: Config, headers: map<int, Header>, first: int, last: int,
                                         logs: map<LogKey, Log>, fetched: seq<RawLog>, i: nat)
    requires i <= |fetched| && TakeLogs(cfg, headers, first, last, logs, fetched[..i]).Err?
    ensures TakeLogs(cfg, headers, first, last, logs, fetched)
         == TakeLogs(cfg, headers, first, last, logs, fetched[..i])
    decreases |fetched| - i
  {
    if i < |fetched| {
      assert fetched[..i + 1][..i] == fetched[..i];
      TakeLogsFails(cfg, headers, first, last, logs, fetched, i + 1);
    } else {
      assert fetched[..i] == fetched;
    }
  }

  lemma CountNew(logs: map<LogKey, Log>, log: Log)
    ensures |logs[KeyOf(log) := log]| == |logs| + if KeyOf(log) in logs then 0 else 1
  {
    var more := logs[KeyOf(log) := log];
    assert more.Keys == logs.Keys + {KeyOf(log)};
    assert |more.Keys| == |more| && |logs.Keys| == |logs|;
  }
}
