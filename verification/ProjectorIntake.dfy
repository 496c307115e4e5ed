/** What the projector demands of raw logs before it decodes them, the order it puts them in, and which logs an observer
    may hand to it. */
module ProjectorIntake {
  import opened Wrappers
  import opened ProtocolTypes
  import opened Finality
  import opened ReorgObserver

  const MAX_LOG_BYTES: nat := 1_048_576

  // ---------- The order of logs ----------

  /** By block, then transaction, then position. */
  predicate Before(l: Log, k: Log) {
    if l.blockNumber != k.blockNumber then l.blockNumber < k.blockNumber
    else if l.transactionIndex != k.transactionIndex then l.transactionIndex < k.transactionIndex
    else l.logIndex < k.logIndex
  }

  function InsertLog(l: Log, sorted: seq<Log>): seq<Log> {
    if sorted == [] || !Before(sorted[0], l) then [l] + sorted else [sorted[0]] + InsertLog(l, sorted[1..])
  }

  function SortLogs(logs: seq<Log>): seq<Log> {
    if logs == [] then [] else InsertLog(logs[0], SortLogs(logs[1..]))
  }

  predicate Ascending(logs: seq<Log>) {
    forall i, j :: 0 <= i < j < |logs| ==> Before(logs[i], logs[j])
  }

  // ---------- What is accepted ----------

  predicate EntryOk(l: Log, head: Header) {
    && 0 <= l.blockNumber <= MAX_UINT64 && l.blockNumber <= head.number
    && WellFormed(l, MAX_LOG_BYTES)
  }

  predicate OneFork(logs: seq<Log>) {
    forall i, j :: 0 <= i < j < |logs| && logs[i].blockNumber == logs[j].blockNumber ==>
      logs[i].blockHash == logs[j].blockHash
  }

  predicate OneContract(logs: seq<Log>) {
    forall i, j :: 0 <= i < j < |logs| ==> logs[i].address == logs[j].address
  }

  predicate UniquePositions(logs: seq<Log>) {
    forall i, j :: 0 <= i < j < |logs| ==> KeyOf(logs[i]) != KeyOf(logs[j])
  }

  predicate HeadAnchored(l: Log, head: Header) {
    l.blockNumber == head.number ==> l.blockHash == head.hash
  }

  /** Within a block, later transactions have later positions. */
  predicate OrderAgrees(logs: seq<Log>) {
    forall l, k :: l in logs && k in logs ==> Agree(l, k)
  }

  predicate Agree(l: Log, k: Log) {
    l.blockNumber == k.blockNumber && l.transactionIndex < k.transactionIndex ==> l.logIndex < k.logIndex
  }

  predicate Uint64(n: int) {
    0 <= n < 0x1_0000_0000_0000_0000
  }

  /** The logs that are let through beside an observed head. */
  predicate Presentable(logs: seq<Log>, head: Header) {
    && (forall l :: l in logs ==>
          && Uint64(l.blockNumber) && Uint64(l.transactionIndex) && Uint64(l.logIndex)
          && 1 <= |l.topics| <= 4 && |l.data| <= 1_048_576
          && l.blockNumber <= head.number && (l.blockNumber == head.number ==> l.blockHash == head.hash))
    && OneFork(logs) && UniquePositions(logs) && OneContract(logs) && OrderAgrees(logs)
  }

  // ---------- The check as it runs ----------

  datatype IntakeFault =
    | MalformedLogEntry | TwoForks | HeadNotAnchored | DuplicatePosition | MixedContracts | OrderConflict

  /** What the first pass collects: the contracts, the block hashes by height, and the positions. */
  function Contracts(logs: seq<Log>): set<Address> {
    if logs == [] then {} else Contracts(logs[..|logs| - 1]) + {logs[|logs| - 1].address}
  }

  function Hashes(logs: seq<Log>): map<int, Bytes32> {
    if logs == [] then map[]
    else
      var last := logs[|logs| - 1];
      Hashes(logs[..|logs| - 1])[last.blockNumber := last.blockHash]
  }

  function Positions(logs: seq<Log>): set<LogKey> {
    if logs == [] then {} else Positions(logs[..|logs| - 1]) + {KeyOf(logs[|logs| - 1])}
  }

  function HashAt(hashes: map<int, Bytes32>, n: int): Option<Bytes32> {
    if n in hashes then Some(hashes[n]) else None
  }

  predicate ForkedBy(hashes: map<int, Bytes32>, log: Log) {
    HashAt(hashes, log.blockNumber).Some? && HashAt(hashes, log.blockNumber).value != log.blockHash
  }

  /** What is wrong with a log that comes after others. */
  function EntryFault(front: seq<Log>, log: Log, head: Header): Option<IntakeFault> {
    if !EntryOk(log, head) then Some(MalformedLogEntry)
    else if ForkedBy(Hashes(front), log) then Some(TwoForks)
    else if !HeadAnchored(log, head) then Some(HeadNotAnchored)
    else if KeyOf(log) in Positions(front) then Some(DuplicatePosition)
    else None
  }

  function PassFault(logs: seq<Log>, head: Header): Option<IntakeFault> {
    if logs == [] then None
    else
      var n := |logs| - 1;
      if PassFault(logs[..n], head).Some? then PassFault(logs[..n], head) else EntryFault(logs[..n], logs[n], head)
  }

  /** The logs in their order, or what is wrong with them. */
  function Intake(logs: seq<Log>, head: Header): Result<seq<Log>, IntakeFault> {
    if PassFault(logs, head).Some? then Err(PassFault(logs, head).value)
    else if |Contracts(logs)| > 1 then Err(MixedContracts)
    else if !NeighboursInOrder(SortLogs(logs)) then Err(OrderConflict)
    else Ok(SortLogs(logs))
  }

  method TakeIn(logs: seq<Log>, head: Header) returns (r: Result<seq<Log>, IntakeFault>)
    ensures r == Intake(logs, head)
  {
    hide SortLogs, EntryOk, HeadAnchored, Before;
    var contracts: set<Address> := {};
    var blockHashes: map<int, Bytes32> := map[];
    var positions: set<LogKey> := {};
    for i := 0 to |logs|
      invariant PassFault(logs[..i], head) == None
      invariant contracts == Contracts(logs[..i]) && blockHashes == Hashes(logs[..i])
      invariant positions == Positions(logs[..i])
    {
      var log := logs[i];
      assert logs[..i + 1][..i] == logs[..i];
      StaysFaulty(logs, i + 1, head);
      if !EntryOk(log, head) { return Err(MalformedLogEntry); }
      if log.blockNumber in blockHashes && blockHashes[log.blockNumber] != log.blockHash { return Err(TwoForks); }
      if !HeadAnchored(log, head) { return Err(HeadNotAnchored); }
      if KeyOf(log) in positions { return Err(DuplicatePosition); }
      contracts := contracts + {log.address};
      blockHashes := blockHashes[log.blockNumber := log.blockHash];
      positions := positions + {KeyOf(log)};
    }
    assert logs[..|logs|] == logs;
    if |contracts| > 1 { return Err(MixedContracts); }
    var sorted := SortLogs(logs);
    var i := 1;
    while i < |sorted|
      invariant 1 <= i && forall k :: 0 < k < i && k < |sorted| ==> InOrder(sorted[k - 1], sorted[k])
    {
      if sorted[i - 1].blockNumber == sorted[i].blockNumber && sorted[i - 1].logIndex >= sorted[i].logIndex {
        return Err(OrderConflict);
      }
      i := i + 1;
    }
    return Ok(sorted);
  }

  /** A fault found early is the first of the whole list. */
  lemma {:induction false} StaysFaulty(logs: seq<Log>, i: nat, head: Header)
    requires i <= |logs|
    ensures PassFault(logs[..i], head).Some? ==> PassFault(logs, head) == PassFault(logs[..i], head)
    decreases |logs| - i
  {
    hide EntryFault;
    if i < |logs| {
      assert logs[..i + 1][..i] == logs[..i];
      StaysFaulty(logs, i + 1, head);
    } else {
      assert logs[..i] == logs;
    }
  }

  lemma {:induction false} PassMeans(logs: seq<Log>, head: Header)
    ensures PassFault(logs, head) == None <==> FirstPass(logs, head)
  {
    hide EntryOk, HeadAnchored, OneFork, UniquePositions, ForkedBy, Hashes, Positions;
    if logs == [] {
      NothingCollected(logs, head);
    } else {
      var n := |logs| - 1;
      PassMeans(logs[..n], head);
      PrefixPasses(logs, n);
      assert logs[..n + 1] == logs;
      if FirstPass(logs[..n], head) {
        OneMore(logs, n, head);
      }
    }
  }

  /** The intake succeeds on exactly the presentable logs. */
  lemma IntakeAccepts(logs: seq<Log>, head: Header)
    ensures Intake(logs, head).Ok? <==> Presentable(logs, head)
  {
    hide PassFault, Contracts, SortLogs, NeighboursInOrder, OneContract, OneFork, UniquePositions, OrderAgrees;
    PassMeans(logs, head);
    ContractsCounted(logs);
    if FirstPass(logs, head) {
      NeighboursMean(logs);
    }
  }

  /** What the first pass has established of the logs seen so far. */
  predicate FirstPass(logs: seq<Log>, head: Header) {
    && (forall l :: l in logs ==> EntryOk(l, head) && HeadAnchored(l, head))
    && OneFork(logs) && UniquePositions(logs)
  }

  lemma NothingCollected(logs: seq<Log>, head: Header)
    requires logs == []
    ensures FirstPass(logs, head)
  {
  }

  lemma ForkAppends(front: seq<Log>, log: Log)
    requires OneFork(front)
    ensures OneFork(front + [log]) <==> !ForkedBy(Hashes(front), log)
  {
    hide Hashes;
    HashesAre(front);
    var logs, n := front + [log], |front|;
    assert forall k :: 0 <= k < n ==> logs[k] == front[k];
    if ForkedBy(Hashes(front), log) {
      var k :| 0 <= k < n && front[k].blockNumber == log.blockNumber;
      assert logs[k].blockNumber == logs[n].blockNumber;
    }
  }

  lemma PositionAppends(front: seq<Log>, log: Log)
    requires UniquePositions(front)
    ensures UniquePositions(front + [log]) <==> KeyOf(log) !in Positions(front)
  {
    hide Positions;
    PositionsAre(front);
    UniqueSplits(front, log);
    if KeyOf(log) in Positions(front) {
      var k :| 0 <= k < |front| && KeyOf(front[k]) == KeyOf(log);
      assert front[k] in front;
    }
  }

  /** The next log passes exactly when it has none of the four faults; a fault rules the whole list out. */
  lemma OneMore(logs: seq<Log>, i: nat, head: Header)
    requires i < |logs| && FirstPass(logs[..i], head)
    ensures FirstPass(logs[..i + 1], head) <==>
            && EntryOk(logs[i], head) && HeadAnchored(logs[i], head)
            && !ForkedBy(Hashes(logs[..i]), logs[i]) && KeyOf(logs[i]) !in Positions(logs[..i])
    ensures FirstPass(logs, head) ==> FirstPass(logs[..i + 1], head)
  {
    hide EntryOk, HeadAnchored, OneFork, UniquePositions, ForkedBy, Hashes, Positions;
    assert logs[..i + 1] == logs[..i] + [logs[i]];
    ForkAppends(logs[..i], logs[i]);
    PositionAppends(logs[..i], logs[i]);
    PrefixPasses(logs, i + 1);
  }

  lemma PrefixPasses(logs: seq<Log>, i: nat)
    requires i <= |logs|
    ensures OneFork(logs) ==> OneFork(logs[..i])
    ensures UniquePositions(logs) ==> UniquePositions(logs[..i])
    ensures forall l :: l in logs[..i] ==> l in logs
  {
  }

  lemma {:induction false} HashesAre(logs: seq<Log>)
    requires OneFork(logs)
    ensures forall k :: 0 <= k < |logs| ==> HashAt(Hashes(logs), logs[k].blockNumber) == Some(logs[k].blockHash)
    ensures forall n :: HashAt(Hashes(logs), n).Some? ==> exists k :: 0 <= k < |logs| && logs[k].blockNumber == n
  {
    if logs != [] {
      var n := |logs| - 1;
      var front := logs[..n];
      HashesAre(front);
      forall m | HashAt(Hashes(logs), m).Some?
        ensures exists k :: 0 <= k < |logs| && logs[k].blockNumber == m
      {
        if m == logs[n].blockNumber {
          assert logs[n].blockNumber == m;
        } else {
          assert HashAt(Hashes(front), m) == HashAt(Hashes(logs), m);
          var k :| 0 <= k < |front| && front[k].blockNumber == m;
          assert logs[k].blockNumber == m;
        }
      }
    }
  }

  lemma {:induction false} PositionsAre(logs: seq<Log>)
    ensures forall k :: 0 <= k < |logs| ==> KeyOf(logs[k]) in Positions(logs)
    ensures forall key :: key in Positions(logs) ==> exists k :: 0 <= k < |logs| && KeyOf(logs[k]) == key
  {
    if logs != [] {
      var n := |logs| - 1;
      var front := logs[..n];
      PositionsAre(front);
      forall key | key in Positions(logs)
        ensures exists k :: 0 <= k < |logs| && KeyOf(logs[k]) == key
      {
        if key == KeyOf(logs[n]) {
          assert KeyOf(logs[n]) == key;
        } else {
          var k :| 0 <= k < |front| && KeyOf(front[k]) == key;
          assert KeyOf(logs[k]) == key;
        }
      }
    }
  }

  lemma {:induction false} ContractsAre(logs: seq<Log>)
    ensures logs != [] ==> logs[0].address in Contracts(logs)
    ensures OneContract(logs) && logs != [] ==> Contracts(logs) == {logs[0].address}
    ensures !OneContract(logs) ==> |Contracts(logs)| > 1
  {
    if logs != [] {
      var n := |logs| - 1;
      ContractsAre(logs[..n]);
      assert forall k :: 0 <= k < n ==> logs[..n][k] == logs[k];
      var before := Contracts(logs[..n]);
      assert Contracts(logs) == before + {logs[n].address};
      if logs[n].address in before {
        assert before + {logs[n].address} == before;
      } else {
        assert |before + {logs[n].address}| == |before| + 1;
      }
    }
  }

  lemma ContractsCounted(logs: seq<Log>)
    ensures |Contracts(logs)| > 1 <==> !OneContract(logs)
  {
    hide Contracts, OneContract;
    ContractsAre(logs);
    if logs == [] {
      NoContracts();
    }
  }

  lemma NoContracts()
    ensures Contracts([]) == {} && OneContract([])
  {
  }

  /** Neighbours in the sorted list are not found in conflict. */
  predicate InOrder(l: Log, k: Log) {
    l.blockNumber == k.blockNumber ==> l.logIndex < k.logIndex
  }

  predicate NeighboursInOrder(sorted: seq<Log>) {
    forall k :: 0 < k < |sorted| ==> InOrder(sorted[k - 1], sorted[k])
  }

  // ---------- Sorting ----------

  predicate Sorted(logs: seq<Log>) {
    forall i, j :: 0 <= i < j < |logs| ==> !Before(logs[j], logs[i])
  }

  lemma {:induction false} InsertHas(l: Log, sorted: seq<Log>)
    ensures multiset(InsertLog(l, sorted)) == multiset(sorted) + multiset{l}
  {
    hide Before;
    if sorted != [] {
      assert sorted == [sorted[0]] + sorted[1..];
      InsertHas(l, sorted[1..]);
    }
  }

  lemma BeforeOrders(l: Log, k: Log, m: Log)
    ensures Before(l, k) ==> !Before(k, l)
    ensures !Before(m, k) && !Before(k, l) ==> !Before(m, l)
  {
  }

  lemma {:induction false} InsertKeepsSorted(l: Log, sorted: seq<Log>)
    requires Sorted(sorted)
    ensures Sorted(InsertLog(l, sorted))
  {
    hide Before;
    if sorted != [] {
      if Before(sorted[0], l) {
        var inner := InsertLog(l, sorted[1..]);
        InsertKeepsSorted(l, sorted[1..]);
        InsertHas(l, sorted[1..]);
        forall k | 0 <= k < |inner|
          ensures !Before(inner[k], sorted[0])
        {
          assert inner[k] in multiset(inner);
          assert inner[k] == l || inner[k] in sorted[1..];
          BeforeOrders(sorted[0], l, l);
        }
      } else {
        forall k | 0 <= k < |sorted|
          ensures !Before(sorted[k], l)
        {
          if k > 0 {
            BeforeOrders(l, sorted[0], sorted[k]);
          }
        }
      }
    }
  }

  lemma {:induction false} SortIs(logs: seq<Log>)
    ensures multiset(SortLogs(logs)) == multiset(logs) && Sorted(SortLogs(logs))
  {
    hide Before, InsertLog;
    if logs != [] {
      SortIs(logs[1..]);
      InsertHas(logs[0], SortLogs(logs[1..]));
      InsertKeepsSorted(logs[0], SortLogs(logs[1..]));
      assert logs == [logs[0]] + logs[1..];
    }
  }

  lemma SortHas(logs: seq<Log>)
    ensures |SortLogs(logs)| == |logs| && forall l :: l in SortLogs(logs) <==> l in logs
  {
    SortIs(logs);
    assert forall l :: l in SortLogs(logs) <==> l in multiset(SortLogs(logs));
    assert forall l :: l in logs <==> l in multiset(logs);
    assert |multiset(SortLogs(logs))| == |multiset(logs)|;
  }

  /** Each log occurs once, and different logs have different positions. */
  ghost predicate UniqueElements(logs: seq<Log>) {
    && (forall l :: multiset(logs)[l] <= 1)
    && forall l, k :: l in logs && k in logs && KeyOf(l) == KeyOf(k) ==> l == k
  }

  lemma {:induction false} UniqueMeans(logs: seq<Log>)
    ensures UniquePositions(logs) <==> UniqueElements(logs)
  {
    if logs != [] {
      var n := |logs| - 1;
      UniqueMeans(logs[..n]);
      assert logs == logs[..n] + [logs[n]];
      UniqueSplits(logs[..n], logs[n]);
      ElementsSplit(logs[..n], logs[n]);
    }
  }

  lemma UniqueSplits(front: seq<Log>, last: Log)
    ensures UniquePositions(front + [last]) <==>
              UniquePositions(front) && forall l :: l in front ==> KeyOf(l) != KeyOf(last)
  {
    var logs, n := front + [last], |front|;
    assert forall k :: 0 <= k < n ==> logs[k] == front[k];
    if UniquePositions(logs) {
      forall l | l in front
        ensures KeyOf(l) != KeyOf(last)
      {
        var k :| 0 <= k < n && front[k] == l;
        assert KeyOf(logs[k]) != KeyOf(logs[n]);
      }
    }
  }

  lemma ElementsSplit(front: seq<Log>, last: Log)
    ensures UniqueElements(front + [last]) <==>
              UniqueElements(front) && forall l :: l in front ==> KeyOf(l) != KeyOf(last)
  {
    var logs := front + [last];
    assert forall l :: multiset(logs)[l] == multiset(front)[l] + if l == last then 1 else 0;
    assert forall l :: l in front <==> multiset(front)[l] > 0;
    assert last in logs;
    if UniqueElements(logs) {
      forall l | l in front
        ensures KeyOf(l) != KeyOf(last)
      {
        assert l in logs;
        assert multiset(logs)[last] <= 1;
      }
    }
  }

  lemma SortedIsUnique(logs: seq<Log>)
    requires UniquePositions(logs)
    ensures UniquePositions(SortLogs(logs))
  {
    SortIs(logs);
    SortHas(logs);
    UniqueMeans(logs);
    UniqueMeans(SortLogs(logs));
  }

  lemma SortedAscends(logs: seq<Log>)
    requires UniquePositions(logs) && OneFork(logs)
    ensures Ascending(SortLogs(logs))
  {
    var sorted := SortLogs(logs);
    SortIs(logs);
    SortHas(logs);
    SortedIsUnique(logs);
    forall i, j | 0 <= i < j < |sorted|
      ensures Before(sorted[i], sorted[j])
    {
      if sorted[i].blockNumber == sorted[j].blockNumber {
        SameFork(logs, sorted[i], sorted[j]);
        assert KeyOf(sorted[i]) != KeyOf(sorted[j]);
      }
    }
  }

  lemma SameFork(logs: seq<Log>, l: Log, k: Log)
    requires OneFork(logs) && l in logs && k in logs && l.blockNumber == k.blockNumber
    ensures l.blockHash == k.blockHash
  {
    var i :| 0 <= i < |logs| && logs[i] == l;
    var j :| 0 <= j < |logs| && logs[j] == k;
    assert i == j || i < j || j < i;
  }

  /** The neighbours of the sorted list are in order just when transactions and positions agree. */
  lemma NeighboursMean(logs: seq<Log>)
    requires UniquePositions(logs) && OneFork(logs)
    ensures NeighboursInOrder(SortLogs(logs)) <==> OrderAgrees(logs)
  {
    var sorted := SortLogs(logs);
    SortHas(logs);
    SortedAscends(logs);
    if NeighboursInOrder(sorted) {
      forall l, k | l in logs && k in logs
        ensures Agree(l, k)
      {
        var p :| 0 <= p < |sorted| && sorted[p] == l;
        var q :| 0 <= q < |sorted| && sorted[q] == k;
        if p < q && l.blockNumber == k.blockNumber {
          Climbs(sorted, p, q);
        }
      }
    }
    if OrderAgrees(logs) {
      forall k | 0 < k < |sorted|
        ensures InOrder(sorted[k - 1], sorted[k])
      {
        assert Before(sorted[k - 1], sorted[k]) && Agree(sorted[k - 1], sorted[k]);
      }
    }
  }

  lemma {:induction false} Climbs(sorted: seq<Log>, p: nat, q: nat)
    requires p < q < |sorted| && Ascending(sorted) && NeighboursInOrder(sorted)
    requires sorted[p].blockNumber == sorted[q].blockNumber
    ensures sorted[p].logIndex < sorted[q].logIndex
  {
    assert InOrder(sorted[q - 1], sorted[q]) && Before(sorted[q - 1], sorted[q]);
    if p < q - 1 {
      assert Before(sorted[p], sorted[q - 1]);
      Climbs(sorted, p, q - 1);
    }
  }

  // ---------- The order logs arrive in ----------

  lemma {:induction false} AscendingIsUnique(a: seq<Log>, b: seq<Log>)
    requires Ascending(a) && Ascending(b) && forall l :: l in a <==> l in b
    ensures a == b
  {
    FirstIsThere(a, b);
    FirstIsThere(b, a);
    if a != [] && b != [] {
      assert a == [a[0]] + a[1..] && b == [b[0]] + b[1..];
      forall l
        ensures l in a[1..] <==> l in b[1..]
      {
        RestHas(a, l);
        RestHas(b, l);
      }
      AscendingIsUnique(a[1..], b[1..]);
    }
  }

  lemma FirstIsThere(a: seq<Log>, b: seq<Log>)
    requires forall l :: l in a ==> l in b
    ensures a != [] ==> b != [] && a[0] in b
  {
    if a != [] {
      assert a[0] in a;
    }
  }

  lemma RestHas(a: seq<Log>, l: Log)
    requires a != [] && Ascending(a)
    ensures l in a[1..] <==> l in a && l != a[0]
  {
    assert a == [a[0]] + a[1..];
  }

  lemma SamePresentable(a: seq<Log>, b: seq<Log>, head: Header)
    requires multiset(a) == multiset(b) && Presentable(a, head)
    ensures Presentable(b, head)
  {
    assert forall l :: l in a <==> l in multiset(a);
    assert forall l :: l in b <==> l in multiset(b);
    UniqueMeans(a);
    UniqueMeans(b);
    forall i, j | 0 <= i < j < |b|
      ensures b[i].blockNumber == b[j].blockNumber ==> b[i].blockHash == b[j].blockHash
      ensures b[i].address == b[j].address
    {
      if b[i].blockNumber == b[j].blockNumber {
        SameFork(a, b[i], b[j]);
      }
      SameContract(a, b[i], b[j]);
    }
  }

  lemma SameContract(logs: seq<Log>, l: Log, k: Log)
    requires OneContract(logs) && l in logs && k in logs
    ensures l.address == k.address
  {
    var i :| 0 <= i < |logs| && logs[i] == l;
    var j :| 0 <= j < |logs| && logs[j] == k;
    assert i == j || i < j || j < i;
  }

  /** Whatever order the logs arrive in, they are taken in or not alike, and come out in one order. */
  lemma IntakeIgnoresOrder(a: seq<Log>, b: seq<Log>, head: Header)
    requires multiset(a) == multiset(b)
    ensures Intake(a, head).Ok? <==> Intake(b, head).Ok?
    ensures Intake(a, head).Ok? ==> Intake(a, head) == Intake(b, head)
  {
    hide Presentable, SortLogs, PassFault, Contracts, NeighboursInOrder;
    IntakeAccepts(a, head);
    IntakeAccepts(b, head);
    if Presentable(a, head) {
      SamePresentable(a, b, head);
      SameSorted(a, b, head);
    }
    if Presentable(b, head) {
      SamePresentable(b, a, head);
    }
  }

  lemma SameSorted(a: seq<Log>, b: seq<Log>, head: Header)
    requires multiset(a) == multiset(b) && Presentable(a, head) && Presentable(b, head)
    ensures SortLogs(a) == SortLogs(b)
  {
    hide SortLogs;
    assert forall l :: l in a <==> l in multiset(a);
    assert forall l :: l in b <==> l in multiset(b);
    SortHas(a);
    SortHas(b);
    SortedAscends(a);
    SortedAscends(b);
    AscendingIsUnique(SortLogs(a), SortLogs(b));
  }

  // ---------- What a fault says ----------

  lemma {:induction false} PassFaultMeans(logs: seq<Log>, head: Header)
    ensures match PassFault(logs, head)
            case None => true
            case Some(MalformedLogEntry) => exists l :: l in logs && !EntryOk(l, head)
            case Some(TwoForks) => !OneFork(logs)
            case Some(HeadNotAnchored) => exists l :: l in logs && !HeadAnchored(l, head)
            case Some(DuplicatePosition) => !UniquePositions(logs)
            case _ => false
  {
    hide EntryOk, HeadAnchored;
    if logs != [] {
      var n := |logs| - 1;
      var front := logs[..n];
      assert logs == front + [logs[n]];
      PassFaultMeans(front, head);
      assert forall l :: l in front ==> l in logs;
      PrefixPasses(logs, n);
      if PassFault(front, head) == None {
        PassMeans(front, head);
        ForkAppends(front, logs[n]);
        PositionAppends(front, logs[n]);
      }
    }
  }

  /** A refused list of logs has the fault it is refused for. */
  lemma RefusedTruly(logs: seq<Log>, head: Header)
    ensures match Intake(logs, head)
            case Ok(_) => true
            case Err(MalformedLogEntry) => exists l :: l in logs && !EntryOk(l, head)
            case Err(TwoForks) => !OneFork(logs)
            case Err(HeadNotAnchored) => exists l :: l in logs && !HeadAnchored(l, head)
            case Err(DuplicatePosition) => !UniquePositions(logs)
            case Err(MixedContracts) => !OneContract(logs)
            case Err(OrderConflict) => !OrderAgrees(logs)
  {
    hide PassFault, Contracts, SortLogs, NeighboursInOrder, OneContract, OneFork, UniquePositions, OrderAgrees, EntryOk;
    hide HeadAnchored;
    PassFaultMeans(logs, head);
    PassMeans(logs, head);
    ContractsCounted(logs);
    if FirstPass(logs, head) {
      NeighboursMean(logs);
    }
  }
}
